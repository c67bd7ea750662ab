/**
 The network outbound diagnoser: a one-pass accumulator that turns the collected status values
 into intervals. Times are integers, in nanoseconds from Go's zero time, the year 1.
 */
module StatusSegments {
  import opened Common
  import opened Strings

  type Time = int

  const ZERO_TIME: Time := 0
  const SECOND := 1_000_000_000

  datatype Datum = Datum(timeStamp: Time, kind: string, status: string)

  datatype Segment = Segment(host: string, kind: string, start: Time, end: Time, status: string)

  /******* The decision taken at each datum *******/

  // Go converts the seconds of a duration to an integer by truncation toward zero.
  function WholeSeconds(d: int): int {
    if d >= 0 then d / SECOND else -(-d / SECOND)
  }

  /** "More than five whole seconds" is a gap of at least six. */
  lemma SplitAtSixSeconds(d: int)
    ensures WholeSeconds(d) > 5 <==> d >= 6 * SECOND
  {
  }

  // Whether a datum ends the block that started at `first` and last grew by `prev`.
  predicate Splits(first: Datum, prev: Datum, next: Datum) {
    first.timeStamp == ZERO_TIME || Differs(prev, next)
  }

  predicate Differs(prev: Datum, next: Datum) {
    next.status != prev.status || next.timeStamp - prev.timeStamp >= 6 * SECOND
  }

  /******* The partition the intervals stand for *******/

  type Block = seq<Datum>

  function Flatten(blocks: seq<Block>): seq<Datum> {
    if blocks == [] then [] else blocks[0] + Flatten(blocks[1..])
  }

  // A block nowhere split inside.
  ghost predicate Unsplit(b: Block) {
    b != [] && forall i :: 0 < i < |b| ==> !Splits(b[0], b[i - 1], b[i])
  }

  // Consecutive blocks, none split inside, each ended by the first datum of the next.
  ghost predicate Partition(blocks: seq<Block>) {
    && (forall i :: 0 <= i < |blocks| ==> Unsplit(blocks[i]))
    && (forall i :: 0 < i < |blocks| ==> Splits(blocks[i - 1][0], Last(blocks[i - 1]), blocks[i][0]))
  }

  function Blocks(data: seq<Datum>): (blocks: seq<Block>)
    ensures forall i :: 0 <= i < |blocks| ==> blocks[i] != []
    ensures data != [] ==> blocks != []
  {
    if data == [] then []
    else AddDatum(Blocks(Front(data)), Last(data))
  }

  function AddDatum(blocks: seq<Block>, d: Datum): seq<Block>
    requires forall i :: 0 <= i < |blocks| ==> blocks[i] != []
  {
    if blocks == [] || Splits(Last(blocks)[0], Last(Last(blocks)), d) then blocks + [[d]]
    else Front(blocks) + [Last(blocks) + [d]]
  }

  function SegmentOf(host: string, b: Block): Segment
    requires b != []
  {
    Segment(host, b[0].kind, b[0].timeStamp, Last(b).timeStamp, Last(b).status)
  }

  /** The intervals of some blocks; a block that starts at the zero time yields none. */
  function SegmentsOf(host: string, blocks: seq<Block>): seq<Segment>
    requires forall i :: 0 <= i < |blocks| ==> blocks[i] != []
  {
    if blocks == [] then []
    else
      SegmentsOf(host, Front(blocks)) +
      if Last(blocks)[0].timeStamp == ZERO_TIME then [] else [SegmentOf(host, Last(blocks))]
  }

  /******* The accumulator *******/

  type Parser = string -> Option<Datum>

  function Parsed(lines: seq<string>, parse: Parser): seq<Datum> {
    if lines == [] then []
    else Parsed(Front(lines), parse) + match parse(Last(lines)) case None => [] case Some(d) => [d]
  }

  ghost function Intervals(host: string, data: seq<Datum>): seq<Segment> {
    SegmentsOf(host, Blocks(data))
  }

  // What one collected value contributes: nothing if it cannot be read; a line that does not parse is skipped.
  ghost function IntervalsOfValue(host: string, value: Read, parse: Parser): seq<Segment> {
    match value
    case Failed(_) => []
    case Content(text) => Intervals(host, Parsed(Split(text, '\n'), parse))
  }

  ghost function Diagnosis(host: string, values: seq<Read>, parse: Parser): seq<Segment> {
    if values == [] then []
    else Diagnosis(host, Front(values), parse) + IntervalsOfValue(host, Last(values), parse)
  }

  // The data point after some data: it stands for the last block, which is not in the output yet.
  ghost predicate Accumulated(host: string, data: seq<Datum>, point: Segment, done: seq<Segment>) {
    && point.host == host
    && (data == [] ==> point.start == ZERO_TIME && done == [])
    && (data != [] ==>
          var blocks := Blocks(data);
          && point == SegmentOf(host, Last(blocks))
          && done == SegmentsOf(host, Front(blocks)))
  }

  lemma AccumulatedAll(host: string, data: seq<Datum>, point: Segment, done: seq<Segment>)
    requires Accumulated(host, data, point, done)
    ensures Intervals(host, data) == done + if point.start == ZERO_TIME then [] else [point]
  {
  }

  // The datum ends the block the data point stands for, or finds none begun.
  predicate Ends(point: Segment, d: Datum) {
    point.start == ZERO_TIME || d.status != point.status || d.timeStamp - point.end >= 6 * SECOND
  }

  lemma BlocksSnoc(data: seq<Datum>, d: Datum)
    ensures Blocks(data + [d]) == AddDatum(Blocks(data), d)
  {
    assert Front(data + [d]) == data && Last(data + [d]) == d;
  }

  // The data point knows all that decides whether the open block goes on.
  lemma EndsIsSplits(host: string, data: seq<Datum>, point: Segment, done: seq<Segment>, d: Datum)
    requires Accumulated(host, data, point, done)
    ensures Blocks(data) == [] <==> data == []
    ensures Ends(point, d) <==> data == [] || Splits(Last(Blocks(data))[0], Last(Last(Blocks(data))), d)
  {
  }

  lemma AccumulatedBy(host: string, data: seq<Datum>, rest: seq<Block>, b: Block, point: Segment, done: seq<Segment>)
    requires data != [] && b != [] && forall i :: 0 <= i < |rest| ==> rest[i] != []
    requires Blocks(data) == rest + [b] && point == SegmentOf(host, b) && done == SegmentsOf(host, rest)
    ensures Accumulated(host, data, point, done)
  {
    assert Front(rest + [b]) == rest && Last(rest + [b]) == b;
  }

  lemma NewBlock(host: string, data: seq<Datum>, point: Segment, done: seq<Segment>, d: Datum)
    requires Accumulated(host, data, point, done) && Ends(point, d)
    ensures Accumulated(host, data + [d], Segment(host, d.kind, d.timeStamp, d.timeStamp, d.status),
                        done + if point.start == ZERO_TIME then [] else [point])
  {
    EndsIsSplits(host, data, point, done, d);
    BlocksSnoc(data, d);
    AccumulatedAll(host, data, point, done);
    AccumulatedBy(host, data + [d], Blocks(data), [d], Segment(host, d.kind, d.timeStamp, d.timeStamp, d.status),
                  done + if point.start == ZERO_TIME then [] else [point]);
  }

  lemma GrownBlock(host: string, data: seq<Datum>, point: Segment, done: seq<Segment>, d: Datum)
    requires Accumulated(host, data, point, done) && !Ends(point, d)
    ensures Accumulated(host, data + [d], point.(end := d.timeStamp), done)
  {
    EndsIsSplits(host, data, point, done, d);
    BlocksSnoc(data, d);
    var blocks := Blocks(data);
    AccumulatedBy(host, data + [d], Front(blocks), Last(blocks) + [d], point.(end := d.timeStamp), done);
  }

  /** values lists the collected values in the order the range over the map visits them. */
  method Diagnose(host: string, values: seq<Read>, parse: Parser) returns (outboundDiagnosticData: seq<Segment>)
    ensures outboundDiagnosticData == Diagnosis(host, values, parse)
  {
    outboundDiagnosticData := [];
    for v := 0 to |values|
      invariant outboundDiagnosticData == Diagnosis(host, values[..v], parse)
    {
      assert Front(values[..v + 1]) == values[..v];
      if values[v].Content? {
        var lines := Split(values[v].text, '\n');
        var more := DiagnoseLines(host, lines, parse);
        outboundDiagnosticData := outboundDiagnosticData + more;
      }
    }
    assert values[..|values|] == values;
  }

  // The inner loop of Diagnose, over the lines of one value.
  method DiagnoseLines(host: string, lines: seq<string>, parse: Parser) returns (out: seq<Segment>)
    ensures out == Intervals(host, Parsed(lines, parse))
  {
    out := [];
    var dataPoint := Segment(host, "", ZERO_TIME, ZERO_TIME, "");
    for l := 0 to |lines|
      invariant Accumulated(host, Parsed(lines[..l], parse), dataPoint, out)
    {
      assert Front(lines[..l + 1]) == lines[..l];
      ghost var data := Parsed(lines[..l], parse);
      var parsed := parse(lines[l]);
      if parsed.None? {
        assert data + [] == data;
      } else {
        var outboundDatum := parsed.value;
        SplitAtSixSeconds(outboundDatum.timeStamp - dataPoint.end);
        if dataPoint.start == ZERO_TIME {
          NewBlock(host, data, dataPoint, out, outboundDatum);
          assert out + [] == out;
          dataPoint := SetDataPoint(outboundDatum, dataPoint);
        } else if outboundDatum.status != dataPoint.status {
          NewBlock(host, data, dataPoint, out, outboundDatum);
          out := out + [dataPoint];
          dataPoint := SetDataPoint(outboundDatum, dataPoint);
        } else if WholeSeconds(outboundDatum.timeStamp - dataPoint.end) > 5 {
          NewBlock(host, data, dataPoint, out, outboundDatum);
          out := out + [dataPoint];
          dataPoint := SetDataPoint(outboundDatum, dataPoint);
        } else {
          GrownBlock(host, data, dataPoint, out, outboundDatum);
          dataPoint := dataPoint.(end := outboundDatum.timeStamp);
        }
      }
    }
    assert lines[..|lines|] == lines;
    AccumulatedAll(host, Parsed(lines, parse), dataPoint, out);
    if dataPoint.start != ZERO_TIME {
      out := out + [dataPoint];
    }
  }

  function SetDataPoint(d: Datum, point: Segment): Segment {
    point.(kind := d.kind, start := d.timeStamp, end := d.timeStamp, status := d.status)
  }

  /******* The blocks are the one partition of the data *******/

  lemma {:induction false} FlattenSnoc(blocks: seq<Block>, b: Block)
    ensures Flatten(blocks + [b]) == Flatten(blocks) + b
  {
    if blocks == [] {
      assert blocks + [b] == [b];
    } else {
      assert (blocks + [b])[1..] == blocks[1..] + [b];
      FlattenSnoc(blocks[1..], b);
    }
  }

  lemma NewBlockKeepsPartition(blocks: seq<Block>, d: Datum)
    requires Partition(blocks)
    requires blocks != [] ==> Splits(Last(blocks)[0], Last(Last(blocks)), d)
    ensures Partition(blocks + [[d]])
  {
    var now := blocks + [[d]];
    forall i | 0 < i < |now| ensures Splits(now[i - 1][0], Last(now[i - 1]), now[i][0]) {
      assert now[i - 1] == blocks[i - 1];
      assert if i < |blocks| then now[i] == blocks[i] else now[i] == [d] && blocks[i - 1] == Last(blocks);
    }
  }

  lemma GrownIsUnsplit(b: Block, d: Datum)
    requires Unsplit(b) && !Splits(b[0], Last(b), d)
    ensures Unsplit(b + [d]) && (b + [d])[0] == b[0]
  {
    var grown := b + [d];
    forall i | 0 < i < |grown| ensures !Splits(grown[0], grown[i - 1], grown[i]) {
      assert grown[i - 1] == b[i - 1];
      assert if i < |b| then grown[i] == b[i] else grown[i] == d;
    }
  }

  lemma GrownBlockKeepsPartition(blocks: seq<Block>, d: Datum)
    requires Partition(blocks) && blocks != [] && !Splits(Last(blocks)[0], Last(Last(blocks)), d)
    ensures Partition(Front(blocks) + [Last(blocks) + [d]])
  {
    var grown := Last(blocks) + [d];
    var now := Front(blocks) + [grown];
    GrownIsUnsplit(Last(blocks), d);
    forall i | 0 < i < |now| ensures Splits(now[i - 1][0], Last(now[i - 1]), now[i][0]) {
      assert now[i - 1] == blocks[i - 1];
      assert if i < |blocks| - 1 then now[i] == blocks[i] else now[i] == grown && grown[0] == blocks[i][0];
    }
  }

  lemma AddDatumKeepsPartition(blocks: seq<Block>, d: Datum)
    requires Partition(blocks)
    ensures Partition(AddDatum(blocks, d)) && Flatten(AddDatum(blocks, d)) == Flatten(blocks) + [d]
  {
    if blocks == [] || Splits(Last(blocks)[0], Last(Last(blocks)), d) {
      NewBlockKeepsPartition(blocks, d);
      FlattenSnoc(blocks, [d]);
    } else {
      GrownBlockKeepsPartition(blocks, d);
      var rest, b := Front(blocks), Last(blocks);
      assert blocks == rest + [b];
      FlattenSnoc(rest, b);
      FlattenSnoc(rest, b + [d]);
      assert Flatten(rest) + (b + [d]) == Flatten(rest) + b + [d];
    }
  }

  /** Every datum is in exactly one block, in order. */
  lemma {:induction false} BlocksPartition(data: seq<Datum>)
    ensures Partition(Blocks(data)) && Flatten(Blocks(data)) == data
  {
    if data != [] {
      BlocksPartition(Front(data));
      AddDatumKeepsPartition(Blocks(Front(data)), Last(data));
    }
  }

  lemma SplitAfterFirst(p: seq<Block>)
    requires Partition(p) && p != [] && |p[0]| < |Flatten(p)|
    ensures var f, k := Flatten(p), |p[0]|; f[..k] == p[0] && Splits(f[0], f[k - 1], f[k])
  {
    var f, k := Flatten(p), |p[0]|;
    assert f[..k] == p[0];
    assert p[1..] != [] && p[1..][0] == p[1];
    assert f[k] == p[1][0] && f[k - 1] == Last(p[0]) && f[0] == p[0][0];
  }

  lemma NoSplitWithinFirst(q: seq<Block>)
    requires Partition(q) && q != []
    ensures |q[0]| <= |Flatten(q)|
    ensures forall k :: 0 < k < |q[0]| ==> !Splits(Flatten(q)[0], Flatten(q)[k - 1], Flatten(q)[k])
  {
    assert forall k :: 0 <= k < |q[0]| ==> Flatten(q)[k] == q[0][k];
  }

  lemma FirstBlockNoShorter(p: seq<Block>, q: seq<Block>)
    requires Partition(p) && Partition(q) && p != [] && q != []
    requires Flatten(p) == Flatten(q)
    ensures |q[0]| <= |p[0]|
  {
    NoSplitWithinFirst(q);
    if |p[0]| < |q[0]| {
      SplitAfterFirst(p);
    }
  }

  lemma FlattenEmpty(p: seq<Block>)
    requires Partition(p)
    ensures Flatten(p) == [] <==> p == []
  {
    if p != [] {
      assert Flatten(p)[..|p[0]|] == p[0];
    }
  }

  /** Any partition of the data into unsplit blocks with splits between them is the one computed. */
  lemma {:induction false} PartitionUnique(p: seq<Block>, q: seq<Block>)
    requires Partition(p) && Partition(q) && Flatten(p) == Flatten(q)
    ensures p == q
  {
    FlattenEmpty(p);
    FlattenEmpty(q);
    if p != [] {
      FirstBlockNoShorter(p, q);
      FirstBlockNoShorter(q, p);
      assert Flatten(p)[..|p[0]|] == p[0] && Flatten(q)[..|q[0]|] == q[0];
      assert Flatten(p)[|p[0]|..] == Flatten(p[1..]) && Flatten(q)[|q[0]|..] == Flatten(q[1..]);
      PartitionUnique(p[1..], q[1..]);
      assert p == [p[0]] + p[1..] && q == [q[0]] + q[1..];
    }
  }

  /******* Which data the intervals account for *******/

  function Kept(blocks: seq<Block>): seq<Block>
    requires forall i :: 0 <= i < |blocks| ==> blocks[i] != []
  {
    if blocks == [] then []
    else Kept(Front(blocks)) + if Last(blocks)[0].timeStamp == ZERO_TIME then [] else [Last(blocks)]
  }

  // The last datum has the zero time where a block must start: the next datum will overwrite it.
  predicate LastIsLost(data: seq<Datum>) {
    && data != []
    && Last(data).timeStamp == ZERO_TIME
    && (Front(data) == [] || LastIsLost(Front(data)) || Differs(Last(Front(data)), Last(data)))
  }

  function Survivors(data: seq<Datum>): seq<Datum> {
    if data == [] then []
    else Survivors(Front(data)) + if LastIsLost(data) then [] else [Last(data)]
  }

  lemma {:induction false} KeptAreNonEmpty(host: string, blocks: seq<Block>)
    requires forall i :: 0 <= i < |blocks| ==> blocks[i] != []
    ensures |SegmentsOf(host, blocks)| == |Kept(blocks)|
    ensures forall i :: 0 <= i < |Kept(blocks)| ==>
              Kept(blocks)[i] != [] && SegmentsOf(host, blocks)[i] == SegmentOf(host, Kept(blocks)[i])
  {
    if blocks != [] {
      KeptAreNonEmpty(host, Front(blocks));
    }
  }

  // Flatten of Kept, taken from the back.
  function KeptData(blocks: seq<Block>): seq<Datum>
    requires forall i :: 0 <= i < |blocks| ==> blocks[i] != []
  {
    if blocks == [] then []
    else KeptData(Front(blocks)) + if Last(blocks)[0].timeStamp == ZERO_TIME then [] else Last(blocks)
  }

  lemma {:induction false} KeptDataIsFlat(blocks: seq<Block>)
    requires forall i :: 0 <= i < |blocks| ==> blocks[i] != []
    ensures KeptData(blocks) == Flatten(Kept(blocks))
  {
    if blocks != [] {
      KeptDataIsFlat(Front(blocks));
      FlattenSnoc(Kept(Front(blocks)), Last(blocks));
      assert Kept(Front(blocks)) + [] == Kept(Front(blocks));
    }
  }

  // The open block ends in the last datum, and a block that starts at the zero time is just that datum.
  lemma {:induction false} OpenBlock(data: seq<Datum>)
    requires data != []
    ensures
      var b := Last(Blocks(data));
      && Last(b) == Last(data)
      && (b[0].timeStamp == ZERO_TIME <==> LastIsLost(data))
      && (b[0].timeStamp == ZERO_TIME ==> |b| == 1)
  {
    var rest, d := Front(data), Last(data);
    if rest == [] {
      assert Last(AddDatum([], d)) == [d];
    } else {
      OpenBlock(rest);
      var open := Last(Blocks(rest));
      assert Last(AddDatum(Blocks(rest), d)) == if Splits(open[0], Last(open), d) then [d] else open + [d];
    }
  }

  lemma KeptDataSnoc(blocks: seq<Block>, b: Block)
    requires b != [] && forall i :: 0 <= i < |blocks| ==> blocks[i] != []
    ensures KeptData(blocks + [b]) == KeptData(blocks) + if b[0].timeStamp == ZERO_TIME then [] else b
  {
    assert Front(blocks + [b]) == blocks;
  }

  lemma ConcatAssociative(a: seq<Datum>, b: seq<Datum>, c: seq<Datum>)
    ensures a + (b + c) == a + b + c
  {
  }

  lemma {:induction false} KeptAreSurvivors(data: seq<Datum>)
    ensures KeptData(Blocks(data)) == Survivors(data)
  {
    if data != [] {
      var rest, d := Front(data), Last(data);
      KeptAreSurvivors(rest);
      OpenBlock(data);
      var blocks := Blocks(rest);
      if Blocks(data) == blocks + [[d]] {
        KeptDataSnoc(blocks, [d]);
      } else {
        KeptDataSnoc(Front(blocks), Last(blocks) + [d]);
        ConcatAssociative(KeptData(Front(blocks)), Last(blocks), [d]);
      }
    }
  }

  /**
   For any data: the intervals are those of the blocks that do not start at the zero time, and
   what these blocks leave out is exactly the data at the zero time that would start one.
   */
  lemma IntervalsExactly(host: string, data: seq<Datum>)
    ensures
      var kept, out := Kept(Blocks(data)), Intervals(host, data);
      && Flatten(kept) == Survivors(data)
      && |out| == |kept|
      && forall i :: 0 <= i < |out| ==> kept[i] != [] && out[i] == SegmentOf(host, kept[i])
  {
    KeptAreSurvivors(data);
    KeptDataIsFlat(Blocks(data));
    KeptAreNonEmpty(host, Blocks(data));
  }

  // Every datum at the zero time continues the one before it, in status and closely enough in time.
  ghost predicate NoZeroStarts(data: seq<Datum>) {
    forall i :: 0 <= i < |data| && data[i].timeStamp == ZERO_TIME ==> i > 0 && !Differs(data[i - 1], data[i])
  }

  lemma {:induction false} NoZeroStartNotLost(data: seq<Datum>)
    requires NoZeroStarts(data)
    ensures !LastIsLost(data)
  {
    if data != [] && Front(data) != [] {
      NoZeroStartNotLost(Front(data));
    }
  }

  lemma NoZeroStartsSnoc(data: seq<Datum>)
    requires data != []
    ensures
      var rest, d := Front(data), Last(data);
      NoZeroStarts(data) <==>
      NoZeroStarts(rest) && (d.timeStamp == ZERO_TIME ==> rest != [] && !Differs(Last(rest), d))
  {
    var rest := Front(data);
    assert forall i :: 0 <= i < |rest| ==> rest[i] == data[i];
    assert data[|rest|] == Last(data);
  }

  lemma {:induction false} NoMoreSurvivors(data: seq<Datum>)
    ensures |Survivors(data)| <= |data|
  {
    if data != [] {
      NoMoreSurvivors(Front(data));
    }
  }

  /** Nothing is lost exactly if no datum at the zero time comes first or differs from the one before it. */
  lemma {:induction false} NothingLostExactly(data: seq<Datum>)
    ensures Survivors(data) == data <==> NoZeroStarts(data)
  {
    if data != [] {
      var rest, d := Front(data), Last(data);
      assert data == rest + [d];
      NothingLostExactly(rest);
      NoMoreSurvivors(rest);
      NoZeroStartsSnoc(data);
      if NoZeroStarts(data) {
        NoZeroStartNotLost(data);
      }
    }
  }

  /** A single datum at the zero time leaves no trace. */
  lemma ZeroTimeIsLost(host: string, d: Datum)
    requires d.timeStamp == 0
    ensures Intervals(host, [d]) == [] && Survivors([d]) == []
  {
    IntervalsExactly(host, [d]);
    var data := [d];
    assert Front(data) == [] && Last(data) == d;
    assert Survivors(data) == [];
    assert Blocks(Front(data)) == [] && Blocks(data) == [[d]];
    var blocks := [[d]];
    assert Front(blocks) == [] && Last(blocks) == [d];
    assert Kept(Front(blocks)) == [] && Kept(blocks) == [];
  }

  lemma {:induction false} AllKept(blocks: seq<Block>)
    requires forall i :: 0 <= i < |blocks| ==> blocks[i] != [] && blocks[i][0].timeStamp != ZERO_TIME
    ensures Kept(blocks) == blocks
  {
    if blocks != [] {
      AllKept(Front(blocks));
    }
  }

  lemma {:induction false} BlocksDrawnFrom(blocks: seq<Block>, i: nat)
    requires i < |blocks| && blocks[i] != []
    ensures blocks[i][0] in Flatten(blocks)
  {
    if i > 0 {
      BlocksDrawnFrom(blocks[1..], i - 1);
    } else {
      assert Flatten(blocks)[0] == blocks[0][0];
    }
  }

  /**
   With no zero times, the intervals are those of the one partition of the data into consecutive
   blocks of equal status and gaps under six seconds, adjacent blocks differing in status or lying
   at least six seconds apart.
   */
  lemma IntervalsOfThePartition(host: string, data: seq<Datum>, p: seq<Block>)
    requires forall d :: d in data ==> d.timeStamp != ZERO_TIME
    requires Partition(p) && Flatten(p) == data
    ensures |Intervals(host, data)| == |p|
    ensures forall i :: 0 <= i < |p| ==> p[i] != [] && Intervals(host, data)[i] == SegmentOf(host, p[i])
  {
    BlocksPartition(data);
    PartitionUnique(p, Blocks(data));
    forall i | 0 <= i < |p| ensures p[i] != [] && p[i][0].timeStamp != ZERO_TIME {
      BlocksDrawnFrom(p, i);
    }
    AllKept(p);
    KeptAreNonEmpty(host, p);
  }

  // Blocks of one status and of gaps under six seconds, with a change of status or a longer gap between any two.
  ghost predicate AreMaximalRuns(p: seq<Block>) {
    && (forall i :: 0 <= i < |p| ==> IsRun(p[i]))
    && (forall i :: 0 < i < |p| ==> EndsBefore(p[i - 1], p[i]))
  }

  ghost predicate IsRun(b: Block) {
    b != [] && forall j :: 0 < j < |b| ==>
      b[j].status == b[j - 1].status && b[j].timeStamp - b[j - 1].timeStamp < 6_000_000_000
  }

  predicate EndsBefore(a: Block, b: Block) {
    a != [] && b != [] &&
    (b[0].status != a[|a| - 1].status || b[0].timeStamp - a[|a| - 1].timeStamp >= 6_000_000_000)
  }

  lemma {:induction false} RunHasOneStatus(b: Block)
    requires IsRun(b)
    ensures forall d :: d in b ==> d.status == b[0].status
  {
    if |b| > 1 {
      var rest := Front(b);
      RunHasOneStatus(rest);
      assert b == rest + [Last(b)];
      assert Last(rest) in rest && b[|b| - 1].status == b[|b| - 2].status;
    }
  }

  lemma RunIsUnsplit(b: Block)
    requires b != [] && b[0].timeStamp != ZERO_TIME
    ensures IsRun(b) <==> Unsplit(b)
  {
  }

  lemma RunsArePartition(p: seq<Block>)
    requires forall i :: 0 <= i < |p| ==> p[i] != [] && p[i][0].timeStamp != ZERO_TIME
    ensures AreMaximalRuns(p) <==> Partition(p)
  {
    forall i | 0 <= i < |p| ensures IsRun(p[i]) <==> Unsplit(p[i]) {
      RunIsUnsplit(p[i]);
    }
  }

  lemma NoZeroBlocks(data: seq<Datum>, p: seq<Block>)
    requires (forall d :: d in data ==> d.timeStamp != ZERO_TIME) && Flatten(p) == data
    ensures forall i :: 0 <= i < |p| && p[i] != [] ==> p[i][0].timeStamp != ZERO_TIME
  {
    forall i | 0 <= i < |p| && p[i] != [] ensures p[i][0].timeStamp != ZERO_TIME {
      BlocksDrawnFrom(p, i);
    }
  }

  /**
   Said outright, for any data without zero times and any way p of cutting it into such runs: there is
   one interval for each run, of the given host, with the run's first type, its first and its last time,
   and the status of all its data.
   */
  lemma IntervalsOfMaximalRuns(host: string, data: seq<Datum>, p: seq<Block>)
    requires forall d :: d in data ==> d.timeStamp != 0
    requires AreMaximalRuns(p) && Flatten(p) == data
    ensures |Intervals(host, data)| == |p|
    ensures forall i :: 0 <= i < |p| ==>
              var b, out := p[i], Intervals(host, data)[i];
              && b != []
              && out.host == host && out.kind == b[0].kind
              && out.start == b[0].timeStamp && out.end == b[|b| - 1].timeStamp
              && forall d :: d in b ==> d.status == out.status
  {
    NoZeroBlocks(data, p);
    RunsArePartition(p);
    IntervalsOfThePartition(host, data, p);
    forall i | 0 <= i < |p| ensures forall d :: d in p[i] ==> d.status == Last(p[i]).status {
      RunHasOneStatus(p[i]);
      assert Last(p[i]) in p[i];
    }
  }

  /** And any such data can be cut so. */
  lemma MaximalRunsExist(data: seq<Datum>) returns (p: seq<Block>)
    requires forall d :: d in data ==> d.timeStamp != ZERO_TIME
    ensures AreMaximalRuns(p) && Flatten(p) == data
  {
    p := Blocks(data);
    BlocksPartition(data);
    NoZeroBlocks(data, p);
    RunsArePartition(p);
  }

  /******* Values of many lines *******/

  // The data at these places, in order, and no others, are what the lines hold.
  ghost predicate Picks(lines: seq<string>, parse: Parser, places: seq<nat>, data: seq<Datum>) {
    && |data| == |places|
    && (forall k :: 0 <= k < |places| ==> places[k] < |lines| && parse(lines[places[k]]) == Some(data[k]))
    && (forall j, k :: 0 <= j < k < |places| ==> places[j] < places[k])
    && (forall i: nat :: i < |lines| && parse(lines[i]).Some? ==> i in places)
  }

  lemma PicksWithoutLast(lines: seq<string>, parse: Parser, places: seq<nat>, data: seq<Datum>)
    requires lines != [] && Picks(lines, parse, places, data) && parse(Last(lines)).None?
    ensures Picks(Front(lines), parse, places, data)
  {
    forall k | 0 <= k < |places| ensures places[k] < |lines| - 1 {
      assert parse(lines[places[k]]).Some?;
    }
    forall i: nat | i < |lines| - 1 && parse(Front(lines)[i]).Some? ensures i in places {
      assert Front(lines)[i] == lines[i];
    }
  }

  lemma PicksLast(lines: seq<string>, parse: Parser, places: seq<nat>, data: seq<Datum>)
    requires lines != [] && Picks(lines, parse, places, data) && parse(Last(lines)).Some?
    ensures places != [] && Last(places) == |lines| - 1 && Some(Last(data)) == parse(Last(lines))
    ensures Picks(Front(lines), parse, Front(places), Front(data))
  {
    var n := |lines| - 1;
    assert parse(lines[n]).Some?;
    assert n in places;
    assert places[|places| - 1] == n;
    forall i: nat | i < n && parse(Front(lines)[i]).Some? ensures i in Front(places) {
      assert Front(lines)[i] == lines[i];
      assert i in places && places == Front(places) + [n];
    }
  }

  /** The data that are parsed are those on the lines that hold any. */
  lemma {:induction false} PickedAreParsed(lines: seq<string>, parse: Parser, places: seq<nat>, data: seq<Datum>)
    requires Picks(lines, parse, places, data)
    ensures data == Parsed(lines, parse)
  {
    if lines == [] {
      assert places == [];
    } else if parse(Last(lines)).None? {
      PicksWithoutLast(lines, parse, places, data);
      PickedAreParsed(Front(lines), parse, places, data);
      assert data + [] == data;
    } else {
      PicksLast(lines, parse, places, data);
      PickedAreParsed(Front(lines), parse, Front(places), Front(data));
      assert data == Front(data) + [Last(data)];
    }
  }

  /**
   A value of several lines yields the intervals of the data on those of its lines that hold any, in
   order; the other lines are skipped. A value that cannot be read yields none.
   */
  lemma DiagnosisOfLines(host: string, lines: seq<string>, parse: Parser, places: seq<nat>, data: seq<Datum>)
    requires lines != [] && (forall i :: 0 <= i < |lines| ==> '\n' !in lines[i])
    requires Picks(lines, parse, places, data)
    ensures Diagnosis(host, [Content(Join(lines, '\n'))], parse) == Intervals(host, data)
    ensures forall err :: Diagnosis(host, [Failed(err)], parse) == []
  {
    SplitJoin(lines, '\n');
    PickedAreParsed(lines, parse, places, data);
    DiagnosisOfOne(host, Content(Join(lines, '\n')), parse);
    forall err ensures Diagnosis(host, [Failed(err)], parse) == [] {
      DiagnosisOfOne(host, Failed(err), parse);
    }
  }

  lemma DiagnosisOfOne(host: string, value: Read, parse: Parser)
    ensures Diagnosis(host, [value], parse) == IntervalsOfValue(host, value, parse)
  {
    assert Front([value]) == [] && Last([value]) == value;
    assert Diagnosis(host, [], parse) == [];
  }

  /** The values' intervals follow one another. */
  lemma {:induction false} DiagnosisConcat(host: string, a: seq<Read>, b: seq<Read>, parse: Parser)
    ensures Diagnosis(host, a + b, parse) == Diagnosis(host, a, parse) + Diagnosis(host, b, parse)
  {
    if b == [] {
      assert a + b == a;
    } else {
      assert Front(a + b) == a + Front(b) && Last(a + b) == Last(b);
      DiagnosisConcat(host, a, Front(b), parse);
      SegmentsRegroup(Diagnosis(host, a, parse), Diagnosis(host, Front(b), parse),
                      IntervalsOfValue(host, Last(b), parse));
    }
  }

  lemma SegmentsRegroup(a: seq<Segment>, b: seq<Segment>, c: seq<Segment>)
    ensures a + b + c == a + (b + c)
  {
  }

  /******* Intervals in time *******/

  ghost predicate InTimeOrder(data: seq<Datum>) {
    forall i, j :: 0 <= i < j < |data| ==> data[i].timeStamp <= data[j].timeStamp
  }

  ghost predicate BlocksInTimeOrder(blocks: seq<Block>) {
    && (forall i :: 0 <= i < |blocks| ==> blocks[i] != [] && blocks[i][0].timeStamp <= Last(blocks[i]).timeStamp)
    && (forall i, j :: 0 <= i < j < |blocks| ==> Last(blocks[i]).timeStamp <= blocks[j][0].timeStamp)
  }

  lemma AddDatumInTimeOrder(blocks: seq<Block>, d: Datum)
    requires BlocksInTimeOrder(blocks) && (blocks != [] ==> Last(Last(blocks)).timeStamp <= d.timeStamp)
    ensures BlocksInTimeOrder(AddDatum(blocks, d)) && Last(Last(AddDatum(blocks, d))) == d
  {
    var now := AddDatum(blocks, d);
    if now == blocks + [[d]] {
      forall i | 0 <= i < |blocks| ensures Last(blocks[i]).timeStamp <= d.timeStamp {
        assert i == |blocks| - 1 || Last(blocks[i]).timeStamp <= Last(blocks)[0].timeStamp;
      }
    } else {
      var grown := Last(blocks) + [d];
      assert now == Front(blocks) + [grown] && grown[0] == Last(blocks)[0] && Last(grown) == d;
      assert forall i :: 0 <= i < |blocks| - 1 ==> now[i] == blocks[i];
    }
  }

  lemma {:induction false} BlocksAreInTimeOrder(data: seq<Datum>)
    requires InTimeOrder(data)
    ensures BlocksInTimeOrder(Blocks(data))
    ensures data != [] ==> Last(Last(Blocks(data))) == Last(data)
  {
    if data != [] {
      BlocksAreInTimeOrder(Front(data));
      AddDatumInTimeOrder(Blocks(Front(data)), Last(data));
    }
  }

  // What the number of its data says about how long a block can last.
  predicate ShortSpan(b: Block)
    requires b != []
  {
    var span := Last(b).timeStamp - b[0].timeStamp;
    if |b| == 1 then span == 0 else span < 6 * SECOND * (|b| - 1)
  }

  lemma {:induction false} SpanOfBlock(b: Block)
    requires b != [] && forall i :: 0 < i < |b| ==> b[i].timeStamp - b[i - 1].timeStamp < 6 * SECOND
    ensures ShortSpan(b)
  {
    if |b| > 1 {
      SpanOfBlock(Front(b));
    }
  }

  /**
   If the data are in time order and have no zero times, every interval runs forward, intervals
   are ordered and do not overlap, and one built from n data spans less than 6(n - 1) seconds,
   or exactly none for a single datum.
   */
  lemma IntervalsInTime(host: string, data: seq<Datum>)
    requires InTimeOrder(data) && forall d :: d in data ==> d.timeStamp != ZERO_TIME
    ensures
      var out, blocks := Intervals(host, data), Blocks(data);
      && |out| == |blocks|
      && (forall i :: 0 <= i < |out| ==> out[i].start <= out[i].end)
      && (forall i, j :: 0 <= i < j < |out| ==> out[i].end <= out[j].start)
      && (forall i :: 0 <= i < |out| ==> out[i] == SegmentOf(host, blocks[i]) && ShortSpan(blocks[i]))
  {
    var blocks := Blocks(data);
    BlocksPartition(data);
    IntervalsOfThePartition(host, data, blocks);
    BlocksAreInTimeOrder(data);
    forall i | 0 <= i < |blocks| ensures ShortSpan(blocks[i]) {
      BlocksDrawnFrom(blocks, i);
      SpanOfBlock(blocks[i]);
    }
    SegmentsInTime(host, blocks, Intervals(host, data));
  }

  lemma SegmentsInTime(host: string, blocks: seq<Block>, out: seq<Segment>)
    requires BlocksInTimeOrder(blocks) && |out| == |blocks|
    requires forall i :: 0 <= i < |out| ==> out[i] == SegmentOf(host, blocks[i])
    ensures forall i :: 0 <= i < |out| ==> out[i].start <= out[i].end
    ensures forall i, j :: 0 <= i < j < |out| ==> out[i].end <= out[j].start
  {
    forall i, j | 0 <= i < j < |out| ensures out[i].end <= out[j].start {
      assert Last(blocks[i]).timeStamp <= blocks[j][0].timeStamp;
    }
  }

  /******* On what the collector writes *******/

  // The collector's data, visited in some order, as the values the diagnoser reads.
  function ValuesOf(collected: map<string, Datum>, order: seq<string>, encode: Datum -> string): seq<Read>
    requires forall k :: k in order ==> k in collected
  {
    if order == [] then []
    else ValuesOf(collected, Front(order), encode) + [Content(encode(collected[Last(order)]))]
  }

  function Instant(host: string, d: Datum): Segment {
    Segment(host, d.kind, d.timeStamp, d.timeStamp, d.status)
  }

  lemma OneParsed(line: string, d: Datum, parse: Parser)
    requires parse(line) == Some(d)
    ensures Parsed([line], parse) == [d] && Blocks([d]) == [[d]]
  {
    assert Front([line]) == [] && Last([line]) == line;
    assert Parsed(Front([line]), parse) == [];
    assert Front([d]) == [] && Last([d]) == d;
    assert Blocks(Front([d])) == [];
  }

  lemma OneSegment(host: string, d: Datum)
    requires d.timeStamp != ZERO_TIME
    ensures SegmentsOf(host, [[d]]) == [Instant(host, d)]
  {
    var b := [d];
    assert Last(b) == d;
    assert Front([b]) == [] && Last([b]) == b;
    assert SegmentsOf(host, Front([b])) == [];
  }

  lemma IntervalsOfEncoded(host: string, line: string, d: Datum, parse: Parser)
    requires parse(line) == Some(d) && d.timeStamp != ZERO_TIME && '\n' !in line
    ensures IntervalsOfValue(host, Content(line), parse) == [Instant(host, d)]
  {
    SplitPlain(line, '\n');
    OneParsed(line, d, parse);
    OneSegment(host, d);
  }

  // One instant for each visited key, in order.
  function Instants(host: string, collected: map<string, Datum>, order: seq<string>): (out: seq<Segment>)
    requires forall k :: k in order ==> k in collected
    ensures |out| == |order|
    ensures forall i :: 0 <= i < |out| ==> out[i] == Instant(host, collected[order[i]])
  {
    if order == [] then [] else Instants(host, collected, Front(order)) + [Instant(host, collected[Last(order)])]
  }

  /**
   The collector stores one encoded datum per type. Whatever order the range over its map takes,
   the diagnosis lists each collected datum once, as an interval that starts and ends at its time.
   */
  lemma {:induction false} DiagnosisOfCollected(host: string, collected: map<string, Datum>, order: seq<string>,
                                                encode: Datum -> string, parse: Parser)
    requires forall k :: k in order ==> k in collected
    requires forall k :: k in collected ==>
               && collected[k].timeStamp != ZERO_TIME
               && '\n' !in encode(collected[k])
               && parse(encode(collected[k])) == Some(collected[k])
    ensures Diagnosis(host, ValuesOf(collected, order, encode), parse) == Instants(host, collected, order)
  {
    if order != [] {
      var rest, d := Front(order), collected[Last(order)];
      DiagnosisOfCollected(host, collected, rest, encode, parse);
      IntervalsOfEncoded(host, encode(d), d, parse);
      var values := ValuesOf(collected, rest, encode);
      assert Front(values + [Content(encode(d))]) == values;
    }
  }
}
