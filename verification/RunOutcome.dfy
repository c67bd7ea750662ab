/**
 What a complete run leaves behind, said of its collectors and diagnosers themselves: which of them
 were producers, what data each holds, what it exported, and what the archive was built from.
 */
module RunOutcome {
  import opened Common
  import opened ForkJoin

  // The value a key was last written with, if it was.
  function LastValue(writes: seq<Entry>, key: string): Option<string> {
    if writes == [] then None
    else if Last(writes).key == key then Some(Last(writes).value)
    else LastValue(Front(writes), key)
  }

  /** It is that of the last entry for the key. */
  lemma {:induction false} LastValueExactly(writes: seq<Entry>, i: nat)
    requires i < |writes| && forall j :: i < j < |writes| ==> writes[j].key != writes[i].key
    ensures LastValue(writes, writes[i].key) == Some(writes[i].value)
  {
    if i < |writes| - 1 {
      LastValueExactly(Front(writes), i);
    }
  }

  lemma {:induction false} NoValueExactly(writes: seq<Entry>, key: string)
    ensures LastValue(writes, key).None? <==> forall i :: 0 <= i < |writes| ==> writes[i].key != key
  {
    if writes != [] {
      NoValueExactly(Front(writes), key);
      assert writes == Front(writes) + [Last(writes)];
    }
  }

  function Lookup(data: Data, key: string): Option<string> {
    if key in data then Some(data[key]) else None
  }

  // Every key written, each with the value written last.
  ghost predicate HoldsLastWrites(data: Data, writes: seq<Entry>) {
    forall key :: Lookup(data, key) == LastValue(writes, key)
  }

  lemma HoldsOneMore(data: Data, writes: seq<Entry>, e: Entry)
    requires HoldsLastWrites(data, writes)
    ensures HoldsLastWrites(data[e.key := e.value], writes + [e])
  {
    assert Front(writes + [e]) == writes && Last(writes + [e]) == e;
    forall key ensures Lookup(data[e.key := e.value], key) == LastValue(writes + [e], key) {
      assert Lookup(data, key) == LastValue(writes, key);
    }
  }

  lemma {:induction false} FilledHoldsLastWrites(p: Program, w: nat, view: seq<Data>, k: nat, writes: seq<Entry>)
    requires w < p.Size() && k <= p.Count(w, view) && |writes| == k
    requires forall i :: 0 <= i < k ==> writes[i] == p.Write(w, view, i)
    ensures HoldsLastWrites(Filled(p, w, view, k), writes)
  {
    if k > 0 {
      FilledHoldsLastWrites(p, w, view, k - 1, Front(writes));
      HoldsOneMore(Filled(p, w, view, k - 1), Front(writes), Last(writes));
      assert writes == Front(writes) + [Last(writes)];
    }
  }

  // A worker that ran: it holds what it wrote, and exported that once if it succeeded.
  ghost predicate Ran(v: Worker, writes: seq<Entry>, ok: bool) {
    v.pc.Finished? && HoldsLastWrites(v.data, writes) && v.exports == if ok then [v.data] else []
  }

  lemma AloneRan(p: Program, w: nat, view: seq<Data>, writes: seq<Entry>)
    requires w < p.Size() && p.Supported(w) && |writes| == p.Count(w, view)
    requires forall i :: 0 <= i < |writes| ==> writes[i] == p.Write(w, view, i)
    ensures Ran(Alone(p, w, view), writes, p.Succeeds(w, view))
  {
    FilledHoldsLastWrites(p, w, view, |writes|, writes);
  }

  ghost predicate Completed(p: Program, evs: seq<Event>) {
    Exec(p, evs).Some? && Exec(p, evs).value.joined == 2
  }

  /**
   In every complete interleaving a collector that is not supported has neither data nor exports. One
   that is has stored what it writes, the last value for each key, and has attempted to export just
   this if it returned without error, and nothing otherwise.
   */
  lemma CollectorOutcome(p: Program, evs: seq<Event>, c: nat)
    requires Completed(p, evs) && c < |p.collectors|
    ensures |Exec(p, evs).value.workers| == |p.collectors| + |p.diagnosers|
    ensures
      var v, collector := Exec(p, evs).value.workers[c], p.collectors[c];
      if collector.supported then Ran(v, collector.writes, collector.ok)
      else v.pc.Unborn? && v.data == map[] && v.exports == []
  {
    CompleteIsSequential(p, evs);
    if p.collectors[c].supported {
      AloneRan(p, c, CollectedData(p), p.collectors[c].writes);
    }
  }

  // The collectors' data.
  function DataOfCollectors(p: Program, s: State): seq<Data>
    requires |p.collectors| <= |s.workers|
  {
    seq(|p.collectors|, c requires 0 <= c < |p.collectors| => s.workers[c].data)
  }

  function WritesOf(d: Diagnoser, view: seq<Data>): seq<Entry> {
    seq(d.count(view), k requires 0 <= k < d.count(view) => d.write(view, k))
  }

  lemma FinalView(p: Program)
    ensures DataOfCollectors(p, Sequential(p)) == CollectedData(p)
  {
    forall c | 0 <= c < |p.collectors| ensures Sequential(p).workers[c].data == CollectedData(p)[c] {
      AloneIgnoresView(p, c, [], CollectedData(p));
    }
  }

  /** Every diagnoser has done its part on the data that the collectors end with. */
  lemma DiagnoserOutcome(p: Program, evs: seq<Event>, d: nat)
    requires Completed(p, evs) && d < |p.diagnosers|
    ensures |Exec(p, evs).value.workers| == |p.collectors| + |p.diagnosers|
    ensures
      var s, diagnoser := Exec(p, evs).value, p.diagnosers[d];
      var view := DataOfCollectors(p, s);
      Ran(s.workers[|p.collectors| + d], WritesOf(diagnoser, view), diagnoser.ok(view))
  {
    CompleteIsSequential(p, evs);
    FinalView(p);
    DiagnoserRan(p, d, CollectedData(p));
  }

  lemma DiagnoserRan(p: Program, d: nat, view: seq<Data>)
    requires d < |p.diagnosers|
    ensures Ran(Alone(p, |p.collectors| + d, view), WritesOf(p.diagnosers[d], view), p.diagnosers[d].ok(view))
  {
    var w, writes := |p.collectors| + d, WritesOf(p.diagnosers[d], view);
    assert forall i :: 0 <= i < |writes| ==> writes[i] == p.Write(w, view, i);
    AloneRan(p, w, view, writes);
  }

  // Among the first n workers, the supported collectors and all diagnosers, each once and in order.
  ghost predicate ThoseToRun(p: Program, n: nat, list: seq<nat>) {
    && (forall i :: 0 <= i < |list| ==> list[i] < n)
    && (forall i, j :: 0 <= i < j < |list| ==> list[i] < list[j])
    && (forall w: nat :: w in list <==> w < n && (w < |p.collectors| ==> p.collectors[w].supported))
  }

  lemma {:induction false} ListedExactly(p: Program, n: nat)
    requires n <= p.Size()
    ensures ThoseToRun(p, n, SupportedUpTo(p, n))
  {
    if n > 0 {
      ListedExactly(p, n - 1);
    }
  }

  // One data set per producer, in order.
  ghost predicate DataInOrder(zipped: seq<Data>, producers: seq<nat>, workers: seq<Worker>) {
    |zipped| == |producers| &&
    forall i :: 0 <= i < |producers| ==> producers[i] < |workers| && zipped[i] == workers[producers[i]].data
  }

  /**
   The producers are the supported collectors and all diagnosers, each once, in the order in which they
   are spawned; and the archive is built from the data that each of them ends with, in this order.
   */
  lemma ProducersAndArchive(p: Program, evs: seq<Event>)
    requires Completed(p, evs)
    ensures
      var s := Exec(p, evs).value;
      && ThoseToRun(p, |p.collectors| + |p.diagnosers|, s.producers)
      && s.zipped.Some? && DataInOrder(s.zipped.value, s.producers, s.workers)
  {
    CompleteIsSequential(p, evs);
    ListedExactly(p, p.Size());
  }
}
