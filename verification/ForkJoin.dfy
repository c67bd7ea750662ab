/**
 The fork/join inside one Periscope run: collectors are spawned one by one and joined, then the
 diagnosers, then everything is zipped. Workers interleave freely; every event below is one
 atomic step of the main goroutine or of one worker.
 */
module ForkJoin {
  import opened Common

  type Data = map<string, string>

  datatype Entry = Entry(key: string, value: string)

  // What a collector does: the entries it stores, and whether it returns without error.
  datatype Collector = Collector(name: string, supported: bool, writes: seq<Entry>, ok: bool)

  // What a diagnoser does depends on the collectors' data, which it consults at every step.
  datatype Diagnoser = Diagnoser(
    name: string,
    count: seq<Data> -> nat,
    write: (seq<Data>, nat) -> Entry,
    ok: seq<Data> -> bool)

  datatype Program = Program(collectors: seq<Collector>, diagnosers: seq<Diagnoser>) {
    function Size(): nat {
      |collectors| + |diagnosers|
    }

    predicate Supported(w: nat)
      requires w < Size()
    {
      w < |collectors| ==> collectors[w].supported
    }

    function Count(w: nat, view: seq<Data>): nat
      requires w < Size()
    {
      if w < |collectors| then |collectors[w].writes| else diagnosers[w - |collectors|].count(view)
    }

    function Write(w: nat, view: seq<Data>, k: nat): Entry
      requires w < Size() && k < Count(w, view)
    {
      if w < |collectors| then collectors[w].writes[k] else diagnosers[w - |collectors|].write(view, k)
    }

    predicate Succeeds(w: nat, view: seq<Data>)
      requires w < Size()
    {
      if w < |collectors| then collectors[w].ok else diagnosers[w - |collectors|].ok(view)
    }
  }

  /******* The concurrent execution *******/

  // Where a worker stands; Working(k) has stored k entries.
  datatype Pc = Unborn | Working(k: nat) | Exporting | Returning | Finished

  // A worker's goroutine with the data it fills and the exports it has attempted.
  datatype Worker = Worker(pc: Pc, data: Data, exports: seq<Data>)

  // next: the next worker to be spawned; joined: how many of the two groups have been waited for;
  // pending: the counters of the two WaitGroups; zipped: what the archive was built from.
  datatype State = State(
    next: nat,
    joined: nat,
    pending: (nat, nat),
    producers: seq<nat>,
    workers: seq<Worker>,
    zipped: Option<seq<Data>>)

  datatype Event =
    | Spawn       // check support of the next worker, and start it if it has it
    | Join        // WaitGroup.Wait returns; after the second, the archive is written
    | Step(w: nat)

  const NEW_WORKER := Worker(Unborn, map[], [])

  function Init(p: Program): State {
    State(0, 0, (0, 0), [], seq(p.Size(), _ => NEW_WORKER), None)
  }

  function View(p: Program, s: State): seq<Data>
    requires |s.workers| == p.Size()
  {
    seq(|p.collectors|, i requires 0 <= i < |p.collectors| => s.workers[i].data)
  }

  predicate Running(pc: Pc) {
    !pc.Unborn? && !pc.Finished?
  }

  // The number of workers the main goroutine has spawned before it waits for group `joined`.
  function GroupEnd(p: Program, joined: nat): nat {
    if joined == 0 then |p.collectors| else p.Size()
  }

  predicate Enabled(p: Program, s: State, e: Event) {
    && |s.workers| == p.Size()
    && match e
       case Spawn => s.joined < 2 && s.next < GroupEnd(p, s.joined)
       case Join =>
         && s.joined < 2 && s.next == GroupEnd(p, s.joined)
         && (if s.joined == 0 then s.pending.0 else s.pending.1) == 0
       case Step(w) => w < p.Size() && Running(s.workers[w].pc)
  }

  function Advance(p: Program, w: nat, view: seq<Data>, v: Worker): Worker
    requires w < p.Size() && Running(v.pc)
  {
    match v.pc
    case Working(k) =>
      if k < p.Count(w, view) then
        var entry := p.Write(w, view, k);
        v.(pc := Working(k + 1), data := v.data[entry.key := entry.value])
      else v.(pc := if p.Succeeds(w, view) then Exporting else Returning)
    case Exporting => v.(pc := Returning, exports := v.exports + [v.data])
    case Returning => v.(pc := Finished)
  }

  function Bump(pending: (nat, nat), first: bool): (nat, nat) {
    if first then (pending.0 + 1, pending.1) else (pending.0, pending.1 + 1)
  }

  // Done on a WaitGroup; DoneFindsPositive shows that the counter is always positive then.
  function Drop(pending: (nat, nat), first: bool): (nat, nat) {
    if first then (if pending.0 > 0 then pending.0 - 1 else 0, pending.1)
    else (pending.0, if pending.1 > 0 then pending.1 - 1 else 0)
  }

  function Next(p: Program, s: State, e: Event): State
    requires Enabled(p, s, e)
  {
    match e
    case Spawn =>
      if p.Supported(s.next) then
        s.(next := s.next + 1,
           pending := Bump(s.pending, s.next < |p.collectors|),
           producers := s.producers + [s.next],
           workers := s.workers[s.next := s.workers[s.next].(pc := Working(0))])
      else s.(next := s.next + 1)
    case Join =>
      if s.joined == 0 then s.(joined := 1)
      else s.(joined := 2, zipped := Some(Archive(s.workers, s.producers)))
    case Step(w) =>
      var v := Advance(p, w, View(p, s), s.workers[w]);
      s.(workers := s.workers[w := v],
         pending := if v.pc.Finished? then Drop(s.pending, w < |p.collectors|) else s.pending)
  }

  // The data of the producers, in order: what Zip is given.
  function Archive(workers: seq<Worker>, producers: seq<nat>): seq<Data> {
    seq(|producers|, i requires 0 <= i < |producers| =>
      if producers[i] < |workers| then workers[producers[i]].data else map[])
  }

  function Exec(p: Program, evs: seq<Event>): Option<State> {
    if evs == [] then Some(Init(p))
    else
      match Exec(p, Front(evs))
      case None => None
      case Some(s) => if Enabled(p, s, Last(evs)) then Some(Next(p, s, Last(evs))) else None
  }

  /******* The sequential execution *******/

  function Filled(p: Program, w: nat, view: seq<Data>, k: nat): Data
    requires w < p.Size() && k <= p.Count(w, view)
  {
    if k == 0 then map[]
    else
      var entry := p.Write(w, view, k - 1);
      Filled(p, w, view, k - 1)[entry.key := entry.value]
  }

  // One worker run to its end by itself.
  function Alone(p: Program, w: nat, view: seq<Data>): Worker
    requires w < p.Size()
  {
    if !p.Supported(w) then NEW_WORKER
    else
      var data := Filled(p, w, view, p.Count(w, view));
      Worker(Finished, data, if p.Succeeds(w, view) then [data] else [])
  }

  // The data of all collectors, each run by itself. Collectors look at nobody's data.
  function CollectedData(p: Program): seq<Data> {
    seq(|p.collectors|, w requires 0 <= w < |p.collectors| => Alone(p, w, []).data)
  }

  function SupportedUpTo(p: Program, n: nat): seq<nat>
    requires n <= p.Size()
  {
    if n == 0 then [] else SupportedUpTo(p, n - 1) + if p.Supported(n - 1) then [n - 1] else []
  }

  /** Every supported collector to its end, one after the other, then every diagnoser. */
  function Sequential(p: Program): State {
    var workers := seq(p.Size(), w requires 0 <= w < p.Size() => Alone(p, w, CollectedData(p)));
    var producers := SupportedUpTo(p, p.Size());
    State(p.Size(), 2, (0, 0), producers, workers, Some(Archive(workers, producers)))
  }

  /******* What every interleaving keeps *******/

  // A worker is somewhere on the way it would go alone.
  ghost predicate OnCourse(p: Program, w: nat, view: seq<Data>, v: Worker)
    requires w < p.Size()
  {
    match v.pc
    case Unborn => v == NEW_WORKER
    case Working(k) => k <= p.Count(w, view) && v.data == Filled(p, w, view, k) && v.exports == []
    case Exporting => p.Succeeds(w, view) && v.data == Filled(p, w, view, p.Count(w, view)) && v.exports == []
    case _ => v.(pc := Finished) == Alone(p, w, view)
  }

  function RunningIn(workers: seq<Worker>): nat {
    if workers == [] then 0 else RunningIn(Front(workers)) + if Running(Last(workers).pc) then 1 else 0
  }

  ghost predicate Shape(p: Program, s: State) {
    && |s.workers| == p.Size()
    && s.joined <= 2
    && (s.joined >= 1 ==> |p.collectors| <= s.next)
    && s.next <= GroupEnd(p, s.joined)
    && (s.joined == 2 ==> s.next == p.Size())
    && s.producers == SupportedUpTo(p, s.next)
    && s.zipped == (if s.joined == 2 then Some(Archive(s.workers, s.producers)) else None)
  }

  ghost predicate WorkersOnCourse(p: Program, s: State)
    requires |s.workers| == p.Size()
  {
    forall w :: 0 <= w < p.Size() ==>
      && OnCourse(p, w, CollectedData(p), s.workers[w])
      && (s.workers[w].pc.Unborn? <==> s.next <= w || !p.Supported(w))
  }

  ghost predicate CountersRight(p: Program, s: State)
    requires |s.workers| == p.Size()
  {
    && s.pending.0 == RunningIn(s.workers[..|p.collectors|])
    && s.pending.1 == RunningIn(s.workers[|p.collectors|..])
    && (s.joined >= 1 ==> s.pending.0 == 0)
    && (s.joined == 2 ==> s.pending.1 == 0)
  }

  ghost predicate Inv(p: Program, s: State) {
    Shape(p, s) && WorkersOnCourse(p, s) && CountersRight(p, s)
  }

  lemma {:induction false} NoneRunningAtFirst(n: nat)
    ensures RunningIn(seq(n, _ => NEW_WORKER)) == 0
  {
    if n > 0 {
      NoneRunningAtFirst(n - 1);
      assert Front(seq(n, _ => NEW_WORKER)) == seq(n - 1, _ => NEW_WORKER);
    }
  }

  lemma InitInv(p: Program)
    ensures Inv(p, Init(p))
  {
    var ws := Init(p).workers;
    assert ws[..|p.collectors|] == seq(|p.collectors|, _ => NEW_WORKER);
    assert ws[|p.collectors|..] == seq(|p.diagnosers|, _ => NEW_WORKER);
    NoneRunningAtFirst(|p.collectors|);
    NoneRunningAtFirst(|p.diagnosers|);
  }

  function One(pc: Pc): nat {
    if Running(pc) then 1 else 0
  }

  lemma {:induction false} RunningUpdate(ws: seq<Worker>, w: nat, v: Worker)
    requires w < |ws|
    ensures RunningIn(ws[w := v]) == RunningIn(ws) - One(ws[w].pc) + One(v.pc)
    ensures One(ws[w].pc) <= RunningIn(ws)
  {
    if w == |ws| - 1 {
      assert Front(ws[w := v]) == Front(ws);
    } else {
      assert Front(ws[w := v]) == Front(ws)[w := v];
      RunningUpdate(Front(ws), w, v);
    }
  }

  lemma {:induction false} NoneRunning(ws: seq<Worker>)
    ensures RunningIn(ws) == 0 <==> forall i :: 0 <= i < |ws| ==> !Running(ws[i].pc)
  {
    if ws != [] {
      NoneRunning(Front(ws));
    }
  }

  lemma RunningGroups(p: Program, ws: seq<Worker>, w: nat, v: Worker)
    requires w < |ws| == p.Size()
    ensures
      var n, now := |p.collectors|, ws[w := v];
      if w < n then
        && RunningIn(now[..n]) == RunningIn(ws[..n]) - One(ws[w].pc) + One(v.pc)
        && RunningIn(now[n..]) == RunningIn(ws[n..])
        && One(ws[w].pc) <= RunningIn(ws[..n])
      else
        && RunningIn(now[..n]) == RunningIn(ws[..n])
        && RunningIn(now[n..]) == RunningIn(ws[n..]) - One(ws[w].pc) + One(v.pc)
        && One(ws[w].pc) <= RunningIn(ws[n..])
  {
    var n, now := |p.collectors|, ws[w := v];
    if w < n {
      assert now[..n] == ws[..n][w := v] && now[n..] == ws[n..];
      RunningUpdate(ws[..n], w, v);
    } else {
      assert now[n..] == ws[n..][w - n := v] && now[..n] == ws[..n];
      RunningUpdate(ws[n..], w - n, v);
    }
  }

  /******* Collectors look at nobody's data *******/

  lemma {:induction false} FilledIgnoresView(p: Program, w: nat, a: seq<Data>, b: seq<Data>, k: nat)
    requires w < |p.collectors| && k <= p.Count(w, a)
    ensures Filled(p, w, a, k) == Filled(p, w, b, k)
  {
    if k > 0 {
      FilledIgnoresView(p, w, a, b, k - 1);
    }
  }

  lemma AloneIgnoresView(p: Program, w: nat, a: seq<Data>, b: seq<Data>)
    requires w < |p.collectors|
    ensures Alone(p, w, a) == Alone(p, w, b)
  {
    FilledIgnoresView(p, w, a, b, p.Count(w, a));
  }

  // Past the first barrier the shared data is final.
  lemma CollectorsAreDone(p: Program, s: State)
    requires Inv(p, s) && s.joined >= 1
    ensures View(p, s) == CollectedData(p)
    ensures forall w :: 0 <= w < |p.collectors| ==> s.workers[w] == Alone(p, w, CollectedData(p))
  {
    var n := |p.collectors|;
    NoneRunning(s.workers[..n]);
    forall w | 0 <= w < n
      ensures s.workers[w] == Alone(p, w, CollectedData(p)) && View(p, s)[w] == CollectedData(p)[w]
    {
      assert s.workers[..n][w] == s.workers[w];
      AloneIgnoresView(p, w, [], CollectedData(p));
    }
  }

  /******* Every event keeps the invariant *******/

  lemma AdvanceOnCourse(p: Program, w: nat, view: seq<Data>, v: Worker)
    requires w < p.Size() && p.Supported(w) && OnCourse(p, w, view, v) && Running(v.pc)
    ensures OnCourse(p, w, view, Advance(p, w, view, v))
    ensures !Advance(p, w, view, v).pc.Unborn?
  {
    match v.pc
    case Working(k) =>
    case Exporting =>
    case Returning =>
  }

  lemma AdvanceFromView(p: Program, s: State, w: nat)
    requires Inv(p, s) && Enabled(p, s, Step(w))
    ensures Advance(p, w, View(p, s), s.workers[w]) == Advance(p, w, CollectedData(p), s.workers[w])
  {
    if w >= |p.collectors| {
      CollectorsAreDone(p, s);
    }
  }

  lemma StepKeepsCounters(p: Program, s: State, w: nat)
    requires Shape(p, s) && CountersRight(p, s) && Enabled(p, s, Step(w))
    ensures CountersRight(p, Next(p, s, Step(w)))
    ensures s.joined < 2
  {
    RunningGroups(p, s.workers, w, Advance(p, w, View(p, s), s.workers[w]));
  }

  /** Done never takes a WaitGroup's counter below zero. */
  lemma DoneFindsPositive(p: Program, evs: seq<Event>, w: nat)
    requires Exec(p, evs).Some? && Enabled(p, Exec(p, evs).value, Step(w))
    ensures var s := Exec(p, evs).value; (if w < |p.collectors| then s.pending.0 else s.pending.1) > 0
  {
    ExecInv(p, evs);
    var s := Exec(p, evs).value;
    RunningGroups(p, s.workers, w, s.workers[w]);
  }

  lemma StepKeepsInv(p: Program, s: State, w: nat)
    requires Inv(p, s) && Enabled(p, s, Step(w))
    ensures Inv(p, Next(p, s, Step(w)))
  {
    AdvanceFromView(p, s, w);
    AdvanceOnCourse(p, w, CollectedData(p), s.workers[w]);
    StepKeepsCounters(p, s, w);
  }

  lemma SpawnKeepsCounters(p: Program, s: State)
    requires Shape(p, s) && CountersRight(p, s) && Enabled(p, s, Spawn) && s.workers[s.next].pc.Unborn?
    ensures CountersRight(p, Next(p, s, Spawn))
  {
    if p.Supported(s.next) {
      RunningGroups(p, s.workers, s.next, s.workers[s.next].(pc := Working(0)));
    }
  }

  lemma SpawnKeepsInv(p: Program, s: State)
    requires Inv(p, s) && Enabled(p, s, Spawn)
    ensures Inv(p, Next(p, s, Spawn))
  {
    SpawnKeepsCounters(p, s);
    assert SupportedUpTo(p, s.next) + [] == SupportedUpTo(p, s.next);
  }

  lemma JoinKeepsInv(p: Program, s: State)
    requires Inv(p, s) && Enabled(p, s, Join)
    ensures Inv(p, Next(p, s, Join))
  {
  }

  lemma {:induction false} ExecInv(p: Program, evs: seq<Event>)
    requires Exec(p, evs).Some?
    ensures Inv(p, Exec(p, evs).value)
  {
    if evs == [] {
      InitInv(p);
    } else {
      ExecInv(p, Front(evs));
      var s := Exec(p, Front(evs)).value;
      match Last(evs)
      case Spawn => SpawnKeepsInv(p, s);
      case Join => JoinKeepsInv(p, s);
      case Step(w) => StepKeepsInv(p, s, w);
    }
  }

  /******* Order and outcome *******/

  /**
   Whenever a diagnoser has been started, every supported collector has taken its last step, and
   the data the diagnosers see is the collectors' final data.
   */
  lemma DiagnosersAfterCollectors(p: Program, evs: seq<Event>, d: nat)
    requires Exec(p, evs).Some? && |p.collectors| <= d < p.Size()
    requires !Exec(p, evs).value.workers[d].pc.Unborn?
    ensures
      var s := Exec(p, evs).value;
      && View(p, s) == CollectedData(p)
      && forall c :: 0 <= c < |p.collectors| ==>
           && s.workers[c] == Alone(p, c, CollectedData(p))
           && !Enabled(p, s, Step(c))
  {
    ExecInv(p, evs);
    CollectorsAreDone(p, Exec(p, evs).value);
  }

  lemma NobodyRuns(p: Program, s: State)
    requires Shape(p, s) && CountersRight(p, s) && s.joined == 2
    ensures forall w :: 0 <= w < p.Size() ==> !Running(s.workers[w].pc)
  {
    var n := |p.collectors|;
    NoneRunning(s.workers[..n]);
    NoneRunning(s.workers[n..]);
    forall w | 0 <= w < p.Size() ensures !Running(s.workers[w].pc) {
      assert if w < n then s.workers[..n][w] == s.workers[w] else s.workers[n..][w - n] == s.workers[w];
    }
  }

  lemma StoppedIsAlone(p: Program, w: nat, view: seq<Data>, v: Worker)
    requires w < p.Size() && OnCourse(p, w, view, v) && !Running(v.pc)
    requires v.pc.Unborn? <==> !p.Supported(w)
    ensures v == Alone(p, w, view)
  {
  }

  lemma AllWorkersDone(p: Program, s: State)
    requires Inv(p, s) && s.joined == 2
    ensures forall w :: 0 <= w < p.Size() ==> s.workers[w] == Alone(p, w, CollectedData(p))
  {
    NobodyRuns(p, s);
    forall w | 0 <= w < p.Size() ensures s.workers[w] == Alone(p, w, CollectedData(p)) {
      StoppedIsAlone(p, w, CollectedData(p), s.workers[w]);
    }
  }

  /** Every complete interleaving ends exactly where the sequential execution ends. */
  lemma CompleteIsSequential(p: Program, evs: seq<Event>)
    requires Exec(p, evs).Some? && Exec(p, evs).value.joined == 2
    ensures Exec(p, evs).value == Sequential(p)
  {
    ExecInv(p, evs);
    var s := Exec(p, evs).value;
    AllWorkersDone(p, s);
    assert s.workers == Sequential(p).workers;
  }

  /******* Every interleaving can be completed, and none runs on for ever *******/

  lemma SomethingCanMove(p: Program, s: State) returns (e: Event)
    requires Inv(p, s) && s.joined < 2
    ensures Enabled(p, s, e)
  {
    var n := |p.collectors|;
    if s.next < GroupEnd(p, s.joined) {
      e := Spawn;
    } else if (if s.joined == 0 then s.pending.0 else s.pending.1) == 0 {
      e := Join;
    } else if s.joined == 0 {
      NoneRunning(s.workers[..n]);
      var w :| 0 <= w < n && Running(s.workers[..n][w].pc);
      assert s.workers[..n][w] == s.workers[w];
      e := Step(w);
    } else {
      NoneRunning(s.workers[n..]);
      var w :| 0 <= w < |s.workers[n..]| && Running(s.workers[n..][w].pc);
      assert s.workers[n..][w] == s.workers[n + w];
      e := Step(n + w);
    }
  }

  // The number of steps a worker can still take.
  function StepsLeft(p: Program, w: nat, v: Worker): nat
    requires w < p.Size()
  {
    var count := p.Count(w, CollectedData(p));
    match v.pc
    case Unborn => count + 3
    case Working(k) => (if k <= count then count - k else 0) + 3
    case Exporting => 2
    case Returning => 1
    case Finished => 0
  }

  function AllStepsLeft(p: Program, ws: seq<Worker>, n: nat): nat
    requires n <= |ws| == p.Size()
  {
    if n == 0 then 0 else AllStepsLeft(p, ws, n - 1) + StepsLeft(p, n - 1, ws[n - 1])
  }

  function EventsLeft(p: Program, s: State): nat
    requires Shape(p, s)
  {
    2 - s.joined + p.Size() - s.next + AllStepsLeft(p, s.workers, p.Size())
  }

  lemma {:induction false} StepsLeftUpdate(p: Program, ws: seq<Worker>, w: nat, v: Worker, n: nat)
    requires w < |ws| == p.Size() && n <= p.Size()
    ensures AllStepsLeft(p, ws[w := v], n) ==
            AllStepsLeft(p, ws, n) + if w < n then StepsLeft(p, w, v) - StepsLeft(p, w, ws[w]) else 0
  {
    if n > 0 {
      StepsLeftUpdate(p, ws, w, v, n - 1);
    }
  }

  lemma AdvanceLeavesLess(p: Program, w: nat, v: Worker)
    requires w < p.Size() && Running(v.pc) && OnCourse(p, w, CollectedData(p), v)
    ensures StepsLeft(p, w, Advance(p, w, CollectedData(p), v)) < StepsLeft(p, w, v)
  {
  }

  lemma StepLeavesLess(p: Program, s: State, w: nat)
    requires Inv(p, s) && Enabled(p, s, Step(w)) && Shape(p, Next(p, s, Step(w)))
    ensures EventsLeft(p, Next(p, s, Step(w))) < EventsLeft(p, s)
  {
    AdvanceFromView(p, s, w);
    AdvanceLeavesLess(p, w, s.workers[w]);
    StepsLeftUpdate(p, s.workers, w, Advance(p, w, CollectedData(p), s.workers[w]), p.Size());
  }

  lemma SpawnLeavesLess(p: Program, s: State)
    requires Inv(p, s) && Enabled(p, s, Spawn) && Shape(p, Next(p, s, Spawn))
    ensures EventsLeft(p, Next(p, s, Spawn)) < EventsLeft(p, s)
  {
    StepsLeftUpdate(p, s.workers, s.next, s.workers[s.next].(pc := Working(0)), p.Size());
  }

  lemma EventsRunOut(p: Program, s: State, e: Event)
    requires Inv(p, s) && Enabled(p, s, e) && Shape(p, Next(p, s, e))
    ensures EventsLeft(p, Next(p, s, e)) < EventsLeft(p, s)
  {
    match e
    case Join =>
    case Spawn => SpawnLeavesLess(p, s);
    case Step(w) => StepLeavesLess(p, s, w);
  }

  lemma {:induction false} RunsAreBounded(p: Program, evs: seq<Event>)
    requires Exec(p, evs).Some?
    ensures Inv(p, Exec(p, evs).value) && Inv(p, Init(p))
    ensures |evs| + EventsLeft(p, Exec(p, evs).value) <= EventsLeft(p, Init(p))
  {
    ExecInv(p, evs);
    InitInv(p);
    if evs != [] {
      RunsAreBounded(p, Front(evs));
      EventsRunOut(p, Exec(p, Front(evs)).value, Last(evs));
    }
  }

  /**
   No interleaving is longer than a bound fixed by the program; and one that cannot go on has
   completed, in the state of the sequential execution: same producers, same data, same attempted
   exports, same archive.
   */
  lemma EveryInterleavingIsSequential(p: Program, evs: seq<Event>)
    requires Exec(p, evs).Some?
    ensures Inv(p, Init(p)) && |evs| <= EventsLeft(p, Init(p))
    ensures (forall e :: !Enabled(p, Exec(p, evs).value, e)) ==> Exec(p, evs).value == Sequential(p)
  {
    RunsAreBounded(p, evs);
    var s := Exec(p, evs).value;
    if s.joined == 2 {
      CompleteIsSequential(p, evs);
    } else {
      var e := SomethingCanMove(p, s);
    }
  }

  /** Every interleaving can be completed. */
  lemma CanBeCompleted(p: Program, evs: seq<Event>) returns (whole: seq<Event>)
    requires Exec(p, evs).Some?
    ensures evs <= whole && Exec(p, whole) == Some(Sequential(p))
    decreases if Shape(p, Exec(p, evs).value) then EventsLeft(p, Exec(p, evs).value) else 0
  {
    ExecInv(p, evs);
    var s := Exec(p, evs).value;
    if s.joined == 2 {
      whole := evs;
      CompleteIsSequential(p, evs);
    } else {
      var e := SomethingCanMove(p, s);
      assert Front(evs + [e]) == evs;
      ExecInv(p, evs + [e]);
      EventsRunOut(p, s, e);
      whole := CanBeCompleted(p, evs + [e]);
    }
  }
}
