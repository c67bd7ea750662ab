/**
 The watch, run and exit protocol: a polling goroutine, a runner goroutine and the main
 goroutine, joined by two unbuffered channels, beside an environment that rewrites the run ID
 file at any moment. Each event is one atomic step; a run is any list of events.
 */
module WatchAndRun {
  import opened Common
  import W = FileContentWatching
  import H = WatchHistories

  datatype Poller =
    | Idle                     // between two polls
    | HasRead(read: Read)      // the file was read, the item not yet updated
    | Announcing(msg: W.Message) // blocked in a channel send

  datatype Runner =
    | Receiving
    | Started(notified: string)              // in run(), before the runtime information is read
    | Using(notified: string, used: string)  // working under the run ID it read for itself
    | Reporting(err: string)                 // blocked sending its error

  datatype Main = Waiting | Holding(err: string) | Exited

  // A run that got as far as knowing its ID: what it was notified of, and what it read.
  datatype Run = Run(notified: string, used: string)

  datatype State = State(
    file: Read,             // what a read of the run ID file would yield now
    history: seq<Read>,     // what it would have yielded from the start on, after each write
    polled: bool,           // a poll has read the file since it was last written
    seen: seq<Read>,        // what the polls have read and acted on
    item: W.Item,
    poller: Poller,
    runner: Runner,
    main: Main,
    received: seq<string>,  // what the runner took from its channel
    runs: seq<Run>,
    failures: seq<string>) // the errors that runs have returned, in order

  datatype Event =
    | Write(read: Read)
    | PollRead
    | PollUpdate
    | DeliverContent
    | DeliverError
    | LoadInfo(ok: bool)              // GetRuntimeInfo, with the outcome of everything but the run ID
    | Finish(failure: Option<string>) // run returns nil or an error
    | ReportError
    | Exit

  function Init(file: Read): State {
    State(file, [file], false, [], W.Item("", None, [0], [0]), Idle, Receiving, Waiting, [], [], [])
  }

  predicate Alive(s: State) {
    !s.main.Exited?
  }

  predicate Enabled(s: State, e: Event) {
    match e
    case Write(_) => true
    case PollRead => Alive(s) && s.poller.Idle?
    case PollUpdate => Alive(s) && s.poller.HasRead?
    case DeliverContent => Alive(s) && s.poller.Announcing? && s.poller.msg.NewContent? && s.runner.Receiving?
    case DeliverError => s.main.Waiting? && s.poller.Announcing? && s.poller.msg.ReadError?
    case LoadInfo(_) => Alive(s) && s.runner.Started?
    case Finish(_) => Alive(s) && s.runner.Using?
    case ReportError => s.main.Waiting? && s.runner.Reporting?
    case Exit => s.main.Holding?
  }

  function Next(s: State, e: Event): State
    requires Enabled(s, e)
  {
    match e
    case Write(r) => s.(file := r, history := s.history + [r], polled := false)
    case PollRead => s.(poller := HasRead(s.file), polled := true)
    case PollUpdate =>
      var r := s.poller.read;
      var item := W.AfterRead(s.item, r);
      s.(item := item, seen := s.seen + [r],
         poller := if W.Noticed(s.item, r) then Announcing(W.Announcement(item)) else Idle)
    case DeliverContent =>
      s.(poller := Idle, runner := Started(s.poller.msg.text), received := s.received + [s.poller.msg.text])
    case DeliverError => s.(poller := Idle, main := Holding(s.poller.msg.err))
    case LoadInfo(ok) =>
      // The run ID is mandatory and must not be empty; any failure here ends the process.
      if ok && s.file.Content? && s.file.text != "" then
        s.(runner := Using(s.runner.notified, s.file.text), runs := s.runs + [Run(s.runner.notified, s.file.text)])
      else s.(main := Exited)
    case Finish(failure) =>
      (match failure
       case None => s.(runner := Receiving)
       case Some(err) => s.(runner := Reporting(err), failures := s.failures + [err]))
    case ReportError => s.(runner := Receiving, main := Holding(s.runner.err))
    case Exit => s.(main := Exited)
  }

  function Exec(s: State, evs: seq<Event>): Option<State> {
    if evs == [] then Some(s)
    else
      match Exec(s, Front(evs))
      case None => None
      case Some(t) => if Enabled(t, Last(evs)) then Some(Next(t, Last(evs))) else None
  }

  lemma {:induction false} ExecConcat(s: State, a: seq<Event>, b: seq<Event>)
    requires Exec(s, a).Some?
    ensures Exec(s, a + b) == Exec(Exec(s, a).value, b)
  {
    if b == [] {
      assert a + b == a;
    } else {
      assert Front(a + b) == a + Front(b);
      ExecConcat(s, a, Front(b));
    }
  }

  /******* What every run keeps *******/

  // The content announcement the poller is blocked in, if any.
  function PendingNews(s: State): seq<string> {
    if s.poller.Announcing? && s.poller.msg.NewContent? then [s.poller.msg.text] else []
  }

  function Contents(msgs: seq<W.Message>): seq<string> {
    if msgs == [] then []
    else Contents(Front(msgs)) + if Last(msgs).NewContent? then [Last(msgs).text] else []
  }

  function Notified(runs: seq<Run>): seq<string> {
    seq(|runs|, i requires 0 <= i < |runs| => runs[i].notified)
  }

  // The item is what the reads acted on make it, and the announced contents are received in order, each once.
  ghost predicate NoticesInOrder(s: State) {
    && s.item.content == H.Baseline(s.seen)
    && Contents(H.Messages(s.seen)) == s.received + PendingNews(s)
    && (s.poller.Announcing? ==> s.seen != [] && s.poller.msg == H.MessageOf(Last(s.seen)))
  }

  // The last non-empty content acted on was announced last.
  ghost predicate LastNoticeIsStored(s: State) {
    s.item.content != "" ==>
      var news := s.received + PendingNews(s);
      news != [] && Last(news) == s.item.content
  }

  // Each notice starts exactly one run, in order; the present one may not know its ID yet.
  ghost predicate RunsMirrorNotices(s: State) {
    && (Alive(s) ==> s.received == Notified(s.runs) + if s.runner.Started? then [s.runner.notified] else [])
    && (s.runner.Using? ==> s.runs != [] && Last(s.runs) == Run(s.runner.notified, s.runner.used))
  }

  // With nothing written since the last read, that read is of the present file.
  ghost predicate ReadsAreOfTheFile(s: State) {
    && s.history != [] && Last(s.history) == s.file
    && (s.polled ==> if s.poller.HasRead? then s.poller.read == s.file
                     else s.seen != [] && Last(s.seen) == s.file)
  }

  ghost predicate Inv(s: State) {
    NoticesInOrder(s) && LastNoticeIsStored(s) && RunsMirrorNotices(s) && ReadsAreOfTheFile(s)
  }

  lemma InitInv(file: Read)
    ensures Inv(Init(file))
  {
  }

  lemma AnnouncedNext(rs: seq<Read>, r: Read)
    ensures Front(rs + [r]) == rs && Last(rs + [r]) == r
    ensures Contents(H.Messages(rs + [r])) ==
            Contents(H.Messages(rs)) + if H.Announced(rs, r) && r.Content? then [r.text] else []
  {
    assert Front(rs + [r]) == rs && Last(rs + [r]) == r;
    var msgs := H.Messages(rs);
    if H.Announced(rs, r) {
      assert Front(msgs + [H.MessageOf(r)]) == msgs;
    } else {
      assert msgs + [] == msgs;
    }
  }

  lemma UpdateKeepsOrder(s: State)
    requires NoticesInOrder(s) && Enabled(s, PollUpdate)
    ensures NoticesInOrder(Next(s, PollUpdate))
    ensures PendingNews(s) == []
    ensures PendingNews(Next(s, PollUpdate)) ==
            if H.Announced(s.seen, s.poller.read) && s.poller.read.Content? then [s.poller.read.text] else []
  {
    AnnouncedNext(s.seen, s.poller.read);
  }

  lemma UpdateKeepsNotices(s: State)
    requires NoticesInOrder(s) && LastNoticeIsStored(s) && Enabled(s, PollUpdate)
    ensures NoticesInOrder(Next(s, PollUpdate)) && LastNoticeIsStored(Next(s, PollUpdate))
  {
    UpdateKeepsOrder(s);
    var r, t := s.poller.read, Next(s, PollUpdate);
    if H.Announced(s.seen, r) && r.Content? {
      assert Last(t.received + [r.text]) == r.text;
    }
  }

  lemma DeliveryKeepsNotices(s: State)
    requires NoticesInOrder(s) && LastNoticeIsStored(s) && Enabled(s, DeliverContent)
    ensures NoticesInOrder(Next(s, DeliverContent)) && LastNoticeIsStored(Next(s, DeliverContent))
  {
    assert Next(s, DeliverContent).received + [] == s.received + PendingNews(s);
  }

  lemma StepNotices(s: State, e: Event)
    requires NoticesInOrder(s) && LastNoticeIsStored(s) && Enabled(s, e)
    ensures NoticesInOrder(Next(s, e)) && LastNoticeIsStored(Next(s, e))
  {
    match e
    case PollUpdate => UpdateKeepsNotices(s);
    case DeliverContent => DeliveryKeepsNotices(s);
    case _ =>
      var t := Next(s, e);
      assert t.seen == s.seen && t.item == s.item && t.received == s.received && PendingNews(t) == PendingNews(s);
  }

  lemma StepRuns(s: State, e: Event)
    requires RunsMirrorNotices(s) && Enabled(s, e)
    ensures RunsMirrorNotices(Next(s, e))
  {
    if e.LoadInfo? && Alive(Next(s, e)) {
      var run := Run(s.runner.notified, s.file.text);
      assert Notified(s.runs + [run]) == Notified(s.runs) + [run.notified];
      assert Last(s.runs + [run]) == run;
    }
  }

  lemma StepReads(s: State, e: Event)
    requires ReadsAreOfTheFile(s) && Enabled(s, e)
    ensures ReadsAreOfTheFile(Next(s, e))
  {
    if e.PollUpdate? {
      assert Last(s.seen + [s.poller.read]) == s.poller.read;
    }
  }

  lemma StepInv(s: State, e: Event)
    requires Inv(s) && Enabled(s, e)
    ensures Inv(Next(s, e))
  {
    StepNotices(s, e);
    StepRuns(s, e);
    StepReads(s, e);
  }

  lemma {:induction false} ExecInv(file: Read, evs: seq<Event>)
    requires Exec(Init(file), evs).Some?
    ensures Inv(Exec(Init(file), evs).value)
  {
    if evs == [] {
      InitInv(file);
    } else {
      ExecInv(file, Front(evs));
      StepInv(Exec(Init(file), Front(evs)).value, Last(evs));
    }
  }

  // The program left to itself.
  ghost predicate WriteFree(evs: seq<Event>) {
    forall i :: 0 <= i < |evs| ==> !evs[i].Write?
  }

  // One more event at the end of a run.
  lemma Extend(s: State, evs: seq<Event>, t: State, e: Event) returns (evs': seq<Event>, t': State)
    requires Exec(s, evs) == Some(t) && Enabled(t, e)
    ensures evs' == evs + [e] && t' == Next(t, e) && Exec(s, evs') == Some(t')
    ensures WriteFree(evs) && !e.Write? ==> WriteFree(evs')
  {
    evs', t' := evs + [e], Next(t, e);
    assert Front(evs') == evs;
  }

  // Three steps by which a changed file starts a run.
  lemma StartRun(s: State) returns (evs: seq<Event>, t: State)
    requires Alive(s) && s.poller.Idle? && s.runner.Receiving? && s.file.Content? && s.file.text != s.item.content
    ensures Exec(s, evs) == Some(t)
    ensures t == s.(polled := true, seen := s.seen + [s.file], item := W.AfterRead(s.item, s.file),
                    runner := Started(s.file.text), received := s.received + [s.file.text])
  {
    evs, t := Extend(s, [], s, PollRead);
    evs, t := Extend(s, evs, t, PollUpdate);
    evs, t := Extend(s, evs, t, DeliverContent);
  }

  /******* The last run is for the present run ID *******/

  // Polled since the last change, nothing pending, no run active, and a run ID to be served.
  predicate Quiescent(s: State) {
    && s.polled && s.poller.Idle? && s.runner.Receiving? && s.main.Waiting?
    && s.file.Content? && s.file.text != ""
  }

  /** In every quiescent state of every run, the last run was started by the notice for the present content. */
  lemma QuiescentLastNotified(file: Read, evs: seq<Event>)
    requires Exec(Init(file), evs).Some? && Quiescent(Exec(Init(file), evs).value)
    ensures var s := Exec(Init(file), evs).value; s.runs != [] && Last(s.runs).notified == s.file.text
  {
    ExecInv(file, evs);
    var s := Exec(Init(file), evs).value;
    assert s.received + [] == s.received;
    assert Last(s.received) == s.file.text;
    assert s.received == Notified(s.runs);
  }

  // The file had the content a, and then or later the content b.
  ghost predicate InOrder(history: seq<Read>, a: string, b: string) {
    exists i, j :: 0 <= i <= j < |history| && history[i] == Content(a) && history[j] == Content(b)
  }

  // Every notice under way or taken is of a content the file had.
  ghost predicate NoticesAreOld(s: State) {
    && (s.poller.HasRead? ==> s.poller.read in s.history)
    && (s.poller.Announcing? && s.poller.msg.NewContent? ==> Content(s.poller.msg.text) in s.history)
    && (s.runner.Started? ==> Content(s.runner.notified) in s.history)
  }

  // Every run was notified of one content, and read the same or a later one.
  ghost predicate RunsAreInOrder(s: State) {
    forall r :: r in s.runs ==> r.used != "" && InOrder(s.history, r.notified, r.used)
  }

  lemma InOrderLater(history: seq<Read>, more: seq<Read>, a: string, b: string)
    requires InOrder(history, a, b)
    ensures InOrder(history + more, a, b)
  {
    var i, j :| 0 <= i <= j < |history| && history[i] == Content(a) && history[j] == Content(b);
    assert (history + more)[i] == Content(a) && (history + more)[j] == Content(b);
  }

  lemma InOrderNow(history: seq<Read>, a: string, b: string)
    requires history != [] && Content(a) in history && Last(history) == Content(b)
    ensures InOrder(history, a, b)
  {
    var i :| 0 <= i < |history| && history[i] == Content(a);
    assert history[|history| - 1] == Content(b);
  }

  lemma StepKeepsNoticesOld(s: State, e: Event)
    requires ReadsAreOfTheFile(s) && NoticesAreOld(s) && Enabled(s, e)
    ensures NoticesAreOld(Next(s, e))
  {
    assert e.PollRead? ==> s.file in s.history;
  }

  lemma StepKeepsRunsInOrder(s: State, e: Event)
    requires ReadsAreOfTheFile(s) && NoticesAreOld(s) && RunsAreInOrder(s) && Enabled(s, e)
    ensures RunsAreInOrder(Next(s, e))
  {
    var t := Next(s, e);
    if e.Write? {
      forall r | r in t.runs ensures r.used != "" && InOrder(t.history, r.notified, r.used) {
        InOrderLater(s.history, [e.read], r.notified, r.used);
      }
    } else if e.LoadInfo? && Alive(t) {
      InOrderNow(s.history, s.runner.notified, s.file.text);
    } else {
      assert t.runs == s.runs && t.history == s.history;
    }
  }

  lemma {:induction false} ExecKeepsOrder(file: Read, evs: seq<Event>)
    requires Exec(Init(file), evs).Some?
    ensures NoticesAreOld(Exec(Init(file), evs).value) && RunsAreInOrder(Exec(Init(file), evs).value)
  {
    if evs != [] {
      var s := Exec(Init(file), Front(evs)).value;
      ExecKeepsOrder(file, Front(evs));
      ExecInv(file, Front(evs));
      StepKeepsNoticesOld(s, Last(evs));
      StepKeepsRunsInOrder(s, Last(evs));
    }
  }

  // The content the file has last, it had before some other run ID.
  ghost predicate Returns(history: seq<Read>)
    requires history != []
  {
    exists i, j :: 0 <= i < j < |history| - 1 && history[i] == Last(history) && OtherId(history, j)
  }

  predicate OtherId(history: seq<Read>, j: nat)
    requires j < |history|
  {
    history[j] != Last(history) && history[j].Content? && history[j].text != ""
  }

  ghost predicate QuiescentAfter(history: seq<Read>, evs: seq<Event>)
    requires history != []
  {
    && Exec(Init(history[0]), evs).Some?
    && var s := Exec(Init(history[0]), evs).value;
       s.history == history && Quiescent(s)
  }

  ghost predicate LastRunUsed(s: State, id: string) {
    s.runs != [] && Last(s.runs).used == id
  }

  lemma NothingLaterUnlessReturned(h: seq<Read>, a: string, b: string)
    requires h != [] && InOrder(h, a, b) && b != "" && Last(h) == Content(a) && !Returns(h)
    ensures a == b
  {
    var i, j :| 0 <= i <= j < |h| && h[i] == Content(a) && h[j] == Content(b);
    if a != b {
      assert OtherId(h, j);
    }
  }

  /**
   If the present run ID was not in the file before another, the last run in a quiescent state used
   exactly the present content, although a run takes its ID from the file and not from its notice.
   */
  lemma QuiescentLastUsed(file: Read, evs: seq<Event>)
    requires Exec(Init(file), evs).Some? && Quiescent(Exec(Init(file), evs).value)
    requires var h := Exec(Init(file), evs).value.history; h != [] && !Returns(h)
    ensures
      var s := Exec(Init(file), evs).value;
      s.runs != [] && Last(s.runs) == Run(s.file.text, s.file.text)
  {
    QuiescentLastNotified(file, evs);
    ExecKeepsOrder(file, evs);
    ExecInv(file, evs);
    var s := Exec(Init(file), evs).value;
    var run := Last(s.runs);
    assert run in s.runs;
    NothingLaterUnlessReturned(s.history, run.notified, run.used);
  }

  // The file is written several times.
  lemma {:induction false} WriteAll(s0: State, before: seq<Event>, s: State, rs: seq<Read>)
    returns (evs: seq<Event>, t: State)
    requires Exec(s0, before) == Some(s) && s.history != [] && Last(s.history) == s.file
    ensures Exec(s0, evs) == Some(t)
    ensures t == s.(history := s.history + rs, file := Last(s.history + rs), polled := s.polled && rs == [])
  {
    if rs == [] {
      evs, t := before, s;
      assert s.history + rs == s.history;
    } else {
      evs, t := WriteAll(s0, before, s, Front(rs));
      assert s.history + Front(rs) + [Last(rs)] == s.history + rs;
      evs, t := Extend(s0, evs, t, Write(Last(rs)));
    }
  }

  // The initial state after some writes, then a run started for the content reached.
  lemma StartAfterWrites(h: seq<Read>) returns (evs: seq<Event>, t: State)
    requires h != [] && Last(h).Content? && Last(h).text != ""
    ensures Exec(Init(h[0]), evs) == Some(t)
    ensures t.history == h && t.file == Last(h) && t.item.content == Last(h).text && t.runs == []
    ensures t.poller.Idle? && t.main.Waiting? && t.runner == Started(Last(h).text)
  {
    evs, t := WriteAll(Init(h[0]), [], Init(h[0]), h[1..]);
    assert [h[0]] + h[1..] == h;
    var rest;
    rest, t := StartRun(t);
    ExecConcat(Init(h[0]), evs, rest);
    evs := evs + rest;
  }

  // A started run reads a later ID, then the file gets back what the item still holds.
  lemma RunElsewhere(s0: State, before: seq<Event>, s: State, toOther: seq<Read>, back: seq<Read>)
    returns (evs: seq<Event>, t: State)
    requires Exec(s0, before) == Some(s) && s.history != [] && Last(s.history) == s.file
    requires s.poller.Idle? && s.main.Waiting? && s.runner.Started? && s.runs == []
    requires toOther != [] && Last(toOther).Content? && Last(toOther).text != ""
    requires back != [] && Last(back) == Content(s.item.content) && s.item.content != ""
    ensures Exec(s0, evs) == Some(t) && Quiescent(t)
    ensures t.history == s.history + toOther + back && t.runs == [Run(s.runner.notified, Last(toOther).text)]
  {
    evs, t := WriteAll(s0, before, s, toOther);
    assert t.file == Last(toOther);
    evs, t := Extend(s0, evs, t, LoadInfo(true));
    evs, t := Extend(s0, evs, t, Finish(None));
    evs, t := WriteAll(s0, evs, t, back);
    assert t.file == Last(back);
    evs, t := Extend(s0, evs, t, PollRead);
    evs, t := Extend(s0, evs, t, PollUpdate);
  }

  /** Whenever the present ID has returned, some schedule ends with the last run made under another ID. */
  lemma ReturnDefeatsLastUsed(h: seq<Read>, i: nat, j: nat) returns (evs: seq<Event>)
    requires i < j < |h| - 1 && Last(h).Content? && Last(h).text != ""
    requires h[i] == Last(h) && OtherId(h, j)
    ensures QuiescentAfter(h, evs)
    ensures Exec(Init(h[0]), evs).value.runs == [Run(Last(h).text, h[j].text)]
  {
    var s;
    evs, s := StartAfterWrites(h[..i + 1]);
    assert h == h[..i + 1] + h[i + 1..j + 1] + h[j + 1..];
    evs, s := RunElsewhere(Init(h[0]), evs, s, h[i + 1..j + 1], h[j + 1..]);
  }

  /**
   The exact condition, for every history of the file that ends with a run ID: the last run in every
   quiescent state used this ID, if and only if the file did not have it before some other ID.
   */
  lemma LastUsedExactly(h: seq<Read>)
    requires h != [] && Last(h).Content? && Last(h).text != ""
    ensures (forall evs :: QuiescentAfter(h, evs) ==> LastRunUsed(Exec(Init(h[0]), evs).value, Last(h).text))
            <==> !Returns(h)
  {
    if Returns(h) {
      var i, j :| 0 <= i < j < |h| - 1 && h[i] == Last(h) && OtherId(h, j);
      var evs := ReturnDefeatsLastUsed(h, i, j);
      assert !LastRunUsed(Exec(Init(h[0]), evs).value, Last(h).text);
    } else {
      forall evs | QuiescentAfter(h, evs)
        ensures LastRunUsed(Exec(Init(h[0]), evs).value, Last(h).text)
      {
        ExecInv(h[0], evs);
        QuiescentLastUsed(h[0], evs);
      }
    }
  }

  /** If no run ID is ever written again, not even the same one, none returns. */
  lemma WithoutReuseNoReturn(h: seq<Read>)
    requires h != [] && Last(h).Content? && Last(h).text != ""
    requires forall i, j :: 0 <= i < j < |h| && h[i] == h[j] ==> h[i].Failed? || h[i].text == ""
    ensures !Returns(h)
  {
    assert forall i :: 0 <= i < |h| - 1 ==> h[i] != h[|h| - 1];
  }

  /** The simplest failure: A is overwritten by B and restored before the next poll. */
  lemma ReuseDefeatsLastUsed()
    ensures
      var h := [Content("A"), Content("B"), Content("A")];
      exists evs :: QuiescentAfter(h, evs) && Exec(Init(h[0]), evs).value.runs == [Run("A", "B")]
  {
    var h := [Content("A"), Content("B"), Content("A")];
    var evs := ReturnDefeatsLastUsed(h, 0, 1);
  }

  /**
   Notices are delivered in order and each starts one run: the run IDs the runner has received are
   an initial part of the announced contents, with at most one still waiting to be taken, and the
   runs that know their ID were started by them one for one.
   */
  lemma NoticesAndRuns(file: Read, evs: seq<Event>)
    requires Exec(Init(file), evs).Some?
    ensures
      var s := Exec(Init(file), evs).value;
      var announced := Contents(H.Messages(s.seen));
      && s.received <= announced && |announced| <= |s.received| + 1
      && (s.poller.Idle? ==> s.received == announced)
      && (Alive(s) ==> s.received == Notified(s.runs) + if s.runner.Started? then [s.runner.notified] else [])
  {
    ExecInv(file, evs);
    var s := Exec(Init(file), evs).value;
    assert s.received + [] == s.received;
  }

  /******* No error is lost *******/

  function Errors(msgs: seq<W.Message>): seq<string> {
    if msgs == [] then []
    else Errors(Front(msgs)) + if Last(msgs).ReadError? then [Last(msgs).err] else []
  }

  // The error the poller, and the runner, is blocked sending, if any.
  function PollerError(s: State): seq<string> {
    if s.poller.Announcing? && s.poller.msg.ReadError? then [s.poller.msg.err] else []
  }

  function RunnerError(s: State): seq<string> {
    if s.runner.Reporting? then [s.runner.err] else []
  }

  // Main takes one error, the first of its origin; every other one raised is still waiting to be taken.
  ghost predicate Accounted(main: Main, ofReads: seq<string>, ofRuns: seq<string>,
                            poller: seq<string>, runner: seq<string>)
  {
    match main
    case Waiting => ofReads == poller && ofRuns == runner
    case Holding(err) =>
      || (ofReads == [err] + poller && ofRuns == runner)
      || (ofReads == poller && ofRuns == [err] + runner)
    case Exited => true
  }

  ghost predicate NoneLost(s: State) {
    Accounted(s.main, Errors(H.Messages(s.seen)), s.failures, PollerError(s), RunnerError(s))
  }

  lemma ErrorsNext(rs: seq<Read>, r: Read)
    ensures Errors(H.Messages(rs + [r])) == Errors(H.Messages(rs)) + if r.Failed? then [r.err] else []
  {
    assert Front(rs + [r]) == rs && Last(rs + [r]) == r;
    var msgs := H.Messages(rs);
    if H.Announced(rs, r) {
      assert Front(msgs + [H.MessageOf(r)]) == msgs;
    } else {
      assert msgs + [] == msgs;
    }
  }

  // More errors of one origin, raised where none was waiting.
  lemma AccountedWithMore(main: Main, before: seq<string>, other: seq<string>, waiting: seq<string>, more: seq<string>)
    requires Accounted(main, before, other, [], waiting)
    ensures Accounted(main, before + more, other, more, waiting)
  {
    if main.Holding? && before == [main.err] + [] {
      assert before + more == [main.err] + more;
    }
  }

  lemma AccountedSwapped(main: Main, a: seq<string>, b: seq<string>, c: seq<string>, d: seq<string>)
    ensures Accounted(main, a, b, c, d) == Accounted(main, b, a, d, c)
  {
  }

  lemma UpdateLosesNone(s: State)
    requires NoticesInOrder(s) && NoneLost(s) && Enabled(s, PollUpdate)
    ensures NoneLost(Next(s, PollUpdate))
  {
    var r, t := s.poller.read, Next(s, PollUpdate);
    var ofReads := Errors(H.Messages(s.seen));
    ErrorsNext(s.seen, r);
    AccountedWithMore(s.main, ofReads, s.failures, RunnerError(s), PollerError(t));
    assert PollerError(t) == if r.Failed? then [r.err] else [];
  }

  lemma FinishLosesNone(s: State, failure: Option<string>)
    requires NoneLost(s) && Enabled(s, Finish(failure))
    ensures NoneLost(Next(s, Finish(failure)))
  {
    var t := Next(s, Finish(failure));
    var ofReads := Errors(H.Messages(s.seen));
    AccountedSwapped(s.main, ofReads, s.failures, PollerError(s), []);
    AccountedWithMore(s.main, s.failures, ofReads, PollerError(s), RunnerError(t));
    AccountedSwapped(s.main, ofReads, s.failures + RunnerError(t), PollerError(s), RunnerError(t));
    assert t.failures == s.failures + RunnerError(t);
  }

  lemma TakingLosesNone(s: State, e: Event)
    requires NoneLost(s) && Enabled(s, e) && (e.DeliverError? || e.ReportError?)
    ensures NoneLost(Next(s, e))
  {
    var t := Next(s, e);
    assert t.seen == s.seen && t.failures == s.failures && s.main == Waiting;
    assert e.DeliverError? ==> PollerError(s) == [t.main.err] + PollerError(t) && RunnerError(t) == RunnerError(s);
    assert e.ReportError? ==> RunnerError(s) == [t.main.err] + RunnerError(t) && PollerError(t) == PollerError(s);
  }

  lemma StepLosesNone(s: State, e: Event)
    requires NoticesInOrder(s) && NoneLost(s) && Enabled(s, e)
    ensures NoneLost(Next(s, e))
  {
    if e.PollUpdate? {
      UpdateLosesNone(s);
    } else if e.Finish? {
      FinishLosesNone(s, e.failure);
    } else if e.DeliverError? || e.ReportError? {
      TakingLosesNone(s, e);
    } else {
      var t := Next(s, e);
      assert t.main.Exited? || t.main == s.main;
      assert t.seen == s.seen && t.failures == s.failures;
      assert PollerError(t) == PollerError(s) && RunnerError(t) == RunnerError(s);
    }
  }

  lemma {:induction false} ExecLosesNone(file: Read, evs: seq<Event>)
    requires Exec(Init(file), evs).Some?
    ensures NoneLost(Exec(Init(file), evs).value)
  {
    if evs != [] {
      ExecLosesNone(file, Front(evs));
      ExecInv(file, Front(evs));
      StepLosesNone(Exec(Init(file), Front(evs)).value, Last(evs));
    }
  }

  /**
   Every failed read and every failed run raises its error once, unaltered, and it waits until main
   takes it. So main exits for the first error of one of the two, and while main is still waiting
   and none is on its way, no read and no run has failed at all.
   */
  lemma NoErrorLost(file: Read, evs: seq<Event>)
    requires Exec(Init(file), evs).Some?
    ensures
      var s := Exec(Init(file), evs).value;
      var ofReads := Errors(H.Messages(s.seen));
      && Accounted(s.main, ofReads, s.failures, PollerError(s), RunnerError(s))
      && (s.main.Waiting? && !ErrorAhead(s) ==>
            s.failures == [] && forall i :: 0 <= i < |s.seen| ==> s.seen[i].Content?)
  {
    ExecLosesNone(file, evs);
    NoErrorsNoFailures(Exec(Init(file), evs).value.seen);
  }

  lemma {:induction false} NoErrorsNoFailures(rs: seq<Read>)
    ensures Errors(H.Messages(rs)) == [] <==> forall i :: 0 <= i < |rs| ==> rs[i].Content?
  {
    if rs != [] {
      NoErrorsNoFailures(Front(rs));
      assert rs == Front(rs) + [Last(rs)];
      ErrorsNext(Front(rs), Last(rs));
    }
  }

  /******* Progress *******/

  // Some goroutine can always move while the process lives: main takes the first error, then exits.
  lemma NeverDeadlocked(s: State)
    requires Alive(s)
    ensures exists e: Event :: !e.Write? && Enabled(s, e)
  {
    var e :=
      if s.main.Holding? then Exit
      else match s.poller
           case Idle => PollRead
           case HasRead(_) => PollUpdate
           case Announcing(ReadError(_)) => DeliverError
           case Announcing(NewContent(_)) =>
             match s.runner
             case Receiving => DeliverContent
             case Started(_) => LoadInfo(true)
             case Using(_, _) => Finish(None)
             case Reporting(_) => ReportError;
    assert !e.Write? && Enabled(s, e);
  }

  // A goroutine is blocked in a channel send.
  predicate PollerBlocked(s: State) {
    s.poller.Announcing?
  }

  predicate RunnerBlocked(s: State) {
    s.runner.Reporting?
  }

  // Main's side of a blocked error send: it takes the error, or it is about to exit.
  predicate MainResponds(s: State, taking: Event) {
    Enabled(s, taking) || Enabled(s, Exit)
  }

  /**
   However the execution goes on, an error send that is blocked stays possible at every moment until
   it is taken, unless main holds another error, and then it is the exit that stays possible.
   */
  lemma {:induction false} BlockedErrorIsTakenOrExit(s: State, evs: seq<Event>)
    requires Alive(s) && Exec(s, evs).Some? && Alive(Exec(s, evs).value)
    ensures RunnerBlocked(s) && ReportError !in evs ==>
              RunnerBlocked(Exec(s, evs).value) && MainResponds(Exec(s, evs).value, ReportError)
    ensures PollerBlocked(s) && s.poller.msg.ReadError? && DeliverError !in evs ==>
              Exec(s, evs).value.poller == s.poller && MainResponds(Exec(s, evs).value, DeliverError)
  {
    if evs != [] {
      var rest := Front(evs);
      assert evs == rest + [Last(evs)];
      assert Last(evs) in evs;
      BlockedErrorIsTakenOrExit(s, rest);
    }
  }

  /**
   Every blocked send of the poller can be released, or the process exits, within three steps of the
   program alone: an error goes to main, and a content to the runner once its present run is over.
   */
  lemma BlockedPollerIsReleased(s: State) returns (evs: seq<Event>, t: State)
    requires Alive(s) && PollerBlocked(s)
    ensures WriteFree(evs) && |evs| <= 3 && Exec(s, evs) == Some(t)
    ensures !PollerBlocked(t) || !Alive(t)
  {
    if s.main.Holding? {
      evs, t := Extend(s, [], s, Exit);
    } else if s.poller.msg.ReadError? {
      evs, t := Extend(s, [], s, DeliverError);
    } else {
      evs, t := RunnerComesBack(s);
      if Alive(t) {
        evs, t := RunnerTakes(s, evs, t);
      }
    }
  }

  lemma RunnerTakes(s: State, before: seq<Event>, r: State) returns (evs: seq<Event>, t: State)
    requires WriteFree(before) && Exec(s, before) == Some(r) && Alive(r)
    requires r.poller.Announcing? && r.poller.msg.NewContent? && r.runner.Receiving?
    ensures WriteFree(evs) && |evs| == |before| + 1 && Exec(s, evs) == Some(t)
    ensures !PollerBlocked(t)
  {
    evs, t := Extend(s, before, r, DeliverContent);
  }

  // The runner ends what it is doing and receives again, unless the process ends.
  lemma RunnerComesBack(s: State) returns (evs: seq<Event>, t: State)
    requires s.main.Waiting?
    ensures WriteFree(evs) && |evs| <= 2 && Exec(s, evs) == Some(t)
    ensures Alive(t) ==> t.runner.Receiving? && t.poller == s.poller
  {
    match s.runner
    case Receiving =>
      evs, t := [], s;
    case Reporting(_) =>
      evs, t := Extend(s, [], s, ReportError);
    case Using(_, _) =>
      evs, t := Extend(s, [], s, Finish(None));
    case Started(_) =>
      evs, t := Extend(s, [], s, LoadInfo(true));
      if Alive(t) {
        evs, t := Extend(s, evs, t, Finish(None));
      }
  }

  // One of the goroutines is on its way to reporting an error.
  predicate ErrorAhead(s: State) {
    || s.runner.Reporting?
    || (s.poller.Announcing? && s.poller.msg.ReadError?)
    || (s.poller.HasRead? && s.poller.read.Failed?)
  }

  predicate Healthy(s: State) {
    s.main.Waiting? && !ErrorAhead(s) && s.file.Content? && s.file.text != ""
  }

  // The runner completes its run, without touching anything else.
  lemma FinishRun(s: State) returns (evs: seq<Event>, t: State)
    requires Healthy(s)
    ensures WriteFree(evs) && |evs| <= 2 && Exec(s, evs) == Some(t)
    ensures Healthy(t) && t.runner.Receiving? && t.poller == s.poller && t.file == s.file && t.polled == s.polled
  {
    match s.runner
    case Receiving =>
      evs, t := [], s;
    case Using(_, _) =>
      evs, t := Extend(s, [], s, Finish(None));
    case Started(_) =>
      evs, t := Extend(s, [], s, LoadInfo(true));
      evs, t := Extend(s, evs, t, Finish(None));
  }

  // The runner takes the poller's announcement and completes the run it starts.
  lemma DeliverAndRun(s: State) returns (evs: seq<Event>, t: State)
    requires Healthy(s) && s.runner.Receiving? && s.poller.Announcing?
    ensures WriteFree(evs) && |evs| <= 3 && Exec(s, evs) == Some(t)
    ensures Healthy(t) && t.runner.Receiving? && t.poller.Idle? && t.file == s.file && t.polled == s.polled
  {
    evs, t := Extend(s, [], s, DeliverContent);
    var rest;
    rest, t := FinishRun(t);
    ExecConcat(s, evs, rest);
    evs := evs + rest;
  }

  lemma Settle(s: State) returns (evs: seq<Event>, t: State)
    requires Healthy(s) && s.runner.Receiving?
    ensures WriteFree(evs) && |evs| <= 4 && Exec(s, evs) == Some(t)
    ensures Healthy(t) && t.runner.Receiving? && t.poller.Idle? && t.file == s.file && t.polled == s.polled
  {
    match s.poller
    case Idle =>
      evs, t := [], s;
    case Announcing(_) =>
      evs, t := DeliverAndRun(s);
    case HasRead(_) =>
      evs, t := Extend(s, [], s, PollUpdate);
      if t.poller.Announcing? {
        var rest;
        rest, t := DeliverAndRun(t);
        ExecConcat(s, evs, rest);
        evs := evs + rest;
      }
  }

  /** While no error is on its way, at most eleven steps of the program alone reach a quiescent state. */
  lemma CanCatchUp(s: State) returns (evs: seq<Event>, t: State)
    requires Healthy(s)
    ensures WriteFree(evs) && |evs| <= 11 && Exec(s, evs) == Some(t)
    ensures Quiescent(t) && t.file == s.file
  {
    evs, t := FinishRun(s);
    var rest;
    rest, t := Settle(t);
    ExecConcat(s, evs, rest);
    evs := evs + rest;
    evs, t := Extend(s, evs, t, PollRead);
    rest, t := Settle(t);
    ExecConcat(s, evs, rest);
    evs := evs + rest;
  }

  lemma {:induction false} WriteFreeKeepsHistory(s: State, evs: seq<Event>)
    requires WriteFree(evs) && Exec(s, evs).Some?
    ensures Exec(s, evs).value.history == s.history
  {
    if evs != [] {
      WriteFreeKeepsHistory(s, Front(evs));
    }
  }

  /**
   From every healthy state of every run whose present ID has not returned, the program left to
   itself can within eleven steps have made its last run one for the content the file has now.
   */
  lemma PresentContentCanAlwaysBeServed(file: Read, evs: seq<Event>) returns (rest: seq<Event>)
    requires Exec(Init(file), evs).Some? && Healthy(Exec(Init(file), evs).value)
    requires var h := Exec(Init(file), evs).value.history; h != [] && !Returns(h)
    ensures WriteFree(rest) && |rest| <= 11 && Exec(Init(file), evs + rest).Some?
    ensures
      var id := Exec(Init(file), evs).value.file.text;
      var runs := Exec(Init(file), evs + rest).value.runs;
      runs != [] && Last(runs) == Run(id, id)
  {
    var s := Exec(Init(file), evs).value;
    var t;
    rest, t := CanCatchUp(s);
    ExecConcat(Init(file), evs, rest);
    WriteFreeKeepsHistory(s, rest);
    QuiescentLastUsed(file, evs + rest);
  }

  /******* Runs after the first error *******/

  lemma {:induction false} ErrorAheadStopsRuns(s: State, evs: seq<Event>)
    requires !s.main.Waiting? && ErrorAhead(s) && Exec(s, evs).Some?
    ensures
      var t := Exec(s, evs).value;
      !t.main.Waiting? && ErrorAhead(t) && t.received == s.received
  {
    if evs != [] {
      ErrorAheadStopsRuns(s, Front(evs));
    }
  }

  lemma CanFreeRunner(s: State) returns (evs: seq<Event>, t: State)
    requires Alive(s) && !ErrorAhead(s)
    ensures Exec(s, evs) == Some(t)
    ensures Alive(t) && t.runner.Receiving? && t.poller == s.poller && t.item == s.item && t.received == s.received
  {
    evs, t := [], s;
    if t.runner.Started? {
      evs, t := Extend(s, evs, t, Write(Content("x")));
      evs, t := Extend(s, evs, t, LoadInfo(true));
    }
    if t.runner.Using? {
      evs, t := Extend(s, evs, t, Finish(None));
    }
  }

  lemma CanStartRun(s: State) returns (evs: seq<Event>)
    requires Alive(s) && !ErrorAhead(s)
    ensures Exec(s, evs).Some? && s.received < Exec(s, evs).value.received
  {
    var t;
    evs, t := CanFreeRunner(s);
    if t.poller.HasRead? {
      evs, t := Extend(s, evs, t, PollUpdate);
    }
    if t.poller.Idle? {
      var id := t.item.content + "x";
      assert |id| != |t.item.content|;
      evs, t := Extend(s, evs, t, Write(Content(id)));
      var rest;
      rest, t := StartRun(t);
      ExecConcat(s, evs, rest);
      evs := evs + rest;
    } else {
      evs, t := Extend(s, evs, t, DeliverContent);
    }
  }

  /**
   Once main holds an error, before it has exited the process, the runner may still start a run:
   this is possible exactly if neither goroutine is itself on its way to reporting an error, which
   main would never take.
   */
  lemma RunsAfterErrorExactly(s: State)
    requires s.main.Holding?
    ensures (exists evs :: Exec(s, evs).Some? && s.received < Exec(s, evs).value.received) <==> !ErrorAhead(s)
  {
    if ErrorAhead(s) {
      forall evs | Exec(s, evs).Some?
        ensures Exec(s, evs).value.received == s.received
      {
        ErrorAheadStopsRuns(s, evs);
      }
    } else {
      var evs := CanStartRun(s);
    }
  }

  /** A run that does start, and reads its ID, after main has taken an error. */
  lemma RunAfterError()
    ensures exists evs :: Exec(Init(Failed("no file")), evs).Some? &&
              var s := Exec(Init(Failed("no file")), evs).value;
              s.main == Holding("no file") && s.runs == [Run("A", "A")]
  {
    var s0 := Init(Failed("no file"));
    var evs, t := Extend(s0, [], s0, PollRead);
    evs, t := Extend(s0, evs, t, PollUpdate);
    evs, t := Extend(s0, evs, t, DeliverError);
    var more := RunWhileHolding(t);
    ExecConcat(s0, evs, more);
    assert Exec(s0, evs + more).Some?;
  }

  lemma RunWhileHolding(s: State) returns (evs: seq<Event>)
    requires s.main.Holding? && s.poller.Idle? && s.runner.Receiving? && s.item.content == "" && s.runs == []
    ensures Exec(s, evs).Some?
    ensures Exec(s, evs).value.main == s.main && Exec(s, evs).value.runs == [Run("A", "A")]
  {
    var t;
    evs, t := Extend(s, [], s, Write(Content("A")));
    var rest;
    rest, t := StartRun(t);
    ExecConcat(s, evs, rest);
    evs, t := Extend(s, evs + rest, t, LoadInfo(true));
  }
}
