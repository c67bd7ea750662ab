/**
 The rendezvous of one pod's Envoy queries: a goroutine forwards a port, and its caller selects
 between the forwarder's error and its readiness. The forwarder itself is arbitrary: it may become
 ready once, and may return at any moment, with an error or without.
 */
module PortForward {
  import opened Common

  datatype Forwarder = Forwarding | Failing(err: string) | Gone(failed: bool)

  datatype Caller = Selecting | Querying | Returned(result: Option<string>)

  datatype State = State(
    forwarder: Forwarder,
    failure: Option<string>, // the error the forwarder returned with, if it did
    ready: bool,             // the ready channel is closed
    caller: Caller,
    queries: nat,            // how often the queries were run
    stopped: bool)           // the stop channel is closed

  datatype Event =
    | BecomeReady
    | ForwarderReturns(err: Option<string>)
    | TakeError // the error is handed over in the select
    | TakeReady
    | QueriesDone

  const INIT := State(Forwarding, None, false, Selecting, 0, false)

  predicate Enabled(s: State, e: Event) {
    match e
    case BecomeReady => s.forwarder.Forwarding? && !s.ready
    case ForwarderReturns(_) => s.forwarder.Forwarding?
    case TakeError => s.caller.Selecting? && s.forwarder.Failing?
    case TakeReady => s.caller.Selecting? && s.ready
    case QueriesDone => s.caller.Querying?
  }

  function Next(s: State, e: Event): State
    requires Enabled(s, e)
  {
    match e
    case BecomeReady => s.(ready := true)
    case ForwarderReturns(None) => s.(forwarder := Gone(false))
    case ForwarderReturns(Some(err)) => s.(forwarder := Failing(err), failure := Some(err))
    case TakeError => s.(forwarder := Gone(true), caller := Returned(Some(s.forwarder.err)), stopped := true)
    case TakeReady => s.(caller := Querying, queries := s.queries + 1)
    case QueriesDone => s.(caller := Returned(None), stopped := true)
  }

  function ExecFrom(s: State, evs: seq<Event>): Option<State> {
    if evs == [] then Some(s)
    else
      match ExecFrom(s, Front(evs))
      case None => None
      case Some(t) => if Enabled(t, Last(evs)) then Some(Next(t, Last(evs))) else None
  }

  function Exec(evs: seq<Event>): Option<State> {
    ExecFrom(INIT, evs)
  }

  ghost predicate Inv(s: State) {
    && s.queries == (if s.caller.Querying? || s.caller == Returned(None) then 1 else 0)
    && (s.queries > 0 ==> s.ready)
    && (s.stopped <==> s.caller.Returned?)
    && (s.caller.Returned? && s.caller.result.Some? ==> s.failure == s.caller.result)
    && (s.forwarder.Failing? ==> s.failure == Some(s.forwarder.err))
    && (s.forwarder == Gone(true) <==> s.caller.Returned? && s.caller.result.Some?)
    && (s.forwarder.Forwarding? || s.forwarder == Gone(false) ==> s.failure.None?)
  }

  lemma {:induction false} ExecInv(evs: seq<Event>)
    requires Exec(evs).Some?
    ensures Inv(Exec(evs).value)
  {
    if evs != [] {
      ExecInv(Front(evs));
    }
  }

  /**
   The queries run at most once, and only after the forwarder was ready; an error result is the
   forwarder's own, and then no query was run; every return has closed the stop channel.
   */
  lemma QueriesAndResult(evs: seq<Event>)
    requires Exec(evs).Some?
    ensures
      var s := Exec(evs).value;
      && s.queries <= 1
      && (s.queries == 1 ==> s.ready)
      && (s.caller == Returned(None) ==> s.queries == 1)
      && (s.caller.Returned? && s.caller.result.Some? ==> s.failure == s.caller.result && s.queries == 0)
      && (s.stopped <==> s.caller.Returned?)
  {
    ExecInv(evs);
  }

  /******* When the caller comes back *******/

  predicate Waiting(s: State) {
    s.caller.Selecting?
  }

  // The select has nothing to take now.
  predicate NothingToTake(s: State) {
    !s.ready && !s.forwarder.Failing?
  }

  // One more event at the end of an execution.
  lemma Extend(s: State, evs: seq<Event>, t: State, e: Event) returns (evs': seq<Event>, t': State)
    requires ExecFrom(s, evs) == Some(t) && Enabled(t, e)
    ensures evs' == evs + [e] && t' == Next(t, e) && ExecFrom(s, evs') == Some(t')
  {
    evs', t' := evs + [e], Next(t, e);
    assert Front(evs') == evs;
  }

  /**
   There is no time limit: as long as the forwarder neither becomes ready nor returns an error, the
   caller stays in its select, whatever else happens.
   */
  lemma {:induction false} WaitsForForwarder(s: State, evs: seq<Event>)
    requires Waiting(s) && NothingToTake(s) && ExecFrom(s, evs).Some?
    requires forall e :: e in evs ==> !e.BecomeReady? && !(e.ForwarderReturns? && e.err.Some?)
    ensures Waiting(ExecFrom(s, evs).value) && NothingToTake(ExecFrom(s, evs).value)
  {
    if evs != [] {
      var rest, e := Front(evs), Last(evs);
      assert evs == rest + [e];
      assert e in evs;
      WaitsForForwarder(s, rest);
    }
  }

  lemma CanReturn(s: State) returns (evs: seq<Event>, t: State)
    requires Waiting(s) && (s.ready || s.forwarder.Failing? || s.forwarder.Forwarding?)
    ensures ExecFrom(s, evs) == Some(t) && t.caller.Returned?
  {
    if s.ready {
      evs, t := Extend(s, [], s, TakeReady);
      evs, t := Extend(s, evs, t, QueriesDone);
    } else if s.forwarder.Failing? {
      evs, t := Extend(s, [], s, TakeError);
    } else {
      evs, t := Extend(s, [], s, ForwarderReturns(Some("")));
      evs, t := Extend(s, evs, t, TakeError);
    }
  }

  lemma {:induction false} BlockedForGood(s: State, evs: seq<Event>)
    requires Waiting(s) && s.forwarder.Gone? && !s.ready && ExecFrom(s, evs).Some?
    ensures evs == []
  {
    if evs != [] {
      BlockedForGood(s, Front(evs));
    }
  }

  /**
   From any state in which the caller is in its select, no way of going on makes it return, if and
   only if the forwarder has already returned without an error and without having been ready.
   */
  lemma BlockedExactly(before: seq<Event>)
    requires Exec(before).Some? && Waiting(Exec(before).value)
    ensures
      var s := Exec(before).value;
      (forall evs :: ExecFrom(s, evs).Some? ==> !ExecFrom(s, evs).value.caller.Returned?)
      <==> s.forwarder == Gone(false) && !s.ready
  {
    ExecInv(before);
    var s := Exec(before).value;
    if s.forwarder == Gone(false) && !s.ready {
      forall evs | ExecFrom(s, evs).Some? ensures !ExecFrom(s, evs).value.caller.Returned? {
        BlockedForGood(s, evs);
      }
    } else {
      var evs, t := CanReturn(s);
    }
  }

  /** This happens: the forwarder returns at once, without an error. */
  lemma BlockedAtOnce()
    ensures Exec([ForwarderReturns(None)]).Some?
    ensures
      var s := Exec([ForwarderReturns(None)]).value;
      Waiting(s) && forall e :: !Enabled(s, e)
  {
    var evs, s := Extend(INIT, [], INIT, ForwarderReturns(None));
    assert evs == [ForwarderReturns(None)];
  }

  // Nothing more can happen.
  ghost predicate Stuck(s: State) {
    forall e :: !Enabled(s, e)
  }

  /**
   Once nothing more can happen, the forwarding goroutine is blocked in its send exactly if it
   failed and the queries were made.
   */
  lemma LeakedExactly(evs: seq<Event>)
    requires Exec(evs).Some? && Stuck(Exec(evs).value)
    ensures
      var s := Exec(evs).value;
      s.forwarder.Failing? <==> s.failure.Some? && s.queries == 1
  {
    ExecInv(evs);
    var s := Exec(evs).value;
    assert !Enabled(s, ForwarderReturns(None)) && !Enabled(s, TakeError);
    assert !Enabled(s, TakeReady) && !Enabled(s, QueriesDone);
  }

  lemma {:induction false} FailingStays(s: State, evs: seq<Event>)
    requires Inv(s) && s.forwarder.Failing? && s.queries == 1 && ExecFrom(s, evs).Some?
    ensures
      var t := ExecFrom(s, evs).value;
      t.forwarder == s.forwarder && t.queries == 1 && !Waiting(t)
  {
    if evs != [] {
      FailingStays(s, Front(evs));
    }
  }

  // With the forwarder gone, the caller goes on as far as it can.
  lemma CallerEnds(s: State, before: seq<Event>, r: State) returns (evs: seq<Event>, t: State)
    requires ExecFrom(s, before) == Some(r) && r.forwarder.Gone?
    ensures ExecFrom(s, evs) == Some(t) && Stuck(t) && t.forwarder.Gone?
  {
    match r.caller
    case Selecting =>
      evs, t := before, r;
      if r.ready {
        evs, t := Extend(s, before, r, TakeReady);
        evs, t := Extend(s, evs, t, QueriesDone);
      }
    case Querying =>
      evs, t := Extend(s, before, r, QueriesDone);
    case Returned(_) =>
      evs, t := before, r;
  }

  // Otherwise the caller takes the error, or the forwarder returns without one.
  lemma CanEndWithoutLeak(s: State) returns (evs: seq<Event>, t: State)
    requires Inv(s) && !(s.forwarder.Failing? && s.queries == 1)
    ensures ExecFrom(s, evs) == Some(t) && Stuck(t) && !t.forwarder.Failing?
  {
    match s.forwarder
    case Gone(_) =>
      evs, t := CallerEnds(s, [], s);
    case Failing(_) =>
      evs, t := Extend(s, [], s, TakeError);
      evs, t := CallerEnds(s, evs, t);
    case Forwarding =>
      evs, t := Extend(s, [], s, ForwarderReturns(None));
      evs, t := CallerEnds(s, evs, t);
  }

  /**
   From a reachable state, every way of going on to the end leaves the forwarding goroutine blocked in
   its send, if and only if it is now in that send and the caller has already taken the readiness.
   */
  lemma LeakInevitableExactly(before: seq<Event>)
    requires Exec(before).Some?
    ensures
      var s := Exec(before).value;
      (forall evs :: ExecFrom(s, evs).Some? && Stuck(ExecFrom(s, evs).value) ==>
                       ExecFrom(s, evs).value.forwarder.Failing?)
      <==> s.forwarder.Failing? && s.queries == 1
  {
    ExecInv(before);
    var s := Exec(before).value;
    if s.forwarder.Failing? && s.queries == 1 {
      forall evs | ExecFrom(s, evs).Some? ensures ExecFrom(s, evs).value.forwarder.Failing? {
        FailingStays(s, evs);
      }
    } else {
      var evs, t := CanEndWithoutLeak(s);
    }
  }

  /** This happens too: the forwarder fails while the queries run. */
  lemma LeakHappens(err: string) returns (evs: seq<Event>)
    ensures Exec(evs).Some? && Stuck(Exec(evs).value) && Exec(evs).value.forwarder == Failing(err)
  {
    var s;
    evs, s := Extend(INIT, [], INIT, BecomeReady);
    evs, s := Extend(INIT, evs, s, TakeReady);
    evs, s := Extend(INIT, evs, s, ForwarderReturns(Some(err)));
    evs, s := Extend(INIT, evs, s, QueriesDone);
  }
}
