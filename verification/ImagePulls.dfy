/**
 Pulling Docker images in parallel: one goroutine per image, an unbuffered error channel, a
 goroutine that closes a second channel when all are done, and a caller that selects between the
 two. How each pull and each copy turns out is arbitrary, but fixed.
 */
module ImagePulls {
  import opened Common

  datatype Outcome = Outcome(pulls: bool, copies: bool)

  type Plan = seq<Outcome>

  datatype Pc =
    | Pulling
    | SendingPullError
    | Unguarded        // past the failed pull, with no output to close
    | Copying
    | SendingCopyError
    | Ending           // returned, Done still to be called
    | Ended

  datatype Failure = PullFailed(image: nat) | CopyFailed(image: nat)

  datatype Caller = Selecting | Closing(err: Failure) | Returned(result: Option<Failure>)

  // errorsClosed and doneClosed are the two channels; crashed is a panic of the whole process.
  datatype State = State(pcs: seq<Pc>, caller: Caller, errorsClosed: bool, doneClosed: bool, crashed: bool)

  datatype Event =
    | Move(image: nat)
    | Receive(image: nat) // the caller takes an image's error
    | CloseErrors
    | CloseDone           // wg.Wait has returned
    | ReceiveDone

  function Init(plan: Plan): State {
    State(seq(|plan|, _ => Pulling), Selecting, false, false, false)
  }

  predicate Sending(pc: Pc) {
    pc.SendingPullError? || pc.SendingCopyError?
  }

  predicate Enabled(plan: Plan, s: State, e: Event) {
    && |s.pcs| == |plan|
    && !s.crashed
    && match e
       case Move(i) => i < |plan| && !s.pcs[i].Ended? && (Sending(s.pcs[i]) ==> s.errorsClosed)
       case Receive(i) => i < |plan| && s.caller.Selecting? && Sending(s.pcs[i]) && !s.errorsClosed
       case CloseErrors => s.caller.Closing?
       case CloseDone => !s.doneClosed && forall i :: 0 <= i < |plan| ==> s.pcs[i].Ended?
       case ReceiveDone => s.caller.Selecting? && s.doneClosed
  }

  function Next(plan: Plan, s: State, e: Event): State
    requires Enabled(plan, s, e)
  {
    match e
    case Move(i) =>
      (match s.pcs[i]
       case Pulling => s.(pcs := s.pcs[i := if plan[i].pulls then Copying else SendingPullError])
       case Copying => s.(pcs := s.pcs[i := if plan[i].copies then Ending else SendingCopyError])
       case Ending => s.(pcs := s.pcs[i := Ended])
       case Unguarded => s.(crashed := true) // a method of a nil interface
       case _ => s.(crashed := true))        // a send on a closed channel
    case Receive(i) =>
      if s.pcs[i].SendingPullError? then s.(caller := Closing(PullFailed(i)), pcs := s.pcs[i := Unguarded])
      else s.(caller := Closing(CopyFailed(i)), pcs := s.pcs[i := Ending])
    case CloseErrors => s.(caller := Returned(Some(s.caller.err)), errorsClosed := true)
    case CloseDone => s.(doneClosed := true)
    case ReceiveDone => s.(caller := Returned(None))
  }

  function Exec(plan: Plan, evs: seq<Event>): Option<State> {
    if evs == [] then Some(Init(plan))
    else
      match Exec(plan, Front(evs))
      case None => None
      case Some(s) => if Enabled(plan, s, Last(evs)) then Some(Next(plan, s, Last(evs))) else None
  }

  /******* What every interleaving keeps *******/

  predicate Succeeds(o: Outcome) {
    o.pulls && o.copies
  }

  // What the position of one image's goroutine says about its outcome.
  predicate Consistent(pc: Pc, o: Outcome) {
    match pc
    case Pulling => true
    case SendingPullError => !o.pulls
    case Unguarded => !o.pulls
    case Copying => o.pulls
    case SendingCopyError => o.pulls && !o.copies
    case _ => o.pulls
  }

  // The error the caller holds or has returned.
  function Taken(s: State): Option<Failure> {
    match s.caller
    case Selecting => None
    case Closing(err) => Some(err)
    case Returned(result) => result
  }

  predicate Past(pc: Pc) {
    pc.Unguarded? || pc.Ending? || pc.Ended?
  }

  ghost predicate Inv(plan: Plan, s: State) {
    && |s.pcs| == |plan|
    && (forall i :: 0 <= i < |plan| ==> Consistent(s.pcs[i], plan[i]))
    // A failed image gets past its send only by handing over the one error that is ever taken.
    && (forall i :: 0 <= i < |plan| && Past(s.pcs[i]) && !Succeeds(plan[i]) ==>
          Taken(s).Some? && Taken(s).value.image == i)
    && (Taken(s).Some? ==>
          var err := Taken(s).value;
          && err.image < |plan| && Past(s.pcs[err.image])
          && (if err.PullFailed? then !plan[err.image].pulls else plan[err.image].pulls && !plan[err.image].copies))
    && (s.errorsClosed <==> s.caller.Returned? && s.caller.result.Some?)
    && (s.doneClosed ==> forall i :: 0 <= i < |plan| ==> s.pcs[i].Ended?)
    && (s.caller == Returned(None) ==> s.doneClosed)
  }

  lemma MoveKeepsInv(plan: Plan, s: State, i: nat)
    requires Inv(plan, s) && Enabled(plan, s, Move(i))
    ensures Inv(plan, Next(plan, s, Move(i)))
  {
  }

  lemma ReceiveKeepsInv(plan: Plan, s: State, i: nat)
    requires Inv(plan, s) && Enabled(plan, s, Receive(i))
    ensures Inv(plan, Next(plan, s, Receive(i)))
  {
  }

  lemma StepInv(plan: Plan, s: State, e: Event)
    requires Inv(plan, s) && Enabled(plan, s, e)
    ensures Inv(plan, Next(plan, s, e))
  {
    match e
    case Move(i) => MoveKeepsInv(plan, s, i);
    case Receive(i) => ReceiveKeepsInv(plan, s, i);
    case _ =>
  }

  lemma {:induction false} ExecInv(plan: Plan, evs: seq<Event>)
    requires Exec(plan, evs).Some?
    ensures Inv(plan, Exec(plan, evs).value)
  {
    if evs != [] {
      ExecInv(plan, Front(evs));
      StepInv(plan, Exec(plan, Front(evs)).value, Last(evs));
    }
  }

  /** nil is returned only if every pull and every copy succeeded; an error is that of a failed step. */
  lemma ResultIsRight(plan: Plan, evs: seq<Event>)
    requires Exec(plan, evs).Some? && Exec(plan, evs).value.caller.Returned?
    ensures
      match Exec(plan, evs).value.caller.result
      case None => forall i :: 0 <= i < |plan| ==> Succeeds(plan[i])
      case Some(PullFailed(i)) => i < |plan| && !plan[i].pulls
      case Some(CopyFailed(i)) => i < |plan| && plan[i].pulls && !plan[i].copies
  {
    ExecInv(plan, evs);
  }

  /** The select is never blocked for ever: while the caller selects, something can move. */
  lemma SelectNeverStuck(plan: Plan, evs: seq<Event>)
    requires Exec(plan, evs).Some?
    requires var s := Exec(plan, evs).value; s.caller.Selecting? && !s.crashed
    ensures exists e :: Enabled(plan, Exec(plan, evs).value, e)
  {
    ExecInv(plan, evs);
    var s := Exec(plan, evs).value;
    if i :| 0 <= i < |plan| && !s.pcs[i].Ended? {
      assert Enabled(plan, s, if Sending(s.pcs[i]) then Receive(i) else Move(i));
    } else {
      assert Enabled(plan, s, if s.doneClosed then ReceiveDone else CloseDone);
    }
  }

  /******* When the process comes down *******/

  // Some pull fails, or two copies do.
  predicate Doomed(plan: Plan) {
    || (exists i :: 0 <= i < |plan| && !plan[i].pulls)
    || (exists i, j :: 0 <= i < j < |plan| && !plan[i].copies && !plan[j].copies)
  }

  lemma {:induction false} NoCrashUnlessDoomed(plan: Plan, evs: seq<Event>)
    requires Exec(plan, evs).Some? && !Doomed(plan)
    ensures !Exec(plan, evs).value.crashed
  {
    if evs != [] {
      NoCrashUnlessDoomed(plan, Front(evs));
      ExecInv(plan, Front(evs));
    }
  }

  // A state in which nothing can move any more.
  ghost predicate Stopped(plan: Plan, s: State) {
    forall e :: !Enabled(plan, s, e)
  }

  lemma StoppedMeansEnded(plan: Plan, s: State)
    requires Inv(plan, s) && Stopped(plan, s) && !s.crashed
    ensures s.caller.Returned? && s.doneClosed
  {
    forall i | 0 <= i < |plan| ensures s.pcs[i].Ended? {
      assert !Enabled(plan, s, Move(i)) && !Enabled(plan, s, Receive(i));
      assert !Enabled(plan, s, CloseErrors) && !Enabled(plan, s, ReceiveDone);
    }
    assert !Enabled(plan, s, CloseDone) && !Enabled(plan, s, ReceiveDone) && !Enabled(plan, s, CloseErrors);
  }

  /**
   A run that goes on to its end, after the caller has returned, crashes exactly if some pull
   fails or two copies do. With all successes it returns nil, with a single failed copy that error.
   */
  lemma CrashesExactlyIfDoomed(plan: Plan, evs: seq<Event>)
    requires Exec(plan, evs).Some? && Stopped(plan, Exec(plan, evs).value)
    ensures
      var s := Exec(plan, evs).value;
      && (s.crashed <==> Doomed(plan))
      && (!s.crashed ==> s.caller.Returned?)
      && (!s.crashed ==> (s.caller.result.None? <==> forall i :: 0 <= i < |plan| ==> Succeeds(plan[i])))
  {
    ExecInv(plan, evs);
    var s := Exec(plan, evs).value;
    if !Doomed(plan) {
      NoCrashUnlessDoomed(plan, evs);
    }
    if !s.crashed {
      StoppedMeansEnded(plan, s);
    }
  }

  /******* Every run comes to its end *******/

  function MovesLeft(pc: Pc): nat {
    match pc
    case Pulling => 6
    case SendingPullError => 5
    case Copying => 4
    case SendingCopyError => 3
    case Unguarded => 2
    case Ending => 2
    case Ended => 1
  }

  function AllMovesLeft(pcs: seq<Pc>): nat {
    if pcs == [] then 0 else AllMovesLeft(Front(pcs)) + MovesLeft(Last(pcs))
  }

  function EventsLeft(s: State): int {
    AllMovesLeft(s.pcs) + (if s.doneClosed then 0 else 1) + (if s.crashed then 0 else 1) +
    match s.caller case Selecting => 2 case Closing(_) => 1 case Returned(_) => 0
  }

  lemma {:induction false} MovesLeftUpdate(pcs: seq<Pc>, i: nat, pc: Pc)
    requires i < |pcs|
    ensures AllMovesLeft(pcs[i := pc]) == AllMovesLeft(pcs) - MovesLeft(pcs[i]) + MovesLeft(pc)
  {
    if i == |pcs| - 1 {
      assert Front(pcs[i := pc]) == Front(pcs);
    } else {
      assert Front(pcs[i := pc]) == Front(pcs)[i := pc];
      MovesLeftUpdate(Front(pcs), i, pc);
    }
  }

  lemma MoveRunsOut(plan: Plan, s: State, i: nat)
    requires Enabled(plan, s, Move(i))
    ensures EventsLeft(Next(plan, s, Move(i))) < EventsLeft(s)
  {
    if s.pcs[i].Pulling? || s.pcs[i].Copying? || s.pcs[i].Ending? {
      MovesLeftUpdate(s.pcs, i, Next(plan, s, Move(i)).pcs[i]);
    }
  }

  lemma EventsRunOut(plan: Plan, s: State, e: Event)
    requires Enabled(plan, s, e)
    ensures EventsLeft(Next(plan, s, e)) < EventsLeft(s)
  {
    match e
    case Move(i) => MoveRunsOut(plan, s, i);
    case Receive(i) => MovesLeftUpdate(s.pcs, i, Next(plan, s, e).pcs[i]);
    case _ =>
  }

  lemma {:induction false} RunsAreBounded(plan: Plan, evs: seq<Event>)
    requires Exec(plan, evs).Some?
    ensures |evs| + EventsLeft(Exec(plan, evs).value) <= EventsLeft(Init(plan))
  {
    if evs != [] {
      RunsAreBounded(plan, Front(evs));
      EventsRunOut(plan, Exec(plan, Front(evs)).value, Last(evs));
    }
  }

  lemma {:induction false} InitialMoves(n: nat)
    ensures AllMovesLeft(seq(n, _ => Pulling)) == 6 * n
  {
    if n > 0 {
      InitialMoves(n - 1);
      assert Front(seq(n, _ => Pulling)) == seq(n - 1, _ => Pulling);
    }
  }

  /** No run is longer than a bound given by the number of images. */
  lemma EveryRunEnds(plan: Plan, evs: seq<Event>)
    requires Exec(plan, evs).Some?
    ensures |evs| <= 6 * |plan| + 4
  {
    RunsAreBounded(plan, evs);
    InitialMoves(|plan|);
  }

  /** Every execution can go on to its end. */
  lemma CanGoToItsEnd(plan: Plan, evs: seq<Event>) returns (whole: seq<Event>)
    requires Exec(plan, evs).Some?
    ensures evs <= whole && Exec(plan, whole).Some? && Stopped(plan, Exec(plan, whole).value)
    decreases EventsLeft(Exec(plan, evs).value)
  {
    var s := Exec(plan, evs).value;
    if e :| Enabled(plan, s, e) {
      assert Front(evs + [e]) == evs;
      EventsRunOut(plan, s, e);
      whole := CanGoToItsEnd(plan, evs + [e]);
    } else {
      whole := evs;
    }
  }

  /** For every plan with a failed pull or two failed copies, from whatever point, the crash does come. */
  lemma DoomedCrashes(plan: Plan, evs: seq<Event>) returns (whole: seq<Event>)
    requires Doomed(plan) && Exec(plan, evs).Some?
    ensures evs <= whole && Exec(plan, whole).Some? && Exec(plan, whole).value.crashed
  {
    whole := CanGoToItsEnd(plan, evs);
    CrashesExactlyIfDoomed(plan, whole);
  }

  /** One image whose pull fails is enough. */
  lemma OneFailedPullCrashes(copies: bool) returns (whole: seq<Event>)
    ensures Exec([Outcome(false, copies)], whole).Some? && Exec([Outcome(false, copies)], whole).value.crashed
  {
    var plan := [Outcome(false, copies)];
    assert !plan[0].pulls;
    whole := DoomedCrashes(plan, []);
  }
}
