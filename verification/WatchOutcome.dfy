/**
 What the state of the watch and run protocol owes to the events that led to it, and to nothing else:
 which contents the file had, which reads were made, which runs began and failed, and why the process
 ended.
 */
module WatchOutcome {
  import opened Common
  import opened WatchAndRun

  function Writes(evs: seq<Event>): seq<Read> {
    if evs == [] then []
    else Writes(Front(evs)) + if Last(evs).Write? then [Last(evs).read] else []
  }

  // What the file holds after some events.
  function FileAt(file: Read, evs: seq<Event>): Read {
    Last([file] + Writes(evs))
  }

  // The poller's reads.
  function ReadsMade(file: Read, evs: seq<Event>): seq<Read> {
    if evs == [] then []
    else ReadsMade(file, Front(evs)) + if Last(evs).PollRead? then [FileAt(file, Front(evs))] else []
  }

  // A load of the runtime information that succeeds: nothing else fails, and the file holds a run ID.
  predicate Loads(file: Read, before: seq<Event>, e: Event) {
    e == LoadInfo(true) && FileAt(file, before).Content? && FileAt(file, before).text != ""
  }

  predicate FailsToLoad(file: Read, before: seq<Event>, e: Event) {
    || e == LoadInfo(false)
    || (e == LoadInfo(true) && (FileAt(file, before).Failed? || FileAt(file, before) == Content("")))
  }

  // The run IDs that successful loads read.
  function IdsLoaded(file: Read, evs: seq<Event>): seq<string> {
    if evs == [] then []
    else
      IdsLoaded(file, Front(evs)) +
      if Loads(file, Front(evs), Last(evs)) then [FileAt(file, Front(evs)).text] else []
  }

  // The errors that runs return.
  function ErrorsReturned(evs: seq<Event>): seq<string> {
    if evs == [] then []
    else
      ErrorsReturned(Front(evs)) +
      match Last(evs)
      case Finish(Some(err)) => [err]
      case _ => []
  }

  function IdsUsed(runs: seq<Run>): seq<string> {
    seq(|runs|, i requires 0 <= i < |runs| => runs[i].used)
  }

  lemma AppendOne(a: seq<Read>, b: seq<Read>, r: Read)
    ensures a + (b + [r]) == a + b + [r] && Last(a + (b + [r])) == r
    ensures a + (b + []) == a + b
  {
  }

  /** The file's history is its initial content and what was written, and its content is the last of these. */
  lemma {:induction false} HistoryIsWrites(file: Read, evs: seq<Event>)
    requires Exec(Init(file), evs).Some?
    ensures
      var s := Exec(Init(file), evs).value;
      s.history == [file] + Writes(evs) && s.file == FileAt(file, evs)
  {
    if evs != [] {
      HistoryIsWrites(file, Front(evs));
      AppendOne([file], Writes(Front(evs)), if Last(evs).Write? then Last(evs).read else file);
    }
  }

  /** What the polls have acted on, or are about to, is what the file held at each of their reads. */
  lemma {:induction false} ReadsAreMade(file: Read, evs: seq<Event>)
    requires Exec(Init(file), evs).Some?
    ensures
      var s := Exec(Init(file), evs).value;
      s.seen + (if s.poller.HasRead? then [s.poller.read] else []) == ReadsMade(file, evs)
  {
    if evs != [] {
      ReadsAreMade(file, Front(evs));
      HistoryIsWrites(file, Front(evs));
    }
  }

  /**
   The runs that know their ID are the successful loads, one for one and in order, each with the ID
   that the file held at that moment; a load that fails begins none.
   */
  lemma {:induction false} RunsAreLoads(file: Read, evs: seq<Event>)
    requires Exec(Init(file), evs).Some?
    ensures IdsUsed(Exec(Init(file), evs).value.runs) == IdsLoaded(file, evs)
  {
    if evs != [] {
      var s, e := Exec(Init(file), Front(evs)).value, Last(evs);
      RunsAreLoads(file, Front(evs));
      HistoryIsWrites(file, Front(evs));
      if Loads(file, Front(evs), e) {
        assert IdsUsed(Next(s, e).runs) == IdsUsed(s.runs) + [s.file.text];
      } else {
        assert Next(s, e).runs == s.runs;
      }
    }
  }

  /** The recorded failures are the errors that runs have returned. */
  lemma {:induction false} FailuresAreReturned(file: Read, evs: seq<Event>)
    requires Exec(Init(file), evs).Some?
    ensures Exec(Init(file), evs).value.failures == ErrorsReturned(evs)
  {
    if evs != [] {
      FailuresAreReturned(file, Front(evs));
    }
  }

  // Something has ended the process.
  ghost predicate Ended(file: Read, evs: seq<Event>) {
    exists i :: 0 <= i < |evs| && (evs[i] == Exit || FailsToLoad(file, evs[..i], evs[i]))
  }

  lemma EndedSnoc(file: Read, evs: seq<Event>)
    requires evs != []
    ensures Ended(file, evs) <==>
            Ended(file, Front(evs)) || Last(evs) == Exit || FailsToLoad(file, Front(evs), Last(evs))
  {
    var rest := Front(evs);
    assert evs[..|rest|] == rest;
    assert forall i :: 0 <= i < |rest| ==> evs[i] == rest[i] && evs[..i] == rest[..i];
    if i :| 0 <= i < |rest| && (rest[i] == Exit || FailsToLoad(file, rest[..i], rest[i])) {
      assert evs[i] == Exit || FailsToLoad(file, evs[..i], evs[i]);
    }
    if Last(evs) == Exit || FailsToLoad(file, rest, Last(evs)) {
      assert evs[|rest|] == Exit || FailsToLoad(file, evs[..|rest|], evs[|rest|]);
    }
    if i :| 0 <= i < |evs| && (evs[i] == Exit || FailsToLoad(file, evs[..i], evs[i])) {
      assert i < |rest| ==> rest[i] == Exit || FailsToLoad(file, rest[..i], rest[i]);
    }
  }

  /**
   The process has ended if and only if main has exited with an error, or the runtime information
   could not be loaded: for a reason of its own, or because the run ID could not be read or was empty.
   */
  lemma {:induction false} EndExactly(file: Read, evs: seq<Event>)
    requires Exec(Init(file), evs).Some?
    ensures Exec(Init(file), evs).value.main.Exited? <==> Ended(file, evs)
  {
    if evs != [] {
      EndExactly(file, Front(evs));
      EndedSnoc(file, evs);
      HistoryIsWrites(file, Front(evs));
    }
  }

  /** After the end only the file can still change: nothing is read, announced, run or reported any more. */
  lemma {:induction false} NothingAfterTheEnd(s: State, evs: seq<Event>)
    requires s.main.Exited? && Exec(s, evs).Some?
    ensures forall i :: 0 <= i < |evs| ==> evs[i].Write?
    ensures
      var t := Exec(s, evs).value;
      t == s.(file := t.file, history := t.history, polled := t.polled)
  {
    if evs != [] {
      NothingAfterTheEnd(s, Front(evs));
      assert evs == Front(evs) + [Last(evs)];
    }
  }
}
