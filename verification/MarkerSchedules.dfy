/**
 Schedules of the marker handshake: how the collector can find the right files, or others. They make
 the conditions under which a collection is exact necessary as well.
 */
module MarkerSchedules {
  import opened Common
  import opened MarkerHandshake

  lemma Extend(view: Read, evs: seq<Event>, s: State, e: Event) returns (evs': seq<Event>, s': State)
    requires Exec(view, evs) == Some(s) && Enabled(s, e)
    ensures evs' == evs + [e] && s' == Next(s, e) && Exec(view, evs') == Some(s')
  {
    evs', s' := evs + [e], Next(s, e);
    assert Front(evs') == evs;
  }

  /******* The view *******/

  ghost predicate AllIds(ids: seq<string>) {
    forall i :: 0 <= i < |ids| ==> ids[i] != ""
  }

  lemma ShowOne(view: Read, before: seq<Event>, s0: State, id: string) returns (evs: seq<Event>, s: State)
    requires Exec(view, before) == Some(s0) && id != ""
    ensures Exec(view, evs) == Some(s) && s == s0.(view := Content(id), shown := s0.shown + [id])
  {
    evs, s := Extend(view, before, s0, Show(Content(id)));
  }

  lemma AppendLast(a: seq<string>, ids: seq<string>)
    requires ids != []
    ensures a + Front(ids) + [Last(ids)] == a + ids
  {
  }

  // The view shows several run IDs, one after the other.
  lemma {:induction false} ShowAll(view: Read, before: seq<Event>, s0: State, ids: seq<string>)
    returns (evs: seq<Event>, s: State)
    requires Exec(view, before) == Some(s0) && AllIds(ids)
    ensures Exec(view, evs) == Some(s)
    ensures s == s0.(view := if ids == [] then s0.view else Content(Last(ids)), shown := s0.shown + ids)
  {
    if ids == [] {
      evs, s := before, s0;
      assert s0.shown + ids == s0.shown;
    } else {
      evs, s := ShowAll(view, before, s0, Front(ids));
      AppendLast(s0.shown, ids);
      evs, s := ShowOne(view, evs, s, Last(ids));
    }
  }

  // The initial state, after the view has shown some run IDs.
  function Shown(ids: seq<string>): State
    requires ids != []
  {
    Init(Content(ids[0])).(view := Content(Last(ids)), shown := ids)
  }

  lemma ShowFirst(ids: seq<string>) returns (evs: seq<Event>, s: State)
    requires ids != [] && AllIds(ids)
    ensures Exec(Content(ids[0]), evs) == Some(s) && s == Shown(ids)
  {
    evs, s := ShowAll(Content(ids[0]), [], Init(Content(ids[0])), ids[1..]);
    assert [ids[0]] + ids[1..] == ids;
  }

  /******* The script *******/

  const ZIP: Zip := map["a" := "x"]

  // What the logs directory holds once a run's archive is unpacked.
  function LogsOf(run: string): (logs: Files)
    ensures logs.Keys == {"a"}
  {
    map["a" := File(Folded(run), "x")]
  }

  // A script that has taken the last of these IDs for its first run, and recreated the logs directory.
  function UnpackingFirst(ids: seq<string>): State
    requires ids != []
  {
    Shown(ids).(script := Unpacking(Last(ids), ZIP, {"a"}), logs := Some(map[]), zips := map[Folded(Last(ids)) := ZIP])
  }

  lemma ScriptCollects(ids: seq<string>) returns (evs: seq<Event>, s: State)
    requires ids != [] && AllIds(ids)
    ensures Exec(Content(ids[0]), evs) == Some(s)
    ensures s == Shown(ids).(script := Removing(Last(ids), ZIP), zips := map[Folded(Last(ids)) := ZIP])
  {
    evs, s := ShowFirst(ids);
    evs, s := ScriptTakes(Content(ids[0]), evs, s, Last(ids));
    evs, s := Extend(Content(ids[0]), evs, s, Collect(ZIP));
  }

  // A script that has completed no run yet takes any ID.
  lemma ScriptTakes(view: Read, before: seq<Event>, s0: State, run: string) returns (evs: seq<Event>, s: State)
    requires Exec(view, before) == Some(s0) && s0.alive && s0.script.Watching? && s0.previous == ""
    requires s0.view == Content(run) && run != ""
    ensures Exec(view, evs) == Some(s) && s == s0.(script := Collecting(run))
  {
    assert |Folded(run)| != |Folded("")|;
    evs, s := Extend(view, before, s0, ReadId);
  }

  lemma ScriptUnpacks(ids: seq<string>) returns (evs: seq<Event>, s: State)
    requires ids != [] && AllIds(ids)
    ensures Exec(Content(ids[0]), evs) == Some(s) && s == UnpackingFirst(ids)
  {
    var view := Content(ids[0]);
    evs, s := ScriptCollects(ids);
    evs, s := Extend(view, evs, s, RemoveDone);
    evs, s := Extend(view, evs, s, MakeLogsDirectory);
    assert ZIP.Keys == {"a"};
  }

  // The whole archive is unpacked.
  lemma ScriptUnpacksAll(ids: seq<string>) returns (evs: seq<Event>, s: State)
    requires ids != [] && AllIds(ids)
    ensures Exec(Content(ids[0]), evs) == Some(s)
    ensures s == UnpackingFirst(ids).(script := Marking(Last(ids), ZIP), logs := Some(LogsOf(Last(ids))))
  {
    evs, s := ScriptUnpacks(ids);
    evs, s := Extend(Content(ids[0]), evs, s, Unpack("a"));
    assert {"a"} - {"a"} == {};
    evs, s := Extend(Content(ids[0]), evs, s, UnpackDone);
  }

  // A script that has completed its first run.
  function CompletedFirst(ids: seq<string>): State
    requires ids != []
  {
    UnpackingFirst(ids).(script := Watching, previous := Last(ids), markers := {NameOf(Last(ids))},
                         logs := Some(LogsOf(Last(ids))))
  }

  lemma ScriptCompletes(ids: seq<string>) returns (evs: seq<Event>, s: State)
    requires ids != [] && AllIds(ids) && Plain(Last(ids))
    ensures Exec(Content(ids[0]), evs) == Some(s) && s == CompletedFirst(ids)
  {
    var view := Content(ids[0]);
    evs, s := ScriptUnpacksAll(ids);
    evs, s := Extend(view, evs, s, Mark);
    evs, s := Extend(view, evs, s, Record);
    assert {} + {NameOf(Last(ids))} == {NameOf(Last(ids))};
  }

  lemma ScriptClears(view: Read, before: seq<Event>, s0: State, run: string) returns (evs: seq<Event>, s: State)
    requires Exec(view, before) == Some(s0) && s0.alive && s0.script.Watching? && s0.view == Content(run)
    requires run != "" && !Same(run, s0.previous)
    requires s0.markers == {NameOf(s0.previous)} && s0.logs.Some? && s0.logs.value.Keys == {"a"}
    ensures Exec(view, evs) == Some(s) && s.alive
    ensures s.script == Removing(run, ZIP) && s.markers == {} && s.logs == None
    ensures s.reader == s0.reader && s.shown == s0.shown
  {
    evs, s := Extend(view, before, s0, ReadId);
    evs, s := Extend(view, evs, s, Collect(ZIP));
    evs, s := Extend(view, evs, s, RemoveMarker(NameOf(s0.previous)));
    evs, s := Extend(view, evs, s, RemoveLog("a"));
    assert s.logs.value == map[];
    evs, s := Extend(view, evs, s, RemoveLogsDirectory);
  }

  lemma ScriptRefills(view: Read, before: seq<Event>, s0: State, run: string) returns (evs: seq<Event>, s: State)
    requires Exec(view, before) == Some(s0) && s0.alive
    requires s0.script == Removing(run, ZIP) && s0.markers == {} && s0.logs == None
    ensures Exec(view, evs) == Some(s)
    ensures s.logs == Some(LogsOf(run)) && s.reader == s0.reader && s.shown == s0.shown
  {
    evs, s := Extend(view, before, s0, RemoveDone);
    evs, s := Extend(view, evs, s, MakeLogsDirectory);
    evs, s := Extend(view, evs, s, Unpack("a"));
  }

  // Another iteration, up to the unpacked logs.
  lemma ScriptReplaces(view: Read, before: seq<Event>, s0: State, run: string) returns (evs: seq<Event>, s: State)
    requires Exec(view, before) == Some(s0) && s0.alive && s0.script.Watching? && s0.view == Content(run)
    requires run != "" && !Same(run, s0.previous)
    requires s0.markers == {NameOf(s0.previous)} && s0.logs.Some? && s0.logs.value.Keys == {"a"}
    ensures Exec(view, evs) == Some(s)
    ensures s.logs == Some(LogsOf(run)) && s.reader == s0.reader && s.shown == s0.shown
  {
    evs, s := ScriptClears(view, before, s0, run);
    evs, s := ScriptRefills(view, evs, s, run);
  }

  /******* The collector *******/

  lemma ReaderFinds(view: Read, before: seq<Event>, s0: State, run: string) returns (evs: seq<Event>, s: State)
    requires Exec(view, before) == Some(s0) && s0.reader.Away? && run != "" && Exists(s0, run)
    ensures Exec(view, evs) == Some(s)
    ensures s == s0.(reader := Found(run))
  {
    evs, s := Extend(view, before, s0, Begin(run));
    evs, s := Extend(view, evs, s, Poll);
  }

  lemma ReaderVisits(view: Read, before: seq<Event>, s0: State, f: File) returns (evs: seq<Event>, s: State)
    requires Exec(view, before) == Some(s0) && s0.reader.Found? && s0.logs == Some(map["a" := f])
    ensures Exec(view, evs) == Some(s)
    ensures s == s0.(reader := Listing(s0.reader.run, {"a"}, {"a"}, map["a" := f]))
  {
    assert map["a" := f].Keys == {"a"} && {} + {"a"} == {"a"};
    evs, s := Extend(view, before, s0, OpenLogs);
    evs, s := Extend(view, evs, s, Visit("a"));
  }

  lemma ReaderLists(view: Read, before: seq<Event>, s0: State, f: File) returns (evs: seq<Event>, s: State)
    requires Exec(view, before) == Some(s0) && s0.reader.Found? && s0.logs == Some(map["a" := f])
    ensures Exec(view, evs) == Some(s)
    ensures s == s0.(reader := Sizing(s0.reader.run, {"a"}, map["a" := f]))
  {
    evs, s := ReaderVisits(view, before, s0, f);
    assert s.reader.listed.Keys == {"a"};
    evs, s := Extend(view, evs, s, ListDone);
  }

  lemma ReaderSizes(view: Read, before: seq<Event>, s0: State) returns (evs: seq<Event>, s: State)
    requires Exec(view, before) == Some(s0) && s0.logs.Some? && "a" in s0.logs.value
    requires s0.reader.Sizing? && s0.reader.todo == {"a"}
    ensures Exec(view, evs) == Some(s) && s == s0.(reader := Collected(s0.reader.run, s0.reader.listed))
  {
    evs, s := Extend(view, before, s0, Size("a"));
    evs, s := Extend(view, evs, s, SizeDone);
  }

  lemma ReaderCollects(view: Read, before: seq<Event>, s0: State, f: File) returns (evs: seq<Event>, s: State)
    requires Exec(view, before) == Some(s0) && s0.reader.Found? && s0.logs == Some(map["a" := f])
    ensures Exec(view, evs) == Some(s)
    ensures s == s0.(reader := Collected(s0.reader.run, map["a" := f]))
  {
    evs, s := ReaderLists(view, before, s0, f);
    evs, s := ReaderSizes(view, evs, s);
  }

  lemma ReaderSends(view: Read, before: seq<Event>, s0: State, f: File) returns (evs: seq<Event>, s: State)
    requires Exec(view, before) == Some(s0) && s0.logs == Some(map["a" := f])
    requires s0.reader.Collected? && s0.reader.listed.Keys == {"a"}
    ensures Exec(view, evs) == Some(s)
    ensures s == s0.(reader := Uploading(s0.reader.run, s0.reader.listed, {}, map["a" := f]))
  {
    evs, s := Extend(view, before, s0, StartUpload);
    evs, s := Extend(view, evs, s, Upload("a"));
    assert {"a"} - {"a"} == {};
  }

  lemma ReaderUploads(view: Read, before: seq<Event>, s0: State, f: File) returns (evs: seq<Event>, s: State)
    requires Exec(view, before) == Some(s0) && s0.logs == Some(map["a" := f])
    requires s0.reader.Collected? && s0.reader.listed.Keys == {"a"}
    ensures Exec(view, evs) == Some(s)
    ensures s == s0.(reader := Uploaded(s0.reader.run, s0.reader.listed, map["a" := f]))
  {
    evs, s := ReaderSends(view, before, s0, f);
    evs, s := Extend(view, evs, s, UploadDone);
  }

  lemma ReaderListsNothing(view: Read, before: seq<Event>, s0: State) returns (evs: seq<Event>, s: State)
    requires Exec(view, before) == Some(s0) && s0.reader.Found? && s0.logs == Some(map[])
    ensures Exec(view, evs) == Some(s)
    ensures s == s0.(reader := Sizing(s0.reader.run, {}, map[]))
  {
    var none: Files := map[];
    assert none.Keys == {};
    evs, s := Extend(view, before, s0, OpenLogs);
    evs, s := Extend(view, evs, s, ListDone);
  }

  lemma ReaderTakesNothing(view: Read, before: seq<Event>, s0: State) returns (evs: seq<Event>, s: State)
    requires Exec(view, before) == Some(s0) && s0.reader.Found? && s0.logs == Some(map[])
    ensures Exec(view, evs) == Some(s)
    ensures s == s0.(reader := Collected(s0.reader.run, map[]))
  {
    evs, s := ReaderListsNothing(view, before, s0);
    evs, s := Extend(view, evs, s, SizeDone);
  }

  lemma ReaderUploadsNothing(view: Read, before: seq<Event>, s0: State) returns (evs: seq<Event>, s: State)
    requires Exec(view, before) == Some(s0) && s0.reader.Collected? && s0.reader.listed == map[]
    ensures Exec(view, evs) == Some(s)
    ensures s == s0.(reader := Uploaded(s0.reader.run, map[], map[]))
  {
    evs, s := Extend(view, before, s0, StartUpload);
    evs, s := Extend(view, evs, s, UploadDone);
  }

  // A script that has completed the run h[k], having been shown no more than this, and a collector that
  // has found the marker.
  ghost predicate FoundAt(h: seq<string>, k: nat, run: string, s: State)
    requires k < |h|
  {
    && s.alive && s.script.Watching? && s.previous == h[k] && s.view == Content(h[k]) && s.shown == h[..k + 1]
    && s.markers == {NameOf(h[k])} && s.logs == Some(LogsOf(h[k]))
    && s.reader == Found(run)
  }

  lemma FindsAt(h: seq<string>, k: nat, run: string) returns (evs: seq<Event>, s: State)
    requires AllIds(h) && run != "" && k < |h| && Plain(h[k]) && NameOf(h[k]) == NameOf(run)
    ensures Exec(Content(h[0]), evs) == Some(s) && FoundAt(h, k, run, s)
  {
    var ids := h[..k + 1];
    assert ids[0] == h[0] && Last(ids) == h[k];
    evs, s := ScriptCompletes(ids);
    evs, s := ReaderFinds(Content(h[0]), evs, s, run);
  }

  lemma Slices(h: seq<string>, i: nat, j: nat)
    requires AllIds(h) && i <= j <= |h|
    ensures AllIds(h[i..j]) && h[..i] + h[i..j] == h[..j] && h[..|h|] == h
    ensures i < j ==> h[i..j] != [] && Last(h[i..j]) == h[j - 1]
  {
  }

  // The view goes on with its history, up to some point.
  lemma ShowUpTo(h: seq<string>, i: nat, j: nat, before: seq<Event>, s0: State) returns (evs: seq<Event>, s: State)
    requires AllIds(h) && h != [] && i <= j <= |h|
    requires Exec(Content(h[0]), before) == Some(s0) && s0.shown == h[..i]
    ensures Exec(Content(h[0]), evs) == Some(s)
    ensures s == s0.(view := if i == j then s0.view else Content(h[j - 1]), shown := h[..j])
  {
    Slices(h, i, j);
    evs, s := ShowAll(Content(h[0]), before, s0, h[i..j]);
  }

  // The collector lists the one file there is, and uploads it or not.
  lemma ReaderFinishes(view: Read, before: seq<Event>, s0: State, f: File, uploaded: bool)
    returns (evs: seq<Event>, s: State)
    requires Exec(view, before) == Some(s0) && s0.reader.Found? && s0.logs == Some(map["a" := f])
    ensures Exec(view, evs) == Some(s) && s.view == s0.view && s.shown == s0.shown && s.zips == s0.zips
    ensures if uploaded then s.reader == Uploaded(s0.reader.run, map["a" := f], map["a" := f])
            else s.reader == Collected(s0.reader.run, map["a" := f])
  {
    evs, s := ReaderCollects(view, before, s0, f);
    if uploaded {
      evs, s := ReaderUploads(view, evs, s, f);
    }
  }

  /******* Collections *******/

  /** For every settled history that shows a run, an exact collection is possible, and an exact upload of it. */
  lemma SettledCollectionHappens(h: seq<string>, run: string, i: nat, uploaded: bool) returns (evs: seq<Event>)
    requires AllIds(h) && run != "" && Plain(run) && Settled(h, run) && i < |h| && NameOf(h[i]) == NameOf(run)
    ensures CollectionAfter(Content(h[0]), evs, h, run, uploaded)
  {
    var view, s := Content(h[0]), Shown(h);
    assert Same(h[|h| - 1], run);
    evs, s := ScriptCompletes(h);
    evs, s := ReaderFinds(view, evs, s, run);
    evs, s := ReaderFinishes(view, evs, s, File(Folded(Last(h)), "x"), uploaded);
  }

  // Under the excluded IDs the collector finds its "marker" while an archive is being unpacked.
  lemma CollectsNothing(first: string, run: string) returns (evs: seq<Event>, s: State)
    requires first != "" && run != "" && !Plain(run)
    ensures Exec(Content(first), evs) == Some(s)
    ensures s == UnpackingFirst([first]).(reader := Collected(run, map[]))
  {
    evs, s := ScriptUnpacks([first]);
    evs, s := ReaderFinds(Content(first), evs, s, run);
    evs, s := ReaderTakesNothing(Content(first), evs, s);
  }

  lemma FinishesWithNothing(first: string, run: string, uploaded: bool) returns (evs: seq<Event>, s: State)
    requires first != "" && run != "" && !Plain(run)
    ensures Exec(Content(first), evs) == Some(s)
    ensures s.shown == [first] && s.zips == map[Folded(first) := ZIP]
    ensures s.reader == if uploaded then Uploaded(run, map[], map[]) else Collected(run, map[])
  {
    evs, s := CollectsNothing(first, run);
    if uploaded {
      evs, s := ReaderUploadsNothing(Content(first), evs, s);
    }
  }

  /** With such an ID the collector can succeed without a single file, whatever the view shows. */
  lemma NotPlainIsNotExact(h: seq<string>, run: string, uploaded: bool) returns (evs: seq<Event>)
    requires h != [] && AllIds(h) && run != "" && !Plain(run)
    ensures CollectionAfter(Content(h[0]), evs, h, run, uploaded)
    ensures !ExactCollection(Exec(Content(h[0]), evs).value)
  {
    var s;
    evs, s := FinishesWithNothing(h[0], run, uploaded);
    assert [h[0]] == h[..1];
    evs, s := ShowUpTo(h, 1, |h|, evs, s);
    Slices(h, 1, |h|);
    assert Folded(run) in s.zips ==> "a" in Unzipped(Folded(run), s.zips[Folded(run)]);
  }

  // A collection of a file from another run is not exact.
  lemma ForeignIsNotExact(s: State, f: File)
    requires s.reader.Collected? || s.reader.Uploaded?
    requires s.reader.listed == map["a" := f] && f.run != Folded(s.reader.run)
    ensures !ExactCollection(s)
  {
    assert s.reader.listed["a"] == f;
  }

  // A run of the same name, which the script tells apart, has left its marker.
  lemma AliasIsNotExact(h: seq<string>, k: nat, run: string, uploaded: bool) returns (evs: seq<Event>)
    requires AllIds(h) && run != "" && Plain(run) && k < |h| && NameOf(h[k]) == NameOf(run) && !Same(h[k], run)
    ensures CollectionAfter(Content(h[0]), evs, h, run, uploaded)
    ensures !ExactCollection(Exec(Content(h[0]), evs).value)
  {
    var view, f := Content(h[0]), File(Folded(h[k]), "x");
    var s;
    evs, s := FindsAt(h, k, run);
    evs, s := ReaderFinishes(view, evs, s, f, uploaded);
    evs, s := ShowUpTo(h, k + 1, |h|, evs, s);
    Slices(h, k + 1, |h|);
    ForeignIsNotExact(s, f);
  }

  // The same, after the view has gone on to the n-th ID.
  ghost predicate FoundBefore(h: seq<string>, i: nat, n: nat, run: string, s: State)
    requires i < n <= |h|
  {
    && s.alive && s.script.Watching? && s.previous == h[i] && s.view == Content(h[n - 1]) && s.shown == h[..n]
    && s.markers == {NameOf(h[i])} && s.logs == Some(LogsOf(h[i]))
    && s.reader == Found(run)
  }

  lemma FindsThenSees(h: seq<string>, i: nat, n: nat, run: string) returns (evs: seq<Event>, s: State)
    requires AllIds(h) && run != "" && i + 1 < n <= |h| && Plain(h[i]) && NameOf(h[i]) == NameOf(run)
    ensures Exec(Content(h[0]), evs) == Some(s) && FoundBefore(h, i, n, run, s)
  {
    evs, s := FindsAt(h, i, run);
    evs, s := ShowUpTo(h, i + 1, n, evs, s);
  }

  // The view moves on to another run once the marker is found, and the script replaces the logs.
  lemma FindsThenMoves(h: seq<string>, i: nat, n: nat, run: string) returns (evs: seq<Event>, s: State)
    requires AllIds(h) && run != "" && i + 1 < n <= |h| && Plain(h[i]) && NameOf(h[i]) == NameOf(run)
    requires !Same(h[n - 1], h[i])
    ensures Exec(Content(h[0]), evs) == Some(s)
    ensures s.reader == Found(run) && s.logs == Some(LogsOf(h[n - 1])) && s.shown == h[..n]
  {
    evs, s := FindsThenSees(h, i, n, run);
    evs, s := ScriptReplaces(Content(h[0]), evs, s, h[n - 1]);
  }

  // So the collector lists what the script has put there since.
  lemma MovedViewMixesRuns(h: seq<string>, i: nat, j: nat, run: string, uploaded: bool) returns (evs: seq<Event>)
    requires AllIds(h) && run != "" && Plain(run) && i < j < |h| && Same(h[i], run) && !Same(h[j], run)
    ensures CollectionAfter(Content(h[0]), evs, h, run, uploaded)
    ensures !ExactCollection(Exec(Content(h[0]), evs).value)
  {
    var view, f := Content(h[0]), File(Folded(h[j]), "x");
    var s;
    evs, s := FindsThenMoves(h, i, j + 1, run);
    evs, s := ReaderFinishes(view, evs, s, f, uploaded);
    evs, s := ShowUpTo(h, j + 1, |h|, evs, s);
    Slices(h, j + 1, |h|);
    ForeignIsNotExact(s, f);
  }

  /** For every history that is not settled for a run, a collection for it can list, and upload, another run's files. */
  lemma UnsettledIsNotExact(h: seq<string>, run: string, uploaded: bool) returns (evs: seq<Event>)
    requires AllIds(h) && run != "" && Plain(run) && !Settled(h, run)
    ensures h != [] && CollectionAfter(Content(h[0]), evs, h, run, uploaded)
    ensures !ExactCollection(Exec(Content(h[0]), evs).value)
  {
    var i, j :| 0 <= i <= j < |h| && NameOf(h[i]) == NameOf(run) && !Same(h[j], run);
    if Same(h[i], run) {
      evs := MovedViewMixesRuns(h, i, j, run, uploaded);
    } else {
      evs := AliasIsNotExact(h, i, run, uploaded);
    }
  }

  /** In particular when a run ID comes back after another: its old marker may still be there to be found. */
  lemma ReturningIdMixesRuns(run: string, other: string, uploaded: bool) returns (evs: seq<Event>)
    requires run != "" && Plain(run) && other != "" && !Same(other, run)
    ensures CollectionAfter(Content(run), evs, [run, other, run], run, uploaded)
    ensures !ExactCollection(Exec(Content(run), evs).value)
  {
    evs := MovedViewMixesRuns([run, other, run], 0, 1, run, uploaded);
  }

  /** Even a collection that lists its own files uploads another run's, if the view moves on before the upload. */
  lemma MovedViewMixesUpload(run: string, next: string) returns (evs: seq<Event>)
    requires run != "" && Plain(run) && next != "" && !Same(next, run)
    ensures CollectionAfter(Content(run), evs, [run, next], run, true)
    ensures Exec(Content(run), evs).value.reader == Uploaded(run, LogsOf(run), LogsOf(next))
  {
    var view, s := Content(run), Shown([run]);
    evs, s := ScriptCompletes([run]);
    evs, s := ReaderFinds(view, evs, s, run);
    evs, s := ReaderCollects(view, evs, s, File(Folded(run), "x"));
    evs, s := ShowAll(view, evs, s, [next]);
    evs, s := ScriptReplaces(view, evs, s, next);
    evs, s := ReaderUploads(view, evs, s, File(Folded(next), "x"));
  }

  /**
   The exact condition, for every run ID and everything the script's view can have shown by the end of a
   collection for it, or of the upload: all of these are exact, if and only if the ID is not that of
   something else that exists at the marker's path, and from the first ID of its name on the view has
   shown nothing but this ID. The IDs may be any that are ordinary elements of a path.
   */
  lemma ExactExactly(h: seq<string>, run: string, uploaded: bool)
    requires h != [] && AllIds(h) && run != ""
    requires Ordinary(run) && forall i :: 0 <= i < |h| ==> Ordinary(h[i])
    ensures (forall view, evs :: CollectionAfter(view, evs, h, run, uploaded) ==>
                                   ExactCollection(Exec(view, evs).value))
            <==> Plain(run) && Settled(h, run)
  {
    if !Plain(run) {
      var evs := NotPlainIsNotExact(h, run, uploaded);
    } else if !Settled(h, run) {
      var evs := UnsettledIsNotExact(h, run, uploaded);
    } else {
      forall view, evs | CollectionAfter(view, evs, h, run, uploaded)
        ensures ExactCollection(Exec(view, evs).value)
      {
        SettledCollectionIsExact(view, evs, h, run, uploaded);
      }
    }
  }

  lemma {:induction false} NameIgnoresTail(id: string, tail: string)
    requires forall i :: 0 <= i < |tail| ==> tail[i] == '.' || tail[i] == ' '
    ensures NameOf(id + tail) == NameOf(id)
  {
    if tail == "" {
      assert id + tail == id;
    } else {
      assert id + tail == id + Front(tail) + [Last(tail)];
      NameIgnoresLast(id + Front(tail), Last(tail));
      NameIgnoresTail(id, Front(tail));
    }
  }

  lemma NameIgnoresLast(id: string, c: char)
    requires c == '.' || c == ' '
    ensures NameOf(id + [c]) == NameOf(id)
  {
    FoldedSnoc(id, c);
    assert Front(Folded(id) + [c]) == Folded(id);
  }

  lemma {:induction false} FoldedSnoc(id: string, c: char)
    ensures Folded(id + [c]) == Folded(id) + [Lower(c)]
  {
    if id == "" {
      assert id + [c] == [c];
      assert Folded([c]) == [Lower(c)] + Folded([c][1..]);
    } else {
      assert (id + [c])[1..] == id[1..] + [c];
      FoldedSnoc(id[1..], c);
    }
  }

  /** The excluded IDs: the logs directory in any spelling, with any dots and spaces after it, or these alone. */
  lemma ExcludedIds(id: string, tail: string)
    requires Folded(id) == "logs" || id == ""
    requires forall i :: 0 <= i < |tail| ==> tail[i] == '.' || tail[i] == ' '
    ensures !Plain(id + tail)
  {
    NameIgnoresTail(id, tail);
  }

  /** Some of them. */
  lemma ExcludedExamples()
    ensures !Plain("logs") && !Plain("LOGS") && !Plain("Logs.") && !Plain(".") && !Plain("..")
  {
    FoldedExamples();
    ExcludedIds("logs", "");
    ExcludedIds("LOGS", "");
    ExcludedIds("Logs", ".");
    ExcludedIds("", ".");
    ExcludedIds("", "..");
    assert "logs" + "" == "logs" && "LOGS" + "" == "LOGS" && "Logs" + "." == "Logs.";
    assert "" + "." == "." && "" + ".." == "..";
  }

  lemma FoldedExamples()
    ensures Folded("logs") == "logs" && Folded("LOGS") == "logs" && Folded("Logs") == "logs"
  {
    FoldedByCharacter("logs");
    FoldedByCharacter("LOGS");
    FoldedByCharacter("Logs");
    assert Lower('L') == 'l' && Lower('O') == 'o' && Lower('G') == 'g' && Lower('S') == 's';
    assert Folded("logs") == "logs";
    assert Folded("LOGS") == "logs";
    assert Folded("Logs") == "logs";
  }

  /** The script tells IDs apart by more than the case of the letters A to Z, and by that only. */
  lemma SameExactly(a: string, b: string)
    ensures Same(a, b) <==>
            |a| == |b| && forall i :: 0 <= i < |a| ==> a[i] == b[i] || IsCasePair(a[i], b[i]) || IsCasePair(b[i], a[i])
  {
    FoldedByCharacter(a);
    FoldedByCharacter(b);
    if |a| == |b| {
      forall i | 0 <= i < |a|
        ensures Lower(a[i]) == Lower(b[i]) <==> a[i] == b[i] || IsCasePair(a[i], b[i]) || IsCasePair(b[i], a[i])
      {
        CasePairs(a[i], b[i]);
        CasePairs(b[i], a[i]);
      }
    }
  }

  const UPPER := "ABCDEFGHIJKLMNOPQRSTUVWXYZ"
  const LOWER := "abcdefghijklmnopqrstuvwxyz"

  predicate IsCasePair(u: char, l: char) {
    exists k :: 0 <= k < 26 && UPPER[k] == u && LOWER[k] == l
  }

  lemma {:induction false} FoldedByCharacter(id: string)
    ensures forall i :: 0 <= i < |id| ==> Folded(id)[i] == Lower(id[i])
  {
    if id != "" {
      FoldedByCharacter(id[1..]);
    }
  }

  lemma CasePairs(u: char, l: char)
    ensures IsCasePair(u, l) <==> 'A' <= u <= 'Z' && l == Lower(u)
  {
    assert forall k :: 0 <= k < 26 ==> UPPER[k] as int == 65 + k && LOWER[k] as int == 97 + k;
    if 'A' <= u <= 'Z' && l == Lower(u) {
      var k := u as int - 65;
      assert UPPER[k] == u && LOWER[k] == l;
    }
  }

  /** And one that is not. */
  lemma OrdinaryExample()
    ensures Plain("log")
  {
    FoldedByCharacter("log");
    assert Folded("log") == "log";
    assert Last("log") == 'g';
  }
}
