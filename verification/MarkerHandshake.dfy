/**
 The completion-marker handshake: the PowerShell script on the host writes a directory that the
 Windows logs collector polls. They share nothing else; each sees the run ID through its own,
 independently delayed view. Removing and unpacking are modelled file by file, in any order.
 Everything happens on Windows: PowerShell compares strings without regard to case, and the file
 system does so with names, of which it also drops trailing dots and spaces.
 */
module MarkerHandshake {
  import opened Common
  import opened Strings

  /******* Run IDs and names *******/

  function Lower(c: char): char {
    if 'A' <= c <= 'Z' then (c as int + 32) as char else c
  }

  function Folded(id: string): (f: string)
    ensures |f| == |id|
  {
    if id == "" then "" else [Lower(id[0])] + Folded(id[1..])
  }

  // The script's test of two run IDs.
  predicate Same(a: string, b: string) {
    Folded(a) == Folded(b)
  }

  function Trimmed(name: string): string {
    if name != "" && Last(name) in ". " then Trimmed(Front(name)) else name
  }

  /**
   The name the file system looks up for a path element. It is empty for an element of dots and spaces
   alone, which stays at the folder itself or leads out of it.
   */
  function NameOf(id: string): string {
    Trimmed(Folded(id))
  }

  const FORBIDDEN := "/\\:*?\"<>|"
  const DEVICES := [
    "con", "prn", "aux", "nul",
    "com0", "com1", "com2", "com3", "com4", "com5", "com6", "com7", "com8", "com9",
    "lpt0", "lpt1", "lpt2", "lpt3", "lpt4", "lpt5", "lpt6", "lpt7", "lpt8", "lpt9"]

  // What decides whether a name is that of a device: the part before the first dot.
  function StemOf(name: string): string {
    match Cut(name, '.')
    case None => Trimmed(name)
    case Some((stem, _)) => Trimmed(stem)
  }

  // A single path element that Windows takes for a file of the folder, or for the folder or its parent.
  predicate Ordinary(id: string) {
    && (forall i :: 0 <= i < |id| ==> ' ' <= id[i] && id[i] !in FORBIDDEN)
    && StemOf(Folded(id)) !in DEVICES
  }

  /******* State *******/

  // A log file: the run whose collection it came from, its ID folded, and its text.
  datatype File = File(run: string, text: string)

  type Files = map<string, File>
  type Zip = map<string, string>

  function Unzipped(run: string, zip: Zip): Files {
    map n | n in zip :: File(run, zip[n])
  }

  datatype Script =
    | Watching
    | Collecting(run: string)
    | Removing(run: string, zip: Zip)
    | Unpacking(run: string, zip: Zip, todo: set<string>)
    | Marking(run: string, zip: Zip)
    | Recording(run: string)   // the marker exists, the tracker of the previous run is not yet set

  datatype Reader =
    | Away
    | Polling(run: string)
    | Found(run: string)
    | Listing(run: string, atOpening: set<string>, visited: set<string>, listed: Files)
    | Sizing(run: string, todo: set<string>, listed: Files)
    | Collected(run: string, listed: Files)
    | Uploading(run: string, listed: Files, todo: set<string>, sent: Files)
    | Uploaded(run: string, listed: Files, sent: Files)

  // Run IDs are stored as written, and names as the file system sees them.
  datatype State = State(
    view: Read,            // what the script would read as the run ID
    shown: seq<string>,    // every run ID the view has shown, in order
    script: Script,
    alive: bool,           // the script stops for good at its first error
    previous: string,
    markers: set<string>,  // the plain files in the output folder
    logs: Option<Files>,   // the logs directory, if it exists
    zips: map<string, Zip>, // what was last collected for each run, by folded ID
    reader: Reader)

  datatype Event =
    // the environment
    | Show(view: Read)
    | Abort
    // the script
    | ReadId
    | Collect(zip: Zip)
    | RemoveMarker(name: string)
    | RemoveLog(name: string)
    | RemoveLogsDirectory
    | RemoveDone
    | MakeLogsDirectory
    | Unpack(name: string)
    | UnpackDone
    | Mark
    | Record
    // the collector
    | Begin(run: string)
    | Poll
    | GiveUp
    | OpenLogs
    | Visit(name: string)
    | ListDone
    | Size(name: string)
    | SizeDone
    // the exporter and the archive, each of which reads the listed files in one pass
    | StartUpload
    | Upload(name: string)
    | UploadDone

  function IdOf(r: Read): string {
    Effective(r)
  }

  function IdsOf(r: Read): seq<string> {
    if IdOf(r) == "" then [] else [IdOf(r)]
  }

  function Init(view: Read): State {
    State(view, IdsOf(view), Watching, true, "", {}, None, map[], Away)
  }

  // A run ID whose path in the output folder can only be that of its own marker.
  predicate Plain(id: string) {
    NameOf(id) != "logs" && NameOf(id) != ""
  }

  // FileExists of the marker's path: the logs directory, the folder itself and its parent exist too.
  predicate Exists(s: State, id: string) {
    NameOf(id) in s.markers || (NameOf(id) == "logs" && s.logs.Some?) || NameOf(id) == ""
  }

  predicate Reading(s: State) {
    !s.reader.Away? && !s.reader.Polling?
  }

  predicate ScriptEnabled(s: State, e: Event) {
    s.alive &&
    match e
    case ReadId => s.script.Watching?
    case Collect(_) => s.script.Collecting?
    case RemoveMarker(m) => s.script.Removing? && m in s.markers
    case RemoveLog(n) => s.script.Removing? && s.logs.Some? && n in s.logs.value
    case RemoveLogsDirectory => s.script.Removing? && s.logs == Some(map[])
    case RemoveDone => s.script.Removing? && s.markers == {} && s.logs.None?
    case MakeLogsDirectory => s.script.Unpacking? && s.logs.None?
    case Unpack(n) => s.script.Unpacking? && s.logs.Some? && n in s.script.todo && n in s.script.zip
    case UnpackDone => s.script.Unpacking? && s.logs.Some? && s.script.todo == {}
    case Mark => s.script.Marking?
    case Record => s.script.Recording?
    case _ => false
  }

  predicate ReaderEnabled(s: State, e: Event) {
    match e
    case Begin(run) => (s.reader.Away? || s.reader.Collected? || s.reader.Uploaded?) && run != ""
    case Poll => s.reader.Polling? && Exists(s, s.reader.run)
    case GiveUp => !s.reader.Away?
    case OpenLogs => s.reader.Found? && s.logs.Some?
    case Visit(_) => s.reader.Listing?
    case ListDone => s.reader.Listing? && s.reader.atOpening <= s.reader.visited
    case Size(n) => s.reader.Sizing? && n in s.reader.todo && s.logs.Some? && n in s.logs.value
    case SizeDone => s.reader.Sizing? && s.reader.todo == {}
    case StartUpload => s.reader.Collected? || s.reader.Uploaded?
    case Upload(n) => s.reader.Uploading? && n in s.reader.todo
    case UploadDone => s.reader.Uploading? && s.reader.todo == {}
    case _ => false
  }

  predicate Enabled(s: State, e: Event) {
    e.Show? || e.Abort? || ScriptEnabled(s, e) || ReaderEnabled(s, e)
  }

  function ScriptNext(s: State, e: Event): State
    requires ScriptEnabled(s, e)
  {
    match e
    case ReadId =>
      if s.view.Failed? then s.(alive := false)
      else if s.view.text != "" && !Same(s.view.text, s.previous) then s.(script := Collecting(s.view.text))
      else s
    case Collect(zip) => s.(script := Removing(s.script.run, zip), zips := s.zips[Folded(s.script.run) := zip])
    case RemoveMarker(m) => s.(markers := s.markers - {m})
    case RemoveLog(n) => s.(logs := Some(s.logs.value - {n}))
    case RemoveLogsDirectory => s.(logs := None)
    case RemoveDone => s.(script := Unpacking(s.script.run, s.script.zip, s.script.zip.Keys))
    case MakeLogsDirectory => s.(logs := Some(map[]))
    case Unpack(n) =>
      s.(logs := Some(s.logs.value[n := File(Folded(s.script.run), s.script.zip[n])]),
         script := s.script.(todo := s.script.todo - {n}))
    case UnpackDone => s.(script := Marking(s.script.run, s.script.zip))
    case Mark =>
      // New-Item fails on a path that is already a directory.
      if Plain(s.script.run) then
        s.(markers := s.markers + {NameOf(s.script.run)}, script := Recording(s.script.run))
      else s.(alive := false)
    case Record => s.(previous := s.script.run, script := Watching)
  }

  function ReaderNext(s: State, e: Event): State
    requires ReaderEnabled(s, e)
  {
    match e
    case Begin(run) => s.(reader := Polling(run))
    case Poll => s.(reader := Found(s.reader.run))
    case GiveUp => s.(reader := Away)
    case OpenLogs => s.(reader := Listing(s.reader.run, s.logs.value.Keys, {}, map[]))
    case Visit(n) =>
      var found := s.logs.Some? && n in s.logs.value;
      s.(reader := s.reader.(
           visited := s.reader.visited + {n},
           listed := if found then s.reader.listed[n := s.logs.value[n]] else s.reader.listed))
    case ListDone => s.(reader := Sizing(s.reader.run, s.reader.listed.Keys, s.reader.listed))
    case Size(n) => s.(reader := Sizing(s.reader.run, s.reader.todo - {n}, s.reader.listed))
    case SizeDone => s.(reader := Collected(s.reader.run, s.reader.listed))
    case StartUpload => s.(reader := Uploading(s.reader.run, s.reader.listed, s.reader.listed.Keys, map[]))
    case Upload(n) =>
      var sent := if s.logs.Some? && n in s.logs.value then s.reader.sent[n := s.logs.value[n]] else s.reader.sent;
      s.(reader := Uploading(s.reader.run, s.reader.listed, s.reader.todo - {n}, sent))
    case UploadDone => s.(reader := Uploaded(s.reader.run, s.reader.listed, s.reader.sent))
  }

  function Next(s: State, e: Event): State
    requires Enabled(s, e)
  {
    match e
    case Show(view) => s.(view := view, shown := s.shown + IdsOf(view))
    case Abort => s.(alive := false)
    case _ => if ScriptEnabled(s, e) then ScriptNext(s, e) else ReaderNext(s, e)
  }

  function Exec(view: Read, evs: seq<Event>): Option<State> {
    if evs == [] then Some(Init(view))
    else
      match Exec(view, Front(evs))
      case None => None
      case Some(s) => if Enabled(s, Last(evs)) then Some(Next(s, Last(evs))) else None
  }

  /******* What the script keeps *******/

  predicate Iterating(s: State) {
    !s.script.Watching?
  }

  // The folder as the iteration for a run ID left it that completed.
  ghost predicate Complete(s: State, id: string) {
    s.markers == {NameOf(id)} && Folded(id) in s.zips && s.logs == Some(Unzipped(Folded(id), s.zips[Folded(id)]))
  }

  ghost predicate Untouched(s: State) {
    if s.previous == "" then s.markers == {} && s.logs == None else Complete(s, s.previous)
  }

  ghost predicate Archived(s: State, id: string, zip: Zip) {
    Folded(id) in s.zips && s.zips[Folded(id)] == zip
  }

  ghost predicate Layout(s: State) {
    match s.script
    case Watching => Untouched(s)
    case Collecting(run) => Untouched(s) && run != ""
    case Removing(run, zip) =>
      Archived(s, run, zip) && run != "" && s.markers <= if s.previous == "" then {} else {NameOf(s.previous)}
    case Unpacking(run, zip, todo) =>
      && s.markers == {} && Archived(s, run, zip) && run != "" && todo <= zip.Keys
      && (s.logs.None? ==> todo == zip.Keys)
      && (s.logs.Some? ==> s.logs.value == Unzipped(Folded(run), zip) - todo)
    case Marking(run, zip) =>
      s.markers == {} && Archived(s, run, zip) && run != "" && s.logs == Some(Unzipped(Folded(run), zip))
    case Recording(run) => Complete(s, run) && run != ""
  }

  // The run whose iteration completed last.
  function Owner(s: State): string {
    if s.script.Recording? then s.script.run else s.previous
  }

  // The view showed the run ID a, and then or later b.
  ghost predicate InOrder(shown: seq<string>, a: string, b: string) {
    exists i, j :: 0 <= i <= j < |shown| && shown[i] == a && shown[j] == b
  }

  lemma InOrderLater(shown: seq<string>, more: seq<string>, a: string, b: string)
    requires InOrder(shown, a, b)
    ensures InOrder(shown + more, a, b)
  {
    var i, j :| 0 <= i <= j < |shown| && shown[i] == a && shown[j] == b;
    assert (shown + more)[i] == a && (shown + more)[j] == b;
  }

  // The script works on a run that its view showed after the previous one, and tells the two apart.
  ghost predicate Currency(s: State) {
    && (IdOf(s.view) != "" ==> s.shown != [] && Last(s.shown) == IdOf(s.view))
    && (s.previous != "" ==> InOrder(s.shown, s.previous, s.previous))
    && (Iterating(s) ==> InOrder(s.shown, s.script.run, s.script.run) && !Same(s.script.run, s.previous))
    && (Iterating(s) && s.previous != "" ==> InOrder(s.shown, s.previous, s.script.run))
  }

  lemma ScriptKeepsLayout(s: State, e: Event)
    requires Layout(s) && ScriptEnabled(s, e)
    ensures Layout(ScriptNext(s, e))
  {
    match e
    case Unpack(n) =>
      var run, zip, todo := s.script.run, s.script.zip, s.script.todo;
      var full := Unzipped(Folded(run), zip);
      assert (full - todo)[n := File(Folded(run), zip[n])] == full - (todo - {n});
    case MakeLogsDirectory =>
      assert Unzipped(Folded(s.script.run), s.script.zip) - s.script.zip.Keys == map[];
    case UnpackDone =>
      var full := Unzipped(Folded(s.script.run), s.script.zip);
      assert full - {} == full;
    case _ =>
  }

  lemma ScriptKeepsCurrency(s: State, e: Event)
    requires Currency(s) && ScriptEnabled(s, e)
    ensures Currency(ScriptNext(s, e))
  {
    var t := ScriptNext(s, e);
    assert t.view == s.view && t.shown == s.shown;
    if e.ReadId? && t.script.Collecting? {
      InOrderNow(s.shown, t.script.run, t.script.run);
      if s.previous != "" {
        InOrderNow(s.shown, s.previous, t.script.run);
      }
    }
  }

  lemma InOrderNow(shown: seq<string>, a: string, b: string)
    requires shown != [] && Last(shown) == b && (a == b || InOrder(shown, a, a))
    ensures InOrder(shown, a, b)
  {
    var j := |shown| - 1;
    assert shown[j] == b;
    if a == b {
      assert 0 <= j <= j < |shown| && shown[j] == a;
    } else {
      var i :| 0 <= i < |shown| && shown[i] == a;
      assert 0 <= i <= j;
    }
  }

  lemma ShowKeepsCurrency(s: State, view: Read)
    requires Currency(s)
    ensures Currency(Next(s, Show(view)))
  {
    if s.previous != "" {
      InOrderLater(s.shown, IdsOf(view), s.previous, s.previous);
    }
    if Iterating(s) {
      InOrderLater(s.shown, IdsOf(view), s.script.run, s.script.run);
      if s.previous != "" {
        InOrderLater(s.shown, IdsOf(view), s.previous, s.script.run);
      }
    }
  }

  /******* What the collector can rely on *******/

  // What the collector has gathered so far is right, given what its run's archive holds.
  ghost predicate Faithful(reader: Reader, full: Files) {
    match reader
    case Listing(_, atOpening, visited, listed) =>
      && atOpening == full.Keys
      && (forall n :: n in listed <==> n in visited && n in full)
      && (forall n :: n in listed ==> listed[n] == full[n])
    case Sizing(_, todo, listed) => todo <= full.Keys && listed == full
    case Collected(_, listed) => listed == full
    case Uploading(_, listed, todo, sent) =>
      && listed == full && todo <= full.Keys
      && (forall n :: n in sent <==> n in full && n !in todo)
      && (forall n :: n in sent ==> sent[n] == full[n])
    case Uploaded(_, listed, sent) => listed == full && sent == full
    case _ => true
  }

  // Once the view has shown a run's name, it has shown nothing but that run.
  ghost predicate Settled(shown: seq<string>, run: string) {
    forall i, j :: 0 <= i <= j < |shown| && NameOf(shown[i]) == NameOf(run) ==> Same(shown[j], run)
  }

  lemma SettledBefore(shown: seq<string>, more: seq<string>, run: string)
    requires Settled(shown + more, run)
    ensures Settled(shown, run)
  {
    forall i, j | 0 <= i <= j < |shown| && NameOf(shown[i]) == NameOf(run) ensures Same(shown[j], run) {
      assert (shown + more)[i] == shown[i] && (shown + more)[j] == shown[j];
    }
  }

  lemma SettledFollows(shown: seq<string>, run: string, a: string, b: string)
    requires Settled(shown, run) && InOrder(shown, a, b) && NameOf(a) == NameOf(run)
    ensures Same(b, run)
  {
  }

  /** The marker of a settled run is not touched, whatever the script is at. */
  lemma SettledMarkerStands(s: State, run: string)
    requires Layout(s) && Currency(s) && NameOf(run) in s.markers && Settled(s.shown, run)
    ensures Complete(s, run) && Same(Owner(s), run)
    ensures (s.script.Watching? && s.previous != "") || s.script.Recording?
  {
    if s.script.Recording? {
      SettledFollows(s.shown, run, s.script.run, s.script.run);
    } else {
      SettledFollows(s.shown, run, s.previous, s.previous);
      if !s.script.Watching? {
        assert false;
      }
    }
  }

  // The collector has found a marker that can only be its run's, and its run is settled.
  ghost predicate Held(s: State) {
    Reading(s) && Plain(s.reader.run) && Settled(s.shown, s.reader.run)
  }

  // What the reader has is of the archive last collected for its run.
  ghost predicate Sound(s: State)
    requires !s.reader.Away?
  {
    var id := Folded(s.reader.run);
    && NameOf(s.reader.run) in s.markers
    && id in s.zips
    && Faithful(s.reader, Unzipped(id, s.zips[id]))
  }

  ghost predicate HeldMeansSound(s: State) {
    Held(s) ==> Sound(s)
  }

  ghost predicate Inv(s: State) {
    Layout(s) && Currency(s) && HeldMeansSound(s)
  }

  // No iteration starts on what the view shows when a run is settled and has its marker.
  lemma SettledStays(s: State, run: string)
    requires Layout(s) && Currency(s) && NameOf(run) in s.markers && Settled(s.shown, run)
    requires s.script.Watching? && IdOf(s.view) != ""
    ensures Same(IdOf(s.view), s.previous)
  {
    SettledMarkerStands(s, run);
    InOrderNow(s.shown, s.previous, IdOf(s.view));
    SettledFollows(s.shown, run, s.previous, IdOf(s.view));
  }

  lemma ScriptKeepsHeld(s: State, e: Event)
    requires Inv(s) && ScriptEnabled(s, e)
    ensures HeldMeansSound(ScriptNext(s, e))
  {
    if Held(s) {
      SettledMarkerStands(s, s.reader.run);
      if e.ReadId? && IdOf(s.view) != "" {
        SettledStays(s, s.reader.run);
      }
      assert ScriptNext(s, e).markers == s.markers && ScriptNext(s, e).zips == s.zips;
    }
  }

  lemma FaithfulListing(s: State)
    requires s.reader.Listing? && s.reader.atOpening <= s.reader.visited
    ensures forall full :: Faithful(s.reader, full) ==> s.reader.listed == full
  {
  }

  lemma PollKeepsHeld(s: State)
    requires Inv(s) && ReaderEnabled(s, Poll)
    ensures HeldMeansSound(ReaderNext(s, Poll))
  {
    if Held(ReaderNext(s, Poll)) {
      SettledMarkerStands(s, s.reader.run);
    }
  }

  lemma CollectingKeepsHeld(s: State, e: Event)
    requires Inv(s) && ReaderEnabled(s, e) && !e.Poll? && !e.StartUpload? && !e.Upload? && !e.UploadDone?
    ensures HeldMeansSound(ReaderNext(s, e))
  {
    var t := ReaderNext(s, e);
    if Held(t) {
      assert Held(s);
      SettledMarkerStands(s, t.reader.run);
      if e.ListDone? {
        FaithfulListing(s);
      }
    }
  }

  lemma UploadingKeepsHeld(s: State, e: Event)
    requires Inv(s) && ReaderEnabled(s, e) && (e.StartUpload? || e.Upload? || e.UploadDone?)
    ensures HeldMeansSound(ReaderNext(s, e))
  {
    var t := ReaderNext(s, e);
    if Held(t) {
      assert Held(s);
      SettledMarkerStands(s, t.reader.run);
    }
  }

  lemma ReaderKeepsHeld(s: State, e: Event)
    requires Inv(s) && ReaderEnabled(s, e)
    ensures HeldMeansSound(ReaderNext(s, e))
  {
    match e
    case Poll => PollKeepsHeld(s);
    case StartUpload => UploadingKeepsHeld(s, e);
    case Upload(_) => UploadingKeepsHeld(s, e);
    case UploadDone => UploadingKeepsHeld(s, e);
    case _ => CollectingKeepsHeld(s, e);
  }

  lemma ShowKeepsInv(s: State, view: Read)
    requires Inv(s)
    ensures Inv(Next(s, Show(view)))
  {
    ShowKeepsCurrency(s, view);
    if Held(Next(s, Show(view))) {
      SettledBefore(s.shown, IdsOf(view), s.reader.run);
    }
  }

  lemma ScriptKeepsInv(s: State, e: Event)
    requires Inv(s) && ScriptEnabled(s, e)
    ensures Inv(ScriptNext(s, e))
  {
    ScriptKeepsLayout(s, e);
    ScriptKeepsCurrency(s, e);
    ScriptKeepsHeld(s, e);
  }

  lemma ReaderKeepsInv(s: State, e: Event)
    requires Inv(s) && ReaderEnabled(s, e)
    ensures Inv(ReaderNext(s, e))
  {
    ReaderKeepsHeld(s, e);
    var t := ReaderNext(s, e);
    assert t == s.(reader := t.reader);
  }

  lemma StepInv(s: State, e: Event)
    requires Inv(s) && Enabled(s, e)
    ensures Inv(Next(s, e))
  {
    if e.Show? {
      ShowKeepsInv(s, e.view);
    } else if e.Abort? {
    } else if ScriptEnabled(s, e) {
      ScriptKeepsInv(s, e);
      assert Next(s, e) == ScriptNext(s, e);
    } else {
      ReaderKeepsInv(s, e);
      assert Next(s, e) == ReaderNext(s, e);
    }
  }

  lemma {:induction false} ExecInv(view: Read, evs: seq<Event>)
    requires Exec(view, evs).Some?
    ensures Inv(Exec(view, evs).value)
  {
    if evs != [] {
      ExecInv(view, Front(evs));
      StepInv(Exec(view, Front(evs)).value, Last(evs));
    }
  }

  /**
   In every reachable state in which the script is not in the middle of removing the previous
   output, a marker is that of the run whose iteration completed last, it is the only one, and the logs
   directory is complete and belongs to that run: whatever IDs are shown, and however often.
   */
  lemma MarkerMeansComplete(view: Read, evs: seq<Event>, name: string)
    requires Exec(view, evs).Some?
    requires var s := Exec(view, evs).value; name in s.markers && !s.script.Removing?
    ensures var s := Exec(view, evs).value; name == NameOf(Owner(s)) && Complete(s, Owner(s))
  {
    ExecInv(view, evs);
  }

  /** The marker of a settled run means the same in every reachable state, the removal included. */
  lemma SettledMarkerMeansComplete(view: Read, evs: seq<Event>, run: string)
    requires Exec(view, evs).Some?
    requires var s := Exec(view, evs).value; NameOf(run) in s.markers && Settled(s.shown, run)
    ensures Complete(Exec(view, evs).value, run)
  {
    ExecInv(view, evs);
    SettledMarkerStands(Exec(view, evs).value, run);
  }

  /******* The script's end *******/

  // What the view is at after some events.
  function ViewAfter(view: Read, evs: seq<Event>): Read {
    if evs == [] then view
    else if Last(evs).Show? then Last(evs).view
    else ViewAfter(view, Front(evs))
  }

  // An error of the script: one from outside, a run ID that cannot be read, a marker that cannot be made.
  predicate IsScriptError(view: Read, before: seq<Event>, e: Event)
    requires Exec(view, before).Some?
  {
    || e.Abort?
    || (e.ReadId? && ViewAfter(view, before).Failed?)
    || (e.Mark? && var s := Exec(view, before).value; s.script.Marking? && NameOf(s.script.run) in {"logs", ""})
  }

  predicate HasFailed(view: Read, evs: seq<Event>)
    requires Exec(view, evs).Some?
  {
    evs != [] && (HasFailed(view, Front(evs)) || IsScriptError(view, Front(evs), Last(evs)))
  }

  lemma {:induction false} ViewIsShown(view: Read, evs: seq<Event>)
    requires Exec(view, evs).Some?
    ensures Exec(view, evs).value.view == ViewAfter(view, evs)
  {
    if evs != [] {
      ViewIsShown(view, Front(evs));
    }
  }

  /** The script is alive if and only if it has met no error. */
  lemma {:induction false} AliveExactly(view: Read, evs: seq<Event>)
    requires Exec(view, evs).Some?
    ensures Exec(view, evs).value.alive <==> !HasFailed(view, evs)
  {
    if evs != [] {
      AliveExactly(view, Front(evs));
      ViewIsShown(view, Front(evs));
    }
  }

  predicate IsOfScript(e: Event) {
    || e.ReadId? || e.Collect? || e.RemoveMarker? || e.RemoveLog? || e.RemoveLogsDirectory? || e.RemoveDone?
    || e.MakeLogsDirectory? || e.Unpack? || e.UnpackDone? || e.Mark? || e.Record?
  }

  /** After its first error it does nothing any more: the folder stays as it is, and no marker is made or removed. */
  lemma {:induction false} FirstErrorIsTheEnd(view: Read, evs: seq<Event>, more: seq<Event>)
    requires Exec(view, evs).Some? && HasFailed(view, evs) && Exec(view, evs + more).Some?
    ensures forall i :: 0 <= i < |more| ==> !IsOfScript(more[i])
    ensures
      var s, t := Exec(view, evs).value, Exec(view, evs + more).value;
      !t.alive && t.markers == s.markers && t.logs == s.logs && t.script == s.script && t.previous == s.previous
  {
    AliveExactly(view, evs);
    if more == [] {
      assert evs + more == evs;
    } else {
      assert Front(evs + more) == evs + Front(more) && Last(evs + more) == Last(more);
      FirstErrorIsTheEnd(view, evs, Front(more));
      DeadDoesNothing(Exec(view, evs + Front(more)).value, Last(more));
      assert more == Front(more) + [Last(more)];
    }
  }

  lemma DeadDoesNothing(s: State, e: Event)
    requires !s.alive && Enabled(s, e)
    ensures !IsOfScript(e)
    ensures
      var t := Next(s, e);
      !t.alive && t.markers == s.markers && t.logs == s.logs && t.script == s.script && t.previous == s.previous
  {
  }

  /******* What a collection is worth *******/

  // A finished collection, or a finished upload of one, and all that the script's view has shown until then.
  ghost predicate CollectionAfter(view: Read, evs: seq<Event>, shown: seq<string>, run: string, uploaded: bool) {
    && Exec(view, evs).Some?
    && var s := Exec(view, evs).value;
       && (if uploaded then s.reader.Uploaded? else s.reader.Collected?)
       && s.reader.run == run && s.shown == shown
  }

  // It lists every file of the run's archive, with the run's own content, and nothing else; so does the upload.
  ghost predicate ExactCollection(s: State)
    requires s.reader.Collected? || s.reader.Uploaded?
  {
    var id := Folded(s.reader.run);
    && id in s.zips
    && s.reader.listed == Unzipped(id, s.zips[id])
    && (s.reader.Uploaded? ==> s.reader.sent == Unzipped(id, s.zips[id]))
  }

  /** Whatever is listed for a settled run, and whatever is uploaded later, is exact. */
  lemma SettledCollectionIsExact(view: Read, evs: seq<Event>, shown: seq<string>, run: string, uploaded: bool)
    requires CollectionAfter(view, evs, shown, run, uploaded) && Plain(run) && Settled(shown, run)
    ensures ExactCollection(Exec(view, evs).value)
  {
    ExecInv(view, evs);
  }
}
