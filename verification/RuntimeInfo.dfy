/**
 Reading a run's configuration: many files, each checked and read, with the errors of all of them
 accumulated in order.
 */
module RuntimeInfo {
  import opened Common
  import opened Strings

  // What checking and reading one path yields.
  datatype FileState = Unchecked(err: string) | Missing | Present(read: Read)

  datatype Problem =
    | CannotCheck(path: string, err: string)
    | MandatoryMissing(path: string)
    | CannotRead(path: string, err: string)
    | MandatoryEmpty(path: string)
    | HostNameNotSet

  type FileSystem = string -> FileState

  datatype Paths = Paths(
    runId: string, collectorList: string, kubernetesObjects: string, nodeLogs: string, containerLogs: string,
    accountName: string, sasKey: string, containerName: string, sasKeyType: string,
    ofFeature: string -> string)

  datatype Info = Info(
    runId: string, hostNodeName: string, collectorList: seq<Word>, kubernetesObjects: seq<Word>,
    nodeLogs: seq<Word>, containerLogs: seq<Word>, accountName: string, sasKey: string,
    containerName: string, sasKeyType: string,
    features: set<string>)

  datatype Result = Success(info: Info) | Failure(problems: seq<Problem>)

  /******* One file *******/

  function ProblemOf(fs: FileSystem, path: string, mandatory: bool): Option<Problem> {
    match fs(path)
    case Unchecked(err) => Some(CannotCheck(path, err))
    case Missing => if mandatory then Some(MandatoryMissing(path)) else None
    case Present(Failed(err)) => Some(CannotRead(path, err))
    case Present(Content(text)) => if mandatory && text == "" then Some(MandatoryEmpty(path)) else None
  }

  // The content that counts: empty for a file that is absent or cannot be read.
  function TextOf(fs: FileSystem, path: string): string {
    match fs(path)
    case Present(read) => Effective(read)
    case _ => ""
  }

  function Listed(p: Option<Problem>): seq<Problem> {
    match p case None => [] case Some(problem) => [problem]
  }

  method ReadFileContent(fs: FileSystem, path: string, mandatory: bool, errs: seq<Problem>)
    returns (value: string, errs': seq<Problem>)
    ensures errs' == errs + Listed(ProblemOf(fs, path, mandatory))
    ensures value == TextOf(fs, path)
  {
    match fs(path) {
      case Unchecked(err) => return "", errs + [CannotCheck(path, err)];
      case Missing =>
        if mandatory {
          return "", errs + [MandatoryMissing(path)];
        }
        return "", errs;
      case Present(Failed(err)) => return "", errs + [CannotRead(path, err)];
      case Present(Content(text)) =>
        if mandatory && text == "" {
          return "", errs + [MandatoryEmpty(path)];
        }
        return text, errs;
    }
  }

  /******* All of them *******/

  // One configuration check: a file, or the host name.
  datatype Check = OfFile(path: string, mandatory: bool) | OfHostName

  function ConfigChecks(paths: Paths): seq<Check> {
    [OfFile(paths.runId, true), OfFile(paths.collectorList, false), OfFile(paths.kubernetesObjects, false),
     OfFile(paths.nodeLogs, false), OfFile(paths.containerLogs, false)]
  }

  function SecretChecks(paths: Paths): seq<Check> {
    [OfFile(paths.accountName, false), OfFile(paths.sasKey, false), OfFile(paths.containerName, false),
     OfFile(paths.sasKeyType, false)]
  }

  function FeatureChecks(paths: Paths, features: seq<string>): seq<Check> {
    seq(|features|, i requires 0 <= i < |features| => OfFile(paths.ofFeature(features[i]), false))
  }

  function Checks(paths: Paths, features: seq<string>): seq<Check> {
    ConfigChecks(paths) + SecretChecks(paths) + [OfHostName] + FeatureChecks(paths, features)
  }

  function Outcome(fs: FileSystem, hostName: string, c: Check): Option<Problem> {
    match c
    case OfFile(path, mandatory) => ProblemOf(fs, path, mandatory)
    case OfHostName => if hostName == "" then Some(HostNameNotSet) else None
  }

  function Problems(fs: FileSystem, hostName: string, checks: seq<Check>): seq<Problem> {
    if checks == [] then []
    else Problems(fs, hostName, Front(checks)) + Listed(Outcome(fs, hostName, Last(checks)))
  }

  lemma ProblemsSnoc(fs: FileSystem, hostName: string, checks: seq<Check>, c: Check)
    ensures Problems(fs, hostName, checks + [c]) == Problems(fs, hostName, checks) + Listed(Outcome(fs, hostName, c))
  {
    assert Front(checks + [c]) == checks;
  }

  // One more check done.
  lemma Checked(fs: FileSystem, hostName: string, done: seq<Check>, c: Check) returns (done': seq<Check>)
    ensures done' == done + [c]
    ensures Problems(fs, hostName, done') == Problems(fs, hostName, done) + Listed(Outcome(fs, hostName, c))
  {
    done' := done + [c];
    ProblemsSnoc(fs, hostName, done, c);
  }

  function Loaded(fs: FileSystem, hostName: string, paths: Paths, features: seq<string>): Info {
    Info(TextOf(fs, paths.runId), hostName, Fields(TextOf(fs, paths.collectorList)),
         Fields(TextOf(fs, paths.kubernetesObjects)), Fields(TextOf(fs, paths.nodeLogs)),
         Fields(TextOf(fs, paths.containerLogs)), TextOf(fs, paths.accountName), TextOf(fs, paths.sasKey),
         TextOf(fs, paths.containerName), TextOf(fs, paths.sasKeyType), Enabled(fs, paths, features))
  }

  /******* The errors and the features *******/

  lemma FeatureChecksSnoc(before: seq<Check>, paths: Paths, features: seq<string>, i: nat)
    requires i < |features|
    ensures before + FeatureChecks(paths, features[..i + 1]) ==
            before + FeatureChecks(paths, features[..i]) + [OfFile(paths.ofFeature(features[i]), false)]
  {
  }

  function Enabled(fs: FileSystem, paths: Paths, features: seq<string>): set<string> {
    if features == [] then {}
    else
      var f := Last(features);
      Enabled(fs, paths, Front(features)) + if TextOf(fs, paths.ofFeature(f)) != "" then {f} else {}
  }

  lemma {:induction false} EnabledExactly(fs: FileSystem, paths: Paths, features: seq<string>, f: string)
    ensures f in Enabled(fs, paths, features) <==> f in features && TextOf(fs, paths.ofFeature(f)) != ""
  {
    if features != [] {
      EnabledExactly(fs, paths, Front(features), f);
      assert features == Front(features) + [Last(features)];
    }
  }

  method ReadFeatures(fs: FileSystem, paths: Paths, features: seq<string>, errs: seq<Problem>,
                      ghost hostName: string, ghost before: seq<Check>)
    returns (enabled: set<string>, errs': seq<Problem>)
    requires errs == Problems(fs, hostName, before)
    ensures errs' == Problems(fs, hostName, before + FeatureChecks(paths, features))
    ensures enabled == Enabled(fs, paths, features)
  {
    enabled, errs' := {}, errs;
    assert before + FeatureChecks(paths, features[..0]) == before;
    for i := 0 to |features|
      invariant errs' == Problems(fs, hostName, before + FeatureChecks(paths, features[..i]))
      invariant enabled == Enabled(fs, paths, features[..i])
    {
      ghost var done := before + FeatureChecks(paths, features[..i]);
      var featureFilePath := paths.ofFeature(features[i]);
      var value;
      value, errs' := ReadFileContent(fs, featureFilePath, false, errs');
      ProblemsSnoc(fs, hostName, done, OfFile(featureFilePath, false));
      FeatureChecksSnoc(before, paths, features, i);
      assert Front(features[..i + 1]) == features[..i];
      if |value| > 0 {
        enabled := enabled + {features[i]};
      }
    }
    assert features[..|features|] == features;
  }

  // The configuration values, in the order GetRuntimeInfo reads them.
  method ReadConfig(fs: FileSystem, paths: Paths, ghost hostName: string)
    returns (runId: string, collectorList: string, kubernetesObjects: string, nodeLogs: string, containerLogs: string,
             errs: seq<Problem>)
    ensures errs == Problems(fs, hostName, ConfigChecks(paths))
    ensures runId == TextOf(fs, paths.runId) && collectorList == TextOf(fs, paths.collectorList)
    ensures kubernetesObjects == TextOf(fs, paths.kubernetesObjects) && nodeLogs == TextOf(fs, paths.nodeLogs)
    ensures containerLogs == TextOf(fs, paths.containerLogs)
  {
    errs := [];
    ghost var done: seq<Check> := [];
    runId, errs := ReadFileContent(fs, paths.runId, true, errs);
    done := Checked(fs, hostName, done, OfFile(paths.runId, true));
    collectorList, errs := ReadFileContent(fs, paths.collectorList, false, errs);
    done := Checked(fs, hostName, done, OfFile(paths.collectorList, false));
    kubernetesObjects, errs := ReadFileContent(fs, paths.kubernetesObjects, false, errs);
    done := Checked(fs, hostName, done, OfFile(paths.kubernetesObjects, false));
    nodeLogs, errs := ReadFileContent(fs, paths.nodeLogs, false, errs);
    done := Checked(fs, hostName, done, OfFile(paths.nodeLogs, false));
    containerLogs, errs := ReadFileContent(fs, paths.containerLogs, false, errs);
    done := Checked(fs, hostName, done, OfFile(paths.containerLogs, false));
    assert done == ConfigChecks(paths);
  }

  // The secret values, likewise.
  method ReadSecret(fs: FileSystem, paths: Paths, errs0: seq<Problem>, ghost hostName: string, ghost before: seq<Check>)
    returns (accountName: string, sasKey: string, containerName: string, sasKeyType: string, errs: seq<Problem>)
    requires errs0 == Problems(fs, hostName, before)
    ensures errs == Problems(fs, hostName, before + SecretChecks(paths))
    ensures accountName == TextOf(fs, paths.accountName) && sasKey == TextOf(fs, paths.sasKey)
    ensures containerName == TextOf(fs, paths.containerName) && sasKeyType == TextOf(fs, paths.sasKeyType)
  {
    errs := errs0;
    ghost var done: seq<Check> := before;
    accountName, errs := ReadFileContent(fs, paths.accountName, false, errs);
    done := Checked(fs, hostName, done, OfFile(paths.accountName, false));
    sasKey, errs := ReadFileContent(fs, paths.sasKey, false, errs);
    done := Checked(fs, hostName, done, OfFile(paths.sasKey, false));
    containerName, errs := ReadFileContent(fs, paths.containerName, false, errs);
    done := Checked(fs, hostName, done, OfFile(paths.containerName, false));
    sasKeyType, errs := ReadFileContent(fs, paths.sasKeyType, false, errs);
    done := Checked(fs, hostName, done, OfFile(paths.sasKeyType, false));
    assert done == before + SecretChecks(paths);
  }

  /**
   Succeeds exactly if no check finds a problem; otherwise reports one problem for each check that
   does, in the order of the checks.
   */
  method GetRuntimeInfo(fs: FileSystem, hostName: string, paths: Paths, features: seq<string>) returns (result: Result)
    ensures
      var problems := Problems(fs, hostName, Checks(paths, features));
      result == if problems == [] then Success(Loaded(fs, hostName, paths, features)) else Failure(problems)
    ensures result.Success? ==> Matches(fs, hostName, paths, features, result.info)
    ensures match result
            case Success(_) => forall problem :: !Occurs(fs, hostName, paths, features, problem)
            case Failure(problems) =>
              && problems != []
              && problems == InOrder(fs, hostName, paths, features)
              && forall problem :: problem in problems <==> Occurs(fs, hostName, paths, features, problem)
  {
    ProblemsThatOccur(fs, hostName, paths, features);
    ProblemsInOrder(fs, hostName, paths, features);
    if Problems(fs, hostName, Checks(paths, features)) == [] {
      SuccessMatches(fs, hostName, paths, features);
    }
    var runId, collectorList, kubernetesObjects, nodeLogs, containerLogs, errs := ReadConfig(fs, paths, hostName);
    var accountName, sasKey, containerName, sasKeyType;
    accountName, sasKey, containerName, sasKeyType, errs := ReadSecret(fs, paths, errs, hostName, ConfigChecks(paths));
    ghost var done := ConfigChecks(paths) + SecretChecks(paths);
    if |hostName| == 0 {
      errs := errs + [HostNameNotSet];
    }
    done := Checked(fs, hostName, done, OfHostName);
    var enabled;
    enabled, errs := ReadFeatures(fs, paths, features, errs, hostName, done);
    if errs != [] {
      return Failure(errs);
    }
    return Success(Info(runId, hostName, Fields(collectorList), Fields(kubernetesObjects), Fields(nodeLogs),
                        Fields(containerLogs), accountName, sasKey, containerName, sasKeyType, enabled));
  }

  /******* What the result says *******/

  ghost predicate AllPass(fs: FileSystem, hostName: string, checks: seq<Check>) {
    forall i :: 0 <= i < |checks| ==> Outcome(fs, hostName, checks[i]).None?
  }

  lemma AllPassSnoc(fs: FileSystem, hostName: string, checks: seq<Check>)
    requires checks != []
    ensures AllPass(fs, hostName, checks) <==>
            AllPass(fs, hostName, Front(checks)) && Outcome(fs, hostName, Last(checks)).None?
  {
    var rest := Front(checks);
    assert forall i :: 0 <= i < |rest| ==> rest[i] == checks[i];
    if AllPass(fs, hostName, rest) && Outcome(fs, hostName, Last(checks)).None? {
      forall i | 0 <= i < |checks| ensures Outcome(fs, hostName, checks[i]).None? {
        assert i < |rest| ==> Outcome(fs, hostName, rest[i]).None?;
      }
    }
  }

  lemma {:induction false} NoProblemsExactly(fs: FileSystem, hostName: string, checks: seq<Check>)
    ensures Problems(fs, hostName, checks) == [] <==> AllPass(fs, hostName, checks)
  {
    if checks != [] {
      NoProblemsExactly(fs, hostName, Front(checks));
      AllPassSnoc(fs, hostName, checks);
    }
  }

  /** A success means that the run ID was there to be read and not empty, and the host name was set. */
  lemma SuccessHasRunId(fs: FileSystem, hostName: string, paths: Paths, features: seq<string>)
    requires Problems(fs, hostName, Checks(paths, features)) == []
    ensures
      var info := Loaded(fs, hostName, paths, features);
      fs(paths.runId) == Present(Content(info.runId)) && info.runId != "" && info.hostNodeName != ""
  {
    var checks := Checks(paths, features);
    NoProblemsExactly(fs, hostName, checks);
    assert checks[0] == OfFile(paths.runId, true) && checks[9] == OfHostName;
    assert Outcome(fs, hostName, checks[0]).None? && Outcome(fs, hostName, checks[9]).None?;
  }

  /******* What is loaded, and what is reported, said of the files alone *******/

  // The file at a path holds a value, or is not there and the value is empty.
  predicate HasText(fs: FileSystem, path: string, text: string) {
    fs(path) == Present(Content(text)) || (fs(path) == Missing && text == "")
  }

  // The file at a path lists some words, with any white space around them.
  ghost predicate HasWords(fs: FileSystem, path: string, words: seq<string>) {
    exists lead: string, gaps: seq<string> ::
      && |gaps| == |words| && IsBlank(lead) && AllWords(words) && Separating(gaps)
      && HasText(fs, path, lead + Spread(words, gaps))
  }

  predicate FeatureIsOn(fs: FileSystem, path: string) {
    fs(path).Present? && fs(path).read.Content? && fs(path).read.text != ""
  }

  /** Every field holds what its own file says. */
  ghost predicate Matches(fs: FileSystem, hostName: string, paths: Paths, features: seq<string>, info: Info) {
    && fs(paths.runId) == Present(Content(info.runId)) && info.runId != ""
    && info.hostNodeName == hostName && hostName != ""
    && HasWords(fs, paths.collectorList, info.collectorList)
    && HasWords(fs, paths.kubernetesObjects, info.kubernetesObjects)
    && HasWords(fs, paths.nodeLogs, info.nodeLogs)
    && HasWords(fs, paths.containerLogs, info.containerLogs)
    && HasText(fs, paths.accountName, info.accountName)
    && HasText(fs, paths.sasKey, info.sasKey)
    && HasText(fs, paths.containerName, info.containerName)
    && HasText(fs, paths.sasKeyType, info.sasKeyType)
    && forall f :: f in info.features <==> f in features && FeatureIsOn(fs, paths.ofFeature(f))
  }

  // Checks of a file leave no problem: it holds the text that counts.
  lemma PassedHasText(fs: FileSystem, path: string, mandatory: bool)
    requires ProblemOf(fs, path, mandatory).None?
    ensures HasText(fs, path, TextOf(fs, path))
    ensures mandatory ==> fs(path) == Present(Content(TextOf(fs, path))) && TextOf(fs, path) != ""
  {
  }

  lemma PassedHasWords(fs: FileSystem, path: string)
    requires ProblemOf(fs, path, false).None?
    ensures HasWords(fs, path, Fields(TextOf(fs, path)))
  {
    PassedHasText(fs, path, false);
    FieldsAreWords(TextOf(fs, path));
    var lead, gaps := EveryTextIsSpread(TextOf(fs, path));
  }

  // With no problem at all, every configured file passes.
  lemma AllFilesPass(fs: FileSystem, hostName: string, paths: Paths, features: seq<string>)
    requires Problems(fs, hostName, Checks(paths, features)) == []
    ensures ProblemOf(fs, paths.runId, true).None? && hostName != ""
    ensures ProblemOf(fs, paths.collectorList, false).None? && ProblemOf(fs, paths.kubernetesObjects, false).None?
    ensures ProblemOf(fs, paths.nodeLogs, false).None? && ProblemOf(fs, paths.containerLogs, false).None?
    ensures ProblemOf(fs, paths.accountName, false).None? && ProblemOf(fs, paths.sasKey, false).None?
    ensures ProblemOf(fs, paths.containerName, false).None? && ProblemOf(fs, paths.sasKeyType, false).None?
    ensures forall f :: f in features ==> ProblemOf(fs, paths.ofFeature(f), false).None?
  {
    var checks := Checks(paths, features);
    NoProblemsExactly(fs, hostName, checks);
    forall k | 0 <= k < 10 ensures Outcome(fs, hostName, FixedChecks(paths)[k]).None? {
      assert checks[k] == FixedChecks(paths)[k];
    }
    FixedOutcomes(fs, hostName, paths);
    forall f | f in features ensures ProblemOf(fs, paths.ofFeature(f), false).None? {
      var i :| 0 <= i < |features| && features[i] == f;
      assert checks[10 + i] == OfFile(paths.ofFeature(f), false);
      assert Outcome(fs, hostName, checks[10 + i]).None?;
    }
  }

  // The checks that every run makes, in order.
  function FixedChecks(paths: Paths): seq<Check> {
    ConfigChecks(paths) + SecretChecks(paths) + [OfHostName]
  }

  lemma FixedOutcomes(fs: FileSystem, hostName: string, paths: Paths)
    requires forall k :: 0 <= k < 10 ==> Outcome(fs, hostName, FixedChecks(paths)[k]).None?
    ensures ProblemOf(fs, paths.runId, true).None? && hostName != ""
    ensures ProblemOf(fs, paths.collectorList, false).None? && ProblemOf(fs, paths.kubernetesObjects, false).None?
    ensures ProblemOf(fs, paths.nodeLogs, false).None? && ProblemOf(fs, paths.containerLogs, false).None?
    ensures ProblemOf(fs, paths.accountName, false).None? && ProblemOf(fs, paths.sasKey, false).None?
    ensures ProblemOf(fs, paths.containerName, false).None? && ProblemOf(fs, paths.sasKeyType, false).None?
  {
    var c := FixedChecks(paths);
    assert c[0] == OfFile(paths.runId, true) && c[9] == OfHostName;
    assert c[1] == OfFile(paths.collectorList, false) && c[2] == OfFile(paths.kubernetesObjects, false);
    assert c[3] == OfFile(paths.nodeLogs, false) && c[4] == OfFile(paths.containerLogs, false);
    assert c[5] == OfFile(paths.accountName, false) && c[6] == OfFile(paths.sasKey, false);
    assert c[7] == OfFile(paths.containerName, false) && c[8] == OfFile(paths.sasKeyType, false);
  }

  lemma SuccessMatches(fs: FileSystem, hostName: string, paths: Paths, features: seq<string>)
    requires Problems(fs, hostName, Checks(paths, features)) == []
    ensures Matches(fs, hostName, paths, features, Loaded(fs, hostName, paths, features))
  {
    AllFilesPass(fs, hostName, paths, features);
    PassedHasText(fs, paths.runId, true);
    PassedHasText(fs, paths.accountName, false);
    PassedHasText(fs, paths.sasKey, false);
    PassedHasText(fs, paths.containerName, false);
    PassedHasText(fs, paths.sasKeyType, false);
    PassedHasWords(fs, paths.collectorList);
    PassedHasWords(fs, paths.kubernetesObjects);
    PassedHasWords(fs, paths.nodeLogs);
    PassedHasWords(fs, paths.containerLogs);
    FeaturesMatch(fs, paths, features);
  }

  lemma FeaturesMatch(fs: FileSystem, paths: Paths, features: seq<string>)
    ensures forall f :: f in Enabled(fs, paths, features) <==> f in features && FeatureIsOn(fs, paths.ofFeature(f))
  {
    forall f ensures f in Enabled(fs, paths, features) <==> f in features && FeatureIsOn(fs, paths.ofFeature(f)) {
      EnabledExactly(fs, paths, features, f);
    }
  }

  // The paths that are read although nothing need be there.
  predicate IsOptional(paths: Paths, features: seq<string>, path: string) {
    || path in {paths.collectorList, paths.kubernetesObjects, paths.nodeLogs, paths.containerLogs}
    || path in {paths.accountName, paths.sasKey, paths.containerName, paths.sasKeyType}
    || exists i :: 0 <= i < |features| && path == paths.ofFeature(features[i])
  }

  // When a problem is reported: said of the state of its file.
  predicate Occurs(fs: FileSystem, hostName: string, paths: Paths, features: seq<string>, problem: Problem) {
    match problem
    case CannotCheck(path, err) =>
      (path == paths.runId || IsOptional(paths, features, path)) && fs(path) == Unchecked(err)
    case CannotRead(path, err) =>
      (path == paths.runId || IsOptional(paths, features, path)) && fs(path) == Present(Failed(err))
    case MandatoryMissing(path) => path == paths.runId && fs(path) == Missing
    case MandatoryEmpty(path) => path == paths.runId && fs(path) == Present(Content(""))
    case HostNameNotSet => hostName == ""
  }

  // One of the checks finds the problem.
  ghost predicate Found(fs: FileSystem, hostName: string, checks: seq<Check>, problem: Problem) {
    exists c :: c in checks && Outcome(fs, hostName, c) == Some(problem)
  }

  lemma {:induction false} ProblemsAreFound(fs: FileSystem, hostName: string, checks: seq<Check>, problem: Problem)
    ensures problem in Problems(fs, hostName, checks) <==> Found(fs, hostName, checks, problem)
  {
    if checks != [] {
      var rest, c := Front(checks), Last(checks);
      assert checks == rest + [c];
      ProblemsAreFound(fs, hostName, rest, problem);
      if Outcome(fs, hostName, c) == Some(problem) {
        assert c in checks;
      }
    }
  }

  lemma ChecksExactly(paths: Paths, features: seq<string>, c: Check)
    ensures c in Checks(paths, features) <==>
            match c
            case OfHostName => true
            case OfFile(path, mandatory) => if mandatory then path == paths.runId else IsOptional(paths, features, path)
  {
    assert Checks(paths, features) == FixedChecks(paths) + FeatureChecks(paths, features);
    assert c in Checks(paths, features) <==> c in FixedChecks(paths) || c in FeatureChecks(paths, features);
    FixedExactly(paths, c);
    if i :| 0 <= i < |features| && c == OfFile(paths.ofFeature(features[i]), false) {
      assert FeatureChecks(paths, features)[i] == c;
    }
  }

  lemma FixedExactly(paths: Paths, c: Check)
    ensures c in FixedChecks(paths) <==>
            match c
            case OfHostName => true
            case OfFile(path, mandatory) =>
              if mandatory then path == paths.runId
              else
                || path in {paths.collectorList, paths.kubernetesObjects, paths.nodeLogs, paths.containerLogs}
                || path in {paths.accountName, paths.sasKey, paths.containerName, paths.sasKeyType}
  {
  }

  lemma ProblemOccurs(fs: FileSystem, hostName: string, paths: Paths, features: seq<string>, problem: Problem)
    ensures Found(fs, hostName, Checks(paths, features), problem) <==> Occurs(fs, hostName, paths, features, problem)
  {
    var checks := Checks(paths, features);
    if c :| c in checks && Outcome(fs, hostName, c) == Some(problem) {
      ChecksExactly(paths, features, c);
    }
    if Occurs(fs, hostName, paths, features, problem) {
      var c :=
        match problem
        case HostNameNotSet => OfHostName
        case MandatoryMissing(path) => OfFile(path, true)
        case MandatoryEmpty(path) => OfFile(path, true)
        case CannotCheck(path, _) => OfFile(path, path == paths.runId)
        case CannotRead(path, _) => OfFile(path, path == paths.runId);
      ChecksExactly(paths, features, c);
      assert c in checks && Outcome(fs, hostName, c) == Some(problem);
    }
  }

  /** The reported problems are exactly those that the files and the host name give rise to. */
  lemma ProblemsThatOccur(fs: FileSystem, hostName: string, paths: Paths, features: seq<string>)
    ensures forall problem :: problem in Problems(fs, hostName, Checks(paths, features)) <==>
                              Occurs(fs, hostName, paths, features, problem)
  {
    forall problem
      ensures problem in Problems(fs, hostName, Checks(paths, features)) <==>
              Occurs(fs, hostName, paths, features, problem)
    {
      ProblemsAreFound(fs, hostName, Checks(paths, features), problem);
      ProblemOccurs(fs, hostName, paths, features, problem);
    }
  }

  // The problem with one file, if there is one.
  function OfPath(fs: FileSystem, path: string, mandatory: bool): seq<Problem> {
    Listed(ProblemOf(fs, path, mandatory))
  }

  function OfConfig(fs: FileSystem, paths: Paths): seq<Problem> {
    OfPath(fs, paths.runId, true) + OfPath(fs, paths.collectorList, false) +
    OfPath(fs, paths.kubernetesObjects, false) + OfPath(fs, paths.nodeLogs, false) +
    OfPath(fs, paths.containerLogs, false)
  }

  function OfSecret(fs: FileSystem, paths: Paths): seq<Problem> {
    OfPath(fs, paths.accountName, false) + OfPath(fs, paths.sasKey, false) +
    OfPath(fs, paths.containerName, false) + OfPath(fs, paths.sasKeyType, false)
  }

  function OfFeatures(fs: FileSystem, paths: Paths, features: seq<string>): seq<Problem> {
    if features == [] then []
    else OfFeatures(fs, paths, Front(features)) + OfPath(fs, paths.ofFeature(Last(features)), false)
  }

  // The order of the report: the configuration, the secret, the host name, the features.
  function InOrder(fs: FileSystem, hostName: string, paths: Paths, features: seq<string>): seq<Problem> {
    OfConfig(fs, paths) + OfSecret(fs, paths) + (if hostName == "" then [HostNameNotSet] else []) +
    OfFeatures(fs, paths, features)
  }

  // What one check reports.
  function OfCheck(fs: FileSystem, hostName: string, c: Check): seq<Problem> {
    Listed(Outcome(fs, hostName, c))
  }

  lemma ProblemsOfOne(fs: FileSystem, hostName: string, a: Check)
    ensures Problems(fs, hostName, [a]) == OfCheck(fs, hostName, a)
  {
    assert Front([a]) == [] && Last([a]) == a;
    assert Problems(fs, hostName, Front([a])) == [];
  }

  lemma ProblemsOfTwo(fs: FileSystem, hostName: string, a: Check, b: Check)
    ensures Problems(fs, hostName, [a, b]) == OfCheck(fs, hostName, a) + OfCheck(fs, hostName, b)
  {
    ProblemsOfOne(fs, hostName, a);
    ProblemsSnoc(fs, hostName, [a], b);
    assert [a, b] == [a] + [b];
  }

  lemma ProblemsOfFour(fs: FileSystem, hostName: string, a: Check, b: Check, c: Check, d: Check)
    ensures Problems(fs, hostName, [a, b, c, d]) ==
            OfCheck(fs, hostName, a) + OfCheck(fs, hostName, b) + OfCheck(fs, hostName, c) + OfCheck(fs, hostName, d)
  {
    ProblemsOfTwo(fs, hostName, a, b);
    assert [a, b, c] == [a, b] + [c] && [a, b, c, d] == [a, b, c] + [d];
    ProblemsSnoc(fs, hostName, [a, b], c);
    ProblemsSnoc(fs, hostName, [a, b, c], d);
  }

  lemma ConfigInOrder(fs: FileSystem, hostName: string, paths: Paths)
    ensures Problems(fs, hostName, ConfigChecks(paths)) == OfConfig(fs, paths)
  {
    var c := ConfigChecks(paths);
    ProblemsOfFour(fs, hostName, c[0], c[1], c[2], c[3]);
    assert c == [c[0], c[1], c[2], c[3]] + [c[4]];
    ProblemsSnoc(fs, hostName, [c[0], c[1], c[2], c[3]], c[4]);
  }

  lemma SecretInOrder(fs: FileSystem, hostName: string, paths: Paths)
    ensures Problems(fs, hostName, SecretChecks(paths)) == OfSecret(fs, paths)
  {
    var c := SecretChecks(paths);
    ProblemsOfFour(fs, hostName, c[0], c[1], c[2], c[3]);
    assert c == [c[0], c[1], c[2], c[3]];
  }

  lemma {:induction false} FeaturesInOrder(fs: FileSystem, hostName: string, paths: Paths, features: seq<string>)
    ensures Problems(fs, hostName, FeatureChecks(paths, features)) == OfFeatures(fs, paths, features)
  {
    if features != [] {
      var rest, last := Front(features), OfFile(paths.ofFeature(Last(features)), false);
      FeaturesInOrder(fs, hostName, paths, rest);
      ProblemsSnoc(fs, hostName, FeatureChecks(paths, rest), last);
      assert FeatureChecks(paths, features) == FeatureChecks(paths, rest) + [last];
    }
  }

  lemma {:induction false} ProblemsConcat(fs: FileSystem, hostName: string, a: seq<Check>, b: seq<Check>)
    ensures Problems(fs, hostName, a + b) == Problems(fs, hostName, a) + Problems(fs, hostName, b)
  {
    if b == [] {
      assert a + b == a;
    } else {
      ProblemsConcat(fs, hostName, a, Front(b));
      assert Front(a + b) == a + Front(b) && Last(a + b) == Last(b);
      ProblemsRegroup(Problems(fs, hostName, a), Problems(fs, hostName, Front(b)), OfCheck(fs, hostName, Last(b)));
    }
  }

  lemma ProblemsRegroup(a: seq<Problem>, b: seq<Problem>, c: seq<Problem>)
    ensures a + b + c == a + (b + c)
  {
  }

  /** The problems are reported in a fixed order, each file's at most once. */
  lemma ProblemsInOrder(fs: FileSystem, hostName: string, paths: Paths, features: seq<string>)
    ensures Problems(fs, hostName, Checks(paths, features)) == InOrder(fs, hostName, paths, features)
  {
    var files := ConfigChecks(paths) + SecretChecks(paths);
    ConfigInOrder(fs, hostName, paths);
    SecretInOrder(fs, hostName, paths);
    ProblemsConcat(fs, hostName, ConfigChecks(paths), SecretChecks(paths));
    ProblemsSnoc(fs, hostName, files, OfHostName);
    FeaturesInOrder(fs, hostName, paths, features);
    ProblemsConcat(fs, hostName, files + [OfHostName], FeatureChecks(paths, features));
  }
}
