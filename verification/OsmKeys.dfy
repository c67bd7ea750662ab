/**
 The keys under which the OSM collector stores its data. Five families of keys share one map; the
 decoder below shows that nothing in the printed form is ambiguous.
 */
module OsmKeys {
  import opened Common
  import opened Strings

  // What follows a namespace or pod name: the twelve kinds stored per namespace, then the two per pod.
  const TAILS := [
    "_metadata", "_services_list", "_services", "_endpoints_list", "_endpoints", "_configmaps_list", "_configmaps",
    "_ingresses_list", "_ingresses", "_service_accounts_list", "_service_accounts", "_pods_list",
    "_podConfig", "_podLogs"]

  const ENVOY_QUERIES := ["config_dump", "clusters", "listeners", "ready", "stats"]

  // Indices into the tables.
  type NamespaceKind = i: nat | i < 12
  type Query = i: nat | i < 5

  const POD_CONFIG := 12
  const POD_LOGS := 13

  datatype Key =
    | Namespace(mesh: string, namespace: string, kind: NamespaceKind)
    | PodConfig(mesh: string, pod: string)
    | PodLogs(mesh: string, pod: string)
    | Envoy(mesh: string, pod: string, query: Query)
    | ControlPlane(mesh: string, name: string)

  function Print(k: Key): string {
    match k
    case Namespace(mesh, namespace, kind) => mesh + "/" + (namespace + TAILS[kind])
    case PodConfig(mesh, pod) => mesh + "/" + (pod + TAILS[POD_CONFIG])
    case PodLogs(mesh, pod) => mesh + "/" + (pod + TAILS[POD_LOGS])
    case Envoy(mesh, pod, query) => mesh + "/" + ("envoy" + "/" + (pod + ENVOY_QUERIES[query]))
    case ControlPlane(mesh, name) => mesh + "/" + ("control_plane" + "/" + name)
  }

  predicate HasSuffix(s: string, t: string) {
    |t| <= |s| && s[|s| - |t|..] == t
  }

  ghost predicate SuffixFree(list: seq<string>) {
    forall i, j :: 0 <= i < |list| && 0 <= j < |list| && HasSuffix(list[i], list[j]) ==> i == j
  }

  function FromEnd(s: string, k: nat): char
    requires k < |s|
  {
    s[|s| - 1 - k]
  }

  lemma SuffixAgrees(s: string, t: string, k: nat)
    requires HasSuffix(s, t) && k < |t|
    ensures FromEnd(s, k) == FromEnd(t, k)
  {
    assert s[|s| - |t|..][|t| - 1 - k] == t[|t| - 1 - k];
  }

  // Which query a string of at least five characters can end in; a few characters tell.
  function QueryNumber(s: string): nat
    requires |s| >= 5
  {
    if FromEnd(s, 1) == 'm' then 0
    else if FromEnd(s, 1) == 'd' then 3
    else if FromEnd(s, 1) == 't' then 4
    else if FromEnd(s, 3) == 't' then 1
    else 2
  }

  lemma QueriesSuffixFree()
    ensures SuffixFree(ENVOY_QUERIES)
  {
    forall i, j | 0 <= i < 5 && 0 <= j < 5 && HasSuffix(ENVOY_QUERIES[i], ENVOY_QUERIES[j]) ensures i == j {
      QueryNumbers(i);
      QueryNumbers(j);
      SuffixAgrees(ENVOY_QUERIES[i], ENVOY_QUERIES[j], 1);
      SuffixAgrees(ENVOY_QUERIES[i], ENVOY_QUERIES[j], 3);
    }
  }

  lemma QueryNumbers(i: nat)
    requires i < 5
    ensures |ENVOY_QUERIES[i]| >= 5 && QueryNumber(ENVOY_QUERIES[i]) == i
  {
  }

  // A list's tail has the 'i' of "_list" third from its end.
  predicate IsList(s: string)
    requires |s| >= 8
  {
    FromEnd(s, 2) == 'i'
  }

  // Which tail a string can end in; again a few characters tell.
  function TailNumber(s: string): nat
    requires |s| >= 8 && (IsList(s) ==> |s| >= 9)
  {
    if IsList(s) then ListNumber(s)
    else
      match FromEnd(s, 2)
      case 'a' => if FromEnd(s, 0) == 'a' then 0 else 6
      case 'c' => 2
      case 'n' => if FromEnd(s, 3) == 'i' then 4 else 10
      case 's' => 8
      case 'f' => 12
      case _ => 13
  }

  function ListNumber(s: string): nat
    requires |s| >= 9
  {
    match FromEnd(s, 7)
    case 'c' => 1
    case 'a' => 5
    case 's' => 7
    case 'o' => 11
    case _ => if FromEnd(s, 8) == 'i' then 3 else 9
  }

  lemma TailNumbers(i: nat)
    requires i < 14
    ensures |TAILS[i]| >= 8 && (IsList(TAILS[i]) ==> |TAILS[i]| >= 9) && TailNumber(TAILS[i]) == i
  {
  }

  lemma TailNumberOfSuffix(s: string, t: string)
    requires |t| >= 8 && (IsList(t) ==> |t| >= 9) && HasSuffix(s, t)
    ensures (IsList(s) ==> |s| >= 9) && TailNumber(s) == TailNumber(t)
  {
    SuffixAgrees(s, t, 0);
    SuffixAgrees(s, t, 2);
    SuffixAgrees(s, t, 3);
    SuffixAgrees(s, t, 7);
    if IsList(t) {
      SuffixAgrees(s, t, 8);
    }
  }

  lemma TailsSuffixFree()
    ensures SuffixFree(TAILS)
  {
    forall i, j | 0 <= i < 14 && 0 <= j < 14 && HasSuffix(TAILS[i], TAILS[j]) ensures i == j {
      TailNumbers(i);
      TailNumbers(j);
      TailNumberOfSuffix(TAILS[i], TAILS[j]);
    }
  }

  /******* The decoder *******/

  // The first list entry from i on that s ends in.
  function FindSuffix(list: seq<string>, s: string, i: nat): (found: Option<nat>)
    ensures found.Some? ==> found.value < |list| && HasSuffix(s, list[found.value])
    decreases |list| - i
  {
    if i >= |list| then None
    else if HasSuffix(s, list[i]) then Some(i)
    else FindSuffix(list, s, i + 1)
  }

  function Stem(s: string, t: string): string
    requires |t| <= |s|
  {
    s[..|s| - |t|]
  }

  function DecodeTailed(mesh: string, rest: string): Option<Key> {
    match FindSuffix(TAILS, rest, 0)
    case None => None
    case Some(i) =>
      var name := Stem(rest, TAILS[i]);
      Some(if i == POD_CONFIG then PodConfig(mesh, name)
           else if i == POD_LOGS then PodLogs(mesh, name)
           else Namespace(mesh, name, i))
  }

  function DecodeEnvoy(mesh: string, body: string): Option<Key> {
    match FindSuffix(ENVOY_QUERIES, body, 0)
    case None => None
    case Some(i) => Some(Envoy(mesh, Stem(body, ENVOY_QUERIES[i]), i))
  }

  function Decode(s: string): Option<Key> {
    match Cut(s, '/')
    case None => None
    case Some((mesh, rest)) =>
      match Cut(rest, '/')
      case None => DecodeTailed(mesh, rest)
      case Some((head, body)) =>
        if head == "control_plane" then Some(ControlPlane(mesh, body))
        else if head == "envoy" then DecodeEnvoy(mesh, body)
        else None
  }

  // Mesh, namespace and pod names contain no '/'; Kubernetes allows it in none of them.
  predicate WellFormed(k: Key) {
    && '/' !in k.mesh
    && match k
       case Namespace(_, namespace, _) => '/' !in namespace
       case PodConfig(_, pod) => '/' !in pod
       case PodLogs(_, pod) => '/' !in pod
       case Envoy(_, _, _) => true
       case ControlPlane(_, _) => true
  }

  /******* Printing loses nothing *******/

  lemma SuffixesNest(s: string, a: string, b: string)
    requires HasSuffix(s, a) && HasSuffix(s, b) && |a| <= |b|
    ensures HasSuffix(b, a)
  {
    assert s[|s| - |b|..][|b| - |a|..] == s[|s| - |a|..];
  }

  lemma {:induction false} FindTheSuffix(list: seq<string>, stem: string, i: nat, from: nat)
    requires SuffixFree(list) && from <= i < |list|
    ensures FindSuffix(list, stem + list[i], from) == Some(i)
    decreases i - from
  {
    var s := stem + list[i];
    assert HasSuffix(s, list[i]);
    if HasSuffix(s, list[from]) {
      if |list[from]| <= |list[i]| {
        SuffixesNest(s, list[from], list[i]);
      } else {
        SuffixesNest(s, list[i], list[from]);
      }
    } else {
      FindTheSuffix(list, stem, i, from + 1);
    }
  }

  lemma TailsHaveNoSlash(i: nat)
    requires i < |TAILS|
    ensures '/' !in TAILS[i]
  {
  }

  lemma DecodeTail(mesh: string, name: string, i: nat)
    requires '/' !in mesh && '/' !in name && i < |TAILS|
    ensures Decode(mesh + "/" + (name + TAILS[i])) == DecodeTailed(mesh, name + TAILS[i])
    ensures FindSuffix(TAILS, name + TAILS[i], 0) == Some(i)
    ensures Stem(name + TAILS[i], TAILS[i]) == name
  {
    TailsHaveNoSlash(i);
    CutFirst(mesh, '/', name + TAILS[i]);
    CutNone(name + TAILS[i], '/');
    TailsSuffixFree();
    FindTheSuffix(TAILS, name, i, 0);
  }

  lemma DecodeBody(mesh: string, head: string, body: string)
    requires '/' !in mesh && '/' !in head
    ensures Cut(mesh + "/" + (head + "/" + body), '/') == Some((mesh, head + "/" + body))
    ensures Cut(head + "/" + body, '/') == Some((head, body))
  {
    CutFirst(mesh, '/', head + "/" + body);
    CutFirst(head, '/', body);
  }

  lemma DecodeQuery(mesh: string, pod: string, query: Query)
    ensures DecodeEnvoy(mesh, pod + ENVOY_QUERIES[query]) == Some(Envoy(mesh, pod, query))
  {
    QueriesSuffixFree();
    FindTheSuffix(ENVOY_QUERIES, pod, query, 0);
    assert Stem(pod + ENVOY_QUERIES[query], ENVOY_QUERIES[query]) == pod;
  }

  /** Every key is recovered from its printed form, the separator-less pod name and query included. */
  lemma DecodePrint(k: Key)
    requires WellFormed(k)
    ensures Decode(Print(k)) == Some(k)
  {
    match k
    case Namespace(mesh, namespace, kind) => DecodeTail(mesh, namespace, kind);
    case PodConfig(mesh, pod) => DecodeTail(mesh, pod, POD_CONFIG);
    case PodLogs(mesh, pod) => DecodeTail(mesh, pod, POD_LOGS);
    case Envoy(mesh, pod, query) =>
      DecodeBody(mesh, "envoy", pod + ENVOY_QUERIES[query]);
      DecodeQuery(mesh, pod, query);
    case ControlPlane(mesh, name) => DecodeBody(mesh, "control_plane", name);
  }

  /** No two keys print alike. */
  lemma PrintInjective(k: Key, l: Key)
    requires WellFormed(k) && WellFormed(l) && Print(k) == Print(l)
    ensures k == l
  {
    DecodePrint(k);
    DecodePrint(l);
  }

  /******* The collecting loops *******/

  // One namespace's entries, the first n of them, stored over some data.
  function WithNamespace(data: map<string, string>, mesh: string, namespace: string, outputs: seq<string>, n: nat)
    : map<string, string>
    requires n <= 12 <= |outputs|
  {
    if n == 0 then data
    else
      var rest := WithNamespace(data, mesh, namespace, outputs, n - 1);
      rest[Print(Namespace(mesh, namespace, n - 1)) := outputs[n - 1]]
  }

  // One pod's Envoy entries likewise; a query that failed stores nothing.
  function WithEnvoy(data: map<string, string>, mesh: string, pod: string, responses: seq<Read>, n: nat)
    : map<string, string>
    requires n <= 5 <= |responses|
  {
    if n == 0 then data
    else
      var rest := WithEnvoy(data, mesh, pod, responses, n - 1);
      match responses[n - 1]
      case Content(text) => rest[Print(Envoy(mesh, pod, n - 1)) := text]
      case Failed(_) => rest
  }

  function Lookup(data: map<string, string>, k: Key): Option<string> {
    if Print(k) in data then Some(data[Print(k)]) else None
  }

  /** Storing a namespace's entries sets each of them, and no other key of any family. */
  lemma {:induction false} NamespaceEntries(data: map<string, string>, mesh: string, namespace: string,
                                            outputs: seq<string>, n: nat, k: Key)
    requires n <= 12 <= |outputs| && '/' !in mesh && '/' !in namespace && WellFormed(k)
    ensures Lookup(WithNamespace(data, mesh, namespace, outputs, n), k) ==
            if k.Namespace? && k.mesh == mesh && k.namespace == namespace && k.kind < n then Some(outputs[k.kind])
            else Lookup(data, k)
  {
    if n > 0 {
      NamespaceEntries(data, mesh, namespace, outputs, n - 1, k);
      if Print(k) == Print(Namespace(mesh, namespace, n - 1)) {
        PrintInjective(k, Namespace(mesh, namespace, n - 1));
      }
    }
  }

  /** Storing a pod's Envoy responses sets those that came, and no other key of any family. */
  lemma {:induction false} EnvoyEntries(data: map<string, string>, mesh: string, pod: string,
                                        responses: seq<Read>, n: nat, k: Key)
    requires n <= 5 <= |responses| && '/' !in mesh && WellFormed(k)
    ensures Lookup(WithEnvoy(data, mesh, pod, responses, n), k) ==
            if k.Envoy? && k.mesh == mesh && k.pod == pod && k.query < n && responses[k.query].Content?
            then Some(responses[k.query].text)
            else Lookup(data, k)
  {
    if n > 0 {
      EnvoyEntries(data, mesh, pod, responses, n - 1, k);
      if Print(k) == Print(Envoy(mesh, pod, n - 1)) {
        PrintInjective(k, Envoy(mesh, pod, n - 1));
      }
    }
  }

  // What each of a namespace's queries asks for, as its failure is reported.
  const RESOURCES := [
    "metadata", "services", "services", "endpoints", "endpoints", "configmaps", "configmaps",
    "ingresses", "ingresses", "serviceaccounts", "serviceaccounts", "pods"]

  // A query's output, or the text reporting its failure: either is stored.
  function Reported(namespace: string, kind: NamespaceKind, r: Read): string {
    match r
    case Content(text) => text
    case Failed(err) => "Failed to collect " + RESOURCES[kind] + " for namespace " + namespace + ": " + err + "\n"
  }

  function AllReported(namespace: string, results: seq<Read>): seq<string>
    requires |results| == 12
  {
    seq(12, i requires 0 <= i < 12 => Reported(namespace, i, results[i]))
  }

  /******* The keys and entries, letter by letter *******/

  lemma Regroup(a: string, b: string, c: string)
    ensures a + "/" + (b + c) == a + "/" + b + c
  {
  }

  /** The keys of a namespace's entries, as they are spelled. */
  lemma NamespaceKeys(mesh: string, namespace: string)
    ensures Print(Namespace(mesh, namespace, 0)) == mesh + "/" + namespace + "_metadata"
    ensures Print(Namespace(mesh, namespace, 1)) == mesh + "/" + namespace + "_services_list"
    ensures Print(Namespace(mesh, namespace, 2)) == mesh + "/" + namespace + "_services"
    ensures Print(Namespace(mesh, namespace, 3)) == mesh + "/" + namespace + "_endpoints_list"
    ensures Print(Namespace(mesh, namespace, 4)) == mesh + "/" + namespace + "_endpoints"
    ensures Print(Namespace(mesh, namespace, 5)) == mesh + "/" + namespace + "_configmaps_list"
    ensures Print(Namespace(mesh, namespace, 6)) == mesh + "/" + namespace + "_configmaps"
    ensures Print(Namespace(mesh, namespace, 7)) == mesh + "/" + namespace + "_ingresses_list"
    ensures Print(Namespace(mesh, namespace, 8)) == mesh + "/" + namespace + "_ingresses"
    ensures Print(Namespace(mesh, namespace, 9)) == mesh + "/" + namespace + "_service_accounts_list"
    ensures Print(Namespace(mesh, namespace, 10)) == mesh + "/" + namespace + "_service_accounts"
    ensures Print(Namespace(mesh, namespace, 11)) == mesh + "/" + namespace + "_pods_list"
  {
    Regroup(mesh, namespace, "_metadata");
    Regroup(mesh, namespace, "_services_list");
    Regroup(mesh, namespace, "_services");
    Regroup(mesh, namespace, "_endpoints_list");
    Regroup(mesh, namespace, "_endpoints");
    Regroup(mesh, namespace, "_configmaps_list");
    Regroup(mesh, namespace, "_configmaps");
    Regroup(mesh, namespace, "_ingresses_list");
    Regroup(mesh, namespace, "_ingresses");
    Regroup(mesh, namespace, "_service_accounts_list");
    Regroup(mesh, namespace, "_service_accounts");
    Regroup(mesh, namespace, "_pods_list");
  }

  lemma RegroupEnvoy(mesh: string, pod: string, query: string)
    ensures mesh + "/" + ("envoy" + "/" + (pod + query)) == mesh + "/envoy/" + pod + query
  {
    assert "envoy" + "/" == "envoy/" && "/" + "envoy/" == "/envoy/";
    assert "envoy" + "/" + (pod + query) == "envoy/" + pod + query;
    assert mesh + "/" + ("envoy/" + pod + query) == mesh + ("/" + "envoy/") + pod + query;
  }

  /** And those of the others. */
  lemma PodKeys(mesh: string, pod: string, name: string)
    ensures Print(PodConfig(mesh, pod)) == mesh + "/" + pod + "_podConfig"
    ensures Print(PodLogs(mesh, pod)) == mesh + "/" + pod + "_podLogs"
    ensures Print(ControlPlane(mesh, name)) == mesh + "/control_plane/" + name
  {
    Regroup(mesh, pod, "_podConfig");
    Regroup(mesh, pod, "_podLogs");
    assert "control_plane" + "/" == "control_plane/" && "/" + "control_plane/" == "/control_plane/";
    assert mesh + "/" + ("control_plane/" + name) == mesh + ("/" + "control_plane/") + name;
  }

  lemma EnvoyKeys(mesh: string, pod: string)
    ensures Print(Envoy(mesh, pod, 0)) == mesh + "/envoy/" + pod + "config_dump"
    ensures Print(Envoy(mesh, pod, 1)) == mesh + "/envoy/" + pod + "clusters"
    ensures Print(Envoy(mesh, pod, 2)) == mesh + "/envoy/" + pod + "listeners"
    ensures Print(Envoy(mesh, pod, 3)) == mesh + "/envoy/" + pod + "ready"
    ensures Print(Envoy(mesh, pod, 4)) == mesh + "/envoy/" + pod + "stats"
  {
    RegroupEnvoy(mesh, pod, "config_dump");
    RegroupEnvoy(mesh, pod, "clusters");
    RegroupEnvoy(mesh, pod, "listeners");
    RegroupEnvoy(mesh, pod, "ready");
    RegroupEnvoy(mesh, pod, "stats");
  }

  // The entry for a query is its output, or the message that it failed.
  predicate Says(data: map<string, string>, key: string, resource: string, namespace: string, r: Read) {
    key in data &&
    match r
    case Content(text) => data[key] == text
    case Failed(err) =>
      data[key] == "Failed to collect " + resource + " for namespace " + namespace + ": " + err + "\n"
  }

  // Twelve entries, each under its own key and about its own resource.
  predicate NamespaceStored(data: map<string, string>, mesh: string, namespace: string, results: seq<Read>)
    requires |results| == 12
  {
    && Says(data, mesh + "/" + namespace + "_metadata", "metadata", namespace, results[0])
    && Says(data, mesh + "/" + namespace + "_services_list", "services", namespace, results[1])
    && Says(data, mesh + "/" + namespace + "_services", "services", namespace, results[2])
    && Says(data, mesh + "/" + namespace + "_endpoints_list", "endpoints", namespace, results[3])
    && Says(data, mesh + "/" + namespace + "_endpoints", "endpoints", namespace, results[4])
    && Says(data, mesh + "/" + namespace + "_configmaps_list", "configmaps", namespace, results[5])
    && Says(data, mesh + "/" + namespace + "_configmaps", "configmaps", namespace, results[6])
    && Says(data, mesh + "/" + namespace + "_ingresses_list", "ingresses", namespace, results[7])
    && Says(data, mesh + "/" + namespace + "_ingresses", "ingresses", namespace, results[8])
    && Says(data, mesh + "/" + namespace + "_service_accounts_list", "serviceaccounts", namespace, results[9])
    && Says(data, mesh + "/" + namespace + "_service_accounts", "serviceaccounts", namespace, results[10])
    && Says(data, mesh + "/" + namespace + "_pods_list", "pods", namespace, results[11])
  }

  // The entry for an Envoy query is its response; a failed one leaves it as it was.
  predicate Answered(before: map<string, string>, data: map<string, string>, key: string, r: Read) {
    match r
    case Content(text) => key in data && data[key] == text
    case Failed(_) => SameAt(before, data, key)
  }

  predicate EnvoyStored(before: map<string, string>, data: map<string, string>, mesh: string, pod: string,
                        responses: seq<Read>)
    requires |responses| == 5
  {
    && Answered(before, data, mesh + "/envoy/" + pod + "config_dump", responses[0])
    && Answered(before, data, mesh + "/envoy/" + pod + "clusters", responses[1])
    && Answered(before, data, mesh + "/envoy/" + pod + "listeners", responses[2])
    && Answered(before, data, mesh + "/envoy/" + pod + "ready", responses[3])
    && Answered(before, data, mesh + "/envoy/" + pod + "stats", responses[4])
  }

  predicate SameAt(before: map<string, string>, data: map<string, string>, key: string) {
    (key in before <==> key in data) && (key in before ==> data[key] == before[key])
  }

  // Namespace keys of one namespace are told apart by their tails.
  lemma NamespaceKindsApart(mesh: string, namespace: string, i: NamespaceKind, j: NamespaceKind)
    requires Print(Namespace(mesh, namespace, i)) == Print(Namespace(mesh, namespace, j))
    ensures i == j
  {
    TailsSuffixFree();
    var s, start := Print(Namespace(mesh, namespace, i)), mesh + "/" + namespace;
    Regroup(mesh, namespace, TAILS[i]);
    Regroup(mesh, namespace, TAILS[j]);
    assert s[|start|..] == TAILS[i] && s[|start|..] == TAILS[j];
    assert HasSuffix(TAILS[i], TAILS[j]);
  }

  lemma QueriesApart(mesh: string, pod: string, i: Query, j: Query)
    requires Print(Envoy(mesh, pod, i)) == Print(Envoy(mesh, pod, j))
    ensures i == j
  {
    QueriesSuffixFree();
    var s, start := Print(Envoy(mesh, pod, i)), mesh + "/envoy/" + pod;
    RegroupEnvoy(mesh, pod, ENVOY_QUERIES[i]);
    RegroupEnvoy(mesh, pod, ENVOY_QUERIES[j]);
    assert s[|start|..] == ENVOY_QUERIES[i] && s[|start|..] == ENVOY_QUERIES[j];
    assert HasSuffix(ENVOY_QUERIES[i], ENVOY_QUERIES[j]);
  }

  lemma {:induction false} WithNamespaceAt(data: map<string, string>, mesh: string, namespace: string,
                                           outputs: seq<string>, n: nat, i: NamespaceKind)
    requires n <= 12 <= |outputs| && i < n
    ensures Lookup(WithNamespace(data, mesh, namespace, outputs, n), Namespace(mesh, namespace, i)) == Some(outputs[i])
  {
    if i < n - 1 {
      WithNamespaceAt(data, mesh, namespace, outputs, n - 1, i);
      if Print(Namespace(mesh, namespace, i)) == Print(Namespace(mesh, namespace, n - 1)) {
        NamespaceKindsApart(mesh, namespace, i, n - 1);
      }
    }
  }

  lemma {:induction false} WithNamespaceElsewhere(data: map<string, string>, mesh: string, namespace: string,
                                                  outputs: seq<string>, n: nat, key: string)
    requires n <= 12 <= |outputs|
    requires forall i: NamespaceKind :: i < n ==> Print(Namespace(mesh, namespace, i)) != key
    ensures SameAt(data, WithNamespace(data, mesh, namespace, outputs, n), key)
  {
    if n > 0 {
      WithNamespaceElsewhere(data, mesh, namespace, outputs, n - 1, key);
    }
  }

  lemma {:induction false} WithEnvoyAt(data: map<string, string>, mesh: string, pod: string,
                                       responses: seq<Read>, n: nat, i: Query)
    requires n <= 5 <= |responses|
    ensures i < n ==> Answered(data, WithEnvoy(data, mesh, pod, responses, n), Print(Envoy(mesh, pod, i)), responses[i])
    ensures i >= n ==> SameAt(data, WithEnvoy(data, mesh, pod, responses, n), Print(Envoy(mesh, pod, i)))
  {
    if n > 0 {
      WithEnvoyAt(data, mesh, pod, responses, n - 1, i);
      if Print(Envoy(mesh, pod, i)) == Print(Envoy(mesh, pod, n - 1)) {
        QueriesApart(mesh, pod, i, n - 1);
      }
    }
  }

  lemma {:induction false} WithEnvoyElsewhere(data: map<string, string>, mesh: string, pod: string,
                                              responses: seq<Read>, n: nat, key: string)
    requires n <= 5 <= |responses|
    requires forall i: Query :: i < n ==> Print(Envoy(mesh, pod, i)) != key
    ensures SameAt(data, WithEnvoy(data, mesh, pod, responses, n), key)
  {
    if n > 0 {
      WithEnvoyElsewhere(data, mesh, pod, responses, n - 1, key);
    }
  }

  lemma ReportedSays(data: map<string, string>, mesh: string, namespace: string, results: seq<Read>, i: NamespaceKind)
    requires |results| == 12
    ensures Says(WithNamespace(data, mesh, namespace, AllReported(namespace, results), 12),
                 Print(Namespace(mesh, namespace, i)), RESOURCES[i], namespace, results[i])
  {
    WithNamespaceAt(data, mesh, namespace, AllReported(namespace, results), 12, i);
  }

  /** What collecting a namespace leaves in the data, whatever was there before and whatever the names. */
  lemma NamespaceIsStored(data: map<string, string>, mesh: string, namespace: string, results: seq<Read>)
    requires |results| == 12
    ensures NamespaceStored(WithNamespace(data, mesh, namespace, AllReported(namespace, results), 12),
                            mesh, namespace, results)
  {
    NamespaceKeys(mesh, namespace);
    forall i: NamespaceKind
      ensures Says(WithNamespace(data, mesh, namespace, AllReported(namespace, results), 12),
                   Print(Namespace(mesh, namespace, i)), RESOURCES[i], namespace, results[i])
    {
      ReportedSays(data, mesh, namespace, results, i);
    }
  }

  lemma EnvoyIsStored(data: map<string, string>, mesh: string, pod: string, responses: seq<Read>)
    requires |responses| == 5
    ensures EnvoyStored(data, WithEnvoy(data, mesh, pod, responses, 5), mesh, pod, responses)
  {
    EnvoyKeys(mesh, pod);
    forall i: Query
      ensures Answered(data, WithEnvoy(data, mesh, pod, responses, 5), Print(Envoy(mesh, pod, i)), responses[i])
    {
      WithEnvoyAt(data, mesh, pod, responses, 5, i);
    }
  }

  class OsmCollector {
    var data: map<string, string>

    constructor ()
      ensures data == map[]
    {
      data := map[];
    }

    method CollectNamespaceResources(namespace: string, meshName: string, results: seq<Read>)
      requires |results| == 12
      modifies this
      ensures data == WithNamespace(old(data), meshName, namespace, AllReported(namespace, results), 12)
      ensures NamespaceStored(data, meshName, namespace, results)
      ensures forall key :: (forall i: NamespaceKind :: Print(Namespace(meshName, namespace, i)) != key) ==>
                SameAt(old(data), data, key)
    {
      for i := 0 to 12
        invariant data == WithNamespace(old(data), meshName, namespace, AllReported(namespace, results), i)
      {
        var value;
        match results[i] {
          case Content(text) => value := text;
          case Failed(err) =>
            value := "Failed to collect " + RESOURCES[i] + " for namespace " + namespace + ": " + err + "\n";
        }
        data := data[Print(Namespace(meshName, namespace, i)) := value];
      }
      NamespaceIsStored(old(data), meshName, namespace, results);
      forall key | forall i: NamespaceKind :: Print(Namespace(meshName, namespace, i)) != key
        ensures SameAt(old(data), data, key)
      {
        WithNamespaceElsewhere(old(data), meshName, namespace, AllReported(namespace, results), 12, key);
      }
    }

    method RunEnvoyQueries(meshName: string, podName: string, responses: seq<Read>)
      requires |responses| == |ENVOY_QUERIES|
      modifies this
      ensures data == WithEnvoy(old(data), meshName, podName, responses, 5)
      ensures EnvoyStored(old(data), data, meshName, podName, responses)
      ensures forall key :: (forall i: Query :: Print(Envoy(meshName, podName, i)) != key) ==>
                SameAt(old(data), data, key)
    {
      for i := 0 to |ENVOY_QUERIES|
        invariant data == WithEnvoy(old(data), meshName, podName, responses, i)
      {
        if responses[i].Failed? {
          continue;
        }
        data := data[Print(Envoy(meshName, podName, i)) := responses[i].text];
      }
      EnvoyIsStored(old(data), meshName, podName, responses);
      forall key | forall i: Query :: Print(Envoy(meshName, podName, i)) != key
        ensures SameAt(old(data), data, key)
      {
        WithEnvoyElsewhere(old(data), meshName, podName, responses, 5, key);
      }
    }
  }
}
