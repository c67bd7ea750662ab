/**
 The node logs collector: each file of the configured list is stored under its path with slashes
 turned into underscores.
 */
module NodeLogs {
  import opened Common
  import opened Strings
  import RuntimeInfo

  type Path = Word

  /******* Keys *******/

  function Underscored(path: string): (r: string)
    ensures |r| == |path|
    ensures forall i :: 0 <= i < |path| ==> r[i] == if path[i] == '/' then '_' else path[i]
  {
    if path == "" then "" else [if path[0] == '/' then '_' else path[0]] + Underscored(path[1..])
  }

  function Normalized(path: Path): string
  {
    var n := Underscored(path);
    if n[0] == '_' then n[1..] else n
  }

  // The part of a path its key depends on: what follows a leading slash or underscore.
  function Significant(path: Path): string
  {
    if path[0] == '/' || path[0] == '_' then path[1..] else path
  }

  /** Two paths share a key exactly if their significant parts differ only in slashes against underscores. */
  lemma SameKeyExactly(p: Path, q: Path)
    ensures Normalized(p) == Normalized(q) <==>
            var a, b := Significant(p), Significant(q);
            |a| == |b| && forall i :: 0 <= i < |a| ==>
              a[i] == b[i] || (a[i] in "/_" && b[i] in "/_")
  {
    SignificantKey(p);
    SignificantKey(q);
  }

  lemma SignificantKey(p: Path)
    ensures Normalized(p) == Underscored(Significant(p))
  {
    assert Underscored(p)[0] == if p[0] == '/' then '_' else p[0];
    assert forall i :: 0 <= i < |p| - 1 ==> p[1..][i] == p[i + 1];
  }

  // An absolute path without underscores, as the default lists name.
  predicate Simple(path: Path) {
    path[0] == '/' && '_' !in path
  }

  function Restored(key: string): string {
    "/" + seq(|key|, i requires 0 <= i < |key| => if key[i] == '_' then '/' else key[i])
  }

  /** For such paths the normalisation can be undone. */
  lemma RestoredNormalized(path: Path)
    requires Simple(path)
    ensures Restored(Normalized(path)) == path
  {
    assert forall i :: 0 <= i < |path| ==> path[i] != '_';
    assert Normalized(path) == Underscored(path)[1..];
  }

  /******* The collector *******/

  // A stored file value: which file it reads, and its size.
  datatype FileValue = FileValue(path: string, size: nat)

  predicate AllSized(paths: seq<Path>, sizes: map<string, nat>, n: nat)
    requires n <= |paths|
  {
    forall i :: 0 <= i < n ==> paths[i] in sizes
  }

  // The data after the first n listed paths have been stored.
  function Stored(data: map<string, FileValue>, paths: seq<Path>, sizes: map<string, nat>, n: nat)
    : map<string, FileValue>
    requires n <= |paths| && AllSized(paths, sizes, n)
  {
    if n == 0 then data
    else Stored(data, paths, sizes, n - 1)[Normalized(paths[n - 1]) := FileValue(paths[n - 1], sizes[paths[n - 1]])]
  }

  class NodeLogsCollector {
    const nodeLogs: seq<Path>
    var data: map<string, FileValue>

    constructor (nodeLogs: seq<Path>)
      ensures this.nodeLogs == nodeLogs && data == map[]
    {
      this.nodeLogs := nodeLogs;
      data := map[];
    }

    /**
     sizes holds the files whose size can be read. The result is None on success, or else the index
     of the first path with an error; the paths before it have been stored.
     */
    method Collect(sizes: map<string, nat>) returns (failed: Option<nat>)
      modifies this
      ensures failed.None? ==> AllSized(nodeLogs, sizes, |nodeLogs|)
      ensures failed.None? ==> data == Stored(old(data), nodeLogs, sizes, |nodeLogs|)
      ensures failed.Some? ==>
                var n := failed.value;
                && n < |nodeLogs| && nodeLogs[n] !in sizes && AllSized(nodeLogs, sizes, n)
                && data == Stored(old(data), nodeLogs, sizes, n)
    {
      for n := 0 to |nodeLogs|
        invariant AllSized(nodeLogs, sizes, n)
        invariant data == Stored(old(data), nodeLogs, sizes, n)
      {
        var nodeLog := nodeLogs[n];
        var normalizedNodeLog := Underscored(nodeLog);
        if normalizedNodeLog[0] == '_' {
          normalizedNodeLog := normalizedNodeLog[1..];
        }
        if nodeLog !in sizes {
          return Some(n);
        }
        data := data[normalizedNodeLog := FileValue(nodeLog, sizes[nodeLog])];
      }
      return None;
    }
  }

  // Whether the i-th listed log can be found under its key.
  ghost predicate Kept(d: map<string, FileValue>, paths: seq<Path>, sizes: map<string, nat>, i: nat)
    requires i < |paths| && AllSized(paths, sizes, |paths|)
  {
    Normalized(paths[i]) in d && d[Normalized(paths[i])] == FileValue(paths[i], sizes[paths[i]])
  }

  /** A key holds the last listed path that normalises to it. */
  lemma {:induction false} LastPathWins(data: map<string, FileValue>, paths: seq<Path>, sizes: map<string, nat>,
                                        n: nat, i: nat)
    requires i < n <= |paths| && AllSized(paths, sizes, |paths|)
    requires forall j :: i < j < n && Normalized(paths[j]) == Normalized(paths[i]) ==> paths[j] == paths[i]
    ensures Kept(Stored(data, paths, sizes, n), paths, sizes, i)
  {
    if i < n - 1 {
      LastPathWins(data, paths, sizes, n - 1, i);
    }
  }

  // No two different listed paths share a key.
  ghost predicate KeysTellPathsApart(paths: seq<Path>) {
    forall i, j :: 0 <= i < |paths| && 0 <= j < |paths| && Normalized(paths[i]) == Normalized(paths[j]) ==>
      paths[i] == paths[j]
  }

  ghost predicate AllKept(d: map<string, FileValue>, paths: seq<Path>, sizes: map<string, nat>)
    requires AllSized(paths, sizes, |paths|)
  {
    forall i :: 0 <= i < |paths| ==> Kept(d, paths, sizes, i)
  }

  lemma KeptTogether(d: map<string, FileValue>, paths: seq<Path>, sizes: map<string, nat>, i: nat, j: nat)
    requires AllSized(paths, sizes, |paths|) && i < |paths| && j < |paths|
    requires Kept(d, paths, sizes, i) && Kept(d, paths, sizes, j) && Normalized(paths[i]) == Normalized(paths[j])
    ensures paths[i] == paths[j]
  {
  }

  /** No log is lost exactly if no two different listed paths share a key. */
  lemma NoneLostExactly(paths: seq<Path>, sizes: map<string, nat>)
    requires AllSized(paths, sizes, |paths|)
    ensures AllKept(Stored(map[], paths, sizes, |paths|), paths, sizes) <==> KeysTellPathsApart(paths)
  {
    var d := Stored(map[], paths, sizes, |paths|);
    if KeysTellPathsApart(paths) {
      forall i | 0 <= i < |paths| ensures Kept(d, paths, sizes, i) {
        LastPathWins(map[], paths, sizes, |paths|, i);
      }
    }
    if AllKept(d, paths, sizes) {
      forall i, j | 0 <= i < |paths| && 0 <= j < |paths| && Normalized(paths[i]) == Normalized(paths[j])
        ensures paths[i] == paths[j]
      {
        KeptTogether(d, paths, sizes, i, j);
      }
    }
  }

  /** Absolute paths without underscores are all kept. */
  lemma SimplePathsAreKept(paths: seq<Path>, sizes: map<string, nat>, i: nat)
    requires AllSized(paths, sizes, |paths|) && forall j :: 0 <= j < |paths| ==> Simple(paths[j])
    requires i < |paths|
    ensures Kept(Stored(map[], paths, sizes, |paths|), paths, sizes, i)
  {
    forall j | 0 <= j < |paths| && Normalized(paths[j]) == Normalized(paths[i]) ensures paths[j] == paths[i] {
      RestoredNormalized(paths[i]);
      RestoredNormalized(paths[j]);
    }
    LastPathWins(map[], paths, sizes, |paths|, i);
  }

  /** Two logs of which one replaces the other. */
  lemma SharedKeyLosesALog(sizes: map<string, nat>)
    requires "/a/b" in sizes && "/a_b" in sizes
    ensures AllSized(["/a/b", "/a_b"], sizes, 2)
    ensures !AllKept(Stored(map[], ["/a/b", "/a_b"], sizes, 2), ["/a/b", "/a_b"], sizes)
  {
    var paths: seq<Path> := ["/a/b", "/a_b"];
    assert Significant(paths[0]) == "a/b" && Significant(paths[1]) == "a_b";
    SameKeyExactly(paths[0], paths[1]);
    assert Normalized(paths[0]) == Normalized(paths[1]) && paths[0][2] != paths[1][2];
    NoneLostExactly(paths, sizes);
  }

  /**
   From the configuration to the data: any list of absolute paths without underscores, written with
   any white space, is loaded as that list; and if all sizes can be read, every one of these logs
   is found under its key.
   */
  lemma ConfiguredLogsAreKept(fs: RuntimeInfo.FileSystem, hostName: string, files: RuntimeInfo.Paths,
                              features: seq<string>, sizes: map<string, nat>,
                              lead: string, logs: seq<Path>, gaps: seq<string>)
    requires |logs| == |gaps| && IsBlank(lead) && AllWords(logs) && Separating(gaps)
    requires RuntimeInfo.TextOf(fs, files.nodeLogs) == lead + Spread(logs, gaps)
    requires (forall i :: 0 <= i < |logs| ==> Simple(logs[i])) && AllSized(logs, sizes, |logs|)
    ensures RuntimeInfo.Loaded(fs, hostName, files, features).nodeLogs == logs
    ensures AllKept(Stored(map[], logs, sizes, |logs|), logs, sizes)
  {
    FieldsOfSpread(lead, logs, gaps);
    forall i | 0 <= i < |logs| ensures Kept(Stored(map[], logs, sizes, |logs|), logs, sizes, i) {
      SimplePathsAreKept(logs, sizes, i);
    }
  }

  /** Whatever the configuration holds, a collector of the loaded list never indexes an empty path. */
  lemma LoadedPathsAreWords(fs: RuntimeInfo.FileSystem, hostName: string, files: RuntimeInfo.Paths,
                            features: seq<string>)
    ensures AllWords(RuntimeInfo.Loaded(fs, hostName, files, features).nodeLogs)
  {
    FieldsAreWords(RuntimeInfo.TextOf(fs, files.nodeLogs));
  }
}
