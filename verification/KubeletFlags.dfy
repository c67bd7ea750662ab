/**
 The network configuration diagnoser: two flags picked out of the kubelet's command line, and the
 name servers picked out of a resolver configuration.
 */
module KubeletFlags {
  import opened Common
  import opened Strings

  /******* strconv.Atoi, for 64-bit integers *******/

  const MAX_INT := 0x7fff_ffff_ffff_ffff

  predicate IsDigit(c: char) {
    '0' <= c <= '9'
  }

  predicate AllDigits(s: string) {
    forall i :: 0 <= i < |s| ==> IsDigit(s[i])
  }

  function Digits(s: string): nat
    requires AllDigits(s)
  {
    if s == "" then 0 else 10 * Digits(Front(s)) + (Last(s) as int - '0' as int)
  }

  /**
   The value Atoi hands back, its error ignored: 0 for a malformed number, the nearest integer for one
   out of range.
   */
  function Atoi(s: string): int {
    var negative := s != "" && s[0] == '-';
    var digits := if s != "" && s[0] in "+-" then s[1..] else s;
    if digits == "" || !AllDigits(digits) then 0
    else if negative then
      if Digits(digits) > MAX_INT + 1 then -MAX_INT - 1 else 0 - Digits(digits)
    else
      if Digits(digits) > MAX_INT then MAX_INT else Digits(digits)
  }

  function Decimal(n: nat): string {
    if n < 10 then [('0' as int + n) as char] else Decimal(n / 10) + [('0' as int + n % 10) as char]
  }

  lemma {:induction false} DigitsOfDecimal(n: nat)
    ensures Decimal(n) != "" && AllDigits(Decimal(n)) && Digits(Decimal(n)) == n
  {
    if n >= 10 {
      DigitsOfDecimal(n / 10);
      assert Front(Decimal(n)) == Decimal(n / 10);
    } else {
      assert Front(Decimal(n)) == "";
    }
  }

  lemma AtoiOfDecimal(n: nat)
    requires n <= MAX_INT
    ensures Atoi(Decimal(n)) == n
  {
    DigitsOfDecimal(n);
    assert IsDigit(Decimal(n)[0]);
  }

  /******* The flags *******/

  const PLUGIN := "--network-plugin="
  const MAX_PODS := "--max-pods="

  // The value of the last argument with a prefix.
  function LastFlag(args: seq<string>, prefix: string): Option<string> {
    if args == [] then None
    else if prefix <= Last(args) then Some(Last(args)[|prefix|..])
    else LastFlag(Front(args), prefix)
  }

  function PluginOf(args: seq<string>): string {
    match LastFlag(args, PLUGIN)
    case None => ""
    case Some(v) => if v == "cni" then "azurecni" else v
  }

  function MaxPodsOf(args: seq<string>): int {
    match LastFlag(args, MAX_PODS)
    case None => 0
    case Some(v) => Atoi(v)
  }

  /** The flag scan of Diagnose. */
  method ScanFlags(kubeletCommand: string) returns (networkPlugin: string, maxPodsPerNode: int)
    ensures networkPlugin == PluginOf(Split(kubeletCommand, ' '))
    ensures maxPodsPerNode == MaxPodsOf(Split(kubeletCommand, ' '))
  {
    networkPlugin, maxPodsPerNode := "", 0;
    var parts := Split(kubeletCommand, ' ');
    for i := 0 to |parts|
      invariant networkPlugin == PluginOf(parts[..i])
      invariant maxPodsPerNode == MaxPodsOf(parts[..i])
    {
      assert Front(parts[..i + 1]) == parts[..i];
      var part := parts[i];
      if PLUGIN <= part {
        var value := part[17..];
        if value == "cni" {
          value := "azurecni";
        }
        networkPlugin := value;
      }
      if MAX_PODS <= part {
        maxPodsPerNode := Atoi(part[11..]);
      }
    }
    assert parts[..|parts|] == parts;
  }

  /**
   Printing any kubelet arguments free of spaces, separated by single spaces, and diagnosing finds
   the last value of each flag; a pod limit written in decimal is read back as that number.
   */
  lemma FlagsRoundTrip(args: seq<string>, maxPods: nat)
    requires forall i :: 0 <= i < |args| ==> ' ' !in args[i]
    ensures PluginOf(Split(Join(args, ' '), ' ')) == PluginOf(args)
    ensures LastFlag(args, MAX_PODS) == Some(Decimal(maxPods)) && maxPods <= MAX_INT ==>
              MaxPodsOf(Split(Join(args, ' '), ' ')) == maxPods
  {
    if args == [] {
      assert Front([""]) == [];
    } else {
      SplitJoin(args, ' ');
    }
    AtoiOfDecimalIfFits(maxPods);
  }

  // The i-th argument has a prefix, and no later one does.
  ghost predicate IsLastWith(args: seq<string>, i: nat, prefix: string)
    requires i < |args|
  {
    prefix <= args[i] && forall j :: i < j < |args| ==> !(prefix <= args[j])
  }

  lemma {:induction false} LastFlagExactly(args: seq<string>, prefix: string, i: nat)
    requires i < |args| && IsLastWith(args, i, prefix)
    ensures LastFlag(args, prefix) == Some(args[i][|prefix|..])
  {
    if i < |args| - 1 {
      LastFlagExactly(Front(args), prefix, i);
    }
  }

  lemma {:induction false} NoFlagExactly(args: seq<string>, prefix: string)
    requires forall i :: 0 <= i < |args| ==> !(prefix <= args[i])
    ensures LastFlag(args, prefix) == None
  {
    if args != [] {
      NoFlagExactly(Front(args), prefix);
    }
  }

  // What the scan says of the command line made of some arguments.
  function Scanned(args: seq<string>): (string, int) {
    var parts := Split(Join(args, ' '), ' ');
    (PluginOf(parts), MaxPodsOf(parts))
  }

  lemma ScannedParts(args: seq<string>)
    requires args != [] && forall i :: 0 <= i < |args| ==> ' ' !in args[i]
    ensures Scanned(args) == (PluginOf(args), MaxPodsOf(args))
  {
    SplitJoin(args, ' ');
  }

  /** Of the arguments with the plugin flag the last one counts; its value is reported, "cni" under its other name. */
  lemma PluginIsScanned(args: seq<string>, i: nat, v: string)
    requires i < |args| && forall k :: 0 <= k < |args| ==> ' ' !in args[k]
    requires args[i] == "--network-plugin=" + v && IsLastWith(args, i, "--network-plugin=")
    ensures Scanned(args).0 == if v == "cni" then "azurecni" else v
  {
    ScannedParts(args);
    LastFlagExactly(args, "--network-plugin=", i);
    assert args[i][17..] == v;
  }

  /** Likewise the pod limit: a number within 64 bits is reported, and anything that is no number as 0. */
  lemma MaxPodsAreScanned(args: seq<string>, i: nat, v: string, n: nat)
    requires i < |args| && forall k :: 0 <= k < |args| ==> ' ' !in args[k]
    requires args[i] == "--max-pods=" + v && IsLastWith(args, i, "--max-pods=")
    ensures v == Decimal(n) && n <= MAX_INT ==> Scanned(args).1 == n
    ensures v == "-" + Decimal(n) && n <= MAX_INT ==> Scanned(args).1 == 0 - n
    ensures v == "" || (exists k :: 0 < k < |v| && !IsDigit(v[k])) ==> Scanned(args).1 == 0
  {
    ScannedParts(args);
    LastFlagExactly(args, "--max-pods=", i);
    assert args[i][11..] == v;
    AtoiOfDecimalIfFits(n);
    AtoiOfNegative(n);
    AtoiOfMalformed(v);
  }

  lemma AtoiOfNegative(n: nat)
    ensures n <= MAX_INT ==> Atoi("-" + Decimal(n)) == 0 - n
  {
    DigitsOfDecimal(n);
    var s := "-" + Decimal(n);
    assert s[0] == '-' && s[1..] == Decimal(n);
  }

  lemma AtoiOfMalformed(v: string)
    ensures v == "" || (exists k :: 0 < k < |v| && !IsDigit(v[k])) ==> Atoi(v) == 0
  {
    if k :| 0 < k < |v| && !IsDigit(v[k]) {
      assert v[1..][k - 1] == v[k];
    }
  }

  /** Beyond 64 bits the nearest integer is taken, and a sign in front is understood. */
  lemma AtoiElsewhere(n: nat)
    ensures n > MAX_INT ==> Atoi(Decimal(n)) == 0x7fff_ffff_ffff_ffff
    ensures n > MAX_INT + 1 ==> Atoi("-" + Decimal(n)) == -0x8000_0000_0000_0000
    ensures n <= MAX_INT ==> Atoi("+" + Decimal(n)) == n
    ensures Atoi("") == 0 && Atoi("-") == 0 && Atoi("+") == 0
  {
    DigitsOfDecimal(n);
    assert IsDigit(Decimal(n)[0]);
    assert ("-" + Decimal(n))[1..] == Decimal(n) && ("+" + Decimal(n))[1..] == Decimal(n);
    assert "-"[1..] == "" && "+"[1..] == "";
  }

  /** Without the flags, the plugin is reported as empty and the limit as 0. */
  lemma NothingIsScanned(args: seq<string>)
    requires args != [] && forall k :: 0 <= k < |args| ==> ' ' !in args[k]
    ensures (forall k :: 0 <= k < |args| ==> !("--network-plugin=" <= args[k])) ==> Scanned(args).0 == ""
    ensures (forall k :: 0 <= k < |args| ==> !("--max-pods=" <= args[k])) ==> Scanned(args).1 == 0
  {
    ScannedParts(args);
    if forall k :: 0 <= k < |args| ==> !("--network-plugin=" <= args[k]) {
      NoFlagExactly(args, "--network-plugin=");
    }
    if forall k :: 0 <= k < |args| ==> !("--max-pods=" <= args[k]) {
      NoFlagExactly(args, "--max-pods=");
    }
  }

  /** The decimal form is the usual one. */
  lemma DecimalExamples()
    ensures Decimal(0) == "0" && Decimal(30) == "30" && Decimal(110) == "110"
  {
    assert Decimal(1) == "1" && Decimal(3) == "3";
    assert Decimal(11) == "11";
  }

  lemma AtoiOfDecimalIfFits(n: nat)
    ensures n <= MAX_INT ==> Atoi(Decimal(n)) == n
  {
    if n <= MAX_INT {
      AtoiOfDecimal(n);
    }
  }

  /******* Name servers *******/

  function TrimNewline(s: string): string {
    if s != "" && Last(s) == '\n' then Front(s) else s
  }

  // The words that follow "nameserver", of the first n positions.
  function Servers(words: seq<string>, n: nat): seq<string>
    requires n < |words|
  {
    if n == 0 then []
    else Servers(words, n - 1) + if words[n - 1] == "nameserver" then [TrimNewline(words[n])] else []
  }

  // None is the run-time panic of indexing past the last word.
  function Dns(confFileContent: string): Option<seq<string>> {
    var words := Split(confFileContent, ' ');
    if Last(words) == "nameserver" then None else Some(Servers(words, |words| - 1))
  }

  method GetDns(confFileContent: string) returns (dns: Option<seq<string>>)
    ensures dns == Dns(confFileContent)
  {
    var found := [];
    var words := Split(confFileContent, ' ');
    for i := 0 to |words|
      invariant found == Servers(words, if i < |words| then i else |words| - 1)
      invariant i == |words| ==> Last(words) != "nameserver"
    {
      if words[i] == "nameserver" {
        if i + 1 == |words| {
          return None;
        }
        found := found + [TrimNewline(words[i + 1])];
      }
    }
    return Some(found);
  }

  /** The scan panics exactly on the text "nameserver" and on those that end in it after a space. */
  lemma PanicsExactly(confFileContent: string)
    ensures Dns(confFileContent).None? <==> EndsIn(confFileContent, ' ', "nameserver")
  {
    LastPartExactly(confFileContent, ' ', "nameserver");
  }

  /** Such a text, of a resolver configuration cut off after the keyword. */
  lemma CutOffAfterKeyword(before: string)
    ensures Dns(before + " " + "nameserver") == None
  {
    var s := before + " " + "nameserver";
    assert s[|before| + 1..] == "nameserver";
    PanicsExactly(s);
  }

  // Where the keyword stands, in order, among the first n words.
  ghost predicate AreKeywords(words: seq<string>, n: nat, places: seq<nat>) {
    && (forall k :: 0 <= k < |places| ==> places[k] < n && places[k] < |words| && words[places[k]] == "nameserver")
    && (forall j, k :: 0 <= j < k < |places| ==> places[j] < places[k])
    && (forall i: nat :: i < n && i < |words| && words[i] == "nameserver" ==> i in places)
  }

  // A word without the newline at its end, if it has one.
  predicate IsTrimmed(server: string, word: string) {
    word == server + "\n" || (word == server && (word == "" || word[|word| - 1] != '\n'))
  }

  // The words after these places, trimmed.
  ghost predicate AreAfter(words: seq<string>, places: seq<nat>, servers: seq<string>) {
    |servers| == |places| &&
    forall k :: 0 <= k < |places| ==> places[k] + 1 < |words| && IsTrimmed(servers[k], words[places[k] + 1])
  }

  lemma {:induction false} ServersOfKeywords(words: seq<string>, n: nat) returns (places: seq<nat>)
    requires n < |words|
    ensures AreKeywords(words, n, places) && AreAfter(words, places, Servers(words, n))
  {
    if n == 0 {
      places := [];
    } else {
      places := ServersOfKeywords(words, n - 1);
      KeywordsSnoc(words, n, places);
      if words[n - 1] == "nameserver" {
        TrimmedWord(words[n]);
        AfterSnoc(words, places, Servers(words, n - 1), n - 1, TrimNewline(words[n]));
        places := places + [n - 1];
      } else {
        assert Servers(words, n - 1) + [] == Servers(words, n - 1);
      }
    }
  }

  lemma AfterSnoc(words: seq<string>, places: seq<nat>, servers: seq<string>, place: nat, server: string)
    requires AreAfter(words, places, servers) && place + 1 < |words| && IsTrimmed(server, words[place + 1])
    ensures AreAfter(words, places + [place], servers + [server])
  {
  }

  lemma KeywordsSnoc(words: seq<string>, n: nat, places: seq<nat>)
    requires 0 < n <= |words| && AreKeywords(words, n - 1, places)
    ensures AreKeywords(words, n, if words[n - 1] == "nameserver" then places + [n - 1] else places)
  {
    var now := if words[n - 1] == "nameserver" then places + [n - 1] else places;
    forall i: nat | i < n && words[i] == "nameserver" ensures i in now {
      if i < n - 1 {
        assert i in places;
      } else {
        assert now[|places|] == i;
      }
    }
  }

  lemma TrimmedWord(w: string)
    ensures IsTrimmed(TrimNewline(w), w)
  {
    if w != "" && Last(w) == '\n' {
      assert w == Front(w) + "\n";
    }
  }

  /** One server for each keyword, in order: the word after it, less a newline at its end. */
  lemma DnsExactly(confFileContent: string) returns (places: seq<nat>)
    requires Dns(confFileContent).Some?
    ensures
      var words, servers := Split(confFileContent, ' '), Dns(confFileContent).value;
      AreKeywords(words, |words|, places) && AreAfter(words, places, servers)
  {
    var words := Split(confFileContent, ' ');
    places := ServersOfKeywords(words, |words| - 1);
    assert words[|words| - 1] != "nameserver";
  }
}
