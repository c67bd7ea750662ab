/** The string operations of the Go library that the modelled code is built from. */
module Strings {
  import opened Common

  /** strings.Split for a one-character separator: always at least one part. */
  function Split(s: string, sep: char): (parts: seq<string>)
    ensures parts != []
  {
    if s == "" then [""]
    else
      var rest := Split(s[1..], sep);
      if s[0] == sep then [""] + rest else [[s[0]] + rest[0]] + rest[1..]
  }

  /** strings.Join with a one-character separator. */
  function Join(parts: seq<string>, sep: char): string {
    if parts == [] then ""
    else if |parts| == 1 then parts[0]
    else parts[0] + [sep] + Join(parts[1..], sep)
  }

  lemma {:induction false} SplitPlain(s: string, sep: char)
    requires sep !in s
    ensures Split(s, sep) == [s]
  {
    if s != "" {
      SplitPlain(s[1..], sep);
      assert [s[0]] + s[1..] == s;
    }
  }

  lemma {:induction false} SplitAtFirst(a: string, sep: char, b: string)
    requires sep !in a
    ensures Split(a + [sep] + b, sep) == [a] + Split(b, sep)
  {
    var s := a + [sep] + b;
    if a == "" {
      assert s[1..] == b;
    } else {
      assert s[1..] == a[1..] + [sep] + b;
      SplitAtFirst(a[1..], sep, b);
      assert [a[0]] + a[1..] == a;
    }
  }

  /** Splitting undoes joining. */
  lemma {:induction false} SplitJoin(args: seq<string>, sep: char)
    requires args != [] && forall i :: 0 <= i < |args| ==> sep !in args[i]
    ensures Split(Join(args, sep), sep) == args
  {
    if |args| == 1 {
      SplitPlain(args[0], sep);
    } else {
      SplitJoin(args[1..], sep);
      SplitAtFirst(args[0], sep, Join(args[1..], sep));
    }
  }

  // The parts of s around the first c.
  function Cut(s: string, c: char): Option<(string, string)> {
    if s == "" then None
    else if s[0] == c then Some(("", s[1..]))
    else
      match Cut(s[1..], c)
      case None => None
      case Some((a, b)) => Some(([s[0]] + a, b))
  }

  lemma {:induction false} CutFirst(a: string, c: char, b: string)
    requires c !in a
    ensures Cut(a + [c] + b, c) == Some((a, b))
  {
    if a == "" {
      assert a + [c] + b == [c] + b;
    } else {
      assert (a + [c] + b)[1..] == a[1..] + [c] + b;
      CutFirst(a[1..], c, b);
      assert [a[0]] + a[1..] == a;
    }
  }

  lemma {:induction false} CutNone(s: string, c: char)
    requires c !in s
    ensures Cut(s, c) == None
  {
    if s != "" {
      CutNone(s[1..], c);
    }
  }

  /******* strings.Fields *******/

  // The ASCII characters strings.Fields separates at.
  predicate IsSpace(c: char) {
    c == ' ' || c == '\t' || c == '\n' || c == '\r' || c == (0x0b as char) || c == (0x0c as char)
  }

  type Word = w: string | w != "" witness "/"

  // The words of a text: maximal runs of characters that are not white space. None is empty, so
  // that the first character of a word always exists.
  function Fields(s: string): seq<Word>
    decreases |s|
  {
    if s == "" then []
    else if IsSpace(s[0]) then Fields(s[1..])
    else
      var n := WordLength(s);
      [s[..n]] + Fields(s[n..])
  }

  function WordLength(s: string): (n: nat)
    ensures n <= |s| && forall i :: 0 <= i < n ==> !IsSpace(s[i])
    ensures n < |s| ==> IsSpace(s[n])
    ensures s != "" && !IsSpace(s[0]) ==> n > 0
  {
    if s == "" || IsSpace(s[0]) then 0 else 1 + WordLength(s[1..])
  }

  predicate IsWord(w: string) {
    w != "" && forall i :: 0 <= i < |w| ==> !IsSpace(w[i])
  }

  predicate IsBlank(s: string) {
    forall i :: 0 <= i < |s| ==> IsSpace(s[i])
  }

  lemma {:induction false} FieldsAreWords(s: string)
    ensures forall i :: 0 <= i < |Fields(s)| ==> IsWord(Fields(s)[i])
    decreases |s|
  {
    if s != "" {
      FieldsAreWords(if IsSpace(s[0]) then s[1..] else s[WordLength(s)..]);
    }
  }

  // Each word followed by its gap.
  function Spread(words: seq<string>, gaps: seq<string>): string
    requires |words| == |gaps|
  {
    if words == [] then "" else words[0] + gaps[0] + Spread(words[1..], gaps[1..])
  }

  // White space after each word; there may be none after the last.
  ghost predicate Separating(gaps: seq<string>) {
    forall i :: 0 <= i < |gaps| ==> IsBlank(gaps[i]) && (gaps[i] == "" ==> i == |gaps| - 1)
  }

  ghost predicate AllWords(words: seq<string>) {
    forall i :: 0 <= i < |words| ==> IsWord(words[i])
  }

  lemma {:induction false} FieldsSkipBlank(lead: string, rest: string)
    requires IsBlank(lead)
    ensures Fields(lead + rest) == Fields(rest)
  {
    if lead == "" {
      assert lead + rest == rest;
    } else {
      assert (lead + rest)[1..] == lead[1..] + rest;
      FieldsSkipBlank(lead[1..], rest);
    }
  }

  lemma {:induction false} WordLengthOf(w: string, rest: string)
    requires forall i :: 0 <= i < |w| ==> !IsSpace(w[i])
    requires rest == "" || IsSpace(rest[0])
    ensures WordLength(w + rest) == |w|
  {
    if w == "" {
      assert w + rest == rest;
    } else {
      assert (w + rest)[1..] == w[1..] + rest;
      WordLengthOf(w[1..], rest);
    }
  }

  lemma FieldsCons(w: string, rest: string)
    requires IsWord(w) && (rest == "" || IsSpace(rest[0]))
    ensures Fields(w + rest) == [w] + Fields(rest)
  {
    WordLengthOf(w, rest);
    assert (w + rest)[0] == w[0];
    assert (w + rest)[..|w|] == w && (w + rest)[|w|..] == rest;
  }

  /** Splitting gives back any list of words printed with any white space before, between and after them. */
  lemma {:induction false} FieldsOfSpread(lead: string, words: seq<string>, gaps: seq<string>)
    requires |words| == |gaps| && IsBlank(lead) && AllWords(words) && Separating(gaps)
    ensures Fields(lead + Spread(words, gaps)) == words
    decreases |words|
  {
    FieldsSkipBlank(lead, Spread(words, gaps));
    if words != [] {
      var rest := gaps[0] + Spread(words[1..], gaps[1..]);
      assert Spread(words, gaps) == words[0] + rest;
      FieldsCons(words[0], rest);
      FieldsOfSpread(gaps[0], words[1..], gaps[1..]);
    }
  }

  /** Every text is its words, so printed. */
  lemma {:induction false} EveryTextIsSpread(s: string) returns (lead: string, gaps: seq<string>)
    ensures |gaps| == |Fields(s)| && IsBlank(lead) && Separating(gaps)
    ensures s == lead + Spread(Fields(s), gaps)
    decreases |s|
  {
    if s == "" {
      lead, gaps := "", [];
    } else if IsSpace(s[0]) {
      lead, gaps := EveryTextIsSpread(s[1..]);
      lead := [s[0]] + lead;
      assert [s[0]] + s[1..] == s;
    } else {
      var n := WordLength(s);
      var gap, tail := EveryTextIsSpread(s[n..]);
      NoWordAtGap(s[n..], gap, tail);
      SeparatingCons(gap, tail);
      SpreadCons(s[..n], gap, Fields(s[n..]), tail);
      lead, gaps := "", [gap] + tail;
      assert s[..n] + s[n..] == s;
    }
  }

  // A text that is empty, or begins with white space, has words only after a blank lead.
  lemma NoWordAtGap(s: string, lead: string, gaps: seq<string>)
    requires s == "" || IsSpace(s[0])
    requires |gaps| == |Fields(s)| && s == lead + Spread(Fields(s), gaps)
    ensures lead == "" ==> Fields(s) == []
  {
    FieldsAreWords(s);
  }

  lemma SeparatingCons(gap: string, gaps: seq<string>)
    requires IsBlank(gap) && Separating(gaps) && (gap == "" ==> gaps == [])
    ensures Separating([gap] + gaps)
  {
    var all := [gap] + gaps;
    forall i | 0 <= i < |all| ensures IsBlank(all[i]) && (all[i] == "" ==> i == |all| - 1) {
      assert i > 0 ==> all[i] == gaps[i - 1];
    }
  }

  lemma SpreadCons(w: string, gap: string, words: seq<string>, gaps: seq<string>)
    requires |words| == |gaps|
    ensures Spread([w] + words, [gap] + gaps) == w + (gap + Spread(words, gaps))
  {
    assert ([w] + words)[1..] == words && ([gap] + gaps)[1..] == gaps;
  }

  /** Six characters separate words, and no others do. */
  lemma SeparatorsExactly(c: char)
    ensures Fields(['a', c, 'b']) == if c in " \t\n\r\U{000b}\U{000c}" then ["a", "b"] else [['a', c, 'b']]
  {
    var s := ['a', c, 'b'];
    if IsSpace(c) {
      assert s == "a" + [c, 'b'];
      FieldsCons("a", [c, 'b']);
      FieldsSkipBlank([c], "b");
      assert [c] + "b" == [c, 'b'];
      FieldsCons("b", "");
      assert "b" + "" == "b";
    } else {
      FieldsCons(s, "");
      assert s + "" == s;
    }
  }

  /******* The last part of a split text *******/

  lemma {:induction false} SplitAtLast(a: string, sep: char, w: string)
    requires sep !in w
    ensures Split(a + [sep] + w, sep) == Split(a, sep) + [w]
  {
    var s := a + [sep] + w;
    if a == "" {
      assert s[1..] == w;
      SplitPlain(w, sep);
    } else {
      assert s[1..] == a[1..] + [sep] + w;
      SplitAtLast(a[1..], sep, w);
    }
  }

  // The whole text, or what follows a separator at its end.
  predicate EndsIn(s: string, sep: char, w: string) {
    s == w || (|w| < |s| && s[|s| - |w|..] == w && s[|s| - |w| - 1] == sep)
  }

  lemma EndsInFurther(c: char, s: string, sep: char, w: string)
    requires EndsIn(s, sep, w) && (s == w ==> c == sep)
    ensures EndsIn([c] + s, sep, w)
  {
    if s == w {
      assert ([c] + s)[1..] == w;
    } else {
      assert ([c] + s)[|s| + 1 - |w|..] == s[|s| - |w|..];
    }
  }

  lemma {:induction false} EndsInLastPart(s: string, sep: char)
    ensures EndsIn(s, sep, Last(Split(s, sep))) && sep !in Last(Split(s, sep))
  {
    if s != "" {
      EndsInLastPart(s[1..], sep);
      LastPartStep(s, sep);
      var w := Last(Split(s[1..], sep));
      assert [s[0]] + s[1..] == s;
      if s[0] == sep || sep in s[1..] {
        EndsInFurther(s[0], s[1..], sep, w);
      }
    }
  }

  lemma LastPartStep(s: string, sep: char)
    requires s != ""
    ensures Last(Split(s, sep)) == if sep in s then Last(Split(s[1..], sep)) else s
  {
    if sep !in s {
      SplitPlain(s, sep);
    } else if sep in s[1..] {
      ManyParts(s[1..], sep);
    }
  }

  lemma {:induction false} ManyParts(s: string, sep: char)
    requires sep in s
    ensures |Split(s, sep)| > 1
  {
    if s[0] != sep {
      ManyParts(s[1..], sep);
    }
  }

  /** A word is the last part exactly if the text is that word, or ends in it after a separator. */
  lemma LastPartExactly(s: string, sep: char, w: string)
    requires sep !in w
    ensures Last(Split(s, sep)) == w <==> EndsIn(s, sep, w)
  {
    EndsInLastPart(s, sep);
    if s == w {
      SplitPlain(w, sep);
    } else if EndsIn(s, sep, w) {
      var a := s[..|s| - |w| - 1];
      assert s == a + [sep] + w;
      SplitAtLast(a, sep, w);
    }
  }
}
