/**
 Text as the speech path sees it: whitespace, words, sentences and line breaks,
 and the string operations used on them.
 */
module SpeechText {

  /** Whitespace for `strip` and the regex class, by code point. */
  predicate IsSpace(c: char) {
    IsBreak(c) || c == '\t' || c == '\U{1F}' || c == ' ' || c == '\U{A0}' || c == '\U{1680}'
    || '\U{2000}' <= c <= '\U{200A}' || c == '\U{202F}' || c == '\U{205F}' || c == '\U{3000}'
  }

  /** The line boundaries of `splitlines`. */
  predicate IsBreak(c: char) {
    '\n' <= c <= '\r' || '\U{1C}' <= c <= '\U{1E}' || c == '\U{85}' || c == '\U{2028}' || c == '\U{2029}'
  }

  predicate IsEnder(c: char) {
    c == '.' || c == '!' || c == '?'
  }

  // ---- strip and collapse ----

  function SkipSpaces(s: string): (r: string)
    ensures |r| <= |s|
    ensures r != "" ==> !IsSpace(r[0])
  {
    if s != "" && IsSpace(s[0]) then SkipSpaces(s[1..]) else s
  }

  function StripEnd(s: string): (r: string)
    ensures |r| <= |s|
    ensures r != "" ==> !IsSpace(r[|r| - 1])
    ensures r == s[..|r|]
  {
    if s != "" && IsSpace(s[|s| - 1]) then StripEnd(s[..|s| - 1]) else s
  }

  function Strip(s: string): string {
    StripEnd(SkipSpaces(s))
  }

  /** Every run of whitespace becomes one space. */
  function Collapse(s: string): string
    decreases |s|
  {
    if s == "" then ""
    else if IsSpace(s[0]) then " " + Collapse(SkipSpaces(s[1..]))
    else [s[0]] + Collapse(s[1..])
  }

  function Normalise(s: string): string {
    Collapse(Strip(s))
  }

  function Join(parts: seq<string>): string {
    if parts == [] then ""
    else if |parts| == 1 then parts[0]
    else parts[0] + " " + Join(parts[1..])
  }

  // ---- words: the independent reading of a text ----

  function WordLength(s: string): (n: nat)
    ensures n <= |s|
    ensures forall i | 0 <= i < n :: !IsSpace(s[i])
    ensures n < |s| ==> IsSpace(s[n])
  {
    if s == "" || IsSpace(s[0]) then 0 else 1 + WordLength(s[1..])
  }

  function Words(s: string): seq<string>
    decreases |s|
  {
    if s == "" then []
    else if IsSpace(s[0]) then Words(s[1..])
    else [s[..WordLength(s)]] + Words(s[WordLength(s)..])
  }

  predicate Trimmed(s: string) {
    s != "" ==> !IsSpace(s[0]) && !IsSpace(s[|s| - 1])
  }

  /** Only single plain spaces inside, none at either end. */
  predicate Normal(s: string) {
    forall i | 0 <= i < |s| && IsSpace(s[i]) :: s[i] == ' ' && 0 < i && i + 1 < |s| && !IsSpace(s[i + 1])
  }

  lemma {:induction false} WordsSkip(s: string)
    ensures Words(SkipSpaces(s)) == Words(s)
    decreases |s|
  {
    if s != "" && IsSpace(s[0]) { WordsSkip(s[1..]); }
  }

  lemma {:induction false} WordsDropLast(s: string)
    requires s != "" && IsSpace(s[|s| - 1])
    ensures Words(s[..|s| - 1]) == Words(s)
    decreases |s|
  {
    var t := s[..|s| - 1];
    if |s| == 1 {
    } else if IsSpace(s[0]) {
      assert t[1..] == s[1..][..|s[1..]| - 1];
      WordsDropLast(s[1..]);
    } else {
      var n := WordLength(s);
      WordLengthIs(t, n);
      assert t[..n] == s[..n];
      assert t[n..] == s[n..][..|s[n..]| - 1];
      WordsDropLast(s[n..]);
    }
  }

  lemma {:induction false} WordLengthIs(s: string, n: nat)
    requires n <= |s| && (forall i | 0 <= i < n :: !IsSpace(s[i])) && (n < |s| ==> IsSpace(s[n]))
    ensures WordLength(s) == n
  {
    if n > 0 { WordLengthIs(s[1..], n - 1); }
  }

  lemma {:induction false} WordsStripEnd(s: string)
    ensures Words(StripEnd(s)) == Words(s)
    decreases |s|
  {
    if s != "" && IsSpace(s[|s| - 1]) {
      WordsDropLast(s);
      WordsStripEnd(s[..|s| - 1]);
    }
  }

  lemma StripTrims(s: string)
    ensures Trimmed(Strip(s)) && Words(Strip(s)) == Words(s)
  {
    WordsSkip(s);
    WordsStripEnd(SkipSpaces(s));
  }

  lemma {:induction false} CollapseWord(s: string, n: nat)
    requires n <= |s| && forall i | 0 <= i < n :: !IsSpace(s[i])
    ensures Collapse(s) == s[..n] + Collapse(s[n..])
    decreases n
  {
    if n > 0 {
      CollapseWord(s[1..], n - 1);
      assert s[1..][n - 1..] == s[n..];
      assert s[..n] == [s[0]] + s[1..][..n - 1];
    } else {
      assert s[n..] == s;
    }
  }

  lemma {:induction false} SkipKeepsEnd(s: string)
    requires s != "" && !IsSpace(s[|s| - 1])
    ensures SkipSpaces(s) != "" && SkipSpaces(s)[|SkipSpaces(s)| - 1] == s[|s| - 1]
    decreases |s|
  {
    if IsSpace(s[0]) { SkipKeepsEnd(s[1..]); }
  }

  /** On a trimmed text, collapsing is reading the words and joining them by one space. */
  lemma {:induction false} CollapseIsJoinedWords(s: string)
    requires Trimmed(s)
    ensures Collapse(s) == Join(Words(s))
    decreases |s|
  {
    if s != "" {
      var n := WordLength(s);
      CollapseWord(s, n);
      if n == |s| {
        assert s[n..] == "" && Words(s) == [s[..n]];
      } else {
        var r := SkipSpaces(s[n..][1..]);
        SkipKeepsEnd(s[n..]);
        assert SkipSpaces(s[n..]) == r;
        WordsSkip(s[n..]);
        CollapseIsJoinedWords(r);
        assert Words(s) == [s[..n]] + Words(r);
        assert Words(r) != [];
        assert Words(s)[1..] == Words(r);
      }
    }
  }

  /** Normalising a text is reading its words and joining them by one space. */
  lemma NormaliseIsJoinedWords(s: string)
    ensures Normalise(s) == Join(Words(s))
  {
    StripTrims(s);
    CollapseIsJoinedWords(Strip(s));
  }

  // ---- joining normal pieces ----

  predicate AllNormal(parts: seq<string>) {
    forall i | 0 <= i < |parts| :: parts[i] != "" && Normal(parts[i])
  }

  lemma {:induction false} JoinIsNormal(parts: seq<string>)
    requires AllNormal(parts)
    ensures Normal(Join(parts)) && (parts != [] ==> |Join(parts)| >= |parts[0]| > 0)
    decreases |parts|
  {
    if |parts| > 1 {
      var a, b := parts[0], Join(parts[1..]);
      JoinIsNormal(parts[1..]);
      NormalConcat(a, b);
    }
  }

  lemma NormalConcat(a: string, b: string)
    requires a != "" && b != "" && Normal(a) && Normal(b)
    ensures Normal(a + " " + b)
  {
    var s := a + " " + b;
    forall i | 0 <= i < |s| && IsSpace(s[i]) ensures s[i] == ' ' && 0 < i && i + 1 < |s| && !IsSpace(s[i + 1]) {
      if i < |a| {
        assert a[i] == s[i];
        assert i + 1 < |a| && a[i + 1] == s[i + 1];
      } else if i > |a| {
        assert b[i - |a| - 1] == s[i];
        assert b[i - |a| - 1 + 1] == s[i + 1];
      } else {
        assert !IsSpace(b[0]) && s[i + 1] == b[0];
      }
    }
  }

  lemma {:induction false} WordsAreNormal(s: string)
    ensures AllNormal(Words(s))
    decreases |s|
  {
    if s != "" {
      if IsSpace(s[0]) { WordsAreNormal(s[1..]); } else { WordsAreNormal(s[WordLength(s)..]); }
    }
  }

  lemma NormaliseIsNormal(s: string)
    ensures Normal(Normalise(s))
  {
    NormaliseIsJoinedWords(s);
    WordsAreNormal(s);
    JoinIsNormal(Words(s));
  }

  lemma {:induction false} CollapseNormal(s: string)
    requires forall i | 0 <= i < |s| && IsSpace(s[i]) :: s[i] == ' ' && (i + 1 < |s| ==> !IsSpace(s[i + 1]))
    ensures Collapse(s) == s
    decreases |s|
  {
    if s != "" {
      CollapseNormal(s[1..]);
      assert IsSpace(s[0]) ==> SkipSpaces(s[1..]) == s[1..];
      assert s == [s[0]] + s[1..];
    }
  }

  /** A normal text is left as it is. */
  lemma NormaliseNormal(s: string)
    requires Normal(s)
    ensures Strip(s) == s && Normalise(s) == s
  {
    CollapseNormal(s);
  }

  // ---- lines ----

  function LineLength(s: string): (n: nat)
    ensures n <= |s|
    ensures forall i | 0 <= i < n :: !IsBreak(s[i])
    ensures n < |s| ==> IsBreak(s[n])
  {
    if s == "" || IsBreak(s[0]) then 0 else 1 + LineLength(s[1..])
  }

  /** Python's splitlines: no piece after a final line boundary, and \r\n is one boundary. */
  function SplitLines(s: string): seq<string>
    decreases |s|
  {
    if s == "" then []
    else
      var n := LineLength(s);
      if n == |s| then [s]
      else
        var skip := if s[n] == '\r' && n + 1 < |s| && s[n + 1] == '\n' then 2 else 1;
        [s[..n]] + SplitLines(s[n + skip..])
  }

  predicate NoBreak(s: string) {
    forall i | 0 <= i < |s| :: !IsBreak(s[i])
  }

  function Lines(parts: seq<string>): string {
    if parts == [] then "" else parts[0] + "\n" + Lines(parts[1..])
  }

  lemma {:induction false} LineLengthIs(s: string, n: nat)
    requires n < |s| && (forall i | 0 <= i < n :: !IsBreak(s[i])) && IsBreak(s[n])
    ensures LineLength(s) == n
  {
    if n > 0 { LineLengthIs(s[1..], n - 1); }
  }

  /** Whole lines written one after the other come back as they were written. */
  lemma {:induction false} SplitWrittenLines(parts: seq<string>)
    requires forall i | 0 <= i < |parts| :: NoBreak(parts[i])
    ensures SplitLines(Lines(parts)) == parts
    decreases |parts|
  {
    if parts != [] {
      var s := Lines(parts);
      var n := |parts[0]|;
      assert NoBreak(parts[0]);
      assert forall i | 0 <= i < n :: s[i] == parts[0][i];
      LineLengthIs(s, n);
      assert s[n] == '\n' && s[..n] == parts[0] && s[n + 1..] == Lines(parts[1..]);
      SplitWrittenLines(parts[1..]);
    }
  }

  lemma {:induction false} LinesConcat(a: seq<string>, b: seq<string>)
    ensures Lines(a + b) == Lines(a) + Lines(b)
    decreases |a|
  {
    if a == [] {
      assert a + b == b;
    } else {
      assert (a + b)[1..] == a[1..] + b;
      LinesConcat(a[1..], b);
    }
  }

  lemma NormalHasNoBreak(s: string)
    requires Normal(s)
    ensures NoBreak(s)
  {
    forall i | 0 <= i < |s| ensures !IsBreak(s[i]) {
      if IsBreak(s[i]) { assert IsSpace(s[i]); }
    }
  }
}
