/**
 Packing a reply into chunks that can be spoken, and interrupted, one at a time:
 normalise, split after sentence enders, pack greedily under a size cap.
 */
module SpeechChunks {
  import opened SpeechText
  import opened Basics

  // ---- sentences ----

  /** A sentence boundary: whitespace right after a full stop, exclamation or question mark. */
  predicate Boundary(s: string, i: nat) {
    0 < i < |s| && IsEnder(s[i - 1]) && IsSpace(s[i])
  }

  function FindBoundary(s: string, from: nat): (i: nat)
    requires from <= |s|
    ensures from <= i <= |s| && (i < |s| ==> Boundary(s, i))
    ensures forall j | from <= j < i :: !Boundary(s, j)
    decreases |s| - from
  {
    if from == |s| || Boundary(s, from) then from else FindBoundary(s, from + 1)
  }

  /** re.split on the boundary pattern: the whitespace run at each boundary is consumed. */
  function SplitSentences(s: string): (r: seq<string>)
    ensures r != []
    decreases |s|
  {
    var i := FindBoundary(s, 0);
    if i == |s| then [s] else [s[..i]] + SplitSentences(SkipSpaces(s[i..]))
  }

  predicate IsSentence(s: string) {
    s != "" && Normal(s) && forall i | 0 <= i < |s| :: !Boundary(s, i)
  }

  predicate Ends(s: string) {
    s != "" && IsEnder(s[|s| - 1])
  }

  /** Sentences in order: all but the last close with an ender. */
  predicate SentenceList(parts: seq<string>) {
    && (forall i | 0 <= i < |parts| :: IsSentence(parts[i]))
    && (forall i | 0 <= i < |parts| - 1 :: Ends(parts[i]))
  }

  lemma NormalSlice(s: string, i: nat)
    requires Normal(s) && Boundary(s, i)
    ensures Normal(s[..i]) && s[..i] != ""
    ensures i + 1 < |s| && SkipSpaces(s[i..]) == s[i + 1..] && Normal(s[i + 1..])
    ensures s == s[..i] + " " + s[i + 1..]
  {
    var j := i + 1;
    assert IsSpace(s[i]) && !IsSpace(s[j]);
    assert s[i..][1..] == s[j..];
    forall k | 0 <= k < |s[j..]| && IsSpace(s[j..][k])
      ensures s[j..][k] == ' ' && 0 < k && k + 1 < |s[j..]| && !IsSpace(s[j..][k + 1])
    {
      assert s[j..][k] == s[j + k];
    }
    forall k | 0 <= k < i && IsSpace(s[..i][k])
      ensures s[..i][k] == ' ' && 0 < k && k + 1 < i && !IsSpace(s[..i][k + 1])
    {
      assert s[..i][k] == s[k];
    }
  }

  /** Splitting a normal text gives sentences, and joining them gives the text back. */
  lemma {:induction false} SplitThenJoin(s: string)
    requires Normal(s) && s != ""
    ensures SentenceList(SplitSentences(s)) && Join(SplitSentences(s)) == s
    decreases |s|
  {
    var i := FindBoundary(s, 0);
    if i < |s| {
      NormalSlice(s, i);
      var rest := SplitSentences(s[i + 1..]);
      SplitThenJoin(s[i + 1..]);
      var parts := [s[..i]] + rest;
      assert SplitSentences(s) == parts && parts[1..] == rest;
      forall j: nat | j < i ensures !Boundary(s[..i], j) {
        assert !Boundary(s, j);
        if j > 0 { assert s[..i][j] == s[j] && s[..i][j - 1] == s[j - 1]; }
      }
      forall k | 0 <= k < |parts| ensures IsSentence(parts[k]) && (k < |parts| - 1 ==> Ends(parts[k])) {
        if k > 0 { assert parts[k] == rest[k - 1]; }
      }
    }
  }

  lemma {:induction false} FirstBoundary(s: string, from: nat, i: nat)
    requires from <= i <= |s| && (i < |s| ==> Boundary(s, i))
    requires forall j | from <= j < i :: !Boundary(s, j)
    ensures FindBoundary(s, from) == i
    decreases i - from
  {
    if from < i { FirstBoundary(s, from + 1, i); }
  }

  lemma SplitAppend(a: string, b: string)
    requires IsSentence(a) && Ends(a) && Normal(b) && b != ""
    ensures SplitSentences(a + " " + b) == [a] + SplitSentences(b)
  {
    var s := a + " " + b;
    NormalConcat(a, b);
    forall j: nat | j < |a| ensures !Boundary(s, j) {
      assert !Boundary(a, j);
      if j > 0 { assert s[j] == a[j] && s[j - 1] == a[j - 1]; }
    }
    FirstBoundary(s, 0, |a|);
    NormalSlice(s, |a|);
    assert s[..|a|] == a && s[|a| + 1..] == b;
  }

  /** Joining sentences and splitting again gives the same sentences. */
  lemma {:induction false} JoinThenSplit(parts: seq<string>)
    requires SentenceList(parts) && parts != []
    ensures Normal(Join(parts)) && Join(parts) != ""
    ensures SplitSentences(Join(parts)) == parts
    decreases |parts|
  {
    JoinIsNormal(parts);
    if |parts| == 1 {
      FirstBoundary(parts[0], 0, |parts[0]|);
      assert parts == [parts[0]];
    } else {
      JoinThenSplit(parts[1..]);
      SplitAppend(parts[0], Join(parts[1..]));
      assert [parts[0]] + parts[1..] == parts;
    }
  }

  // ---- greedy packing ----

  /** Sentences `cur` are in the open chunk; the rest are still to be placed. */
  function Pack(cur: seq<string>, rest: seq<string>, cap: int): (r: seq<seq<string>>)
    requires cur != []
    ensures r != []
    decreases |rest|
  {
    if rest == [] then [cur]
    else if |Join(cur + [rest[0]])| > cap then [cur] + Pack([rest[0]], rest[1..], cap)
    else Pack(cur + [rest[0]], rest[1..], cap)
  }

  function Groups(sentences: seq<string>, cap: int): seq<seq<string>> {
    if sentences == [] then [] else Pack([sentences[0]], sentences[1..], cap)
  }

  function JoinAll(groups: seq<seq<string>>): (r: seq<string>)
    ensures |r| == |groups|
    ensures forall i | 0 <= i < |groups| :: r[i] == Join(groups[i])
  {
    if groups == [] then [] else [Join(groups[0])] + JoinAll(groups[1..])
  }

  function SentencesOf(text: string): seq<string> {
    var t := Normalise(text);
    if t == "" then [] else SplitSentences(t)
  }

  /** What chunk_text_for_tts returns. */
  function Chunks(text: string, cap: int): seq<string> {
    JoinAll(Groups(SentencesOf(text), cap))
  }

  /** The rule every chunk obeys: within the cap, or a lone sentence. */
  predicate Fits(group: seq<string>, cap: int) {
    group != [] && (|group| == 1 || |Join(group)| <= cap)
  }

  predicate Grouping(groups: seq<seq<string>>, sentences: seq<string>, cap: int) {
    Flat(groups) == sentences && forall i | 0 <= i < |groups| :: Fits(groups[i], cap)
  }

  lemma {:induction false} PackIsGrouping(cur: seq<string>, rest: seq<string>, cap: int)
    requires Fits(cur, cap)
    ensures Grouping(Pack(cur, rest, cap), cur + rest, cap)
    decreases |rest|
  {
    if rest == [] {
      assert Flat([cur]) == cur + Flat([]) == cur + rest;
    } else if |Join(cur + [rest[0]])| > cap {
      PackIsGrouping([rest[0]], rest[1..], cap);
      var tail := Pack([rest[0]], rest[1..], cap);
      assert ([cur] + tail)[1..] == tail;
      assert [rest[0]] + rest[1..] == rest;
    } else {
      PackIsGrouping(cur + [rest[0]], rest[1..], cap);
      assert cur + [rest[0]] + rest[1..] == cur + rest;
    }
  }

  // ---- optimality ----

  lemma {:induction false} JoinGrows(a: seq<string>, b: seq<string>)
    requires a != [] && b != []
    ensures |Join(a + b)| == |Join(a)| + 1 + |Join(b)|
    decreases |a|
  {
    if |a| == 1 {
      assert (a + b)[1..] == b;
    } else {
      assert (a + b)[1..] == a[1..] + b;
      JoinGrows(a[1..], b);
    }
  }

  /** Dropping leading sentences from a fitting group leaves a fitting group. */
  lemma FitsSuffix(group: seq<string>, k: nat, cap: int)
    requires Fits(group, cap) && k < |group|
    ensures Fits(group[k..], cap)
  {
    if 0 < k {
      assert group == group[..k] + group[k..];
      JoinGrows(group[..k], group[k..]);
    } else {
      assert group[0..] == group;
    }
  }

  /** A grouping of a list gives a grouping, no longer, of any list left after dropping from its front. */
  lemma {:induction false} DropFront(groups: seq<seq<string>>, sentences: seq<string>, k: nat, cap: int)
    returns (shorter: seq<seq<string>>)
    requires Grouping(groups, sentences, cap) && k <= |sentences|
    ensures Grouping(shorter, sentences[k..], cap) && |shorter| <= |groups|
    ensures k > 0 && groups != [] && k >= |groups[0]| ==> |shorter| < |groups|
    decreases |groups|
  {
    if groups == [] || k == 0 {
      assert sentences[k..] == sentences;
      shorter := groups;
    } else {
      var g, tail := groups[0], groups[1..];
      assert sentences == g + Flat(tail);
      assert forall i | 0 <= i < |tail| :: tail[i] == groups[i + 1];
      if k < |g| {
        FitsSuffix(g, k, cap);
        shorter := [g[k..]] + tail;
        assert shorter[1..] == tail;
        assert sentences[k..] == g[k..] + Flat(tail);
      } else {
        assert sentences[k..] == Flat(tail)[k - |g|..];
        shorter := DropFront(tail, Flat(tail), k - |g|, cap);
      }
    }
  }

  /** The first group of any grouping ends no later than the greedy one. */
  lemma FirstGroupIsShort(groups: seq<seq<string>>, cur: seq<string>, rest: seq<string>, cap: int)
    requires cur != [] && rest != [] && |Join(cur + [rest[0]])| > cap
    requires Grouping(groups, cur + rest, cap)
    ensures groups != [] && |groups[0]| <= |cur|
  {
    assert groups != [];
    var g := groups[0];
    assert Fits(g, cap);
    if |g| > |cur| {
      var all := cur + rest;
      assert all == g + Flat(groups[1..]);
      assert g == all[..|g|];
      assert g[..|cur| + 1] == cur + [rest[0]];
      PrefixIsShorter(g, |cur| + 1);
    }
  }

  lemma PrefixIsShorter(g: seq<string>, n: nat)
    requires 0 < n <= |g|
    ensures |Join(g[..n])| <= |Join(g)|
  {
    if n < |g| {
      assert g == g[..n] + g[n..];
      JoinGrows(g[..n], g[n..]);
    } else {
      assert g[..n] == g;
    }
  }

  lemma {:induction false} PackIsShortest(cur: seq<string>, rest: seq<string>, cap: int, groups: seq<seq<string>>)
    requires cur != []
    requires Grouping(groups, cur + rest, cap)
    ensures |Pack(cur, rest, cap)| <= |groups|
    decreases |rest|
  {
    if rest == [] {
      assert groups != [];
    } else if |Join(cur + [rest[0]])| > cap {
      FirstGroupIsShort(groups, cur, rest, cap);
      assert (cur + rest)[|cur|..] == rest;
      var shorter := DropFront(groups, cur + rest, |cur|, cap);
      assert [rest[0]] + rest[1..] == rest;
      PackIsShortest([rest[0]], rest[1..], cap, shorter);
    } else {
      assert cur + [rest[0]] + rest[1..] == cur + rest;
      PackIsShortest(cur + [rest[0]], rest[1..], cap, groups);
    }
  }

  // ---- the theorems about chunking ----

  lemma SentencesOk(text: string)
    ensures SentenceList(SentencesOf(text)) && Join(SentencesOf(text)) == Normalise(text)
  {
    NormaliseIsNormal(text);
    if Normalise(text) != "" { SplitThenJoin(Normalise(text)); }
  }

  lemma GroupsOk(sentences: seq<string>, cap: int)
    ensures Grouping(Groups(sentences, cap), sentences, cap)
  {
    if sentences != [] {
      PackIsGrouping([sentences[0]], sentences[1..], cap);
      assert [sentences[0]] + sentences[1..] == sentences;
    }
  }

  lemma {:induction false} JoinJoins(groups: seq<seq<string>>)
    requires forall i | 0 <= i < |groups| :: groups[i] != []
    ensures Join(JoinAll(groups)) == Join(Flat(groups))
    decreases |groups|
  {
    if |groups| == 1 {
      assert Flat(groups) == groups[0] + Flat([]) == groups[0];
    } else if |groups| > 1 {
      var tail := groups[1..];
      JoinJoins(tail);
      assert JoinAll(groups)[1..] == JoinAll(tail);
      assert Flat(tail) != [] by { assert tail[0] != []; }
      JoinConcat(groups[0], Flat(tail));
    }
  }

  lemma {:induction false} JoinConcat(a: seq<string>, b: seq<string>)
    requires a != [] && b != []
    ensures Join(a + b) == Join(a) + " " + Join(b)
    decreases |a|
  {
    if |a| == 1 {
      assert (a + b)[1..] == b;
    } else {
      assert (a + b)[1..] == a[1..] + b;
      JoinConcat(a[1..], b);
    }
  }

  /** Nothing is lost: the chunks joined by one space are the words joined by one space. */
  lemma ChunkingIsLossless(text: string, cap: int)
    ensures Join(Chunks(text, cap)) == Join(Words(text))
  {
    SentencesOk(text);
    GroupsOk(SentencesOf(text), cap);
    JoinJoins(Groups(SentencesOf(text), cap));
    NormaliseIsJoinedWords(text);
  }

  /** The sentences of one chunk of a text. */
  lemma {:induction false} GroupIsSentenceList(groups: seq<seq<string>>, sentences: seq<string>, i: nat)
    requires Flat(groups) == sentences && SentenceList(sentences) && i < |groups|
    ensures SentenceList(groups[i])
    decreases |groups|
  {
    var g, tail := groups[0], Flat(groups[1..]);
    assert sentences == g + tail;
    if i == 0 {
      assert forall k | 0 <= k < |g| :: g[k] == sentences[k];
    } else {
      forall k | 0 <= k < |tail| ensures IsSentence(tail[k]) && (k < |tail| - 1 ==> Ends(tail[k])) {
        assert tail[k] == sentences[|g| + k];
      }
      GroupIsSentenceList(groups[1..], tail, i - 1);
    }
  }

  /** Each chunk is a run of whole sentences, within the cap unless it is a single sentence. */
  lemma ChunkShape(text: string, cap: int, i: nat)
    requires i < |Chunks(text, cap)|
    ensures var c := Chunks(text, cap)[i];
            c != "" && Normal(c) && NoBreak(c) && (|c| <= cap || |SplitSentences(c)| == 1)
  {
    var sentences := SentencesOf(text);
    var groups := Groups(sentences, cap);
    SentencesOk(text);
    GroupsOk(sentences, cap);
    GroupIsSentenceList(groups, sentences, i);
    assert Fits(groups[i], cap);
    JoinThenSplit(groups[i]);
    NormalHasNoBreak(Join(groups[i]));
  }

  /** No order-preserving grouping under the same rule uses fewer chunks. */
  lemma ChunkingIsShortest(text: string, cap: int, groups: seq<seq<string>>)
    requires Grouping(groups, SentencesOf(text), cap)
    ensures |Chunks(text, cap)| <= |groups|
  {
    var sentences := SentencesOf(text);
    if sentences != [] {
      assert [sentences[0]] + sentences[1..] == sentences;
      PackIsShortest([sentences[0]], sentences[1..], cap, groups);
    }
  }

  lemma {:induction false} PackAll(cur: seq<string>, rest: seq<string>, cap: int)
    requires cur != []
    ensures Pack(cur, rest, cap) == [cur + rest] <==> rest == [] || |Join(cur + rest)| <= cap
    decreases |rest|
  {
    if rest == [] {
      assert cur + rest == cur;
    } else {
      var more := cur + [rest[0]];
      assert more + rest[1..] == cur + rest;
      if rest[1..] != [] { JoinGrows(more, rest[1..]); } else { assert more == cur + rest; }
      if |Join(more)| <= cap { PackAll(more, rest[1..], cap); }
    }
  }

  /** Chunking a chunk again leaves it whole if, and only if, it fits the new cap or is one sentence. */
  lemma RechunkIsIdentity(text: string, cap: int, i: nat, again: int)
    requires i < |Chunks(text, cap)|
    ensures var c := Chunks(text, cap)[i];
            Chunks(c, again) == [c] <==> |c| <= again || |SplitSentences(c)| == 1
    ensures again >= cap ==> Chunks(Chunks(text, cap)[i], again) == [Chunks(text, cap)[i]]
  {
    var groups := Groups(SentencesOf(text), cap);
    SentencesOk(text);
    GroupsOk(SentencesOf(text), cap);
    GroupIsSentenceList(groups, SentencesOf(text), i);
    assert Fits(groups[i], cap);
    var g := groups[i];
    var c := Join(g);
    JoinThenSplit(g);
    NormaliseNormal(c);
    assert SentencesOf(c) == g;
    assert [g[0]] + g[1..] == g;
    PackAll([g[0]], g[1..], again);
    var packed := Groups(g, again);
    GroupsOk(g, again);
    if |packed| == 1 {
      assert packed == [packed[0]] && Flat(packed) == packed[0] + Flat(packed[1..]);
    }
  }

  lemma PackTwo(a: string, b: string, cap: int)
    ensures Groups([a, b], cap) == if |a| + 1 + |b| > cap then [[a], [b]] else [[a, b]]
  {
    var rest := [b];
    assert [a, b][1..] == rest && rest[1..] == [] && [a] + [b] == [a, b];
    JoinGrows([a], [b]);
    assert Groups([a, b], cap) == Pack([a], rest, cap);
    assert Pack([b], [], cap) == [[b]];
    assert Pack([a, b], [], cap) == [[a, b]];
  }

  lemma TwoSentences(a: string, b: string, cap: int)
    requires IsSentence(a) && IsSentence(b) && Ends(a)
    ensures Chunks(a + " " + b, cap) == if |a| + 1 + |b| > cap then [a, b] else [a + " " + b]
  {
    var parts := [a, b];
    assert parts[1..] == [b];
    assert Join(parts) == a + " " + b;
    JoinThenSplit(parts);
    NormaliseNormal(a + " " + b);
    assert SentencesOf(a + " " + b) == parts;
    PackTwo(a, b, cap);
    assert [[a], [b]][1..] == [[b]];
  }

  /** So a text chunked under a larger cap than the drain's own is not passed through. */
  lemma RechunkCanSplit()
    ensures Chunks("A. B.", 5) == ["A. B."] && Chunks("A. B.", 4) == ["A.", "B."]
  {
    assert "A." + " " + "B." == "A. B.";
    TwoSentences("A.", "B.", 5);
    TwoSentences("A.", "B.", 4);
  }

  /** Each of the three enders ends a sentence, with whitespace behind it; no other character does. */
  lemma EndersSplit(e: char)
    requires !IsSpace(e)
    ensures Chunks(['A', e, ' ', 'B'], 3)
         == if e == '.' || e == '!' || e == '?' then [['A', e], "B"] else [['A', e, ' ', 'B']]
  {
    var a, b := ['A', e], "B";
    var s := ['A', e, ' ', 'B'];
    assert a + " " + b == s;
    if IsEnder(e) {
      TwoSentences(a, b, 3);
    } else {
      FirstBoundary(s, 0, |s|);
      NormaliseNormal(s);
      assert SentencesOf(s) == [s];
      assert Groups([s], 3) == [[s]];
    }
  }

  // ---- the loop ----

  lemma PackStep(cur: seq<string>, rest: seq<string>, cap: int)
    requires cur != [] && rest != []
    ensures JoinAll(Pack(cur, rest, cap)) ==
            if |Join(cur + [rest[0]])| > cap then [Join(cur)] + JoinAll(Pack([rest[0]], rest[1..], cap))
            else JoinAll(Pack(cur + [rest[0]], rest[1..], cap))
  {
    if |Join(cur + [rest[0]])| > cap {
      assert ([cur] + Pack([rest[0]], rest[1..], cap))[1..] == Pack([rest[0]], rest[1..], cap);
    }
  }

  /** With sentences `cur` in the open chunk, what is emitted and what is to come make up the goal. */
  predicate Open(cur: seq<string>, rest: seq<string>, chunks: seq<string>, cap: int, goal: seq<string>) {
    cur != [] && chunks + JoinAll(Pack(cur, rest, cap)) == goal
  }

  lemma StripsDoNothing(cur: seq<string>, s: string)
    requires AllNormal(cur) && IsSentence(s)
    ensures Strip(s) == s && (cur == [] <==> Join(cur) == "") && AllNormal(cur + [s])
    ensures cur != [] ==> Strip(Join(cur) + " " + s) == Join(cur) + " " + s == Join(cur + [s])
  {
    NormaliseNormal(s);
    if cur != [] {
      JoinIsNormal(cur);
      NormalConcat(Join(cur), s);
      NormaliseNormal(Join(cur) + " " + s);
      JoinConcat(cur, [s]);
    }
  }

  lemma FirstStep(sentences: seq<string>, cap: int)
    requires sentences != []
    ensures Open([sentences[0]], sentences[1..], [], cap, JoinAll(Groups(sentences, cap)))
  {
    var packed := JoinAll(Pack([sentences[0]], sentences[1..], cap));
    assert [] + packed == packed;
  }

  lemma LoopStep(cur: seq<string>, rest: seq<string>, chunks: seq<string>, cap: int, goal: seq<string>)
    requires Open(cur, rest, chunks, cap, goal)
    requires rest != []
    ensures if |Join(cur + [rest[0]])| > cap
            then Open([rest[0]], rest[1..], chunks + [Join(cur)], cap, goal)
            else Open(cur + [rest[0]], rest[1..], chunks, cap, goal)
  {
    PackStep(cur, rest, cap);
    Regroup(chunks, Join(cur), JoinAll(Pack([rest[0]], rest[1..], cap)));
  }

  lemma Regroup(chunks: seq<string>, c: string, tail: seq<string>)
    ensures chunks + ([c] + tail) == chunks + [c] + tail
  {
  }

  method ChunkTextForTts(text: string, maxChars: int) returns (chunks: seq<string>)
    ensures chunks == Chunks(text, maxChars)
  {
    chunks := [];
    var stripped := Strip(text);
    SentencesOk(text);
    if stripped == "" {
      return;
    }
    var sentences := SplitSentences(Collapse(stripped));
    assert sentences == SentencesOf(text);
    var current := "";
    ghost var cur: seq<string> := [];
    ghost var goal := JoinAll(Groups(sentences, maxChars));
    for i := 0 to |sentences|
      invariant current == Join(cur)
      invariant AllNormal(cur)
      invariant i == 0 ==> cur == [] && chunks == []
      invariant i > 0 ==> Open(cur, sentences[i..], chunks, maxChars, goal)
    {
      StripsDoNothing(cur, sentences[i]);
      if i == 0 {
        FirstStep(sentences, maxChars);
        assert cur + [sentences[i]] == [sentences[i]];
      } else {
        assert sentences[i..][1..] == sentences[i + 1..];
        LoopStep(cur, sentences[i..], chunks, maxChars, goal);
      }
      var sentence := Strip(sentences[i]);
      if sentence == "" {
        continue;
      }
      var candidate := if current != "" then Strip(current + " " + sentence) else sentence;
      if |candidate| > maxChars && current != "" {
        chunks := chunks + [current];
        current := sentence;
        cur := [sentence];
      } else {
        current := candidate;
        cur := cur + [sentence];
      }
    }
    assert sentences[|sentences|..] == [];
    if current != "" {
      chunks := chunks + [current];
    }
    JoinIsNormal(cur);
  }
}
