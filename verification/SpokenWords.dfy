/** From what was said to what is offered for speech: no word is lost, added or moved on the way. */
module SpokenWords {
  import opened SpeechText
  import opened SpeechChunks
  import opened VoicePath

  // ---- the words of several texts ----

  function AllWords(parts: seq<string>): seq<string> {
    if parts == [] then [] else Words(parts[0]) + AllWords(parts[1..])
  }

  lemma {:induction false} AllWordsConcat(a: seq<string>, b: seq<string>)
    ensures AllWords(a + b) == AllWords(a) + AllWords(b)
    decreases |a|
  {
    if a == [] {
      assert a + b == b;
    } else {
      assert (a + b)[1..] == a[1..] + b;
      AllWordsConcat(a[1..], b);
    }
  }

  /** Words of texts a space apart are the words of one and then of the other. */
  lemma {:induction false} WordsSpaced(a: string, b: string)
    ensures Words(a + " " + b) == Words(a) + Words(b)
    decreases |a|
  {
    var s := a + " " + b;
    if a == "" {
      assert s[1..] == b;
    } else if IsSpace(a[0]) {
      assert s[1..] == a[1..] + " " + b;
      WordsSpaced(a[1..], b);
    } else {
      var n := WordLength(a);
      assert n < |a| ==> s[n] == a[n];
      assert forall i | 0 <= i < n :: s[i] == a[i];
      WordLengthIs(s, n);
      assert s[..n] == a[..n] && s[n..] == a[n..] + " " + b;
      WordsSpaced(a[n..], b);
    }
  }

  lemma {:induction false} WordsOfJoin(parts: seq<string>)
    ensures Words(Join(parts)) == AllWords(parts)
    decreases |parts|
  {
    if |parts| > 1 {
      WordsSpaced(parts[0], Join(parts[1..]));
      WordsOfJoin(parts[1..]);
    } else if |parts| == 1 {
      assert AllWords(parts[1..]) == [];
    }
  }

  lemma {:induction false} WordsAreWhole(s: string)
    ensures AllWords(Words(s)) == Words(s)
    decreases |s|
  {
    if s != "" {
      if IsSpace(s[0]) {
        WordsAreWhole(s[1..]);
      } else {
        var n := WordLength(s);
        OneWord(s[..n]);
        WordsAreWhole(s[n..]);
        assert Words(s)[1..] == Words(s[n..]);
      }
    }
  }

  lemma OneWord(w: string)
    requires w != "" && forall i | 0 <= i < |w| :: !IsSpace(w[i])
    ensures Words(w) == [w]
  {
    WordLengthIs(w, |w|);
    assert w[..|w|] == w && w[|w|..] == "";
  }

  /** Chunking keeps every word, in order, whatever the cap. */
  lemma ChunkWords(text: string, cap: int)
    ensures AllWords(Chunks(text, cap)) == Words(text)
  {
    ChunkingIsLossless(text, cap);
    WordsOfJoin(Chunks(text, cap));
    WordsOfJoin(Words(text));
    WordsAreWhole(text);
  }

  lemma {:induction false} LineChunkWords(lines: seq<string>, cap: int)
    ensures AllWords(LineChunks(lines, cap)) == AllWords(lines)
    decreases |lines|
  {
    if lines != [] {
      ChunkWords(lines[0], cap);
      AllWordsConcat(Chunks(lines[0], cap), LineChunks(lines[1..], cap));
      LineChunkWords(lines[1..], cap);
    }
  }

  // ---- over runs ----

  /** The lines an event writes: those appended as they are, or the chunks of a text under its own cap. */
  function SaidBy(e: Event, cap: int): seq<string> {
    match e
    case AppendLines(lines) => lines
    case SpeakInto(text, maxChars) => Chunks(text, if maxChars != 0 then maxChars else cap)
    case _ => []
  }

  function Said(run: seq<Event>, cap: int): seq<string> {
    if run == [] then [] else SaidBy(run[0], cap) + Said(run[1..], cap)
  }

  /** The words an event says, by lines or by a text. */
  function WordsBy(e: Event): seq<string> {
    match e
    case AppendLines(lines) => AllWords(lines)
    case SpeakInto(text, _) => Words(text)
    case _ => []
  }

  function WordsSaid(run: seq<Event>): seq<string> {
    if run == [] then [] else WordsBy(run[0]) + WordsSaid(run[1..])
  }

  lemma WrittenByOne(b: Bridge, e: Event)
    requires Inv(b) && Enabled(b, e)
    ensures Step(b, e).written == b.written + SaidBy(e, b.cap)
  {
    if e.Drain? { DrainKeeps(b); } else if !e.AppendLines? && !e.SpeakInto? { PlaneStepKeeps(b, e); }
  }

  lemma Regroup(a: seq<string>, b: seq<string>, c: seq<string>)
    ensures a + b + c == a + (b + c)
  {
  }

  lemma {:induction false} WrittenIsSaid(b: Bridge, run: seq<Event>)
    requires Inv(b) && Legal(b, run)
    ensures Exec(b, run).written == b.written + Said(run, b.cap)
    decreases |run|
  {
    if run != [] {
      StepKeeps(b, run[0]);
      WrittenByOne(b, run[0]);
      WrittenIsSaid(Step(b, run[0]), run[1..]);
      Regroup(b.written, SaidBy(run[0], b.cap), Said(run[1..], b.cap));
    }
  }

  lemma EventWords(e: Event, cap: int)
    ensures AllWords(SaidBy(e, cap)) == WordsBy(e)
  {
    if e.SpeakInto? { ChunkWords(e.text, if e.maxChars != 0 then e.maxChars else cap); }
  }

  lemma {:induction false} SaidWords(run: seq<Event>, cap: int)
    ensures AllWords(Said(run, cap)) == WordsSaid(run)
    decreases |run|
  {
    if run != [] {
      EventWords(run[0], cap);
      AllWordsConcat(SaidBy(run[0], cap), Said(run[1..], cap));
      SaidWords(run[1..], cap);
    }
  }

  lemma {:induction false} LineChunksAreNormal(lines: seq<string>, cap: int)
    ensures AllNormal(LineChunks(lines, cap))
    decreases |lines|
  {
    if lines != [] {
      LineChunksAreNormal(lines[1..], cap);
      forall i | 0 <= i < |Chunks(lines[0], cap)|
        ensures Chunks(lines[0], cap)[i] != "" && Normal(Chunks(lines[0], cap)[i])
      {
        ChunkShape(lines[0], cap, i);
      }
    }
  }

  lemma NormalJoin(parts: seq<string>)
    requires AllNormal(parts)
    ensures Join(parts) == Join(AllWords(parts))
  {
    JoinIsNormal(parts);
    NormaliseNormal(Join(parts));
    NormaliseIsJoinedWords(Join(parts));
    WordsOfJoin(parts);
  }

  /** After a drain, over any run: what is offered, joined, is the words of all that was said, joined. */
  lemma EveryWordIsOffered(cap: int, run: seq<Event>)
    requires Legal(Init(cap), run)
    ensures Exec(Init(cap), run).written == Said(run, cap)
    ensures var offered := OfferTexts(DoDrain(Exec(Init(cap), run)).offers);
            AllWords(offered) == WordsSaid(run) && Join(offered) == Join(WordsSaid(run))
  {
    InitOk(cap);
    WrittenIsSaid(Init(cap), run);
    assert Init(cap).written + Said(run, cap) == Said(run, cap);
    LinesAreOfferedOnce(cap, run);
    LineChunkWords(Said(run, cap), cap);
    SaidWords(run, cap);
    LineChunksAreNormal(Said(run, cap), cap);
    NormalJoin(LineChunks(Said(run, cap), cap));
  }

  // ---- pass-through ----

  /** Lines come only from speaks whose cap is no larger than the drain's. */
  predicate CapWithin(cap: int, e: Event) {
    (e.AppendLines? ==> e.lines == []) && (e.SpeakInto? ==> e.maxChars <= cap)
  }

  lemma {:induction false} RechunkAll(text: string, cap: int, again: int, i: nat)
    requires cap <= again && i <= |Chunks(text, cap)|
    ensures LineChunks(Chunks(text, cap)[i..], again) == Chunks(text, cap)[i..]
    decreases |Chunks(text, cap)| - i
  {
    var chunks := Chunks(text, cap);
    if i < |chunks| {
      RechunkIsIdentity(text, cap, i, again);
      RechunkAll(text, cap, again, i + 1);
      assert chunks[i..][1..] == chunks[i + 1..];
      assert [chunks[i]] + chunks[i + 1..] == chunks[i..];
    }
  }

  lemma {:induction false} WrittenRechunks(b: Bridge, run: seq<Event>)
    requires LineChunks(b.written, b.cap) == b.written
    requires Inv(b) && Legal(b, run)
    requires forall i | 0 <= i < |run| :: CapWithin(b.cap, run[i])
    ensures LineChunks(Exec(b, run).written, b.cap) == Exec(b, run).written
    decreases |run|
  {
    if run != [] {
      var e, b' := run[0], Step(b, run[0]);
      assert CapWithin(b.cap, e);
      StepKeeps(b, e);
      if e.SpeakInto? {
        var cap := SpeakCap(b, e.maxChars);
        var chunks := Chunks(e.text, cap);
        RechunkAll(e.text, cap, b.cap, 0);
        assert chunks[0..] == chunks;
        LineChunksConcat(b.written, chunks, b.cap);
      } else if e.AppendLines? {
        assert b.written + e.lines == b.written;
      } else if e.Drain? {
        DrainKeeps(b);
      }
      WrittenRechunks(b', run[1..]);
    }
  }

  /** Then the second chunking changes nothing: what a drain has offered is what was written. */
  lemma SpokenChunksPassThrough(cap: int, run: seq<Event>)
    requires Legal(Init(cap), run)
    requires forall i | 0 <= i < |run| :: CapWithin(cap, run[i])
    ensures var b := Exec(Init(cap), run); OfferTexts(DoDrain(b).offers) == b.written
  {
    InitOk(cap);
    WrittenRechunks(Init(cap), run);
    LinesAreOfferedOnce(cap, run);
  }
}
