/**
 Streaming voice segmentation: a user's byte stream, cut into writes anywhere, is
 reframed, and speech frames with the silence after them are gathered into segments.
 The speech answers and clock readings are given per user and frame number; a clock
 reading of zero is the source's own mark for "no silence yet".
 */
module VoiceSegments {
  newtype byte = x: int | 0 <= x < 256

  const SAMPLE_RATE := 48000
  const FRAME_MS := 30
  const FRAME_BYTES: nat := 5760
  const MAX_SPEECH_BYTES: nat := 5_760_000
  const MIN_SPEECH_BYTES: nat := 96_000
  const SILENCE_THRESHOLD := 1.5
  const LIMIT_FRAMES: nat := 1000

  /** The sizes above are the source's: a stereo 16-bit frame, thirty seconds, half a second. */
  lemma Constants()
    ensures FRAME_BYTES == SAMPLE_RATE * FRAME_MS / 1000 * 2 * 2
    ensures MAX_SPEECH_BYTES == 30 * SAMPLE_RATE * 4 == LIMIT_FRAMES * FRAME_BYTES
    ensures MIN_SPEECH_BYTES as real == 0.5 * SAMPLE_RATE as real * 4.0
  {
  }

  datatype UserId = UserId(snowflake: nat)

  type SpeechOracle = (UserId, nat) -> bool
  type ClockOracle = (UserId, nat) -> real

  // ---- the byte-level machine, as the source runs it on one user ----

  datatype Vad = Vad(buffer: seq<byte>, active: bool, silenceStart: real)

  /** A frame's effect, and the audio it makes the sink emit, if any. */
  datatype Effect = Effect(vad: Vad, emitted: seq<seq<byte>>)

  function Emit(buffer: seq<byte>): Effect {
    Effect(Vad([], false, 0.0), [buffer])
  }

  function OnFrame(v: Vad, frame: seq<byte>, speech: bool, clock: real): Effect {
    var buffer := v.buffer + frame;
    if speech then
      if |buffer| > MAX_SPEECH_BYTES then Emit(buffer) else Effect(Vad(buffer, true, 0.0), [])
    else if !v.active then Effect(v, [])
    else if v.silenceStart == 0.0 then Effect(Vad(buffer, true, clock), [])
    else if clock - v.silenceStart > SILENCE_THRESHOLD then Emit(buffer)
    else Effect(v.(buffer := buffer), [])
  }

  predicate LongEnough(audio: seq<byte>) {
    |audio| > MIN_SPEECH_BYTES
  }

  function Handed(emitted: seq<seq<byte>>): seq<seq<byte>> {
    if emitted == [] then []
    else (if LongEnough(emitted[0]) then [emitted[0]] else []) + Handed(emitted[1..])
  }

  function FrameAt(stream: seq<byte>, i: nat): seq<byte>
    requires (i + 1) * FRAME_BYTES <= |stream|
  {
    stream[i * FRAME_BYTES..(i + 1) * FRAME_BYTES]
  }

  /** The state after a user's first n frames, and everything emitted on the way. */
  function Run(stream: seq<byte>, n: nat, user: UserId, speech: SpeechOracle, clock: ClockOracle): Effect
    requires n * FRAME_BYTES <= |stream|
  {
    if n == 0 then Effect(Vad([], false, 0.0), [])
    else
      Advance(Run(stream, n - 1, user, speech, clock),
              FrameAt(stream, n - 1), speech(user, n - 1), clock(user, n - 1))
  }

  function Advance(before: Effect, frame: seq<byte>, speech: bool, clock: real): Effect {
    var now := OnFrame(before.vad, frame, speech, clock);
    Effect(now.vad, before.emitted + now.emitted)
  }

  // ---- the reference machine: frame numbers only ----

  /** Frames from..to, to excluded. */
  datatype Segment = Segment(from: nat, to: nat)

  datatype Gather = Gather(active: bool, from: nat, silenceStart: real, cuts: seq<Segment>)

  function GatherFrame(g: Gather, i: nat, speech: bool, clock: real): Gather {
    var from := if g.active then g.from else i;
    if speech then
      if i + 1 - from > LIMIT_FRAMES then Gather(false, 0, 0.0, g.cuts + [Segment(from, i + 1)])
      else Gather(true, from, 0.0, g.cuts)
    else if !g.active then g
    else if g.silenceStart == 0.0 then g.(silenceStart := clock)
    else if clock - g.silenceStart > SILENCE_THRESHOLD then Gather(false, 0, 0.0, g.cuts + [Segment(from, i + 1)])
    else g
  }

  function GatherRun(n: nat, user: UserId, speech: SpeechOracle, clock: ClockOracle): Gather {
    if n == 0 then Gather(false, 0, 0.0, [])
    else GatherFrame(GatherRun(n - 1, user, speech, clock), n - 1, speech(user, n - 1), clock(user, n - 1))
  }

  function Audio(stream: seq<byte>, from: nat, to: nat): seq<byte>
    requires from <= to && to * FRAME_BYTES <= |stream|
  {
    stream[from * FRAME_BYTES..to * FRAME_BYTES]
  }

  /** The segments lie in order within the first n frames, none empty, none overlapping. */
  predicate CutsOk(cuts: seq<Segment>, n: nat) {
    && (forall i | 0 <= i < |cuts| :: cuts[i].from < cuts[i].to <= n)
    && (forall i, j | 0 <= i < j < |cuts| :: cuts[i].to <= cuts[j].from)
  }

  predicate GatherOk(g: Gather, n: nat) {
    && CutsOk(g.cuts, n)
    && (g.active ==> g.from < n && forall i | 0 <= i < |g.cuts| :: g.cuts[i].to <= g.from)
    && (!g.active ==> g.from == 0 && g.silenceStart == 0.0)
  }

  lemma {:induction false} GatherIsOk(n: nat, user: UserId, speech: SpeechOracle, clock: ClockOracle)
    ensures GatherOk(GatherRun(n, user, speech, clock), n)
  {
    if n > 0 { GatherIsOk(n - 1, user, speech, clock); }
  }

  function CutAudio(stream: seq<byte>, cuts: seq<Segment>): seq<seq<byte>>
    requires forall i | 0 <= i < |cuts| :: cuts[i].from <= cuts[i].to && cuts[i].to * FRAME_BYTES <= |stream|
  {
    if cuts == [] then [] else CutAudio(stream, cuts[..|cuts| - 1])
                               + [Audio(stream, cuts[|cuts| - 1].from, cuts[|cuts| - 1].to)]
  }

  predicate Within(cuts: seq<Segment>, stream: seq<byte>) {
    forall i | 0 <= i < |cuts| :: cuts[i].from <= cuts[i].to && cuts[i].to * FRAME_BYTES <= |stream|
  }

  /** The byte machine's state is the audio of the frames the reference machine has gathered. */
  predicate Mirrors(e: Effect, g: Gather, stream: seq<byte>, n: nat)
    requires n * FRAME_BYTES <= |stream|
  {
    && GatherOk(g, n) && Within(g.cuts, stream)
    && e.vad.active == g.active && e.vad.silenceStart == g.silenceStart
    && e.vad.buffer == (if g.active then Audio(stream, g.from, n) else [])
    && e.emitted == CutAudio(stream, g.cuts)
  }

  lemma AudioSnoc(stream: seq<byte>, from: nat, i: nat)
    requires from <= i && (i + 1) * FRAME_BYTES <= |stream|
    ensures Audio(stream, from, i) + FrameAt(stream, i) == Audio(stream, from, i + 1)
    ensures |Audio(stream, from, i + 1)| == (i + 1 - from) * FRAME_BYTES
  {
  }

  lemma CutSnoc(stream: seq<byte>, cuts: seq<Segment>, s: Segment)
    requires Within(cuts, stream) && s.from <= s.to && s.to * FRAME_BYTES <= |stream|
    ensures Within(cuts + [s], stream)
    ensures CutAudio(stream, cuts + [s]) == CutAudio(stream, cuts) + [Audio(stream, s.from, s.to)]
  {
    assert (cuts + [s])[..|cuts|] == cuts;
  }

  function From(g: Gather, i: nat): nat {
    if g.active then g.from else i
  }

  lemma Gathered(e: Effect, g: Gather, stream: seq<byte>, i: nat)
    requires (i + 1) * FRAME_BYTES <= |stream| && Mirrors(e, g, stream, i)
    ensures From(g, i) <= i
    ensures e.vad.buffer + FrameAt(stream, i) == Audio(stream, From(g, i), i + 1)
    ensures |e.vad.buffer + FrameAt(stream, i)| == (i + 1 - From(g, i)) * FRAME_BYTES
  {
    AudioSnoc(stream, From(g, i), i);
    if !g.active { assert [] + FrameAt(stream, i) == FrameAt(stream, i); }
  }

  lemma MirrorJoin(e: Effect, g: Gather, stream: seq<byte>, i: nat, silence: real)
    requires (i + 1) * FRAME_BYTES <= |stream| && Mirrors(e, g, stream, i)
    ensures Mirrors(Effect(Vad(e.vad.buffer + FrameAt(stream, i), true, silence), e.emitted + []),
                    Gather(true, From(g, i), silence, g.cuts), stream, i + 1)
  {
    Gathered(e, g, stream, i);
    assert e.emitted + [] == e.emitted;
  }

  lemma MirrorClose(e: Effect, g: Gather, stream: seq<byte>, i: nat)
    requires (i + 1) * FRAME_BYTES <= |stream| && Mirrors(e, g, stream, i)
    ensures Mirrors(Effect(Vad([], false, 0.0), e.emitted + [e.vad.buffer + FrameAt(stream, i)]),
                    Gather(false, 0, 0.0, g.cuts + [Segment(From(g, i), i + 1)]), stream, i + 1)
  {
    Gathered(e, g, stream, i);
    CutSnoc(stream, g.cuts, Segment(From(g, i), i + 1));
  }

  /** The frame either joins what is gathered, or closes it, or is ignored. */
  lemma MirrorFrame(e: Effect, g: Gather, stream: seq<byte>, i: nat, speech: bool, clock: real)
    requires (i + 1) * FRAME_BYTES <= |stream| && Mirrors(e, g, stream, i)
    ensures Mirrors(Advance(e, FrameAt(stream, i), speech, clock), GatherFrame(g, i, speech, clock), stream, i + 1)
  {
    Gathered(e, g, stream, i);
    if speech {
      if i + 1 - From(g, i) > LIMIT_FRAMES { MirrorClose(e, g, stream, i); } else { MirrorJoin(e, g, stream, i, 0.0); }
    } else if !g.active {
      assert e.emitted + [] == e.emitted;
    } else if g.silenceStart == 0.0 {
      MirrorJoin(e, g, stream, i, clock);
    } else if clock - g.silenceStart > SILENCE_THRESHOLD {
      MirrorClose(e, g, stream, i);
    } else {
      MirrorJoin(e, g, stream, i, g.silenceStart);
    }
  }

  lemma MirrorStep(stream: seq<byte>, n: nat, e: Effect, g: Gather, e': Effect, g': Gather, speech: bool, clock: real)
    requires n > 0 && n * FRAME_BYTES <= |stream| && Mirrors(e, g, stream, n - 1)
    requires e' == Advance(e, FrameAt(stream, n - 1), speech, clock) && g' == GatherFrame(g, n - 1, speech, clock)
    ensures Mirrors(e', g', stream, n)
  {
    var i := n - 1;
    MirrorFrame(e, g, stream, i, speech, clock);
  }

  lemma MirrorsAtZero(stream: seq<byte>)
    ensures Mirrors(Effect(Vad([], false, 0.0), []), Gather(false, 0, 0.0, []), stream, 0)
  {
  }

  /** For every stream and all answers, the byte machine refines the reference machine. */
  lemma {:induction false} RunMirrorsGather(stream: seq<byte>, n: nat, user: UserId,
                                            speech: SpeechOracle, clock: ClockOracle)
    requires n * FRAME_BYTES <= |stream|
    ensures Mirrors(Run(stream, n, user, speech, clock), GatherRun(n, user, speech, clock), stream, n)
  {
    if n > 0 {
      var e, g := Run(stream, n - 1, user, speech, clock), GatherRun(n - 1, user, speech, clock);
      RunMirrorsGather(stream, n - 1, user, speech, clock);
      MirrorStep(stream, n, e, g, Run(stream, n, user, speech, clock), GatherRun(n, user, speech, clock),
                 speech(user, n - 1), clock(user, n - 1));
    } else {
      MirrorsAtZero(stream);
    }
  }

  // ---- what the segments are ----

  /** What is buffered starts with speech and holds no speech frame beyond the limit. */
  predicate OpenSegmentOk(g: Gather, n: nat, user: UserId, speech: SpeechOracle) {
    g.active ==>
      && g.from < n && speech(user, g.from)
      && (forall i: nat | g.from <= i < n && speech(user, i) :: i + 1 - g.from <= LIMIT_FRAMES)
  }

  /** A segment starts with speech; it ends at the limit with speech, or after it in silence. */
  predicate SegmentOk(s: Segment, user: UserId, speech: SpeechOracle) {
    && s.from < s.to && speech(user, s.from)
    && (speech(user, s.to - 1) ==> s.to - s.from > LIMIT_FRAMES)
    && (forall i: nat | s.from <= i < s.to - 1 && speech(user, i) :: i + 1 - s.from <= LIMIT_FRAMES)
  }

  predicate AllOk(g: Gather, n: nat, user: UserId, speech: SpeechOracle) {
    && OpenSegmentOk(g, n, user, speech)
    && (forall k | 0 <= k < |g.cuts| :: SegmentOk(g.cuts[k], user, speech))
  }

  lemma FrameKeepsAllOk(g: Gather, i: nat, user: UserId, speech: SpeechOracle, clock: real)
    requires GatherOk(g, i) && AllOk(g, i, user, speech)
    ensures AllOk(GatherFrame(g, i, speech(user, i), clock), i + 1, user, speech)
  {
    var g' := GatherFrame(g, i, speech(user, i), clock);
    if |g'.cuts| > |g.cuts| {
      assert SegmentOk(Segment(From(g, i), i + 1), user, speech);
    }
  }

  lemma {:induction false} SegmentsAreOk(n: nat, user: UserId, speech: SpeechOracle, clock: ClockOracle)
    ensures AllOk(GatherRun(n, user, speech, clock), n, user, speech)
  {
    if n > 0 {
      SegmentsAreOk(n - 1, user, speech, clock);
      GatherIsOk(n - 1, user, speech, clock);
      FrameKeepsAllOk(GatherRun(n - 1, user, speech, clock), n - 1, user, speech, clock(user, n - 1));
    }
  }

  // ---- when silence ends a segment ----

  /** Silence began at frame q, right after speech, and by frame n had not lasted longer than the threshold. */
  predicate Quiet(q: nat, n: nat, user: UserId, speech: SpeechOracle, clock: ClockOracle) {
    && 0 < q < n && speech(user, q - 1)
    && (forall j: nat | q <= j < n :: !speech(user, j))
    && (forall j: nat | q < j < n :: clock(user, j) - clock(user, q) <= SILENCE_THRESHOLD)
  }

  /** An open segment's timer is off after speech, and otherwise holds the moment the silence began. */
  ghost predicate TimerOk(g: Gather, n: nat, user: UserId, speech: SpeechOracle, clock: ClockOracle) {
    g.active ==>
      && g.from < n
      && (speech(user, n - 1) ==> g.silenceStart == 0.0)
      && (!speech(user, n - 1) ==>
            exists q: nat :: g.from < q && Quiet(q, n, user, speech, clock) && g.silenceStart == clock(user, q))
  }

  /** A segment that ends in silence ends at the first frame more than the threshold after the silence began. */
  ghost predicate EndsInTime(s: Segment, user: UserId, speech: SpeechOracle, clock: ClockOracle) {
    s.from < s.to && !speech(user, s.to - 1) ==>
      exists q: nat :: s.from < q && Quiet(q, s.to - 1, user, speech, clock)
                       && clock(user, s.to - 1) - clock(user, q) > SILENCE_THRESHOLD
  }

  lemma FrameKeepsTimer(g: Gather, n: nat, user: UserId, speech: SpeechOracle, clock: ClockOracle)
    requires GatherOk(g, n) && TimerOk(g, n, user, speech, clock)
    requires clock(user, n) != 0.0 && (g.active && !speech(user, n - 1) ==> g.silenceStart != 0.0)
    ensures var g' := GatherFrame(g, n, speech(user, n), clock(user, n));
            && TimerOk(g', n + 1, user, speech, clock)
            && (g'.active && !speech(user, n) ==> g'.silenceStart != 0.0)
            && (|g'.cuts| > |g.cuts| ==> EndsInTime(g'.cuts[|g.cuts|], user, speech, clock))
  {
    if g.active && !speech(user, n) {
      if speech(user, n - 1) {
        assert Quiet(n, n + 1, user, speech, clock);
      } else {
        var q: nat :| g.from < q && Quiet(q, n, user, speech, clock) && g.silenceStart == clock(user, q);
        if clock(user, n) - clock(user, q) <= SILENCE_THRESHOLD { assert Quiet(q, n + 1, user, speech, clock); }
      }
    }
  }

  /** With a clock that never reads zero, silence ends a segment exactly at the threshold. */
  lemma {:induction false} SilenceEndsSegments(n: nat, user: UserId, speech: SpeechOracle, clock: ClockOracle)
    requires forall i: nat :: clock(user, i) != 0.0
    ensures var g := GatherRun(n, user, speech, clock);
            && TimerOk(g, n, user, speech, clock)
            && (n > 0 && g.active && !speech(user, n - 1) ==> g.silenceStart != 0.0)
            && (forall k | 0 <= k < |g.cuts| :: EndsInTime(g.cuts[k], user, speech, clock))
  {
    if n > 0 {
      SilenceEndsSegments(n - 1, user, speech, clock);
      GatherIsOk(n - 1, user, speech, clock);
      FrameKeepsTimer(GatherRun(n - 1, user, speech, clock), n - 1, user, speech, clock);
    }
  }

  /** Between frames: buffered audio if and only if speech is active; whole frames; bounded by speech. */
  lemma BufferIffActive(stream: seq<byte>, n: nat, user: UserId, speech: SpeechOracle, clock: ClockOracle)
    requires n * FRAME_BYTES <= |stream|
    ensures var v := Run(stream, n, user, speech, clock).vad;
            && (v.buffer != [] <==> v.active)
            && |v.buffer| % FRAME_BYTES == 0
            && (n > 0 && speech(user, n - 1) ==> |v.buffer| <= MAX_SPEECH_BYTES)
  {
    RunMirrorsGather(stream, n, user, speech, clock);
    SegmentsAreOk(n, user, speech, clock);
    var g := GatherRun(n, user, speech, clock);
    if g.active { AudioLength(stream, g.from, n); }
  }

  lemma AudioLength(stream: seq<byte>, from: nat, to: nat)
    requires from <= to && to * FRAME_BYTES <= |stream|
    ensures |Audio(stream, from, to)| == (to - from) * FRAME_BYTES
    ensures |Audio(stream, from, to)| % FRAME_BYTES == 0
  {
  }

  /** No frame is emitted twice, and none is emitted while still buffered. */
  lemma FramesAreEmittedOnce(n: nat, user: UserId, speech: SpeechOracle, clock: ClockOracle, frame: nat, a: nat, b: nat)
    requires var cuts := GatherRun(n, user, speech, clock).cuts;
             && a < |cuts| && b < |cuts|
             && cuts[a].from <= frame < cuts[a].to && cuts[b].from <= frame < cuts[b].to
    ensures a == b
    ensures var g := GatherRun(n, user, speech, clock); g.active ==> frame < g.from
  {
    GatherIsOk(n, user, speech, clock);
  }

  // ---- how much is ever buffered ----

  /** The silent frames since the last speech. */
  function TrailingSilence(n: nat, user: UserId, speech: SpeechOracle): (k: nat)
    ensures k <= n
    ensures forall j: nat | n - k <= j < n :: !speech(user, j)
    ensures k < n ==> speech(user, n - k - 1)
  {
    if n == 0 || speech(user, n - 1) then 0 else 1 + TrailingSilence(n - 1, user, speech)
  }

  lemma {:induction false} QuietIsTrailing(q: nat, n: nat, user: UserId, speech: SpeechOracle, clock: ClockOracle)
    requires Quiet(q, n, user, speech, clock)
    ensures q == n - TrailingSilence(n, user, speech)
  {
    if q < n - 1 {
      QuietIsTrailing(q, n - 1, user, speech, clock);
    } else {
      assert TrailingSilence(q, user, speech) == 0;
    }
  }

  /** The frames in the last k of n are silent, and within the threshold of the first of them. */
  predicate WithinThreshold(k: nat, n: nat, user: UserId, clock: ClockOracle) {
    k <= n && forall j: nat | n - k <= j < n :: clock(user, j) - clock(user, n - k) <= SILENCE_THRESHOLD
  }

  /** Speech fills at most the limit; beyond it is only the silence running now. */
  lemma GatheredBound(n: nat, user: UserId, speech: SpeechOracle, clock: ClockOracle)
    ensures var g := GatherRun(n, user, speech, clock);
            g.active ==> g.from < n && n - g.from <= LIMIT_FRAMES + TrailingSilence(n, user, speech)
  {
    SegmentsAreOk(n, user, speech, clock);
    var g := GatherRun(n, user, speech, clock);
    var k := TrailingSilence(n, user, speech);
    if g.active && g.from < n - k { assert speech(user, n - k - 1); }
  }

  /** With a clock that never reads zero, that silence is within the threshold of its start. */
  lemma GatheredInTime(n: nat, user: UserId, speech: SpeechOracle, clock: ClockOracle)
    requires forall i: nat :: clock(user, i) != 0.0
    ensures GatherRun(n, user, speech, clock).active ==>
              WithinThreshold(TrailingSilence(n, user, speech), n, user, clock)
  {
    SilenceEndsSegments(n, user, speech, clock);
    var g := GatherRun(n, user, speech, clock);
    if g.active && TrailingSilence(n, user, speech) > 0 {
      var q: nat :| g.from < q && Quiet(q, n, user, speech, clock) && g.silenceStart == clock(user, q);
      QuietIsTrailing(q, n, user, speech, clock);
    }
  }

  /** The buffer in bytes: at most the limit and the silence running now, all of it within the threshold. */
  lemma BufferBound(stream: seq<byte>, n: nat, user: UserId, speech: SpeechOracle, clock: ClockOracle)
    requires n * FRAME_BYTES <= |stream|
    ensures var v := Run(stream, n, user, speech, clock).vad;
            var k := TrailingSilence(n, user, speech);
            && |v.buffer| <= MAX_SPEECH_BYTES + k * FRAME_BYTES
            && (v.active && (forall i: nat :: clock(user, i) != 0.0) ==> WithinThreshold(k, n, user, clock))
  {
    RunMirrorsGather(stream, n, user, speech, clock);
    GatheredBound(n, user, speech, clock);
    var g := GatherRun(n, user, speech, clock);
    if g.active { AudioLength(stream, g.from, n); }
    if forall i: nat :: clock(user, i) != 0.0 { GatheredInTime(n, user, speech, clock); }
  }

  lemma {:induction false} ClockAdvances(a: nat, b: nat, user: UserId, clock: ClockOracle)
    requires a <= b
    requires forall i: nat :: clock(user, i + 1) - clock(user, i) >= 0.03
    ensures clock(user, b) - clock(user, a) >= 0.03 * (b - a) as real
    decreases b
  {
    if a < b {
      ClockAdvances(a, b - 1, user, clock);
      assert clock(user, b - 1 + 1) - clock(user, b - 1) >= 0.03;
    }
  }

  /** With frames no faster than they were spoken, at most 51 silent frames are buffered above the limit. */
  lemma LiveBufferBound(stream: seq<byte>, n: nat, user: UserId, speech: SpeechOracle, clock: ClockOracle)
    requires n * FRAME_BYTES <= |stream|
    requires forall i: nat :: clock(user, i) != 0.0 && clock(user, i + 1) - clock(user, i) >= 0.03
    ensures |Run(stream, n, user, speech, clock).vad.buffer| <= MAX_SPEECH_BYTES + 51 * FRAME_BYTES
  {
    BufferBound(stream, n, user, speech, clock);
    var k := TrailingSilence(n, user, speech);
    BufferIffActive(stream, n, user, speech, clock);
    if Run(stream, n, user, speech, clock).vad.active && k > 0 {
      ClockAdvances(n - k, n - 1, user, clock);
      assert clock(user, n - 1) - clock(user, n - k) <= SILENCE_THRESHOLD;
    }
  }

  function LastEnd(cuts: seq<Segment>): nat {
    if cuts == [] then 0 else cuts[|cuts| - 1].to
  }

  /** Speech began, for the segment after the last one emitted, at frame f. */
  predicate StartsAt(f: nat, after: nat, n: nat, user: UserId, speech: SpeechOracle) {
    after <= f < n && speech(user, f) && forall j: nat | after <= j < f :: !speech(user, j)
  }

  predicate SinceLastCut(g: Gather, n: nat, user: UserId, speech: SpeechOracle) {
    if g.active then StartsAt(g.from, LastEnd(g.cuts), n, user, speech)
    else forall j: nat | LastEnd(g.cuts) <= j < n :: !speech(user, j)
  }

  lemma {:induction false} OpenSinceLastCut(n: nat, user: UserId, speech: SpeechOracle, clock: ClockOracle)
    ensures SinceLastCut(GatherRun(n, user, speech, clock), n, user, speech)
  {
    if n > 0 {
      OpenSinceLastCut(n - 1, user, speech, clock);
      GatherIsOk(n - 1, user, speech, clock);
    }
  }

  ghost predicate BeganLongAgo(after: nat, n: nat, user: UserId, speech: SpeechOracle) {
    exists f: nat :: StartsAt(f, after, n, user, speech) && n - f > LIMIT_FRAMES
  }

  /** Speech began at f and stopped before q, the silence since is within the threshold, and both exceed the limit. */
  ghost predicate SpeechAndSilence(after: nat, n: nat, user: UserId, speech: SpeechOracle, clock: ClockOracle) {
    exists f: nat, q: nat ::
      && StartsAt(f, after, n, user, speech) && Quiet(q, n, user, speech, clock)
      && f < q <= f + LIMIT_FRAMES && (q - f) + (n - q) > LIMIT_FRAMES
  }

  /** The limit is exceeded if, and only if, speech began, after the last segment, more than the limit ago. */
  lemma OverTheLimit(stream: seq<byte>, n: nat, user: UserId, speech: SpeechOracle, clock: ClockOracle)
    requires n * FRAME_BYTES <= |stream|
    ensures |Run(stream, n, user, speech, clock).vad.buffer| > MAX_SPEECH_BYTES <==>
            BeganLongAgo(LastEnd(GatherRun(n, user, speech, clock).cuts), n, user, speech)
  {
    RunMirrorsGather(stream, n, user, speech, clock);
    OpenSinceLastCut(n, user, speech, clock);
    var g := GatherRun(n, user, speech, clock);
    if g.active { AudioLength(stream, g.from, n); }
    var after := LastEnd(g.cuts);
    if g.active && n - g.from > LIMIT_FRAMES {
      assert StartsAt(g.from, after, n, user, speech);
    } else {
      forall f: nat | StartsAt(f, after, n, user, speech) ensures n - f <= LIMIT_FRAMES {
        OneStart(g, f, n, user, speech);
      }
    }
  }

  lemma OneStart(g: Gather, f: nat, n: nat, user: UserId, speech: SpeechOracle)
    requires SinceLastCut(g, n, user, speech) && StartsAt(f, LastEnd(g.cuts), n, user, speech)
    ensures g.active && f == g.from
  {
  }

  /** The same in the silence's terms: how long speech ran, and how long the silence behind it has. */
  lemma OverTheLimitInSilence(stream: seq<byte>, n: nat, user: UserId, speech: SpeechOracle, clock: ClockOracle)
    requires n * FRAME_BYTES <= |stream|
    requires forall i: nat :: clock(user, i) != 0.0
    ensures |Run(stream, n, user, speech, clock).vad.buffer| > MAX_SPEECH_BYTES <==>
            SpeechAndSilence(LastEnd(GatherRun(n, user, speech, clock).cuts), n, user, speech, clock)
  {
    OverTheLimit(stream, n, user, speech, clock);
    var after := LastEnd(GatherRun(n, user, speech, clock).cuts);
    if BeganLongAgo(after, n, user, speech) {
      var f: nat :| StartsAt(f, after, n, user, speech) && n - f > LIMIT_FRAMES;
      var q := OpenInSilence(f, n, user, speech, clock);
      assert (q - f) + (n - q) == n - f;
    }
    if SpeechAndSilence(after, n, user, speech, clock) {
      var f: nat, q: nat :| StartsAt(f, after, n, user, speech) && Quiet(q, n, user, speech, clock)
                            && f < q <= f + LIMIT_FRAMES && (q - f) + (n - q) > LIMIT_FRAMES;
      assert n - f > LIMIT_FRAMES;
    }
  }

  lemma OpenInSilence(f: nat, n: nat, user: UserId, speech: SpeechOracle, clock: ClockOracle) returns (q: nat)
    requires forall i: nat :: clock(user, i) != 0.0
    requires StartsAt(f, LastEnd(GatherRun(n, user, speech, clock).cuts), n, user, speech) && n - f > LIMIT_FRAMES
    ensures f < q <= f + LIMIT_FRAMES && Quiet(q, n, user, speech, clock)
  {
    var g := GatherRun(n, user, speech, clock);
    OpenSinceLastCut(n, user, speech, clock);
    OneStart(g, f, n, user, speech);
    SilenceEndsSegments(n, user, speech, clock);
    SegmentsAreOk(n, user, speech, clock);
    q :| g.from < q && Quiet(q, n, user, speech, clock) && g.silenceStart == clock(user, q);
  }

  lemma {:induction false} SpeechGathers(n: nat, user: UserId, speech: SpeechOracle, clock: ClockOracle)
    requires 1 <= n <= LIMIT_FRAMES && forall i: nat | i < n :: speech(user, i)
    ensures GatherRun(n, user, speech, clock) == Gather(true, 0, 0.0, [])
  {
    if n > 1 {
      SpeechGathers(n - 1, user, speech, clock);
    } else {
      assert GatherRun(0, user, speech, clock) == Gather(false, 0, 0.0, []);
    }
  }

  /** The first `spoken` frames are speech and the next `silent` are not, within the threshold by the clock. */
  predicate SpokenThenSilent(spoken: nat, silent: nat, user: UserId, speech: SpeechOracle, clock: ClockOracle) {
    && 1 <= spoken <= LIMIT_FRAMES
    && (forall i: nat | i < spoken :: speech(user, i))
    && (forall i: nat | spoken <= i < spoken + silent :: !speech(user, i))
    && (silent > 1 ==> clock(user, spoken) != 0.0)
    && (forall j: nat | spoken < j < spoken + silent :: clock(user, j) - clock(user, spoken) <= SILENCE_THRESHOLD)
  }

  /** The limit binds speech only: all of the speech, and all of the silence, is buffered. */
  lemma {:induction false} SilenceHasNoLimit(spoken: nat, silent: nat, user: UserId,
                                             speech: SpeechOracle, clock: ClockOracle)
    requires SpokenThenSilent(spoken, silent, user, speech, clock)
    ensures var g := GatherRun(spoken + silent, user, speech, clock);
            && g.active && g.from == 0 && g.cuts == []
            && g.silenceStart == if silent > 0 then clock(user, spoken) else 0.0
    decreases silent
  {
    if silent > 0 {
      SilenceHasNoLimit(spoken, silent - 1, user, speech, clock);
    } else {
      SpeechGathers(spoken, user, speech, clock);
    }
  }

  /** The bound is attained: full speech and then any silence within the threshold fill it to the byte. */
  lemma BoundIsAttained(stream: seq<byte>, silent: nat, user: UserId, speech: SpeechOracle, clock: ClockOracle)
    requires SpokenThenSilent(LIMIT_FRAMES, silent, user, speech, clock)
    requires (LIMIT_FRAMES + silent) * FRAME_BYTES <= |stream|
    ensures |Run(stream, LIMIT_FRAMES + silent, user, speech, clock).vad.buffer|
         == MAX_SPEECH_BYTES + silent * FRAME_BYTES
  {
    var n := LIMIT_FRAMES + silent;
    RunMirrorsGather(stream, n, user, speech, clock);
    SilenceHasNoLimit(LIMIT_FRAMES, silent, user, speech, clock);
    AudioLength(stream, 0, n);
  }

  /** An ordinary input: thirty seconds of speech and one silent frame exceed the limit, whatever the clock reads. */
  lemma OneSilentFrameTooMany(stream: seq<byte>, user: UserId, speech: SpeechOracle, clock: ClockOracle)
    requires forall i: nat :: speech(user, i) <==> i < LIMIT_FRAMES
    requires |stream| == (LIMIT_FRAMES + 1) * FRAME_BYTES
    ensures |Run(stream, LIMIT_FRAMES + 1, user, speech, clock).vad.buffer| == MAX_SPEECH_BYTES + FRAME_BYTES
  {
    BoundIsAttained(stream, 1, user, speech, clock);
  }

  // ---- what is handed over ----

  /** Seconds of 48 kHz stereo 16-bit audio, as process_speech measures it. */
  function Duration(audio: seq<byte>): real {
    |audio| as real / (SAMPLE_RATE * 2 * 2) as real
  }

  /** Audio is long enough exactly when it lasts over half a second; the guard behind does not turn it away. */
  lemma HandedIffOverHalfASecond(audio: seq<byte>)
    ensures LongEnough(audio) <==> Duration(audio) > 0.5
    ensures LongEnough(audio) ==> !(Duration(audio) < 0.5)
  {
    var d, x := 192000.0, Duration(audio);
    assert (SAMPLE_RATE * 2 * 2) as real == d && x * d == |audio| as real;
  }

  /** The shortest run of whole frames over half a second. */
  const MIN_SPEECH_FRAMES: nat := 17

  /** The cuts of at least that many frames, in order. */
  function LongCuts(cuts: seq<Segment>): seq<Segment> {
    if cuts == [] then []
    else LongCuts(cuts[..|cuts| - 1])
         + if cuts[|cuts| - 1].to - cuts[|cuts| - 1].from >= MIN_SPEECH_FRAMES then [cuts[|cuts| - 1]] else []
  }

  lemma {:induction false} HandedConcat(a: seq<seq<byte>>, b: seq<seq<byte>>)
    ensures Handed(a + b) == Handed(a) + Handed(b)
    decreases |a|
  {
    if a == [] {
      assert a + b == b;
    } else {
      assert (a + b)[1..] == a[1..] + b;
      HandedConcat(a[1..], b);
    }
  }

  lemma HandedSnoc(emitted: seq<seq<byte>>, audio: seq<byte>)
    ensures Handed(emitted + [audio]) == Handed(emitted) + if LongEnough(audio) then [audio] else []
  {
    HandedConcat(emitted, [audio]);
    assert [audio][1..] == [];
  }

  lemma {:induction false} LongCutsWithin(cuts: seq<Segment>, stream: seq<byte>)
    requires Within(cuts, stream)
    ensures Within(LongCuts(cuts), stream)
    decreases |cuts|
  {
    if cuts != [] { LongCutsWithin(cuts[..|cuts| - 1], stream); }
  }

  lemma {:induction false} HandedCuts(stream: seq<byte>, cuts: seq<Segment>)
    requires Within(cuts, stream)
    ensures Within(LongCuts(cuts), stream)
    ensures Handed(CutAudio(stream, cuts)) == CutAudio(stream, LongCuts(cuts))
    decreases |cuts|
  {
    LongCutsWithin(cuts, stream);
    if cuts != [] {
      var rest, last := cuts[..|cuts| - 1], cuts[|cuts| - 1];
      HandedCuts(stream, rest);
      HandedSnoc(CutAudio(stream, rest), Audio(stream, last.from, last.to));
      AudioLength(stream, last.from, last.to);
      if last.to - last.from >= MIN_SPEECH_FRAMES {
        CutSnoc(stream, LongCuts(rest), last);
      } else {
        assert LongCuts(cuts) == LongCuts(rest);
      }
    }
  }

  /** What is handed over is the audio of exactly the segments of 17 frames or more, whole and in order. */
  lemma LongSegmentsAreHanded(stream: seq<byte>, n: nat, user: UserId, speech: SpeechOracle, clock: ClockOracle)
    requires n * FRAME_BYTES <= |stream|
    ensures var long := LongCuts(GatherRun(n, user, speech, clock).cuts);
            && Within(long, stream)
            && Handed(Run(stream, n, user, speech, clock).emitted) == CutAudio(stream, long)
  {
    RunMirrorsGather(stream, n, user, speech, clock);
    HandedCuts(stream, GatherRun(n, user, speech, clock).cuts);
  }

  // ---- the 16 kHz mono frame given to the detector ----

  datatype Sample = Sample(lo: byte, hi: byte)

  function Unpack(pcm: seq<byte>): seq<Sample>
    requires |pcm| % 2 == 0
  {
    seq(|pcm| / 2, i requires 0 <= i < |pcm| / 2 => Sample(pcm[2 * i], pcm[2 * i + 1]))
  }

  function EveryNth(s: seq<Sample>, step: nat): seq<Sample>
    requires step > 0
  {
    seq((|s| + step - 1) / step, i requires 0 <= i < (|s| + step - 1) / step => (Below(i, |s|, step); s[i * step]))
  }

  lemma Below(i: nat, n: nat, step: nat)
    requires step > 0 && i < (n + step - 1) / step
    ensures i * step < n
  {
    var q := (n + step - 1) / step;
    assert q * step <= n + step - 1;
    TimesGrows(i + 1, q, step);
    assert (i + 1) * step == i * step + step;
  }

  lemma {:induction false} TimesGrows(a: nat, b: nat, step: nat)
    requires a <= b
    ensures a * step <= b * step
    decreases b - a
  {
    if a < b {
      TimesGrows(a + 1, b, step);
      assert (a + 1) * step == a * step + step;
    }
  }

  function Pack(samples: seq<Sample>): seq<byte> {
    if samples == [] then [] else [samples[0].lo, samples[0].hi] + Pack(samples[1..])
  }

  function StereoToMono16k(pcm: seq<byte>): seq<byte>
    requires |pcm| % 2 == 0
  {
    Pack(EveryNth(EveryNth(Unpack(pcm), 2), SAMPLE_RATE / 16000))
  }

  lemma {:induction false} PackAt(samples: seq<Sample>, i: nat)
    requires i < |samples|
    ensures |Pack(samples)| == 2 * |samples|
    ensures Pack(samples)[2 * i] == samples[i].lo && Pack(samples)[2 * i + 1] == samples[i].hi
    decreases |samples|
  {
    if |samples| > 1 {
      PackAt(samples[1..], if i > 0 then i - 1 else 0);
    } else {
      assert samples[1..] == [];
    }
  }

  /** One whole frame gives exactly one detector frame: every third left sample, in order. */
  lemma OneVadFrame(frame: seq<byte>, i: nat)
    requires |frame| == FRAME_BYTES && i < 480
    ensures |StereoToMono16k(frame)| == 16000 * FRAME_MS / 1000 * 2 == 960
    ensures StereoToMono16k(frame)[2 * i] == frame[12 * i] && StereoToMono16k(frame)[2 * i + 1] == frame[12 * i + 1]
  {
    var samples := EveryNth(EveryNth(Unpack(frame), 2), 3);
    assert |samples| == 480;
    PackAt(samples, i);
  }
}
