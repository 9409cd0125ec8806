/**
 The objects behind the speech path: the audio plane with its queue and flags, and the
 bridge state with its file offset. Every method is proved to be the step of that name.
 */
module VoiceBridge {
  import opened Options
  import opened SpeechText
  import opened SpeechChunks
  import opened VoicePath

  class PipecatPlane {
    var connected: bool
    var ttsQueue: Option<seq<Item>>
    var pump: Pump
    ghost var ledger: seq<Entry>

    ghost function Value(): Plane
      reads this
    {
      Plane(connected, ttsQueue, pump, ledger)
    }

    constructor ()
      ensures Value() == Init(0).plane
    {
      connected, ttsQueue, pump, ledger := false, None, Stopped, [];
    }

    method Connect()
      requires connected || ttsQueue.None?
      modifies this
      ensures Value() == if old(connected) then old(Value()) else Plane(true, Some([]), Idle, old(ledger))
    {
      if connected {
        return;
      }
      ttsQueue, pump, connected := Some([]), Idle, true;
    }

    /** Queue a chunk; refuse it when not connected or when the queue is full. */
    method Speak(text: string) returns (accepted: bool)
      modifies this
      ensures (Value(), accepted) == Offered(old(Value()), text)
    {
      if !connected || ttsQueue.None? {
        return false;
      }
      if text == "" || Strip(text) == "" {
        return true;
      }
      if |ttsQueue.value| >= QUEUE_MAX {
        return false;
      }
      ttsQueue := Some(ttsQueue.value + [Text(text)]);
      return true;
    }

    method PumpTake()
      modifies this
      ensures Value() == Take(old(Value()))
    {
      if pump.Idle? && ttsQueue.Some? && ttsQueue.value != [] {
        var head := ttsQueue.value[0];
        ttsQueue := Some(ttsQueue.value[1..]);
        pump := match head case Text(t) => Handling(t) case Sentinel => Stopped;
      }
    }

    method PumpEnd(ok: bool)
      requires pump.Handling?
      modifies this
      ensures Value() == Finish(old(Value()), if ok then HandedOn else FailedInPump, Idle)
    {
      ledger := ledger + [Entry(pump.text, if ok then HandedOn else FailedInPump)];
      pump := Idle;
    }

    /** disconnect up to its wait for the pump, which the cancel may not have reached yet. */
    method DisconnectBegin()
      modifies this
      ensures Value() == BeginDisconnect(old(Value()))
    {
      if !connected {
        return;
      }
      connected := false;
      if ttsQueue.Some? && |ttsQueue.value| < QUEUE_MAX {
        ttsQueue := Some(ttsQueue.value + [Sentinel]);
      }
    }

    /** The cancel ends the pump's loop, with whatever chunk it had in hand. */
    method PumpStops()
      requires !connected
      modifies this
      ensures Value() == StopPump(old(Value()))
    {
      if pump.Handling? {
        ledger := ledger + [Entry(pump.text, DiscardedAtDisconnect)];
      }
      pump := Stopped;
    }

    /** disconnect after that wait: the queue goes, with what is still in it. */
    method DisconnectEnd()
      requires connected || pump.Stopped?
      modifies this
      ensures Value() == EndDisconnect(old(Value()))
    {
      if !connected && ttsQueue.Some? {
        ledger := ledger + Discards(QueueTexts(ttsQueue));
        ttsQueue := None;
      }
    }
  }

  lemma ChunksObeyTheCap(text: string, cap: int)
    ensures forall i | 0 <= i < |Chunks(text, cap)| ::
              |Chunks(text, cap)[i]| <= cap || |SplitSentences(Chunks(text, cap)[i])| == 1
  {
    forall i | 0 <= i < |Chunks(text, cap)|
      ensures |Chunks(text, cap)[i]| <= cap || |SplitSentences(Chunks(text, cap)[i])| == 1
    {
      ChunkShape(text, cap, i);
    }
  }

  lemma LinesSnoc(base: string, chunks: seq<string>, i: nat)
    requires i < |chunks|
    ensures base + Lines(chunks[..i + 1]) == base + Lines(chunks[..i]) + (chunks[i] + "\n")
  {
    assert chunks[..i + 1] == chunks[..i] + [chunks[i]];
    LinesConcat(chunks[..i], [chunks[i]]);
    assert Lines([chunks[i]]) == chunks[i] + "\n";
  }

  class BridgeState {
    const chunkMaxChars: int
    const media: PipecatPlane
    var out: string
    var outOffset: nat
    var speakCount: nat
    ghost var written: seq<string>
    ghost var drained: nat
    ghost var offers: seq<Offer>

    ghost function Value(): Bridge
      reads this, media
    {
      Bridge(out, outOffset, chunkMaxChars, speakCount, media.Value(), written, drained, offers)
    }

    constructor (cap: int, plane: PipecatPlane)
      requires plane.Value() == Init(cap).plane
      ensures Value() == Init(cap) && media == plane
    {
      chunkMaxChars, media := cap, plane;
      out, outOffset, speakCount, written, drained, offers := "", 0, 0, [], 0, [];
    }

    /** The cap in force: the caller's own, or the bridge's where the caller gives none. */
    function CapFor(maxChars: int): (cap: int)
      ensures maxChars != 0 ==> cap == maxChars
      ensures maxChars == 0 ==> cap == chunkMaxChars
    {
      if maxChars != 0 then maxChars else chunkMaxChars
    }

    /** speak_into_bridge: each chunk becomes a line of the file, and their number is returned. */
    method SpeakInto(text: string, maxChars: int) returns (count: nat)
      modifies this
      ensures Value() == Step(old(Value()), VoicePath.SpeakInto(text, maxChars))
      ensures count == |written| - |old(written)| == |Chunks(text, CapFor(maxChars))|
      ensures written[..|old(written)|] == old(written) && Join(written[|old(written)|..]) == Join(Words(text))
      ensures forall i | |old(written)| <= i < |written| ::
                |written[i]| <= CapFor(maxChars) || |SplitSentences(written[i])| == 1
      ensures out == old(out) + Lines(written[|old(written)|..])
    {
      ChunkingIsLossless(text, CapFor(maxChars));
      ChunksObeyTheCap(text, CapFor(maxChars));
      var cap := CapFor(maxChars);
      var chunks := ChunkTextForTts(text, cap);
      assert written + [] == written && out + "" == out;
      if chunks == [] {
        return 0;
      }
      ghost var base := out;
      for i := 0 to |chunks|
        invariant out == base + Lines(chunks[..i])
        invariant written == old(written)
        invariant Value() == old(Value()).(out := out)
      {
        LinesSnoc(base, chunks, i);
        out := out + (chunks[i] + "\n");
      }
      assert chunks[..|chunks|] == chunks;
      written := written + chunks;
      count := |chunks|;
    }

    /** Offer one chunk, counting it when the plane takes it. */
    method OfferChunk(chunk: string)
      modifies this, media
      ensures Value() == OfferOne(old(Value()), chunk)
    {
      var ok := media.Speak(chunk);
      if ok {
        speakCount := speakCount + 1;
      }
      offers := offers + [Offer(chunk, ok)];
    }

    /** Offer every chunk of one line. */
    method OfferLineChunks(line: string)
      modifies this, media
      ensures Value() == OfferLine(old(Value()), line)
    {
      var stripped := Strip(line);
      if stripped == "" {
        return;
      }
      var chunks := ChunkTextForTts(stripped, chunkMaxChars);
      ghost var goal := OfferChunks(Value(), chunks);
      for j := 0 to |chunks|
        invariant OfferChunks(Value(), chunks[j..]) == goal
      {
        OfferChunk(chunks[j]);
        assert chunks[j..][1..] == chunks[j + 1..];
      }
      assert chunks[|chunks|..] == [];
    }

    /** Read what was appended since the last drain, and offer it line by line. */
    method DrainOutPipe()
      modifies this, media
      ensures Value() == DoDrain(old(Value()))
    {
      var size := |out|;
      if size <= outOffset {
        return;
      }
      var newData := out[outOffset..];
      outOffset := size;
      drained := |written|;
      var lines := SplitLines(newData);
      ghost var goal := OfferLines(Value(), lines);
      for i := 0 to |lines|
        invariant OfferLines(Value(), lines[i..]) == goal
      {
        OfferLineChunks(lines[i]);
        assert lines[i..][1..] == lines[i + 1..];
      }
      assert lines[|lines|..] == [];
    }
  }
}
