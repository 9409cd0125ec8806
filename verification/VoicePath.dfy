/**
 From a reply to the speech pipeline: lines appended to the .out file, drained from a
 tracked offset, chunked, offered to the audio plane's bounded queue, and handed on
 by its pump. A run is any interleaving of appends, drains, pump moves, connects and
 disconnects; `written`, `drained`, `offers` and `ledger` record its history.
 */
module VoicePath {
  import opened Options
  import opened SpeechText
  import opened SpeechChunks

  const QUEUE_MAX := 64

  datatype Item = Text(text: string) | Sentinel

  datatype Pump = Idle | Handling(text: string) | Stopped

  /** How a queued chunk ended. */
  datatype Fate = HandedOn | FailedInPump | DiscardedAtDisconnect

  datatype Entry = Entry(text: string, fate: Fate)

  datatype Plane = Plane(connected: bool, queue: Option<seq<Item>>, pump: Pump, ledger: seq<Entry>)

  datatype Offer = Offer(text: string, accepted: bool)

  datatype Bridge = Bridge(
    out: string, offset: nat, cap: int, speakCount: nat, plane: Plane,
    written: seq<string>, drained: nat, offers: seq<Offer>)

  datatype Event =
    | AppendLines(lines: seq<string>)
    | SpeakInto(text: string, maxChars: int)
    | Drain
    | Connect
    | PumpTake
    | PumpEnd(ok: bool)
    | DisconnectBegin
    | PumpStops
    | DisconnectEnd

  // ---- the plane ----

  function Offered(p: Plane, text: string): (r: (Plane, bool)) {
    if !p.connected || p.queue.None? then (p, false)
    else if Strip(text) == "" then (p, true)
    else if |p.queue.value| >= QUEUE_MAX then (p, false)
    else (p.(queue := Some(p.queue.value + [Text(text)])), true)
  }

  function Take(p: Plane): Plane {
    if p.pump.Idle? && p.queue.Some? && p.queue.value != [] then
      var head := p.queue.value[0];
      p.(queue := Some(p.queue.value[1..]), pump := if head.Text? then Handling(head.text) else Stopped)
    else p
  }

  function Finish(p: Plane, fate: Fate, next: Pump): Plane {
    if p.pump.Handling? then p.(pump := next, ledger := p.ledger + [Entry(p.pump.text, fate)]) else p.(pump := next)
  }

  /** Flag down, sentinel in if there is room; the pump goes on until the cancel reaches it. */
  function BeginDisconnect(p: Plane): Plane {
    if !p.connected then p
    else
      var q := if p.queue.Some? && |p.queue.value| < QUEUE_MAX then Some(p.queue.value + [Sentinel]) else p.queue;
      p.(connected := false, queue := q)
  }

  /** The cancel reaches the pump wherever it stands. */
  function StopPump(p: Plane): Plane {
    Finish(p, DiscardedAtDisconnect, Stopped)
  }

  function EndDisconnect(p: Plane): Plane {
    if p.connected || p.queue.None? then p
    else p.(queue := None, ledger := p.ledger + Discards(QueueTexts(p.queue)))
  }

  function Discards(texts: seq<string>): (r: seq<Entry>)
    ensures |r| == |texts|
  {
    if texts == [] then [] else [Entry(texts[0], DiscardedAtDisconnect)] + Discards(texts[1..])
  }

  function ItemTexts(items: seq<Item>): seq<string> {
    if items == [] then []
    else (if items[0].Text? then [items[0].text] else []) + ItemTexts(items[1..])
  }

  function QueueTexts(q: Option<seq<Item>>): seq<string> {
    if q.None? then [] else ItemTexts(q.value)
  }

  function PumpTexts(pump: Pump): seq<string> {
    if pump.Handling? then [pump.text] else []
  }

  function LedgerTexts(ledger: seq<Entry>): seq<string> {
    if ledger == [] then [] else [ledger[0].text] + LedgerTexts(ledger[1..])
  }

  /** Everything the plane took in, in the order it took it. */
  function TakenIn(p: Plane): seq<string> {
    LedgerTexts(p.ledger) + PumpTexts(p.pump) + QueueTexts(p.queue)
  }

  predicate PlaneOk(p: Plane) {
    && (p.queue.Some? ==> |p.queue.value| <= QUEUE_MAX)
    && (p.connected ==> p.queue.Some?)
    && (p.queue.None? ==> p.pump.Stopped?)
    && (p.connected ==> !p.pump.Stopped? && forall i | 0 <= i < |p.queue.value| :: p.queue.value[i].Text?)
  }

  // ---- the bridge ----

  function OfferOne(b: Bridge, chunk: string): Bridge {
    var (plane, ok) := Offered(b.plane, chunk);
    b.(plane := plane, offers := b.offers + [Offer(chunk, ok)], speakCount := b.speakCount + if ok then 1 else 0)
  }

  function OfferChunks(b: Bridge, chunks: seq<string>): Bridge
    decreases |chunks|
  {
    if chunks == [] then b else OfferChunks(OfferOne(b, chunks[0]), chunks[1..])
  }

  /** One line of the file: stripped, skipped when blank, chunked, offered. */
  function OfferLine(b: Bridge, line: string): Bridge {
    if Strip(line) == "" then b else OfferChunks(b, Chunks(Strip(line), b.cap))
  }

  function OfferLines(b: Bridge, lines: seq<string>): Bridge
    decreases |lines|
  {
    if lines == [] then b else OfferLines(OfferLine(b, lines[0]), lines[1..])
  }

  function DoDrain(b: Bridge): Bridge {
    if |b.out| <= b.offset then b
    else OfferLines(b.(offset := |b.out|, drained := |b.written|), SplitLines(b.out[b.offset..]))
  }

  function DoAppend(b: Bridge, lines: seq<string>): Bridge {
    b.(out := b.out + Lines(lines), written := b.written + lines)
  }

  function SpeakCap(b: Bridge, maxChars: int): int {
    if maxChars != 0 then maxChars else b.cap
  }

  predicate Enabled(b: Bridge, e: Event) {
    match e
    case AppendLines(lines) => forall i | 0 <= i < |lines| :: NoBreak(lines[i])
    case Connect => b.plane.connected || b.plane.queue.None?
    case PumpStops => !b.plane.connected
    case DisconnectEnd => b.plane.connected || b.plane.pump.Stopped?
    case _ => true
  }

  function Step(b: Bridge, e: Event): Bridge {
    match e
    case AppendLines(lines) => DoAppend(b, lines)
    case SpeakInto(text, maxChars) => DoAppend(b, Chunks(text, SpeakCap(b, maxChars)))
    case Drain => DoDrain(b)
    case Connect =>
      if b.plane.connected then b else b.(plane := Plane(true, Some([]), Idle, b.plane.ledger))
    case PumpTake => b.(plane := Take(b.plane))
    case PumpEnd(ok) =>
      if b.plane.pump.Handling?
      then b.(plane := Finish(b.plane, if ok then HandedOn else FailedInPump, Idle)) else b
    case DisconnectBegin => b.(plane := BeginDisconnect(b.plane))
    case PumpStops => b.(plane := StopPump(b.plane))
    case DisconnectEnd => b.(plane := EndDisconnect(b.plane))
  }

  function Init(cap: int): Bridge {
    Bridge("", 0, cap, 0, Plane(false, None, Stopped, []), [], 0, [])
  }

  predicate Legal(b: Bridge, run: seq<Event>)
    decreases |run|
  {
    run == [] || (Enabled(b, run[0]) && Legal(Step(b, run[0]), run[1..]))
  }

  function Exec(b: Bridge, run: seq<Event>): Bridge
    decreases |run|
  {
    if run == [] then b else Exec(Step(b, run[0]), run[1..])
  }

  // ---- what every run keeps ----

  function OfferTexts(offers: seq<Offer>): seq<string> {
    if offers == [] then [] else [offers[0].text] + OfferTexts(offers[1..])
  }

  function AcceptedTexts(offers: seq<Offer>): seq<string> {
    if offers == [] then []
    else (if offers[0].accepted then [offers[0].text] else []) + AcceptedTexts(offers[1..])
  }

  function LineChunks(lines: seq<string>, cap: int): seq<string> {
    if lines == [] then [] else Chunks(lines[0], cap) + LineChunks(lines[1..], cap)
  }

  /** The file is the lines written; the offset is after the lines drained; their chunks were offered. */
  predicate PipeInv(b: Bridge) {
    && b.out == Lines(b.written)
    && b.drained <= |b.written|
    && b.offset == |Lines(b.written[..b.drained])|
    && (forall i | 0 <= i < |b.written| :: NoBreak(b.written[i]))
    && OfferTexts(b.offers) == LineChunks(b.written[..b.drained], b.cap)
  }

  /** Every accepted chunk is in the ledger, the pump or the queue, in order and once. */
  predicate QueueInv(b: Bridge) {
    && PlaneOk(b.plane)
    && TakenIn(b.plane) == AcceptedTexts(b.offers)
    && b.speakCount == |AcceptedTexts(b.offers)|
  }

  predicate Inv(b: Bridge) {
    PipeInv(b) && QueueInv(b)
  }

  lemma {:induction false} ItemTextsConcat(a: seq<Item>, b: seq<Item>)
    ensures ItemTexts(a + b) == ItemTexts(a) + ItemTexts(b)
    decreases |a|
  {
    if a == [] {
      assert a + b == b;
    } else {
      assert (a + b)[1..] == a[1..] + b;
      ItemTextsConcat(a[1..], b);
    }
  }

  lemma {:induction false} LedgerConcat(a: seq<Entry>, b: seq<Entry>)
    ensures LedgerTexts(a + b) == LedgerTexts(a) + LedgerTexts(b)
    decreases |a|
  {
    if a == [] {
      assert a + b == b;
    } else {
      assert (a + b)[1..] == a[1..] + b;
      LedgerConcat(a[1..], b);
    }
  }

  lemma {:induction false} DiscardTexts(texts: seq<string>)
    ensures LedgerTexts(Discards(texts)) == texts
    decreases |texts|
  {
    if texts != [] {
      DiscardTexts(texts[1..]);
      assert Discards(texts)[1..] == Discards(texts[1..]);
    }
  }

  lemma {:induction false} OfferConcat(a: seq<Offer>, o: Offer)
    ensures OfferTexts(a + [o]) == OfferTexts(a) + [o.text]
    ensures AcceptedTexts(a + [o]) == AcceptedTexts(a) + if o.accepted then [o.text] else []
    decreases |a|
  {
    if a == [] {
      assert a + [o] == [o] && [o][1..] == [];
    } else {
      assert (a + [o])[1..] == a[1..] + [o];
      OfferConcat(a[1..], o);
    }
  }

  lemma Regrouped(a: seq<string>, b: seq<string>, c: seq<string>)
    ensures a + (b + c) == a + b + c
  {
  }

  lemma {:induction false} LineChunksConcat(a: seq<string>, b: seq<string>, cap: int)
    ensures LineChunks(a + b, cap) == LineChunks(a, cap) + LineChunks(b, cap)
    decreases |a|
  {
    if a == [] {
      assert a + b == b;
    } else {
      assert (a + b)[1..] == a[1..] + b;
      LineChunksConcat(a[1..], b, cap);
      Regrouped(Chunks(a[0], cap), LineChunks(a[1..], cap), LineChunks(b, cap));
    }
  }

  lemma OfferedTakesIn(p: Plane, text: string)
    requires PlaneOk(p) && Strip(text) != ""
    ensures var (q, ok) := Offered(p, text);
            PlaneOk(q) && TakenIn(q) == TakenIn(p) + if ok then [text] else []
  {
    if p.queue.Some? {
      ItemTextsConcat(p.queue.value, [Text(text)]);
      assert ItemTexts([Text(text)]) == [text];
    }
  }

  lemma TakeKeeps(p: Plane)
    requires PlaneOk(p)
    ensures PlaneOk(Take(p)) && TakenIn(Take(p)) == TakenIn(p)
  {
  }

  lemma FinishKeeps(p: Plane, fate: Fate, next: Pump)
    requires !next.Handling?
    ensures TakenIn(Finish(p, fate, next)) == TakenIn(p)
  {
    if p.pump.Handling? {
      LedgerConcat(p.ledger, [Entry(p.pump.text, fate)]);
      assert LedgerTexts([Entry(p.pump.text, fate)]) == [p.pump.text];
    }
  }

  lemma BeginDisconnectKeeps(p: Plane)
    requires PlaneOk(p)
    ensures PlaneOk(BeginDisconnect(p)) && TakenIn(BeginDisconnect(p)) == TakenIn(p)
  {
    if p.connected {
      ItemTextsConcat(p.queue.value, [Sentinel]);
      assert ItemTexts([Sentinel]) == [];
    }
  }

  lemma EndDisconnectKeeps(p: Plane)
    requires PlaneOk(p) && (p.connected || p.pump.Stopped?)
    ensures PlaneOk(EndDisconnect(p)) && TakenIn(EndDisconnect(p)) == TakenIn(p)
  {
    if !p.connected && p.queue.Some? {
      LedgerConcat(p.ledger, Discards(QueueTexts(p.queue)));
      DiscardTexts(QueueTexts(p.queue));
    }
  }

  lemma ChunksAreSpoken(text: string, cap: int, i: nat)
    requires i < |Chunks(text, cap)|
    ensures Strip(Chunks(text, cap)[i]) != "" && NoBreak(Chunks(text, cap)[i])
  {
    ChunkShape(text, cap, i);
    NormaliseNormal(Chunks(text, cap)[i]);
  }

  /** Only the plane, the offers and the counter moved, and the offers by these texts. */
  predicate OfferedMore(b: Bridge, b': Bridge, texts: seq<string>) {
    && OfferTexts(b'.offers) == OfferTexts(b.offers) + texts
    && b' == b.(plane := b'.plane, offers := b'.offers, speakCount := b'.speakCount)
  }

  lemma OfferOneKeeps(b: Bridge, chunk: string)
    requires QueueInv(b) && Strip(chunk) != ""
    ensures QueueInv(OfferOne(b, chunk)) && OfferedMore(b, OfferOne(b, chunk), [chunk])
  {
    var (plane, ok) := Offered(b.plane, chunk);
    OfferedTakesIn(b.plane, chunk);
    OfferConcat(b.offers, Offer(chunk, ok));
  }

  lemma OfferedMoreAppends(a: Bridge, b: Bridge, c: Bridge, x: seq<string>, y: seq<string>)
    requires OfferedMore(a, b, x) && OfferedMore(b, c, y)
    ensures OfferedMore(a, c, x + y)
  {
    var base := OfferTexts(a.offers);
    assert base + x + y == base + (x + y);
  }

  lemma {:induction false} OfferChunksKeeps(b: Bridge, chunks: seq<string>)
    requires QueueInv(b)
    requires forall i | 0 <= i < |chunks| :: Strip(chunks[i]) != ""
    ensures QueueInv(OfferChunks(b, chunks)) && OfferedMore(b, OfferChunks(b, chunks), chunks)
    decreases |chunks|
  {
    if chunks == [] {
      assert OfferTexts(b.offers) + chunks == OfferTexts(b.offers);
    } else {
      var mid := OfferOne(b, chunks[0]);
      OfferOneKeeps(b, chunks[0]);
      OfferChunksKeeps(mid, chunks[1..]);
      OfferedMoreCons(b, mid, OfferChunks(mid, chunks[1..]), chunks);
    }
  }

  lemma OfferedMoreCons(a: Bridge, b: Bridge, c: Bridge, texts: seq<string>)
    requires texts != [] && OfferedMore(a, b, [texts[0]]) && OfferedMore(b, c, texts[1..])
    ensures OfferedMore(a, c, texts)
  {
    OfferedMoreAppends(a, b, c, [texts[0]], texts[1..]);
    assert [texts[0]] + texts[1..] == texts;
  }

  /** Chunking a line is chunking what is left of it after stripping. */
  lemma StripThenChunk(line: string, cap: int)
    ensures Chunks(Strip(line), cap) == Chunks(line, cap)
    ensures Strip(line) == "" ==> Chunks(line, cap) == []
  {
    StripTrims(line);
    NormaliseIsJoinedWords(line);
    NormaliseIsJoinedWords(Strip(line));
  }

  lemma OfferLineKeeps(b: Bridge, line: string)
    requires QueueInv(b)
    ensures QueueInv(OfferLine(b, line)) && OfferedMore(b, OfferLine(b, line), Chunks(line, b.cap))
  {
    StripThenChunk(line, b.cap);
    var chunks := Chunks(Strip(line), b.cap);
    forall i | 0 <= i < |chunks| ensures Strip(chunks[i]) != "" { ChunksAreSpoken(Strip(line), b.cap, i); }
    if Strip(line) == "" {
      assert OfferTexts(b.offers) + [] == OfferTexts(b.offers);
    } else {
      OfferChunksKeeps(b, chunks);
    }
  }

  lemma {:induction false} OfferLinesKeeps(b: Bridge, lines: seq<string>)
    requires QueueInv(b)
    ensures QueueInv(OfferLines(b, lines)) && OfferedMore(b, OfferLines(b, lines), LineChunks(lines, b.cap))
    decreases |lines|
  {
    if lines == [] {
      assert OfferTexts(b.offers) + [] == OfferTexts(b.offers);
    } else {
      var mid := OfferLine(b, lines[0]);
      OfferLineKeeps(b, lines[0]);
      OfferLinesKeeps(mid, lines[1..]);
      OfferedMoreAppends(b, mid, OfferLines(mid, lines[1..]), Chunks(lines[0], b.cap), LineChunks(lines[1..], b.cap));
    }
  }

  /** The unread end of the file is the lines not drained yet. */
  lemma UnreadLines(b: Bridge)
    requires PipeInv(b)
    ensures b.offset <= |b.out|
    ensures b.out[b.offset..] == Lines(b.written[b.drained..])
    ensures SplitLines(b.out[b.offset..]) == b.written[b.drained..]
    ensures |b.out| == b.offset ==> b.drained == |b.written|
  {
    var past, newer := b.written[..b.drained], b.written[b.drained..];
    assert b.written == past + newer;
    LinesConcat(past, newer);
    SplitWrittenLines(newer);
  }

  lemma WrittenChunks(b: Bridge)
    requires b.drained <= |b.written|
    ensures LineChunks(b.written[..b.drained], b.cap) + LineChunks(b.written[b.drained..], b.cap)
         == LineChunks(b.written, b.cap)
  {
    assert b.written[..b.drained] + b.written[b.drained..] == b.written;
    LineChunksConcat(b.written[..b.drained], b.written[b.drained..], b.cap);
  }

  lemma DrainedPipe(b: Bridge, after: Bridge)
    requires PipeInv(b)
    requires OfferedMore(b.(offset := |b.out|, drained := |b.written|), after,
                         LineChunks(b.written[b.drained..], b.cap))
    ensures PipeInv(after)
  {
    WrittenChunks(b);
    assert after.written[..after.drained] == b.written;
  }

  lemma DrainKeeps(b: Bridge)
    requires Inv(b)
    ensures Inv(DoDrain(b)) && DoDrain(b).drained == |b.written|
    ensures DoDrain(b).offset == |b.out| && DoDrain(b).written == b.written && DoDrain(b).cap == b.cap
  {
    UnreadLines(b);
    if |b.out| > b.offset {
      var mid := b.(offset := |b.out|, drained := |b.written|);
      var newer := b.written[b.drained..];
      OfferLinesKeeps(mid, newer);
      var after := OfferLines(mid, newer);
      DrainedPipe(b, after);
      assert DoDrain(b) == after;
    }
  }

  lemma AppendKeeps(b: Bridge, lines: seq<string>)
    requires Inv(b) && forall i | 0 <= i < |lines| :: NoBreak(lines[i])
    ensures Inv(DoAppend(b, lines))
  {
    LinesConcat(b.written, lines);
    assert (b.written + lines)[..b.drained] == b.written[..b.drained];
  }

  lemma PlaneStepKeeps(b: Bridge, e: Event)
    requires QueueInv(b) && Enabled(b, e)
    requires e.Connect? || e.PumpTake? || e.PumpEnd? || e.DisconnectBegin? || e.PumpStops? || e.DisconnectEnd?
    ensures QueueInv(Step(b, e)) && Step(b, e) == b.(plane := Step(b, e).plane)
  {
    match e
    case Connect =>
    case PumpTake => TakeKeeps(b.plane);
    case PumpEnd(ok) => FinishKeeps(b.plane, if ok then HandedOn else FailedInPump, Idle);
    case DisconnectBegin => BeginDisconnectKeeps(b.plane);
    case PumpStops => FinishKeeps(b.plane, DiscardedAtDisconnect, Stopped);
    case DisconnectEnd => EndDisconnectKeeps(b.plane);
  }

  lemma StepKeeps(b: Bridge, e: Event)
    requires Inv(b) && Enabled(b, e)
    ensures Inv(Step(b, e)) && Step(b, e).offset >= b.offset && Step(b, e).cap == b.cap
  {
    match e
    case AppendLines(lines) => AppendKeeps(b, lines);
    case SpeakInto(text, maxChars) => SpeakKeeps(b, text, SpeakCap(b, maxChars));
    case Drain =>
      DrainKeeps(b);
      UnreadLines(b);
    case _ => PlaneStepKeeps(b, e);
  }

  lemma SpeakKeeps(b: Bridge, text: string, cap: int)
    requires Inv(b)
    ensures Inv(DoAppend(b, Chunks(text, cap)))
  {
    var chunks := Chunks(text, cap);
    forall i | 0 <= i < |chunks| ensures NoBreak(chunks[i]) { ChunksAreSpoken(text, cap, i); }
    AppendKeeps(b, chunks);
  }

  lemma {:induction false} RunKeeps(b: Bridge, run: seq<Event>)
    requires Inv(b) && Legal(b, run)
    ensures Inv(Exec(b, run)) && Exec(b, run).offset >= b.offset && Exec(b, run).cap == b.cap
    decreases |run|
  {
    if run != [] {
      StepKeeps(b, run[0]);
      RunKeeps(Step(b, run[0]), run[1..]);
    }
  }

  lemma InitOk(cap: int)
    ensures Inv(Init(cap))
  {
    var none: seq<string> := [];
    assert none[..0] == none;
  }

  /** A drain leaves nothing of the file unoffered. */
  lemma DrainOffersAll(b: Bridge)
    requires Inv(b)
    ensures OfferTexts(DoDrain(b).offers) == LineChunks(b.written, b.cap)
  {
    DrainKeeps(b);
    assert b.written[..|b.written|] == b.written;
  }

  /** Exactly once and in order: the chunks offered are those of the lines drained. */
  lemma LinesAreOfferedOnce(cap: int, run: seq<Event>)
    requires Legal(Init(cap), run)
    ensures var b := Exec(Init(cap), run);
            && b.drained <= |b.written|
            && OfferTexts(b.offers) == LineChunks(b.written[..b.drained], cap)
            && OfferTexts(DoDrain(b).offers) == LineChunks(b.written, cap)
  {
    InitOk(cap);
    RunKeeps(Init(cap), run);
    DrainOffersAll(Exec(Init(cap), run));
  }

  /** Conservation: a chunk the plane accepted is handed on, failed, discarded, in the pump or queued; never two. */
  lemma AcceptedChunksAreConserved(cap: int, run: seq<Event>)
    requires Legal(Init(cap), run)
    ensures var b := Exec(Init(cap), run);
            && LedgerTexts(b.plane.ledger) + PumpTexts(b.plane.pump) + QueueTexts(b.plane.queue)
               == AcceptedTexts(b.offers)
            && b.speakCount == |AcceptedTexts(b.offers)|
            && (b.plane.queue.Some? ==> |b.plane.queue.value| <= QUEUE_MAX)
            && (b.plane.queue.None? ==> LedgerTexts(b.plane.ledger) == AcceptedTexts(b.offers))
  {
    InitOk(cap);
    RunKeeps(Init(cap), run);
  }

  /** A chunk is refused exactly when the plane is not connected or its queue is full. */
  lemma RefusedOnlyWhenOffOrFull(cap: int, run: seq<Event>, chunk: string)
    requires Legal(Init(cap), run) && Strip(chunk) != ""
    ensures var b := Exec(Init(cap), run);
            !Offered(b.plane, chunk).1 <==> !b.plane.connected || QUEUE_MAX <= |QueueTexts(b.plane.queue)|
  {
    InitOk(cap);
    RunKeeps(Init(cap), run);
    var p := Exec(Init(cap), run).plane;
    if p.connected { AllTexts(p.queue.value); }
  }

  /** A blank chunk is taken by a connected plane, full or not, and changes nothing. */
  lemma BlankIsTakenForNothing(p: Plane, chunk: string)
    requires PlaneOk(p) && Strip(chunk) == ""
    ensures Offered(p, chunk) == (p, p.connected)
  {
  }

  lemma {:induction false} AllTexts(items: seq<Item>)
    requires forall i | 0 <= i < |items| :: items[i].Text?
    ensures |ItemTexts(items)| == |items|
    decreases |items|
  {
    if items != [] { AllTexts(items[1..]); }
  }
}
