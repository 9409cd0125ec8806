/** What becomes of the chunks the audio plane takes: the pump's work, its end, and the disconnect around it. */
module SpeechPump {
  import opened Options
  import opened SpeechText
  import opened SpeechChunks
  import opened VoicePath

  // ---- the pump left alone ----

  /** It finishes what it has in hand, and then takes and finishes n more. */
  function PumpMoves(n: nat): seq<Event> {
    if n == 0 then [PumpEnd(true)] else [PumpEnd(true), PumpTake] + PumpMoves(n - 1)
  }

  lemma OneMore(b: Bridge, e: Event, run: seq<Event>)
    requires Enabled(b, e) && Legal(Step(b, e), run)
    ensures Legal(b, [e] + run) && Exec(b, [e] + run) == Exec(Step(b, e), run)
  {
    assert ([e] + run)[1..] == run;
  }

  lemma PumpMovesOn(b: Bridge, n: nat)
    requires n > 0 && Legal(Step(Step(b, PumpEnd(true)), PumpTake), PumpMoves(n - 1))
    ensures Legal(b, PumpMoves(n))
    ensures Exec(b, PumpMoves(n)) == Exec(Step(Step(b, PumpEnd(true)), PumpTake), PumpMoves(n - 1))
  {
    OneMore(Step(b, PumpEnd(true)), PumpTake, PumpMoves(n - 1));
    OneMore(b, PumpEnd(true), [PumpTake] + PumpMoves(n - 1));
    assert [PumpEnd(true)] + ([PumpTake] + PumpMoves(n - 1)) == PumpMoves(n);
  }

  lemma PumpEndsOnly(b: Bridge)
    ensures Legal(b, PumpMoves(0)) && Exec(b, PumpMoves(0)) == Step(b, PumpEnd(true))
  {
    OneMore(b, PumpEnd(true), []);
    assert [PumpEnd(true)] + [] == PumpMoves(0);
  }

  /** The plane once what the pump has in hand is handed on. */
  function Finished(p: Plane): Plane {
    if p.pump.Handling? then Finish(p, HandedOn, Idle) else p
  }

  /** The plane those moves lead to. */
  function Pumped(p: Plane, n: nat): Plane
    decreases n
  {
    if n == 0 then Finished(p) else Pumped(Take(Finished(p)), n - 1)
  }

  lemma {:induction false} PumpedIs(b: Bridge, n: nat)
    ensures Legal(b, PumpMoves(n)) && Exec(b, PumpMoves(n)) == b.(plane := Pumped(b.plane, n))
    decreases n
  {
    if n == 0 {
      PumpEndsOnly(b);
    } else {
      PumpedIs(b.(plane := Take(Finished(b.plane))), n - 1);
      PumpMovesOn(b, n);
    }
  }

  /** The first n items of the queue are texts, and the pump is running. */
  predicate Ready(p: Plane, n: nat) {
    && p.queue.Some? && n <= |p.queue.value| && !p.pump.Stopped?
    && forall i | 0 <= i < n :: p.queue.value[i].Text?
  }

  function TextsHandedOn(ledger: seq<Entry>): seq<string> {
    if ledger == [] then []
    else (if ledger[0].fate.HandedOn? then [ledger[0].text] else []) + TextsHandedOn(ledger[1..])
  }

  lemma {:induction false} HandedOnConcat(a: seq<Entry>, b: seq<Entry>)
    ensures TextsHandedOn(a + b) == TextsHandedOn(a) + TextsHandedOn(b)
    decreases |a|
  {
    if a == [] {
      assert a + b == b;
    } else {
      assert (a + b)[1..] == a[1..] + b;
      HandedOnConcat(a[1..], b);
    }
  }

  /** From p to q: the chunk in hand and the first n texts of the queue were handed on, in order, and no more. */
  predicate HandsOn(p: Plane, q: Plane, n: nat)
    requires Ready(p, n)
  {
    && q.queue == Some(p.queue.value[n..]) && q.pump == Idle && q.connected == p.connected
    && TextsHandedOn(q.ledger) == TextsHandedOn(p.ledger) + PumpTexts(p.pump) + ItemTexts(p.queue.value[..n])
    && LedgerTexts(q.ledger) == LedgerTexts(p.ledger) + PumpTexts(p.pump) + ItemTexts(p.queue.value[..n])
  }

  lemma FinishedHandsOn(p: Plane)
    requires Ready(p, 0)
    ensures HandsOn(p, Finished(p), 0)
  {
    var items := p.queue.value;
    assert items[0..] == items && ItemTexts(items[..0]) == [];
    if p.pump.Handling? {
      OneEntry(p.ledger, Entry(p.pump.text, HandedOn));
      LedgerConcat(p.ledger, [Entry(p.pump.text, HandedOn)]);
      assert LedgerTexts([Entry(p.pump.text, HandedOn)]) == [p.pump.text];
    }
  }

  lemma FirstTexts(items: seq<Item>, n: nat)
    requires 0 < n <= |items| && items[0].Text?
    ensures ItemTexts(items[..n]) == [items[0].text] + ItemTexts(items[1..][..n - 1])
    ensures items[1..][n - 1..] == items[n..]
  {
    assert items[..n][1..] == items[1..][..n - 1];
  }

  lemma HandsOnOneMore(p: Plane, mid: Plane, next: Plane, q: Plane, n: nat)
    requires n > 0 && Ready(p, n) && HandsOn(p, mid, 0)
    requires next == Take(mid) && Ready(next, n - 1) && HandsOn(next, q, n - 1)
    ensures HandsOn(p, q, n)
  {
    var items := p.queue.value;
    assert items[0..] == items && ItemTexts(items[..0]) == [];
    FirstTexts(items, n);
    Regrouped(TextsHandedOn(mid.ledger), [items[0].text], ItemTexts(items[1..][..n - 1]));
    Regrouped(LedgerTexts(mid.ledger), [items[0].text], ItemTexts(items[1..][..n - 1]));
  }

  /** Left alone, it hands on what it has and the first n texts of the queue, in order. */
  lemma {:induction false} PumpHandsOn(p: Plane, n: nat)
    requires Ready(p, n)
    ensures HandsOn(p, Pumped(p, n), n)
    decreases n
  {
    FinishedHandsOn(p);
    if n > 0 {
      var mid := Finished(p);
      var next := Take(mid);
      assert p.queue.value[0..] == p.queue.value;
      PumpHandsOn(next, n - 1);
      HandsOnOneMore(p, mid, next, Pumped(next, n - 1), n);
    }
  }

  lemma WholeQueue(items: seq<Item>)
    ensures items[|items|..] == [] && items[..|items|] == items
    ensures (items + [Sentinel])[|items|..] == [Sentinel] && (items + [Sentinel])[..|items|] == items
  {
  }

  /** While connected it so empties the queue, and everything ever accepted is finished. */
  lemma PumpEmptiesTheQueue(b: Bridge)
    requires Inv(b) && b.plane.connected
    ensures Legal(b, PumpMoves(|b.plane.queue.value|))
    ensures var after := Exec(b, PumpMoves(|b.plane.queue.value|));
            && after.plane.queue == Some([]) && after.plane.pump == Idle && after.offers == b.offers
            && LedgerTexts(after.plane.ledger) == AcceptedTexts(b.offers)
            && TextsHandedOn(after.plane.ledger)
               == TextsHandedOn(b.plane.ledger) + PumpTexts(b.plane.pump) + QueueTexts(b.plane.queue)
  {
    WholeQueue(b.plane.queue.value);
    PumpHandsOn(b.plane, |b.plane.queue.value|);
    PumpedIs(b, |b.plane.queue.value|);
  }

  lemma SentinelEnds(p: Plane)
    requires p.queue == Some([Sentinel]) && p.pump == Idle
    ensures Take(p) == p.(queue := Some([]), pump := Stopped)
  {
    assert [Sentinel][1..] == [];
  }

  lemma SentinelIsMet(p: Plane)
    requires PlaneOk(p) && p.connected && |p.queue.value| < QUEUE_MAX
    ensures var end := Take(Pumped(BeginDisconnect(p), |p.queue.value|));
            && end.pump == Stopped && end.queue == Some([]) && !end.connected
            && TextsHandedOn(end.ledger) == TextsHandedOn(p.ledger) + PumpTexts(p.pump) + QueueTexts(p.queue)
  {
    var off, n := BeginDisconnect(p), |p.queue.value|;
    WholeQueue(p.queue.value);
    PumpHandsOn(off, n);
    SentinelEnds(Pumped(off, n));
  }

  /** A disconnect with room for its sentinel: the pump left alone hands on everything, meets it, and stops. */
  lemma SentinelStopsThePump(b: Bridge)
    requires Inv(b) && b.plane.connected && |b.plane.queue.value| < QUEUE_MAX
    ensures var off, n := Step(b, DisconnectBegin), |b.plane.queue.value|;
            && Legal(off, PumpMoves(n))
            && var end := Step(Exec(off, PumpMoves(n)), PumpTake).plane;
               && end.pump == Stopped && end.queue == Some([]) && !end.connected
               && TextsHandedOn(end.ledger)
                  == TextsHandedOn(b.plane.ledger) + PumpTexts(b.plane.pump) + QueueTexts(b.plane.queue)
  {
    PumpedIs(Step(b, DisconnectBegin), |b.plane.queue.value|);
    SentinelIsMet(b.plane);
  }

  // ---- how chunks end ----

  /** Events whose hand-over ended as `ok` says put their chunk down, and nothing else does. */
  function HandOver(b: Bridge, e: Event, ok: bool): seq<string> {
    if e == PumpEnd(ok) then PumpTexts(b.plane.pump) else []
  }

  /** The chunks of a run whose hand-over returned, or raised, as `ok` says. */
  function HandOvers(b: Bridge, run: seq<Event>, ok: bool): seq<string>
    decreases |run|
  {
    if run == [] then []
    else HandOver(b, run[0], ok) + HandOvers(Step(b, run[0]), run[1..], ok)
  }

  function TextsFailed(ledger: seq<Entry>): seq<string> {
    if ledger == [] then []
    else (if ledger[0].fate.FailedInPump? then [ledger[0].text] else []) + TextsFailed(ledger[1..])
  }

  lemma {:induction false} FailedConcat(a: seq<Entry>, b: seq<Entry>)
    ensures TextsFailed(a + b) == TextsFailed(a) + TextsFailed(b)
    decreases |a|
  {
    if a == [] {
      assert a + b == b;
    } else {
      assert (a + b)[1..] == a[1..] + b;
      FailedConcat(a[1..], b);
    }
  }

  lemma {:induction false} DiscardsAreDiscarded(texts: seq<string>)
    ensures TextsHandedOn(Discards(texts)) == [] && TextsFailed(Discards(texts)) == []
    decreases |texts|
  {
    if texts != [] {
      DiscardsAreDiscarded(texts[1..]);
      assert Discards(texts)[1..] == Discards(texts[1..]);
    }
  }

  lemma OneEntry(ledger: seq<Entry>, e: Entry)
    ensures TextsHandedOn(ledger + [e]) == TextsHandedOn(ledger) + if e.fate.HandedOn? then [e.text] else []
    ensures TextsFailed(ledger + [e]) == TextsFailed(ledger) + if e.fate.FailedInPump? then [e.text] else []
  {
    HandedOnConcat(ledger, [e]);
    FailedConcat(ledger, [e]);
    assert [e][1..] == [];
  }

  lemma FinishedFates(p: Plane, fate: Fate, next: Pump)
    ensures TextsHandedOn(Finish(p, fate, next).ledger)
         == TextsHandedOn(p.ledger) + if fate.HandedOn? then PumpTexts(p.pump) else []
    ensures TextsFailed(Finish(p, fate, next).ledger)
         == TextsFailed(p.ledger) + if fate.FailedInPump? then PumpTexts(p.pump) else []
  {
    if p.pump.Handling? { OneEntry(p.ledger, Entry(p.pump.text, fate)); }
  }

  lemma DiscardedFates(p: Plane)
    ensures TextsHandedOn(EndDisconnect(p).ledger) == TextsHandedOn(p.ledger)
    ensures TextsFailed(EndDisconnect(p).ledger) == TextsFailed(p.ledger)
  {
    HandedOnConcat(p.ledger, Discards(QueueTexts(p.queue)));
    FailedConcat(p.ledger, Discards(QueueTexts(p.queue)));
    DiscardsAreDiscarded(QueueTexts(p.queue));
  }

  lemma FatesOfOneStep(b: Bridge, e: Event)
    ensures TextsHandedOn(Step(b, e).plane.ledger) == TextsHandedOn(b.plane.ledger) + HandOver(b, e, true)
    ensures TextsFailed(Step(b, e).plane.ledger) == TextsFailed(b.plane.ledger) + HandOver(b, e, false)
  {
    match e
    case PumpEnd(ok) => FinishedFates(b.plane, if ok then HandedOn else FailedInPump, Idle);
    case PumpStops => FinishedFates(b.plane, DiscardedAtDisconnect, Stopped);
    case DisconnectEnd => DiscardedFates(b.plane);
    case Drain => DrainLeavesTheLedger(b);
    case _ =>
  }

  lemma {:induction false} OffersLeaveTheLedger(b: Bridge, chunks: seq<string>)
    ensures OfferChunks(b, chunks).plane.ledger == b.plane.ledger
    decreases |chunks|
  {
    if chunks != [] { OffersLeaveTheLedger(OfferOne(b, chunks[0]), chunks[1..]); }
  }

  lemma {:induction false} LinesLeaveTheLedger(b: Bridge, lines: seq<string>)
    ensures OfferLines(b, lines).plane.ledger == b.plane.ledger
    decreases |lines|
  {
    if lines != [] {
      OffersLeaveTheLedger(b, Chunks(Strip(lines[0]), b.cap));
      LinesLeaveTheLedger(OfferLine(b, lines[0]), lines[1..]);
    }
  }

  lemma DrainLeavesTheLedger(b: Bridge)
    ensures DoDrain(b).plane.ledger == b.plane.ledger
  {
    if |b.out| > b.offset {
      LinesLeaveTheLedger(b.(offset := |b.out|, drained := |b.written|), SplitLines(b.out[b.offset..]));
    }
  }

  /** Over any run a chunk counts as handed on, or failed, exactly when its hand-over returned, or raised. */
  lemma {:induction false} FatesAreTrue(b: Bridge, run: seq<Event>)
    requires Legal(b, run)
    ensures TextsHandedOn(Exec(b, run).plane.ledger) == TextsHandedOn(b.plane.ledger) + HandOvers(b, run, true)
    ensures TextsFailed(Exec(b, run).plane.ledger) == TextsFailed(b.plane.ledger) + HandOvers(b, run, false)
    decreases |run|
  {
    if run != [] {
      FatesOfOneStep(b, run[0]);
      var b' := Step(b, run[0]);
      FatesAreTrue(b', run[1..]);
      Regrouped(TextsHandedOn(b.plane.ledger), HandOver(b, run[0], true), HandOvers(b', run[1..], true));
      Regrouped(TextsFailed(b.plane.ledger), HandOver(b, run[0], false), HandOvers(b', run[1..], false));
    }
  }

  // ---- connecting and disconnecting ----

  lemma {:induction false} OffersRefusedWhileOff(b: Bridge, chunks: seq<string>)
    requires !b.plane.connected
    ensures var after := OfferChunks(b, chunks);
            after.plane == b.plane && AcceptedTexts(after.offers) == AcceptedTexts(b.offers)
    decreases |chunks|
  {
    if chunks != [] {
      OfferConcat(b.offers, Offer(chunks[0], false));
      OffersRefusedWhileOff(OfferOne(b, chunks[0]), chunks[1..]);
    }
  }

  lemma {:induction false} LinesRefusedWhileOff(b: Bridge, lines: seq<string>)
    requires !b.plane.connected
    ensures var after := OfferLines(b, lines);
            after.plane == b.plane && AcceptedTexts(after.offers) == AcceptedTexts(b.offers)
    decreases |lines|
  {
    if lines != [] {
      OffersRefusedWhileOff(b, Chunks(Strip(lines[0]), b.cap));
      LinesRefusedWhileOff(OfferLine(b, lines[0]), lines[1..]);
    }
  }

  /** From the disconnect's first step until a connect, nothing is accepted. */
  lemma {:induction false} NothingAcceptedWhileOff(b: Bridge, run: seq<Event>)
    requires Inv(b) && Legal(b, run) && !b.plane.connected
    requires forall i | 0 <= i < |run| :: run[i] != Connect
    ensures !Exec(b, run).plane.connected && AcceptedTexts(Exec(b, run).offers) == AcceptedTexts(b.offers)
    decreases |run|
  {
    if run != [] {
      var e := run[0];
      StepKeeps(b, e);
      if e.Drain? {
        if |b.out| > b.offset {
          LinesRefusedWhileOff(b.(offset := |b.out|, drained := |b.written|), SplitLines(b.out[b.offset..]));
        }
      } else {
        assert e != Connect;
      }
      NothingAcceptedWhileOff(Step(b, e), run[1..]);
    }
  }

  /** A disconnect can always go through; it leaves no queue, nothing accepted unfinished, and room to connect again. */
  lemma DisconnectFinishesEverything(b: Bridge)
    requires Inv(b) && b.plane.connected
    ensures Enabled(b, DisconnectBegin)
    ensures var off := Step(b, DisconnectBegin);
            && !off.plane.connected && Enabled(off, PumpStops)
            && var stopped := Step(off, PumpStops);
               && Enabled(stopped, DisconnectEnd)
               && var end := Step(stopped, DisconnectEnd);
                  && end.plane.queue.None? && !end.plane.connected
                  && LedgerTexts(end.plane.ledger) == AcceptedTexts(b.offers)
                  && Enabled(end, Connect)
                  && Step(end, Connect).plane == Plane(true, Some([]), Idle, end.plane.ledger)
  {
    var off := Step(b, DisconnectBegin);
    StepKeeps(b, DisconnectBegin);
    var stopped := Step(off, PumpStops);
    StepKeeps(off, PumpStops);
    StepKeeps(stopped, DisconnectEnd);
  }
}
