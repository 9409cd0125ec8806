/** What reloads do to the configuration and to the degraded flag, over every run of the admission protocol. */
module GpuReloads {
  import opened Options
  import opened GpuProtocol
  import opened GpuMoves
  import opened GpuInvariant
  import opened GpuSafety
  import opened GpuProgress

  // ---- honesty: a server without a model says so ----

  /** The task will clear the configuration unless something stops it from now on. */
  predicate WillClear(s: State, t: nat)
    requires t in s.tasks
  {
    var pc := s.tasks[t].pc;
    || (pc.ReloadWait? && pc.target.None?)
    || (pc.ReloadSwap? && pc.target.None? && s.tasks[t].wait.AtShield?
        && pc.th in s.threads && s.threads[pc.th].phase != Ended(Raised))
  }

  ghost predicate ClearPending(s: State) {
    exists t :: t in s.tasks && WillClear(s, t)
  }

  /** The actions that end in mark_healthy. */
  predicate Heals(s: State, a: Action)
    requires Enabled(s, a)
  {
    match a
    case Read(_, Named(m)) => m in REGISTRY && s.srv.config == Some(m)
    case Resume(t, _) =>
      var pc := s.tasks[t].pc;
      pc.ReloadSwap? && pc.target.Some? && !s.threads[pc.th].phase.outcome.Raised?
    case _ => false
  }

  /** A server without a model says so, now and after the reloads already decided. */
  ghost predicate Honest(s: State) {
    && (s.srv.config.None? ==> s.srv.degraded)
    && (ClearPending(s) ==> s.srv.degraded)
  }

  lemma BystanderClearing(s: State, a: Action, t: nat)
    requires Inv(s) && Enabled(s, a) && t != Actor(s, a) && t in s.tasks
    ensures t in Step(s, a).tasks && (WillClear(Step(s, a), t) <==> WillClear(s, t))
  {
    OthersStay(s, a, t);
    assert TaskOk(s, t);
    if s.tasks[t].pc.ReloadSwap? { NobodyElseOnTheCard(s, a, t); }
  }

  lemma ReadClearingOrigin(s: State, t: nat, reading: Reading)
    requires Enabled(s, Read(t, reading))
    requires t in DoRead(s, t, reading).tasks && WillClear(DoRead(s, t, reading), t)
    ensures DoRead(s, t, reading).srv.degraded
  {
  }

  /** A clearing reload was one before the step, unless the step decided it and degraded the server. */
  lemma ClearingOrigin(s: State, a: Action, t: nat)
    requires Inv(s) && Enabled(s, a)
    requires t in Step(s, a).tasks && WillClear(Step(s, a), t)
    ensures (t in s.tasks && WillClear(s, t)) || (a.Read? && Step(s, a).srv.degraded)
  {
    NextTaskIsFresh(s);
    TaskMoves(s, a, t);
    if t != Actor(s, a) {
      OthersStay(s, a, t);
      BystanderClearing(s, a, t);
    } else if a.Read? {
      ReadClearingOrigin(s, t, a.reading);
    } else {
      SwapClearingOrigin(s, a, t);
    }
  }

  lemma SwapClearingOrigin(s: State, a: Action, t: nat)
    requires Inv(s) && Enabled(s, a) && !a.Read? && t in s.tasks && t == Actor(s, a)
    requires Moved(s, Step(s, a), t)
    requires t in Step(s, a).tasks && WillClear(Step(s, a), t)
    ensures WillClear(s, t)
  {
    assert TaskOk(s, t);
    if s.tasks[t].pc.ReloadSwap? {
      if a.Work? { assert ThreadOk(s, a.th); }
      StepKeepsInv(s, a);
    }
  }

  lemma DegradedStays(s: State, a: Action)
    requires Inv(s) && Enabled(s, a) && !Heals(s, a)
    ensures s.srv.degraded ==> Step(s, a).srv.degraded
    ensures s.srv.config.Some? && Step(s, a).srv.config.None? ==> a.Resume? && WillClear(s, a.t)
  {
    match a
    case Resume(t, gate) => ResumeDegradedStays(s, t, gate);
    case _ =>
  }

  lemma ResumeDegradedStays(s: State, t: nat, gate: Gate)
    requires Enabled(s, Resume(t, gate)) && !Heals(s, Resume(t, gate))
    ensures s.srv.degraded ==> DoResume(s, t, gate).srv.degraded
    ensures s.srv.config.Some? && DoResume(s, t, gate).srv.config.None? ==> WillClear(s, t)
  {
  }

  lemma HealedHasModel(s: State, a: Action)
    requires Enabled(s, a) && Heals(s, a)
    ensures !Step(s, a).srv.degraded && Step(s, a).srv.config.Some?
    ensures Actor(s, a) in s.tasks && !WillClear(s, Actor(s, a)) && Actor(s, a) !in Step(s, a).tasks
  {
  }

  /** A healing step leaves the clearing reloads that were pending before it, and no others. */
  lemma HealingLeavesPending(s: State, a: Action)
    requires Inv(s) && Enabled(s, a) && Heals(s, a)
    ensures ClearPending(Step(s, a)) <==> ClearPending(s)
  {
    var s' := Step(s, a);
    HealedHasModel(s, a);
    if ClearPending(s') {
      var t :| t in s'.tasks && WillClear(s', t);
      ClearingOrigin(s, a, t);
    }
    if ClearPending(s) {
      var t :| t in s.tasks && WillClear(s, t);
      BystanderClearing(s, a, t);
    }
  }

  /** Honesty is kept by a step unless, and only unless, it heals while a clearing reload is pending. */
  lemma HonestStep(s: State, a: Action)
    requires Inv(s) && Enabled(s, a) && Honest(s)
    ensures Honest(Step(s, a)) <==> !(Heals(s, a) && ClearPending(s))
  {
    if Heals(s, a) {
      HealedHasModel(s, a);
      HealingLeavesPending(s, a);
    } else {
      DegradedStays(s, a);
      var s' := Step(s, a);
      if ClearPending(s') {
        var t :| t in s'.tasks && WillClear(s', t);
        ClearingOrigin(s, a, t);
      }
    }
  }

  ghost predicate Disciplined(s: State, run: seq<Action>)
    requires Legal(s, run)
    decreases |run|
  {
    run == [] || (!(Heals(s, run[0]) && ClearPending(s)) && Disciplined(Step(s, run[0]), run[1..]))
  }

  lemma {:induction false} DisciplinedRunIsHonest(s: State, run: seq<Action>)
    requires Inv(s) && Honest(s) && Legal(s, run)
    ensures Disciplined(s, run) ==> Honest(Exec(s, run))
    decreases |run|
  {
    if run != [] {
      HonestStep(s, run[0]);
      StepKeepsInv(s, run[0]);
      if Honest(Step(s, run[0])) {
        DisciplinedRunIsHonest(Step(s, run[0]), run[1..]);
      }
    }
  }

  // ---- honesty is the right condition ----

  predicate HealFree(s: State, run: seq<Action>)
    requires Legal(s, run)
    decreases |run|
  {
    run == [] || (!Heals(s, run[0]) && HealFree(Step(s, run[0]), run[1..]))
  }

  lemma {:induction false} HealFreeIsDisciplined(s: State, run: seq<Action>)
    requires Legal(s, run) && HealFree(s, run)
    ensures Disciplined(s, run)
    decreases |run|
  {
    if run != [] { HealFreeIsDisciplined(Step(s, run[0]), run[1..]); }
  }

  /** The run ends without a model and with the degraded flag as it was. */
  predicate EndsCleared(s: State, run: seq<Action>) {
    && Legal(s, run) && HealFree(s, run)
    && Exec(s, run).srv.config.None? && Exec(s, run).srv.degraded == s.srv.degraded
  }

  lemma Prepend(s: State, a: Action, rest: seq<Action>)
    requires Enabled(s, a) && !Heals(s, a) && Step(s, a).srv.degraded == s.srv.degraded
    requires EndsCleared(Step(s, a), rest)
    ensures EndsCleared(s, [a] + rest)
  {
    assert ([a] + rest)[1..] == rest;
  }

  lemma ResumeClears(s: State, t: nat) returns (run: seq<Action>)
    requires Inv(s) && !s.exited && t in s.tasks && WillClear(s, t)
    requires s.tasks[t].pc.ReloadSwap? && !Running(s.threads[s.tasks[t].pc.th])
    ensures EndsCleared(s, run)
  {
    assert TaskOk(s, t);
    var a := Resume(t, Gate(false, 0));
    run := [a];
    assert run[1..] == [];
  }

  /** A clearing reload that holds the lock can finish. */
  lemma SwapClears(s: State, t: nat) returns (run: seq<Action>)
    requires Inv(s) && !s.exited && t in s.tasks && WillClear(s, t) && s.tasks[t].pc.ReloadSwap?
    ensures EndsCleared(s, run)
  {
    var th := s.tasks[t].pc.th;
    assert TaskOk(s, t);
    if Running(s.threads[th]) {
      StepKeepsInv(s, Work(th, true));
      var rest := ResumeClears(Step(s, Work(th, true)), t);
      Prepend(s, Work(th, true), rest);
      run := [Work(th, true)] + rest;
    } else {
      run := ResumeClears(s, t);
    }
  }

  /** How the holder of the lock is made to leave: let its thread end, then cancel it. */
  function Eviction(s: State, h: nat): Action
    requires h in s.tasks
  {
    if AwaitsThread(s, h) && Running(s.threads[s.tasks[h].pc.th]) then Work(s.tasks[h].pc.th, true) else Cancel(h)
  }

  function HolderThreadDebt(s: State): nat {
    if s.srv.owner.Some? && s.srv.owner.value in s.tasks
    then 1 + ThreadDebt(s, s.tasks[s.srv.owner.value].pc) else 0
  }

  lemma EvictionStep(s: State, h: nat)
    requires Inv(s) && !s.exited && s.srv.owner == Some(h) && h in s.tasks
    ensures Enabled(s, Eviction(s, h)) && !Heals(s, Eviction(s, h)) && Actor(s, Eviction(s, h)) == h
    ensures var s' := Step(s, Eviction(s, h));
            && s'.srv.degraded == s.srv.degraded && !s'.exited
            && HolderThreadDebt(s') < HolderThreadDebt(s)
  {
    assert TaskOk(s, h);
    if Eviction(s, h).Work? { assert ThreadOk(s, s.tasks[h].pc.th); }
  }

  /** A pending clearing reload can go through, whoever holds the lock now, with nothing healed on the way. */
  lemma {:induction false} ClearingGoesThrough(s: State, t: nat) returns (run: seq<Action>)
    requires Inv(s) && !s.exited && t in s.tasks && WillClear(s, t)
    ensures EndsCleared(s, run)
    decreases HolderThreadDebt(s)
  {
    assert TaskOk(s, t);
    var a := Acquire(t, false);
    if s.tasks[t].pc.ReloadSwap? {
      run := SwapClears(s, t);
    } else if s.srv.owner.None? {
      StepKeepsInv(s, a);
      var rest := SwapClears(Step(s, a), t);
      Prepend(s, a, rest);
      run := [a] + rest;
    } else {
      var h := s.srv.owner.value;
      EvictionStep(s, h);
      StepKeepsInv(s, Eviction(s, h));
      BystanderClearing(s, Eviction(s, h), t);
      var rest := ClearingGoesThrough(Step(s, Eviction(s, h)), t);
      Prepend(s, Eviction(s, h), rest);
      run := [Eviction(s, h)] + rest;
    }
  }

  ghost predicate SafeWithoutHeals(s: State) {
    forall run | Legal(s, run) && HealFree(s, run) ::
      Exec(s, run).srv.config.None? ==> Exec(s, run).srv.degraded
  }

  /** Honest states are exactly those from which no run without a heal ends healthy and without a model. */
  lemma HonestIsExact(s: State)
    requires Reachable(s) && !s.exited
    ensures Honest(s) <==> SafeWithoutHeals(s)
  {
    ReachableInv(s);
    if Honest(s) {
      forall run | Legal(s, run) && HealFree(s, run)
        ensures Exec(s, run).srv.config.None? ==> Exec(s, run).srv.degraded
      {
        HealFreeIsDisciplined(s, run);
        DisciplinedRunIsHonest(s, run);
      }
    } else {
      UnsafeUnlessHonest(s);
    }
  }

  lemma UnsafeUnlessHonest(s: State)
    requires Inv(s) && !s.exited && !Honest(s)
    ensures !SafeWithoutHeals(s)
  {
    if s.srv.config.None? {
      var none: seq<Action> := [];
      assert Exec(s, none) == s;
    } else {
      var t :| t in s.tasks && WillClear(s, t);
      var run := ClearingGoesThrough(s, t);
      assert !(Exec(s, run).srv.config.None? ==> Exec(s, run).srv.degraded);
    }
  }

  // ---- the failing case ----

  lemma {:induction false} Snoc(s: State, run: seq<Action>, a: Action)
    requires Legal(s, run) && Enabled(Exec(s, run), a)
    ensures Legal(s, run + [a]) && Exec(s, run + [a]) == Step(Exec(s, run), a)
    decreases |run|
  {
    if run == [] {
      assert run + [a] == [a] && [a][1..] == [];
    } else {
      assert (run + [a])[1..] == run[1..] + [a];
      Snoc(Step(s, run[0]), run[1..], a);
    }
  }

  /** One reload reads the setting as gone and starts its swap; another then reads it as before. */
  const RACE_START := State(Server(None, Some("sdxl_base"), 0, false, None), map[], map[], 0, 0, false)

  const RACE_READS := [ArriveReload, ArriveReload, Read(0, Unset), Acquire(0, false), Read(1, Named("sdxl_base"))]

  const RACE_SWAP := [Work(0, true), Resume(0, Gate(false, 0))]

  const RACE_MIDDLE := State(Server(None, Some("sdxl_base"), 0, false, Some(0)),
                             map[0 := Task(ReloadSwap(0, None), AtShield)], map[0 := Thread(0, Unloading)], 2, 1, false)

  lemma RaceReads()
    ensures Init(RACE_START) && Legal(RACE_START, RACE_READS) && Exec(RACE_START, RACE_READS) == RACE_MIDDLE
  {
    var s, run: seq<Action> := RACE_START, [];
    Snoc(s, run, ArriveReload);
    Snoc(s, run + [ArriveReload], ArriveReload);
    run := run + [ArriveReload] + [ArriveReload];
    Snoc(s, run, Read(0, Unset));
    Snoc(s, run + [Read(0, Unset)], Acquire(0, false));
    run := run + [Read(0, Unset)] + [Acquire(0, false)];
    Snoc(s, run, Read(1, Named("sdxl_base")));
    assert run + [Read(1, Named("sdxl_base"))] == RACE_READS;
  }

  lemma RaceSwap(s0: State, run: seq<Action>)
    requires Legal(s0, run) && Exec(s0, run) == RACE_MIDDLE
    ensures Legal(s0, run + RACE_SWAP)
    ensures var s := Exec(s0, run + RACE_SWAP); s.srv.config.None? && !s.srv.degraded && s.tasks == map[]
  {
    Snoc(s0, run, Work(0, true));
    Snoc(s0, run + [Work(0, true)], Resume(0, Gate(false, 0)));
    assert run + [Work(0, true)] + [Resume(0, Gate(false, 0))] == run + RACE_SWAP;
  }

  /** So a server can be healthy, idle and without a model. */
  lemma HealthyWithoutAModel()
    ensures Init(RACE_START) && Legal(RACE_START, RACE_READS + RACE_SWAP)
    ensures var s := Exec(RACE_START, RACE_READS + RACE_SWAP);
            s.srv.config.None? && !s.srv.degraded && s.tasks == map[]
  {
    RaceReads();
    RaceSwap(RACE_START, RACE_READS);
  }

  // ---- an outage of the database ----

  /** Reads fail or give the model already configured; everything else may happen. */
  predicate OutageAction(m: Model, a: Action) {
    a.Read? ==> a.reading.Unreadable? || a.reading == Named(m)
  }

  predicate Swapping(pc: Pc) {
    pc.ReloadWait? || pc.ReloadSwap?
  }

  ghost predicate NoSwap(s: State) {
    forall t | t in s.tasks :: !Swapping(s.tasks[t].pc)
  }

  lemma OutageReadEnds(s: State, t: nat, reading: Reading, m: Model)
    requires Enabled(s, Read(t, reading)) && m in REGISTRY && s.srv.config == Some(m)
    requires reading.Unreadable? || reading == Named(m)
    ensures t !in DoRead(s, t, reading).tasks && (DoRead(s, t, reading).srv.degraded <==> reading.Unreadable?)
  {
  }

  lemma ConfigChangesInSwaps(s: State, a: Action)
    requires Enabled(s, a)
    ensures Step(s, a).srv.config == s.srv.config || (a.Resume? && Swapping(s.tasks[a.t].pc))
  {
    match a
    case Resume(t, gate) => ResumeConfigChanges(s, t, gate);
    case _ =>
  }

  lemma ResumeConfigChanges(s: State, t: nat, gate: Gate)
    requires Enabled(s, Resume(t, gate))
    ensures DoResume(s, t, gate).srv.config == s.srv.config || Swapping(s.tasks[t].pc)
  {
  }

  lemma OutageStep(s: State, a: Action, m: Model)
    requires Inv(s) && Enabled(s, a) && m in REGISTRY && s.srv.config == Some(m) && NoSwap(s) && OutageAction(m, a)
    ensures Step(s, a).srv.config == Some(m) && NoSwap(Step(s, a))
    ensures a.Read? ==> (Step(s, a).srv.degraded <==> a.reading.Unreadable?)
  {
    ConfigChangesInSwaps(s, a);
    NextTaskIsFresh(s);
    if a.Read? { OutageReadEnds(s, a.t, a.reading, m); }
    forall t | t in Step(s, a).tasks ensures !Swapping(Step(s, a).tasks[t].pc) {
      TaskMoves(s, a, t);
      if t != Actor(s, a) { OthersStay(s, a, t); } else { ReadersMoveByRead(s, a); }
    }
  }

  lemma ReadersMoveByRead(s: State, a: Action)
    requires Enabled(s, a) && s.nextTask !in s.tasks
    ensures var t := Actor(s, a);
            t in s.tasks && s.tasks[t].pc.ReloadRead? && t in Step(s, a).tasks ==>
              a.Read? || Step(s, a).tasks[t].pc.ReloadRead?
  {
  }

  /** Through an outage, with requests, unloads, idle ticks, failing loads and cancels in any order, the model
      stays configured, no reload touches the card, and each read degrades the server or heals it, at once. */
  lemma {:induction false} OutageKeepsModel(s: State, run: seq<Action>, m: Model)
    requires Inv(s) && Legal(s, run) && m in REGISTRY && s.srv.config == Some(m) && NoSwap(s)
    requires forall i | 0 <= i < |run| :: OutageAction(m, run[i])
    ensures var s' := Exec(s, run);
            && s'.srv.config == Some(m) && (s'.srv.pipeline.None? || s'.srv.pipeline == Some(m)) && NoSwap(s')
            && (run != [] && run[|run| - 1].Read? ==> (s'.srv.degraded <==> run[|run| - 1].reading.Unreadable?))
    decreases |run|
  {
    if run != [] {
      assert OutageAction(m, run[0]);
      assert run[1..] != [] ==> run[1..][|run[1..]| - 1] == run[|run| - 1];
      OutageStep(s, run[0], m);
      StepKeepsInv(s, run[0]);
      OutageKeepsModel(Step(s, run[0]), run[1..], m);
    }
  }

  /** While no reload swaps, loaded weights go only by an unload that was asked for, or an idle one. */
  lemma OnlyUnloadsDropWeights(s: State, a: Action)
    requires Inv(s) && Enabled(s, a) && NoSwap(s)
    requires s.srv.pipeline.Some? && Step(s, a).srv.pipeline != s.srv.pipeline
    ensures a.Work? && s.threads[a.th].task in s.tasks && Reclaims(s.tasks[s.threads[a.th].task].pc)
  {
    OnlyThreadsTouchWeights(s, a);
    assert ThreadOk(s, a.th) && TaskOk(s, s.threads[a.th].task);
  }

  // ---- a reload that reads no known model ----

  predicate Definite(reading: Reading) {
    reading.Unset? || (reading.Named? && reading.name !in REGISTRY)
  }

  /** A setting that is gone, or names no known model, degrades the server at once and is to clear the model. */
  lemma BadSettingDegrades(s: State, r: nat, reading: Reading)
    requires Enabled(s, Read(r, reading)) && Definite(reading)
    ensures var s' := Step(s, Read(r, reading));
            && s'.srv == s.srv.(degraded := true)
            && r in s'.tasks && s'.tasks[r] == Task(ReloadWait(None), AtShield) && WillClear(s', r)
  {
  }

  /** Across any step, a clearing reload nobody cancels, whose unload returns, stays one, or ends with no model left. */
  lemma ClearingIsProgress(s: State, a: Action, r: nat)
    requires Inv(s) && Enabled(s, a) && r in s.tasks && WillClear(s, r) && GoodStep(s, a, r)
    ensures if r in Step(s, a).tasks then WillClear(Step(s, a), r)
            else Step(s, a).srv.config.None? && Step(s, a).srv.pipeline.None?
  {
    if r != Actor(s, a) {
      BystanderClearing(s, a, r);
    } else {
      OwnClearingStep(s, a, r);
    }
  }

  lemma OwnClearingStep(s: State, a: Action, r: nat)
    requires Inv(s) && Enabled(s, a) && r in s.tasks && WillClear(s, r) && GoodStep(s, a, r) && r == Actor(s, a)
    ensures if r in Step(s, a).tasks then WillClear(Step(s, a), r)
            else Step(s, a).srv.config.None? && Step(s, a).srv.pipeline.None?
  {
    assert TaskOk(s, r);
    NextTaskIsFresh(s);
    match a
    case Work(th, _) => assert ThreadOk(s, th);
    case _ =>
  }

  // ---- a reload that reads a known model ----

  /** Nothing goes wrong for the reload r: its read gives a known model, its unload returns, nobody cancels it. */
  predicate GoodStep(s: State, a: Action, r: nat) {
    match a
    case Read(t, reading) => t == r ==> reading.Named? && reading.name in REGISTRY
    case Work(th, ok) => th in s.threads && s.threads[th].task == r ==> ok
    case Cancel(t) => t != r
    case _ => true
  }

  /** The reload r is on its way to a known model. */
  predicate OnItsWay(s: State, r: nat) {
    && r in s.tasks && s.tasks[r].wait.AtShield?
    && match s.tasks[r].pc
       case ReloadRead => true
       case ReloadWait(target) => target.Some? && target.value in REGISTRY
       case ReloadSwap(th, target) =>
         target.Some? && target.value in REGISTRY && th in s.threads && s.threads[th].phase != Ended(Raised)
       case _ => false
  }

  predicate Served(s: State) {
    !s.srv.degraded && s.srv.config.Some? && s.srv.config.value in REGISTRY
  }

  /** Any step keeps it on its way, or is its last and leaves the server healthy with a known model. */
  lemma GoodStepIsProgress(s: State, a: Action, r: nat)
    requires Inv(s) && Enabled(s, a) && OnItsWay(s, r) && GoodStep(s, a, r)
    ensures if r in Step(s, a).tasks then OnItsWay(Step(s, a), r) else Served(Step(s, a))
    ensures r !in Step(s, a).tasks ==> Actor(s, a) == r
  {
    assert TaskOk(s, r);
    if r != Actor(s, a) {
      OthersStay(s, a, r);
      if s.tasks[r].pc.ReloadSwap? { NobodyElseOnTheCard(s, a, r); }
    } else {
      OwnGoodStep(s, a, r);
    }
  }

  lemma OwnGoodStep(s: State, a: Action, r: nat)
    requires Inv(s) && Enabled(s, a) && OnItsWay(s, r) && GoodStep(s, a, r) && r == Actor(s, a)
    ensures if r in Step(s, a).tasks then OnItsWay(Step(s, a), r) else Served(Step(s, a))
  {
    assert TaskOk(s, r);
    NextTaskIsFresh(s);
    match a
    case Work(th, _) => assert ThreadOk(s, th);
    case _ =>
  }
}
