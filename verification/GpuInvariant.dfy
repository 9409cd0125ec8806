/**
 What every step of the admission protocol keeps: one thread, awaited by the lock's
 owner; weights, configuration and program points in agreement; the counter exact.
 */
module GpuInvariant {
  import opened Options
  import opened GpuProtocol
  import opened GpuMoves

  // ---- the invariant ----

  predicate Loading(phase: Phase) {
    phase.LoadStart? || phase.LoadCheck? || phase.LoadPick? || phase.LoadBuild? || phase.LoadReturn?
  }

  /** The phases a thread can be in, given the program point of the task awaiting it. */
  predicate PhaseFits(pc: Pc, phase: Phase) {
    match pc
    case GenLoad(_) => Loading(phase) || (phase.Ended? && !phase.outcome.Done?)
    case GenRender(_, pipe, conv, _, _, _) =>
      phase == Rendering(pipe, TakesNegativePrompt(conv)) || phase == Ended(Done) || phase == Ended(Raised)
    case _ => phase.Unloading? || phase == Ended(Done) || phase == Ended(Raised)
  }

  /** What a thread's phase says about the loaded weights and the configuration. */
  predicate PhaseAgrees(srv: Server, phase: Phase) {
    match phase
    case LoadCheck => srv.pipeline.None?
    case LoadPick => srv.config.Some? && srv.pipeline.None?
    case LoadBuild(m) => srv.config == Some(m) && srv.pipeline.None?
    case LoadReturn => srv.pipeline.Some?
    case Ended(Loaded(pipe)) => pipe.Some? && srv.pipeline == pipe
    case Rendering(pipe, negative) => srv.pipeline == Some(pipe) && negative == TakesNegativePrompt(pipe)
    case _ => true
  }

  predicate PcAgrees(srv: Server, pc: Pc) {
    match pc
    case GenRender(_, pipe, conv, _, _, _) => pipe == conv && srv.pipeline == Some(pipe)
    case GenScore(pipe, conv, _, _) => pipe == conv && srv.pipeline == Some(pipe)
    case _ => true
  }

  /** A task is in the lock's block exactly when it owns the lock, and its thread is there. */
  predicate TaskOk(s: State, t: nat)
    requires t in s.tasks
  {
    var pc := s.tasks[t].pc;
    && t < s.nextTask
    && (Holds(pc) <==> s.srv.owner == Some(t))
    && (s.tasks[t].wait.AtDrain? ==> Awaits(pc))
    && PcAgrees(s.srv, pc)
    && (Awaits(pc) ==>
          && pc.th in s.threads
          && s.threads[pc.th].task == t
          && PhaseFits(pc, s.threads[pc.th].phase)
          && (s.threads[pc.th].phase.Ended? && Drops(pc) ==> s.srv.pipeline.None?))
  }

  /** A thread is awaited by the task that started it, until it has ended and been noticed. */
  predicate ThreadOk(s: State, th: nat)
    requires th in s.threads
  {
    var t := s.threads[th].task;
    && th < s.nextThread
    && t in s.tasks && Awaits(s.tasks[t].pc) && s.tasks[t].pc.th == th
    && PhaseAgrees(s.srv, s.threads[th].phase)
  }

  ghost predicate Inv(s: State) {
    && (forall t | t in s.tasks :: TaskOk(s, t))
    && (forall th | th in s.threads :: ThreadOk(s, th))
    && (s.srv.owner.Some? ==> s.srv.owner.value in s.tasks)
    && (s.srv.pipeline.Some? ==> s.srv.config == s.srv.pipeline)
    && s.srv.inflight == |InflightTasks(s.tasks)|
    && (s.exited ==> s.srv.inflight == 0 && s.threads == map[])
  }

  // ---- the invariant is kept ----

  function Counted(s: State, t: nat): int {
    if t in s.tasks && InGenerate(s.tasks[t].pc) then 1 else 0
  }

  /** Changing one task moves the count by that task alone. */
  lemma CountOne(s: State, s': State, t: nat)
    requires s'.tasks - {t} == s.tasks - {t}
    ensures |InflightTasks(s'.tasks)| - |InflightTasks(s.tasks)| == Counted(s', t) - Counted(s, t)
  {
    var a, b := InflightTasks(s.tasks), InflightTasks(s'.tasks);
    assert a - {t} == InflightTasks(s.tasks - {t}) == InflightTasks(s'.tasks - {t}) == b - {t};
    assert t in a <==> Counted(s, t) == 1;
    assert t in b <==> Counted(s', t) == 1;
    if t in a { assert a == (a - {t}) + {t}; } else { assert a == a - {t}; }
    if t in b { assert b == (b - {t}) + {t}; } else { assert b == b - {t}; }
  }

  /** The only thread there can be is the one the lock's owner awaits. */
  lemma OnlyOwnersThread(s: State, th: nat)
    requires Inv(s) && th in s.threads
    ensures s.srv.owner == Some(s.threads[th].task)
    ensures s.threads.Keys == {th}
  {
    assert ThreadOk(s, th) && TaskOk(s, s.threads[th].task);
    forall x | x in s.threads ensures x == th {
      assert ThreadOk(s, x) && TaskOk(s, s.threads[x].task);
    }
  }

  lemma NoThread(s: State)
    requires Inv(s)
    requires s.srv.owner.Some? ==> !Awaits(s.tasks[s.srv.owner.value].pc)
    ensures s.threads == map[]
  {
    forall th | th in s.threads ensures false {
      OnlyOwnersThread(s, th);
    }
  }

  /** A step of the task that owns the lock, takes it, or gives it back. */
  lemma OwnerStep(s: State, s': State, t: nat)
    requires Inv(s) && t in s.tasks
    requires s.srv.owner.None? || s.srv.owner == Some(t)
    requires s'.tasks - {t} == s.tasks - {t} && s'.nextTask == s.nextTask
    requires t in s'.tasks ==> TaskOk(s', t)
    requires s'.srv.owner == if t in s'.tasks && Holds(s'.tasks[t].pc) then Some(t) else None
    requires forall th | th in s'.threads :: ThreadOk(s', th)
    requires s'.srv.pipeline.Some? ==> s'.srv.config == s'.srv.pipeline
    requires s'.srv.inflight - s.srv.inflight == Counted(s', t) - Counted(s, t)
    requires s'.exited ==> s'.srv.inflight == 0 && s'.threads == map[]
    ensures Inv(s')
  {
    CountOne(s, s', t);
    forall x | x in s'.tasks && x != t ensures TaskOk(s', x) {
      assert x in s.tasks - {t} && x in s'.tasks - {t};
      assert s'.tasks[x] == (s'.tasks - {t})[x] == (s.tasks - {t})[x] == s.tasks[x];
      assert TaskOk(s, x);
    }
  }

  /** A step of a task that is outside the lock before and after. */
  lemma BystanderStep(s: State, s': State, t: nat)
    requires Inv(s)
    requires s'.tasks - {t} == s.tasks - {t}
    requires t in s.tasks ==> !Holds(s.tasks[t].pc)
    requires t in s'.tasks ==> !Holds(s'.tasks[t].pc) && s'.tasks[t].wait.AtShield? && t < s'.nextTask
    requires t in s.tasks || t == s.nextTask
    requires s.nextTask <= s'.nextTask && s'.threads == s.threads && s'.nextThread == s.nextThread
    requires s'.srv.owner == s.srv.owner
    requires s'.srv.pipeline == s.srv.pipeline && s'.srv.config == s.srv.config
    requires s'.srv.inflight - s.srv.inflight == Counted(s', t) - Counted(s, t)
    requires !s'.exited
    ensures Inv(s')
  {
    CountOne(s, s', t);
    forall x | x in s.tasks && x != t ensures x in s'.tasks && s'.tasks[x] == s.tasks[x] {
      assert x in s.tasks - {t};
      assert s'.tasks[x] == (s'.tasks - {t})[x] == (s.tasks - {t})[x];
    }
    forall x | x in s'.tasks ensures TaskOk(s', x) {
      if x != t {
        assert x in s'.tasks - {t};
        assert TaskOk(s, x);
      } else if x in s.tasks {
        assert TaskOk(s, x);
      }
    }
    forall th | th in s'.threads ensures ThreadOk(s', th) {
      assert ThreadOk(s, th);
    }
    if s.srv.owner.Some? { assert TaskOk(s, s.srv.owner.value); }
  }

  lemma AbandonKeepsInv(s: State, t: nat)
    requires Inv(s) && !s.exited && t in s.tasks && !Awaits(s.tasks[t].pc)
    ensures Inv(Abandon(s, t))
  {
    var s' := Abandon(s, t);
    assert s'.tasks - {t} == s.tasks - {t};
    assert TaskOk(s, t);
    if Holds(s.tasks[t].pc) {
      NoThread(s);
      OwnerStep(s, s', t);
    } else {
      BystanderStep(s, s', t);
    }
  }

  /** Taking the free lock and starting a thread under it. */
  function Take(s: State, t: nat, phase: Phase, pc: Pc): State
    requires t in s.tasks
  {
    Goto(Spawn(s.(srv := s.srv.(owner := Some(t))), t, phase), t, pc)
  }

  lemma TakeKeepsInv(s: State, t: nat, phase: Phase, pc: Pc)
    requires Inv(s) && !s.exited && s.srv.owner.None? && t in s.tasks
    requires Awaits(pc) && !pc.GenRender? && pc.th == s.nextThread && PhaseFits(pc, phase)
    requires phase.LoadStart? || phase.Unloading?
    requires InGenerate(pc) <==> InGenerate(s.tasks[t].pc)
    ensures Inv(Take(s, t, phase, pc))
  {
    NoThread(s);
    assert TaskOk(s, t);
    var s' := Take(s, t, phase, pc);
    assert s'.tasks - {t} == s.tasks - {t};
    OwnerStep(s, s', t);
  }

  lemma AcquireKeepsInv(s: State, t: nat, timedOut: bool)
    requires Inv(s) && Enabled(s, Acquire(t, timedOut))
    ensures Inv(DoAcquire(s, t, timedOut))
  {
    var th := s.nextThread;
    match s.tasks[t].pc
    case GenWait => TakeKeepsInv(s, t, LoadStart, GenLoad(th));
    case ReloadWait(target) => TakeKeepsInv(s, t, Unloading, ReloadSwap(th, target));
    case UnloadWait(hard) =>
      if s.srv.inflight > 0 || (!hard && s.srv.pipeline.None?) { AbandonKeepsInv(s, t); }
      else { TakeKeepsInv(s, t, Unloading, if hard then HardDrop(th) else SoftDrop(th)); }
    case IdleWait =>
      if IdleDue(s.srv, timedOut) { TakeKeepsInv(s, t, Unloading, IdleDrop(th)); } else { AbandonKeepsInv(s, t); }
  }

  lemma WorkLeavesTasks(s: State, th: nat, ok: bool)
    requires Enabled(s, Work(th, ok))
    ensures var s' := DoWork(s, th, ok);
            && s'.tasks == s.tasks && s'.nextTask == s.nextTask && s'.nextThread == s.nextThread
            && s'.srv.owner == s.srv.owner && s'.srv.inflight == s.srv.inflight && s'.srv.config == s.srv.config
            && s'.exited == s.exited && s'.threads.Keys == s.threads.Keys
            && s'.threads[th].task == s.threads[th].task
  {
  }

  lemma WorkKeepsInv(s: State, th: nat, ok: bool)
    requires Inv(s) && Enabled(s, Work(th, ok))
    ensures Inv(DoWork(s, th, ok))
  {
    OnlyOwnersThread(s, th);
    var t := s.threads[th].task;
    assert ThreadOk(s, th) && TaskOk(s, t);
    WorkLeavesTasks(s, th, ok);
    OwnerStep(s, DoWork(s, th, ok), t);
  }

  lemma StartRenderKeepsInv(s: State, r: State, t: nat, m: Model, first: bool, gated: bool, left: nat)
    requires Inv(s) && !s.exited && t in s.tasks && s.srv.owner == Some(t) && InGenerate(s.tasks[t].pc)
    requires r == s.(threads := map[]) && s.srv.pipeline == Some(m)
    ensures Inv(StartRender(r, t, m, m, first, gated, left))
  {
    var s' := StartRender(r, t, m, m, first, gated, left);
    assert s'.tasks - {t} == s.tasks - {t};
    assert TaskOk(s, t);
    OwnerStep(s, s', t);
  }

  /** The thread a task awaits, once ended, is the only thread there is. */
  lemma ResumeFacts(s: State, t: nat, gate: Gate)
    requires Inv(s) && Enabled(s, Resume(t, gate))
    ensures TaskOk(s, t) && ThreadOk(s, s.tasks[t].pc.th)
    ensures s.threads - {s.tasks[t].pc.th} == map[]
    ensures DoResume(s, t, gate).tasks - {t} == s.tasks - {t}
  {
    assert TaskOk(s, t) && ThreadOk(s, s.tasks[t].pc.th);
    OnlyOwnersThread(s, s.tasks[t].pc.th);
  }

  lemma ResumeGenKeepsInv(s: State, t: nat, gate: Gate)
    requires Inv(s) && Enabled(s, Resume(t, gate)) && !Drops(s.tasks[t].pc)
    ensures Inv(DoResume(s, t, gate))
  {
    ResumeFacts(s, t, gate);
    var pc := s.tasks[t].pc;
    var out := s.threads[pc.th].phase.outcome;
    if pc.GenLoad? && out.Loaded? {
      StartRenderKeepsInv(s, s.(threads := map[]), t, out.pipe.value, true, gate.enabled,
                          if gate.enabled then gate.rerolls else 0);
    } else {
      OwnerStep(s, DoResume(s, t, gate), t);
    }
  }

  lemma ResumeKeepsInv(s: State, t: nat, gate: Gate)
    requires Inv(s) && Enabled(s, Resume(t, gate))
    ensures Inv(DoResume(s, t, gate))
  {
    if Drops(s.tasks[t].pc) {
      ResumeFacts(s, t, gate);
      OwnerStep(s, DoResume(s, t, gate), t);
    } else {
      ResumeGenKeepsInv(s, t, gate);
    }
  }

  lemma ScoreKeepsInv(s: State, t: nat, ok: bool, over: bool)
    requires Inv(s) && Enabled(s, Score(t, ok, over))
    ensures Inv(DoScore(s, t, ok, over))
  {
    assert TaskOk(s, t);
    NoThread(s);
    var pc := s.tasks[t].pc;
    if ok && pc.scanning && over && pc.left > 0 {
      StartRenderKeepsInv(s, s, t, pc.pipe, false, true, pc.left - 1);
    } else {
      ScoreMovesOn(s, t, ok, over);
    }
  }

  lemma ScoreMovesOn(s: State, t: nat, ok: bool, over: bool)
    requires Inv(s) && Enabled(s, Score(t, ok, over))
    requires !(ok && s.tasks[t].pc.scanning && over && s.tasks[t].pc.left > 0)
    ensures Inv(DoScore(s, t, ok, over))
  {
    assert TaskOk(s, t);
    NoThread(s);
    var s' := DoScore(s, t, ok, over);
    assert s'.tasks - {t} == s.tasks - {t};
    OwnerStep(s, s', t);
  }

  lemma FloorKeepsInv(s: State, t: nat, more: bool, reclaim: bool)
    requires Inv(s) && Enabled(s, Floor(t, more, reclaim))
    ensures Inv(DoFloor(s, t, more, reclaim))
  {
    assert TaskOk(s, t);
    NoThread(s);
    if more && !s.tasks[t].pc.second {
      assert DoFloor(s, t, more, reclaim).tasks - {t} == s.tasks - {t};
      OwnerStep(s, DoFloor(s, t, more, reclaim), t);
    } else if !reclaim || s.srv.inflight > 0 {
      AbandonKeepsInv(s, t);
    } else {
      OwnerStep(s, s.(exited := true), t);
    }
  }

  /** The loop behind a cancel: the lock is kept while the thread runs, and given up with it. */
  lemma DrainKeepsInv(s: State, t: nat)
    requires Inv(s) && !s.exited && AwaitsThread(s, t)
    ensures Inv(Drain(s, t))
  {
    var s' := Drain(s, t);
    var th := s.tasks[t].pc.th;
    assert TaskOk(s, t);
    OnlyOwnersThread(s, th);
    assert s'.tasks - {t} == s.tasks - {t};
    if s.threads[th].phase.Ended? {
      assert s'.threads == map[];
    } else {
      assert ThreadOk(s, th);
    }
    OwnerStep(s, s', t);
  }

  lemma CancelKeepsInv(s: State, t: nat)
    requires Inv(s) && Enabled(s, Cancel(t))
    ensures Inv(DoCancel(s, t))
  {
    if Awaits(s.tasks[t].pc) { DrainKeepsInv(s, t); } else { AbandonKeepsInv(s, t); }
  }

  lemma NextTaskIsFresh(s: State)
    requires Inv(s)
    ensures s.nextTask !in s.tasks
  {
    assert forall t | t in s.tasks :: TaskOk(s, t);
  }

  lemma ArriveKeepsInv(s: State, a: Action)
    requires Inv(s) && Enabled(s, a)
    requires a.ArriveGenerate? || a.ArriveReload? || a.ArriveUnload? || a.ArriveIdle?
    ensures Inv(Step(s, a))
  {
    var s' := Step(s, a);
    NextTaskIsFresh(s);
    assert s'.tasks - {s.nextTask} == s.tasks - {s.nextTask};
    BystanderStep(s, s', s.nextTask);
  }

  lemma ReadKeepsInv(s: State, t: nat, reading: Reading)
    requires Inv(s) && Enabled(s, Read(t, reading))
    ensures Inv(DoRead(s, t, reading))
  {
    var s' := DoRead(s, t, reading);
    assert TaskOk(s, t);
    assert s'.tasks - {t} == s.tasks - {t};
    BystanderStep(s, s', t);
  }

  lemma StepKeepsInv(s: State, a: Action)
    requires Inv(s) && Enabled(s, a)
    ensures Inv(Step(s, a))
  {
    match a
    case ArriveGenerate | ArriveReload | ArriveUnload(_) | ArriveIdle(_) => ArriveKeepsInv(s, a);
    case Read(t, reading) => ReadKeepsInv(s, t, reading);
    case Acquire(t, timedOut) => AcquireKeepsInv(s, t, timedOut);
    case Work(th, ok) => WorkKeepsInv(s, th, ok);
    case Resume(t, gate) => ResumeKeepsInv(s, t, gate);
    case Wake(t) => DrainKeepsInv(s, t);
    case Score(t, ok, over) => ScoreKeepsInv(s, t, ok, over);
    case Floor(t, more, reclaim) => FloorKeepsInv(s, t, more, reclaim);
    case Post(t) => AbandonKeepsInv(s, t);
    case Cancel(t) => CancelKeepsInv(s, t);
  }

  lemma {:induction false} RunKeepsInv(s: State, run: seq<Action>)
    requires Inv(s) && Legal(s, run)
    ensures Inv(Exec(s, run))
    decreases |run|
  {
    if run != [] {
      StepKeepsInv(s, run[0]);
      RunKeepsInv(Step(s, run[0]), run[1..]);
    }
  }

  lemma ReachableInv(s: State)
    requires Reachable(s)
    ensures Inv(s)
  {
    var s0, run :| Init(s0) && Legal(s0, run) && Exec(s0, run) == s;
    assert InflightTasks(s0.tasks) == {};
    RunKeepsInv(s0, run);
  }
}
