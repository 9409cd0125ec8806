/** What holds in every reachable state of the admission protocol, and of every step from one. */
module GpuSafety {
  import opened Options
  import opened GpuProtocol
  import opened GpuMoves
  import opened GpuInvariant

  // ---- a thread keeps its task, and its task keeps the lock ----

  /** Task t is inside the lock's block at `pc`, and thread th is its own. */
  predicate Pinned(s: State, t: nat, pc: Pc, th: nat) {
    && t in s.tasks && s.tasks[t].pc == pc && Awaits(pc) && pc.th == th
    && s.srv.owner == Some(t)
    && th in s.threads && s.threads[th].task == t
  }

  lemma RunningIsPinned(s: State, th: nat)
    requires Inv(s) && th in s.threads
    ensures s.threads[th].task in s.tasks
    ensures Pinned(s, s.threads[th].task, s.tasks[s.threads[th].task].pc, th)
  {
    assert ThreadOk(s, th) && TaskOk(s, s.threads[th].task);
  }

  /** While its thread runs, no action moves a task from its program point: not a cancel, nor a second one. */
  lemma StaysWhileRunning(s: State, a: Action, t: nat, th: nat)
    requires Inv(s) && Enabled(s, a) && t in s.tasks && Pinned(s, t, s.tasks[t].pc, th) && Running(s.threads[th])
    ensures t in Step(s, a).tasks && Step(s, a).tasks[t].pc == s.tasks[t].pc
  {
    if t != Actor(s, a) {
      OthersStay(s, a, t);
    } else {
      assert TaskOk(s, t);
    }
  }

  lemma PinnedStep(s: State, a: Action, t: nat, pc: Pc, th: nat)
    requires Inv(s) && Enabled(s, a) && Pinned(s, t, pc, th) && Running(s.threads[th])
    ensures Pinned(Step(s, a), t, pc, th)
  {
    StaysWhileRunning(s, a, t, th);
    StepKeepsInv(s, a);
    assert TaskOk(Step(s, a), t);
  }

  /** A thread that has ended, or is forgotten, never runs again. */
  lemma EndedStaysEnded(s: State, a: Action, th: nat)
    requires Inv(s) && Enabled(s, a) && th < s.nextThread
    requires th in s.threads ==> !Running(s.threads[th])
    ensures th < Step(s, a).nextThread
    ensures th in Step(s, a).threads ==> !Running(Step(s, a).threads[th])
  {
    match a
    case Resume(t, gate) => ResumeEndsNothing(s, t, gate, th);
    case Acquire(t, timedOut) => AcquireEndsNothing(s, t, timedOut, th);
    case _ =>
  }

  lemma ResumeEndsNothing(s: State, t: nat, gate: Gate, th: nat)
    requires Enabled(s, Resume(t, gate)) && th < s.nextThread
    requires th in s.threads ==> !Running(s.threads[th])
    ensures th < DoResume(s, t, gate).nextThread
    ensures th in DoResume(s, t, gate).threads ==> !Running(DoResume(s, t, gate).threads[th])
  {
  }

  lemma AcquireEndsNothing(s: State, t: nat, timedOut: bool, th: nat)
    requires Enabled(s, Acquire(t, timedOut)) && th < s.nextThread
    requires th in s.threads ==> !Running(s.threads[th])
    ensures th < DoAcquire(s, t, timedOut).nextThread
    ensures th in DoAcquire(s, t, timedOut).threads ==> !Running(DoAcquire(s, t, timedOut).threads[th])
  {
  }

  /** Over any run, with any number of cancels at either wait, a task stays put as long as its thread runs. */
  lemma {:induction false} PinnedOverRuns(s: State, run: seq<Action>, t: nat, pc: Pc, th: nat)
    requires Inv(s) && Legal(s, run) && th < s.nextThread
    requires th in s.threads && Running(s.threads[th]) ==> Pinned(s, t, pc, th)
    ensures var s' := Exec(s, run);
            th in s'.threads && Running(s'.threads[th]) ==> Pinned(s', t, pc, th)
    decreases |run|
  {
    if run != [] {
      StepKeepsInv(s, run[0]);
      if th in s.threads && Running(s.threads[th]) {
        PinnedStep(s, run[0], t, pc, th);
        assert ThreadOk(Step(s, run[0]), th);
      } else {
        EndedStaysEnded(s, run[0], th);
      }
      PinnedOverRuns(Step(s, run[0]), run[1..], t, pc, th);
    }
  }

  /** A task leaves the lock's block, or goes on inside it, only once its thread has ended. */
  lemma LeavesAfterItsThread(s: State, a: Action, t: nat)
    requires Reachable(s) && Enabled(s, a) && t in s.tasks && Awaits(s.tasks[t].pc)
    requires t in Step(s, a).tasks ==> Step(s, a).tasks[t].pc != s.tasks[t].pc
    ensures s.tasks[t].pc.th in s.threads && s.threads[s.tasks[t].pc.th].phase.Ended?
  {
    ReachableInv(s);
    assert TaskOk(s, t);
    if Running(s.threads[s.tasks[t].pc.th]) { StaysWhileRunning(s, a, t, s.tasks[t].pc.th); }
  }

  /** A cancel can come at any moment, and a wait in the loop can end at any moment. */
  lemma CancelsAreFree(s: State, t: nat)
    requires Reachable(s) && !s.exited && t in s.tasks
    ensures Enabled(s, Cancel(t)) && (s.tasks[t].wait.AtDrain? ==> Enabled(s, Wake(t)))
  {
    ReachableInv(s);
    assert TaskOk(s, t);
  }

  // ---- the lock ----

  /** One GPU thread at most, and the lock belongs to the task that started it. */
  lemma OneGpuThread(s: State, a: nat, b: nat)
    requires Reachable(s)
    requires a in s.threads && b in s.threads && Running(s.threads[a])
    ensures a == b
    ensures s.srv.owner == Some(s.threads[a].task) && s.threads[a].task in s.tasks
  {
    ReachableInv(s);
    OnlyOwnersThread(s, a);
    RunningIsPinned(s, a);
    assert b in s.threads.Keys;
  }

  /** When the lock changes hands, no thread started under it is left. */
  lemma LockOutlivesThreads(s: State, a: Action)
    requires Reachable(s) && Enabled(s, a)
    requires s.srv.owner.Some? && Step(s, a).srv.owner != s.srv.owner
    ensures Step(s, a).srv.owner.None? && Step(s, a).threads == map[]
    ensures forall th | th in s.threads :: !Running(s.threads[th])
  {
    ReachableInv(s);
    LockIsTakenFree(s, a);
    FreeMeansNoThread(s, a);
    forall th | th in s.threads ensures !Running(s.threads[th]) {
      RunningIsPinned(s, th);
      if Running(s.threads[th]) {
        var t := s.threads[th].task;
        PinnedStep(s, a, t, s.tasks[t].pc, th);
      }
    }
  }

  /** The lock passes from a holder to nobody, and only from nobody to a holder. */
  lemma LockIsTakenFree(s: State, a: Action)
    requires Enabled(s, a)
    ensures s.srv.owner.None? || Step(s, a).srv.owner == s.srv.owner || Step(s, a).srv.owner.None?
  {
    match a
    case Resume(t, gate) => ResumeLetsGo(s, t, gate);
    case _ =>
  }

  lemma ResumeLetsGo(s: State, t: nat, gate: Gate)
    requires Enabled(s, Resume(t, gate))
    ensures DoResume(s, t, gate).srv.owner == s.srv.owner || DoResume(s, t, gate).srv.owner.None?
  {
  }

  lemma FreeMeansNoThread(s: State, a: Action)
    requires Inv(s) && Enabled(s, a) && Step(s, a).srv.owner.None?
    ensures Step(s, a).threads == map[]
  {
    StepKeepsInv(s, a);
    NoThread(Step(s, a));
  }

  // ---- weights and requests ----

  /** Loaded weights are the configured model's, and every render follows their call convention. */
  lemma WeightsMatchConfig(s: State)
    requires Reachable(s)
    ensures s.srv.pipeline.Some? ==> s.srv.config == s.srv.pipeline
    ensures forall th | th in s.threads && s.threads[th].phase.Rendering? ::
              && s.srv.pipeline == Some(s.threads[th].phase.pipe)
              && s.threads[th].phase.negative == TakesNegativePrompt(s.threads[th].phase.pipe)
  {
    ReachableInv(s);
    assert forall th | th in s.threads :: ThreadOk(s, th);
  }

  predicate ForARequest(phase: Phase) {
    Loading(phase) || phase.Rendering?
  }

  /** A request is counted from its arrival to its removal, cancelled or not. */
  lemma InflightIsExact(s: State)
    requires Reachable(s)
    ensures s.srv.inflight == |InflightTasks(s.tasks)|
    ensures forall th | th in s.threads && ForARequest(s.threads[th].phase) ::
              s.threads[th].task in InflightTasks(s.tasks) && s.srv.inflight > 0
  {
    ReachableInv(s);
    forall th | th in s.threads && ForARequest(s.threads[th].phase)
      ensures s.threads[th].task in InflightTasks(s.tasks) && s.srv.inflight > 0
    {
      assert ThreadOk(s, th) && TaskOk(s, s.threads[th].task);
      assert s.threads[th].task in InflightTasks(s.tasks);
    }
  }

  /** No step turns a request into something that is not counted, nor the reverse, nor forgets a cancel. */
  lemma RequestsStayRequests(s: State, a: Action, t: nat)
    requires Reachable(s) && Enabled(s, a) && t in s.tasks && t in Step(s, a).tasks
    ensures InGenerate(Step(s, a).tasks[t].pc) <==> InGenerate(s.tasks[t].pc)
    ensures s.tasks[t].wait.AtDrain? ==> Step(s, a).tasks[t] == s.tasks[t]
  {
    ReachableInv(s);
    NextTaskIsFresh(s);
    TaskMoves(s, a, t);
    assert TaskOk(s, t);
  }

  /** The process exits only with no request in it and no thread on the card. */
  lemma ExitLosesNothing(s: State)
    requires Reachable(s) && s.exited
    ensures InflightTasks(s.tasks) == {} && s.threads == map[]
  {
    ReachableInv(s);
  }

  /** Weights are replaced or dropped only when no request is between its load and its last score. */
  lemma NoDropUnderARequest(s: State, a: Action)
    requires Reachable(s) && Enabled(s, a)
    requires s.srv.pipeline.Some? && Step(s, a).srv.pipeline != s.srv.pipeline
    ensures Step(s, a).srv.pipeline.None?
    ensures forall th | th in s.threads :: s.threads[th].phase.Unloading?
    ensures forall t | t in s.tasks :: InGenerate(s.tasks[t].pc) ==> s.tasks[t].pc.GenWait? || s.tasks[t].pc.GenPost?
  {
    ReachableInv(s);
    OnlyThreadsTouchWeights(s, a);
    OnlyOwnersThread(s, a.th);
    assert ThreadOk(s, a.th);
    forall t | t in s.tasks && InGenerate(s.tasks[t].pc)
      ensures s.tasks[t].pc.GenWait? || s.tasks[t].pc.GenPost?
    {
      assert TaskOk(s, t) && TaskOk(s, s.threads[a.th].task);
    }
  }

  lemma OnlyThreadsTouchWeights(s: State, a: Action)
    requires Enabled(s, a)
    ensures Step(s, a).srv.pipeline == s.srv.pipeline || a.Work?
  {
    match a
    case Resume(t, gate) => ResumeKeepsWeights(s, t, gate);
    case _ =>
  }

  lemma ResumeKeepsWeights(s: State, t: nat, gate: Gate)
    requires Enabled(s, Resume(t, gate))
    ensures DoResume(s, t, gate).srv.pipeline == s.srv.pipeline
  {
  }

  predicate Reclaims(pc: Pc) {
    pc.SoftDrop? || pc.HardDrop? || pc.IdleDrop?
  }

  lemma AcquireStartsQuiet(s: State, t: nat, timedOut: bool)
    requires Enabled(s, Acquire(t, timedOut))
    requires var s' := DoAcquire(s, t, timedOut); t in s'.tasks && Reclaims(s'.tasks[t].pc)
    ensures s.srv.inflight <= 0
    ensures DoAcquire(s, t, timedOut).tasks[t].pc.HardDrop? || s.srv.pipeline.Some?
  {
  }

  /** An unload, asked for or idle, starts only in a server without requests; only a hard one starts for nothing. */
  lemma UnloadsStartQuiet(s: State, a: Action, t: nat)
    requires Reachable(s) && Enabled(s, a)
    requires t in Step(s, a).tasks && Reclaims(Step(s, a).tasks[t].pc)
    requires t in s.tasks ==> !Reclaims(s.tasks[t].pc)
    ensures InflightTasks(s.tasks) == {}
    ensures Step(s, a).tasks[t].pc.HardDrop? || s.srv.pipeline.Some?
  {
    ReachableInv(s);
    NextTaskIsFresh(s);
    TaskMoves(s, a, t);
    if t == Actor(s, a) { WaitersMoveByAcquire(s, a); } else { OthersStay(s, a, t); }
    AcquireStartsQuiet(s, t, a.timedOut);
  }

  /** A task waiting for the lock goes on inside only by taking it. */
  lemma WaitersMoveByAcquire(s: State, a: Action)
    requires Enabled(s, a) && Actor(s, a) in s.tasks && Actor(s, a) in Step(s, a).tasks
    requires WaitsForLock(s.tasks[Actor(s, a)].pc)
    requires Step(s, a).tasks[Actor(s, a)].pc != s.tasks[Actor(s, a)].pc
    requires s.nextTask !in s.tasks
    ensures a.Acquire?
  {
  }

  /** A load that ended starts a render on the configured weights, or leaves the server refusing requests. */
  lemma LoadRendersOrDegrades(s: State, t: nat, gate: Gate)
    requires Reachable(s) && Enabled(s, Resume(t, gate)) && s.tasks[t].pc.GenLoad?
    ensures var s' := Step(s, Resume(t, gate));
            if s.threads[s.tasks[t].pc.th].phase.outcome.Raised?
            then s'.srv.degraded && s'.srv.owner.None? && t !in s'.tasks
            else t in s'.tasks && s'.tasks[t].pc.GenRender? && Some(s'.tasks[t].pc.pipe) == s'.srv.config
                 && s'.tasks[t].pc.first && s'.tasks[t].pc.gated == gate.enabled
                 && s'.tasks[t].pc.left == (if gate.enabled then gate.rerolls else 0)
  {
    ReachableInv(s);
    assert TaskOk(s, t) && ThreadOk(s, s.tasks[t].pc.th);
  }
}
