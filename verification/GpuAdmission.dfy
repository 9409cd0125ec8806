/** What the admission protocol does for those who come to it: who is let in, who is served, who is turned away. */
module GpuAdmission {
  import opened Options
  import opened GpuProtocol
  import opened GpuMoves
  import opened GpuInvariant
  import opened GpuSafety
  import opened GpuProgress

  // ---- arrivals ----

  /** No step of a degraded server adds a request. */
  lemma DegradedTakesNobody(s: State, a: Action)
    requires Reachable(s) && Enabled(s, a) && s.srv.degraded
    ensures InflightTasks(Step(s, a).tasks) <= InflightTasks(s.tasks)
  {
    ReachableInv(s);
    NextTaskIsFresh(s);
    forall t | t in InflightTasks(Step(s, a).tasks) ensures t in InflightTasks(s.tasks) {
      TaskMoves(s, a, t);
      if t !in s.tasks { NewcomersArrive(s, a, t); } else { RequestsStayRequests(s, a, t); }
    }
  }

  lemma NewcomersArrive(s: State, a: Action, t: nat)
    requires Enabled(s, a) && t !in s.tasks && t in Step(s, a).tasks && InGenerate(Step(s, a).tasks[t].pc)
    ensures a.ArriveGenerate? && !s.srv.degraded
  {
    if t != Actor(s, a) { OthersStay(s, a, t); } else { NewcomerIsGenerate(s, a); }
  }

  lemma NewcomerIsGenerate(s: State, a: Action)
    requires Enabled(s, a)
    ensures var t := Actor(s, a);
            t !in s.tasks && t in Step(s, a).tasks && InGenerate(Step(s, a).tasks[t].pc) ==>
              a.ArriveGenerate? && !s.srv.degraded
  {
    match a
    case Work(th, ok) => WorkLeavesTasks(s, th, ok);
    case _ =>
  }

  /** An arriving request is turned away by a degraded server, nothing changed, and queued and counted otherwise. */
  lemma ArrivalIsCounted(s: State)
    requires Reachable(s) && !s.exited
    ensures var s' := Step(s, ArriveGenerate);
            if s.srv.degraded then s'.srv == s.srv && s'.tasks == s.tasks && s'.threads == s.threads
            else s'.tasks == s.tasks[s.nextTask := Task(GenWait, AtShield)] && s.nextTask !in s.tasks
                 && InflightTasks(s'.tasks) == InflightTasks(s.tasks) + {s.nextTask}
                 && s'.srv.inflight == s.srv.inflight + 1
  {
    ReachableInv(s);
    NextTaskIsFresh(s);
  }

  /** An unload never waits behind a request: it is declined at once, and waits for the lock only in a quiet server. */
  lemma UnloadIsDeclinedAtOnce(s: State, hard: bool)
    requires Reachable(s) && !s.exited
    ensures var s' := Step(s, ArriveUnload(hard));
            && s'.srv == s.srv && s'.threads == s.threads
            && s'.tasks == if InflightTasks(s.tasks) != {} then s.tasks
                           else s.tasks[s.nextTask := Task(UnloadWait(hard), AtShield)]
  {
    ReachableInv(s);
  }

  /** An idle pass goes for the lock only in a quiet server with something loaded, once the timeout has passed. */
  lemma IdlePassNeedsQuiet(s: State, timedOut: bool)
    requires Reachable(s) && !s.exited
    ensures var s' := Step(s, ArriveIdle(timedOut));
            && s'.srv == s.srv && s'.threads == s.threads
            && s'.tasks == if InflightTasks(s.tasks) == {} && s.srv.pipeline.Some? && timedOut
                           then s.tasks[s.nextTask := Task(IdleWait, AtShield)] else s.tasks
  {
    ReachableInv(s);
  }

  // ---- under the lock ----

  /** The second look: who stays once it has the lock. Requests and reloads always do. */
  ghost predicate GoesIn(s: State, t: nat, timedOut: bool)
    requires t in s.tasks
  {
    match s.tasks[t].pc
    case UnloadWait(hard) => InflightTasks(s.tasks) == {} && (hard || s.srv.pipeline.Some?)
    case IdleWait => InflightTasks(s.tasks) == {} && s.srv.pipeline.Some? && timedOut
    case _ => true
  }

  predicate StartsWith(pc: Pc, phase: Phase) {
    if pc.GenWait? then phase == LoadStart else phase == Unloading
  }

  /** Whoever stays has started its one thread: a request its load, the others an unload. Whoever does not is gone. */
  lemma TheLockStartsAThread(s: State, t: nat, timedOut: bool)
    requires Inv(s) && Enabled(s, Acquire(t, timedOut))
    ensures var s' := Step(s, Acquire(t, timedOut));
            if GoesIn(s, t, timedOut)
            then t in s'.tasks && s'.srv.owner == Some(t) && s'.srv == s.srv.(owner := Some(t))
                 && s'.threads.Keys == {s.nextThread} && s'.threads[s.nextThread].task == t
                 && StartsWith(s.tasks[t].pc, s'.threads[s.nextThread].phase)
            else t !in s'.tasks && s'.srv == s.srv && s'.threads == map[]
  {
    NoThread(s);
    assert TaskOk(s, t);
    if !GoesIn(s, t, timedOut) { assert Step(s, Acquire(t, timedOut)).tasks == s.tasks - {t}; }
  }

  /** A thread ends in failure exactly when its GPU call failed, or when a load found no configuration. */
  lemma FailureComesFromTheCard(s: State, th: nat, ok: bool)
    requires Enabled(s, Work(th, ok))
    ensures var was := s.threads[th].phase;
            Step(s, Work(th, ok)).threads[th].phase == Ended(Raised) <==>
              (!ok && (was.LoadBuild? || was.Rendering? || was.Unloading?))
              || ((was.LoadCheck? || was.LoadPick?) && s.srv.config.None?)
  {
  }

  // ---- requests are served ----

  /** The request is in the server, uncancelled, and no call of its own has failed. */
  predicate Fine(s: State, t: nat) {
    && t in s.tasks && InGenerate(s.tasks[t].pc) && s.tasks[t].wait.AtShield?
    && (Awaits(s.tasks[t].pc) ==> s.tasks[t].pc.th in s.threads && s.threads[s.tasks[t].pc.th].phase != Ended(Raised))
  }

  /** Nobody cancels t, its GPU calls return, and a model is configured. */
  predicate KindTo(s: State, a: Action, t: nat) {
    && s.srv.config.Some?
    && (match a
        case Work(th, ok) => th in s.threads && s.threads[th].task == t ==> ok
        case Cancel(r) => r != t
        case _ => true)
  }

  lemma OwnFineStep(s: State, a: Action, t: nat)
    requires Inv(s) && Enabled(s, a) && Fine(s, t) && KindTo(s, a, t) && t == Actor(s, a)
    ensures Fine(Step(s, a), t) || a == Post(t)
  {
    assert TaskOk(s, t);
    NextTaskIsFresh(s);
    match a
    case Work(th, _) => assert ThreadOk(s, th);
    case Resume(_, gate) => ResumeFineStep(s, t, gate);
    case _ =>
  }

  lemma ResumeFineStep(s: State, t: nat, gate: Gate)
    requires Inv(s) && Enabled(s, Resume(t, gate)) && Fine(s, t) && s.srv.config.Some?
    ensures Fine(DoResume(s, t, gate), t)
  {
    assert TaskOk(s, t) && ThreadOk(s, s.tasks[t].pc.th);
  }

  lemma FineStep(s: State, a: Action, t: nat)
    requires Inv(s) && Enabled(s, a) && Fine(s, t) && KindTo(s, a, t)
    ensures Fine(Step(s, a), t) || a == Post(t)
  {
    assert TaskOk(s, t);
    if t != Actor(s, a) {
      OthersStay(s, a, t);
      if Awaits(s.tasks[t].pc) { NobodyElseOnTheCard(s, a, t); }
    } else {
      OwnFineStep(s, a, t);
    }
  }

  predicate KindRun(s: State, run: seq<Action>, t: nat)
    requires Legal(s, run)
    decreases |run|
  {
    run == [] || (KindTo(s, run[0], t) && KindRun(Step(s, run[0]), run[1..], t))
  }

  /** Whatever the others do, an uncancelled request whose calls return is in the server until it is answered. */
  lemma {:induction false} RequestIsServed(s: State, run: seq<Action>, t: nat)
    requires Inv(s) && Legal(s, run) && Fine(s, t) && KindRun(s, run, t)
    ensures Fine(Exec(s, run), t) || exists i :: 0 <= i < |run| && run[i] == Post(t)
    decreases |run|
  {
    if run != [] {
      FineStep(s, run[0], t);
      StepKeepsInv(s, run[0]);
      if Fine(Step(s, run[0]), t) {
        RequestIsServed(Step(s, run[0]), run[1..], t);
        if i :| 0 <= i < |run| - 1 && run[1..][i] == Post(t) { assert run[i + 1] == Post(t); }
      } else {
        assert run[0] == Post(t);
      }
    }
  }

  /** A first render that fails ends the request; a failed re-roll does not, and frees the lock for the answer. */
  lemma FailedRender(s: State, t: nat, gate: Gate)
    requires Reachable(s) && Enabled(s, Resume(t, gate)) && s.tasks[t].pc.GenRender?
    requires s.threads[s.tasks[t].pc.th].phase.outcome.Raised?
    ensures var s' := Step(s, Resume(t, gate));
            && s'.srv.owner.None? && s'.threads == map[] && s'.srv.degraded == s.srv.degraded
            && (t in s'.tasks <==> !s.tasks[t].pc.first)
            && (t in s'.tasks ==> s'.tasks[t] == Task(GenPost, AtShield))
  {
    ReachableInv(s);
    ResumeFacts(s, t, gate);
  }

  /** A render that returns goes on to its score under the lock when the gate is on, and to its answer otherwise. */
  lemma GoodRender(s: State, t: nat, gate: Gate)
    requires Reachable(s) && Enabled(s, Resume(t, gate)) && s.tasks[t].pc.GenRender?
    requires s.threads[s.tasks[t].pc.th].phase.outcome.Done?
    ensures var s' := Step(s, Resume(t, gate));
            && t in s'.tasks && s'.threads == map[]
            && (s'.srv.owner == Some(t) <==> s.tasks[t].pc.gated)
            && (if s.tasks[t].pc.gated then s'.tasks[t].pc.GenScore? && s'.tasks[t].pc.left == s.tasks[t].pc.left
                else s'.tasks[t].pc == GenPost)
  {
    ReachableInv(s);
    ResumeFacts(s, t, gate);
    assert TaskOk(s, t);
  }

  /** Another render starts exactly when a scan was read, found too much, and a re-roll is left; it uses one up. */
  lemma RerollsExactly(s: State, t: nat, ok: bool, over: bool)
    requires Reachable(s) && Enabled(s, Score(t, ok, over))
    ensures var pc, s' := s.tasks[t].pc, Step(s, Score(t, ok, over));
            && t in s'.tasks
            && (s'.tasks[t].pc.GenRender? <==> ok && pc.scanning && over && pc.left > 0)
            && (s'.tasks[t].pc.GenRender? ==> s'.tasks[t].pc.left == pc.left - 1 && !s'.tasks[t].pc.first)
            && (s'.tasks[t].pc.GenPost? <==> !ok || (pc.scanning && (!over || pc.left == 0)))
            && (s'.srv.owner.None? <==> s'.tasks[t].pc.GenPost?)
  {
    ReachableInv(s);
    assert TaskOk(s, t);
  }

  // ---- cancels and hard unloads ----

  /** A cancelled task leaves, uncounted and without the lock, unless its thread is running: then it stays to drain. */
  lemma CancelReaches(s: State, t: nat)
    requires Reachable(s) && Enabled(s, Cancel(t))
    ensures var s', pc := Step(s, Cancel(t)), s.tasks[t].pc;
            if Awaits(pc) && Running(s.threads[pc.th])
            then s' == s.(tasks := s.tasks[t := Task(pc, AtDrain)])
            else s'.tasks == s.tasks - {t} && s'.srv.owner != Some(t) && s'.srv.degraded == s.srv.degraded
                 && InflightTasks(s'.tasks) == InflightTasks(s.tasks) - {t}
  {
    ReachableInv(s);
    assert TaskOk(s, t);
  }

  /** After its drop a hard unload keeps the lock and goes on to read its floor. */
  lemma HardUnloadKeepsTheLock(s: State, t: nat, gate: Gate)
    requires Reachable(s) && Enabled(s, Resume(t, gate)) && s.tasks[t].pc.HardDrop?
    requires s.threads[s.tasks[t].pc.th].phase.outcome.Done?
    ensures Step(s, Resume(t, gate)) == s.(threads := map[], tasks := s.tasks[t := Task(HardFloor(false), AtShield)])
    ensures s.srv.owner == Some(t)
  {
    ReachableInv(s);
    ResumeFacts(s, t, gate);
  }

  /** With the floor known, the process exits exactly when it pays and no request is there; else the lock is free. */
  lemma FloorDecides(s: State, t: nat, more: bool, reclaim: bool)
    requires Reachable(s) && Enabled(s, Floor(t, more, reclaim))
    ensures var s' := Step(s, Floor(t, more, reclaim));
            if more && !s.tasks[t].pc.second then s' == s.(tasks := s.tasks[t := Task(HardFloor(true), AtShield)])
            else (s'.exited <==> reclaim && InflightTasks(s.tasks) == {})
                 && (!s'.exited ==> s'.tasks == s.tasks - {t} && s'.srv == s.srv.(owner := None))
  {
    ReachableInv(s);
    assert TaskOk(s, t);
  }

  /** Unloads that were not hard are over once their thread is, and so is a hard one whose unload raised. */
  lemma UnloadEnds(s: State, t: nat, gate: Gate)
    requires Reachable(s) && Enabled(s, Resume(t, gate)) && Reclaims(s.tasks[t].pc)
    requires s.tasks[t].pc.HardDrop? ==> s.threads[s.tasks[t].pc.th].phase.outcome.Raised?
    ensures Step(s, Resume(t, gate)) == s.(threads := map[], tasks := s.tasks - {t}, srv := s.srv.(owner := None))
    ensures s.srv.pipeline.None?
  {
    ReachableInv(s);
    ResumeFacts(s, t, gate);
    assert TaskOk(s, t);
  }
}
