/** Whoever holds the lock of the admission protocol can always move, and only a bounded number of times. */
module GpuProgress {
  import opened Options
  import opened GpuProtocol
  import opened GpuMoves
  import opened GpuInvariant

  /** A move of the task t or of its thread, whatever the GPU, the scorer or the database answered. */
  predicate OwnMove(s: State, a: Action, t: nat) {
    match a
    case Work(th, _) => th in s.threads && s.threads[th].task == t
    case Resume(r, _) => r == t
    case Score(r, _, _) => r == t
    case Floor(r, _, _) => r == t
    case _ => false
  }

  predicate GateWithin(a: Action, rerolls: nat) {
    a.Resume? ==> a.gate.rerolls <= rerolls
  }

  function PhaseDebt(phase: Phase): nat {
    match phase
    case LoadStart => 5 case LoadCheck => 4 case LoadPick => 3 case LoadBuild(_) => 2 case LoadReturn => 1
    case Rendering(_, _) | Unloading => 1
    case Ended(_) => 0
  }

  function ThreadDebt(s: State, pc: Pc): nat {
    if Awaits(pc) && pc.th in s.threads then PhaseDebt(s.threads[pc.th].phase) else 0
  }

  /** An attempt takes four moves: the render, its return, the reader, the scan. */
  function PcDebt(pc: Pc, rerolls: nat): nat {
    match pc
    case GenLoad(_) => 1 + 4 * (rerolls + 1)
    case GenRender(_, _, _, _, _, left) => 3 + 4 * left
    case GenScore(_, _, left, scanning) => (if scanning then 1 else 2) + 4 * left
    case HardDrop(_) => 3
    case HardFloor(second) => if second then 1 else 2
    case _ => 1
  }

  /** The most moves of its own the task has left before it gives the lock back. */
  function Debt(s: State, t: nat, rerolls: nat): nat
    requires t in s.tasks
  {
    if s.exited then 0 else ThreadDebt(s, s.tasks[t].pc) + PcDebt(s.tasks[t].pc, rerolls)
  }

  predicate Closer(s: State, s': State, t: nat, rerolls: nat)
    requires t in s.tasks
  {
    s'.srv.owner.None?
    || (s'.srv.owner == Some(t) && t in s'.tasks && Debt(s', t, rerolls) < Debt(s, t, rerolls))
  }

  predicate NoFurther(s: State, s': State, t: nat, rerolls: nat)
    requires t in s.tasks
  {
    s'.srv.owner.None?
    || (s'.srv.owner == Some(t) && t in s'.tasks && Debt(s', t, rerolls) <= Debt(s, t, rerolls))
  }

  lemma WorkIsCloser(s: State, t: nat, ok: bool, rerolls: nat)
    requires Inv(s) && s.srv.owner == Some(t) && t in s.tasks && Awaits(s.tasks[t].pc)
    requires Enabled(s, Work(s.tasks[t].pc.th, ok))
    ensures Closer(s, DoWork(s, s.tasks[t].pc.th, ok), t, rerolls)
  {
    assert TaskOk(s, t);
  }

  lemma ResumeIsCloser(s: State, t: nat, gate: Gate, rerolls: nat)
    requires Inv(s) && s.srv.owner == Some(t) && Enabled(s, Resume(t, gate)) && gate.rerolls <= rerolls
    ensures Closer(s, DoResume(s, t, gate), t, rerolls)
  {
    assert TaskOk(s, t);
  }

  lemma ScoreIsCloser(s: State, t: nat, ok: bool, over: bool, rerolls: nat)
    requires Inv(s) && s.srv.owner == Some(t) && Enabled(s, Score(t, ok, over))
    ensures Closer(s, DoScore(s, t, ok, over), t, rerolls)
  {
    assert TaskOk(s, t);
  }

  /** Every move of the holder's own, whatever it is answered, brings it closer to giving the lock back. */
  lemma OwnMoveIsCloser(s: State, a: Action, t: nat, rerolls: nat)
    requires Inv(s) && Enabled(s, a) && s.srv.owner == Some(t) && t in s.tasks
    requires OwnMove(s, a, t) && GateWithin(a, rerolls)
    ensures Closer(s, Step(s, a), t, rerolls)
  {
    match a
    case Work(th, ok) =>
      assert ThreadOk(s, th);
      WorkIsCloser(s, t, ok, rerolls);
    case Resume(_, gate) => ResumeIsCloser(s, t, gate, rerolls);
    case Score(_, ok, over) => ScoreIsCloser(s, t, ok, over, rerolls);
    case _ =>
  }

  lemma NobodyElseOnTheCard(s: State, a: Action, t: nat)
    requires Inv(s) && Enabled(s, a) && s.srv.owner == Some(t) && t in s.tasks && t != Actor(s, a)
    ensures Step(s, a).threads == s.threads && Step(s, a).srv.owner == s.srv.owner && Step(s, a).exited == s.exited
  {
    if Actor(s, a) in s.tasks { assert TaskOk(s, Actor(s, a)); }
    assert a.Work? ==> ThreadOk(s, a.th);
    NextTaskIsFresh(s);
  }

  /** No other action, a cancel of the holder included, takes it further away. */
  lemma OthersDoNotHinder(s: State, a: Action, t: nat, rerolls: nat)
    requires Inv(s) && Enabled(s, a) && s.srv.owner == Some(t) && t in s.tasks && !OwnMove(s, a, t)
    ensures NoFurther(s, Step(s, a), t, rerolls)
  {
    if t != Actor(s, a) {
      NobodyElseOnTheCard(s, a, t);
      OthersStay(s, a, t);
    } else {
      assert TaskOk(s, t);
    }
  }

  // ---- it can always move ----

  function HolderMove(s: State): Action
    requires s.srv.owner.Some? && s.srv.owner.value in s.tasks
  {
    var t := s.srv.owner.value;
    var pc := s.tasks[t].pc;
    if pc.GenScore? then Score(t, true, false)
    else if pc.HardFloor? then Floor(t, false, false)
    else if Awaits(pc) && pc.th in s.threads && Running(s.threads[pc.th]) then Work(pc.th, true)
    else if s.tasks[t].wait.AtDrain? then Wake(t)
    else Resume(t, Gate(false, 0))
  }

  lemma DrainedLeaves(s: State, t: nat)
    requires Inv(s) && s.srv.owner == Some(t) && AwaitsThread(s, t) && !Running(s.threads[s.tasks[t].pc.th])
    ensures Drain(s, t).srv.owner.None?
  {
  }

  /** A holder can always move, and there is a move that brings it closer. */
  lemma HolderCanMove(s: State, rerolls: nat)
    requires Reachable(s) && !s.exited && s.srv.owner.Some?
    ensures s.srv.owner.value in s.tasks && Enabled(s, HolderMove(s))
    ensures Closer(s, Step(s, HolderMove(s)), s.srv.owner.value, rerolls)
  {
    ReachableInv(s);
    var t := s.srv.owner.value;
    assert TaskOk(s, t);
    if HolderMove(s).Wake? {
      DrainedLeaves(s, t);
    } else {
      if HolderMove(s).Work? { assert ThreadOk(s, s.tasks[t].pc.th); }
      OwnMoveIsCloser(s, HolderMove(s), t, rerolls);
    }
  }

  // ---- over whole runs ----

  /** The lock is t's before, throughout and after the run. */
  predicate HeldBy(s: State, run: seq<Action>, t: nat)
    requires Legal(s, run)
    decreases |run|
  {
    s.srv.owner == Some(t) && (run == [] || HeldBy(Step(s, run[0]), run[1..], t))
  }

  function OwnMoves(s: State, run: seq<Action>, t: nat): nat
    requires Legal(s, run)
    decreases |run|
  {
    if run == [] then 0
    else (if OwnMove(s, run[0], t) then 1 else 0) + OwnMoves(Step(s, run[0]), run[1..], t)
  }

  /** As long as a task holds the lock it makes at most its debt in moves, whatever happens in between. */
  lemma {:induction false} HolderIsBounded(s: State, run: seq<Action>, t: nat, rerolls: nat)
    requires Inv(s) && Legal(s, run) && HeldBy(s, run, t) && t in s.tasks
    requires forall i | 0 <= i < |run| :: GateWithin(run[i], rerolls)
    ensures OwnMoves(s, run, t) <= Debt(s, t, rerolls)
    decreases |run|
  {
    if run != [] {
      var s' := Step(s, run[0]);
      assert GateWithin(run[0], rerolls);
      StepKeepsInv(s, run[0]);
      if OwnMove(s, run[0], t) {
        OwnMoveIsCloser(s, run[0], t, rerolls);
      } else {
        OthersDoNotHinder(s, run[0], t, rerolls);
      }
      HolderIsBounded(s', run[1..], t, rerolls);
    }
  }
}
