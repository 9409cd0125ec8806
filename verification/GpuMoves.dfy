/** Who moves in a step of the admission protocol, and along which edges of the source's control flow. */
module GpuMoves {
  import opened Options
  import opened GpuProtocol

  /** The task an action belongs to. */
  function Actor(s: State, a: Action): nat
    requires Enabled(s, a)
  {
    match a
    case ArriveGenerate | ArriveReload | ArriveUnload(_) | ArriveIdle(_) => s.nextTask
    case Work(th, _) => s.threads[th].task
    case _ => a.t
  }

  /** In every state, tasks other than the actor are left as they are. */
  lemma OnlyActorMoves(s: State, a: Action)
    requires Enabled(s, a)
    ensures Step(s, a).tasks - {Actor(s, a)} == s.tasks - {Actor(s, a)}
  {
    match a
    case Resume(t, gate) => OnlyResumedMoves(s, t, gate);
    case Acquire(t, timedOut) => OnlyAcquirerMoves(s, t, timedOut);
    case _ =>
  }

  lemma OnlyResumedMoves(s: State, t: nat, gate: Gate)
    requires Enabled(s, Resume(t, gate))
    ensures DoResume(s, t, gate).tasks - {t} == s.tasks - {t}
  {
  }

  lemma OnlyAcquirerMoves(s: State, t: nat, timedOut: bool)
    requires Enabled(s, Acquire(t, timedOut))
    ensures DoAcquire(s, t, timedOut).tasks - {t} == s.tasks - {t}
  {
  }

  /** An action changes no task but its own. */
  lemma OthersStay(s: State, a: Action, t: nat)
    requires Enabled(s, a) && t != Actor(s, a)
    ensures t in Step(s, a).tasks <==> t in s.tasks
    ensures t in s.tasks ==> Step(s, a).tasks[t] == s.tasks[t]
  {
    OnlyActorMoves(s, a);
    var rest, rest' := s.tasks - {Actor(s, a)}, Step(s, a).tasks - {Actor(s, a)};
    assert (t in s.tasks <==> t in rest) && (t in Step(s, a).tasks <==> t in rest');
    if t in rest { assert rest[t] == s.tasks[t] && rest'[t] == Step(s, a).tasks[t]; }
  }

  predicate Entry(pc: Pc) {
    pc.GenWait? || pc.ReloadRead? || pc.UnloadWait? || pc.IdleWait?
  }

  /** The edges of the source's control flow between two program points of one task. */
  predicate Follows(pc: Pc, next: Pc) {
    match pc
    case GenWait => next.GenLoad?
    case GenLoad(_) => next.GenRender?
    case GenRender(_, _, _, _, _, _) => next.GenScore? || next.GenPost?
    case GenScore(_, _, _, _) => next.GenScore? || next.GenRender? || next.GenPost?
    case ReloadRead => next.ReloadWait?
    case ReloadWait(target) => next.ReloadSwap? && next.target == target
    case UnloadWait(hard) => if hard then next.HardDrop? else next.SoftDrop?
    case HardDrop(_) => next.HardFloor?
    case HardFloor(_) => next.HardFloor?
    case IdleWait => next.IdleDrop?
    case _ => false
  }

  predicate Moved(s: State, s': State, t: nat) {
    && (t in s.tasks && t in s'.tasks ==>
          || (s'.tasks[t].pc == s.tasks[t].pc && (s.tasks[t].wait.AtDrain? ==> s'.tasks[t].wait.AtDrain?))
          || (Follows(s.tasks[t].pc, s'.tasks[t].pc) && (Awaits(s.tasks[t].pc) ==> s.tasks[t].wait.AtShield?)))
    && (t !in s.tasks && t in s'.tasks ==> t == s.nextTask && Entry(s'.tasks[t].pc))
  }

  lemma ResumedMoves(s: State, t: nat, gate: Gate)
    requires Enabled(s, Resume(t, gate))
    ensures Moved(s, DoResume(s, t, gate), t)
  {
  }

  lemma AcquirerMoves(s: State, t: nat, timedOut: bool)
    requires Enabled(s, Acquire(t, timedOut))
    ensures Moved(s, DoAcquire(s, t, timedOut), t)
  {
  }

  lemma ReaderMoves(s: State, t: nat, reading: Reading)
    requires Enabled(s, Read(t, reading))
    ensures Moved(s, DoRead(s, t, reading), t)
  {
  }

  lemma ScorerMoves(s: State, t: nat, ok: bool, over: bool)
    requires Enabled(s, Score(t, ok, over))
    ensures Moved(s, DoScore(s, t, ok, over), t)
  {
  }

  /** Every step of every task is along such an edge; a cancelled task in the loop never takes one. */
  lemma TaskMoves(s: State, a: Action, t: nat)
    requires Enabled(s, a) && s.nextTask !in s.tasks
    ensures Moved(s, Step(s, a), t)
  {
    if t != Actor(s, a) {
      OthersStay(s, a, t);
    } else {
      match a
      case Resume(_, gate) => ResumedMoves(s, t, gate);
      case Acquire(_, timedOut) => AcquirerMoves(s, t, timedOut);
      case Read(_, reading) => ReaderMoves(s, t, reading);
      case Score(_, ok, over) => ScorerMoves(s, t, ok, over);
      case _ =>
    }
  }
}
