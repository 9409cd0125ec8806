/**
 The admission protocol of the image server: one asyncio lock, an in-flight
 counter, a lazily loaded pipeline and a switchable configuration, shared by
 generate, reload, unload and the idle unloader.

 One action is one stretch of event-loop code between two awaits, or one stretch
 of a worker thread. A thread runs on whatever happens to the task awaiting it; that
 the task stays is the work of the loop around its wait, modelled below.
 Any waiting task may take a free lock, which covers every wake-up order.
 */
module GpuProtocol {
  import opened Options

  type Model = string

  const REGISTRY: set<Model> := {"sdxl_lightning", "sdxl_turbo", "sdxl_base", "z_image_turbo"}

  /** The call convention: only Z-Image rejects a negative prompt. */
  predicate TakesNegativePrompt(m: Model) {
    m != "z_image_turbo"
  }

  /** What reading the model setting can give. */
  datatype Reading = Unreadable | Unset | Named(name: Model)

  /** The fields of the server object, with the lock's owner. */
  datatype Server = Server(
    pipeline: Option<Model>,   // the model the loaded weights were built from
    config: Option<Model>,
    inflight: int,
    degraded: bool,
    owner: Option<nat>)

  datatype Outcome = Done | Loaded(pipe: Option<Model>) | Raised

  datatype Phase =
    | LoadStart                                // ensure_pipeline_loaded, nothing read yet
    | LoadCheck                                // found no pipeline; is there a configuration?
    | LoadPick                                 // found one; about to read it for the build
    | LoadBuild(model: Model)                  // inside load_pipeline
    | LoadReturn                               // about to return the pipeline field
    | Rendering(pipe: Model, negative: bool)   // the weights used and the convention used on them
    | Unloading
    | Ended(outcome: Outcome)

  datatype Thread = Thread(task: nat, phase: Phase)

  /** `left` counts the re-rolls still allowed after the current attempt. */
  datatype Pc =
    | GenWait
    | GenLoad(th: nat)
    | GenRender(th: nat, pipe: Model, conv: Model, first: bool, gated: bool, left: nat)
    | GenScore(pipe: Model, conv: Model, left: nat, scanning: bool)
    | GenPost
    | ReloadRead | ReloadWait(target: Option<Model>) | ReloadSwap(th: nat, target: Option<Model>)
    | UnloadWait(hard: bool) | SoftDrop(th: nat) | HardDrop(th: nat) | HardFloor(second: bool)
    | IdleWait | IdleDrop(th: nat)

  /** The two waits of _run_on_gpu: the shielded await, and the one in the loop behind a cancel. */
  datatype Wait = AtShield | AtDrain

  datatype Task = Task(pc: Pc, wait: Wait)

  /** The gate in force when a render begins; the settings keep its budget at one attempt or more. */
  datatype Gate = Gate(enabled: bool, rerolls: nat)

  datatype State = State(
    srv: Server,
    tasks: map<nat, Task>,
    threads: map<nat, Thread>,
    nextTask: nat,
    nextThread: nat,
    exited: bool)

  datatype Action =
    | ArriveGenerate
    | ArriveReload
    | ArriveUnload(hard: bool)
    | ArriveIdle(timedOut: bool)
    | Read(t: nat, reading: Reading)
    | Acquire(t: nat, timedOut: bool)
    | Work(th: nat, ok: bool)
    | Resume(t: nat, gate: Gate)            // the shielded await returns or raises
    | Wake(t: nat)                          // the wait in the loop returns, for whatever reason
    | Score(t: nat, ok: bool, over: bool)
    | Floor(t: nat, more: bool, reclaim: bool)
    | Post(t: nat)
    | Cancel(t: nat)

  // ---- classification of program points ----

  predicate InGenerate(pc: Pc) {
    pc.GenWait? || pc.GenLoad? || pc.GenRender? || pc.GenScore? || pc.GenPost?
  }

  predicate Awaits(pc: Pc) {
    pc.GenLoad? || pc.GenRender? || Drops(pc)
  }

  predicate Drops(pc: Pc) {
    pc.ReloadSwap? || pc.SoftDrop? || pc.HardDrop? || pc.IdleDrop?
  }

  /** Inside the lock's `async with` block. */
  predicate Holds(pc: Pc) {
    Awaits(pc) || pc.GenScore? || pc.HardFloor?
  }

  predicate WaitsForLock(pc: Pc) {
    pc.GenWait? || pc.ReloadWait? || pc.UnloadWait? || pc.IdleWait?
  }

  predicate Running(th: Thread) {
    !th.phase.Ended?
  }

  predicate IdleDue(s: Server, timedOut: bool) {
    s.inflight == 0 && s.pipeline.Some? && timedOut
  }

  function InflightTasks(tasks: map<nat, Task>): set<nat> {
    set t | t in tasks && InGenerate(tasks[t].pc)
  }

  // ---- stretches of code ----

  function Goto(s: State, t: nat, pc: Pc): State
    requires t in s.tasks
  {
    s.(tasks := s.tasks[t := Task(pc, AtShield)])
  }

  function Arrive(s: State, pc: Pc): State {
    s.(tasks := s.tasks[s.nextTask := Task(pc, AtShield)], nextTask := s.nextTask + 1)
  }

  function Leave(s: State, t: nat): State {
    s.(tasks := s.tasks - {t})
  }

  function Release(s: State): State {
    s.(srv := s.srv.(owner := None))
  }

  /** The `finally` of generate: the request stops counting as it leaves. */
  function EndGenerate(s: State, t: nat): State {
    Leave(s.(srv := s.srv.(inflight := s.srv.inflight - 1)), t)
  }

  function Degrade(s: State): State {
    s.(srv := s.srv.(degraded := true))
  }

  function Heal(s: State): State {
    s.(srv := s.srv.(degraded := false))
  }

  function Spawn(s: State, t: nat, phase: Phase): State {
    s.(threads := s.threads[s.nextThread := Thread(t, phase)], nextThread := s.nextThread + 1)
  }

  /** Leaving from wherever the task is: release the lock if held, stop counting if counted. */
  function Abandon(s: State, t: nat): State
    requires t in s.tasks
  {
    var pc := s.tasks[t].pc;
    var r := if Holds(pc) then Release(s) else s;
    if InGenerate(pc) then EndGenerate(r, t) else Leave(r, t)
  }

  function DoRead(s: State, t: nat, reading: Reading): State
    requires t in s.tasks
  {
    match reading
    case Unreadable => Leave(Degrade(s), t)
    case Unset => Goto(Degrade(s), t, ReloadWait(None))
    case Named(m) =>
      if m !in REGISTRY then Goto(Degrade(s), t, ReloadWait(None))
      else if s.srv.config == Some(m) then Leave(Heal(s), t)
      else Goto(s, t, ReloadWait(Some(m)))
  }

  function DoAcquire(s: State, t: nat, timedOut: bool): State
    requires t in s.tasks
  {
    var pc := s.tasks[t].pc;
    var locked := s.(srv := s.srv.(owner := Some(t)));
    var th := s.nextThread;
    match pc
    case GenWait => Goto(Spawn(locked, t, LoadStart), t, GenLoad(th))
    case ReloadWait(target) => Goto(Spawn(locked, t, Unloading), t, ReloadSwap(th, target))
    case UnloadWait(hard) =>
      if s.srv.inflight > 0 then Leave(s, t)
      else if hard then Goto(Spawn(locked, t, Unloading), t, HardDrop(th))
      else if s.srv.pipeline.None? then Leave(s, t)
      else Goto(Spawn(locked, t, Unloading), t, SoftDrop(th))
    case IdleWait =>
      if IdleDue(s.srv, timedOut) then Goto(Spawn(locked, t, Unloading), t, IdleDrop(th))
      else Leave(s, t)
    case _ => s
  }

  /** One stretch of a worker thread; `ok` says whether the GPU call returned or raised. */
  function DoWork(s: State, id: nat, ok: bool): State
    requires id in s.threads
  {
    var th := s.threads[id];
    var at := (p: Phase) => s.threads[id := th.(phase := p)];
    match th.phase
    case LoadStart =>
      s.(threads := at(if s.srv.pipeline.Some? then LoadReturn else LoadCheck))
    case LoadCheck =>
      s.(threads := at(if s.srv.config.None? then Ended(Raised) else LoadPick))
    case LoadPick =>
      s.(threads := at(if s.srv.config.None? then Ended(Raised) else LoadBuild(s.srv.config.value)))
    case LoadBuild(m) =>
      if ok then s.(srv := s.srv.(pipeline := Some(m)), threads := at(LoadReturn))
      else s.(threads := at(Ended(Raised)))
    case LoadReturn => s.(threads := at(Ended(Loaded(s.srv.pipeline))))
    case Rendering(_, _) => s.(threads := at(Ended(if ok then Done else Raised)))
    case Unloading =>
      s.(srv := s.srv.(pipeline := None), threads := at(Ended(if ok then Done else Raised)))
    case Ended(_) => s
  }

  function StartRender(s: State, t: nat, pipe: Model, conv: Model, first: bool, gated: bool, left: nat): State
    requires t in s.tasks
  {
    Goto(Spawn(s, t, Rendering(pipe, TakesNegativePrompt(conv))), t,
         GenRender(s.nextThread, pipe, conv, first, gated, left))
  }

  /** The task whose thread has ended forgets the thread. */
  function Join(s: State, th: nat): State
    requires th in s.threads && s.threads[th].phase.Ended?
  {
    s.(threads := s.threads - {th})
  }

  /** The shielded await ends with its thread: what each caller does with the outcome. */
  function DoResume(s: State, t: nat, gate: Gate): State
    requires t in s.tasks && Awaits(s.tasks[t].pc) && s.tasks[t].pc.th in s.threads
    requires s.threads[s.tasks[t].pc.th].phase.Ended?
  {
    var pc := s.tasks[t].pc;
    var out := s.threads[pc.th].phase.outcome;
    var s := Join(s, pc.th);
    match pc
    case GenLoad(_) =>
      if out.Loaded? && out.pipe.Some? && s.srv.config.Some?
      then StartRender(s, t, out.pipe.value, s.srv.config.value, true, gate.enabled,
                       if gate.enabled then gate.rerolls else 0)
      else Abandon(if out.Raised? then Degrade(s) else s, t)
    case GenRender(_, pipe, conv, first, gated, left) =>
      if out.Done? then (if gated then Goto(s, t, GenScore(pipe, conv, left, false)) else Goto(Release(s), t, GenPost))
      else if first then Abandon(s, t)
      else Goto(Release(s), t, GenPost)
    case ReloadSwap(_, target) =>
      if out.Raised? then Abandon(s, t)
      else
        var swapped := s.(srv := s.srv.(config := target));
        Abandon(if target.Some? then Heal(swapped) else swapped, t)
    case HardDrop(_) => if out.Raised? then Abandon(s, t) else Goto(s, t, HardFloor(false))
    case _ => Abandon(s, t)
  }

  /** The loop's test, `while not work.done()`: wait again, or let the cancellation through. */
  function Drain(s: State, t: nat): State
    requires t in s.tasks && Awaits(s.tasks[t].pc) && s.tasks[t].pc.th in s.threads
  {
    var th := s.tasks[t].pc.th;
    if s.threads[th].phase.Ended? then Abandon(Join(s, th), t)
    else s.(tasks := s.tasks[t := s.tasks[t].(wait := AtDrain)])
  }

  /** A cancel reaches the task at whatever it awaits; in _run_on_gpu it leads to the loop's test, each time. */
  function DoCancel(s: State, t: nat): State
    requires t in s.tasks && (Awaits(s.tasks[t].pc) ==> s.tasks[t].pc.th in s.threads)
  {
    if Awaits(s.tasks[t].pc) then Drain(s, t) else Abandon(s, t)
  }

  /** The first floor setting read may lead to a second; then decline, or exit. */
  function DoFloor(s: State, t: nat, more: bool, reclaim: bool): State
    requires t in s.tasks && s.tasks[t].pc.HardFloor?
  {
    if more && !s.tasks[t].pc.second then Goto(s, t, HardFloor(true))
    else if !reclaim || s.srv.inflight > 0 then Abandon(s, t)
    else s.(exited := true)
  }

  /** The reader comes up or not; the scan finds too much text or not, or fails. */
  function DoScore(s: State, t: nat, ok: bool, over: bool): State
    requires t in s.tasks && s.tasks[t].pc.GenScore?
  {
    var pc := s.tasks[t].pc;
    if ok && !pc.scanning then Goto(s, t, pc.(scanning := true))
    else if ok && over && pc.left > 0 then StartRender(s, t, pc.pipe, pc.conv, false, true, pc.left - 1)
    else Goto(Release(s), t, GenPost)
  }

  predicate AwaitsThread(s: State, t: nat) {
    t in s.tasks && Awaits(s.tasks[t].pc) && s.tasks[t].pc.th in s.threads
  }

  predicate Enabled(s: State, a: Action) {
    && !s.exited
    && match a
       case ArriveGenerate | ArriveReload | ArriveUnload(_) | ArriveIdle(_) => true
       case Read(t, _) => t in s.tasks && s.tasks[t].pc.ReloadRead?
       case Acquire(t, _) => t in s.tasks && WaitsForLock(s.tasks[t].pc) && s.srv.owner.None?
       case Work(th, _) => th in s.threads && Running(s.threads[th])
       case Resume(t, _) =>
         && AwaitsThread(s, t) && s.tasks[t].wait.AtShield?
         && s.threads[s.tasks[t].pc.th].phase.Ended?
       case Wake(t) => AwaitsThread(s, t) && s.tasks[t].wait.AtDrain?
       case Score(t, _, _) => t in s.tasks && s.tasks[t].pc.GenScore?
       case Floor(t, _, _) => t in s.tasks && s.tasks[t].pc.HardFloor?
       case Post(t) => t in s.tasks && s.tasks[t].pc.GenPost?
       case Cancel(t) => t in s.tasks && (Awaits(s.tasks[t].pc) ==> s.tasks[t].pc.th in s.threads)
  }

  function Step(s: State, a: Action): State
    requires Enabled(s, a)
  {
    match a
    case ArriveGenerate =>
      if s.srv.degraded then s.(nextTask := s.nextTask + 1)
      else Arrive(s.(srv := s.srv.(inflight := s.srv.inflight + 1)), GenWait)
    case ArriveReload => Arrive(s, ReloadRead)
    case ArriveUnload(hard) =>
      if s.srv.inflight > 0 then s.(nextTask := s.nextTask + 1) else Arrive(s, UnloadWait(hard))
    case ArriveIdle(timedOut) =>
      if IdleDue(s.srv, timedOut) then Arrive(s, IdleWait) else s.(nextTask := s.nextTask + 1)
    case Read(t, reading) => DoRead(s, t, reading)
    case Acquire(t, timedOut) => DoAcquire(s, t, timedOut)
    case Work(th, ok) => DoWork(s, th, ok)
    case Resume(t, gate) => DoResume(s, t, gate)
    case Wake(t) => Drain(s, t)
    case Score(t, ok, over) => DoScore(s, t, ok, over)
    case Floor(t, more, reclaim) => DoFloor(s, t, more, reclaim)
    case Post(t) => Abandon(s, t)
    case Cancel(t) => DoCancel(s, t)
  }

  /** After startup: either a model is configured, or the server is degraded. */
  predicate Init(s: State) {
    && s.srv.pipeline.None? && s.srv.inflight == 0 && s.srv.owner.None? && !s.exited
    && s.tasks == map[] && s.threads == map[]
    && (s.srv.config.None? ==> s.srv.degraded)
  }

  predicate Legal(s: State, run: seq<Action>)
    decreases |run|
  {
    run == [] || (Enabled(s, run[0]) && Legal(Step(s, run[0]), run[1..]))
  }

  function Exec(s: State, run: seq<Action>): State
    requires Legal(s, run)
    decreases |run|
  {
    if run == [] then s else Exec(Step(s, run[0]), run[1..])
  }

  /** Everything a run can lead to, from any state the startup can leave. */
  ghost predicate Reachable(s: State) {
    exists s0, run :: Init(s0) && Legal(s0, run) && Exec(s0, run) == s
  }
}
