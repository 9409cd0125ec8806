/**
 The server object itself. Each method is one stretch of the original's code on the
 object's fields, proved to be the step of the admission protocol with that name.
 The ghost field `at` is the protocol state the object is in.
 */
module ImageServer {
  import opened Options
  import opened GpuProtocol
  import opened GpuMoves
  import opened GpuInvariant
  import opened GpuAdmission

  class ServerState {
    var pipeline: Option<Model>
    var config: Option<Model>
    var inflight: int
    var degraded: bool
    var lockOwner: Option<nat>
    var exited: bool
    ghost var at: State

    ghost predicate Valid()
      reads this
    {
      && Inv(at)
      && at.srv == Server(pipeline, config, inflight, degraded, lockOwner)
      && at.exited == exited
    }

    constructor (model: Option<Model>)
      ensures Valid() && Init(at)
      ensures config == model
    {
      pipeline, config, inflight, lockOwner, exited := None, model, 0, None, false;
      degraded := model.None?;
      at := State(Server(None, model, 0, model.None?, None), map[], map[], 0, 0, false);
      new;
      assert InflightTasks(at.tasks) == {};
    }

    /** The entry of generate, up to the lock: counted first, refused at once when degraded. */
    method EnterGenerate() returns (admitted: bool)
      requires Valid() && Enabled(at, ArriveGenerate)
      modifies this
      ensures Valid() && at == Step(old(at), ArriveGenerate)
      ensures admitted == !old(degraded)
      ensures !admitted ==> inflight == old(inflight) && at.tasks == old(at).tasks
      ensures admitted ==> inflight == old(inflight) + 1
                           && at.tasks == old(at).tasks[old(at).nextTask := Task(GenWait, AtShield)]
    {
      StepKeepsInv(at, ArriveGenerate);
      inflight := inflight + 1;
      admitted := true;
      if degraded {
        inflight := inflight - 1;
        admitted := false;
      }
      at := Step(at, ArriveGenerate);
    }

    /** reload_config after its read: degrade, heal, or go on to wait for the lock. */
    method DecideReload(ghost t: nat, reading: Reading) returns (swap: bool, target: Option<Model>)
      requires Valid() && Enabled(at, Read(t, reading))
      modifies this
      ensures Valid() && at == Step(old(at), Read(t, reading))
      ensures swap <==> t in at.tasks
      ensures swap ==> at.tasks[t].pc == ReloadWait(target)
      ensures swap <==> reading.Unset?
                        || (reading.Named? && (reading.name !in REGISTRY || config != Some(reading.name)))
      ensures swap ==> target == if reading.Named? && reading.name in REGISTRY then Some(reading.name) else None
      ensures degraded <==> reading.Unreadable? || (swap && (target.None? || old(degraded)))
      ensures config == old(config) && pipeline == old(pipeline)
    {
      StepKeepsInv(at, Read(t, reading));
      swap, target := false, None;
      match reading {
        case Unreadable => degraded := true;
        case Unset => degraded, swap := true, true;
        case Named(m) =>
          if m !in REGISTRY {
            degraded, swap := true, true;
          } else if config == Some(m) {
            degraded := false;
          } else {
            swap, target := true, Some(m);
          }
      }
      at := Step(at, Read(t, reading));
    }

    /** Entering the lock's block; unloads and the idle pass look at the counter again inside it. */
    method TakeLock(t: nat, pc: Pc, timedOut: bool) returns (inside: bool)
      requires Valid() && Enabled(at, Acquire(t, timedOut)) && at.tasks[t].pc == pc
      modifies this
      ensures Valid() && at == Step(old(at), Acquire(t, timedOut))
      ensures inside <==> GoesIn(old(at), t, timedOut)
      ensures inside ==> lockOwner == Some(t) && at.threads.Keys == {old(at).nextThread}
                         && StartsWith(pc, at.threads[old(at).nextThread].phase)
      ensures !inside ==> lockOwner.None? && t !in at.tasks && at.threads == map[]
    {
      StepKeepsInv(at, Acquire(t, timedOut));
      TheLockStartsAThread(at, t, timedOut);
      lockOwner, inside := Some(t), true;
      match pc {
        case UnloadWait(hard) =>
          if inflight > 0 || (!hard && pipeline.None?) {
            lockOwner, inside := None, false;
          }
        case IdleWait =>
          if !(inflight == 0 && pipeline.Some? && timedOut) {
            lockOwner, inside := None, false;
          }
        case _ =>
      }
      at := Step(at, Acquire(t, timedOut));
    }

    /** ensure_pipeline_loaded, first look: is anything loaded? */
    method FindPipeline(ghost th: nat, ghost ok: bool) returns (found: bool)
      requires Valid() && Enabled(at, Work(th, ok)) && at.threads[th].phase.LoadStart?
      modifies this`at
      ensures Valid() && at == Step(old(at), Work(th, ok))
      ensures found ==> pipeline.Some? && pipeline == config && at.threads[th].phase.LoadReturn?
      ensures !found ==> at.threads[th].phase.LoadCheck?
    {
      StepKeepsInv(at, Work(th, ok));
      found := pipeline.Some?;
      at := Step(at, Work(th, ok));
    }

    /** Second look: is there a configuration? */
    method CheckConfig(ghost th: nat, ghost ok: bool) returns (configured: bool)
      requires Valid() && Enabled(at, Work(th, ok)) && at.threads[th].phase.LoadCheck?
      modifies this`at
      ensures Valid() && at == Step(old(at), Work(th, ok))
      ensures configured <==> config.Some?
      ensures at.threads[th].phase == if configured then LoadPick else Ended(Raised)
    {
      StepKeepsInv(at, Work(th, ok));
      configured := config.Some?;
      at := Step(at, Work(th, ok));
    }

    /** Third look: the configuration handed to load_pipeline is still there. */
    method PickConfig(ghost th: nat, ghost ok: bool) returns (model: Model)
      requires Valid() && Enabled(at, Work(th, ok)) && at.threads[th].phase.LoadPick?
      modifies this`at
      ensures Valid() && at == Step(old(at), Work(th, ok))
      ensures config == Some(model) && pipeline.None? && at.threads[th].phase == LoadBuild(model)
    {
      StepKeepsInv(at, Work(th, ok));
      assert ThreadOk(at, th);
      model := config.value;
      at := Step(at, Work(th, ok));
    }

    /** ensure_pipeline_loaded after load_pipeline returned. */
    method StorePipeline(ghost th: nat, model: Model)
      requires Valid() && Enabled(at, Work(th, true)) && at.threads[th].phase == LoadBuild(model)
      modifies this
      ensures Valid() && at == Step(old(at), Work(th, true))
      ensures pipeline == Some(model) && config == Some(model)
    {
      StepKeepsInv(at, Work(th, true));
      pipeline := Some(model);
      at := Step(at, Work(th, true));
    }

    /** unload_pipeline, in its thread. */
    method UnloadPipeline(ghost th: nat, ghost ok: bool)
      requires Valid() && Enabled(at, Work(th, ok)) && at.threads[th].phase.Unloading?
      modifies this
      ensures Valid() && at == Step(old(at), Work(th, ok))
      ensures pipeline.None?
    {
      StepKeepsInv(at, Work(th, ok));
      if pipeline.Some? {
        pipeline := None;
      }
      at := Step(at, Work(th, ok));
    }

    /** _swap_config after its shielded await, and mark_healthy behind it. */
    method FinishSwap(ghost t: nat, target: Option<Model>, raised: bool, ghost gate: Gate)
      requires Valid() && Enabled(at, Resume(t, gate))
      requires at.tasks[t].pc.ReloadSwap? && at.tasks[t].pc.target == target
      requires at.threads[at.tasks[t].pc.th].phase.outcome.Raised? == raised
      modifies this
      ensures Valid() && at == Step(old(at), Resume(t, gate))
      ensures pipeline.None? && config == if raised then old(config) else target
      ensures degraded == (old(degraded) && (raised || target.None?)) && lockOwner.None?
    {
      StepKeepsInv(at, Resume(t, gate));
      assert TaskOk(at, t);
      if !raised {
        config := target;
        if target.Some? {
          degraded := false;
        }
      }
      lockOwner := None;
      at := Step(at, Resume(t, gate));
    }

    /** _run_on_gpu once cancelled: one test of its loop. The caller lets go of the lock only if the work is done. */
    method TestWork(ghost t: nat, done: bool, counted: bool) returns (leaves: bool)
      requires Valid() && !at.exited && AwaitsThread(at, t)
      requires done == at.threads[at.tasks[t].pc.th].phase.Ended? && counted == InGenerate(at.tasks[t].pc)
      modifies this
      ensures Valid() && at == Step(old(at), Cancel(t))
      ensures old(at).tasks[t].wait.AtDrain? ==> at == Step(old(at), Wake(t))
      ensures leaves ==> lockOwner.None? && at.threads == map[] && t !in at.tasks
      ensures !leaves ==> lockOwner == Some(t) && inflight == old(inflight)
                          && at == old(at).(tasks := old(at).tasks[t := old(at).tasks[t].(wait := AtDrain)])
    {
      StepKeepsInv(at, Cancel(t));
      assert TaskOk(at, t);
      OnlyOwnersThread(at, at.tasks[t].pc.th);
      leaves := done;
      if done {
        if counted {
          inflight := inflight - 1;
        }
        lockOwner := None;
      }
      at := Step(at, Cancel(t));
    }

    /** The end of a hard unload: decline, or exit the process. */
    method FinishHardUnload(ghost t: nat, reclaim: bool) returns (exit: bool)
      requires Valid() && Enabled(at, Floor(t, false, reclaim))
      modifies this
      ensures Valid() && at == Step(old(at), Floor(t, false, reclaim))
      ensures exit == exited == (reclaim && InflightTasks(old(at).tasks) == {})
      ensures !exit ==> lockOwner.None? && t !in at.tasks
    {
      StepKeepsInv(at, Floor(t, false, reclaim));
      assert TaskOk(at, t);
      exit := reclaim && inflight <= 0;
      if exit {
        exited := true;
      } else {
        lockOwner := None;
      }
      at := Step(at, Floor(t, false, reclaim));
    }

    /** Leaving generate after the lock, cancelled or not: the `finally` that stops counting. */
    method LeaveGenerate(ghost t: nat)
      requires Valid() && Enabled(at, Post(t))
      modifies this
      ensures Valid() && at == Step(old(at), Post(t))
      ensures InflightTasks(at.tasks) == InflightTasks(old(at).tasks) - {t} && inflight == old(inflight) - 1
    {
      StepKeepsInv(at, Post(t));
      assert TaskOk(at, t);
      inflight := inflight - 1;
      at := Step(at, Post(t));
    }
  }
}
