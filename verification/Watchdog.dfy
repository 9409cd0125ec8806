/**
 When the self-heal watchdog polls, and what a poll does: exponential backoff while degraded, a steady
 beat while healthy. A poll of a degraded server is a reload in the admission protocol, interleaved with
 anything else; its outcome is read off that run.
 */
module Watchdog {
  import opened Options
  import opened Basics
  import opened GpuProtocol
  import opened GpuMoves
  import opened GpuInvariant
  import opened GpuReloads

  const DEGRADED_POLL_MIN_SECONDS := 5
  const DEGRADED_POLL_MAX_SECONDS := 60
  const HEALTHY_POLL_SECONDS := 30

  function Pow2(n: nat): nat {
    if n == 0 then 1 else 2 * Pow2(n - 1)
  }

  /** Seconds to sleep after `attempt` degraded polls in a row. */
  function NextRetryDelay(attempt: int): int {
    if attempt <= 0 then HEALTHY_POLL_SECONDS
    else Min(DEGRADED_POLL_MIN_SECONDS * Pow2(attempt - 1), DEGRADED_POLL_MAX_SECONDS)
  }

  lemma {:induction false} Pow2Grows(a: nat, b: nat)
    requires a <= b
    ensures 1 <= Pow2(a) <= Pow2(b)
    decreases b
  {
    if a < b { Pow2Grows(a, b - 1); } else if a > 0 { Pow2Grows(a - 1, b - 1); }
  }

  /** Delays are positive and capped, never shrink while degraded, and the first retry beats the idle beat. */
  lemma DelayShape(a: int, b: int)
    ensures 0 < NextRetryDelay(a) <= DEGRADED_POLL_MAX_SECONDS
    ensures 0 < a <= b ==> NextRetryDelay(a) <= NextRetryDelay(b)
    ensures NextRetryDelay(1) <= NextRetryDelay(0)
    ensures NextRetryDelay(a) == DEGRADED_POLL_MAX_SECONDS <==> a >= 5
  {
    if a > 0 {
      Pow2Grows(0, a - 1);
      if a <= b { Pow2Grows(a - 1, b - 1); }
      if a >= 5 { Pow2Grows(4, a - 1); } else { Pow2Grows(a - 1, 3); }
      assert Pow2(1) == 2 && Pow2(2) == 4 && Pow2(3) == 8 && Pow2(4) == 16;
    }
  }

  // ---- one poll ----

  /** What one poll met: a healthy server, or a degraded one and how its reload ended. */
  datatype PollOutcome = WasHealthy | Recovered | StillDegraded | Failed

  predicate LeftHealthy(o: PollOutcome) {
    o.WasHealthy? || o.Recovered?
  }

  function AttemptAfter(attempt: nat, o: PollOutcome): nat {
    if LeftHealthy(o) then 0 else attempt + 1
  }

  /** A poll of a degraded server is its reload's arrival and everything that happened up to its end. */
  datatype Poll = Poll(start: int, end: int, outcome: PollOutcome, before: State, run: seq<Action>)

  function Reloader(p: Poll): nat {
    p.before.nextTask
  }

  /** The run goes on until, and no further than, the step in which the reload r leaves. */
  predicate RunsUntilDone(s: State, run: seq<Action>, r: nat)
    requires Legal(s, run)
    decreases |run|
  {
    && run != []
    && if r in Step(s, run[0]).tasks then RunsUntilDone(Step(s, run[0]), run[1..], r) else |run| == 1
  }

  ghost predicate PollOk(p: Poll) {
    && Reachable(p.before) && Legal(p.before, p.run) && p.outcome == OutcomeOf(p.before, p.run)
    && if !p.before.srv.degraded then p.run == []
       else p.run != [] && p.run[0] == ArriveReload
            && RunsUntilDone(Step(p.before, ArriveReload), p.run[1..], Reloader(p))
  }

  predicate Raises(s: State, a: Action)
    requires Enabled(s, a)
  {
    a.Wake? || a.Cancel? || (a.Resume? && s.threads[s.tasks[a.t].pc.th].phase.outcome.Raised?)
  }

  /** How the reload's last step ended it: the loop looks at the degraded flag in the same stretch. */
  function OutcomeOf(s: State, run: seq<Action>): PollOutcome
    requires Legal(s, run)
    decreases |run|
  {
    if run == [] then WasHealthy
    else if |run| > 1 then OutcomeOf(Step(s, run[0]), run[1..])
    else if Raises(s, run[0]) then Failed
    else if Step(s, run[0]).srv.degraded then StillDegraded
    else Recovered
  }

  // ---- a good reload heals ----

  /** The settings are readable and name a known model, the unload returns, and nobody cancels the reload. */
  predicate GoodRun(s: State, run: seq<Action>, r: nat)
    requires Legal(s, run)
    decreases |run|
  {
    run == [] || (GoodStep(s, run[0], r) && GoodRun(Step(s, run[0]), run[1..], r))
  }

  lemma {:induction false} GoodReloadHeals(s: State, run: seq<Action>, r: nat)
    requires Inv(s) && Legal(s, run) && RunsUntilDone(s, run, r) && OnItsWay(s, r) && GoodRun(s, run, r)
    ensures OutcomeOf(s, run) == Recovered && Served(Exec(s, run))
    decreases |run|
  {
    var a, s' := run[0], Step(s, run[0]);
    GoodStepIsProgress(s, a, r);
    StepKeepsInv(s, a);
    if r in s'.tasks {
      GoodReloadHeals(s', run[1..], r);
    } else {
      LastStepDoesNotRaise(s, a, r);
      assert run[1..] == [];
    }
  }

  lemma LastStepDoesNotRaise(s: State, a: Action, r: nat)
    requires Inv(s) && Enabled(s, a) && OnItsWay(s, r) && GoodStep(s, a, r) && Actor(s, a) == r
    ensures !Raises(s, a)
  {
    if a.Resume? { assert TaskOk(s, r); }
  }

  /** In every interleaving, a poll whose settings are good leaves the server healthy, and a healed one on a model. */
  lemma GoodPollHeals(p: Poll)
    requires PollOk(p) && GoodRun(p.before, p.run, Reloader(p))
    ensures LeftHealthy(p.outcome) && !Exec(p.before, p.run).srv.degraded
    ensures p.before.srv.degraded ==> Served(Exec(p.before, p.run))
  {
    if p.before.srv.degraded {
      ReachableInv(p.before);
      var s' := Step(p.before, ArriveReload);
      StepKeepsInv(p.before, ArriveReload);
      GoodReloadHeals(s', p.run[1..], Reloader(p));
    }
  }

  // ---- the loop ----

  /** The retry counter once the first `n` polls are over. */
  function Attempt(polls: seq<Poll>, n: nat): nat
    requires n <= |polls|
  {
    if n == 0 then 0 else AttemptAfter(Attempt(polls, n - 1), polls[n - 1].outcome)
  }

  /** Polls take any time; between them the loop sleeps for the delay its counter gives. */
  predicate Timed(polls: seq<Poll>) {
    && (forall i | 0 <= i < |polls| :: polls[i].start <= polls[i].end)
    && (forall i | 0 < i < |polls| :: polls[i].start == polls[i - 1].end + NextRetryDelay(Attempt(polls, i)))
  }

  /** The counter is the number of polls since the last healing one. */
  lemma {:induction false} CounterIsTheStreak(polls: seq<Poll>, n: nat)
    requires n <= |polls|
    ensures Attempt(polls, n) <= n
    ensures forall i | n - Attempt(polls, n) <= i < n :: !LeftHealthy(polls[i].outcome)
    ensures Attempt(polls, n) < n ==> LeftHealthy(polls[n - Attempt(polls, n) - 1].outcome)
    decreases n
  {
    if n > 0 { CounterIsTheStreak(polls, n - 1); }
  }

  /** The first poll at or after `t` starts within a minute of `t`, or of the end of the poll `t` fell into. */
  lemma {:induction false} NextPollIsNear(polls: seq<Poll>, t: int, n: nat) returns (i: nat)
    requires Timed(polls) && n < |polls| && polls[0].start < t <= polls[n].start
    ensures 0 < i <= n && polls[i - 1].start < t <= polls[i].start
    ensures polls[i].start <= Max(t, polls[i - 1].end) + DEGRADED_POLL_MAX_SECONDS
    decreases n
  {
    if polls[n - 1].start < t {
      i := n;
      DelayShape(Attempt(polls, n), 0);
    } else {
      i := NextPollIsNear(polls, t, n - 1);
    }
  }

  /** Polls in time order. */
  lemma {:induction false} Ordered(polls: seq<Poll>, i: nat, j: nat)
    requires Timed(polls) && i <= j < |polls|
    ensures polls[i].start <= polls[j].start
    decreases j
  {
    if i < j {
      Ordered(polls, i, j - 1);
      DelayShape(Attempt(polls, j), 0);
    }
  }

  /** Every poll is what its run in the protocol made it. */
  ghost predicate Real(polls: seq<Poll>) {
    forall i | 0 <= i < |polls| :: PollOk(polls[i])
  }

  /** From `t` on, polls find usable settings; what becomes of the server is not assumed. */
  ghost predicate GoodSettingsFrom(polls: seq<Poll>, t: int)
    requires Real(polls)
  {
    forall i | 0 <= i < |polls| && t <= polls[i].start :: GoodRun(polls[i].before, polls[i].run, Reloader(polls[i]))
  }

  /**
   Once settings are good for good, a poll starts within a minute of that moment, or of the end of the poll
   then under way. That poll ends with the server healthy, as does every later one, and they come at the idle beat.
   */
  lemma HealsWithinAMinute(polls: seq<Poll>, t: int, n: nat) returns (i: nat)
    requires Real(polls) && Timed(polls) && n < |polls| && polls[0].start < t <= polls[n].start
    requires GoodSettingsFrom(polls, t)
    ensures 0 < i <= n && polls[i].start <= Max(t, polls[i - 1].end) + DEGRADED_POLL_MAX_SECONDS
    ensures forall j | i <= j < |polls| :: !Exec(polls[j].before, polls[j].run).srv.degraded
    ensures forall j | i <= j < |polls| && polls[j].before.srv.degraded :: Served(Exec(polls[j].before, polls[j].run))
    ensures forall j | i < j < |polls| :: polls[j].start == polls[j - 1].end + HEALTHY_POLL_SECONDS
  {
    i := NextPollIsNear(polls, t, n);
    forall j | i <= j < |polls|
      ensures LeftHealthy(polls[j].outcome) && !Exec(polls[j].before, polls[j].run).srv.degraded
      ensures polls[j].before.srv.degraded ==> Served(Exec(polls[j].before, polls[j].run))
    {
      Ordered(polls, i, j);
      assert PollOk(polls[j]);
      GoodPollHeals(polls[j]);
    }
  }

  // ---- what an outage costs ----

  /** Total sleep over an outage's first `n` failed polls. */
  function OutageSleep(n: nat): int {
    if n == 0 then 0 else OutageSleep(n - 1) + NextRetryDelay(n)
  }

  lemma {:induction false} OutageSleepIs(n: nat)
    ensures OutageSleep(n) == if n <= 4 then DEGRADED_POLL_MIN_SECONDS * (Pow2(n) - 1) else 60 * n - 165
  {
    if n > 0 {
      OutageSleepIs(n - 1);
      DelayShape(n, 0);
      assert Pow2(1) == 2 && Pow2(2) == 4 && Pow2(3) == 8 && Pow2(4) == 16;
    }
  }

  /** Every poll from `a` up to `b` failed, counted from a healthy one. */
  predicate Outage(polls: seq<Poll>, a: nat, b: nat) {
    && a <= b <= |polls|
    && Attempt(polls, a) == 0
    && forall i | a <= i < b :: !LeftHealthy(polls[i].outcome)
  }

  lemma {:induction false} OutageTakes(polls: seq<Poll>, a: nat, b: nat)
    requires Timed(polls) && Outage(polls, a, b) && b < |polls|
    ensures Attempt(polls, b) == b - a
    ensures polls[b].start >= polls[a].start + OutageSleep(b - a)
    decreases b
  {
    if a < b { OutageTakes(polls, a, b - 1); }
  }

  /** A long outage is polled at most once a minute, plus three early tries. */
  lemma OutageIsPolledSparingly(polls: seq<Poll>, a: nat, b: nat)
    requires Timed(polls) && Outage(polls, a, b) && b < |polls|
    ensures 60 * (b - a) <= polls[b].start - polls[a].start + 165
  {
    OutageTakes(polls, a, b);
    OutageSleepIs(b - a);
    assert Pow2(0) == 1 && Pow2(1) == 2 && Pow2(2) == 4 && Pow2(3) == 8 && Pow2(4) == 16;
  }
}
