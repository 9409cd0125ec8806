/**
 The launcher and its worker process: they share a .status and a .lock file, the worker
 may crash anywhere, its writes may fail half way, and the launcher reads whatever is
 there. Both files may hold the leftovers of an earlier run. Times are milliseconds.
 */
module BridgeHandshake {
  import opened Options
  import opened SpeechText
  import opened Decimal

  const POLL_INTERVAL := 250

  datatype File = Absent | Present(text: string)

  datatype Message = Connecting | Ready | Error(repr: string) | Goodbye

  function Wording(m: Message): string {
    match m
    case Connecting => "connecting"
    case Ready => "ready"
    case Error(repr) => "error: " + repr
    case Goodbye => "stopped"
  }

  /** Where the worker is; a write in progress has put down `n` characters, -1 before it opened the file. */
  datatype Phase =
    | Boot
    | WriteLock(n: int)
    | WriteStatus(msg: Message, n: int)
    | Connect
    | Serve
    | DropLock(last: bool)
    | DropStatus
    | Dead

  datatype World = World(status: File, lock: File, pid: nat, phase: Phase, reachedReady: bool, connectFailed: bool)

  datatype WorkerMove = Advance | Fail | ConnectRaises(repr: string) | Crash

  function NextPhase(msg: Message): Phase {
    match msg
    case Connecting => Connect
    case Ready => Serve
    case Error(_) => DropLock(true)
    case Goodbye => DropLock(false)
  }

  function PidText(w: World): string {
    Digits(w.pid)
  }

  /** One move of the worker; `Fail` makes the file operation at hand raise. */
  function Move(w: World, m: WorkerMove): World {
    if w.phase.Dead? then w
    else if m.Crash? then w.(phase := Dead)
    else match w.phase
      case Boot =>
        if m.Fail? then w.(phase := Dead) else w.(status := Present(""), phase := WriteLock(-1))
      case WriteLock(n) =>
        if m.Fail? then w.(phase := Dead)
        else if n < 0 then w.(lock := Present(""), phase := WriteLock(0))
        else if n < |PidText(w)| then w.(lock := Present(PidText(w)[..n + 1]), phase := WriteLock(n + 1))
        else w.(phase := WriteStatus(Connecting, -1))
      case WriteStatus(msg, n) =>
        if m.Fail? then w.(phase := NextPhase(msg))
        else if n < 0 then w.(status := Present(""), phase := WriteStatus(msg, 0))
        else if n < |Wording(msg)| then w.(status := Present(Wording(msg)[..n + 1]), phase := WriteStatus(msg, n + 1))
        else w.(phase := NextPhase(msg))
      case Connect =>
        if m.ConnectRaises? then w.(connectFailed := true, phase := WriteStatus(Error(m.repr), -1))
        else w.(reachedReady := true, phase := WriteStatus(Ready, -1))
      case Serve => w.(phase := WriteStatus(Goodbye, -1))
      case DropLock(last) =>
        w.(lock := if m.Fail? then w.lock else Absent, phase := if last then Dead else DropStatus)
      case DropStatus => w.(status := if m.Fail? then w.status else Absent, phase := Dead)
      case Dead => w
  }

  function Moves(w: World, ms: seq<WorkerMove>): World
    decreases |ms|
  {
    if ms == [] then w else Moves(Move(w, ms[0]), ms[1..])
  }

  // ---- what the files can say, at every moment of every run ----

  predicate PrefixOf(p: string, s: string) {
    |p| <= |s| && p == s[..|p|]
  }

  /** The status is empty, or begins a message this run's worker came to. */
  predicate StatusOk(w: World) {
    w.status.Absent? || w.status.text == ""
    || PrefixOf(w.status.text, "connecting")
    || (w.reachedReady && (PrefixOf(w.status.text, "ready") || PrefixOf(w.status.text, "stopped")))
    || (w.connectFailed && w.status.text[0] == 'e')
  }

  /** Once the lock has been written it holds this worker's pid, and stays until it is unlinked. */
  predicate LockOk(w: World) {
    match w.phase
    case Boot => !w.reachedReady
    case WriteLock(n) => !w.reachedReady && -1 <= n <= |PidText(w)| && (n >= 0 ==> w.lock == Present(PidText(w)[..n]))
    case Dead => w.reachedReady ==> w.lock.Absent? || w.lock == Present(PidText(w))
    case DropStatus => w.lock.Absent? || w.lock == Present(PidText(w))
    case _ => w.lock == Present(PidText(w))
  }

  predicate PhaseOk(w: World) {
    match w.phase
    case WriteStatus(msg, n) =>
      && -1 <= n <= |Wording(msg)|
      && (msg.Ready? || msg.Goodbye? ==> w.reachedReady)
      && (msg.Error? ==> w.connectFailed)
    case Serve => w.reachedReady
    case _ => true
  }

  predicate Inv(w: World) {
    StatusOk(w) && LockOk(w) && PhaseOk(w)
  }

  lemma PrefixKeeps(msg: Message, n: nat)
    requires n <= |Wording(msg)|
    ensures PrefixOf(Wording(msg)[..n], Wording(msg))
    ensures msg.Error? && n > 0 ==> Wording(msg)[..n][0] == 'e'
  {
  }

  lemma WriteStatusKeeps(w: World, m: WorkerMove)
    requires Inv(w) && w.phase.WriteStatus?
    ensures Inv(Move(w, m))
  {
    var n := w.phase.n;
    if 0 <= n < |Wording(w.phase.msg)| { PrefixKeeps(w.phase.msg, n + 1); }
  }

  lemma WriteLockKeeps(w: World, m: WorkerMove)
    requires Inv(w) && w.phase.WriteLock?
    ensures Inv(Move(w, m))
  {
    var n := w.phase.n;
    if n == |PidText(w)| { assert PidText(w)[..n] == PidText(w); }
  }

  /** Every move, a crash or a failing file operation included, keeps what the files can say. */
  lemma MoveKeeps(w: World, m: WorkerMove)
    requires Inv(w)
    ensures Inv(Move(w, m))
    ensures Move(w, m).pid == w.pid && (w.reachedReady ==> Move(w, m).reachedReady)
    ensures w.connectFailed ==> Move(w, m).connectFailed
  {
    match w.phase
    case WriteStatus(_, _) => WriteStatusKeeps(w, m);
    case WriteLock(_) => WriteLockKeeps(w, m);
    case _ =>
  }

  lemma {:induction false} MovesKeep(w: World, ms: seq<WorkerMove>)
    requires Inv(w)
    ensures Inv(Moves(w, ms)) && Moves(w, ms).pid == w.pid
    ensures w.reachedReady ==> Moves(w, ms).reachedReady
    ensures w.connectFailed ==> Moves(w, ms).connectFailed
    decreases |ms|
  {
    if ms != [] {
      MoveKeeps(w, ms[0]);
      MovesKeep(Move(w, ms[0]), ms[1..]);
    }
  }

  function ReadStatus(w: World): string {
    if w.status.Absent? then "" else Strip(w.status.text)
  }

  predicate IsError(status: string) {
    PrefixOf("error:", status)
  }

  function ReadPid(lock: File): Option<nat> {
    if lock.Absent? then None else Parse(Strip(lock.text))
  }

  lemma StripKeepsFirst(s: string)
    requires s != "" && !IsSpace(s[0])
    ensures Strip(s) != "" && Strip(s)[0] == s[0]
  {
    StripEndKeepsFirst(s);
  }

  lemma {:induction false} StripEndKeepsFirst(s: string)
    requires s != "" && !IsSpace(s[0])
    ensures StripEnd(s) != "" && StripEnd(s)[0] == s[0]
    decreases |s|
  {
    if IsSpace(s[|s| - 1]) { StripEndKeepsFirst(s[..|s| - 1]); }
  }

  /** A status that reads as ready, or as an error, was written by this run's worker. */
  lemma StatusIsHonest(w: World)
    requires Inv(w)
    ensures ReadStatus(w) == "ready" ==> w.reachedReady
    ensures IsError(ReadStatus(w)) ==> w.connectFailed
  {
    if w.status.Present? {
      var t := w.status.text;
      if t != "" {
        assert t[0] == 'c' || (w.reachedReady && (t[0] == 'r' || t[0] == 's')) || (w.connectFailed && t[0] == 'e');
        StripKeepsFirst(t);
        assert IsError(ReadStatus(w)) ==> ReadStatus(w)[0] == "error:"[0];
      }
    }
  }

  /** A pid's digits have no space at either end, and read back. */
  lemma PidReads(pid: nat)
    ensures ReadPid(Present(Digits(pid))) == Some(pid)
  {
    ParseDigits(pid);
    var t := Digits(pid);
    NoSpaceAtEnds(t);
  }

  lemma NoSpaceAtEnds(t: string)
    requires t != "" && IsDigit(t[0]) && IsDigit(t[|t| - 1])
    ensures Strip(t) == t
  {
  }

  /** After ready, the lock reads as this worker's pid or as nothing. */
  lemma LockIsHonest(w: World)
    requires Inv(w) && w.reachedReady
    ensures ReadPid(w.lock).None? || ReadPid(w.lock) == Some(w.pid)
  {
    PidReads(w.pid);
  }

  /** A worker that is up has its pid in the lock. */
  lemma ServingLockReads(w: World)
    requires Inv(w) && w.phase.Serve?
    ensures ReadPid(w.lock) == Some(w.pid)
  {
    PidReads(w.pid);
  }

  lemma {:induction false} StripEndKeepsUpTo(s: string, k: nat)
    requires k < |s| && !IsSpace(s[k])
    ensures |StripEnd(s)| > k
    decreases |s|
  {
    if k < |s| - 1 && IsSpace(s[|s| - 1]) { StripEndKeepsUpTo(s[..|s| - 1], k); }
  }

  /** A finished error message is read as one, whatever it quotes. */
  lemma ErrorIsRead(repr: string)
    ensures IsError(Strip(Wording(Error(repr))))
  {
    var t := Wording(Error(repr));
    StripEndKeepsUpTo(t, 5);
    assert Strip(t) == StripEnd(t) && "error:" == t[..6];
  }

  // ---- a worker that nothing disturbs ----

  function Advances(n: nat): seq<WorkerMove> {
    if n == 0 then [] else [Advance] + Advances(n - 1)
  }

  lemma {:induction false} MovesAppend(w: World, a: seq<WorkerMove>, b: seq<WorkerMove>)
    ensures Moves(w, a + b) == Moves(Moves(w, a), b)
    decreases |a|
  {
    if a == [] {
      assert a + b == b;
    } else {
      assert (a + b)[1..] == a[1..] + b;
      MovesAppend(Move(w, a[0]), a[1..], b);
    }
  }

  lemma {:induction false} AdvancesAdd(m: nat, n: nat)
    ensures Advances(m) + Advances(n) == Advances(m + n)
    decreases m
  {
    if m > 0 { AdvancesAdd(m - 1, n); }
  }

  /** The world the worker is in once the write in hand is over. */
  function Written(w: World): World {
    if w.phase.WriteLock? then w.(lock := Present(PidText(w)), phase := WriteStatus(Connecting, -1))
    else if w.phase.WriteStatus? then w.(status := Present(Wording(w.phase.msg)), phase := NextPhase(w.phase.msg))
    else w
  }

  /** The text a write is putting down, and how far it has got. */
  function Target(w: World): string {
    if w.phase.WriteLock? then PidText(w) else if w.phase.WriteStatus? then Wording(w.phase.msg) else ""
  }

  predicate MidWrite(w: World, n: int) {
    && -1 <= n <= |Target(w)|
    && (w.phase == WriteLock(n) || (w.phase.WriteStatus? && w.phase.n == n))
    && (n >= 0 ==> (if w.phase.WriteLock? then w.lock else w.status) == Present(Target(w)[..n]))
  }

  /** A write that is left alone is finished: one move to open, one for each character, one to close. */
  lemma {:induction false} WriteCompletes(w: World, n: int)
    requires MidWrite(w, n)
    ensures Moves(w, Advances(|Target(w)| - n + 1)) == Written(w)
    decreases |Target(w)| - n
  {
    var rest := Advances(|Target(w)| - n);
    assert ([Advance] + rest)[1..] == rest;
    if n < |Target(w)| {
      WriteCompletes(Move(w, Advance), n + 1);
    } else {
      assert Target(w)[..n] == Target(w);
      assert rest == [];
    }
  }

  lemma FromOneToTheNext(w: World, m: nat, mid: World, n: nat, end: World)
    requires Moves(w, Advances(m)) == mid && Moves(mid, Advances(n)) == end
    ensures Moves(w, Advances(m + n)) == end
  {
    MovesAppend(w, Advances(m), Advances(n));
    AdvancesAdd(m, n);
  }

  lemma OneAdvance(w: World)
    ensures Moves(w, Advances(1)) == Move(w, Advance)
  {
    assert Advances(1) == [Advance] && [Advance][1..] == [];
  }

  /** Left alone, a worker comes to its connect with its pid in the lock and "connecting" in the status. */
  lemma WorkerConnects(staleLock: File, pid: nat) returns (n: nat)
    ensures Moves(Spawned(staleLock, pid), Advances(n))
         == World(Present("connecting"), Present(Digits(pid)), pid, Connect, false, false)
  {
    var w := Spawned(staleLock, pid);
    var booted := Move(w, Advance);
    OneAdvance(w);
    WriteCompletes(booted, -1);
    var locked := Written(booted);
    FromOneToTheNext(w, 1, booted, |Digits(pid)| + 2, locked);
    WriteCompletes(locked, -1);
    n := 1 + (|Digits(pid)| + 2) + (|Wording(Connecting)| + 2);
    FromOneToTheNext(w, 1 + (|Digits(pid)| + 2), locked, |Wording(Connecting)| + 2, Written(locked));
  }

  /** And, its connect succeeding, to serving, with "ready" in the status. */
  lemma WorkerGetsReady(staleLock: File, pid: nat) returns (n: nat)
    ensures Moves(Spawned(staleLock, pid), Advances(n))
         == World(Present("ready"), Present(Digits(pid)), pid, Serve, true, false)
  {
    var w := Spawned(staleLock, pid);
    var m := WorkerConnects(staleLock, pid);
    var at := Moves(w, Advances(m));
    var up := Move(at, Advance);
    OneAdvance(at);
    FromOneToTheNext(w, m, at, 1, up);
    WriteCompletes(up, -1);
    n := m + 1 + (|Wording(Ready)| + 2);
    FromOneToTheNext(w, m + 1, up, |Wording(Ready)| + 2, Written(up));
  }

  lemma ReadyIsRead()
    ensures Strip("ready") == "ready"
  {
  }

  /** So a launch that lets it run so far before its look, and can read both files, returns its pid. */
  lemma UndisturbedLaunchSucceeds(staleLock: File, pid: nat) returns (n: nat)
    ensures var round := Round(Advances(n), true, [], true);
            && StatusIn(Spawned(staleLock, pid), round) == "ready"
            && After(Spawned(staleLock, pid), round).phase.Serve?
            && Verdict(Pid(pid), After(Spawned(staleLock, pid), round), Spawned(staleLock, pid), round)
  {
    n := WorkerGetsReady(staleLock, pid);
    ReadyIsRead();
    ServingLockReads(Moves(Spawned(staleLock, pid), Advances(n)));
  }

  /** Its connect failing, it says so in the status, takes its lock away and dies. */
  lemma WorkerReportsFailure(w: World, repr: string) returns (n: nat)
    requires w.phase.Connect?
    ensures Moves(w, [ConnectRaises(repr)] + Advances(n))
         == World(Present("error: " + repr), Absent, w.pid, Dead, w.reachedReady, true)
    ensures IsError(ReadStatus(Moves(w, [ConnectRaises(repr)] + Advances(n))))
  {
    var failed := Move(w, ConnectRaises(repr));
    var told := Written(failed);
    WriteCompletes(failed, -1);
    OneAdvance(told);
    n := |Wording(Error(repr))| + 2 + 1;
    FromOneToTheNext(failed, |Wording(Error(repr))| + 2, told, 1, Move(told, Advance));
    assert ([ConnectRaises(repr)] + Advances(n))[1..] == Advances(n);
    ErrorIsRead(repr);
  }

  /** Told to leave, it takes both its files away and dies. */
  lemma WorkerLeavesNothing(w: World) returns (n: nat)
    requires w.phase.Serve?
    ensures Moves(w, Advances(n)) == w.(status := Absent, lock := Absent, phase := Dead)
  {
    var leaving := Move(w, Advance);
    OneAdvance(w);
    WriteCompletes(leaving, -1);
    var told := Written(leaving);
    var k := |Wording(Goodbye)| + 2;
    FromOneToTheNext(w, 1, leaving, k, told);
    OneAdvance(told);
    FromOneToTheNext(w, 1 + k, told, 1, Move(told, Advance));
    OneAdvance(Move(told, Advance));
    n := 1 + k + 1 + 1;
    FromOneToTheNext(w, 1 + k + 1, Move(told, Advance), 1, Move(Move(told, Advance), Advance));
  }

  // ---- the launcher ----

  datatype Launch =
    | Pid(pid: nat)
    | NoPid                     // ready, but no pid in the lock: killed
    | WorkerError(status: string)
    | WorkerExited
    | TimedOut                  // killed

  /** What the worker does before each of the launcher's looks in one round, and whether the reads work. */
  datatype Round = Round(beforeStatus: seq<WorkerMove>, statusReadable: bool,
                         beforeNext: seq<WorkerMove>, lockReadable: bool)

  /** ensure_session_pipes and the spawn: the status is empty before the worker exists. */
  function Spawned(staleLock: File, pid: nat): World {
    World(Present(""), staleLock, pid, Boot, false, false)
  }

  /** The status a round reads. */
  function StatusIn(w: World, round: Round): string {
    if round.statusReadable then ReadStatus(Moves(w, round.beforeStatus)) else ""
  }

  function After(w: World, round: Round): World {
    Moves(Moves(w, round.beforeStatus), round.beforeNext)
  }

  /** The worker's world when round i begins. */
  ghost function AfterRounds(w: World, rounds: nat -> Round, i: nat): World {
    if i == 0 then w else After(AfterRounds(w, rounds, i - 1), rounds(i - 1))
  }

  ghost function StatusSeen(w: World, rounds: nat -> Round, i: nat): string {
    StatusIn(AfterRounds(w, rounds, i), rounds(i))
  }

  /** The launcher's clock moves on by at least the sleep between two rounds. */
  ghost predicate ClockOk(clock: nat -> int) {
    forall i: nat :: clock(i) + POLL_INTERVAL <= clock(i + 1)
  }

  /** Neither a readable verdict nor a dead worker: there is nothing to go by in this round. */
  predicate Undecided(before: World, round: Round) {
    && StatusIn(before, round) != "ready" && !IsError(StatusIn(before, round))
    && !After(before, round).phase.Dead?
  }

  ghost predicate UndecidedIn(w: World, rounds: nat -> Round, i: nat) {
    Undecided(AfterRounds(w, rounds, i), rounds(i))
  }

  /** What the first decisive round answers, and what is done to the worker: killed when it is of no use. */
  predicate Verdict(r: Launch, w: World, before: World, round: Round) {
    var status, after := StatusIn(before, round), After(before, round);
    var pid := if round.lockReadable then ReadPid(after.lock) else None;
    if status == "ready" then
      if pid.Some? then r == Pid(pid.value) && w == after else r == NoPid && w == after.(phase := Dead)
    else if IsError(status) then r == WorkerError(status) && w == after
    else if after.phase.Dead? then r == WorkerExited && w == after
    else r == TimedOut && w == after.(phase := Dead)
  }

  /** What an outcome says about the worker. */
  predicate Honest(r: Launch, w: World) {
    match r
    case Pid(pid) => pid == w.pid && w.reachedReady
    case NoPid => w.reachedReady && w.phase.Dead?
    case WorkerError(status) => w.connectFailed && IsError(status)
    case WorkerExited | TimedOut => w.phase.Dead?
  }

  lemma KillIsCrash(w: World)
    ensures Move(w, Crash) == w.(phase := Dead)
  {
  }

  /** One round of the poll: the looks in the source's order, the first decisive one wins. */
  method Poll(before: World, round: Round, expired: bool) returns (r: Option<Launch>, w: World)
    requires Inv(before)
    ensures Inv(w) && w.pid == before.pid
    ensures r.Some? ==> Honest(r.value, w)
    ensures r.None? <==> Undecided(before, round) && !expired
    ensures r.None? ==> w == After(before, round)
    ensures r.Some? ==> Verdict(r.value, w, before, round)
    ensures r.Some? && (r.value.Pid? || r.value.NoPid?) <==> StatusIn(before, round) == "ready"
    ensures IsError(StatusIn(before, round)) ==> r == Some(WorkerError(StatusIn(before, round)))
    ensures StatusIn(before, round) != "ready" && !IsError(StatusIn(before, round)) && After(before, round).phase.Dead?
            ==> r == Some(WorkerExited)
    ensures StatusIn(before, round) == "ready" && round.lockReadable && After(before, round).phase.Serve? ==>
              r == Some(Pid(before.pid))
    ensures r == Some(TimedOut) <==> expired && Undecided(before, round)
  {
    MovesKeep(before, round.beforeStatus);
    w := Moves(before, round.beforeStatus);
    var status := if round.statusReadable then ReadStatus(w) else "";
    StatusIsHonest(w);
    MovesKeep(w, round.beforeNext);
    w := Moves(w, round.beforeNext);
    if status == "ready" {
      LockIsHonest(w);
      if w.phase.Serve? { ServingLockReads(w); }
      var found := if round.lockReadable then ReadPid(w.lock) else None;
      if found.Some? {
        return Some(Pid(found.value)), w;
      }
      MoveKeeps(w, Crash);
      KillIsCrash(w);
      return Some(NoPid), Move(w, Crash);
    }
    if IsError(status) {
      return Some(WorkerError(status)), w;
    }
    if w.phase.Dead? {
      return Some(WorkerExited), w;
    }
    if expired {
      MoveKeeps(w, Crash);
      KillIsCrash(w);
      return Some(TimedOut), Move(w, Crash);
    }
    r := None;
  }

  /** The launcher, against any leftover lock, any behaviour of the worker and any clock. */
  method PollUntilReady(staleLock: File, pid: nat, rounds: nat -> Round, clock: nat -> int, start: int,
                        readyTimeout: int)
    returns (r: Launch, polls: nat, w: World)
    requires ClockOk(clock) && start <= clock(0)
    ensures w.pid == pid && Honest(r, w)
    ensures polls >= 1
    ensures r.Pid? || r.NoPid? <==> StatusSeen(Spawned(staleLock, pid), rounds, polls - 1) == "ready"
    ensures forall j: nat | j < polls - 1 :: UndecidedIn(Spawned(staleLock, pid), rounds, j)
    ensures Verdict(r, w, AfterRounds(Spawned(staleLock, pid), rounds, polls - 1), rounds(polls - 1))
    ensures r.TimedOut? <==> UndecidedIn(Spawned(staleLock, pid), rounds, polls - 1)
    ensures polls == 1 || (polls - 2) * POLL_INTERVAL < readyTimeout
    ensures r.TimedOut? ==> clock(polls - 1) >= start + readyTimeout
  {
    var deadline := start + readyTimeout;
    ghost var first := Spawned(staleLock, pid);
    w := Spawned(staleLock, pid);
    var i := 0;
    while true
      invariant Inv(w) && w.pid == pid && w == AfterRounds(first, rounds, i)
      invariant clock(i) >= start + i * POLL_INTERVAL
      invariant i > 0 ==> start + (i - 1) * POLL_INTERVAL <= clock(i - 1) < deadline
      invariant forall j: nat | j < i :: UndecidedIn(first, rounds, j)
      decreases deadline + POLL_INTERVAL - clock(i)
    {
      var found, next := Poll(w, rounds(i), clock(i) >= deadline);
      if found.Some? {
        return found.value, i + 1, next;
      }
      w, i := next, i + 1;
    }
  }
}
