/**
 The client-credentials token cache shared by any number of concurrent callers:
 a fast path, a lock with a second look under it, expiry with a safety skew, and one
 retry after a 401. Time is in seconds and never goes back. A mint is identified by
 the order in which mints succeeded.
 */
module TokenCache {
  import opened Options

  const EXPIRY_SKEW := 30
  const DEFAULT_TTL := 3600

  datatype Token = Token(mint: nat, mintedAt: int, exp: Option<int>, refreshAt: int)

  /** `failed` is the mint whose token drew the 401, in the second round of a request. */
  datatype Pc =
    | Waiting(failed: Option<nat>)
    | Minting(failed: Option<nat>)
    | Calling(mint: nat, failed: Option<nat>)
    | Finished

  /** A caller of request, or of get_token alone; `sent` lists the mints of its downstream calls. */
  datatype Caller = Caller(pc: Pc, bare: bool, retryOn401: bool, sent: seq<nat>)

  datatype State = State(
    cached: Option<Token>,
    lockOwner: Option<nat>,
    now: int,
    callers: map<nat, Caller>,
    nextCaller: nat,
    minted: nat,          // mints that succeeded
    started: nat,         // mints begun
    unsuccessful: nat,    // mints that raised or were cancelled
    invalidations: nat,
    expiries: nat)        // cached tokens that came to need a refresh

  datatype Action =
    | Tick(seconds: nat)
    | Arrive(bare: bool, retryOn401: bool, hasCredentials: bool)
    | Lock(c: nat)
    | MintOk(c: nat, exp: Option<int>)
    | MintFail(c: nat)
    | Respond(c: nat, unauthorized: bool)
    | Invalidate
    | Cancel(c: nat)

  predicate Live(s: State) {
    s.cached.Some? && s.now < s.cached.value.refreshAt
  }

  function RefreshAt(now: int, exp: Option<int>): int {
    match exp
    case Some(e) => if now >= e - EXPIRY_SKEW then now else e - EXPIRY_SKEW
    case None => now + DEFAULT_TTL - EXPIRY_SKEW
  }

  function SetCaller(s: State, c: nat, caller: Caller): State {
    s.(callers := s.callers[c := caller])
  }

  /** get_token returns a token: a bare caller is done, a request makes its call. */
  function Deliver(s: State, c: nat, caller: Caller, failed: Option<nat>, mint: nat): State {
    SetCaller(s, c, if caller.bare then caller.(pc := Finished)
                    else caller.(pc := Calling(mint, failed), sent := caller.sent + [mint]))
  }

  /** get_token up to its lock, in one stretch. */
  function GetToken(s: State, c: nat, caller: Caller, failed: Option<nat>): State {
    if Live(s) then Deliver(s, c, caller, failed, s.cached.value.mint)
    else SetCaller(s, c, caller.(pc := Waiting(failed)))
  }

  function DoArrive(s: State, bare: bool, retryOn401: bool, hasCredentials: bool): State {
    var s' := s.(nextCaller := s.nextCaller + 1);
    if !hasCredentials then s' else GetToken(s', s.nextCaller, Caller(Finished, bare, retryOn401, []), None)
  }

  function DoLock(s: State, c: nat): State
    requires c in s.callers && s.callers[c].pc.Waiting?
  {
    var caller := s.callers[c];
    if Live(s) then Deliver(s, c, caller, caller.pc.failed, s.cached.value.mint)
    else SetCaller(s.(lockOwner := Some(c), started := s.started + 1), c, caller.(pc := Minting(caller.pc.failed)))
  }

  function DoMintOk(s: State, c: nat, exp: Option<int>): State
    requires c in s.callers && s.callers[c].pc.Minting?
  {
    var caller := s.callers[c];
    var token := Token(s.minted, s.now, exp, RefreshAt(s.now, exp));
    var stored := s.(cached := Some(token), lockOwner := None, minted := s.minted + 1,
                     expiries := s.expiries + if s.now < token.refreshAt then 0 else 1);
    Deliver(stored, c, caller, caller.pc.failed, token.mint)
  }

  function DoInvalidate(s: State): State {
    s.(cached := None, invalidations := s.invalidations + 1)
  }

  /** On a first 401 the cache is dropped and get_token entered again before anyone else runs. */
  function DoRespond(s: State, c: nat, unauthorized: bool): State
    requires c in s.callers && s.callers[c].pc.Calling?
  {
    var caller := s.callers[c];
    if unauthorized && caller.retryOn401 && caller.pc.failed.None?
    then GetToken(DoInvalidate(s), c, caller, Some(caller.pc.mint))
    else SetCaller(s, c, caller.(pc := Finished))
  }

  function DoFail(s: State, c: nat): State
    requires c in s.callers
  {
    var caller := s.callers[c];
    var freed := if caller.pc.Minting? then s.(lockOwner := None, unsuccessful := s.unsuccessful + 1) else s;
    SetCaller(freed, c, caller.(pc := Finished))
  }

  predicate Enabled(s: State, a: Action) {
    match a
    case Tick(_) | Arrive(_, _, _) | Invalidate => true
    case Lock(c) => c in s.callers && s.callers[c].pc.Waiting? && s.lockOwner.None?
    case MintOk(c, _) => c in s.callers && s.callers[c].pc.Minting?
    case MintFail(c) => c in s.callers && s.callers[c].pc.Minting?
    case Respond(c, _) => c in s.callers && s.callers[c].pc.Calling?
    case Cancel(c) => c in s.callers && !s.callers[c].pc.Finished?
  }

  function Step(s: State, a: Action): State
    requires Enabled(s, a)
  {
    match a
    case Tick(d) =>
      var later := s.(now := s.now + d);
      later.(expiries := s.expiries + if Live(s) && !Live(later) then 1 else 0)
    case Arrive(bare, retryOn401, hasCredentials) => DoArrive(s, bare, retryOn401, hasCredentials)
    case Lock(c) => DoLock(s, c)
    case MintOk(c, exp) => DoMintOk(s, c, exp)
    case MintFail(c) => DoFail(s, c)
    case Respond(c, unauthorized) => DoRespond(s, c, unauthorized)
    case Invalidate => DoInvalidate(s)
    case Cancel(c) => DoFail(s, c)
  }

  function Init(now: int): State {
    State(None, None, now, map[], 0, 0, 0, 0, 0, 0)
  }

  predicate Legal(s: State, run: seq<Action>)
    decreases |run|
  {
    run == [] || (Enabled(s, run[0]) && Legal(Step(s, run[0]), run[1..]))
  }

  function Exec(s: State, run: seq<Action>): State
    requires Legal(s, run)
    decreases |run|
  {
    if run == [] then s else Exec(Step(s, run[0]), run[1..])
  }

  ghost predicate Reachable(s: State) {
    exists now, run :: Legal(Init(now), run) && Exec(Init(now), run) == s
  }

  // ---- the invariant ----

  /** Whatever is cached, or in use, is newer than the mint a caller was refused with. */
  predicate NewerThan(s: State, failed: Option<nat>) {
    failed.Some? ==> failed.value < s.minted && (s.cached.Some? ==> failed.value < s.cached.value.mint)
  }

  predicate CallerOk(s: State, c: nat)
    requires c in s.callers
  {
    var caller := s.callers[c];
    && c < s.nextCaller
    && (caller.pc.Minting? <==> s.lockOwner == Some(c))
    && |caller.sent| <= 2 && (|caller.sent| == 2 ==> caller.sent[0] < caller.sent[1])
    && match caller.pc
       case Waiting(failed) => RoundOk(s, caller, failed)
       case Minting(failed) => RoundOk(s, caller, failed)
       case Calling(mint, failed) =>
         && mint < s.minted && caller.sent != [] && caller.sent[|caller.sent| - 1] == mint
         && caller.sent == if failed.None? then [mint] else [failed.value, mint]
       case Finished => true
  }

  predicate RoundOk(s: State, caller: Caller, failed: Option<nat>) {
    && NewerThan(s, failed)
    && caller.sent == if failed.None? then [] else [failed.value]
  }

  /** What has been paid for but not yet used: one mint, when the next caller would have to start one. */
  predicate Credit(s: State) {
    s.started + (if s.lockOwner.None? && !Live(s) then 1 else 0)
      <= 1 + s.invalidations + s.expiries + s.unsuccessful
  }

  predicate TokenOk(s: State, token: Token) {
    token.mint < s.minted && token.mintedAt <= s.now && token.refreshAt == RefreshAt(token.mintedAt, token.exp)
  }

  ghost predicate Inv(s: State) {
    && (forall c | c in s.callers :: CallerOk(s, c))
    && (s.lockOwner.Some? ==> s.lockOwner.value in s.callers && !Live(s))
    && (s.cached.Some? ==> TokenOk(s, s.cached.value))
    && Credit(s)
  }

  /** One caller moves; the lock stays put for everyone else and the cache gets no older. */
  lemma OneCaller(s: State, s': State, c: nat)
    requires Inv(s) && c in s'.callers && CallerOk(s', c)
    requires s'.callers - {c} == s.callers - {c}
    requires s.nextCaller <= s'.nextCaller && s.minted <= s'.minted
    requires s.lockOwner == s'.lockOwner
             || ((s.lockOwner.None? || s.lockOwner == Some(c)) && (s'.lockOwner.None? || s'.lockOwner == Some(c)))
    requires s'.cached.None? || s'.cached == s.cached || s'.cached.value.mint == s.minted
    ensures forall x | x in s'.callers :: CallerOk(s', x)
  {
    forall x | x in s'.callers && x != c ensures CallerOk(s', x) {
      assert x in s'.callers - {c};
      assert s'.callers[x] == (s'.callers - {c})[x] == (s.callers - {c})[x] == s.callers[x];
      assert CallerOk(s, x);
    }
  }

  lemma ArriveKeepsInv(s: State, bare: bool, retryOn401: bool, hasCredentials: bool)
    requires Inv(s)
    ensures Inv(DoArrive(s, bare, retryOn401, hasCredentials))
  {
    var s' := DoArrive(s, bare, retryOn401, hasCredentials);
    var c := s.nextCaller;
    assert c !in s.callers by {
      assert forall x | x in s.callers :: CallerOk(s, x);
    }
    if hasCredentials {
      assert s'.callers - {c} == s.callers - {c};
      OneCaller(s, s', c);
    } else {
      forall x | x in s'.callers ensures CallerOk(s', x) { assert CallerOk(s, x); }
    }
  }

  lemma LockKeepsInv(s: State, c: nat)
    requires Inv(s) && Enabled(s, Lock(c))
    ensures Inv(DoLock(s, c))
  {
    var s' := DoLock(s, c);
    assert CallerOk(s, c);
    assert s'.callers - {c} == s.callers - {c};
    OneCaller(s, s', c);
  }

  lemma MintOkKeepsInv(s: State, c: nat, exp: Option<int>)
    requires Inv(s) && Enabled(s, MintOk(c, exp))
    ensures Inv(DoMintOk(s, c, exp))
  {
    var s' := DoMintOk(s, c, exp);
    assert CallerOk(s, c);
    assert s'.callers - {c} == s.callers - {c};
    OneCaller(s, s', c);
  }

  lemma RespondKeepsInv(s: State, c: nat, unauthorized: bool)
    requires Inv(s) && Enabled(s, Respond(c, unauthorized))
    ensures Inv(DoRespond(s, c, unauthorized))
  {
    var s' := DoRespond(s, c, unauthorized);
    assert CallerOk(s, c);
    assert s'.callers - {c} == s.callers - {c};
    OneCaller(s, s', c);
  }

  lemma FailKeepsInv(s: State, c: nat)
    requires Inv(s) && Enabled(s, Cancel(c))
    ensures Inv(DoFail(s, c))
  {
    var s' := DoFail(s, c);
    assert CallerOk(s, c);
    assert s'.callers - {c} == s.callers - {c};
    OneCaller(s, s', c);
  }

  lemma StepKeepsInv(s: State, a: Action)
    requires Inv(s) && Enabled(s, a)
    ensures Inv(Step(s, a))
  {
    match a
    case Tick(_) | Invalidate =>
      forall x | x in Step(s, a).callers ensures CallerOk(Step(s, a), x) { assert CallerOk(s, x); }
    case Arrive(bare, retryOn401, hasCredentials) => ArriveKeepsInv(s, bare, retryOn401, hasCredentials);
    case Lock(c) => LockKeepsInv(s, c);
    case MintOk(c, exp) => MintOkKeepsInv(s, c, exp);
    case Respond(c, unauthorized) => RespondKeepsInv(s, c, unauthorized);
    case MintFail(c) => FailKeepsInv(s, c);
    case Cancel(c) => FailKeepsInv(s, c);
  }

  lemma {:induction false} RunKeepsInv(s: State, run: seq<Action>)
    requires Inv(s) && Legal(s, run)
    ensures Inv(Exec(s, run))
    decreases |run|
  {
    if run != [] {
      StepKeepsInv(s, run[0]);
      RunKeepsInv(Step(s, run[0]), run[1..]);
    }
  }

  lemma ReachableInv(s: State)
    requires Reachable(s)
    ensures Inv(s)
  {
    var now, run :| Legal(Init(now), run) && Exec(Init(now), run) == s;
    RunKeepsInv(Init(now), run);
  }

  // ---- over every run of any number of callers ----

  lemma OneMintInFlight(s: State, a: nat, b: nat)
    requires Reachable(s)
    requires a in s.callers && b in s.callers && s.callers[a].pc.Minting? && s.callers[b].pc.Minting?
    ensures a == b
  {
    ReachableInv(s);
    assert CallerOk(s, a) && CallerOk(s, b);
  }

  /** Mints are paid for: the first, and one for each invalidation, expiry or unsuccessful mint. */
  lemma MintsAreBounded(s: State)
    requires Reachable(s)
    ensures s.started <= 1 + s.invalidations + s.expiries + s.unsuccessful
    ensures s.started == s.minted + s.unsuccessful + if s.lockOwner.Some? then 1 else 0
  {
    ReachableInv(s);
    var now, run :| Legal(Init(now), run) && Exec(Init(now), run) == s;
    RunCountsMints(Init(now), run);
  }

  lemma {:induction false} RunCountsMints(s: State, run: seq<Action>)
    requires Inv(s) && Legal(s, run)
    requires s.started == s.minted + s.unsuccessful + if s.lockOwner.Some? then 1 else 0
    ensures var s' := Exec(s, run); s'.started == s'.minted + s'.unsuccessful + if s'.lockOwner.Some? then 1 else 0
    decreases |run|
  {
    if run != [] {
      StepKeepsInv(s, run[0]);
      if run[0].MintOk? || run[0].MintFail? || run[0].Cancel? { assert CallerOk(s, run[0].c); }
      RunCountsMints(Step(s, run[0]), run[1..]);
    }
  }

  /** At most two downstream calls, and the second carries a later mint than the one refused. */
  lemma RetryUsesANewMint(s: State, c: nat)
    requires Reachable(s) && c in s.callers
    ensures var sent := s.callers[c].sent; |sent| <= 2 && (|sent| == 2 ==> sent[0] < sent[1])
  {
    ReachableInv(s);
    assert CallerOk(s, c);
  }

  /** A token handed out from the cache is at least the skew away from its own expiry. */
  lemma CachedTokensAreLive(s: State, a: Action, c: nat)
    requires Reachable(s) && Enabled(s, a) && !a.MintOk?
    requires c in Step(s, a).callers && Step(s, a).callers[c].pc.Calling?
    requires c in s.callers ==> Step(s, a).callers[c].sent != s.callers[c].sent
    ensures Live(s) && Step(s, a).callers[c].pc.mint == s.cached.value.mint
    ensures s.cached.value.exp.Some? ==> s.now + EXPIRY_SKEW < s.cached.value.exp.value
  {
    ReachableInv(s);
  }

  /** A cached token is used until the skew before its expiry, or its default lifetime, and no longer. */
  lemma LiveMeansUnexpired(s: State)
    requires Reachable(s) && s.cached.Some?
    ensures Live(s) <==>
            s.now + EXPIRY_SKEW < (match s.cached.value.exp
                                   case Some(e) => e
                                   case None => s.cached.value.mintedAt + DEFAULT_TTL)
  {
    ReachableInv(s);
  }

  // ---- requests are carried through ----

  /** A first 401 is always answered by dropping the cache and fetching again; any other response ends the request. */
  lemma RetryIsMade(s: State, c: nat, unauthorized: bool)
    requires Reachable(s) && Enabled(s, Respond(c, unauthorized))
    ensures var was, s' := s.callers[c], Step(s, Respond(c, unauthorized));
            && c in s'.callers && s'.callers[c].sent == was.sent
            && if unauthorized && was.retryOn401 && |was.sent| == 1
               then s'.callers[c].pc == Waiting(Some(was.sent[0])) && s'.cached.None?
               else s'.callers[c].pc.Finished? && s'.cached == s.cached
  {
    ReachableInv(s);
    assert CallerOk(s, c);
  }

  /** Whoever gets the lock uses a live token at once, or mints. */
  lemma LockUsesOrMints(s: State, c: nat)
    requires Enabled(s, Lock(c))
    ensures var was, s' := s.callers[c], Step(s, Lock(c));
            && c in s'.callers && s'.cached == s.cached
            && if Live(s) then Got(was, s'.callers[c], s.cached.value.mint) && s'.lockOwner.None?
               else s'.callers[c] == was.(pc := Minting(was.pc.failed)) && s'.lockOwner == Some(c)
                    && s'.started == s.started + 1
  {
  }

  /** A token was given: get_token alone is over, and a request makes its call with it. */
  predicate Got(was: Caller, now: Caller, mint: nat) {
    if was.bare then now == was.(pc := Finished)
    else now.pc.Calling? && now.pc.mint == mint && now.sent == was.sent + [mint]
         && now.bare == was.bare && now.retryOn401 == was.retryOn401
  }

  /** A mint that succeeds is cached for everyone, used by the caller that made it, and frees the lock. */
  lemma MintIsCachedAndUsed(s: State, c: nat, exp: Option<int>)
    requires Enabled(s, MintOk(c, exp))
    ensures var s' := Step(s, MintOk(c, exp));
            && c in s'.callers && Got(s.callers[c], s'.callers[c], s.minted) && s'.lockOwner.None?
            && s'.cached.Some? && s'.cached.value.mint == s.minted && s'.cached.value.exp == exp
            && s'.cached.value.mintedAt == s.now && s'.minted == s.minted + 1
  {
  }

  /** Without credentials nothing happens; with them a live token is used at once, and otherwise the caller waits. */
  lemma ArrivalUsesOrWaits(s: State, bare: bool, retryOn401: bool, hasCredentials: bool)
    requires Reachable(s)
    ensures var c, s' := s.nextCaller, Step(s, Arrive(bare, retryOn401, hasCredentials));
            var newcomer := Caller(Finished, bare, retryOn401, []);
            && s'.cached == s.cached && s'.lockOwner == s.lockOwner && s'.started == s.started
            && if !hasCredentials then s'.callers == s.callers
               else c in s'.callers
                    && if Live(s) then Got(newcomer, s'.callers[c], s.cached.value.mint)
                       else s'.callers[c] == newcomer.(pc := Waiting(None))
  {
  }

  /** A mint that fails, or a caller that is cancelled, leaves the cache alone and the lock free for the next. */
  lemma FailureFreesTheLock(s: State, a: Action)
    requires Reachable(s) && Enabled(s, a) && (a.MintFail? || a.Cancel?)
    ensures var s' := Step(s, a);
            && s'.cached == s.cached && s'.lockOwner != Some(a.c)
            && s'.callers == s.callers[a.c := s.callers[a.c].(pc := Finished)]
            && (s.lockOwner.Some? && s.lockOwner != Some(a.c) ==> s'.lockOwner == s.lockOwner)
  {
    ReachableInv(s);
    assert CallerOk(s, a.c);
  }

  /** The lock is free for a waiting caller, or one that is minting holds it: somebody can always go on. */
  lemma SomebodyCanMove(s: State, c: nat)
    requires Reachable(s) && c in s.callers && s.callers[c].pc.Waiting?
    ensures if s.lockOwner.None? then Enabled(s, Lock(c)) else Enabled(s, MintFail(s.lockOwner.value))
  {
    ReachableInv(s);
    if s.lockOwner.Some? { assert CallerOk(s, s.lockOwner.value); }
  }
}
