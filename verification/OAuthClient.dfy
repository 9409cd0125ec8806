/**
 The token client object. Each method is one stretch of get_token, _mint or request
 between two awaits, proved to be the step of the cache protocol with that name. The
 ghost field `at` is the protocol state the object is in; the clock is passed in.
 */
module OAuthClient {
  import opened Options
  import opened TokenCache

  class TokenClient {
    var cached: Option<Token>
    var mintLock: Option<nat>
    ghost var at: State

    ghost predicate Valid()
      reads this
    {
      Inv(at) && at.cached == cached && at.lockOwner == mintLock
    }

    constructor (ghost now: int)
      ensures Valid() && at == Init(now)
    {
      cached, mintLock, at := None, None, Init(now);
    }

    /** get_token before its lock: a live cached token is returned without waiting. */
    method TryCached(now: int, ghost bare: bool, ghost retryOn401: bool) returns (hit: Option<Token>)
      requires Valid() && now == at.now
      modifies this
      ensures Valid() && at == Step(old(at), Arrive(bare, retryOn401, true))
      ensures hit.Some? <==> Live(old(at))
      ensures hit.Some? ==> hit == old(cached)
      ensures hit.None? ==> at.callers[old(at).nextCaller].pc == Waiting(None)
    {
      StepKeepsInv(at, Arrive(bare, retryOn401, true));
      hit := if cached.Some? && now < cached.value.refreshAt then cached else None;
      at := Step(at, Arrive(bare, retryOn401, true));
    }

    /** The second look, under the lock: only a caller that still finds nothing live goes on to mint. */
    method LookAgain(c: nat, now: int) returns (hit: Option<Token>)
      requires Valid() && Enabled(at, Lock(c)) && now == at.now
      modifies this
      ensures Valid() && at == Step(old(at), Lock(c))
      ensures hit.Some? <==> Live(old(at))
      ensures hit.Some? ==> hit == old(cached) && mintLock.None?
      ensures hit.None? ==> mintLock == Some(c) && at.started == old(at).started + 1
    {
      StepKeepsInv(at, Lock(c));
      mintLock, hit := Some(c), None;
      if cached.Some? && now < cached.value.refreshAt {
        mintLock, hit := None, cached;
      }
      at := Step(at, Lock(c));
    }

    /** The end of a mint that succeeded: store the token, leave the lock. */
    method StoreMint(ghost c: nat, mint: nat, now: int, exp: Option<int>)
      requires Valid() && Enabled(at, MintOk(c, exp)) && now == at.now && mint == at.minted
      modifies this
      ensures Valid() && at == Step(old(at), MintOk(c, exp))
      ensures cached.Some? && cached.value.mint == mint && mintLock.None? && at.minted == mint + 1
      ensures cached.value.exp == exp && cached.value.mintedAt == now
      ensures Got(old(at).callers[c], at.callers[c], mint)
      ensures exp.Some? && now + EXPIRY_SKEW < exp.value ==> Live(at)
    {
      StepKeepsInv(at, MintOk(c, exp));
      var refreshAt := now + DEFAULT_TTL - EXPIRY_SKEW;
      if exp.Some? {
        refreshAt := exp.value - EXPIRY_SKEW;
        if refreshAt < now {
          refreshAt := now;
        }
      }
      cached := Some(Token(mint, now, exp, refreshAt));
      mintLock := None;
      at := Step(at, MintOk(c, exp));
    }

    method InvalidateCache()
      requires Valid()
      modifies this
      ensures Valid() && at == Step(old(at), Invalidate)
      ensures cached.None?
    {
      StepKeepsInv(at, Invalidate);
      cached := None;
      at := Step(at, Invalidate);
    }

    /** request after its response: a first 401 drops the cache and goes back to get_token. */
    method AfterResponse(ghost c: nat, unauthorized: bool, retryOn401: bool, firstRound: bool) returns (retry: bool)
      requires Valid() && Enabled(at, Respond(c, unauthorized))
      requires at.callers[c].retryOn401 == retryOn401 && at.callers[c].pc.failed.None? == firstRound
      modifies this
      ensures Valid() && at == Step(old(at), Respond(c, unauthorized))
      ensures retry <==> unauthorized && retryOn401 && |old(at).callers[c].sent| == 1
      ensures retry ==> cached.None? && at.callers[c].pc == Waiting(Some(old(at).callers[c].sent[0]))
      ensures !retry ==> at.callers[c].pc.Finished? && cached == old(cached)
    {
      StepKeepsInv(at, Respond(c, unauthorized));
      assert CallerOk(at, c);
      retry := unauthorized && retryOn401 && firstRound;
      if retry {
        cached := None;
      }
      at := Step(at, Respond(c, unauthorized));
    }
  }
}
