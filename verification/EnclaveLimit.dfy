/**
 * The limit on the enclave's own key operations (services/signer/src/enclave-limit.ts),
 * carried through to the calls the key daemon receives.
 */
module EnclaveLimit {
  import opened Wrappers
  import opened Hashing
  import opened Vault
  import opened RateLimit
  import opened KeyStore

  const WINDOW_MS := 60_000
  const GLOBAL := "enclave"

  datatype EnclaveError = RateLimited(retryAfterSeconds: nat) | InStore(error: StoreError)

  /** How many of these calls were made at a time in `[from, to)`. */
  function CallsIn(calls: seq<nat>, from: nat, to: nat): nat {
    if calls == [] then 0 else
      CallsIn(calls[..|calls| - 1], from, to) + if from <= calls[|calls| - 1] < to then 1 else 0
  }

  /** Every call was admitted by one of the two limiters. */
  ghost predicate Covered(calls: seq<nat>, mintMax: nat, mints: seq<nat>, deriveMax: nat, derives: seq<nat>) {
    forall from: nat, to: nat :: CallsIn(calls, from, to) <=
      Admitted(None, WINDOW_MS, mintMax, mints, from, to) + Admitted(None, WINDOW_MS, deriveMax, derives, from, to)
  }

  /** The limiter has seen exactly these calls, all under its one key. */
  ghost predicate Tracks(hits: map<string, Entry>, max: nat, times: seq<nat>) {
    hits == match EntryAfter(None, WINDOW_MS, max, times) case None => map[] case Some(entry) => map[GLOBAL := entry]
  }

  ghost predicate UpTo(times: seq<nat>, now: nat) {
    Sorted(times) && forall i :: 0 <= i < |times| ==> times[i] <= now
  }

  /** After `times`, a call at `at` is over the limit. */
  predicate Over(max: nat, times: seq<nat>, at: nat) {
    !Hit(EntryAfter(None, WINDOW_MS, max, times), WINDOW_MS, max, at).1
  }

  class RateLimitedKeyStore {
    const inner: RoflKeyStore
    const mintLimiter: RateLimiter
    const deriveLimiter: RateLimiter
    const clock: Clock
    /** When each operation was asked for. */
    ghost var mints: seq<nat>
    ghost var derives: seq<nat>
    /** The daemon's calls before this wrapper was built: the boot's own. */
    ghost const booted: nat

    /** The calls the daemon received since. */
    ghost function Calls(): seq<nat>
      requires booted <= |inner.appd.calls|
      reads inner.appd
    {
      inner.appd.calls[booted..]
    }

    ghost predicate Valid()
      reads this, inner, inner.disk, inner.appd, mintLimiter, deriveLimiter, clock
    {
      && inner.Valid() && inner.appd.clock == clock && mintLimiter != deriveLimiter
      && mintLimiter.windowMs == deriveLimiter.windowMs == WINDOW_MS && mintLimiter.max >= 1 && deriveLimiter.max >= 1
      && UpTo(mints, clock.now) && UpTo(derives, clock.now)
      && Tracks(mintLimiter.hits, mintLimiter.max, mints) && Tracks(deriveLimiter.hits, deriveLimiter.max, derives)
      && booted <= |inner.appd.calls|
      && Covered(Calls(), mintLimiter.max, mints, deriveLimiter.max, derives)
    }

    constructor (inner: RoflKeyStore, mintPerMinute: nat, derivePerMinute: nat)
      requires inner.Valid() && mintPerMinute >= 1 && derivePerMinute >= 1
      ensures Valid() && this.inner == inner && Calls() == []
      ensures mintLimiter.max == mintPerMinute && deriveLimiter.max == derivePerMinute
      ensures fresh(mintLimiter) && fresh(deriveLimiter)
    {
      this.inner, clock := inner, inner.appd.clock;
      mintLimiter := new RateLimiter(WINDOW_MS, mintPerMinute);
      deriveLimiter := new RateLimiter(WINDOW_MS, derivePerMinute);
      mints, derives, booted := [], [], |inner.appd.calls|;
    }

    /** The limiter is asked at the clock's reading. */
    method Check(limiter: RateLimiter, ghost times: seq<nat>) returns (refused: Option<EnclaveError>, ghost at: nat)
      requires limiter.windowMs == WINDOW_MS && Tracks(limiter.hits, limiter.max, times) && UpTo(times, clock.now)
      modifies limiter, clock
      ensures old(clock.now) <= at <= clock.now && UpTo(times + [at], clock.now)
      ensures Tracks(limiter.hits, limiter.max, times + [at])
      ensures refused.None? ==> at == clock.now && !Over(limiter.max, times, at)
      ensures refused.Some? ==>
                && refused.value.RateLimited? && refused.value.retryAfterSeconds >= 1
                && Over(limiter.max, times, at)
    {
      var now := clock.Read();
      at := now;
      EntryAfterSnoc(None, WINDOW_MS, limiter.max, times, now);
      NeverCleared(limiter.hits, limiter.max, times);
      var ok := limiter.Allow(GLOBAL, now);
      if ok {
        return None, at;
      }
      var later := clock.Read();
      var seconds := limiter.RetryAfterSeconds(GLOBAL, later);
      return Some(RateLimited(seconds)), at;
    }

    method Mint() returns (r: Result<Address, EnclaveError>)
      requires Valid()
      modifies this`mints, mintLimiter, clock, inner`keys, inner`next, inner.disk, inner.appd`calls, inner.appd`faults
      ensures Valid() && derives == old(derives) && |mints| == |old(mints)| + 1 && old(mints) <= mints
      ensures (r.Err? && r.error.RateLimited?) <==> Over(mintLimiter.max, old(mints), mints[|mints| - 1])
      ensures r.Err? && r.error.RateLimited? ==>
                inner.appd.calls == old(inner.appd.calls) && inner.next == old(inner.next)
      ensures r.Err? && r.error.InStore? <==> inner.appd.faults > old(inner.appd.faults)
      ensures r.Ok? ==> r.value in inner.keys
    {
      var refused, at := Check(mintLimiter, mints);
      AdmittedMore(mintLimiter.max, mints, at);
      mints := mints + [at];
      if refused.Some? {
        return Err(refused.value);
      }
      ghost var before := Calls();
      var minted := inner.Mint();
      OneMoreCall(before, Calls(), at);
      return if minted.Ok? then Ok(minted.value) else Err(InStore(minted.error));
    }

    /** Charged before the lookup, so a miss is charged too. */
    method SignerFor(address: Address) returns (r: Result<Option<Address>, EnclaveError>)
      requires Valid()
      modifies this`derives, deriveLimiter, clock, inner.appd`calls, inner.appd`faults
      ensures Valid() && mints == old(mints) && |derives| == |old(derives)| + 1 && old(derives) <= derives
      ensures (r.Err? && r.error.RateLimited?) <==> Over(deriveLimiter.max, old(derives), derives[|derives| - 1])
      ensures r.Err? && r.error.RateLimited? ==> inner.appd.calls == old(inner.appd.calls)
      ensures r.Err? && r.error.InStore? <==> inner.appd.faults > old(inner.appd.faults)
      ensures r.Ok? ==> r.value == if address in inner.keys then Some(address) else None
    {
      var refused, at := Check(deriveLimiter, derives);
      AdmittedMore(deriveLimiter.max, derives, at);
      derives := derives + [at];
      if refused.Some? {
        return Err(refused.value);
      }
      ghost var before := Calls();
      var signer := inner.SignerFor(address);
      OneMoreCall(before, Calls(), at);
      return if signer.Ok? then Ok(signer.value) else Err(InStore(signer.error));
    }

    /**
     * After boot the daemon receives fewer than
     * `(mint + derive) * (ceil(L / window) + 1)` calls in any interval of
     * length `L`, whoever asks for what.
     */
    lemma DaemonCallsBounded(from: nat, to: nat)
      requires Valid() && from <= to
      ensures CallsIn(Calls(), from, to) < (mintLimiter.max + deriveLimiter.max) * (CeilDiv(to - from, WINDOW_MS) + 1)
    {
      hide CeilDiv, Admitted, CallsIn, RoflKeyStore.Valid, Tracks;
      Shares(mintLimiter.max, deriveLimiter.max, CeilDiv(to - from, WINDOW_MS) + 1);
      SlidingBound(None, WINDOW_MS, mintLimiter.max, mints, from, to);
      SlidingBound(None, WINDOW_MS, deriveLimiter.max, derives, from, to);
    }
  }

  /** The limiter's 10,000-entry clear never happens: under one key it holds one entry at most. */
  lemma NeverCleared(hits: map<string, Entry>, max: nat, times: seq<nat>)
    requires Tracks(hits, max, times)
    ensures |hits| <= 1 && Lookup(hits, GLOBAL) == EntryAfter(None, WINDOW_MS, max, times)
    ensures forall entry :: hits[GLOBAL := entry] == map[GLOBAL := entry]
  {
  }

  lemma AdmittedMore(max: nat, times: seq<nat>, at: nat)
    ensures forall from: nat, to: nat :: Admitted(None, WINDOW_MS, max, times + [at], from, to) ==
              Admitted(None, WINDOW_MS, max, times, from, to)
              + if Hit(EntryAfter(None, WINDOW_MS, max, times), WINDOW_MS, max, at).1 && from <= at < to then 1 else 0
  {
    forall from: nat, to: nat
      ensures Admitted(None, WINDOW_MS, max, times + [at], from, to) ==
                Admitted(None, WINDOW_MS, max, times, from, to)
                + if Hit(EntryAfter(None, WINDOW_MS, max, times), WINDOW_MS, max, at).1 && from <= at < to then 1 else 0
    {
      AdmittedSnoc(None, WINDOW_MS, max, times, at, from, to);
    }
  }

  lemma Shares(a: nat, b: nat, k: nat)
    ensures (a + b) * k == a * k + b * k
  {
  }

  lemma OneMoreCall(before: seq<nat>, after: seq<nat>, at: nat)
    requires after == before || after == before + [at]
    ensures forall from: nat, to: nat ::
              CallsIn(after, from, to) <= CallsIn(before, from, to) + if from <= at < to then 1 else 0
  {
    if after == before + [at] {
      assert after[..|after| - 1] == before;
    }
  }
}
