/** The resource client and its response cache (services/orchestrator/src/x402). */
module X402Client {
  import opened Wrappers
  import opened Json
  import opened Events
  import opened Sums
  import opened RunLanguage

  datatype Response = Response(body: Value, settlement: Option<Value>)

  datatype Cached = Cached(response: Response, storedAt: nat)

  datatype Outcome =
    | Fetched(response: Response, fromCache: bool)
    /** A well-formed 402 whose terms can be paid, or cannot: `None`. */
    | PaymentDemanded(terms: Option<Terms>)
    | FetchFailed

  /** `InMemoryResponseCache`. */
  class ResponseCache {
    var entries: map<string, Cached>
    const ttlMs: Option<nat>

    constructor (ttlMs: Option<nat>)
      ensures entries == map[] && this.ttlMs == ttlMs
    {
      this.ttlMs, entries := ttlMs, map[];
    }

    /** An entry that is too old, deleted by the read that finds it so. */
    predicate Stale(key: string, now: nat)
      reads this`entries
    {
      key in entries && ttlMs.Some? && now - entries[key].storedAt > ttlMs.value
    }

    method Get(key: string, now: nat) returns (hit: Option<Response>)
      modifies this
      ensures hit == if key in old(entries) && !old(Stale(key, now)) then Some(old(entries)[key].response) else None
      ensures entries == if old(Stale(key, now)) then old(entries) - {key} else old(entries)
    {
      if key !in entries {
        return None;
      }
      if Stale(key, now) {
        entries := entries - {key};
        return None;
      }
      return Some(entries[key].response);
    }

    method Set(key: string, response: Response, now: nat)
      modifies this
      ensures entries == old(entries)[key := Cached(response, now)]
    {
      entries := entries[key := Cached(response, now)];
    }
  }

  /** `round(base * factor ** (attempt - 1))` for whole numbers. */
  function BackoffDelay(attempt: nat, base: nat, factor: nat): nat
    requires attempt >= 1
  {
    if attempt == 1 then base else BackoffDelay(attempt - 1, base, factor) * factor
  }

  /** What the network answers one request: anything. */
  datatype NetworkAnswer =
    | TransportError
    | Status200(response: Option<Response>)
    | Status402(wellFormed: bool, terms: Option<Terms>)
    | ServerError
    | OtherStatus

  /** One request that left the process, and what came back. */
  datatype Exchange = Exchange(url: string, payment: Option<SignedAuthorization>, answer: NetworkAnswer)

  class Client {
    const cache: ResponseCache
    const maxAttempts: nat
    const baseDelayMs: nat
    const factor: nat
    /** Every wait between two attempts, in milliseconds. */
    ghost var waits: seq<nat>
    /** Every request that left the process. */
    ghost var exchanges: seq<Exchange>

    constructor (ttlMs: Option<nat>, maxAttempts: nat, baseDelayMs: nat, factor: nat)
      ensures fresh(cache) && cache.entries == map[] && cache.ttlMs == ttlMs && exchanges == [] && waits == []
      ensures this.maxAttempts == maxAttempts && this.baseDelayMs == baseDelayMs && this.factor == factor
    {
      this.cache := new ResponseCache(ttlMs);
      this.maxAttempts, this.baseDelayMs, this.factor := maxAttempts, baseDelayMs, factor;
      exchanges, waits := [], [];
    }

    method Sleep(ms: nat)
      modifies this`waits
      ensures waits == old(waits) + [ms]
    {
      waits := waits + [ms];
    }

    /** One GET, with the X-PAYMENT header when there is a payment. */
    method Send(url: string, payment: Option<SignedAuthorization>) returns (answer: NetworkAnswer)
      modifies this`exchanges
      ensures exchanges == old(exchanges) + [Exchange(url, payment, answer)]
    {
      var body: Value := *;
      var settlement: Option<Value> := *;
      var terms: Option<Terms> := *;
      var kind: int := *;
      var good: bool := *;
      answer := if kind == 0 then TransportError
        else if kind == 1 then Status200(if good then Some(Response(body, settlement)) else None)
        else if kind == 2 then Status402(good, terms)
        else if kind == 3 then ServerError
        else OtherStatus;
      exchanges := exchanges + [Exchange(url, payment, answer)];
    }

    /**
     * A cached 200 answers without a request unless the caller pays or asks
     * for a fresh purchase. Otherwise requests leave until one answer is not a
     * transport failure or a 5xx, at most `maxAttempts` of them, and that answer
     * decides. Between two attempts, and only there, it waits what the policy
     * says. A 200 is always stored; nothing else ever is.
     */
    method FetchResource(url: string, payment: Option<SignedAuthorization>, isFresh: bool, now: nat)
      returns (r: Outcome)
      modifies this`exchanges, this`waits, cache
      ensures payment.None? && !isFresh && url in old(cache.entries) && !old(cache.Stale(url, now)) ==>
                && r == Fetched(old(cache.entries)[url].response, true)
                && exchanges == old(exchanges) && cache.entries == old(cache.entries)
      ensures r.Fetched? && r.fromCache ==>
                payment.None? && !isFresh && exchanges == old(exchanges) && waits == old(waits)
      ensures !(r.Fetched? && r.fromCache) ==>
                && old(exchanges) <= exchanges
                && Decides(exchanges[|old(exchanges)|..], url, payment, maxAttempts, r)
                && waits == old(waits) + Backoff(|exchanges| - |old(exchanges)| - 1, baseDelayMs, factor)
      ensures r.Fetched? ==> url in cache.entries && cache.entries[url].response == r.response
      ensures r.Fetched? && !r.fromCache ==> cache.entries[url].storedAt == now
      ensures !r.Fetched? && (payment.Some? || isFresh || url !in old(cache.entries)) ==>
                cache.entries == old(cache.entries)
      ensures forall key :: key in old(cache.entries) && key != url ==>
                key in cache.entries && cache.entries[key] == old(cache.entries)[key]
    {
      hide Backoff, BackoffDelay;
      NoBackoff(baseDelayMs, factor);
      if payment.None? && !isFresh {
        var hit := cache.Get(url, now);
        if hit.Some? {
          return Fetched(hit.value, true);
        }
      }
      ghost var entries := cache.entries;
      for attempt := 1 to maxAttempts + 1
        invariant old(exchanges) <= exchanges && |exchanges| == |old(exchanges)| + attempt - 1
        invariant forall i :: |old(exchanges)| <= i < |exchanges| ==>
                    && exchanges[i].url == url && exchanges[i].payment == payment
                    && Retryable(exchanges[i].answer)
        invariant attempt == maxAttempts + 1 ==> maxAttempts == 0
        invariant waits == old(waits) + Backoff(attempt - 1, baseDelayMs, factor)
        invariant cache.entries == entries
      {
        var answer := Send(url, payment);
        match answer {
          case Status200(body) =>
            if body.None? {
              return FetchFailed;
            }
            cache.Set(url, body.value, now);
            return Fetched(body.value, false);
          case Status402(wellFormed, terms) =>
            return if wellFormed then PaymentDemanded(terms) else FetchFailed;
          case OtherStatus =>
            return FetchFailed;
          case _ =>
            // A transport failure or a 5xx: wait and try again, up to the bound.
            if attempt == maxAttempts {
              return FetchFailed;
            }
            BackoffGrows(attempt, baseDelayMs, factor);
            Sleep(BackoffDelay(attempt, baseDelayMs, factor));
        }
      }
      return FetchFailed;
    }
  }

  predicate Retryable(a: NetworkAnswer) {
    a.TransportError? || a.ServerError?
  }

  /** What one final answer means. */
  function Meaning(a: NetworkAnswer): Outcome {
    match a
    case Status200(Some(response)) => Fetched(response, false)
    case Status402(true, terms) => PaymentDemanded(terms)
    case _ => FetchFailed
  }

  /**
   * All of one URL and with one payment; only retryable answers before the
   * last; and the last decides, or the attempts ran out.
   */
  predicate Decides(made: seq<Exchange>, url: string, payment: Option<SignedAuthorization>, maxAttempts: nat,
                    r: Outcome)
  {
    && |made| <= maxAttempts
    && (forall i :: 0 <= i < |made| ==> made[i].url == url && made[i].payment == payment)
    && (forall i :: 0 <= i < |made| - 1 ==> Retryable(made[i].answer))
    && if made != [] && !Retryable(made[|made| - 1].answer) then r == Meaning(made[|made| - 1].answer)
       else |made| == maxAttempts && r == FetchFailed
  }

  /** The waits after the first `n` attempts of one request. */
  function Backoff(n: int, base: nat, factor: nat): seq<nat> {
    if n <= 0 then [] else Backoff(n - 1, base, factor) + [BackoffDelay(n, base, factor)]
  }

  lemma NoBackoff(base: nat, factor: nat)
    ensures Backoff(0, base, factor) == Backoff(-1, base, factor) == []
  {
  }

  lemma BackoffGrows(n: nat, base: nat, factor: nat)
    requires n >= 1
    ensures Backoff(n, base, factor) == Backoff(n - 1, base, factor) + [BackoffDelay(n, base, factor)]
  {
  }

  /**
   * What a request waits in all: `n` waits are a geometric sum, so with the
   * default policy they fall one first delay short of the next one.
   */
  lemma {:induction false} BackoffTotal(n: nat, base: nat, factor: nat)
    requires factor >= 1
    ensures (factor - 1) * Total(Backoff(n, base, factor)) + base == BackoffDelay(n + 1, base, factor)
  {
    if n == 0 {
    } else {
      BackoffTotal(n - 1, base, factor);
      var before, delay := Total(Backoff(n - 1, base, factor)), BackoffDelay(n, base, factor);
      TotalAppend(Backoff(n - 1, base, factor), delay);
      OneMoreTerm(factor, before, delay);
    }
  }

  lemma OneMoreTerm(factor: int, before: int, delay: int)
    ensures (factor - 1) * (before + delay) == (factor - 1) * before + delay * factor - delay
  {
  }
}
