/**
 * The fixed-window limiter (packages/shared/src/node/guard.ts) and how many
 * calls it really admits.
 */
module RateLimit {
  import opened Wrappers
  import opened Sums

  /** `Date.now()`, in milliseconds; it never goes back. */
  class Clock {
    var now: nat

    constructor ()
      ensures now == 0
    {
      now := 0;
    }

    method Read() returns (t: nat)
      modifies this
      ensures now >= old(now) && t == now
    {
      var passed :| 0 <= passed;
      now := now + passed;
      t := now;
    }
  }

  datatype Entry = Entry(count: nat, resetAt: nat)

  const MAX_ENTRIES := 10_000

  /** What one call does to its key's entry, and whether it is admitted. */
  function Hit(entry: Option<Entry>, windowMs: nat, max: nat, now: nat): (Entry, bool) {
    if entry.None? || now >= entry.value.resetAt then (Entry(1, now + windowMs), true)
    else (Entry(entry.value.count + 1, entry.value.resetAt), entry.value.count + 1 <= max)
  }

  function Lookup(hits: map<string, Entry>, key: string): Option<Entry> {
    if key in hits then Some(hits[key]) else None
  }

  function CeilDiv(a: nat, b: nat): nat
    requires b > 0
  {
    (a + b - 1) / b
  }

  class RateLimiter {
    var hits: map<string, Entry>
    const windowMs: nat
    const max: nat

    constructor (windowMs: nat, max: nat)
      ensures hits == map[] && this.windowMs == windowMs && this.max == max
    {
      this.windowMs, this.max, hits := windowMs, max, map[];
    }

    /** Other keys' entries go only when a new window finds the map over its bound. */
    method Allow(key: string, now: nat) returns (ok: bool)
      modifies this
      ensures var (entry, admitted) := Hit(Lookup(old(hits), key), windowMs, max, now);
              && ok == admitted && key in hits && hits[key] == entry
              && hits.Keys <= old(hits.Keys) + {key}
              && (|old(hits)| <= MAX_ENTRIES || entry.count > 1 ==> hits == old(hits)[key := entry])
    {
      if key !in hits || now >= hits[key].resetAt {
        if |hits| > MAX_ENTRIES {
          hits := map[];
        }
        hits := hits[key := Entry(1, now + windowMs)];
        return true;
      }
      var entry := hits[key];
      hits := hits[key := Entry(entry.count + 1, entry.resetAt)];
      return entry.count + 1 <= max;
    }

    /**
     * Whole seconds until the key's window resets, at least one: who waits them
     * is admitted, if nobody called since.
     */
    method RetryAfterSeconds(key: string, now: nat) returns (seconds: nat)
      ensures key !in hits ==> seconds == 0
      ensures key in hits ==> seconds >= 1 && now + 1_000 * seconds >= hits[key].resetAt
      ensures key in hits && seconds > 1 ==> now + 1_000 * (seconds - 1) < hits[key].resetAt
      ensures forall later :: later >= now + 1_000 * seconds ==> Hit(Lookup(hits, key), windowMs, max, later).1
    {
      if key !in hits {
        return 0;
      }
      var left := hits[key].resetAt as int - now as int;
      seconds := if left <= 1_000 then 1 else CeilDiv(left, 1_000);
    }
  }

  // ------------------------------------------------ the sliding-window bound

  /** How many of these calls, made from state `entry`, are admitted at a time in `[from, to)`. */
  function Admitted(entry: Option<Entry>, windowMs: nat, max: nat, times: seq<nat>, from: nat, to: nat): nat
    decreases |times|
  {
    if times == [] then 0 else
      var (next, ok) := Hit(entry, windowMs, max, times[0]);
      (if ok && from <= times[0] < to then 1 else 0) + Admitted(Some(next), windowMs, max, times[1..], from, to)
  }

  predicate Sorted(times: seq<nat>) {
    forall i, j :: 0 <= i < j < |times| ==> times[i] <= times[j]
  }

  /** What the present window may still admit, and when the next one can open. */
  function Rest(entry: Option<Entry>, max: nat, t: nat): nat {
    if entry.Some? && t < entry.value.resetAt && entry.value.count < max then max - entry.value.count else 0
  }

  function NextWindow(entry: Option<Entry>, t: nat): nat {
    if entry.Some? && t < entry.value.resetAt then entry.value.resetAt else t
  }

  function Windows(windowMs: nat, from: nat, to: nat): nat
    requires windowMs > 0
  {
    if from < to then CeilDiv(to - from, windowMs) else 0
  }

  /** One window less to go. */
  lemma WindowsStep(windowMs: nat, at: nat, to: nat)
    requires windowMs > 0 && at < to
    ensures Windows(windowMs, at, to) == 1 + Windows(windowMs, at + windowMs, to)
  {
    if at + windowMs < to {
      var left := to - (at + windowMs);
      assert (to - at) + windowMs - 1 == (left + windowMs - 1) + windowMs;
      DivStep(left + windowMs - 1, windowMs);
    } else {
      DivIs((to - at) + windowMs - 1, windowMs, 1);
    }
  }

  lemma MulOrder(x: nat, y: nat, b: nat)
    ensures x < y ==> x * b + b <= y * b
  {
    if x + 1 < y {
      MulOrder(x, y - 1, b);
      assert (y - 1) * b == y * b - b;
    }
  }

  lemma DivIs(a: nat, b: nat, q: nat)
    requires b > 0 && q * b <= a < q * b + b
    ensures a / b == q
  {
    assert a == (a / b) * b + a % b;
    MulOrder(a / b, q, b);
    MulOrder(q, a / b, b);
  }

  lemma DivStep(a: nat, b: nat)
    requires b > 0
    ensures (a + b) / b == a / b + 1
  {
    DivIs(a + b, b, a / b + 1);
  }

  lemma WindowsShrink(windowMs: nat, at: nat, later: nat, to: nat)
    requires windowMs > 0 && at <= later
    ensures Windows(windowMs, later, to) <= Windows(windowMs, at, to)
  {
    if later < to { DivGrows(to - later + windowMs - 1, to - at + windowMs - 1, windowMs); }
  }

  lemma DivGrows(a: nat, c: nat, b: nat)
    requires b > 0 && a <= c
    ensures a / b <= c / b
  {
    assert a == (a / b) * b + a % b && c == (c / b) * b + c % b;
    MulOrder(c / b, a / b, b);
  }

  /** The bound from `t` on: the rest of this window, and `max` for each that fits before `to`. */
  function Budget(entry: Option<Entry>, windowMs: nat, max: nat, t: nat, to: nat): nat
    requires windowMs > 0
  {
    Rest(entry, max, t) + max * Windows(windowMs, NextWindow(entry, t), to)
  }

  /** A later look has no more budget. */
  lemma BudgetShrinks(entry: Option<Entry>, windowMs: nat, max: nat, t: nat, later: nat, to: nat)
    requires windowMs > 0 && t <= later
    ensures Budget(entry, windowMs, max, later, to) <= Budget(entry, windowMs, max, t, to)
  {
    WindowsShrink(windowMs, NextWindow(entry, t), NextWindow(entry, later), to);
    ScaledAtMost(max, Windows(windowMs, NextWindow(entry, later), to), Windows(windowMs, NextWindow(entry, t), to));
  }

  /** Each admitted call pays one of its budget. */
  lemma BudgetPays(entry: Option<Entry>, windowMs: nat, max: nat, t: nat, to: nat)
    requires windowMs > 0 && max >= 1 && t < to
    ensures var (next, ok) := Hit(entry, windowMs, max, t);
            Budget(Some(next), windowMs, max, t, to) + (if ok then 1 else 0) <= Budget(entry, windowMs, max, t, to)
  {
    if entry.None? || t >= entry.value.resetAt {
      WindowsStep(windowMs, t, to);
      var more := Windows(windowMs, t + windowMs, to);
      assert max * (1 + more) == max + max * more;
    }
  }

  lemma {:induction false} AdmittedFrom(entry: Option<Entry>, windowMs: nat, max: nat, times: seq<nat>, t: nat,
                                        from: nat, to: nat)
    requires windowMs > 0 && max >= 1 && Sorted(times) && forall i :: 0 <= i < |times| ==> t <= times[i]
    ensures Admitted(entry, windowMs, max, times, from, to) <= Budget(entry, windowMs, max, t, to)
    decreases |times|
  {
    hide Budget;
    if times == [] {
    } else {
      var now := times[0];
      var (next, ok) := Hit(entry, windowMs, max, now);
      BudgetShrinks(entry, windowMs, max, t, now, to);
      assert forall i :: 0 <= i < |times[1..]| ==> now <= times[1..][i];
      if now < to {
        BudgetPays(entry, windowMs, max, now, to);
        AdmittedFrom(Some(next), windowMs, max, times[1..], now, from, to);
      } else {
        NoneAdmitted(Some(next), windowMs, max, times[1..], from, to);
      }
    }
  }

  lemma {:induction false} NoneAdmitted(entry: Option<Entry>, windowMs: nat, max: nat, times: seq<nat>, from: nat,
                                        to: nat)
    requires forall i :: 0 <= i < |times| ==> times[i] >= to
    ensures Admitted(entry, windowMs, max, times, from, to) == 0
    decreases |times|
  {
    if times == [] {
    } else {
      NoneAdmitted(Some(Hit(entry, windowMs, max, times[0]).0), windowMs, max, times[1..], from, to);
    }
  }

  /** An entry is made by a call, which it counts. */
  predicate Counted(entry: Option<Entry>) {
    entry.Some? ==> entry.value.count >= 1
  }

  /**
   * The real rate: over any half-open interval of length `L`, fewer than
   * `max * (ceil(L / window) + 1)` calls of one key are admitted, from any
   * state of its entry and however the calls fall.
   */
  lemma {:induction false} SlidingBound(entry: Option<Entry>, windowMs: nat, max: nat, times: seq<nat>, from: nat,
                                        to: nat)
    requires windowMs > 0 && max >= 1 && Counted(entry) && Sorted(times) && from <= to
    ensures Admitted(entry, windowMs, max, times, from, to) < max * (CeilDiv(to - from, windowMs) + 1)
    decreases |times|
  {
    hide CeilDiv;
    if times != [] && times[0] < from {
      SlidingBound(Some(Hit(entry, windowMs, max, times[0]).0), windowMs, max, times[1..], from, to);
    } else {
      AdmittedFrom(entry, windowMs, max, times, from, from, to);
      BudgetAtMost(entry, windowMs, max, from, to);
    }
  }

  lemma BudgetAtMost(entry: Option<Entry>, windowMs: nat, max: nat, from: nat, to: nat)
    requires windowMs > 0 && from <= to && max >= 1 && Counted(entry)
    ensures Budget(entry, windowMs, max, from, to) < max * (CeilDiv(to - from, windowMs) + 1)
  {
    WindowsShrink(windowMs, from, NextWindow(entry, from), to);
    ScaledAtMost(max, Windows(windowMs, NextWindow(entry, from), to), CeilDiv(to - from, windowMs));
  }

  function Repeat(t: nat, k: nat): seq<nat> {
    seq(k, _ => t)
  }

  /** Calls inside an open window are admitted until it is full. */
  lemma {:induction false} BurstInWindow(count: nat, resetAt: nat, windowMs: nat, max: nat, t: nat, k: nat,
                                         rest: seq<nat>, from: nat, to: nat)
    requires t < resetAt && from <= t < to && count + k <= max
    ensures Admitted(Some(Entry(count, resetAt)), windowMs, max, Repeat(t, k) + rest, from, to) ==
              k + Admitted(Some(Entry(count + k, resetAt)), windowMs, max, rest, from, to)
    decreases k
  {
    if k == 0 {
      assert Repeat(t, k) + rest == rest;
    } else {
      assert (Repeat(t, k) + rest)[1..] == Repeat(t, k - 1) + rest;
      BurstInWindow(count + 1, resetAt, windowMs, max, t, k - 1, rest, from, to);
    }
  }

  /** The bound is reached: all but one of twice the limit within one window length, across a boundary. */
  lemma BoundIsReached(max: nat, windowMs: nat)
    requires max >= 1 && windowMs >= 2
    ensures var times := [0] + (Repeat(1, max - 1) + Repeat(windowMs, max));
            Sorted(times) && Admitted(None, windowMs, max, times, 1, 1 + windowMs) == 2 * max - 1
  {
    var late := Repeat(windowMs, max);
    var times := [0] + (Repeat(1, max - 1) + late);
    assert times[1..] == Repeat(1, max - 1) + late;
    BurstInWindow(1, windowMs, windowMs, max, 1, max - 1, late, 1, 1 + windowMs);
    assert late[1..] == Repeat(windowMs, max - 1) && Repeat(windowMs, max - 1) == Repeat(windowMs, max - 1) + [];
    BurstInWindow(1, 2 * windowMs, windowMs, max, windowMs, max - 1, [], 1, 1 + windowMs);
  }

  /** A zero limit still admits the first call of every window. */
  lemma ZeroAdmitsOne(windowMs: nat, now: nat)
    requires windowMs > 0
    ensures Admitted(None, windowMs, 0, [now], now, now + 1) == 1
  {
  }

  // --------------------------------------------- one limiter's own history

  /** One more call: admitted or not by the entry the earlier ones left. */
  lemma {:induction false} AdmittedSnoc(entry: Option<Entry>, windowMs: nat, max: nat, times: seq<nat>, now: nat,
                                        from: nat, to: nat)
    ensures Admitted(entry, windowMs, max, times + [now], from, to) ==
              Admitted(entry, windowMs, max, times, from, to)
              + if Hit(EntryAfter(entry, windowMs, max, times), windowMs, max, now).1 && from <= now < to then 1 else 0
    decreases |times|
  {
    if times == [] {
      assert [] + [now] == [now];
    } else {
      assert (times + [now])[1..] == times[1..] + [now];
      AdmittedSnoc(Some(Hit(entry, windowMs, max, times[0]).0), windowMs, max, times[1..], now, from, to);
    }
  }

  /** The entry a list of calls leaves, from `entry` on. */
  function EntryAfter(entry: Option<Entry>, windowMs: nat, max: nat, times: seq<nat>): Option<Entry>
    decreases |times|
  {
    if times == [] then entry else EntryAfter(Some(Hit(entry, windowMs, max, times[0]).0), windowMs, max, times[1..])
  }

  lemma {:induction false} EntryAfterSnoc(entry: Option<Entry>, windowMs: nat, max: nat, times: seq<nat>, now: nat)
    ensures EntryAfter(entry, windowMs, max, times + [now]) ==
              Some(Hit(EntryAfter(entry, windowMs, max, times), windowMs, max, now).0)
    decreases |times|
  {
    if times == [] {
      assert [] + [now] == [now];
    } else {
      assert (times + [now])[1..] == times[1..] + [now];
      EntryAfterSnoc(Some(Hit(entry, windowMs, max, times[0]).0), windowMs, max, times[1..], now);
    }
  }
}
