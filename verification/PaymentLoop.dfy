/**
 * The payment loop (services/orchestrator/src/pay/payment-loop.ts) and the
 * bounded poll it uses (services/orchestrator/src/inco/reveal.ts). The vendor,
 * the agent, Inco, the signer's answers and the chain's nodes answer anything.
 */
module PaymentLoop {
  import opened Wrappers
  import opened Hashing
  import opened HexText
  import opened Json
  import opened Vault
  import Signer
  import opened Protocol
  import opened Guarantees
  import opened Events
  import opened RunLanguage
  import opened Environment
  import opened Relay
  import opened X402Client
  import opened SignerClient

  const RECLAIM_GRACE_MS := 4_000
  const REVEAL_WAITING_EVERY_MS := 5_000

  datatype FailReason =
    | FirstFetchFailed | TermsUnusable | AgentDeclined | OrphanBlocked | HoldTooShort | CommitFailed | FinalizeFailed
    /** After approval: the signer refused, signed other terms, or the vendor did not deliver. */
    | SignerFailed | TermsMismatch | PaymentFailed

  datatype PaymentResult =
    | FreeResult(data: Value)
    | PaidResult(data: Value, spend: Spend, terms: Events.Terms, settlement: Option<Value>)
    | PolicyRejected(spend: Spend, terms: Events.Terms)
    | DecisionUnavailable(spend: Spend)
    | FailedResult(reason: FailReason)

  /** What the first request and the agent leave of a run. */
  datatype Quote = Stop(result: PaymentResult) | Go(terms: Events.Terms, quotedAt: nat)

  /** What Inco reveals. `genuine`: the signatures are the covalidators' over this decision. */
  datatype Reveal = Reveal(approved: bool, genuine: bool, signatures: seq<Hex>)

  /**
   * What the outside answered one run: the requests up to the first answer,
   * that answer, and if there was a quote its time, the orphan a node showed,
   * and what Inco revealed of the orphan's decision and of the run's own.
   */
  datatype Heard = Heard(afterFirst: seq<Exchange>, first: Outcome, quotedAt: nat, pending: nat,
                         orphan: Option<Reveal>, own: Option<Reveal>)

  datatype PollOutcome =
    | Decision(approved: bool, genuine: bool, signatures: seq<Hex>, attempts: nat, latencyMs: int)
    | TimedOut(attempts: nat, elapsedMs: int)

  /** The end of the run language a result stands for. */
  predicate EndsAs(q: Phase, r: PaymentResult) {
    match r
    case FreeResult(_) => q == Ended(Free)
    case PaidResult(_, spend, _, _) => q == Ended(PaidFor(spend))
    case PolicyRejected(spend, _) => q == Ended(Rejected(spend))
    case DecisionUnavailable(spend) => q == Ended(Unavailable(spend))
    case FailedResult(reason) =>
      if reason.SignerFailed? || reason.TermsMismatch? || reason.PaymentFailed? then q.Reclaiming?
      else if reason.FinalizeFailed? then q == Ended(FailedEarly)
      else if reason.CommitFailed? then q == Ended(NothingCommitted) || q == Ended(FailedEarly)
      else q == Ended(NothingCommitted)
  }

  /**
   * `reclaimed` means given back and never to be paid, whatever follows;
   * `collected` means the token has consumed the nonce.
   */
  ghost predicate ReportIsTrue(h: Hasher, d: Deployment, s: System, goalId: nat, spendSeq: nat, report: ReclaimReport)
    requires s.past != []
  {
    && (report.IsReclaimed? ==> Reclaimed(Head(s).vault, goalId, spendSeq) && NeverConsumed(h, d, s, goalId, spendSeq))
    && (report.IsCollected? ==> Consumed(h, d, Head(s), goalId, spendSeq))
  }

  class PaymentLoop {
    const world: World
    const relay: VaultRelay
    const client: Client
    const minHoldSeconds: nat
    const reclaimWaitMs: nat
    const signerRetries: nat
    const timeoutMs: nat
    const intervalMs: nat

    ghost predicate Valid()
      reads relay`finalized, relay.world`s, relay.world`actions
    {
      relay.world == world && relay.Valid()
    }

    constructor (world: World, relay: VaultRelay, client: Client, minHoldSeconds: nat, reclaimWaitMs: nat,
                 signerRetries: nat, timeoutMs: nat, intervalMs: nat)
      requires relay.world == world && relay.Valid()
      ensures Valid() && this.world == world && this.relay == relay && this.client == client
      ensures this.minHoldSeconds == minHoldSeconds && this.reclaimWaitMs == reclaimWaitMs
      ensures this.signerRetries == signerRetries && this.timeoutMs == timeoutMs && this.intervalMs == intervalMs
    {
      this.world, this.relay, this.client := world, relay, client;
      this.minHoldSeconds, this.reclaimWaitMs, this.signerRetries := minHoldSeconds, reclaimWaitMs, signerRetries;
      this.timeoutMs, this.intervalMs := timeoutMs, intervalMs;
    }

    /** One event to the sinks of the run. */
    method EmitEvent(goalId: nat, e: PaymentEvent)
      requires !DeltaEvent(goalId, PhaseOf(goalId, world.log), e).Illegal?
      modifies world`log
      ensures world.log == old(world.log) + [Emit(e)]
      ensures PhaseOf(goalId, world.log) == DeltaEvent(goalId, old(PhaseOf(goalId, world.log)), e)
      ensures Payments(world.log) == old(Payments(world.log))
    {
      PhaseSnoc(goalId, world.log, Emit(e));
      PaymentsSnoc(world.log, Emit(e));
      world.Note(Emit(e));
    }

    /** One read of the decision: not there yet, not answered, or revealed. */
    method AskInco() returns (answer: Option<Reveal>)
    {
      var ready: bool := *;
      var approved: bool := *;
      var genuine: bool := *;
      var signatures: seq<Hex> := *;
      answer := if ready then Some(Reveal(approved, genuine, signatures)) else None;
    }

    /** Says every five seconds that the run still waits. */
    method ReportWaiting(goalId: nat, attempts: nat, elapsedMs: int, before: int) returns (reportedAt: int)
      requires PhaseOf(goalId, world.log).Committed?
      modifies world`log
      ensures PhaseOf(goalId, world.log) == old(PhaseOf(goalId, world.log))
      ensures reportedAt == if elapsedMs - before >= REVEAL_WAITING_EVERY_MS then elapsedMs else before
      ensures world.log == old(world.log) +
                if reportedAt == before then [] else [Emit(RevealWaiting(attempts, elapsedMs))]
    {
      hide PhaseOf, Payments, Delta, DeltaEvent;
      reportedAt := before;
      if elapsedMs - before >= REVEAL_WAITING_EVERY_MS {
        WaitingStays(goalId, PhaseOf(goalId, world.log), attempts, elapsedMs);
        EmitEvent(goalId, RevealWaiting(attempts, elapsedMs));
        reportedAt := elapsedMs;
      }
    }

    /**
     * `pollForDecision`: reads until a decision comes or the deadline passes.
     * Reads are an interval apart, so their number is bounded. With `report`
     * it says every five seconds that it still waits. `answers` are Inco's.
     */
    method PollForDecision(goalId: nat, report: bool) returns (o: PollOutcome, ghost answers: seq<Option<Reveal>>)
      requires report ==> PhaseOf(goalId, world.log).Committed?
      modifies world`clock, world`log
      ensures world.clock >= old(world.clock)
      ensures PhaseOf(goalId, world.log) == old(PhaseOf(goalId, world.log))
      ensures !report ==> world.log == old(world.log)
      ensures old(world.log) <= world.log
      ensures o.attempts == 0 || Span(o.attempts - 1, intervalMs) < timeoutMs
      ensures |answers| == o.attempts && IsPoll(o, answers)
      ensures o.TimedOut? ==> world.clock >= old(world.clock) + timeoutMs
    {
      hide PhaseOf, Payments, Delta, DeltaEvent, Span, IsPoll;
      NoSpan(intervalMs);
      var started := world.Now();
      var deadline := started + timeoutMs;
      var attempts: nat := 0;
      var reportedAt: int := 0;
      answers := [];
      ghost var phase := PhaseOf(goalId, world.log);
      var now := world.Now();
      while now < deadline
        invariant old(world.clock) <= started && now <= world.clock && started + Span(attempts, intervalMs) <= now
        invariant attempts == 0 || Span(attempts - 1, intervalMs) < timeoutMs
        invariant |answers| == attempts && forall i :: 0 <= i < attempts ==> answers[i].None?
        invariant PhaseOf(goalId, world.log) == phase
        invariant !report ==> world.log == old(world.log)
        invariant old(world.log) <= world.log
        decreases deadline - now
      {
        attempts := attempts + 1;
        SpanMore(attempts, intervalMs);
        var answer := AskInco();
        answers := answers + [answer];
        if answer.Some? {
          var seen := answer.value;
          var answered := world.Now();
          o := Decision(seen.approved, seen.genuine, seen.signatures, attempts, answered - started);
          PolledSo(o, answers);
          return;
        }
        var at := world.Now();
        if report {
          reportedAt := ReportWaiting(goalId, attempts, at - started, reportedAt);
        }
        world.Sleep(intervalMs);
        now := world.Now();
      }
      var end := world.Now();
      o := TimedOut(attempts, end - started);
      PolledSo(o, answers);
    }

    /** One `reclaim` event; the run stays where it is. */
    method Report(goalId: nat, spendSeq: nat, report: ReclaimReport, validBefore: nat)
      requires InReclaim(PhaseOf(goalId, world.log), spendSeq)
      modifies world`log
      ensures world.log == old(world.log) + [Emit(ReclaimEvent(goalId, spendSeq, report, validBefore))]
      ensures PhaseOf(goalId, world.log) == old(PhaseOf(goalId, world.log))
    {
      EmitEvent(goalId, ReclaimEvent(goalId, spendSeq, report, validBefore));
    }

    /** The vault is asked, and its answer is reported. */
    method AskVault(goalId: nat, spendSeq: nat, validBefore: nat)
      returns (report: ReclaimReport, ghost outcome: Result<ReclaimOutcome, RelayError>)
      requires Valid() && InReclaim(PhaseOf(goalId, world.log), spendSeq)
      modifies world`s, world`actions, world`faults, world`clock, world`log
      ensures world.faults >= old(world.faults)
      ensures world.clock >= old(world.clock)
      ensures Valid() && Extends(old(world.s), world.s)
      ensures PhaseOf(goalId, world.log) == old(PhaseOf(goalId, world.log))
      ensures Quiet(old(world.log), world.log)
      ensures LastIs(world.log, Emit(ReclaimEvent(goalId, spendSeq, report, validBefore)))
      ensures ReportIsTrue(world.h, world.d, world.s, goalId, spendSeq, report)
      ensures Reports(outcome, report)
      ensures outcome == Ok(StillLive) ==> world.clock >= old(world.clock) + 10_000
      ensures report.HasFailed? ==> ReclaimExcused(world.h, world.d, world.s, goalId, spendSeq,
                                                   world.faults > old(world.faults))
    {
      hide VaultRelay.Valid, Extends, Inv, Run, Reclaimed, Consumed, PhaseOf, Payments, ReclaimRefused;
      ghost var log := world.log;
      var answer, attempts := relay.ReclaimExpired(goalId, spendSeq);
      outcome := answer;
      ReclaimTxStays(goalId, log, spendSeq);
      report := match answer
        case Ok(WasReclaimed) => IsReclaimed
        case Ok(AlreadyBack) => IsReclaimed
        case Ok(WasCollected) => IsCollected
        case Ok(StillLive) => IsDeferred
        case Err(_) => HasFailed;
      relay.HasPast();
      if report.IsReclaimed? {
        relay.ReclaimedForGood(goalId, spendSeq);
      }
      Report(goalId, spendSeq, report, validBefore);
    }

    /**
     * `#reclaim`: waits out a window that closes soon, asks the vault, and
     * reports what really happened to the money. The vault is asked only after
     * the window and its grace, and its answer is `outcome`; it is not asked at
     * all when that is too far off.
     */
    method ReclaimSpend(goalId: nat, spendSeq: nat, validBefore: nat, wait: bool)
      returns (report: ReclaimReport, ghost outcome: Option<Result<ReclaimOutcome, RelayError>>)
      requires Valid() && InReclaim(PhaseOf(goalId, world.log), spendSeq)
      modifies world`s, world`actions, world`faults, world`clock, world`log
      ensures world.faults >= old(world.faults)
      ensures world.clock >= old(world.clock)
      ensures Valid() && Extends(old(world.s), world.s)
      ensures PhaseOf(goalId, world.log) == old(PhaseOf(goalId, world.log))
      ensures Quiet(old(world.log), world.log)
      ensures LastIs(world.log, Emit(ReclaimEvent(goalId, spendSeq, report, validBefore)))
      ensures ReportIsTrue(world.h, world.d, world.s, goalId, spendSeq, report)
      ensures report.IsDeferred? || world.clock >= validBefore * 1_000 + RECLAIM_GRACE_MS
      ensures validBefore * 1_000 + RECLAIM_GRACE_MS - world.clock > (if wait then reclaimWaitMs else 0) ==>
                report.IsDeferred? && world.s == old(world.s)
      ensures if outcome.Some? then Reports(outcome.value, report)
                else
                  && report.IsDeferred?
                  && validBefore * 1_000 + RECLAIM_GRACE_MS - old(world.clock) > (if wait then reclaimWaitMs else 0)
      ensures report.HasFailed? ==> ReclaimExcused(world.h, world.d, world.s, goalId, spendSeq,
                                                   world.faults > old(world.faults))
    {
      hide VaultRelay.Valid, Extends, Inv, Run, Reclaimed, Consumed, PhaseOf, Payments, ReclaimExcused;
      relay.ExtendsItself();
      outcome := None;
      var now := world.Now();
      var untilExpiredMs := validBefore * 1_000 + RECLAIM_GRACE_MS - now;
      if untilExpiredMs > 0 {
        var limit := if wait then reclaimWaitMs else 0;
        if untilExpiredMs > limit {
          Report(goalId, spendSeq, IsDeferred, validBefore);
          return IsDeferred, outcome;
        }
        Report(goalId, spendSeq, IsWaiting, validBefore);
        world.Sleep(untilExpiredMs);
      }
      ghost var answer;
      report, answer := AskVault(goalId, spendSeq, validBefore);
      outcome := Some(answer);
    }

    /** `authorize`: what the client makes of whatever the signer, or whoever answers for it, sends. */
    method AskSigner() returns (a: Answer, ghost http: HttpAnswer)
      ensures a == AnswerOf(http)
    {
      var nonce: Hex := *;
      var value: string := *;
      var payload: string := *;
      var termsHash: Hex := *;
      var status :| 0 <= status;
      var header: Option<nat> := *;
      var kind: int := *;
      var answer := if kind == 0 then Success(SignedAuthorization(nonce, value, payload, termsHash))
        else if kind == 1 then Status(status, value, header)
        else NoAnswer;
      return AnswerOf(answer), answer;
    }

    /**
     * `#authorizeWithRetry`: asks until the answer is not "ask again", a bounded
     * number of times, a second apart at least. "Ask again" is its own answer
     * only when the number is used up.
     */
    method AuthorizeWithRetry(goalId: nat, spendSeq: nat) returns (last: Answer)
      requires PhaseOf(goalId, world.log).Approved? && PhaseOf(goalId, world.log).spend.spendSeq == spendSeq
      modifies world`clock, world`log
      ensures world.clock >= old(world.clock)
      ensures old(world.log) <= world.log && |world.log| <= |old(world.log)| + signerRetries
      ensures PhaseOf(goalId, world.log) ==
                var q := old(PhaseOf(goalId, world.log));
                if last.SignedAnswer? then Phase.Authorized(q.spend, last.authorization) else q
      ensures world.clock >= old(world.clock) + 1_000 * Waits(world.log[|old(world.log)|..])
      ensures signerRetries == 0 ==> last.NotReady?
      ensures signerRetries > 0 ==> LastIs(world.log, SignerCall(goalId, spendSeq, last))
      ensures forall i :: |old(world.log)| <= i < |world.log| ==>
                world.log[i].SignerCall? && (i < |world.log| - 1 ==> AsksAgain(world.log[i].answer))
      ensures last.NotReady? || last.RateLimited? ==>
                |world.log| == |old(world.log)| + signerRetries
                     && world.clock >= old(world.clock) + 1_000 * signerRetries
    {
      hide PhaseOf, Payments;
      ghost var q := PhaseOf(goalId, world.log);
      last := NotReady;
      assert world.log[|old(world.log)|..] == [];
      for i := 0 to signerRetries
        invariant PhaseOf(goalId, world.log) == q && (last.NotReady? || last.RateLimited?)
        invariant old(world.clock) + 1_000 * i <= world.clock
        invariant old(world.log) <= world.log && |world.log| == |old(world.log)| + i
        invariant forall j :: |old(world.log)| <= j < |world.log| ==>
                    world.log[j].SignerCall? && AsksAgain(world.log[j].answer)
        invariant old(world.clock) + 1_000 * Waits(world.log[|old(world.log)|..]) <= world.clock
        invariant i == 0 ==> last.NotReady?
        invariant i > 0 ==> LastIs(world.log, SignerCall(goalId, spendSeq, last))
      {
        ghost var http;
        last, http := AskSigner();
        SignerCallPhase(goalId, world.log, spendSeq, last);
        WaitsSnoc(old(world.log), world.log, goalId, spendSeq, last);
        world.Note(SignerCall(goalId, spendSeq, last));
        if !last.NotReady? && !last.RateLimited? {
          return;
        }
        var asked := if last.RateLimited? then last.retryAfterSeconds else 0;
        world.Sleep(1_000 * (if asked < 1 then 1 else if asked > 10 then 10 else asked));
      }
    }

    /** An approved orphan was never paid; what can come back is asked for, without waiting. */
    method GiveOrphanBack(goalId: nat, orphan: nat)
      requires Valid() && PhaseOf(goalId, world.log) == OrphanDone(orphan, true)
      modifies world`s, world`actions, world`faults, world`clock, world`log
      ensures world.faults >= old(world.faults)
      ensures world.clock >= old(world.clock)
      ensures Valid() && Extends(old(world.s), world.s)
      ensures BeforeCommit(PhaseOf(goalId, world.log))
      ensures NoRefinalize(old(world.log), world.log, relay.finalized)
      ensures world.faults == old(world.faults) ==> ReclaimCall(goalId, orphan) in world.log
    {
      hide VaultRelay.Valid, Extends, Inv, Run, PhaseOf, Payments, ReportIsTrue, ReclaimExcused;
      var window, answering := relay.ReadWindow(goalId, orphan);
      if window.Ok? {
        ghost var known := world.s;
        PhaseSnoc(goalId, world.log, ReclaimCall(goalId, orphan));
        world.Note(ReclaimCall(goalId, orphan));
        assert world.log[|old(world.log)|] == ReclaimCall(goalId, orphan);
        var report, outcome := ReclaimSpend(goalId, orphan, window.value, false);
        ExtendsTransitive(old(world.s), known, world.s);
        assert world.log[|old(world.log)|] == ReclaimCall(goalId, orphan);
      }
    }

    /** The run ends, for a reason told in words. */
    method AbandonOrphan(goalId: nat, orphan: nat)
      requires PhaseOf(goalId, world.log).Willing? || PhaseOf(goalId, world.log).OrphanSent?
      modifies world`log
      ensures PhaseOf(goalId, world.log) == Ended(NothingCommitted)
      ensures Appends(old(world.log), world.log)
    {
      hide PhaseOf, Payments;
      var reason: string := *;
      EmitEvent(goalId, OrphanAbandoned(orphan, reason));
    }

    /** Finalizes the orphan's decision as revealed, and asks an approved one back. */
    method SettleOrphan(goalId: nat, orphan: nat, approved: bool, genuine: bool, signatures: seq<Hex>)
      returns (stop: bool)
      requires Valid() && PhaseOf(goalId, world.log).Willing? && (goalId, orphan) !in relay.finalized
      modifies relay`finalized, world`s, world`actions, world`faults, world`clock, world`log
      ensures world.faults >= old(world.faults)
      ensures world.clock >= old(world.clock)
      ensures Valid() && Extends(old(world.s), world.s)
      ensures if stop then PhaseOf(goalId, world.log) == Ended(NothingCommitted)
                else BeforeCommit(PhaseOf(goalId, world.log))
      ensures NoRefinalize(old(world.log), world.log, old(relay.finalized)) && old(relay.finalized) <= relay.finalized
      ensures var seen := Reveal(approved, genuine, signatures);
              if stop then world.faults > old(world.faults) || FinalizeRefused(world.s, goalId, orphan, seen)
              else OrphanRescued(world.log, goalId, orphan, seen, world.faults > old(world.faults))
    {
      hide VaultRelay.Valid, Extends, Inv, Run, PhaseOf, Payments, Delta, DeltaEvent, FinalizedAt, Finalize;
      var sent, met := relay.FinalizeDecision(goalId, orphan, approved, genuine);
      OrphanSentPhase(goalId, old(world.log), orphan, approved);
      if sent.Err? {
        AbandonOrphan(goalId, orphan);
        return true;
      }
      OrphanDoneMoves(goalId, orphan, approved, sent.value);
      EmitEvent(goalId, OrphanRecovered(orphan, approved, sent.value));
      ghost var told := |world.log| - 1;
      assert world.log[told] == Emit(OrphanRecovered(orphan, approved, sent.value));
      if approved {
        ghost var recovered := world.s;
        GiveOrphanBack(goalId, orphan);
        ExtendsTransitive(old(world.s), recovered, world.s);
        assert world.log[told] == Emit(OrphanRecovered(orphan, approved, sent.value));
      }
      return false;
    }

    /** Polls for the orphan's decision and finalizes it, or gives the run up. `seen` is what Inco revealed. */
    method FinishOrphan(goalId: nat, orphan: nat) returns (stop: bool, ghost seen: Option<Reveal>)
      requires Valid() && PhaseOf(goalId, world.log).Willing? && (goalId, orphan) !in relay.finalized
      modifies relay`finalized, world`s, world`actions, world`faults, world`clock, world`log
      ensures world.faults >= old(world.faults)
      ensures world.clock >= old(world.clock)
      ensures Valid() && Extends(old(world.s), world.s)
      ensures if stop then PhaseOf(goalId, world.log) == Ended(NothingCommitted)
                else BeforeCommit(PhaseOf(goalId, world.log))
      ensures NoRefinalize(old(world.log), world.log, old(relay.finalized)) && old(relay.finalized) <= relay.finalized
      ensures if stop then OrphanStuck(world.s, goalId, orphan, seen, world.faults > old(world.faults),
                                       world.clock >= old(world.clock) + timeoutMs)
                else seen.Some? &&
                     OrphanRescued(world.log, goalId, orphan, seen.value, world.faults > old(world.faults))
    {
      hide VaultRelay.Valid, Extends, Inv, Run, PhaseOf, Payments, FinalizedAt, FinalizeRefused, OrphanRescued;
      relay.ExtendsItself();
      seen := None;
      var handleRead := world.Try();
      if !handleRead {
        AbandonOrphan(goalId, orphan);
        return true, seen;
      }
      var poll, answers := PollForDecision(goalId, false);
      if poll.TimedOut? {
        AbandonOrphan(goalId, orphan);
        return true, seen;
      }
      seen := answers[|answers| - 1];
      stop := SettleOrphan(goalId, orphan, poll.approved, poll.genuine, poll.signatures);
    }

    /**
     * `#recoverOrphan`: finalizes a spend an earlier run left pending, and gives
     * an approved one back. A seq this relay has finalized is no orphan: the
     * read was stale, and no finalize is sent for it. `pending` is the orphan a
     * node showed, or 0.
     */
    method RecoverOrphan(goalId: nat) returns (stop: bool, ghost pending: nat, ghost seen: Option<Reveal>)
      requires Valid() && PhaseOf(goalId, world.log).Willing?
      modifies relay`finalized, world`s, world`actions, world`faults, world`clock, world`log
      ensures world.faults >= old(world.faults)
      ensures world.clock >= old(world.clock)
      ensures Valid() && Extends(old(world.s), world.s)
      ensures if stop then PhaseOf(goalId, world.log) == Ended(NothingCommitted)
                else BeforeCommit(PhaseOf(goalId, world.log))
      ensures NoRefinalize(old(world.log), world.log, old(relay.finalized)) && old(relay.finalized) <= relay.finalized
      ensures OrphanMet(world.s, world.log, goalId, pending, old(relay.finalized), seen, stop,
                        world.faults > old(world.faults), world.clock >= old(world.clock) + timeoutMs)
    {
      hide VaultRelay.Valid, Extends, Inv, Run, PhaseOf, Payments, FinalizedAt, OrphanStuck, OrphanRescued;
      pending, seen := 0, None;
      var read, answering := relay.PendingSeq(goalId);
      if read.Err? || read.value == 0 {
        return false, pending, seen;
      }
      ghost var found := world.s;
      pending := read.value;
      if relay.HasFinalized(goalId, read.value) {
        var gone, answers := relay.WaitUntilVisible(goalId, read.value, true, 30_000);
        ExtendsTransitive(old(world.s), found, world.s);
        PastStays(found, world.s);
        return false, pending, seen;
      }
      stop, seen := FinishOrphan(goalId, read.value);
      ExtendsTransitive(old(world.s), found, world.s);
      PastStays(found, world.s);
    }

    /**
     * An approved spend that was not paid: exactly one `#reclaim`, and its report
     * is true. A window that closes soon enough is waited out.
     */
    method Lose(goalId: nat, spend: Spend) returns (ghost outcome: Option<Result<ReclaimOutcome, RelayError>>)
      requires Valid() && PhaseOf(goalId, world.log) == Losing(spend)
      modifies world`s, world`actions, world`faults, world`clock, world`log
      ensures world.faults >= old(world.faults)
      ensures world.clock >= old(world.clock)
      ensures Valid() && Extends(old(world.s), world.s) && old(world.log) <= world.log
      ensures PhaseOf(goalId, world.log) == Reclaiming(spend)
      ensures TrueReport(world.h, world.d, world.s, goalId, spend, world.log)
      ensures Payments(world.log) == old(Payments(world.log))
      ensures LastReport(world.log).Some? &&
              if outcome.Some? then Reports(outcome.value, LastReport(world.log).value)
              else
                && LastReport(world.log).value.IsDeferred?
                && spend.validBefore * 1_000 + RECLAIM_GRACE_MS - old(world.clock) > reclaimWaitMs
    {
      hide VaultRelay.Valid, Extends, Inv, Run, PhaseOf, Payments, ReportIsTrue, ReclaimExcused;
      PhaseSnoc(goalId, world.log, ReclaimCall(goalId, spend.spendSeq));
      world.Note(ReclaimCall(goalId, spend.spendSeq));
      var report;
      report, outcome := ReclaimSpend(goalId, spend.spendSeq, spend.validBefore, true);
      relay.HasPast();
      PaymentsSame(old(world.log), world.log);
    }

    /** A failure after the approval is told, and what the run lost is asked back. */
    method FailAndLose(goalId: nat, spend: Spend)
      requires Valid() && FailsLate(PhaseOf(goalId, world.log), spend)
      modifies world`s, world`actions, world`faults, world`clock, world`log
      ensures world.faults >= old(world.faults)
      ensures world.clock >= old(world.clock)
      ensures Valid() && Extends(old(world.s), world.s) && old(world.log) <= world.log
      ensures PhaseOf(goalId, world.log) == Reclaiming(spend)
      ensures TrueReport(world.h, world.d, world.s, goalId, spend, world.log)
      ensures Payments(world.log) == old(Payments(world.log))
    {
      hide VaultRelay.Valid, Extends, Inv, Run, PhaseOf, Payments, TrueReport, DeltaEvent;
      var reason: string := *;
      LateFailure(goalId, PhaseOf(goalId, world.log), reason);
      EmitEvent(goalId, FailedEvent(reason));
      ghost var outcome := Lose(goalId, spend);
    }

    /** One `fetchResource`, noted in the log with the payment it carries. */
    method Present(url: string, goalId: nat, payment: Option<SignedAuthorization>, isFresh: bool)
      returns (outcome: Outcome)
      modifies world`clock, world`log, client`exchanges, client`waits, client.cache
      ensures world.clock >= old(world.clock) && world.log == old(world.log) + [Fetch(payment)]
      ensures PhaseOf(goalId, world.log) == Delta(goalId, old(PhaseOf(goalId, world.log)), Fetch(payment))
      ensures Exchanged(old(client.exchanges), client.exchanges, url, payment, isFresh, client.maxAttempts, outcome)
      ensures outcome.Fetched? ==> Stored(client.cache.entries, url, outcome.response.body)
      ensures OthersKept(old(client.cache.entries), client.cache.entries, url)
      ensures payment.None? && Protected(client.cache.ttlMs, old(client.cache.entries), url, isFresh) ==>
                && outcome == Fetched(old(client.cache.entries)[url].response, true)
                && client.exchanges == old(client.exchanges) && client.cache.entries == old(client.cache.entries)
    {
      hide PhaseOf, Payments, Delta, Decides;
      PhaseSnoc(goalId, world.log, Fetch(payment));
      world.Note(Fetch(payment));
      var now := world.Now();
      outcome := client.FetchResource(url, payment, isFresh, now);
    }

    /** The second request carries X-PAYMENT; a 200 is a paid run, anything else a lost one. */
    method SendPayment(url: string, goalId: nat, spend: Spend, terms: Events.Terms, signed: SignedAuthorization)
      returns (r: PaymentResult)
      requires Valid() && PhaseOf(goalId, world.log) == Retrying(spend, signed)
      modifies world`s, world`actions, world`faults, world`clock, world`log, client`exchanges, client`waits,
        client.cache
      ensures world.faults >= old(world.faults)
      ensures world.clock >= old(world.clock)
      ensures Valid() && Extends(old(world.s), world.s) && old(world.log) <= world.log
      ensures EndsAs(PhaseOf(goalId, world.log), r)
      ensures AfterApproval(r, spend, terms) && (r.PaidResult? ==> Stored(client.cache.entries, url, r.data))
      ensures r.FailedResult? ==> r.reason.PaymentFailed?
      ensures r.FailedResult? ==> TrueReport(world.h, world.d, world.s, goalId, spend, world.log)
      ensures OthersKept(old(client.cache.entries), client.cache.entries, url)
      ensures PaymentMade(old(client.exchanges), client.exchanges, url, client.maxAttempts, world.log, r)
    {
      hide VaultRelay.Valid, Extends, Inv, Run, PhaseOf, TrueReport, Delta, DeltaEvent, Payments, Stored, OthersKept;
      hide Exchanged, PaymentMade;
      relay.ExtendsItself();
      PresentedOnce(goalId, world.log, spend, signed);
      var paid := Present(url, goalId, Some(signed), false);
      PayingMoves(goalId, spend, signed);
      if !paid.Fetched? {
        FailAndLose(goalId, spend);
        r := FailedResult(PaymentFailed);
        PaymentIsMade(old(client.exchanges), client.exchanges, url, client.maxAttempts, world.log, signed, paid, r);
        return;
      }
      if paid.response.settlement.Some? {
        EmitEvent(goalId, PaymentEvent.Settled(paid.response.settlement.value));
      }
      EmitEvent(goalId, Response200(url, paid.fromCache));
      r := PaidResult(paid.response.body, spend, terms, paid.response.settlement);
      PaymentIsMade(old(client.exchanges), client.exchanges, url, client.maxAttempts, world.log, signed, paid, r);
    }

    /** The authorization is checked against the commit before it is sent. */
    method Pay(url: string, goalId: nat, spend: Spend, terms: Events.Terms, signed: SignedAuthorization)
      returns (r: PaymentResult)
      requires Valid() && PhaseOf(goalId, world.log) == Phase.Authorized(spend, signed)
      modifies world`s, world`actions, world`faults, world`clock, world`log, client`exchanges, client`waits,
        client.cache
      ensures world.faults >= old(world.faults)
      ensures world.clock >= old(world.clock)
      ensures Valid() && Extends(old(world.s), world.s) && old(world.log) <= world.log
      ensures EndsAs(PhaseOf(goalId, world.log), r)
      ensures AfterApproval(r, spend, terms) && (r.PaidResult? ==> Stored(client.cache.entries, url, r.data))
      ensures r == FailedResult(TermsMismatch) <==> signed.termsHash != spend.termsHash
      ensures r.FailedResult? ==> r.reason.TermsMismatch? || r.reason.PaymentFailed?
      ensures r.FailedResult? ==> TrueReport(world.h, world.d, world.s, goalId, spend, world.log)
      ensures OthersKept(old(client.cache.entries), client.cache.entries, url)
      ensures PaymentMade(old(client.exchanges), client.exchanges, url, client.maxAttempts, world.log, r)
    {
      hide VaultRelay.Valid, Extends, Inv, Run, PhaseOf, TrueReport, DeltaEvent, Payments, Stored, PaymentMade,
          Exchanged, OthersKept;
      AuthorizedMoves(goalId, spend, signed, url);
      PaymentsInPhase(goalId, world.log);
      EmitEvent(goalId, Signed(signed.nonce, signed.value));
      if signed.termsHash != spend.termsHash {
        FailAndLose(goalId, spend);
        r := FailedResult(TermsMismatch);
        NothingPresented(client.exchanges, url, client.maxAttempts, world.log, r);
        EntriesKept(client.cache.entries, url);
        return;
      }
      EmitEvent(goalId, PaymentEvent.Request(url, 2));
      r := SendPayment(url, goalId, spend, terms, signed);
    }

    /** From the approval on: the signer, then the payment, or `#reclaim`. */
    method AuthorizeAndPay(url: string, goalId: nat, spend: Spend, terms: Events.Terms) returns (r: PaymentResult)
      requires Valid() && PhaseOf(goalId, world.log) == Approved(spend)
      modifies world`s, world`actions, world`faults, world`clock, world`log, client`exchanges, client`waits,
        client.cache
      ensures world.faults >= old(world.faults)
      ensures world.clock >= old(world.clock)
      ensures Valid() && Extends(old(world.s), world.s) && old(world.log) <= world.log
      ensures EndsAs(PhaseOf(goalId, world.log), r)
      ensures AfterApproval(r, spend, terms) && (r.PaidResult? ==> Stored(client.cache.entries, url, r.data))
      ensures r.FailedResult? ==> TrueReport(world.h, world.d, world.s, goalId, spend, world.log)
      ensures OthersKept(old(client.cache.entries), client.cache.entries, url)
      ensures PaymentMade(old(client.exchanges), client.exchanges, url, client.maxAttempts, world.log, r)
      ensures r.FailedResult? ==> SignerExcused(world.log, goalId, spend, signerRetries, r.reason)
    {
      hide VaultRelay.Valid, Extends, Inv, Run, PhaseOf, Payments, TrueReport, PaymentMade, SignerExcused, OthersKept;
      var answer := AuthorizeWithRetry(goalId, spend.spendSeq);
      ghost var asked := world.log;
      PaymentsInPhase(goalId, asked);
      if !answer.SignedAnswer? {
        var status := if answer.RefusedAnswer? then answer.status else if answer.RateLimited? then 429 else 0;
        var reason: string := *;
        EmitEvent(goalId, SignerRefused(status, reason));
        ghost var outcome := Lose(goalId, spend);
        r := FailedResult(SignerFailed);
        RefusalExcuses(goalId, asked, world.log, spend, signerRetries, answer, status, reason);
        NothingPresented(client.exchanges, url, client.maxAttempts, world.log, r);
        EntriesKept(client.cache.entries, url);
        return;
      }
      r := Pay(url, goalId, spend, terms, answer.authorization);
      PaymentExcuses(goalId, asked, world.log, spend, signerRetries, answer.authorization, r,
                     old(client.exchanges), client.exchanges, url, client.maxAttempts);
    }

    /** Submitted even when rejected: the decision belongs on chain, and frees the goal. */
    method FinalizeOwn(goalId: nat, spend: Spend, poll: PollOutcome) returns (ok: bool)
      requires Valid() && PhaseOf(goalId, world.log) == Committed(spend) && poll.Decision?
      modifies relay`finalized, world`s, world`actions, world`faults, world`log
      ensures world.faults >= old(world.faults)
      ensures Valid() && Extends(old(world.s), world.s) && world.s.past != [] && old(world.log) <= world.log
      ensures old(relay.finalized) <= relay.finalized
      ensures !ok ==>
                && PhaseOf(goalId, world.log) == Ended(FailedEarly)
                && (world.faults > old(world.faults)
                    || FinalizeRefused(world.s, goalId, spend.spendSeq, RevealOf(poll)))
      ensures ok ==>
                && PhaseOf(goalId, world.log) == (if poll.approved then Approved(spend) else Ended(Rejected(spend)))
                && DecidedAt(Head(world.s).vault, goalId, spend.spendSeq, poll.approved)
                && Announces(old(world.log), world.log, goalId, spend, poll)
    {
      hide VaultRelay.Valid, Extends, Inv, Run, PhaseOf, Payments, DecidedAt, Delta, DeltaEvent, Head, Finalize;
      CommittedMoves(goalId, spend, poll);
      EmitEvent(goalId, RevealPolled(poll.attempts, poll.latencyMs, poll.approved));
      ghost var log := world.log;
      var sent, met := relay.FinalizeDecision(goalId, spend.spendSeq, poll.approved, poll.genuine);
      FinalizeMoves(goalId, log, spend, poll.approved);
      relay.HasPast();
      if sent.Err? {
        var reason: string := *;
        EarlyFailure(goalId, PhaseOf(goalId, world.log), reason);
        EmitEvent(goalId, FailedEvent(reason));
        return false;
      }
      FinalizingMoves(goalId, spend, poll.approved, sent.value, poll.signatures);
      EmitEvent(goalId, DecisionFinalized(goalId, spend.spendSeq, poll.approved, sent.value, poll.signatures));
      return true;
    }

    /** From a revealed decision on: its finalize, and what follows an approval. */
    method FinalizeAndPay(url: string, goalId: nat, spend: Spend, terms: Events.Terms, poll: PollOutcome)
      returns (r: PaymentResult)
      requires Valid() && PhaseOf(goalId, world.log) == Committed(spend) && poll.Decision?
      modifies relay`finalized, world`s, world`actions, world`faults, world`clock, world`log, client`exchanges,
        client`waits, client.cache
      ensures world.faults >= old(world.faults)
      ensures world.clock >= old(world.clock)
      ensures Valid() && Extends(old(world.s), world.s) && old(world.log) <= world.log
      ensures old(relay.finalized) <= relay.finalized
      ensures EndsAs(PhaseOf(goalId, world.log), r)
      ensures OutcomeIsTrue(world.h, world.d, world.s, goalId, spend, terms, r, world.log)
      ensures r.PaidResult? ==> Stored(client.cache.entries, url, r.data)
      ensures OthersKept(old(client.cache.entries), client.cache.entries, url)
      ensures PaymentMade(old(client.exchanges), client.exchanges, url, client.maxAttempts, world.log, r)
      ensures DecisionExcused(world.s, world.log, goalId, spend, Some(RevealOf(poll)),
                              world.faults > old(world.faults), false, signerRetries, r)
    {
      hide VaultRelay.Valid, Extends, Inv, Run, PhaseOf, Payments, TrueReport, DecidedAt, PaymentMade, SignerExcused,
          FinalizeRefused, OthersKept, Announces;
      var ok := FinalizeOwn(goalId, spend, poll);
      if !ok || !poll.approved {
        r := if ok then PolicyRejected(spend, terms) else FailedResult(FinalizeFailed);
        PaymentsInPhase(goalId, world.log);
        NothingPresented(client.exchanges, url, client.maxAttempts, world.log, r);
        EntriesKept(client.cache.entries, url);
        return;
      }
      ghost var finalizedAt := world.s;
      r := AuthorizeAndPay(url, goalId, spend, terms);
      ExtendsTransitive(old(world.s), finalizedAt, world.s);
      DecidedStays(finalizedAt, world.s, goalId, spend.spendSeq, true);
      relay.HasPast();
    }

    /** From the commit on: the decision and all that follows. `seen` is what Inco revealed. */
    method DecideAndPay(url: string, goalId: nat, spend: Spend, terms: Events.Terms)
      returns (r: PaymentResult, ghost seen: Option<Reveal>)
      requires Valid() && PhaseOf(goalId, world.log) == Committed(spend)
      modifies relay`finalized, world`s, world`actions, world`faults, world`clock, world`log, client`exchanges,
        client`waits, client.cache
      ensures world.faults >= old(world.faults)
      ensures world.clock >= old(world.clock)
      ensures Valid() && Extends(old(world.s), world.s) && old(world.log) <= world.log
      ensures old(relay.finalized) <= relay.finalized
      ensures EndsAs(PhaseOf(goalId, world.log), r)
      ensures OutcomeIsTrue(world.h, world.d, world.s, goalId, spend, terms, r, world.log)
      ensures r.PaidResult? ==> Stored(client.cache.entries, url, r.data)
      ensures OthersKept(old(client.cache.entries), client.cache.entries, url)
      ensures PaymentMade(old(client.exchanges), client.exchanges, url, client.maxAttempts, world.log, r)
      ensures !r.FreeResult?
      ensures DecisionExcused(world.s, world.log, goalId, spend, seen, world.faults > old(world.faults),
                              world.clock >= old(world.clock) + timeoutMs, signerRetries, r)
    {
      hide VaultRelay.Valid, Extends, Inv, Run, PhaseOf, Payments, TrueReport, DecidedAt, PaymentMade, SignerExcused,
          FinalizeRefused, OthersKept;
      relay.ExtendsItself();
      relay.HasPast();
      var poll, answers := PollForDecision(goalId, true);
      seen := None;
      if poll.TimedOut? {
        PaymentsInPhase(goalId, world.log);
        EmitEvent(goalId, RevealTimeout(poll.attempts, poll.elapsedMs));
        r := DecisionUnavailable(spend);
        NothingPresented(client.exchanges, url, client.maxAttempts, world.log, r);
        EntriesKept(client.cache.entries, url);
        return;
      }
      seen := answers[|answers| - 1];
      r := FinalizeAndPay(url, goalId, spend, terms, poll);
    }

    /** The first request, without a payment. */
    method AskVendor(url: string, goalId: nat, isFresh: bool) returns (first: Outcome)
      requires world.log == []
      modifies world`clock, world`log, client`exchanges, client`waits, client.cache
      ensures world.log == [Emit(PaymentEvent.Request(url, 1)), Fetch(None)] && PhaseOf(goalId, world.log) == Answered
      ensures old(world.clock) <= world.clock
      ensures first.Fetched? ==> Stored(client.cache.entries, url, first.response.body)
      ensures OthersKept(old(client.cache.entries), client.cache.entries, url)
      ensures Exchanged(old(client.exchanges), client.exchanges, url, None, isFresh, client.maxAttempts, first)
      ensures Protected(client.cache.ttlMs, old(client.cache.entries), url, isFresh) ==>
                && first == Fetched(old(client.cache.entries)[url].response, true)
                && client.exchanges == old(client.exchanges) && client.cache.entries == old(client.cache.entries)
    {
      hide PhaseOf, Payments, Delta, DeltaEvent, Exchanged, OthersKept, Stored;
      AskMoves(goalId, url);
      EmitEvent(goalId, PaymentEvent.Request(url, 1));
      first := Present(url, goalId, None, isFresh);
    }

    /** An answer that is no quote ends the run. */
    method RefuseAnswer(url: string, goalId: nat, asked: Outcome) returns (reason: FailReason)
      requires PhaseOf(goalId, world.log) == Answered && (asked.FetchFailed? || asked == PaymentDemanded(None))
      modifies world`log
      ensures PhaseOf(goalId, world.log) == Ended(NothingCommitted) && Appends(old(world.log), world.log)
      ensures reason == if asked.FetchFailed? then FirstFetchFailed else TermsUnusable
    {
      hide PhaseOf, Payments, Delta, DeltaEvent;
      var text: string := *;
      if asked.FetchFailed? {
        EarlyFailure(goalId, Answered, text);
        EmitEvent(goalId, FailedEvent(text));
        return FirstFetchFailed;
      }
      AnsweredMoves(goalId, TermsRejected(url, text));
      EmitEvent(goalId, TermsRejected(url, text));
      return TermsUnusable;
    }

    /** The first request and the agent: what they end, and what a run goes on with. */
    method AskForQuote(url: string, goalId: nat, isFresh: bool) returns (q: Quote, ghost first: Outcome)
      requires world.log == []
      modifies world`clock, world`log, client`exchanges, client`waits, client.cache
      ensures q.Stop? ==>
                && EndsAs(PhaseOf(goalId, world.log), q.result)
                && (q.result.FailedResult? ==> NothingCommittedAfter(q.result.reason))
                && (q.result.FailedResult? || q.result.FreeResult?)
                && (q.result.FreeResult? ==> Stored(client.cache.entries, url, q.result.data))
      ensures q.Go? ==>
                && PhaseOf(goalId, world.log) == Willing && Emit(PaymentRequired(url, q.terms)) in world.log
                && old(world.clock) <= q.quotedAt <= world.clock
      ensures old(world.clock) <= world.clock && Appends([], world.log)
      ensures OthersKept(old(client.cache.entries), client.cache.entries, url)
      ensures Exchanged(old(client.exchanges), client.exchanges, url, None, isFresh, client.maxAttempts, first)
      ensures IsQuote(first, q, world.log)
      ensures Protected(client.cache.ttlMs, old(client.cache.entries), url, isFresh) ==>
                && q == Stop(FreeResult(old(client.cache.entries)[url].response.body))
                && client.exchanges == old(client.exchanges) && client.cache.entries == old(client.cache.entries)
    {
      hide PhaseOf, Payments, Delta, DeltaEvent, OthersKept, Exchanged, Stored;
      var asked := AskVendor(url, goalId, isFresh);
      first := asked;
      var quotedAt := world.Now();
      if asked.Fetched? {
        AnsweredMoves(goalId, Response200(url, asked.fromCache));
        EmitEvent(goalId, Response200(url, asked.fromCache));
        return Stop(FreeResult(asked.response.body)), first;
      }
      if asked.FetchFailed? || asked.terms.None? {
        var reason := RefuseAnswer(url, goalId, asked);
        return Stop(FailedResult(reason)), first;
      }
      var terms := asked.terms.value;
      AnsweredMoves(goalId, PaymentRequired(url, terms));
      EmitEvent(goalId, PaymentRequired(url, terms));
      assert Emit(PaymentRequired(url, terms)) == world.log[2];
      var willing := AskAgent(goalId);
      assert Emit(PaymentRequired(url, terms)) == world.log[2];
      q := if willing then Go(terms, quotedAt) else Stop(FailedResult(AgentDeclined));
    }

    /** The agent reads the vendor's text and may answer anything. */
    method AskAgent(goalId: nat) returns (willing: bool)
      requires PhaseOf(goalId, world.log) == Quoted
      modifies world`log
      ensures PhaseOf(goalId, world.log) == if willing then Willing else Ended(NothingCommitted)
      ensures Appends(old(world.log), world.log) && AgentSaid(world.log, willing)
    {
      hide PhaseOf, Payments;
      willing := *;
      var reasoning: string := *;
      var summary: Value := *;
      var source: string := *;
      EmitEvent(goalId, AgentReasoning(reasoning, summary, willing, source));
      assert world.log[|world.log| - 1].event.decidedToRequest == willing;
    }

    /**
     * The vendor's hold, then the commit. With less than the minimum of the
     * hold left nothing is committed; the authorization ends where the hold does.
     */
    method CommitSpend(goalId: nat, terms: Events.Terms, quotedAt: nat) returns (r: Result<Spend, FailReason>)
      requires Valid() && BeforeCommit(PhaseOf(goalId, world.log))
      modifies world`s, world`actions, world`faults, world`clock, world`log
      ensures world.faults >= old(world.faults)
      ensures world.clock >= old(world.clock)
      ensures Valid() && Extends(old(world.s), world.s) && Appends(old(world.log), world.log)
      ensures r.Ok? ==>
                && PhaseOf(goalId, world.log) == Committed(r.value)
                && Emit(SpendRequested(goalId, r.value)) in world.log
                && RecordedAt(Head(world.s).vault, goalId, r.value, terms.amount, AddressOf(terms.payTo),
                     PayBy(terms, quotedAt))
                && r.value.spendSeq > SpendsSoFar(Head(old(world.s)).vault, goalId)
      ensures r.Err? ==>
                && (r.error.HoldTooShort? || r.error.CommitFailed?)
                && EndsAs(PhaseOf(goalId, world.log), FailedResult(r.error))
      ensures Commits(world.log) <= Commits(old(world.log)) + CommitLimit(terms.resource)
      ensures r == Err(HoldTooShort) ==> Commits(world.log) == Commits(old(world.log))
      ensures PayBy(terms, quotedAt) - old(world.clock) / 1_000 < minHoldSeconds ==> r == Err(HoldTooShort)
      ensures r == Err(HoldTooShort) ==> PayBy(terms, quotedAt) - world.clock / 1_000 < minHoldSeconds
      ensures r == Err(CommitFailed) ==>
                || world.faults > old(world.faults)
                || CommitRefused(world.h, world.s, relay.address, goalId, terms, PayBy(terms, quotedAt))
    {
      hide VaultRelay.Valid, Extends, Inv, Run, PhaseOf, Payments, DeltaEvent, RecordedAt, SpendsSoFar, Commits,
          CommitLimit, CommitRefused;
      relay.ExtendsItself();
      var payBy := PayBy(terms, quotedAt);
      var now := world.Now();
      var holdLeft := payBy as int - (now / 1_000) as int;
      if holdLeft < minHoldSeconds {
        var reason: string := *;
        EarlyFailure(goalId, PhaseOf(goalId, world.log), reason);
        CommitsSnoc(world.log, Emit(FailedEvent(reason)));
        EmitEvent(goalId, FailedEvent(reason));
        return Err(HoldTooShort);
      }
      r := SendCommit(goalId, terms, payBy);
    }

    /** The commit, whose authorization ends at `payBy`. */
    method SendCommit(goalId: nat, terms: Events.Terms, payBy: nat) returns (r: Result<Spend, FailReason>)
      requires Valid() && BeforeCommit(PhaseOf(goalId, world.log))
      modifies world`s, world`actions, world`faults, world`clock, world`log
      ensures world.faults >= old(world.faults)
      ensures world.clock >= old(world.clock)
      ensures Valid() && Extends(old(world.s), world.s) && Appends(old(world.log), world.log)
      ensures r.Ok? ==>
                && PhaseOf(goalId, world.log) == Committed(r.value)
                && Emit(SpendRequested(goalId, r.value)) in world.log
                && RecordedAt(Head(world.s).vault, goalId, r.value, terms.amount, AddressOf(terms.payTo), payBy)
                && r.value.spendSeq > SpendsSoFar(Head(old(world.s)).vault, goalId)
      ensures r.Err? ==> r.error.CommitFailed? && EndsAs(PhaseOf(goalId, world.log), FailedResult(r.error))
      ensures Commits(world.log) <= Commits(old(world.log)) + CommitLimit(terms.resource)
      ensures r.Err? ==>
                || world.faults > old(world.faults)
                || CommitRefused(world.h, world.s, relay.address, goalId, terms, payBy)
    {
      hide VaultRelay.Valid, Extends, Inv, Run, PhaseOf, Payments, DeltaEvent, RecordedAt, SpendsSoFar, Commits,
          IsCall, CommitLimit, RequestRefused;
      ghost var log := world.log;
      var sent, attempts, met :=
        relay.RequestSpend(goalId, terms.amount, AddressOf(terms.payTo), terms.resource, payBy);
      CommitTxsPhase(goalId, log, MayLeave(attempts));
      CommitsGrow(goalId, log, MayLeave(attempts));
      CallLimit(terms.resource, goalId, relay.finalized, attempts);
      if sent.Err? {
        var reason: string := *;
        EarlyFailure(goalId, PhaseOf(goalId, world.log), reason);
        CommitsSnoc(world.log, Emit(FailedEvent(reason)));
        EmitEvent(goalId, FailedEvent(reason));
        return Err(CommitFailed);
      }
      CommittingMoves(goalId, sent.value);
      CommitsSnoc(world.log, Emit(SpendRequested(goalId, sent.value)));
      EmitEvent(goalId, SpendRequested(goalId, sent.value));
      return Ok(sent.value);
    }

    /** From the hold on: commit, decide, pay. */
    method CommitAndPay(url: string, goalId: nat, terms: Events.Terms, quotedAt: nat)
      returns (r: PaymentResult, ghost seen: Option<Reveal>)
      requires Valid() && BeforeCommit(PhaseOf(goalId, world.log))
      modifies relay`finalized, world`s, world`actions, world`faults, world`clock, world`log, client`exchanges,
        client`waits, client.cache
      ensures world.faults >= old(world.faults)
      ensures world.clock >= old(world.clock)
      ensures Valid() && Extends(old(world.s), world.s)
      ensures EndsAs(PhaseOf(goalId, world.log), r)
      ensures Commits(world.log) <= Commits(old(world.log)) + CommitLimit(terms.resource)
      ensures SpendOf(PhaseOf(goalId, world.log)).Some? ==>
                Accounted(world.h, world.d, old(world.s), world.s, goalId, SpendOf(PhaseOf(goalId, world.log)).value,
                          terms, PayBy(terms, quotedAt), r, world.log)
      ensures !r.FreeResult?
      ensures r.PaidResult? ==> Stored(client.cache.entries, url, r.data)
      ensures OthersKept(old(client.cache.entries), client.cache.entries, url)
      ensures NoRefinalize(old(world.log), world.log, old(relay.finalized)) && old(relay.finalized) <= relay.finalized
      ensures PaymentMade(old(client.exchanges), client.exchanges, url, client.maxAttempts, world.log, r)
      ensures LateExcused(world.h, relay.address, minHoldSeconds, timeoutMs, signerRetries, world.s, world.log, goalId,
                          terms, PayBy(terms, quotedAt), seen, world.faults > old(world.faults), old(world.clock),
                          world.clock, r)
    {
      hide VaultRelay.Valid, Extends, Inv, Run, PhaseOf, Payments, RecordedAt, SpendsSoFar, OutcomeIsTrue, CommitLimit,
          PaymentMade, DecisionExcused, CommitRefused, OthersKept, NoRefinalize, Stored;
      relay.KnownIsOld(goalId);
      relay.HasPast();
      seen := None;
      var committed := CommitSpend(goalId, terms, quotedAt);
      if committed.Err? {
        r := FailedResult(committed.error);
        PaymentsInPhase(goalId, world.log);
        NothingPresented(client.exchanges, url, client.maxAttempts, world.log, r);
        NothingRefinalized(old(world.log), world.log, old(relay.finalized));
        EntriesKept(client.cache.entries, url);
        return;
      }
      var spend := committed.value;
      ghost var at := world.s;
      ghost var log := world.log;
      ghost var faulted, since := world.faults, world.clock;
      r, seen := DecideAndPay(url, goalId, spend, terms);
      DecisionExcuses(world.h, relay.address, minHoldSeconds, timeoutMs, signerRetries, world.s, log, world.log, goalId,
                      terms, PayBy(terms, quotedAt), spend, seen, world.faults > faulted,
                      world.faults > old(world.faults), old(world.clock), since, world.clock, r);
      ExtendsTransitive(old(world.s), at, world.s);
      ExtendsRecorded(at, world.s, goalId, spend, terms.amount, AddressOf(terms.payTo), PayBy(terms, quotedAt));
      EndsLegal(PhaseOf(goalId, world.log), r);
      EndedWith(goalId, log, world.log, spend);
      SentAlready(goalId, log, world.log);
      OwnFinalizes(goalId, old(world.log), log, world.log, spend, old(relay.finalized));
      relay.HasPast();
    }

    /** From the quote on: the orphan of an earlier run, then the commit. */
    method PayQuoted(url: string, goalId: nat, terms: Events.Terms, quotedAt: nat)
      returns (r: PaymentResult, ghost pending: nat, ghost orphan: Option<Reveal>, ghost seen: Option<Reveal>)
      requires Valid() && PhaseOf(goalId, world.log) == Willing && quotedAt <= world.clock
      requires Emit(PaymentRequired(url, terms)) in world.log
      modifies relay`finalized, world`s, world`actions, world`faults, world`clock, world`log, client`exchanges,
        client`waits, client.cache
      ensures world.faults >= old(world.faults)
      ensures world.clock >= old(world.clock)
      ensures Valid() && Extends(old(world.s), world.s)
      ensures EndsAs(PhaseOf(goalId, world.log), r) && !r.FreeResult?
      ensures CommitsBounded(url, world.log)
      ensures SpendOf(PhaseOf(goalId, world.log)).Some? ==>
                AsQuoted(world.h, world.d, old(world.s), world.s, url, goalId,
                         SpendOf(PhaseOf(goalId, world.log)).value, world.clock, r, world.log)
      ensures r.PaidResult? ==> Stored(client.cache.entries, url, r.data)
      ensures OthersKept(old(client.cache.entries), client.cache.entries, url)
      ensures NoRefinalize(old(world.log), world.log, old(relay.finalized)) && old(relay.finalized) <= relay.finalized
      ensures PaymentMade(old(client.exchanges), client.exchanges, url, client.maxAttempts, world.log, r)
      ensures QuoteExcused(world.h, relay.address, minHoldSeconds, timeoutMs, signerRetries, world.s, world.log, goalId,
                           terms, quotedAt, pending, orphan, old(relay.finalized), seen,
                           world.faults > old(world.faults), old(world.clock), world.clock, r)
    {
      hide VaultRelay.Valid, Extends, Inv, Run, PhaseOf, Payments, Accounted, AsQuoted, Commits, CommitsBounded;
      hide CommitLimit, OrphanMet, LateExcused, PaymentMade, Stored, OthersKept;
      var stop;
      seen := None;
      stop, pending, orphan := RecoverOrphan(goalId);
      CommitsInPhase(goalId, world.log);
      if stop {
        r := FailedResult(OrphanBlocked);
        NoneIsBounded(url, world.log);
        PaymentsInPhase(goalId, world.log);
        NothingPresented(client.exchanges, url, client.maxAttempts, world.log, r);
        EntriesKept(client.cache.entries, url);
        return;
      }
      ghost var at, log, faulted := world.s, world.log, world.faults > old(world.faults);
      ghost var timedOut := world.clock >= old(world.clock) + timeoutMs;
      ghost var faults, since := world.faults, world.clock;
      r, seen := CommitAndPay(url, goalId, terms, quotedAt);
      LateExcusedSince(world.h, relay.address, minHoldSeconds, timeoutMs, signerRetries, world.s, world.log, goalId,
                       terms, PayBy(terms, quotedAt), seen, world.faults > faults, world.faults > old(world.faults),
                       old(world.clock), since, world.clock, r);
      ExtendsTransitive(old(world.s), at, world.s);
      OrphanMetStays(at, world.s, log, world.log, goalId, pending, old(relay.finalized), orphan, faulted,
                     world.faults > old(world.faults), timedOut, world.clock >= old(world.clock) + timeoutMs);
      EndsLegal(PhaseOf(goalId, world.log), r);
      assert Emit(PaymentRequired(url, terms)) in world.log;
      LimitIsBound(url, world.log, terms);
      if SpendOf(PhaseOf(goalId, world.log)).Some? {
        AccountedSince(world.h, world.d, old(world.s), at, world.s, goalId, SpendOf(PhaseOf(goalId, world.log)).value,
                       terms, PayBy(terms, quotedAt), r, world.log);
        AccountedAsQuoted(world.h, world.d, old(world.s), world.s, url, goalId,
                          SpendOf(PhaseOf(goalId, world.log)).value, terms, quotedAt, world.clock, r, world.log);
      }
    }

    /**
     * `fetchPaid`. Whatever everyone answers, the run's log is a word of the
     * run language that ends as the result says; what the result says about
     * the committed spend is so on chain; and no finalize is ever sent for a
     * spend this relay already knew finalized. An approval in the log ends paid
     * or in one reclaim. At most one commit leaves, unless the vendor's resource
     * includes "SpendPending", and then at most five.
     *
     * `heard` is what the outside answered. The requests that left are the first
     * one's, without a payment, and then those that carry the one payment in the
     * log; a paid result is the answer to the last of them. And the result is
     * what was heard makes of it: each failure has its cause outside.
     */
    method FetchPaid(url: string, goalId: nat, isFresh: bool) returns (r: PaymentResult, ghost heard: Heard)
      requires Valid()
      modifies relay`finalized, world`s, world`actions, world`faults, world`clock, world`log, client`exchanges,
        client`waits, client.cache
      ensures world.faults >= old(world.faults)
      ensures world.clock >= old(world.clock)
      ensures Valid() && Extends(old(world.s), world.s)
      ensures EndsAs(PhaseOf(goalId, world.log), r)
      ensures r.FreeResult? || (r.FailedResult? && NothingCommittedAfter(r.reason)) ==> Commits(world.log) == 0
      ensures CommitsBounded(url, world.log)
      ensures forall q :: ApprovedIn(world.log, goalId, q) ==> ApprovedEnd(goalId, q, r, world.log)
      ensures SpendOf(PhaseOf(goalId, world.log)).Some? ==>
                AsQuoted(world.h, world.d, old(world.s), world.s, url, goalId,
                         SpendOf(PhaseOf(goalId, world.log)).value, world.clock, r, world.log)
      ensures NoRefinalize([], world.log, old(relay.finalized)) && old(relay.finalized) <= relay.finalized
      ensures r.FreeResult? || r.PaidResult? ==> Stored(client.cache.entries, url, r.data)
      ensures OthersKept(old(client.cache.entries), client.cache.entries, url)
      ensures Exchanged(old(client.exchanges), heard.afterFirst, url, None, isFresh, client.maxAttempts, heard.first)
      ensures PaymentMade(heard.afterFirst, client.exchanges, url, client.maxAttempts, world.log, r)
      ensures RunExcused(world.h, relay.address, minHoldSeconds, timeoutMs, signerRetries, world.s, world.log, goalId,
                         heard, old(relay.finalized), world.faults > old(world.faults), old(world.clock),
                         world.clock, r)
      ensures Protected(client.cache.ttlMs, old(client.cache.entries), url, isFresh) ==>
                && r == FreeResult(old(client.cache.entries)[url].response.body)
                && client.exchanges == old(client.exchanges) && client.cache.entries == old(client.cache.entries)
                && world.s == old(world.s)
    {
      hide VaultRelay.Valid, Extends, Inv, Run, PhaseOf, Payments, AsQuoted, Commits, CommitsBounded, ApprovedIn,
          ApprovedEnd;
      hide Exchanged, PaymentMade, QuoteExcused, Stored, OthersKept, AgentSaid;
      relay.ExtendsItself();
      world.StartRun();
      ghost var first;
      var quote;
      quote, first := AskForQuote(url, goalId, isFresh);
      heard := Heard(client.exchanges, first, 0, 0, None, None);
      CommitsInPhase(goalId, world.log);
      if quote.Stop? {
        r := quote.result;
        PaymentsInPhase(goalId, world.log);
        NothingPresented(client.exchanges, url, client.maxAttempts, world.log, r);
        ApprovedOutcomes(goalId, world.log, r);
        NoneIsBounded(url, world.log);
        return;
      }
      ghost var log, entries, since := world.log, client.cache.entries, world.clock;
      ghost var pending, orphan, seen;
      r, pending, orphan, seen := PayQuoted(url, goalId, quote.terms, quote.quotedAt);
      heard := Heard(heard.afterFirst, first, quote.quotedAt, pending, orphan, seen);
      AgentSaidStays(log, world.log, true);
      QuoteExcusedSince(world.h, relay.address, minHoldSeconds, timeoutMs, signerRetries, world.s, world.log, goalId,
                        quote.terms, quote.quotedAt, pending, orphan, old(relay.finalized), seen,
                        world.faults > old(world.faults), old(world.clock), since, world.clock, r);
      KeptTwice(old(client.cache.entries), entries, client.cache.entries, url);
      RefinalizedSince(log, world.log, old(relay.finalized));
      EndsLegal(PhaseOf(goalId, world.log), r);
      ApprovedOutcomes(goalId, world.log, r);
      CommitsInPhase(goalId, world.log);
    }

    /**
     * A series of retried runs, of any URLs for any goals, with the default
     * cache: once one returned the resource, paid or free, every later run of
     * its URL returns the same body and sends nothing. So each URL is paid at
     * most once.
     */
    method RetryRuns(runs: seq<(string, nat)>) returns (results: seq<PaymentResult>, ghost sent: seq<int>)
      requires Valid() && client.cache.ttlMs == None
      modifies relay`finalized, world`s, world`actions, world`faults, world`clock, world`log, client`exchanges,
        client`waits, client.cache
      ensures world.faults >= old(world.faults)
      ensures Valid() && |results| == |sent| == |runs|
      ensures forall i, j :: 0 <= i < j < |runs| && runs[i].0 == runs[j].0 && Served(results[i]) ==>
                results[j] == FreeResult(results[i].data) && sent[j] == 0
    {
      hide VaultRelay.Valid, Extends, Inv, Run, PhaseOf, Payments, NoRefinalize, EndsAs, Exchanged, PaymentMade,
          RunExcused, AsQuoted, CommitsBounded, ApprovedIn, ApprovedEnd, SpendOf, Commits;
      results, sent := [], [];
      for k := 0 to |runs|
        invariant Valid() && |results| == |sent| == k && world.faults >= old(world.faults)
        invariant forall i :: 0 <= i < k && Served(results[i]) ==>
                    Stored(client.cache.entries, runs[i].0, results[i].data)
        invariant forall i, j :: 0 <= i < j < k && runs[i].0 == runs[j].0 && Served(results[i]) ==>
                    results[j] == FreeResult(results[i].data) && sent[j] == 0
      {
        ghost var before := |client.exchanges|;
        var r, heard := FetchPaid(runs[k].0, runs[k].1, false);
        results, sent := results + [r], sent + [|client.exchanges| - before];
      }
    }
  }

  /** After an approval a run ends paid, or failed for one of three reasons. */
  predicate AfterApproval(r: PaymentResult, spend: Spend, terms: Events.Terms) {
    match r
    case PaidResult(_, paid, ts, _) => paid == spend && ts == terms
    case FailedResult(reason) => reason.SignerFailed? || reason.TermsMismatch? || reason.PaymentFailed?
    case _ => false
  }

  /** `floor(quotedAt / 1000) + maxTimeoutSeconds`: when the vendor's hold ends. */
  function PayBy(terms: Events.Terms, quotedAt: nat): nat {
    quotedAt / 1_000 + terms.maxTimeoutSeconds
  }

  predicate NothingCommittedAfter(reason: FailReason) {
    reason.FirstFetchFailed? || reason.TermsUnusable? || reason.AgentDeclined? || reason.OrphanBlocked?
        || reason.HoldTooShort?
  }

  /** Nothing was finalized since. */
  predicate Appends(before: seq<Act>, after: seq<Act>) {
    before <= after && forall i :: |before| <= i < |after| ==> !after[i].FinalizeTx?
  }

  /** A retry of a URL whose answer a cache without expiry still holds. */
  predicate Protected(ttlMs: Option<nat>, entries: map<string, Cached>, url: string, isFresh: bool) {
    !isFresh && ttlMs.None? && url in entries
  }

  predicate Stored(entries: map<string, Cached>, url: string, data: Value) {
    url in entries && entries[url].response.body == data
  }

  /** The run returned the resource, free or paid. */
  predicate Served(r: PaymentResult) {
    r.FreeResult? || r.PaidResult?
  }

  /** Only the entry of one URL may have changed. */
  predicate OthersKept(before: map<string, Cached>, after: map<string, Cached>, url: string) {
    forall key :: key in before && key != url ==> key in after && after[key] == before[key]
  }

  /** The run's last act reports the reclaim, and the report is so at the head. */
  ghost predicate TrueReport(h: Hasher, d: Deployment, s: System, goalId: nat, spend: Spend, log: seq<Act>)
  {
    && s.past != [] && log != []
    && var last := log[|log| - 1];
       && last.Emit? && last.event.ReclaimEvent?
       && last.event.goalId == goalId && last.event.spendSeq == spend.spendSeq
            && last.event.validBefore == spend.validBefore
       && ReportIsTrue(h, d, s, goalId, spend.spendSeq, last.event.outcome)
  }

  /** What a result says about this run's spend is so on chain. */
  ghost predicate OutcomeIsTrue(h: Hasher, d: Deployment, s: System, goalId: nat, spend: Spend, terms: Events.Terms,
                                r: PaymentResult, log: seq<Act>)
  {
    && s.past != []
    && match r
       case PolicyRejected(rejected, ts) => rejected == spend && ts == terms
            && DecidedAt(Head(s).vault, goalId, spend.spendSeq, false)
       case DecisionUnavailable(missing) => missing == spend
       case _ =>
         r == FailedResult(FinalizeFailed) ||
         (AfterApproval(r, spend, terms)
          && DecidedAt(Head(s).vault, goalId, spend.spendSeq, true)
          && (r.FailedResult? ==> TrueReport(h, d, s, goalId, spend, log)))
  }

  /**
   * What a torn read comes to. However stale and torn its reads, a signer's
   * answer carries a terms hash text that differs from the committed one if and
   * only if the terms hash alone was read from before the commit, and the
   * committed hash is not zero. `Pay` then sends nothing and reclaims, see its
   * `TermsMismatch`.
   */
  lemma TornHashMismatches(h: Hasher, c: Signer.Config, goalId: nat, spendSeq: nat, chainId: nat, at: State,
                           seen: Signer.SpendReads, head: State, now: nat, hasKey: bool, domainMatches: bool)
    requires Signer.AllBefore(seen, at, head)
    requires Signer.Sign(h, c, goalId, spendSeq, chainId, Signer.ReadGoal(at, goalId),
                         Signer.ReadSpend(h, seen, goalId, spendSeq), now, hasKey, domainMatches).Issued?
    ensures HasGoal(head, goalId) && HasSpend(GoalAt(head, goalId), spendSeq)
    ensures var o := Signer.Sign(h, c, goalId, spendSeq, chainId, Signer.ReadGoal(at, goalId),
                                 Signer.ReadSpend(h, seen, goalId, spendSeq), now, hasKey, domainMatches);
            var recorded := SpendAt(GoalAt(head, goalId), spendSeq).termsHash;
            ToHex(o.termsHash) != ToHex(recorded) <==>
              Signer.StoredSpend(seen.termsHash, goalId, spendSeq).None? && recorded != Signer.ZERO_HASH
  {
    hide Signer.Sign, Signer.ReadSpend, Signer.ReadGoal, ToHex;
    Signer.SignedIsFrozen(h, c, goalId, spendSeq, chainId, at, seen, head, now, hasKey, domainMatches);
    var o := Signer.Sign(h, c, goalId, spendSeq, chainId, Signer.ReadGoal(at, goalId),
                         Signer.ReadSpend(h, seen, goalId, spendSeq), now, hasKey, domainMatches);
    ToHexInjective(o.termsHash, SpendAt(GoalAt(head, goalId), spendSeq).termsHash);
  }

  /** Only a revealed answer ends a poll early, and it is what the poll returns. */
  predicate IsPoll(o: PollOutcome, answers: seq<Option<Reveal>>) {
    && (forall i :: 0 <= i < |answers| - 1 ==> answers[i].None?)
    && match o
       case TimedOut(_, _) => answers == [] || answers[|answers| - 1].None?
       case Decision(approved, genuine, signatures, _, _) =>
         answers != [] && answers[|answers| - 1] == Some(Reveal(approved, genuine, signatures))
  }

  /** What the requests of one `fetchResource` were, and what it made of the answers. */
  predicate Exchanged(before: seq<Exchange>, after: seq<Exchange>, url: string, payment: Option<SignedAuthorization>,
                      isFresh: bool, maxAttempts: nat, outcome: Outcome)
  {
    && before <= after
    && if outcome.Fetched? && outcome.fromCache then payment.None? && !isFresh && after == before
       else Decides(after[|before|..], url, payment, maxAttempts, outcome)
  }

  /**
   * A run is paid exactly when the last request that left carried the payment
   * and was answered with the resource; every request since carried it, and
   * nothing else did. Without a payment in the log nothing left.
   */
  predicate PaymentMade(before: seq<Exchange>, after: seq<Exchange>, url: string, maxAttempts: nat, log: seq<Act>,
                        r: PaymentResult)
  {
    && before <= after
    && var made, sent := after[|before|..], Payments(log);
       if sent == [] then made == [] && !r.PaidResult? && r != FailedResult(PaymentFailed)
       else |sent| == 1 && Decides(made, url, Some(sent[0]), maxAttempts, LastOutcome(made))
            && Delivers(LastOutcome(made), r)
  }

  predicate Delivers(outcome: Outcome, r: PaymentResult) {
    match outcome
    case Fetched(response, _) => r.PaidResult? && r.data == response.body && r.settlement == response.settlement
    case _ => r == FailedResult(PaymentFailed)
  }

  lemma NothingPresented(made: seq<Exchange>, url: string, maxAttempts: nat, log: seq<Act>, r: PaymentResult)
    requires Payments(log) == [] && !r.PaidResult? && r != FailedResult(PaymentFailed)
    ensures PaymentMade(made, made, url, maxAttempts, log, r)
  {
  }

  lemma NothingRefinalized(before: seq<Act>, after: seq<Act>, finalized: set<(nat, nat)>)
    requires Appends(before, after)
    ensures NoRefinalize(before, after, finalized)
  {
  }

  lemma EntriesKept(entries: map<string, Cached>, url: string)
    ensures OthersKept(entries, entries, url)
  {
  }

  /** What a signer's refusal is shown as: a limit that never cleared is a 429, no answer a 0. */
  function RefusalStatus(a: Answer): int {
    match a
    case RefusedAnswer(status, _) => status
    case RateLimited(_) => 429
    case _ => 0
  }

  /** Why an approved spend was not paid: what the signer answered, or what the vendor did. */
  ghost predicate SignerExcused(log: seq<Act>, goalId: nat, spend: Spend, signerRetries: nat, reason: FailReason) {
    match reason
    case SignerFailed => exists a: Answer, text: string ::
      && !a.SignedAnswer? && (signerRetries == 0 || SignerCall(goalId, spend.spendSeq, a) in log)
      && Emit(SignerRefused(RefusalStatus(a), text)) in log
    case TermsMismatch => exists signed: SignedAuthorization ::
      SignerCall(goalId, spend.spendSeq, SignedAnswer(signed)) in log && signed.termsHash != spend.termsHash
    case PaymentFailed => Payments(log) != []
    case _ => false
  }

  lemma RefusalExcuses(goalId: nat, asked: seq<Act>, log: seq<Act>, spend: Spend, signerRetries: nat, answer: Answer,
                       status: int, text: string)
    requires asked + [Emit(SignerRefused(status, text))] <= log && !answer.SignedAnswer?
    requires signerRetries == 0 ==> answer.NotReady?
    requires signerRetries > 0 ==> LastIs(asked, SignerCall(goalId, spend.spendSeq, answer))
    requires status == if answer.RefusedAnswer? then answer.status else if answer.RateLimited? then 429 else 0
    ensures SignerExcused(log, goalId, spend, signerRetries, SignerFailed)
  {
    assert log[|asked|] == Emit(SignerRefused(RefusalStatus(answer), text));
    if signerRetries > 0 { assert log[|asked| - 1] == SignerCall(goalId, spend.spendSeq, answer); }
  }

  lemma PaymentExcuses(goalId: nat, asked: seq<Act>, log: seq<Act>, spend: Spend, signerRetries: nat,
                       signed: SignedAuthorization, r: PaymentResult, before: seq<Exchange>, after: seq<Exchange>,
                       url: string, maxAttempts: nat)
    requires asked <= log && signerRetries > 0
    requires LastIs(asked, SignerCall(goalId, spend.spendSeq, SignedAnswer(signed)))
    requires r == FailedResult(TermsMismatch) <==> signed.termsHash != spend.termsHash
    requires r.FailedResult? ==> r.reason.TermsMismatch? || r.reason.PaymentFailed?
    requires PaymentMade(before, after, url, maxAttempts, log, r)
    ensures r.FailedResult? ==> SignerExcused(log, goalId, spend, signerRetries, r.reason)
  {
    assert log[|asked| - 1] == SignerCall(goalId, spend.spendSeq, SignedAnswer(signed));
  }

  /** What a decision was revealed to be, and why a run after its commit did not end in a payment. */
  ghost predicate DecisionExcused(s: System, log: seq<Act>, goalId: nat, spend: Spend, seen: Option<Reveal>,
                                  faulted: bool, timedOut: bool, signerRetries: nat, r: PaymentResult)
  {
    match r
    case DecisionUnavailable(_) => seen.None? && timedOut
    case PolicyRejected(_, _) => seen.Some? && !seen.value.approved
    case PaidResult(_, _, _, _) => seen.Some? && seen.value.approved
    case FailedResult(reason) =>
      && seen.Some?
      && if reason.FinalizeFailed? then faulted || FinalizeRefused(s, goalId, spend.spendSeq, seen.value)
         else seen.value.approved && SignerExcused(log, goalId, spend, signerRetries, reason)
    case FreeResult(_) => false
  }

  /** The vault refuses the commit in some state the chain has been in, or an argument does not fit. */
  ghost predicate CommitRefused(h: Hasher, s: System, sender: Address, goalId: nat, terms: Events.Terms, payBy: nat) {
    || payBy >= TWO_64
    || exists e: RelayError, met: Snapshot ::
         RequestRefused(h, s, sender, e, met, goalId, terms.amount, AddressOf(terms.payTo), terms.resource, payBy)
  }

  /** Why a run with a quote did not end in a payment. */
  ghost predicate LateExcused(h: Hasher, sender: Address, minHoldSeconds: nat, timeoutMs: nat, signerRetries: nat,
                              s: System, log: seq<Act>, goalId: nat, terms: Events.Terms, payBy: nat,
                              seen: Option<Reveal>, faulted: bool, before: nat, clock: nat, r: PaymentResult)
  {
    if r == FailedResult(HoldTooShort) then payBy - clock / 1_000 < minHoldSeconds
    else if r == FailedResult(CommitFailed) then faulted || CommitRefused(h, s, sender, goalId, terms, payBy)
    else exists spend: Spend ::
           && Emit(SpendRequested(goalId, spend)) in log
           && DecisionExcused(s, log, goalId, spend, seen, faulted, clock >= before + timeoutMs, signerRetries, r)
  }

  lemma DecisionExcuses(h: Hasher, sender: Address, minHoldSeconds: nat, timeoutMs: nat, signerRetries: nat,
                        s: System, log: seq<Act>, after: seq<Act>, goalId: nat, terms: Events.Terms, payBy: nat,
                        spend: Spend, seen: Option<Reveal>, faulted: bool, ever: bool, before: nat, since: nat,
                        clock: nat, r: PaymentResult)
    requires log <= after && Emit(SpendRequested(goalId, spend)) in log && (faulted ==> ever) && before <= since
    requires DecisionExcused(s, after, goalId, spend, seen, faulted, clock >= since + timeoutMs, signerRetries, r)
    ensures LateExcused(h, sender, minHoldSeconds, timeoutMs, signerRetries, s, after, goalId, terms, payBy, seen, ever,
                        before, clock, r)
  {
    hide FinalizeRefused, Payments;
    assert DecisionExcused(s, after, goalId, spend, seen, ever, clock >= before + timeoutMs, signerRetries, r);
  }

  /** Why a run that the agent agreed to did not end in a payment. */
  ghost predicate QuoteExcused(h: Hasher, sender: Address, minHoldSeconds: nat, timeoutMs: nat, signerRetries: nat,
                               s: System, log: seq<Act>, goalId: nat, terms: Events.Terms, quotedAt: nat, pending: nat,
                               orphan: Option<Reveal>, finalized: set<(nat, nat)>, own: Option<Reveal>, faulted: bool,
                               before: nat, clock: nat, r: PaymentResult)
  {
    var blocked := r == FailedResult(OrphanBlocked);
    && OrphanMet(s, log, goalId, pending, finalized, orphan, blocked, faulted, clock >= before + timeoutMs)
    && (!blocked ==> LateExcused(h, sender, minHoldSeconds, timeoutMs, signerRetries, s, log, goalId, terms,
                                 PayBy(terms, quotedAt), own, faulted, before, clock, r))
  }

  /** A run's result is what was heard makes of it. */
  ghost predicate RunExcused(h: Hasher, sender: Address, minHoldSeconds: nat, timeoutMs: nat, signerRetries: nat,
                             s: System, log: seq<Act>, goalId: nat, heard: Heard, finalized: set<(nat, nat)>,
                             faulted: bool, before: nat, clock: nat, r: PaymentResult)
  {
    match heard.first
    case Fetched(response, _) => r == FreeResult(response.body)
    case FetchFailed => r == FailedResult(FirstFetchFailed)
    case PaymentDemanded(None) => r == FailedResult(TermsUnusable)
    case PaymentDemanded(Some(terms)) =>
      if r == FailedResult(AgentDeclined) then AgentSaid(log, false)
      else
        && AgentSaid(log, true) && before <= heard.quotedAt <= clock
        && QuoteExcused(h, sender, minHoldSeconds, timeoutMs, signerRetries, s, log, goalId, terms, heard.quotedAt,
                        heard.pending, heard.orphan, finalized, heard.own, faulted, before, clock, r)
  }

  lemma QuoteExcusedSince(h: Hasher, sender: Address, minHoldSeconds: nat, timeoutMs: nat, signerRetries: nat,
                          s: System, log: seq<Act>, goalId: nat, terms: Events.Terms, quotedAt: nat, pending: nat,
                          orphan: Option<Reveal>, finalized: set<(nat, nat)>, own: Option<Reveal>, faulted: bool,
                          before: nat, later: nat, clock: nat, r: PaymentResult)
    requires before <= later
    requires QuoteExcused(h, sender, minHoldSeconds, timeoutMs, signerRetries, s, log, goalId, terms, quotedAt, pending,
                          orphan, finalized, own, faulted, later, clock, r)
    ensures QuoteExcused(h, sender, minHoldSeconds, timeoutMs, signerRetries, s, log, goalId, terms, quotedAt, pending,
                         orphan, finalized, own, faulted, before, clock, r)
    ensures r != FailedResult(AgentDeclined)
  {
    hide FinalizeRefused, CommitRefused, Payments;
    if r != FailedResult(OrphanBlocked) {
      LateExcusedSince(h, sender, minHoldSeconds, timeoutMs, signerRetries, s, log, goalId, terms,
                       PayBy(terms, quotedAt), own, faulted, faulted, before, later, clock, r);
    }
  }

  lemma LateExcusedSince(h: Hasher, sender: Address, minHoldSeconds: nat, timeoutMs: nat, signerRetries: nat,
                         s: System, log: seq<Act>, goalId: nat, terms: Events.Terms, payBy: nat, seen: Option<Reveal>,
                         faulted: bool, ever: bool, before: nat, since: nat, clock: nat, r: PaymentResult)
    requires (faulted ==> ever) && before <= since
    requires LateExcused(h, sender, minHoldSeconds, timeoutMs, signerRetries, s, log, goalId, terms, payBy, seen,
                         faulted, since, clock, r)
    ensures r != FailedResult(OrphanBlocked) && r != FailedResult(AgentDeclined)
    ensures LateExcused(h, sender, minHoldSeconds, timeoutMs, signerRetries, s, log, goalId, terms, payBy, seen, ever,
                        before, clock, r)
  {
    hide FinalizeRefused, CommitRefused, Payments;
    if r != FailedResult(HoldTooShort) && r != FailedResult(CommitFailed) {
      var spend: Spend :| && Emit(SpendRequested(goalId, spend)) in log
        && DecisionExcused(s, log, goalId, spend, seen, faulted, clock >= since + timeoutMs, signerRetries, r);
      assert DecisionExcused(s, log, goalId, spend, seen, ever, clock >= before + timeoutMs, signerRetries, r);
    }
  }

  lemma OrphanMetStays(a: System, b: System, log: seq<Act>, after: seq<Act>, goalId: nat, pending: nat,
                       finalized: set<(nat, nat)>, seen: Option<Reveal>, faulted: bool, ever: bool, timedOut: bool,
                       afterAll: bool)
    requires Extends(a, b) && log <= after && (faulted ==> ever)
    requires OrphanMet(a, log, goalId, pending, finalized, seen, false, faulted, timedOut)
    ensures OrphanMet(b, after, goalId, pending, finalized, seen, false, ever, afterAll)
  {
    hide Later;
    PastStays(a, b);
  }

  lemma AgentSaidStays(log: seq<Act>, after: seq<Act>, willing: bool)
    requires log <= after && AgentSaid(log, willing)
    ensures AgentSaid(after, willing)
  {
    var i :| 0 <= i < |log| && log[i].Emit? && log[i].event.AgentReasoning?
             && log[i].event.decidedToRequest == willing;
    assert after[i] == log[i];
  }

  lemma KeptTwice(a: map<string, Cached>, b: map<string, Cached>, c: map<string, Cached>, url: string)
    requires OthersKept(a, b, url) && OthersKept(b, c, url)
    ensures OthersKept(a, c, url)
  {
  }

  lemma RefinalizedSince(log: seq<Act>, after: seq<Act>, finalized: set<(nat, nat)>)
    requires Appends([], log) && NoRefinalize(log, after, finalized)
    ensures NoRefinalize([], after, finalized)
  {
    forall i | 0 <= i < |log|
      ensures !after[i].FinalizeTx?
    {
      assert after[i] == log[i];
    }
  }

  predicate AgentSaid(log: seq<Act>, willing: bool) {
    exists i :: 0 <= i < |log| && log[i].Emit? && log[i].event.AgentReasoning?
             && log[i].event.decidedToRequest == willing
  }

  /** What the first answer makes of a run: the resource, a failure, or terms for the agent to judge. */
  predicate IsQuote(first: Outcome, q: Quote, log: seq<Act>) {
    match first
    case Fetched(response, _) => q == Stop(FreeResult(response.body))
    case FetchFailed => q == Stop(FailedResult(FirstFetchFailed))
    case PaymentDemanded(None) => q == Stop(FailedResult(TermsUnusable))
    case PaymentDemanded(Some(terms)) =>
      if q.Go? then q.terms == terms && AgentSaid(log, true)
      else q == Stop(FailedResult(AgentDeclined)) && AgentSaid(log, false)
  }

  function RevealOf(poll: PollOutcome): Reveal
    requires poll.Decision?
  {
    Reveal(poll.approved, poll.genuine, poll.signatures)
  }

  /** What follows a commit in the log: the decision as polled, its finalize, and the report with its signatures. */
  ghost predicate Announces(before: seq<Act>, after: seq<Act>, goalId: nat, spend: Spend, poll: PollOutcome)
    requires poll.Decision?
  {
    exists tx: Hex ::
      after == before + [Emit(RevealPolled(poll.attempts, poll.latencyMs, poll.approved)),
                         FinalizeTx(goalId, spend.spendSeq, poll.approved),
                         Emit(DecisionFinalized(goalId, spend.spendSeq, poll.approved, tx, poll.signatures))]
  }

  /** What the last of some requests was answered. */
  function LastOutcome(made: seq<Exchange>): Outcome {
    if made == [] || Retryable(made[|made| - 1].answer) then FetchFailed else Meaning(made[|made| - 1].answer)
  }

  lemma PaymentIsMade(before: seq<Exchange>, after: seq<Exchange>, url: string, maxAttempts: nat, log: seq<Act>,
                      signed: SignedAuthorization, outcome: Outcome, r: PaymentResult)
    requires Exchanged(before, after, url, Some(signed), false, maxAttempts, outcome)
    requires Payments(log) == [signed] && Delivers(outcome, r)
    ensures PaymentMade(before, after, url, maxAttempts, log, r)
  {
  }

  lemma PresentedOnce(goalId: nat, log: seq<Act>, spend: Spend, signed: SignedAuthorization)
    requires PhaseOf(goalId, log) == Retrying(spend, signed)
    ensures Delta(goalId, PhaseOf(goalId, log), Fetch(Some(signed))) == Paying(spend, signed)
    ensures Payments(log + [Fetch(Some(signed))]) == [signed]
  {
    PaymentsInPhase(goalId, log);
    PaymentsSnoc(log, Fetch(Some(signed)));
  }

  /** The orphan's decision could not be finalized, and why. */
  ghost predicate OrphanStuck(s: System, goalId: nat, orphan: nat, seen: Option<Reveal>, faulted: bool,
                              timedOut: bool)
  {
    faulted || (seen.None? && timedOut) || (seen.Some? && FinalizeRefused(s, goalId, orphan, seen.value))
  }

  /** The orphan's decision was finalized as revealed, and an approved one was asked back. */
  ghost predicate OrphanRescued(log: seq<Act>, goalId: nat, orphan: nat, seen: Reveal, faulted: bool) {
    && (exists tx: Hex :: Emit(OrphanRecovered(orphan, seen.approved, tx)) in log)
    && (seen.approved && !faulted ==> ReclaimCall(goalId, orphan) in log)
  }

  lemma OrphanDoneMoves(goalId: nat, orphan: nat, approved: bool, tx: Hex)
    ensures DeltaEvent(goalId, OrphanSent(orphan, approved), OrphanRecovered(orphan, approved, tx)) ==
              OrphanDone(orphan, approved)
  {
  }

  /** The vault refuses this decision in some state the chain has been in. */
  ghost predicate FinalizeRefused(s: System, goalId: nat, spendSeq: nat, seen: Reveal) {
    exists met: Snapshot :: met in s.past && Finalize(met.vault, goalId, spendSeq, seen.approved, seen.genuine).Err?
  }

  /** `pending` is what some node showed; an orphan is rescued or stops the run. */
  ghost predicate OrphanMet(s: System, log: seq<Act>, goalId: nat, pending: nat, finalized: set<(nat, nat)>,
                            seen: Option<Reveal>, stop: bool, faulted: bool, timedOut: bool)
  {
    && (faulted || exists at: Snapshot :: at in s.past && PendingAt(at.vault, goalId) == pending)
    && if pending == 0 || (goalId, pending) in finalized then !stop
       else if stop then OrphanStuck(s, goalId, pending, seen, faulted, timedOut)
       else seen.Some? && OrphanRescued(log, goalId, pending, seen.value, faulted)
  }

  /** How long the loop waits after an answer: what the signer asked, between one second and ten. */
  function WaitSeconds(a: Answer): nat {
    match a
    case NotReady => 1
    case RateLimited(asked) => if asked < 1 then 1 else if asked > 10 then 10 else asked
    case _ => 0
  }

  /** And after all of some calls. */
  function Waits(calls: seq<Act>): nat {
    if calls == [] then 0 else
      var last := calls[|calls| - 1];
      Waits(calls[..|calls| - 1]) + if last.SignerCall? then WaitSeconds(last.answer) else 0
  }

  lemma WaitsSnoc(before: seq<Act>, log: seq<Act>, goalId: nat, spendSeq: nat, a: Answer)
    requires before <= log
    ensures var more := log + [SignerCall(goalId, spendSeq, a)];
            Waits(more[|before|..]) == Waits(log[|before|..]) + WaitSeconds(a)
  {
    var more := log + [SignerCall(goalId, spendSeq, a)];
    assert more[|before|..] == log[|before|..] + [SignerCall(goalId, spendSeq, a)];
    assert more[|before|..][..|more[|before|..]| - 1] == log[|before|..];
  }

  predicate AsksAgain(a: Answer) {
    a.NotReady? || a.RateLimited?
  }

  /** What the vault's answer is reported as. */
  predicate Reports(outcome: Result<ReclaimOutcome, RelayError>, report: ReclaimReport) {
    && (report.IsReclaimed? <==> outcome.Ok? && (outcome.value.WasReclaimed? || outcome.value.AlreadyBack?))
    && (report.IsCollected? <==> outcome == Ok(WasCollected))
    && (report.IsDeferred? <==> outcome == Ok(StillLive))
    && (report.HasFailed? <==> outcome.Err?)
  }

  /** The reclaim report a log ends with. */
  function LastReport(log: seq<Act>): Option<ReclaimReport> {
    if log != [] && log[|log| - 1].Emit? && log[|log| - 1].event.ReclaimEvent? then Some(log[|log| - 1].event.outcome)
    else None
  }

  lemma PolledSo(o: PollOutcome, answers: seq<Option<Reveal>>)
    requires forall i :: 0 <= i < |answers| - 1 ==> answers[i].None?
    requires o.TimedOut? ==> answers == [] || answers[|answers| - 1].None?
    requires o.Decision? ==>
               answers != [] && answers[|answers| - 1] == Some(Reveal(o.approved, o.genuine, o.signatures))
    ensures IsPoll(o, answers)
  {
  }

  /** How long `n` intervals take. */
  function Span(n: nat, intervalMs: nat): nat {
    n * intervalMs
  }

  lemma NoSpan(intervalMs: nat)
    ensures Span(0, intervalMs) == 0
  {
  }

  lemma SpanMore(n: nat, intervalMs: nat)
    requires n > 0
    ensures Span(n, intervalMs) == Span(n - 1, intervalMs) + intervalMs
  {
  }

  predicate NoWordFor(e: RelayError) {
    e.EstimateReverted? ==> !e.error.AuthorizationUsed? && !e.error.AlreadyReclaimed? && !e.error.AuthorizationLive?
  }

  /** A report of failure has its cause: a call that failed, or a refusal the report has no word for. */
  ghost predicate ReclaimExcused(h: Hasher, d: Deployment, s: System, goalId: nat, spendSeq: nat, faulted: bool) {
    faulted || exists e: RelayError :: NoWordFor(e) && ReclaimRefused(h, d, s, e, goalId, spendSeq)
  }

  lemma WaitingStays(goalId: nat, q: Phase, attempts: nat, elapsedMs: int)
    requires q.Committed?
    ensures DeltaEvent(goalId, q, RevealWaiting(attempts, elapsedMs)) == q
  {
  }

  /** The spend is this run's own, recorded as quoted, and its outcome is as reported. */
  ghost predicate Accounted(h: Hasher, d: Deployment, before: System, s: System, goalId: nat, spend: Spend,
                            terms: Events.Terms, payBy: nat, r: PaymentResult, log: seq<Act>)
  {
    && before.past != [] && s.past != []
    && RecordedAt(Head(s).vault, goalId, spend, terms.amount, AddressOf(terms.payTo), payBy)
    && spend.spendSeq > SpendsSoFar(Head(before).vault, goalId)
    && OutcomeIsTrue(h, d, s, goalId, spend, terms, r, log)
  }

  /** And quoted in this very run, with a window that ends where the vendor's hold does. */
  ghost predicate AsQuoted(h: Hasher, d: Deployment, before: System, s: System, url: string, goalId: nat, spend: Spend,
                           clock: nat, r: PaymentResult, log: seq<Act>)
  {
    exists terms: Events.Terms, payBy: nat ::
      && Emit(PaymentRequired(url, terms)) in log && payBy <= clock / 1_000 + terms.maxTimeoutSeconds
      && Accounted(h, d, before, s, goalId, spend, terms, payBy, r, log)
  }

  lemma AccountedAsQuoted(h: Hasher, d: Deployment, before: System, s: System, url: string, goalId: nat, spend: Spend,
                          terms: Events.Terms, quotedAt: nat, clock: nat, r: PaymentResult, log: seq<Act>)
    requires Accounted(h, d, before, s, goalId, spend, terms, PayBy(terms, quotedAt), r, log)
    requires Emit(PaymentRequired(url, terms)) in log && quotedAt <= clock
    ensures AsQuoted(h, d, before, s, url, goalId, spend, clock, r, log)
  {
    hide Accounted;
  }

  /** At most one commit left, unless a quoted resource includes "SpendPending"; and never more than five. */
  ghost predicate CommitsBounded(url: string, log: seq<Act>) {
    && Commits(log) <= 5
    && ((forall terms: Events.Terms :: Emit(PaymentRequired(url, terms)) in log ==>
           !Includes(terms.resource, SPEND_PENDING)) ==> Commits(log) <= 1)
  }

  lemma NoneIsBounded(url: string, log: seq<Act>)
    ensures Commits(log) == 0 ==> CommitsBounded(url, log)
  {
  }

  lemma LimitIsBound(url: string, log: seq<Act>, terms: Events.Terms)
    requires Emit(PaymentRequired(url, terms)) in log && Commits(log) <= CommitLimit(terms.resource)
    ensures CommitsBounded(url, log)
  {
    hide Commits, Includes;
  }

  lemma AccountedSince(h: Hasher, d: Deployment, a: System, b: System, s: System, goalId: nat, spend: Spend,
                       terms: Events.Terms, payBy: nat, r: PaymentResult, log: seq<Act>)
    requires Extends(a, b) && Accounted(h, d, b, s, goalId, spend, terms, payBy, r, log)
    ensures Accounted(h, d, a, s, goalId, spend, terms, payBy, r, log)
  {
    hide RecordedAt, OutcomeIsTrue, Later;
    ExtendsSpends(a, b, goalId);
  }

  /** How a run that finalized its spend `q` approved ends: paid with no reclaim, or failed with one. */
  predicate ApprovedEnd(goalId: nat, q: nat, r: PaymentResult, log: seq<Act>) {
    || (r.PaidResult? && r.spend.spendSeq == q && ReclaimsSinceCommit(log) == 0)
    || (r.FailedResult? && ReclaimsSinceCommit(log) == 1 == OwnReclaims(log, goalId, q))
  }

  lemma ApprovedOutcomes(goalId: nat, log: seq<Act>, r: PaymentResult)
    requires EndsAs(PhaseOf(goalId, log), r)
    ensures forall q :: ApprovedIn(log, goalId, q) ==> ApprovedEnd(goalId, q, r, log)
  {
    hide PhaseOf, ReclaimsSinceCommit, OwnReclaims, ApprovedIn;
    forall q | ApprovedIn(log, goalId, q)
      ensures ApprovedEnd(goalId, q, r, log)
    {
      EndsLegal(PhaseOf(goalId, log), r);
      PaidOrReclaimedOnce(goalId, log, q);
    }
  }

  lemma SentAlready(goalId: nat, log: seq<Act>, after: seq<Act>)
    requires PhaseOf(goalId, log).Committed? && log <= after && Legal(goalId, after)
    ensures Commits(after) == Commits(log)
  {
    hide PhaseOf, Commits;
    assert after[..|log|] == log && after[..|after|] == after;
    NoCommitAfterReport(goalId, after, |log|, |after|);
  }

  lemma EndsLegal(q: Phase, r: PaymentResult)
    requires EndsAs(q, r)
    ensures !q.Illegal?
  {
  }

  lemma EndedWith(goalId: nat, log: seq<Act>, after: seq<Act>, spend: Spend)
    requires PhaseOf(goalId, log) == Committed(spend) && log <= after && Legal(goalId, after)
    ensures SpendOf(PhaseOf(goalId, after)).Some? ==> SpendOf(PhaseOf(goalId, after)).value == spend
  {
    assert after[..|log|] == log && after[..|after|] == after;
    StaysWithSpend(goalId, after, |log|, |after|);
  }

  lemma OwnFinalizes(goalId: nat, before: seq<Act>, log: seq<Act>, after: seq<Act>, spend: Spend,
                     finalized: set<(nat, nat)>)
    requires Appends(before, log) && log <= after && Legal(goalId, after)
    requires PhaseOf(goalId, log) == Committed(spend) && (goalId, spend.spendSeq) !in finalized
    ensures NoRefinalize(before, after, finalized)
  {
    hide PhaseOf;
    assert after[..|log|] == log;
    forall i | |before| <= i < |log|
      ensures !after[i].FinalizeTx?
    {
      assert after[i] == log[i];
    }
    forall i | |log| <= i < |after| && after[i].FinalizeTx?
      ensures (after[i].goalId, after[i].spendSeq) !in finalized
    {
      FinalizesOwn(goalId, after, |log|, i);
    }
  }

  lemma AskMoves(goalId: nat, url: string)
    ensures PhaseOf(goalId, []) == Begin
    ensures DeltaEvent(goalId, Begin, PaymentEvent.Request(url, 1)) == Asked
    ensures Delta(goalId, Asked, Fetch(None)) == Answered
  {
  }

  lemma AnsweredMoves(goalId: nat, e: PaymentEvent)
    requires e.Response200? || e.TermsRejected? || e.PaymentRequired?
    ensures DeltaEvent(goalId, Answered, e) ==
              if e.Response200? then Ended(Free) else if e.TermsRejected? then Ended(NothingCommitted) else Quoted
  {
  }

  lemma CommittingMoves(goalId: nat, spend: Spend)
    ensures DeltaEvent(goalId, Committing, SpendRequested(goalId, spend)) == Committed(spend)
  {
  }

  /** A run that fails before its approval just ends. */
  lemma EarlyFailure(goalId: nat, q: Phase, reason: string)
    requires q.Answered? || BeforeCommit(q) || q.Committing? || q.Decided? || q.Finalizing?
    ensures DeltaEvent(goalId, q, FailedEvent(reason)) ==
              Ended(if q.Answered? || BeforeCommit(q) then NothingCommitted else FailedEarly)
  {
  }

  /** Where a run may fail after its approval: signed with other terms, or paying. */
  predicate FailsLate(q: Phase, spend: Spend) {
    || (q.Paying? && q.spend == spend)
    || (q.Announced? && q.spend == spend && q.authorization.termsHash != spend.termsHash)
  }

  /** One that fails after it has to reclaim. */
  lemma LateFailure(goalId: nat, q: Phase, reason: string)
    requires q.Paying? || (q.Announced? && q.authorization.termsHash != q.spend.termsHash)
    ensures DeltaEvent(goalId, q, FailedEvent(reason)) == Losing(q.spend)
  {
  }

  lemma CommittedMoves(goalId: nat, spend: Spend, poll: PollOutcome)
    requires poll.Decision?
    ensures DeltaEvent(goalId, Committed(spend), RevealPolled(poll.attempts, poll.latencyMs, poll.approved)) ==
              Decided(spend, poll.approved)
  {
  }

  lemma FinalizeMoves(goalId: nat, log: seq<Act>, spend: Spend, approved: bool)
    requires PhaseOf(goalId, log) == Decided(spend, approved)
    ensures PhaseOf(goalId, log + [FinalizeTx(goalId, spend.spendSeq, approved)]) == Finalizing(spend, approved)
  {
    PhaseSnoc(goalId, log, FinalizeTx(goalId, spend.spendSeq, approved));
  }

  lemma FinalizingMoves(goalId: nat, spend: Spend, approved: bool, tx: Hex, signatures: seq<Hex>)
    ensures DeltaEvent(goalId, Finalizing(spend, approved),
              DecisionFinalized(goalId, spend.spendSeq, approved, tx, signatures)) ==
              if approved then Approved(spend) else Ended(Rejected(spend))
  {
  }

  lemma AuthorizedMoves(goalId: nat, spend: Spend, signed: SignedAuthorization, url: string)
    ensures DeltaEvent(goalId, Phase.Authorized(spend, signed), Signed(signed.nonce, signed.value)) ==
              Announced(spend, signed)
    ensures DeltaEvent(goalId, Announced(spend, signed), PaymentEvent.Request(url, 2)) ==
              if signed.termsHash == spend.termsHash then Retrying(spend, signed) else Illegal
  {
  }

  lemma PayingMoves(goalId: nat, spend: Spend, signed: SignedAuthorization)
    ensures forall v: Value :: DeltaEvent(goalId, Paying(spend, signed), PaymentEvent.Settled(v)) ==
              Paying(spend, signed)
    ensures forall url: string, fromCache: bool ::
              DeltaEvent(goalId, Paying(spend, signed), Response200(url, fromCache)) == Ended(PaidFor(spend))
  {
  }

  lemma OrphanSentPhase(goalId: nat, log: seq<Act>, orphan: nat, approved: bool)
    requires PhaseOf(goalId, log).Willing?
    ensures PhaseOf(goalId, log + [FinalizeTx(goalId, orphan, approved)]) == OrphanSent(orphan, approved)
  {
    PhaseSnoc(goalId, log, FinalizeTx(goalId, orphan, approved));
  }

  lemma SignerCallPhase(goalId: nat, log: seq<Act>, spendSeq: nat, answer: Answer)
    requires PhaseOf(goalId, log).Approved? && PhaseOf(goalId, log).spend.spendSeq == spendSeq
    ensures PhaseOf(goalId, log + [SignerCall(goalId, spendSeq, answer)]) ==
              var q := PhaseOf(goalId, log);
              if answer.SignedAnswer? then Phase.Authorized(q.spend, answer.authorization) else q
  {
    PhaseSnoc(goalId, log, SignerCall(goalId, spendSeq, answer));
  }

  /** No finalize has been sent since for a spend that was already known finalized. */
  predicate NoRefinalize(before: seq<Act>, after: seq<Act>, finalized: set<(nat, nat)>) {
    before <= after && forall i :: |before| <= i < |after| && after[i].FinalizeTx? ==>
        (after[i].goalId, after[i].spendSeq) !in finalized
  }

  predicate InReclaim(q: Phase, spendSeq: nat) {
    (q.OrphanReclaim? && q.orphan == spendSeq) || (q.Reclaiming? && q.spend.spendSeq == spendSeq)
  }

  predicate LastIs(log: seq<Act>, a: Act) {
    log != [] && log[|log| - 1] == a
  }

  /** Only reclaiming happened since: no commit, no finalize, no request. */
  predicate Quiet(before: seq<Act>, after: seq<Act>) {
    before <= after && forall i :: |before| <= i < |after| ==>
        after[i].ReclaimTx? || (after[i].Emit? && after[i].event.ReclaimEvent?)
  }

  lemma ReclaimTxStays(goalId: nat, log: seq<Act>, spendSeq: nat)
    requires InReclaim(PhaseOf(goalId, log), spendSeq)
    ensures PhaseOf(goalId, log + [ReclaimTx(goalId, spendSeq)]) == PhaseOf(goalId, log)
  {
    PhaseSnoc(goalId, log, ReclaimTx(goalId, spendSeq));
  }
}
