/**
 * The orchestrator's on-chain hands (services/orchestrator/src/pay/relay.ts),
 * against nodes that may answer any read and any gas estimate from the past.
 */
module Relay {
  import opened Wrappers
  import opened Hashing
  import opened HexText
  import opened Vault
  import opened Token
  import opened Signer
  import opened Protocol
  import opened Guarantees
  import opened RunLanguage
  import opened Environment
  import opened Events
  import opened Text

  datatype RelayError =
    | WrongChain
    /** Gas estimation reverted: nothing was broadcast. */
    | EstimateReverted(error: VaultError)
    /** An argument does not fit its Solidity type. */
    | Unencodable
    /** Submitting failed, and the transaction may have left anyway. */
    | SubmitFailed
    | ReceiptLost
    | TxReverted
    | ReadFailed

  /** The block a transaction landed in, and whether it took effect there. */
  datatype Receipt = Receipt(applied: bool, block: Snapshot)

  datatype ReclaimOutcome = WasReclaimed | WasCollected | AlreadyBack | StillLive

  function PendingAt(v: State, goalId: nat): nat {
    if HasGoal(v, goalId) then GoalAt(v, goalId).pendingSeq else 0
  }

  /** The commit a confirmed `requestSpend` reports is in the vault. */
  predicate RecordedAt(v: State, goalId: nat, spend: Spend, amount: nat, payTo: Address, payBy: nat) {
    && HasGoal(v, goalId) && HasSpend(GoalAt(v, goalId), spend.spendSeq)
    && var r := SpendAt(GoalAt(v, goalId), spend.spendSeq);
       r.amount == amount && r.payTo == payTo && r.validAfter == spend.validAfter
           && r.validBefore == spend.validBefore <= payBy
           && ToHex(r.termsHash) == spend.termsHash
  }

  lemma RecordedStays(v: State, w: State, goalId: nat, spend: Spend, amount: nat, payTo: Address, payBy: nat)
    requires Later(v, w) && RecordedAt(v, goalId, spend, amount, payTo, payBy)
    ensures RecordedAt(w, goalId, spend, amount, payTo, payBy)
  {
    assert LaterGoal(v.goals[goalId - 1], w.goals[goalId - 1]);
    assert LaterRecord(v.goals[goalId - 1].spends[spend.spendSeq - 1], w.goals[goalId - 1].spends[spend.spendSeq - 1]);
  }

  function SpendsSoFar(v: State, goalId: nat): nat {
    if HasGoal(v, goalId) then |GoalAt(v, goalId).spends| else 0
  }

  lemma SpendsGrow(v: State, w: State, goalId: nat)
    requires Later(v, w)
    ensures SpendsSoFar(v, goalId) <= SpendsSoFar(w, goalId)
  {
    if HasGoal(v, goalId) { assert LaterGoal(v.goals[goalId - 1], w.goals[goalId - 1]); }
  }

  predicate DecidedAt(v: State, goalId: nat, spendSeq: nat, approved: bool) {
    FinalizedAt(v, goalId, spendSeq) && SpendAt(GoalAt(v, goalId), spendSeq).approved == approved
  }

  lemma DecidedStays(a: System, b: System, goalId: nat, spendSeq: nat, approved: bool)
    requires Extends(a, b) && DecidedAt(Head(a).vault, goalId, spendSeq, approved)
    ensures DecidedAt(Head(b).vault, goalId, spendSeq, approved)
  {
    hide Later;
    FinalizedStays(Head(a).vault, Head(b).vault, goalId, spendSeq);
  }

  /** What `waitUntilVisible` waits to read: `spendSeq` pending, or no longer pending if `gone`. */
  predicate Awaited(at: Snapshot, goalId: nat, spendSeq: nat, gone: bool) {
    (PendingAt(at.vault, goalId) != spendSeq) == gone
  }

  // ------------------------------------- how many commits one call can send

  const SPEND_PENDING := "SpendPending"

  predicate Includes(text: string, word: string)
    requires word != ""
  {
    IndexOf(text, word) >= 0
  }

  /**
   * Whether the failure's text includes "SpendPending". The client library
   * prints a call's arguments, the vendor's resource among them, in the text of
   * every failure of its estimate or its submission.
   */
  predicate NamesPending(e: RelayError, resource: string) {
    match e
    case EstimateReverted(error) => error == SpendPending || Includes(resource, SPEND_PENDING)
    case SubmitFailed => Includes(resource, SPEND_PENDING)
    case _ => false
  }

  /** The transaction was signed and handed over: it may be on its way. */
  predicate MayHaveLeft(r: Result<Spend, RelayError>) {
    r.Ok? || r.error.SubmitFailed? || r.error.ReceiptLost? || r.error.TxReverted?
  }

  /** One pass of the loop: how the attempt went, and the pending read after it, if there was one. */
  datatype Attempt = Attempt(result: Result<Spend, RelayError>, pending: Option<Result<nat, RelayError>>)

  /** The failure names `SpendPending`, so the pending seq is read. */
  predicate Asks(resource: string, a: Attempt) {
    a.result.Err? && NamesPending(a.result.error, resource)
  }

  predicate Retries(resource: string, goalId: nat, finalized: set<(nat, nat)>, a: Attempt) {
    && Asks(resource, a)
    && a.pending.Some? && a.pending.value.Ok?
    && (a.pending.value.value == 0 || (goalId, a.pending.value.value) in finalized)
  }

  /** The attempts one call of `requestSpend` can make, whatever the chain and its nodes answer. */
  predicate IsCall(resource: string, goalId: nat, finalized: set<(nat, nat)>, attempts: seq<Attempt>) {
    && 1 <= |attempts| <= 5
    && (forall i :: 0 <= i < |attempts| ==> (attempts[i].pending.Some? <==> i < 4 && Asks(resource, attempts[i])))
    && (forall i :: 0 <= i < |attempts| - 1 ==> Retries(resource, goalId, finalized, attempts[i]))
    && (|attempts| == 5 || !Retries(resource, goalId, finalized, attempts[|attempts| - 1]))
  }

  /** What the call gives its caller: the pending read's own failure, if it failed. */
  function Thrown(a: Attempt): Result<Spend, RelayError> {
    if a.pending.Some? && a.pending.value.Err? then Err(a.pending.value.error) else a.result
  }

  /** How many transactions the attempts may have sent. */
  function MayLeave(attempts: seq<Attempt>): nat {
    if attempts == [] then 0
    else MayLeave(attempts[..|attempts| - 1]) + if MayHaveLeft(attempts[|attempts| - 1].result) then 1 else 0
  }

  lemma NothingSent(goalId: nat, log: seq<Act>)
    ensures log == log + CommitTxs(goalId, MayLeave([]))
  {
  }

  lemma MayLeaveMore(goalId: nat, log: seq<Act>, attempts: seq<Attempt>, a: Attempt)
    ensures MayLeave(attempts + [a]) == MayLeave(attempts) + if MayHaveLeft(a.result) then 1 else 0
    ensures log + CommitTxs(goalId, MayLeave(attempts)) + CommitTxs(goalId, if MayHaveLeft(a.result) then 1 else 0)
         == log + CommitTxs(goalId, MayLeave(attempts + [a]))
  {
    assert (attempts + [a])[..|attempts|] == attempts;
  }

  /** An attempt that is not retried, or is the fifth, ends the call. */
  lemma CallEnds(resource: string, goalId: nat, finalized: set<(nat, nat)>, attempts: seq<Attempt>, a: Attempt)
    requires |attempts| <= 4 && forall i :: 0 <= i < |attempts| ==> Retries(resource, goalId, finalized, attempts[i])
    requires |attempts| == 4 || !Retries(resource, goalId, finalized, a)
    requires a.pending.Some? <==> |attempts| < 4 && Asks(resource, a)
    ensures IsCall(resource, goalId, finalized, attempts + [a])
  {
    hide Asks;
  }

  lemma NotRetried(resource: string, goalId: nat, finalized: set<(nat, nat)>, a: Attempt)
    requires || a.pending.None? || a.pending.value.Err? || a.result.Ok?
             || (a.pending.value.value != 0 && (goalId, a.pending.value.value) !in finalized)
    ensures !Retries(resource, goalId, finalized, a)
  {
  }

  /** Every retried attempt was refused by its estimate, so nothing left. */
  lemma {:induction false} RetriesSendNothing(resource: string, goalId: nat, finalized: set<(nat, nat)>,
                                              attempts: seq<Attempt>)
    requires !Includes(resource, SPEND_PENDING)
    requires forall i :: 0 <= i < |attempts| ==> Retries(resource, goalId, finalized, attempts[i])
    ensures MayLeave(attempts) == 0
  {
    if attempts == [] {
    } else {
      RetriesSendNothing(resource, goalId, finalized, attempts[..|attempts| - 1]);
    }
  }

  lemma {:induction false} AtMostOneEach(attempts: seq<Attempt>)
    ensures MayLeave(attempts) <= |attempts|
  {
    if attempts == [] {
    } else {
      AtMostOneEach(attempts[..|attempts| - 1]);
    }
  }

  /**
   * One call sends at most one commit, whatever is answered, if and only if the
   * vendor's resource does not include "SpendPending".
   */
  lemma OneCommitIff(resource: string, goalId: nat, finalized: set<(nat, nat)>)
    ensures (forall attempts :: IsCall(resource, goalId, finalized, attempts) ==> MayLeave(attempts) <= 1)
       <==> !Includes(resource, SPEND_PENDING)
  {
    if Includes(resource, SPEND_PENDING) {
      TwoCommits(resource, goalId, finalized, Err(ReceiptLost));
    } else {
      forall attempts | IsCall(resource, goalId, finalized, attempts)
        ensures MayLeave(attempts) <= 1
      {
        RetriesSendNothing(resource, goalId, finalized, attempts[..|attempts| - 1]);
      }
    }
  }

  /** Otherwise a submission whose answer is lost, and a pending read of zero, send it again. */
  lemma TwoCommits(resource: string, goalId: nat, finalized: set<(nat, nat)>, last: Result<Spend, RelayError>)
    requires Includes(resource, SPEND_PENDING) && MayHaveLeft(last) && (last.Err? ==> !last.error.SubmitFailed?)
    ensures var attempts := [Attempt(Err(SubmitFailed), Some(Ok(0))), Attempt(last, None)];
            IsCall(resource, goalId, finalized, attempts) && MayLeave(attempts) == 2
  {
    hide Includes;
    var attempts := [Attempt(Err(SubmitFailed), Some(Ok(0))), Attempt(last, None)];
    assert attempts[..1] == [attempts[0]];
    assert attempts[..1][..0] == [];
    assert MayLeave(attempts[..1]) == 1;
  }

  /** Such a resource is an ordinary path. */
  lemma ResourceNamingIt()
    ensures Includes("/x?SpendPending", SPEND_PENDING)
  {
    assert "/x?SpendPending"[3..] == SPEND_PENDING;
    assert StartsWith("/x?SpendPending"[3..], SPEND_PENDING);
  }

  /** Most a call can send. */
  function CommitLimit(resource: string): nat {
    if Includes(resource, SPEND_PENDING) then 5 else 1
  }

  lemma CallLimit(resource: string, goalId: nat, finalized: set<(nat, nat)>, attempts: seq<Attempt>)
    requires IsCall(resource, goalId, finalized, attempts)
    ensures MayLeave(attempts) <= CommitLimit(resource)
    ensures Thrown(attempts[|attempts| - 1]).Ok? ==> MayLeave(attempts) >= 1
  {
    AtMostOneEach(attempts);
    OneCommitIff(resource, goalId, finalized);
  }

  class VaultRelay {
    const world: World
    const address: Address
    /** Every finalize this relay saw confirmed. */
    var finalized: set<(nat, nat)>

    /** Each entry of `finalized` is finalized at the true head. */
    ghost predicate Valid()
      reads this`finalized, world`s, world`actions
    {
      && world.Valid()
      && forall p :: p in finalized ==> FinalizedAt(Head(world.s).vault, p.0, p.1)
    }

    constructor (world: World, address: Address)
      requires world.Valid()
      ensures Valid() && this.world == world && this.address == address && finalized == {}
    {
      this.world, this.address, finalized := world, address, {};
    }

    predicate HasFinalized(goalId: nat, spendSeq: nat)
      reads this`finalized
    {
      (goalId, spendSeq) in finalized
    }

    twostate lemma StillValid()
      requires old(Valid()) && world.Valid() && finalized == old(finalized) && Extends(old(world.s), world.s)
      ensures Valid()
    {
      hide Later, Inv, Run;
      forall p | p in finalized
        ensures FinalizedAt(Head(world.s).vault, p.0, p.1)
      {
        FinalizedStays(old(Head(world.s).vault), Head(world.s).vault, p.0, p.1);
      }
    }

    /** Others move the chain on. */
    method Elapse()
      requires Valid()
      modifies world`s, world`actions
      ensures Valid() && Extends(old(world.s), world.s)
    {
      hide Extends, Inv, Run;
      world.Elapse();
      StillValid();
    }

    /** `answering` is the state of the node that answered. */
    method PendingSeq(goalId: nat) returns (r: Result<nat, RelayError>, ghost answering: Snapshot)
      requires Valid()
      modifies world`s, world`actions, world`faults
      ensures world.faults >= old(world.faults)
      ensures Valid() && Extends(old(world.s), world.s)
      ensures answering in world.s.past
      ensures if world.faults == old(world.faults) then r == Ok(PendingAt(answering.vault, goalId))
                else r == Err(ReadFailed) && world.faults == old(world.faults) + 1
    {
      hide Extends, Inv, Run;
      Elapse();
      var at := world.View();
      answering := at;
      var answered := world.Try();
      r := if answered then Ok(PendingAt(at.vault, goalId)) else Err(ReadFailed);
    }

    /**
     * Reads the pending seq until a node shows what is waited for, or the time
     * is up. `answers` are the states of the nodes that answered, in order.
     */
    method WaitUntilVisible(goalId: nat, spendSeq: nat, gone: bool, timeoutMs: nat)
      returns (seen: bool, ghost answers: seq<Snapshot>)
      requires Valid()
      modifies world`s, world`actions, world`faults, world`clock
      ensures world.faults >= old(world.faults)
      ensures world.clock >= old(world.clock)
      ensures Valid() && Extends(old(world.s), world.s)
      ensures forall i :: 0 <= i < |answers| ==> answers[i] in world.s.past
      ensures forall i :: 0 <= i < |answers| - 1 ==> !Awaited(answers[i], goalId, spendSeq, gone)
      ensures seen <==> answers != [] && Awaited(answers[|answers| - 1], goalId, spendSeq, gone)
      ensures !seen ==> world.clock >= old(world.clock) + timeoutMs
    {
      hide Extends, Inv, Run, Awaited;
      ExtendsItself();
      answers := [];
      var now := world.Now();
      var until := now + timeoutMs;
      while now < until
        invariant Valid() && Extends(old(world.s), world.s) && old(world.clock) <= now <= world.clock
        invariant world.faults >= old(world.faults)
        invariant forall i :: 0 <= i < |answers| ==>
                    answers[i] in world.s.past && !Awaited(answers[i], goalId, spendSeq, gone)
        decreases until - now
      {
        ghost var before := world.s;
        var pending, answering := PendingSeq(goalId);
        ExtendsTransitive(old(world.s), before, world.s);
        PastStays(before, world.s);
        if pending.Ok? {
          answers := answers + [answering];
          AwaitedIs(answering, goalId, spendSeq, gone);
          if (pending.value != spendSeq) == gone {
            return true, answers;
          }
        }
        world.Sleep(500);
        now := world.Now();
      }
      return false, answers;
    }

    lemma ExtendsItself()
      requires Valid()
      ensures Extends(world.s, world.s)
    {
      hide Run, VaultInv, SignedOk, LogOk, Exclusive, Later;
    }

    /** A spend this relay finalized was committed before now. */
    lemma KnownIsOld(goalId: nat)
      requires Valid()
      ensures forall q :: (goalId, q) in finalized ==> q <= SpendsSoFar(Head(world.s).vault, goalId)
    {
      hide Inv, Run;
    }

    /** What is reclaimed now is never paid, nor its nonce consumed, however the chain goes on. */
    lemma ReclaimedForGood(goalId: nat, spendSeq: nat)
      requires Valid() && world.s.past != [] && Reclaimed(Head(world.s).vault, goalId, spendSeq)
      ensures NeverConsumed(world.h, world.d, world.s, goalId, spendSeq)
    {
      ReclaimedIsNeverConsumed(world.h, world.d, world.actions, goalId, spendSeq);
    }

    lemma HasPast()
      requires Valid()
      ensures world.s.past != []
    {
    }

    /**
     * Broadcasts one transaction whose estimate passed, and notes it. It takes
     * effect at the head or reverts there; either way the answer may be lost.
     * `at` is the state it met.
     */
    method Broadcast(a: Action) returns (r: Result<Receipt, RelayError>, ghost at: System)
      requires Valid() && (a.Request? || a.Decide? || a.Reclaim?)
      modifies world`s, world`actions, world`faults, world`log
      ensures world.faults >= old(world.faults)
      ensures Valid() && Extends(old(world.s), world.s)
      ensures world.log == old(world.log) + [TxOf(a)]
      ensures r.Err? ==> (r.error.SubmitFailed? || r.error.ReceiptLost?) && world.faults == old(world.faults) + 1
      ensures r.Ok? ==> world.faults == old(world.faults)
      ensures r.Ok? ==>
                && at.past != [] && Extends(old(world.s), at)
                && Extends(Step(world.h, world.d, at, a), world.s)
                && r.value == Receipt(Step(world.h, world.d, at, a) != at, Head(Step(world.h, world.d, at, a)))
    {
      hide Extends, Inv, Run, Step;
      world.Note(TxOf(a));
      Elapse();
      at := world.s;
      var left := world.Try();
      if !left {
        return Err(SubmitFailed), at;
      }
      var applied := world.Apply(a);
      PastNotEmpty(at);
      PastNotEmpty(world.s);
      var block := Head(world.s);
      ghost var done := world.s;
      ExtendsTransitive(old(world.s), at, done);
      world.Elapse();
      ExtendsTransitive(old(world.s), done, world.s);
      StillValid();
      var submitted := world.Try();
      if !submitted {
        return Err(SubmitFailed), at;
      }
      var confirmed := world.Try();
      if !confirmed {
        return Err(ReceiptLost), at;
      }
      return Ok(Receipt(applied, block)), at;
    }

    lemma PastNotEmpty(at: System)
      requires Inv(world.h, world.d, at)
      ensures at.past != []
    {
    }

    // -------------------------------------------------------- requestSpend

    /**
     * One attempt. At most one transaction leaves, and none when it fails before
     * the submission. It fails only for a call that failed, for an argument that
     * does not fit, or because the vault refuses it at `met`.
     */
    method RequestSpendOnce(goalId: nat, amount: U256, payTo: Address, resource: string, payBy: nat)
      returns (r: Result<Spend, RelayError>, ghost met: Snapshot)
      requires Valid()
      modifies world`s, world`actions, world`faults, world`clock, world`log
      ensures world.faults >= old(world.faults)
      ensures world.clock >= old(world.clock)
      ensures Valid() && Extends(old(world.s), world.s)
      ensures world.log == old(world.log) + CommitTxs(goalId, if MayHaveLeft(r) then 1 else 0)
      ensures r.Err? ==> !r.error.ReadFailed?
      ensures r.Err? ==>
                || world.faults > old(world.faults)
                || (r.error.Unencodable? && payBy >= TWO_64)
                || RequestRefused(world.h, world.s, address, r.error, met, goalId, amount, payTo, resource, payBy)
      ensures r.Ok? ==>
                && RecordedAt(Head(world.s).vault, goalId, r.value, amount, payTo, payBy)
                && r.value.spendSeq > SpendsSoFar(Head(old(world.s)).vault, goalId)
    {
      hide Extends, Inv, Run, Step, Vault.RequestSpend, RecordedAt, SpendsSoFar;
      ExtendsItself();
      HasPast();
      met := Head(world.s);
      var rightChain := world.Try();
      if !rightChain {
        return Err(WrongChain), met;
      }
      if payBy >= TWO_64 {
        return Err(Unencodable), met;
      }
      Elapse();
      var node := world.View();
      met := node;
      var estimate := Vault.RequestSpend(world.h, node.vault, address, goalId, amount, payTo, Utf8(resource), payBy,
          node.now);
      if estimate.Err? {
        return Err(EstimateReverted(estimate.error)), met;
      }
      ghost var before := world.s;
      var a := Action.Request(address, goalId, amount, payTo, Utf8(resource), payBy);
      var sent, at := Broadcast(a);
      ExtendsTransitive(old(world.s), before, world.s);
      if sent.Err? {
        return Err(sent.error), met;
      }
      if !sent.value.applied {
        RevertedIsRefused(world.h, world.d, at, a);
        HeadStays(at, Step(world.h, world.d, at, a), world.s);
        met := Head(at);
        return Err(TxReverted), met;
      }
      var handle: Hex := *;
      var tx: Hex := *;
      ExtendsTransitive(old(world.s), before, at);
      CommitRecorded(world.h, world.d, old(world.s), at, world.s, a, handle, tx);
      var v := sent.value.block.vault;
      var spend := SpendFrom(v, goalId, SpendsSoFar(v, goalId), handle, tx);
      ghost var confirmed := world.s;
      var seen, answers := WaitUntilVisible(goalId, spend.spendSeq, false, 30_000);
      ExtendsTransitive(old(world.s), confirmed, world.s);
      ExtendsRecorded(confirmed, world.s, goalId, spend, amount, payTo, payBy);
      r := Ok(spend);
    }

    /**
     * `requestSpend`, by attempts: a refusal that names `SpendPending` is
     * retried while the pending seq reads as none, or as one this relay has
     * finalized. A retry may follow a transaction that left, see
     * `OneCommitIff`; a reported spend is recorded and new.
     */
    method RequestSpend(goalId: nat, amount: U256, payTo: Address, resource: string, payBy: nat)
      returns (r: Result<Spend, RelayError>, ghost attempts: seq<Attempt>, ghost met: Snapshot)
      requires Valid()
      modifies world`s, world`actions, world`faults, world`clock, world`log
      ensures world.faults >= old(world.faults)
      ensures world.clock >= old(world.clock)
      ensures Valid() && Extends(old(world.s), world.s)
      ensures IsCall(resource, goalId, finalized, attempts)
      ensures world.log == old(world.log) + CommitTxs(goalId, MayLeave(attempts))
      ensures world.clock >= old(world.clock) + 2_000 * (|attempts| - 1)
      ensures r == Thrown(attempts[|attempts| - 1])
      ensures r.Err? ==>
                || world.faults > old(world.faults)
                || (r.error.Unencodable? && payBy >= TWO_64)
                || RequestRefused(world.h, world.s, address, r.error, met, goalId, amount, payTo, resource, payBy)
      ensures r.Ok? ==>
                && RecordedAt(Head(world.s).vault, goalId, r.value, amount, payTo, payBy)
                && r.value.spendSeq > SpendsSoFar(Head(old(world.s)).vault, goalId)
    {
      hide Extends, Inv, Run, RecordedAt, SpendsSoFar, NamesPending, IsCall, MayLeave, MayHaveLeft, CommitTxs;
      ExtendsItself();
      var attempt := 1;
      attempts := [];
      NothingSent(goalId, world.log);
      while true
        invariant 1 <= attempt <= 5 && |attempts| == attempt - 1
        invariant Valid() && Extends(old(world.s), world.s)
        invariant old(world.clock) + 2_000 * (attempt - 1) <= world.clock
        invariant forall i :: 0 <= i < |attempts| ==> Retries(resource, goalId, finalized, attempts[i])
        invariant world.faults >= old(world.faults)
        invariant world.log == old(world.log) + CommitTxs(goalId, MayLeave(attempts))
        decreases 5 - attempt
      {
        ghost var before := world.s;
        r, met := RequestSpendOnce(goalId, amount, payTo, resource, payBy);
        ExtendsTransitive(old(world.s), before, world.s);
        ExtendsSpends(old(world.s), before, goalId);
        if r.Ok? || attempt >= 5 || !NamesPending(r.error, resource) {
          ghost var last := Attempt(r, None);
          MayLeaveMore(goalId, old(world.log), attempts, last);
          NotRetried(resource, goalId, finalized, last);
          CallEnds(resource, goalId, finalized, attempts, last);
          return r, attempts + [last], met;
        }
        ghost var failed := world.s;
        var pending, answering := PendingSeq(goalId);
        ExtendsTransitive(old(world.s), failed, world.s);
        ghost var tried := Attempt(r, Some(pending));
        MayLeaveMore(goalId, old(world.log), attempts, tried);
        if pending.Err? {
          NotRetried(resource, goalId, finalized, tried);
          CallEnds(resource, goalId, finalized, attempts, tried);
          return Err(pending.error), attempts + [tried], met;
        }
        var stale := pending.value == 0 || HasFinalized(goalId, pending.value);
        if !stale {
          NotRetried(resource, goalId, finalized, tried);
          CallEnds(resource, goalId, finalized, attempts, tried);
          if RequestRefused(world.h, failed, address, r.error, met, goalId, amount, payTo, resource, payBy) {
            RefusedStays(world.h, failed, world.s, address, r.error, met, goalId, amount, payTo, resource, payBy);
          }
          return r, attempts + [tried], met;
        }
        attempts := attempts + [tried];
        world.Sleep(2_000);
        attempt := attempt + 1;
      }
    }

    // --------------------------------------------------- finalizeDecision

    /**
     * Only a confirmed finalize is remembered, and it is true at the head. It
     * fails only for a call that failed or because the vault refuses it at `met`.
     */
    method FinalizeDecision(goalId: nat, spendSeq: nat, approved: bool, genuine: bool)
      returns (r: Result<Hex, RelayError>, ghost met: Snapshot)
      requires Valid()
      modifies this`finalized, world`s, world`actions, world`faults, world`log
      ensures world.faults >= old(world.faults)
      ensures Valid() && Extends(old(world.s), world.s)
      ensures world.log == old(world.log) || world.log == old(world.log) + [FinalizeTx(goalId, spendSeq, approved)]
      ensures r.Err? ==> finalized == old(finalized)
      ensures r.Err? ==>
                || world.faults > old(world.faults)
                || (met in world.s.past
                    && VaultRefused(r.error, Finalize(met.vault, goalId, spendSeq, approved, genuine)))
      ensures r.Ok? ==>
                && world.log == old(world.log) + [FinalizeTx(goalId, spendSeq, approved)]
                && finalized == old(finalized) + {(goalId, spendSeq)}
                && DecidedAt(Head(world.s).vault, goalId, spendSeq, approved)
    {
      hide Extends, Inv, Run, Step, Finalize;
      ExtendsItself();
      HasPast();
      met := Head(world.s);
      var rightChain := world.Try();
      if !rightChain {
        return Err(WrongChain), met;
      }
      Elapse();
      var node := world.View();
      met := node;
      var estimate := Finalize(node.vault, goalId, spendSeq, approved, genuine);
      if estimate.Err? {
        return Err(EstimateReverted(estimate.error)), met;
      }
      ghost var before := world.s;
      var a := Decide(goalId, spendSeq, approved, genuine);
      var sent, at := Broadcast(a);
      ExtendsTransitive(old(world.s), before, world.s);
      if sent.Err? {
        return Err(sent.error), met;
      }
      if !sent.value.applied {
        RevertedIsRefused(world.h, world.d, at, a);
        HeadStays(at, Step(world.h, world.d, at, a), world.s);
        met := Head(at);
        return Err(TxReverted), met;
      }
      FinalizeApplied(world.h, world.d, at, world.s, a);
      finalized := finalized + {(goalId, spendSeq)};
      var tx: Hex := *;
      r := Ok(tx);
    }

    // ----------------------------------------------------- reclaimExpired

    method ReclaimOnce(goalId: nat, spendSeq: nat) returns (r: Result<(), RelayError>)
      requires Valid()
      modifies world`s, world`actions, world`faults, world`log
      ensures world.faults >= old(world.faults)
      ensures Valid() && Extends(old(world.s), world.s)
      ensures world.log == old(world.log) || world.log == old(world.log) + [ReclaimTx(goalId, spendSeq)]
      ensures r.Ok? ==> Reclaimed(Head(world.s).vault, goalId, spendSeq)
      ensures r.Err? ==>
                || world.faults > old(world.faults)
                || ReclaimRefused(world.h, world.d, world.s, r.error, goalId, spendSeq)
      ensures r.Err? && r.error.EstimateReverted? ==>
                && world.log == old(world.log)
                && (r.error.error.AlreadyReclaimed? ==> Reclaimed(Head(world.s).vault, goalId, spendSeq))
                && (r.error.error.AuthorizationUsed? ==> Consumed(world.h, world.d, Head(world.s), goalId, spendSeq))
    {
      hide Extends, Inv, Run, Step, Vault.ReclaimExpired, NonceUsed;
      ExtendsItself();
      var rightChain := world.Try();
      if !rightChain {
        return Err(WrongChain);
      }
      Elapse();
      var node := world.View();
      var foreignUsed: bool := *;
      var used := NonceUsed(world.h, world.d, node, goalId, spendSeq, foreignUsed);
      var estimate := Vault.ReclaimExpired(node.vault, goalId, spendSeq, used, node.now);
      if estimate.Err? {
        r := Err(EstimateReverted(estimate.error));
        RefusalIsTrue(world.h, world.d, node, Head(world.s), goalId, spendSeq, foreignUsed);
        RefusedSomewhere(world.h, world.d, world.s, r.error, node, goalId, spendSeq, foreignUsed);
        return;
      }
      ghost var before := world.s;
      var a := Action.Reclaim(goalId, spendSeq, foreignUsed);
      var sent, at := Broadcast(a);
      ExtendsTransitive(old(world.s), before, world.s);
      if sent.Err? {
        return Err(sent.error);
      }
      if !sent.value.applied {
        RevertedIsRefused(world.h, world.d, at, a);
        HeadStays(at, Step(world.h, world.d, at, a), world.s);
        r := Err(TxReverted);
        RefusedSomewhere(world.h, world.d, world.s, r.error, Head(at), goalId, spendSeq, foreignUsed);
        return;
      }
      ReclaimApplied(world.h, world.d, at, world.s, a);
      r := Ok(());
    }

    /**
     * What `reclaimExpired` reports is so at the head: reclaimed for good, or
     * the token consumed the nonce. At most one transaction leaves. The last of
     * its attempts decides the answer, both ways; only `AuthorizationLive` is
     * tried again, six times at most, two seconds apart.
     */
    method ReclaimExpired(goalId: nat, spendSeq: nat)
      returns (r: Result<ReclaimOutcome, RelayError>, ghost attempts: seq<Result<(), RelayError>>)
      requires Valid()
      modifies world`s, world`actions, world`faults, world`clock, world`log
      ensures world.faults >= old(world.faults)
      ensures world.clock >= old(world.clock)
      ensures Valid() && Extends(old(world.s), world.s)
      ensures world.log == old(world.log) || world.log == old(world.log) + [ReclaimTx(goalId, spendSeq)]
      ensures r.Ok? && (r.value.WasReclaimed? || r.value.AlreadyBack?) ==>
                Reclaimed(Head(world.s).vault, goalId, spendSeq)
      ensures r.Ok? && r.value.WasCollected? ==> Consumed(world.h, world.d, Head(world.s), goalId, spendSeq)
      ensures r == Ok(StillLive) ==> world.log == old(world.log) && world.clock >= old(world.clock) + 10_000
      ensures 1 <= |attempts| <= 6 && world.clock >= old(world.clock) + 2_000 * (|attempts| - 1)
      ensures forall i :: 0 <= i < |attempts| - 1 ==> attempts[i] == Err(EstimateReverted(AuthorizationLive))
      ensures var last := attempts[|attempts| - 1];
              && (r == Ok(WasReclaimed) <==> last.Ok?)
              && (r == Ok(WasCollected) <==> last == Err(EstimateReverted(AuthorizationUsed)))
              && (r == Ok(AlreadyBack) <==> last == Err(EstimateReverted(AlreadyReclaimed)))
              && (last == Err(EstimateReverted(AuthorizationLive)) ==> |attempts| == 6)
              && (r == Ok(StillLive) <==> last == Err(EstimateReverted(AuthorizationLive)))
              && (r.Err? ==> last == Err(r.error))
      ensures r.Err? ==>
                || world.faults > old(world.faults)
                || ReclaimRefused(world.h, world.d, world.s, r.error, goalId, spendSeq)
    {
      hide Extends, Inv, Run, Reclaimed, Consumed, ReclaimRefused;
      ExtendsItself();
      var attempt := 1;
      attempts := [];
      while true
        invariant 1 <= attempt <= 6 && |attempts| == attempt - 1
        invariant forall i :: 0 <= i < |attempts| ==> attempts[i] == Err(EstimateReverted(AuthorizationLive))
        invariant world.faults >= old(world.faults)
        invariant Valid() && Extends(old(world.s), world.s) && old(world.clock) + 2_000 * (attempt - 1) <= world.clock
        invariant world.log == old(world.log)
        decreases 6 - attempt
      {
        ghost var before := world.s;
        var once := ReclaimOnce(goalId, spendSeq);
        attempts := attempts + [once];
        ExtendsTransitive(old(world.s), before, world.s);
        if once.Ok? {
          return Ok(WasReclaimed), attempts;
        }
        if once.error == EstimateReverted(AuthorizationUsed) {
          return Ok(WasCollected), attempts;
        }
        if once.error == EstimateReverted(AlreadyReclaimed) {
          return Ok(AlreadyBack), attempts;
        }
        if once.error != EstimateReverted(AuthorizationLive) {
          return Err(once.error), attempts;
        }
        if attempt >= 6 {
          return Ok(StillLive), attempts;
        }
        world.Sleep(2_000);
        attempt := attempt + 1;
      }
    }

    /** `decisionHandle` and `validityWindow`: reads that may fail or be stale. */
    method ReadWindow(goalId: nat, spendSeq: nat) returns (r: Result<nat, RelayError>, ghost answering: Snapshot)
      requires Valid()
      modifies world`s, world`actions, world`faults
      ensures world.faults >= old(world.faults)
      ensures Valid() && Extends(old(world.s), world.s)
      ensures r.Err? ==> r.error.ReadFailed? && world.faults == old(world.faults) + 1
      ensures r.Ok? ==>
                && answering in world.s.past && world.faults == old(world.faults)
                && r.value == match StoredSpend(answering.vault, goalId, spendSeq)
                              case Some(stored) => stored.validBefore
                              case None => 0
    {
      hide Extends, Inv, Run;
      Elapse();
      var at := world.View();
      answering := at;
      var answered := world.Try();
      if !answered {
        return Err(ReadFailed), answering;
      }
      var stored := StoredSpend(at.vault, goalId, spendSeq);
      return Ok(if stored.Some? then stored.value.validBefore else 0), answering;
    }
  }

  // ----------------------------------------------------------- refusals

  /** The act a transaction is in a run's log. */
  function TxOf(a: Action): Act
    requires a.Request? || a.Decide? || a.Reclaim?
  {
    match a
    case Request(_, goalId, _, _, _, _) => CommitTx(goalId)
    case Decide(goalId, spendSeq, approved, _) => FinalizeTx(goalId, spendSeq, approved)
    case Reclaim(goalId, spendSeq, _) => ReclaimTx(goalId, spendSeq)
  }

  /** The error is the vault's own refusal: shown by an estimate, or met by a transaction that reverted. */
  predicate VaultRefused(e: RelayError, outcome: Result<State, VaultError>) {
    match e
    case EstimateReverted(error) => outcome == Err(error)
    case TxReverted => outcome.Err?
    case _ => false
  }

  /** The vault refuses this commit in the state `met`, which the chain has been in. */
  predicate RequestRefused(h: Hasher, s: System, sender: Address, e: RelayError, met: Snapshot, goalId: nat,
                           amount: U256, payTo: Address, resource: string, payBy: nat)
  {
    && payBy < TWO_64 && met in s.past
    && VaultRefused(e, Vault.RequestSpend(h, met.vault, sender, goalId, amount, payTo, Utf8(resource), payBy, met.now))
  }

  /** The vault refuses this reclaim in some state the chain has been in. */
  ghost predicate ReclaimRefused(h: Hasher, d: Deployment, s: System, e: RelayError, goalId: nat, spendSeq: nat) {
    exists met: Snapshot, foreignUsed: bool :: met in s.past &&
      VaultRefused(e, Vault.ReclaimExpired(met.vault, goalId, spendSeq,
        NonceUsed(h, d, met, goalId, spendSeq, foreignUsed), met.now))
  }

  lemma RefusedSomewhere(h: Hasher, d: Deployment, s: System, e: RelayError, met: Snapshot, goalId: nat, spendSeq: nat,
                         foreignUsed: bool)
    requires met in s.past && VaultRefused(e, Vault.ReclaimExpired(met.vault, goalId, spendSeq,
               NonceUsed(h, d, met, goalId, spendSeq, foreignUsed), met.now))
    ensures ReclaimRefused(h, d, s, e, goalId, spendSeq)
  {
  }

  lemma RefusedStays(h: Hasher, a: System, b: System, sender: Address, e: RelayError, met: Snapshot, goalId: nat,
                     amount: U256, payTo: Address, resource: string, payBy: nat)
    requires Extends(a, b) && RequestRefused(h, a, sender, e, met, goalId, amount, payTo, resource, payBy)
    ensures RequestRefused(h, b, sender, e, met, goalId, amount, payTo, resource, payBy)
  {
    hide Extends;
    PastStays(a, b);
  }

  /** A transaction that changed nothing was refused where it landed. */
  lemma RevertedIsRefused(h: Hasher, d: Deployment, at: System, a: Action)
    requires at.past != [] && Step(h, d, at, a) == at
    ensures var v, now := Head(at).vault, Head(at).now;
            match a
            case Request(sender, goalId, amount, payTo, resource, payBy) =>
              Vault.RequestSpend(h, v, sender, goalId, amount, payTo, resource, payBy, now).Err?
            case Decide(goalId, spendSeq, approved, genuine) => Finalize(v, goalId, spendSeq, approved, genuine).Err?
            case Reclaim(goalId, spendSeq, foreignUsed) =>
              Vault.ReclaimExpired(v, goalId, spendSeq, NonceUsed(h, d, Head(at), goalId, spendSeq, foreignUsed),
                  now).Err?
            case _ => true
  {
    hide Vault.RequestSpend, Finalize, Vault.ReclaimExpired, NonceUsed, SignAt, SweepAt, TransferWithAuthorization;
    assert |Step(h, d, at, a).past| == |at.past|;
  }

  lemma HeadStays(at: System, after: System, end: System)
    requires at.past != [] && after == at && Extends(after, end)
    ensures Head(at) in end.past
  {
    hide Later;
    assert end.past[|at.past| - 1] == Head(at);
  }

  lemma AwaitedIs(at: Snapshot, goalId: nat, spendSeq: nat, gone: bool)
    ensures Awaited(at, goalId, spendSeq, gone) <==> (PendingAt(at.vault, goalId) != spendSeq) == gone
  {
  }

  lemma PastStays(a: System, b: System)
    requires Extends(a, b)
    ensures forall at :: at in a.past ==> at in b.past
  {
    hide Later;
    forall at | at in a.past
      ensures at in b.past
    {
      var i :| 0 <= i < |a.past| && a.past[i] == at;
      assert b.past[i] == at;
    }
  }

  // ------------------------------------------------------------ receipts

  function SpendFrom(v: State, goalId: nat, spendSeq: nat, handle: Hex, tx: Hex): Spend
    requires HasGoal(v, goalId) && HasSpend(GoalAt(v, goalId), spendSeq)
  {
    var r := SpendAt(GoalAt(v, goalId), spendSeq);
    Spend(spendSeq, handle, ToHex(r.termsHash), r.validAfter, r.validBefore, tx)
  }

  /** The token consumed this spend's nonce, or the goal's token is not USDC. */
  predicate Consumed(h: Hasher, d: Deployment, at: Snapshot, goalId: nat, spendSeq: nat) {
    HasGoal(at.vault, goalId) &&
    (GoalAt(at.vault, goalId).asset == d.config.usdc ==>
       AuthorizationState(at.token, GoalAt(at.vault, goalId).payer, SpendNonce(h, goalId, spendSeq)))
  }

  lemma ExtendsSpends(a: System, b: System, goalId: nat)
    requires Extends(a, b)
    ensures SpendsSoFar(Head(a).vault, goalId) <= SpendsSoFar(Head(b).vault, goalId)
  {
    hide Later;
    SpendsGrow(Head(a).vault, Head(b).vault, goalId);
  }

  lemma ExtendsRecorded(a: System, b: System, goalId: nat, spend: Spend, amount: nat, payTo: Address, payBy: nat)
    requires Extends(a, b) && RecordedAt(Head(a).vault, goalId, spend, amount, payTo, payBy)
    ensures RecordedAt(Head(b).vault, goalId, spend, amount, payTo, payBy)
  {
    hide Later;
    RecordedStays(Head(a).vault, Head(b).vault, goalId, spend, amount, payTo, payBy);
  }

  /** A commit that took effect is the goal's newest spend, and stays as recorded. */
  lemma CommitRecorded(h: Hasher, d: Deployment, start: System, at: System, end: System, a: Action, handle: Hex,
                       tx: Hex)
    requires a.Request? && Extends(start, at) && Step(h, d, at, a) != at && Extends(Step(h, d, at, a), end)
    ensures var v := Head(Step(h, d, at, a)).vault; var q := SpendsSoFar(v, a.goalId);
            && HasGoal(v, a.goalId) && HasSpend(GoalAt(v, a.goalId), q)
            && RecordedAt(Head(end).vault, a.goalId, SpendFrom(v, a.goalId, q, handle, tx), a.amount, a.payTo, a.payBy)
            && q > SpendsSoFar(Head(start).vault, a.goalId)
  {
    hide Later, TermsBytes;
    var v := Head(Step(h, d, at, a)).vault;
    var q := SpendsSoFar(v, a.goalId);
    SpendsGrow(Head(start).vault, Head(at).vault, a.goalId);
    RecordedStays(v, Head(end).vault, a.goalId, SpendFrom(v, a.goalId, q, handle, tx), a.amount, a.payTo, a.payBy);
  }

  lemma FinalizeApplied(h: Hasher, d: Deployment, at: System, end: System, a: Action)
    requires a.Decide? && at.past != [] && Step(h, d, at, a) != at && Extends(Step(h, d, at, a), end)
    ensures FinalizedAt(Head(end).vault, a.goalId, a.spendSeq)
    ensures SpendAt(GoalAt(Head(end).vault, a.goalId), a.spendSeq).approved == a.approved
  {
    hide Later;
    FinalizedStays(Head(Step(h, d, at, a)).vault, Head(end).vault, a.goalId, a.spendSeq);
  }

  lemma ReclaimApplied(h: Hasher, d: Deployment, at: System, end: System, a: Action)
    requires a.Reclaim? && at.past != [] && Step(h, d, at, a) != at && Extends(Step(h, d, at, a), end)
    ensures Reclaimed(Head(end).vault, a.goalId, a.spendSeq)
  {
    hide Later;
    ReclaimedStays(Head(Step(h, d, at, a)).vault, Head(end).vault, a.goalId, a.spendSeq);
  }

  /** A refusal from a stale node is still true at the head. */
  lemma RefusalIsTrue(h: Hasher, d: Deployment, node: Snapshot, head: Snapshot, goalId: nat, spendSeq: nat,
                      foreignUsed: bool)
    requires Before(node, head)
    ensures var r := Vault.ReclaimExpired(node.vault, goalId, spendSeq,
              NonceUsed(h, d, node, goalId, spendSeq, foreignUsed), node.now);
            && (r == Err(AlreadyReclaimed) ==> Reclaimed(head.vault, goalId, spendSeq))
            && (r == Err(AuthorizationUsed) ==> Consumed(h, d, head, goalId, spendSeq))
  {
    hide SpendNonce;
    if HasGoal(node.vault, goalId) {
      assert LaterGoal(node.vault.goals[goalId - 1], head.vault.goals[goalId - 1]);
      if Reclaimed(node.vault, goalId, spendSeq) { ReclaimedStays(node.vault, head.vault, goalId, spendSeq); }
    }
  }
}
