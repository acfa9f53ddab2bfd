/**
 * The self-hosted x402 facilitator (services/facilitator/src/facilitator.ts):
 * it checks a payment against what was asked for, and submits it.
 */
module Facilitator {
  import opened Wrappers
  import opened Hashing
  import opened Vault
  import opened Token
  import opened Signer
  import opened Protocol
  import opened Guarantees
  import opened Environment

  /** An X-PAYMENT: whoever made it, it carries a message and some signature bytes. */
  datatype Payment = Payment(network: string, authorized: Authorized)

  datatype Requirements = Requirements(network: string, asset: Address, payTo: Address, maxAmountRequired: nat)

  datatype InvalidReason =
    | NetworkMismatch | RequirementsNetworkMismatch | AssetNotSettled | PayeeMismatch | Insufficient
    | NotYet | Lapsed | SignatureUnreadable | SignatureOfAnother | Used | Underfunded

  predicate AboutTerms(r: InvalidReason) {
    r.NetworkMismatch? || r.RequirementsNetworkMismatch? || r.AssetNotSettled? || r.PayeeMismatch? || r.Insufficient?
  }

  /** What the requirements ask, and this payment offers. */
  predicate MeetsTerms(network: string, asset: Address, p: Payment, req: Requirements) {
    && p.network == network == req.network && req.asset == asset
    && p.authorized.message.to == req.payTo && p.authorized.message.value >= req.maxAmountRequired
  }

  /** The checks that need no chain. `recovered`: whom the signature recovers to, if anyone. */
  function LocalVerdict(network: string, asset: Address, p: Payment, req: Requirements, now: nat,
                        recovered: Option<Address>): Option<InvalidReason> {
    var m := p.authorized.message;
    if p.network != network then Some(NetworkMismatch)
    else if req.network != network then Some(RequirementsNetworkMismatch)
    else if req.asset != asset then Some(AssetNotSettled)
    else if m.to != req.payTo then Some(PayeeMismatch)
    else if m.value < req.maxAmountRequired then Some(Insufficient)
    else if m.validAfter > now then Some(NotYet)
    else if m.validBefore <= now then Some(Lapsed)
    else if recovered.None? then Some(SignatureUnreadable)
    else if recovered.value != m.from then Some(SignatureOfAnother)
    else None
  }

  function ChainVerdict(m: Message, used: bool, balance: nat): Option<InvalidReason> {
    if used then Some(Used) else if balance < m.value then Some(Underfunded) else None
  }

  /**
   * On one state and the chain's own clock, a payment that meets its terms
   * passes both checks exactly when the token would execute it, but for two
   * edges: the check lets the very second of `validAfter` pass, and the zero
   * recipient.
   */
  lemma VerifiedExecutes(network: string, asset: Address, p: Payment, req: Requirements, at: Snapshot,
                         recovered: Option<Address>)
    ensures var m := p.authorized.message;
            var used, balance := AuthorizationState(at.token, m.from, m.nonce), BalanceOf(at.token, m.from);
            (LocalVerdict(network, asset, p, req, at.now, recovered).None? && ChainVerdict(m, used, balance).None?
              && at.now != m.validAfter && m.to != 0)
            <==> (MeetsTerms(network, asset, p, req)
              && TransferWithAuthorization(at.token, m, recovered == Some(m.from), at.now).Ok?)
  {
  }

  datatype VerifyResponse = IsValid | IsInvalid(reason: InvalidReason) | VerifyThrew

  datatype SettleResponse =
    | Settled(alreadySettled: bool)
    | Refused(reason: InvalidReason)
    /** The submission failed, or its outcome is unknown. */
    | SubmitFailed
    | SettleThrew

  /** What the outside answered one call: the verifying clock, and the states of the nodes that were read. */
  datatype Trail = Trail(first: Snapshot, clock: nat, used: Snapshot, balance: Snapshot, node: Snapshot, met: Snapshot)

  /** What each refusal says is so. `genuine`: the signature was the payer's before the call. */
  predicate Holds(reason: InvalidReason, network: string, asset: Address, p: Payment, req: Requirements, t: Trail,
                  genuine: bool)
  {
    var m := p.authorized.message;
    match reason
    case NetworkMismatch => p.network != network
    case RequirementsNetworkMismatch => req.network != network
    case AssetNotSettled => req.asset != asset
    case PayeeMismatch => m.to != req.payTo
    case Insufficient => m.value < req.maxAmountRequired
    case NotYet => t.clock < m.validAfter
    case Lapsed => m.validBefore <= t.clock
    case SignatureUnreadable => !genuine
    case SignatureOfAnother => !genuine
    case Used => AuthorizationState(t.used.token, m.from, m.nonce)
    case Underfunded => BalanceOf(t.balance.token, m.from) < m.value
  }

  /** Inside its window, unused and funded, as far as `verify` could see. */
  predicate LooksPayable(m: Message, t: Trail) {
    && m.validAfter <= t.clock < m.validBefore
    && !AuthorizationState(t.used.token, m.from, m.nonce) && BalanceOf(t.balance.token, m.from) >= m.value
  }

  /** The token executes the payer's message in this state. */
  predicate Executes(at: Snapshot, m: Message) {
    TransferWithAuthorization(at.token, m, true, at.now).Ok?
  }

  class Facilitator {
    const world: World
    const network: string
    /** Every payment this facilitator has broadcast. */
    ghost var sent: seq<Authorized>

    ghost predicate Valid()
      reads world`s, world`actions
    {
      world.Valid()
    }

    constructor (world: World, network: string)
      requires world.Valid()
      ensures Valid() && this.world == world && this.network == network && sent == []
    {
      this.world, this.network, this.sent := world, network, [];
    }

    /** Whom the signature recovers to: the payer exactly when the payer's key signed. */
    method Recover(a: Authorized) returns (recovered: Option<Address>)
      ensures recovered == Some(a.message.from) <==> a in world.s.signed
    {
      var other: Option<Address> := *;
      recovered := if a in world.s.signed then Some(a.message.from)
        else if other == Some(a.message.from) then None
        else other;
    }

    /**
     * `verify`: it spends no gas, and each read may come from another node. Each
     * refusal is true, a valid payment passed every check, and it throws only
     * when a read failed.
     */
    method Verify(p: Payment, req: Requirements) returns (r: VerifyResponse, ghost trail: Trail)
      requires Valid()
      modifies world`s, world`actions, world`faults
      ensures world.faults >= old(world.faults)
      ensures Valid() && Extends(old(world.s), world.s)
      ensures r.IsValid? ==>
                && MeetsTerms(network, world.d.config.usdc, p, req) && p.authorized in world.s.signed
                && LooksPayable(p.authorized.message, trail)
      ensures !r.IsValid? && MeetsTerms(network, world.d.config.usdc, p, req) ==>
                r.VerifyThrew? || !AboutTerms(r.reason)
      ensures r.IsInvalid? ==>
                Holds(r.reason, network, world.d.config.usdc, p, req, trail, p.authorized in old(world.s.signed))
      ensures r.IsInvalid? && r.reason.Used? ==>
                AuthorizationState(Head(world.s).token, p.authorized.message.from, p.authorized.message.nonce)
      ensures r.VerifyThrew? <==> world.faults > old(world.faults)
      ensures trail.used in world.s.past && trail.balance in world.s.past
    {
      hide Extends, Inv, Run;
      world.Elapse();
      SignaturesStay(old(world.s), world.s);
      var m := p.authorized.message;
      var now :| 0 <= now;
      var usedAt := world.View();
      var balanceAt := world.View();
      trail := Trail(usedAt, now, usedAt, balanceAt, usedAt, usedAt);
      var recovered := Recover(p.authorized);
      var local := LocalVerdict(network, world.d.config.usdc, p, req, now, recovered);
      if local.Some? {
        return IsInvalid(local.value), trail;
      }
      var answered := world.Try();
      if !answered {
        return VerifyThrew, trail;
      }
      var used := AuthorizationState(usedAt.token, m.from, m.nonce);
      var chain := ChainVerdict(m, used, BalanceOf(balanceAt.token, m.from));
      r := if chain.Some? then IsInvalid(chain.value) else IsValid;
    }

    /** One transaction, broadcast to the token, and whether it took effect where it landed. */
    method Broadcast(a: Authorized) returns (applied: bool, ghost at: System)
      requires Valid()
      modifies this`sent, world`s, world`actions
      ensures Valid() && Extends(old(world.s), at)
      ensures sent == old(sent) + [a]
      ensures Inv(world.h, world.d, at) && applied == (Step(world.h, world.d, at, Submit(a)) != at)
      ensures Extends(Step(world.h, world.d, at, Submit(a)), world.s) && Extends(at, world.s)
    {
      hide Extends, Inv, Run, Step;
      sent := sent + [a];
      world.Elapse();
      at := world.s;
      applied := world.Apply(Submit(a));
      ghost var done := world.s;
      world.Elapse();
      ExtendsTransitive(at, done, world.s);
    }

    /**
     * Estimates, broadcasts and waits. It may have left though it seems not to.
     * Nothing leaves exactly when the token refuses the payment at the estimating
     * node, and what left fails only when it met a refusal or its outcome is lost.
     */
    method SubmitPayment(a: Authorized) returns (r: SettleResponse, ghost node: Snapshot, ghost met: Snapshot)
      requires Valid()
      modifies this`sent, world`s, world`actions, world`faults
      ensures world.faults >= old(world.faults)
      ensures Valid() && Extends(old(world.s), world.s)
      ensures r.SubmitFailed? || r == Settled(false)
      ensures r.Settled? ==> !Spent(old(world.s), a) && Spent(world.s, a) && ExecutedSince(old(world.s), world.s, a)
      ensures node in world.s.past && met in world.s.past
      ensures a in old(world.s.signed) ==> sent == old(sent) + if Executes(node, a.message) then [a] else []
      ensures sent == old(sent) || (sent == old(sent) + [a] && Executes(node, a.message))
      ensures sent == old(sent) ==> r.SubmitFailed?
      ensures sent != old(sent) && a in old(world.s.signed) ==>
                (r == Settled(false) <==> Executes(met, a.message) && world.faults == old(world.faults))
    {
      hide Extends, Inv, Run, Step, Head, TransferWithAuthorization;
      world.Elapse();
      SignaturesStay(old(world.s), world.s);
      var seen := world.View();
      node, met := seen, seen;
      var estimate := TransferWithAuthorization(seen.token, a.message, a in world.s.signed, seen.now);
      UnsignedIsRefused(seen, a.message, a in world.s.signed);
      if estimate.Err? {
        return SubmitFailed, node, met;
      }
      ghost var before := world.s;
      var applied;
      ghost var at;
      applied, at := Broadcast(a);
      HasHead(world.h, world.d, at);
      met := Head(at);
      ExtendsTransitive(old(world.s), before, at);
      ExtendsTransitive(old(world.s), at, world.s);
      SignaturesStay(old(world.s), at);
      HeadInPast(at, world.s);
      PastStays(before, at, seen);
      PastStays(at, world.s, seen);
      AppliedExecutes(world.h, world.d, at, a);
      var confirmed := world.Try();
      if !applied || !confirmed {
        return SubmitFailed, node, met;
      }
      SubmitExecutes(world.h, world.d, old(world.s), at, world.s, a);
      r := Settled(false);
    }

    /**
     * `settle`. Success means the token has consumed the nonce. A new transfer
     * happens at most once, only for a payment that met its terms, and never
     * when the nonce was consumed before the call; and a node that shows it
     * consumed is answered with success without sending anything, whatever the
     * terms. A payment that passes at every node that was read leaves exactly
     * once, and settles if the token executes it where it lands and the outcome
     * is not lost. `trail` is what was read, its `first` by the first read.
     */
    method Settle(p: Payment, req: Requirements) returns (r: SettleResponse, ghost trail: Trail)
      requires Valid()
      modifies this`sent, world`s, world`actions, world`faults
      ensures world.faults >= old(world.faults)
      ensures Valid() && Extends(old(world.s), world.s)
      ensures sent == old(sent) || sent == old(sent) + [p.authorized]
      ensures r.Settled? ==> Spent(world.s, p.authorized)
      ensures r == Settled(false) ==>
                && !Spent(old(world.s), p.authorized)
                && sent == old(sent) + [p.authorized] && ExecutedSince(old(world.s), world.s, p.authorized)
                && MeetsTerms(network, world.d.config.usdc, p, req)
      ensures r == Settled(true) ==> sent == old(sent)
      ensures !MeetsTerms(network, world.d.config.usdc, p, req) && r != SettleThrew ==>
                (r.Settled? <==> AlreadyDone(trail.first, p.authorized))
      ensures r != SettleThrew ==>
                && trail.first in world.s.past
                && (r == Settled(true) <==> AlreadyDone(trail.first, p.authorized))
      ensures r.SettleThrew? ==> world.faults > old(world.faults)
      ensures r.Refused? ==>
                && sent == old(sent)
                && Holds(r.reason, network, world.d.config.usdc, p, req, trail, p.authorized in old(world.s.signed))
      ensures r.SubmitFailed? && p.authorized in old(world.s.signed) ==>
                if sent == old(sent) then !Executes(trail.node, p.authorized.message)
                else !Executes(trail.met, p.authorized.message) || world.faults > old(world.faults)
      ensures sent != old(sent) ==> Executes(trail.node, p.authorized.message)
      ensures Passes(network, world.d.config.usdc, p, req, trail, p.authorized in old(world.s.signed))
              && world.faults == old(world.faults) ==>
                && sent == old(sent) + [p.authorized]
                && (r == Settled(false) <==> Executes(trail.met, p.authorized.message))
    {
      hide Extends, Inv, Run, Spent, ExecutedSince, Executes;
      world.Elapse();
      ghost var elapsed := world.s;
      SignaturesStay(old(world.s), elapsed);
      var node := world.View();
      trail := Trail(node, 0, node, node, node, node);
      var answered := world.Try();
      if !answered {
        return SettleThrew, trail;
      }
      if AuthorizationState(node.token, p.authorized.message.from, p.authorized.message.nonce) {
        SeenIsSpent(world.s, node, p.authorized);
        return Settled(true), trail;
      }
      ghost var seen;
      var check;
      check, seen := Verify(p, req);
      ExtendsTransitive(old(world.s), elapsed, world.s);
      PastStays(elapsed, world.s, node);
      trail := seen.(first := node);
      if check.VerifyThrew? {
        return SettleThrew, trail;
      }
      if check.IsInvalid? {
        return SettleResponse.Refused(check.reason), trail;
      }
      ghost var checked := world.s;
      SignaturesStay(elapsed, checked);
      ghost var estimated, met;
      r, estimated, met := SubmitPayment(p.authorized);
      trail := trail.(node := estimated, met := met);
      ExtendsTransitive(old(world.s), checked, world.s);
      PastStays(checked, world.s, node);
      if r.Settled? {
        ExecutedEarlier(old(world.s), checked, world.s, p.authorized);
      }
    }
  }

  /** The payment meets its terms and is genuine, and every node that was read shows it payable. */
  predicate Passes(network: string, asset: Address, p: Payment, req: Requirements, t: Trail, genuine: bool) {
    && MeetsTerms(network, asset, p, req) && genuine
    && !AlreadyDone(t.first, p.authorized) && LooksPayable(p.authorized.message, t)
    && Executes(t.node, p.authorized.message)
  }

  /** A signature more never makes the token refuse. */
  lemma UnsignedIsRefused(at: Snapshot, m: Message, signed: bool)
    ensures TransferWithAuthorization(at.token, m, signed, at.now).Ok? <==> Executes(at, m) && signed
  {
    hide Move;
  }

  lemma HasHead(h: Hasher, d: Deployment, at: System)
    requires Inv(h, d, at)
    ensures at.past != []
  {
  }

  lemma HeadInPast(at: System, end: System)
    requires at.past != [] && Extends(at, end)
    ensures Head(at) in end.past
  {
    hide Later;
    assert end.past[|at.past| - 1] == Head(at);
  }

  /** A submission takes effect exactly when the token executes it where it lands. */
  lemma AppliedExecutes(h: Hasher, d: Deployment, at: System, a: Authorized)
    requires at.past != []
    ensures Step(h, d, at, Submit(a)) != at <==> Executes(Head(at), a.message) && a in at.signed
  {
    hide Move;
    UnsignedIsRefused(Head(at), a.message, a in at.signed);
    var r := TransferWithAuthorization(Head(at).token, a.message, a in at.signed, Head(at).now);
    if r.Ok? { assert |Step(h, d, at, Submit(a)).past| == |at.past| + 1; }
  }

  /** A node in state `at` answers that the message's nonce is consumed. */
  predicate AlreadyDone(at: Snapshot, a: Authorized) {
    AuthorizationState(at.token, a.message.from, a.message.nonce)
  }

  /** The token has consumed this message's nonce. */
  predicate Spent(s: System, a: Authorized) {
    s.past != [] && AuthorizationState(Head(s).token, a.message.from, a.message.nonce)
  }

  /** The token executed exactly this signed message between `a` and `b`. */
  predicate ExecutedSince(before: System, after: System, a: Authorized) {
    before.log <= after.log && a in after.log[|before.log|..]
  }

  lemma SeenIsSpent(s: System, at: Snapshot, a: Authorized)
    requires s.past != [] && Before(at, Head(s)) && AuthorizationState(at.token, a.message.from, a.message.nonce)
    ensures Spent(s, a)
  {
    hide Later;
  }

  lemma SignaturesStay(a: System, b: System)
    requires Extends(a, b)
    ensures a.signed <= b.signed
  {
    hide Later;
  }

  lemma PastStays(a: System, b: System, at: Snapshot)
    requires Extends(a, b) && at in a.past
    ensures at in b.past
  {
    hide Later;
    var i :| 0 <= i < |a.past| && a.past[i] == at;
    assert b.past[i] == at;
  }

  lemma SubmitExecutes(h: Hasher, d: Deployment, start: System, at: System, end: System, a: Authorized)
    requires Extends(start, at) && at.past != [] && Step(h, d, at, Submit(a)) != at
             && Extends(Step(h, d, at, Submit(a)), end)
    ensures !Spent(start, a) && Spent(end, a) && ExecutedSince(start, end, a)
  {
    hide Later;
    var after := Step(h, d, at, Submit(a));
    assert after.log == at.log + [a];
    assert end.log[|at.log|] == a;
    assert end.log[|start.log|..][|at.log| - |start.log|] == a;
  }

  lemma ExecutedEarlier(a: System, b: System, c: System, x: Authorized)
    requires Extends(a, b) && ExecutedSince(b, c, x) && !Spent(b, x)
    ensures ExecutedSince(a, c, x) && !Spent(a, x)
  {
    hide Later;
    var i :| 0 <= i < |c.log[|b.log|..]| && c.log[|b.log|..][i] == x;
    assert c.log[|a.log|..][|b.log| - |a.log| + i] == x;
  }

  // ------------------------------------------ what an earlier settlement means

  /**
   * In every run: a settlement reported as already done, for an authorization
   * signed for a spend, is that very spend's, or two nonce encodings collide.
   */
  lemma AlreadySettledIsPaid(h: Hasher, d: Deployment, actions: seq<Action>, a: Authorized)
    requires a in Run(h, d, actions).signed && Spent(Run(h, d, actions), a) && a.origin.ForSpend?
    ensures var s := Run(h, d, actions);
            || Paid(s.log, a.origin.goalId, a.origin.spendSeq)
            || NonceCollision(h, s.log, a.origin.goalId, a.origin.spendSeq)
  {
    hide Run, SpendNonce, Later, VaultInv;
    RunInv(h, d, actions);
    var s := Run(h, d, actions);
    assert SignedOk(h, d, Head(s).vault, a);
    ConsumedMeansPaid(h, d, actions, a.origin.goalId, a.origin.spendSeq);
  }

  /**
   * Success with the terms unmet happens: in this run one unit went to payee 9,
   * and a request that asks for it at payee 8 finds the nonce consumed, so
   * `Settle` with its first read at the head answers `Settled(true)`.
   */
  lemma SettledThoughUnmet(h: Hasher, d: Deployment, network: string, payer: Address)
    requires payer !in d.held && payer != 9
    ensures var m := Message(payer, 9, 1, 0, 10, Word(1));
            var a := Authorized(m, Foreign);
            var s := Run(h, d, [ForeignSign(m), Deposit(payer, 1), Tick(1), Submit(a)]);
            && AlreadyDone(Head(s), a)
            && !MeetsTerms(network, d.config.usdc, Payment(network, a), Requirements(network, d.config.usdc, 8, 1))
  {
    hide Word;
    var m := Message(payer, 9, 1, 0, 10, Word(1));
    var a := Authorized(m, Foreign);
    var one := [] + [ForeignSign(m)];
    var two := one + [Deposit(payer, 1)];
    var three := two + [Tick(1)];
    assert three + [Submit(a)] == [ForeignSign(m), Deposit(payer, 1), Tick(1), Submit(a)];
    StepIsRun(h, d, [], ForeignSign(m));
    StepIsRun(h, d, one, Deposit(payer, 1));
    StepIsRun(h, d, two, Tick(1));
    StepIsRun(h, d, three, Submit(a));
    assert Run(h, d, []) == Start();
    assert a in Run(h, d, one).signed && Head(Run(h, d, one)) == Head(Start());
    assert Head(Run(h, d, two)).token.balances == map[payer := 1];
  }
}
