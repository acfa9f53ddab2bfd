/**
 * What can always be done: beside every bound on what money may move, when it
 * does. Not only is an approved spend never overpaid, it can be paid; and what
 * a closed goal has left goes back to its owner.
 */
module Liveness {
  import opened Wrappers
  import opened Hashing
  import opened Vault
  import opened Token
  import opened Signer
  import opened Protocol
  import opened Guarantees

  /** Every committed window had begun before the block it was committed in. */
  ghost predicate Begun(at: Snapshot) {
    forall goalId, spendSeq :: HasGoal(at.vault, goalId) && HasSpend(GoalAt(at.vault, goalId), spendSeq) ==>
      SpendAt(GoalAt(at.vault, goalId), spendSeq).validAfter < at.now
  }

  lemma StepKeepsBegun(h: Hasher, d: Deployment, s: System, a: Action)
    requires s.past != [] && Begun(Head(s))
    ensures Begun(Head(Step(h, d, s, a)))
  {
    hide Step;
    var t := Step(h, d, s, a);
    forall goalId, spendSeq | HasGoal(Head(t).vault, goalId) && HasSpend(GoalAt(Head(t).vault, goalId), spendSeq)
      ensures SpendAt(GoalAt(Head(t).vault, goalId), spendSeq).validAfter < Head(t).now
    {
      SpendBegan(h, d, s, a, goalId, spendSeq);
    }
  }

  /** A spend was there before the action, or the action committed it. */
  lemma SpendBegan(h: Hasher, d: Deployment, s: System, a: Action, goalId: nat, spendSeq: nat)
    requires s.past != []
    requires StoredSpend(Head(Step(h, d, s, a)).vault, goalId, spendSeq).Some?
    ensures var at, next := Head(s), Head(Step(h, d, s, a));
            && at.now <= next.now
            && var r := StoredSpend(next.vault, goalId, spendSeq).value;
               if StoredSpend(at.vault, goalId, spendSeq).Some?
               then r.validAfter == StoredSpend(at.vault, goalId, spendSeq).value.validAfter
               else r.validAfter < at.now
  {
    hide SignAt, SweepAt, TransferWithAuthorization, NonceUsed, RequestSpend, ReclaimExpired;
    var at := Head(s);
    match a {
      case Request(sender, id, amount, payTo, resource, payBy) =>
        RequestBegins(h, at.vault, sender, id, amount, payTo, resource, payBy, at.now, goalId, spendSeq);
      case Reclaim(id, q, foreignUsed) =>
        ReclaimBegins(at.vault, id, q, NonceUsed(h, d, at, id, q, foreignUsed), at.now, goalId, spendSeq);
      case _ =>
    }
  }

  lemma RequestBegins(h: Hasher, v: State, sender: Address, id: nat, amount: U256, payTo: Address, resource: Bytes,
                      payBy: U64, now: nat, goalId: nat, spendSeq: nat)
    ensures var w := RequestSpend(h, v, sender, id, amount, payTo, resource, payBy, now);
            w.Ok? && StoredSpend(w.value, goalId, spendSeq).Some? ==>
              if StoredSpend(v, goalId, spendSeq).Some?
              then StoredSpend(w.value, goalId, spendSeq) == StoredSpend(v, goalId, spendSeq)
              else StoredSpend(w.value, goalId, spendSeq).value.validAfter < now
  {
    hide TermsBytes, Affordable, Min;
  }

  lemma ReclaimBegins(v: State, id: nat, q: nat, used: bool, now: nat, goalId: nat, spendSeq: nat)
    ensures var w := ReclaimExpired(v, id, q, used, now);
            w.Ok? && StoredSpend(w.value, goalId, spendSeq).Some? ==>
              && StoredSpend(v, goalId, spendSeq).Some?
              && StoredSpend(w.value, goalId, spendSeq).value.validAfter
                   == StoredSpend(v, goalId, spendSeq).value.validAfter
  {
  }

  lemma {:induction false} AlwaysBegun(h: Hasher, d: Deployment, actions: seq<Action>)
    ensures Begun(Head(Run(h, d, actions)))
  {
    hide Step, Begun;
    if actions == [] {
      BegunAtStart();
    } else {
      AlwaysBegun(h, d, actions[..|actions| - 1]);
      StepKeepsBegun(h, d, Run(h, d, actions[..|actions| - 1]), actions[|actions| - 1]);
    }
  }

  lemma BegunAtStart()
    ensures Begun(Head(Start()))
  {
  }

  /** Asks the signer, with every read answered from the head and its clock at the block time, and submits. */
  function AskAndSubmit(h: Hasher, d: Deployment, s: System, goalId: nat, spendSeq: nat): (pay: seq<Action>)
    requires s.past != [] && HasGoal(Head(s).vault, goalId) && HasSpend(GoalAt(Head(s).vault, goalId), spendSeq)
    ensures |pay| == 2 && pay[1].Submit?
  {
    var n := |s.past|;
    [AskSign(goalId, spendSeq, d.config.chainId, Views(n, n, n, n, n, n), Head(s).now, true, true),
     Submit(Authorized(FrozenMessage(h, GoalAt(Head(s).vault, goalId), goalId, spendSeq), ForSpend(goalId, spendSeq)))]
  }

  /** What stands between an approved spend and its payment: all of it public. */
  predicate Payable(h: Hasher, at: Snapshot, goalId: nat, spendSeq: nat)
    requires HasGoal(at.vault, goalId) && HasSpend(GoalAt(at.vault, goalId), spendSeq)
  {
    var g := GoalAt(at.vault, goalId);
    var r := SpendAt(g, spendSeq);
    && at.now < r.validBefore && r.payTo != 0 && r.amount <= BalanceOf(at.token, g.payer)
    && !AuthorizationState(at.token, g.payer, SpendNonce(h, goalId, spendSeq))
  }

  /**
   * In every run, an approved spend of a held payer is paid by asking the
   * signer and submitting what it signs if and only if its window is open, its
   * payee is not the zero address, the payer holds the amount and the nonce is
   * unused. Nothing the orchestrator, the vendor or anyone did before matters.
   */
  lemma ApprovedIsPayable(h: Hasher, d: Deployment, actions: seq<Action>, goalId: nat, spendSeq: nat)
    requires var v := Head(Run(h, d, actions)).vault;
             && ApprovedAt(d.config, v, goalId, spendSeq)
             && GoalAt(v, goalId).payer in d.held && GoalAt(v, goalId).owner != 0
    ensures var s := Run(h, d, actions);
            var pay := AskAndSubmit(h, d, s, goalId, spendSeq);
            var t := Run(h, d, actions + pay);
            && (Payable(h, Head(s), goalId, spendSeq) <==> t.log == s.log + [pay[1].authorized])
            && (Payable(h, Head(s), goalId, spendSeq) <==> t.log != s.log)
            && (Payable(h, Head(s), goalId, spendSeq) ==> Paid(t.log, goalId, spendSeq))
  {
    hide Run, Inv, Step, Payable, Paid, AskAndSubmit, SpendNonce;
    var s := Run(h, d, actions);
    RunInv(h, d, actions);
    AlwaysBegun(h, d, actions);
    AmountIsPositive(h, d, s, goalId, spendSeq);
    var pay := AskAndSubmit(h, d, s, goalId, spendSeq);
    TwoMore(h, d, actions, pay);
    AskThenSubmit(h, d, s, goalId, spendSeq);
  }

  lemma TwoMore(h: Hasher, d: Deployment, actions: seq<Action>, pay: seq<Action>)
    requires |pay| == 2
    ensures Run(h, d, actions + pay) == Step(h, d, Step(h, d, Run(h, d, actions), pay[0]), pay[1])
  {
    hide Run, Step;
    StepIsRun(h, d, actions, pay[0]);
    StepIsRun(h, d, actions + [pay[0]], pay[1]);
    assert actions + pay == actions + [pay[0]] + [pay[1]];
  }

  lemma AmountIsPositive(h: Hasher, d: Deployment, s: System, goalId: nat, spendSeq: nat)
    requires Inv(h, d, s) && HasGoal(Head(s).vault, goalId) && HasSpend(GoalAt(Head(s).vault, goalId), spendSeq)
    ensures SpendAt(GoalAt(Head(s).vault, goalId), spendSeq).amount > 0
  {
    var g := Head(s).vault.goals[goalId - 1];
    assert GoalInv(g) && RecordOk(g, g.spends[spendSeq - 1]);
  }

  lemma AskThenSubmit(h: Hasher, d: Deployment, s: System, goalId: nat, spendSeq: nat)
    requires s.past != [] && Begun(Head(s)) && ApprovedAt(d.config, Head(s).vault, goalId, spendSeq)
    requires var g := GoalAt(Head(s).vault, goalId);
             g.payer in d.held && g.owner != 0 && SpendAt(g, spendSeq).amount > 0
    ensures var pay := AskAndSubmit(h, d, s, goalId, spendSeq);
            var t := Step(h, d, Step(h, d, s, pay[0]), pay[1]);
            && (Payable(h, Head(s), goalId, spendSeq) ==>
                  t.log == s.log + [pay[1].authorized] && Paid(t.log, goalId, spendSeq))
            && (!Payable(h, Head(s), goalId, spendSeq) ==> t.log == s.log)
  {
    hide SpendNonce, Sign, ReadSpend;
    var pay := AskAndSubmit(h, d, s, goalId, spendSeq);
    var v := Head(s).vault;
    SignsExactlyApproved(h, d.config, v, goalId, spendSeq, Head(s).now);
    var asked := Step(h, d, s, pay[0]);
    var seen := SpendReads(v, v, v, v, v);
    if Head(s).now < SpendAt(GoalAt(v, goalId), spendSeq).validBefore {
      LaterItself(v);
      SignedIsFrozen(h, d.config, goalId, spendSeq, d.config.chainId, v, seen, v, Head(s).now, true, true);
      assert pay[1].authorized in asked.signed;
    }
    var t := Step(h, d, asked, pay[1]);
    if t.log == s.log + [pay[1].authorized] {
      assert t.log[|s.log|].origin == ForSpend(goalId, spendSeq);
    }
  }

  // ---------------------------------------------------------------- sweeping

  /** A closed goal of the signer's token, with a key the signer holds, an owner and a balance. */
  predicate Leftover(d: Deployment, at: Snapshot, goalId: nat) {
    && HasGoal(at.vault, goalId) && !GoalAt(at.vault, goalId).open && GoalAt(at.vault, goalId).asset == d.config.usdc
    && GoalAt(at.vault, goalId).payer in d.held && GoalAt(at.vault, goalId).owner != 0
    && BalanceOf(at.token, GoalAt(at.vault, goalId).payer) > 0 && at.now > 0
  }

  /** What the signer signs for the whole balance of a closed goal. */
  function SweepMessage(h: Hasher, at: Snapshot, goalId: nat): Message
    requires HasGoal(at.vault, goalId) && at.now > 0
  {
    var g := GoalAt(at.vault, goalId);
    var balance := BalanceOf(at.token, g.payer);
    Message(g.payer, g.owner, balance, at.now - 1, at.now + 3600, SweepNonce(h, goalId, balance))
  }

  /** Asks for the sweep, with both reads answered from the head, and submits what is signed. */
  function SweepAndSubmit(h: Hasher, d: Deployment, s: System, goalId: nat): (sweep: seq<Action>)
    requires s.past != [] && Leftover(d, Head(s), goalId)
    ensures |sweep| == 2 && sweep[1] == Submit(Authorized(SweepMessage(h, Head(s), goalId), ForSweep(goalId)))
  {
    var n := |s.past|;
    [AskSweep(goalId, d.config.chainId, n, n, Head(s).now, true, true),
     Submit(Authorized(SweepMessage(h, Head(s), goalId), ForSweep(goalId)))]
  }

  /**
   * What a closed goal has left goes back. In every run, sweeping gives the
   * owner the payer's whole balance if and only if the nonce of this goal and
   * this balance is unused; otherwise it moves nothing. So a balance equal to
   * one swept before stays where it is until it changes.
   */
  lemma ClosedIsSweepable(h: Hasher, d: Deployment, actions: seq<Action>, goalId: nat)
    requires Leftover(d, Head(Run(h, d, actions)), goalId)
    ensures var s := Run(h, d, actions);
            var at := Head(s);
            var t := Run(h, d, actions + SweepAndSubmit(h, d, s, goalId));
            var payer, owner := GoalAt(at.vault, goalId).payer, GoalAt(at.vault, goalId).owner;
            var balance := BalanceOf(at.token, payer);
            if AuthorizationState(at.token, payer, SweepNonce(h, goalId, balance)) then Head(t) == at
            else Swept(at.token, Head(t).token, payer, owner) && |t.log| == |s.log| + 1
  {
    hide Run, Step, Leftover, SweepMessage, SweepNonce, SweepAndSubmit, AuthorizationState, Swept;
    var s := Run(h, d, actions);
    TwoMore(h, d, actions, SweepAndSubmit(h, d, s, goalId));
    AskThenSweep(h, d, s, goalId);
  }

  /** The payer's whole balance went to the owner, and nothing else moved. */
  ghost predicate Swept(before: Ledger, after: Ledger, payer: Address, owner: Address) {
    && (payer != owner ==>
         BalanceOf(after, payer) == 0 && BalanceOf(after, owner) == BalanceOf(before, owner) + BalanceOf(before, payer))
    && forall a: Address :: a != payer && a != owner ==> BalanceOf(after, a) == BalanceOf(before, a)
  }

  lemma SweepIsSigned(h: Hasher, d: Deployment, s: System, goalId: nat)
    requires s.past != [] && Leftover(d, Head(s), goalId)
    ensures var sweep := SweepAndSubmit(h, d, s, goalId);
            Step(h, d, s, sweep[0]) == s.(signed := s.signed + {sweep[1].authorized})
  {
    hide SweepNonce;
    var at := Head(s);
    SweepsExactlyClosed(h, d.config, at.vault, goalId, BalanceOf(at.token, GoalAt(at.vault, goalId).payer), at.now);
  }

  lemma AskThenSweep(h: Hasher, d: Deployment, s: System, goalId: nat)
    requires s.past != [] && Leftover(d, Head(s), goalId)
    ensures var sweep := SweepAndSubmit(h, d, s, goalId);
            var t := Step(h, d, Step(h, d, s, sweep[0]), sweep[1]);
            var g := GoalAt(Head(s).vault, goalId);
            var balance := BalanceOf(Head(s).token, g.payer);
            if AuthorizationState(Head(s).token, g.payer, SweepNonce(h, goalId, balance)) then Head(t) == Head(s)
            else Swept(Head(s).token, Head(t).token, g.payer, g.owner) && |t.log| == |s.log| + 1
  {
    hide SweepNonce, Sweep, SweepAt, SweepAndSubmit;
    SweepIsSigned(h, d, s, goalId);
  }
}
