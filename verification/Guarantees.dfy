/** What holds of every run of the spend protocol, whoever chose its actions. */
module Guarantees {
  import opened Wrappers
  import opened Hashing
  import opened Sums
  import opened Vault
  import opened Token
  import opened Signer
  import opened Protocol

  // ---------------------------------------------------------------- money

  /** What the token has moved under spend authorizations of one goal. */
  function SettledTo(log: seq<Authorized>, goalId: nat): nat {
    if log == [] then 0 else
      var last := log[|log| - 1];
      SettledTo(log[..|log| - 1], goalId) +
      if last.origin.ForSpend? && last.origin.goalId == goalId then last.message.value else 0
  }

  /** The amounts of the spends the log has paid, by seq. */
  ghost function PaidAmounts(spends: seq<Record>, log: seq<Authorized>, goalId: nat): seq<nat> {
    seq(|spends|, i requires 0 <= i < |spends| => if Paid(log, goalId, i + 1) then spends[i].amount else 0)
  }

  /** No spend is paid twice: its nonce is fixed and the token takes a nonce once. */
  lemma PaidOnce(h: Hasher, d: Deployment, s: System, k: nat, goalId: nat, spendSeq: nat)
    requires Inv(h, d, s) && k < |s.log| && s.log[k].origin == ForSpend(goalId, spendSeq)
    ensures !Paid(s.log[..k], goalId, spendSeq)
  {
    hide VaultInv, Later, SpendNonce;
    if Paid(s.log[..k], goalId, spendSeq) {
      var i :| 0 <= i < k && s.log[..k][i].origin == ForSpend(goalId, spendSeq);
      SameSpendSameNonce(h, d, Head(s).vault, s.log[i], s.log[k], goalId, spendSeq);
    }
  }

  lemma SameSpendSameNonce(h: Hasher, d: Deployment, v: State, a: Authorized, b: Authorized, goalId: nat, spendSeq: nat)
    requires SignedOk(h, d, v, a) && SignedOk(h, d, v, b)
    requires a.origin == b.origin == ForSpend(goalId, spendSeq)
    ensures SameNonce(a, b)
  {
  }

  lemma SpendEntry(h: Hasher, d: Deployment, s: System, k: nat)
    requires Inv(h, d, s) && k < |s.log| && s.log[k].origin.ForSpend?
    ensures var v := Head(s).vault; var o := s.log[k].origin;
            && ApprovedAt(d.config, v, o.goalId, o.spendSeq)
            && GoalAt(v, o.goalId).payer in d.held
            && s.log[k].message == FrozenMessage(h, GoalAt(v, o.goalId), o.goalId, o.spendSeq)
  {
    assert SignedOk(h, d, Head(s).vault, s.log[k]);
  }

  lemma {:induction false} SettledIsPaid(h: Hasher, d: Deployment, s: System, goalId: nat, k: nat)
    requires Inv(h, d, s) && HasGoal(Head(s).vault, goalId) && k <= |s.log|
    ensures SettledTo(s.log[..k], goalId) ==
              Total(PaidAmounts(GoalAt(Head(s).vault, goalId).spends, s.log[..k], goalId))
  {
    hide Inv, FrozenMessage;
    InvHead(h, d, s);
    var spends := GoalAt(Head(s).vault, goalId).spends;
    if k == 0 {
      NothingPaid(spends, goalId);
      assert s.log[..0] == [];
    } else {
      var log, x := s.log[..k - 1], s.log[k - 1];
      assert s.log[..k] == log + [x] && s.log[..k][..k - 1] == log;
      SettledIsPaid(h, d, s, goalId, k - 1);
      forall q | 1 <= q <= |spends|
        ensures Paid(log + [x], goalId, q) <==> Paid(log, goalId, q) || x.origin == ForSpend(goalId, q)
      {
        PaidAppended(log, x, goalId, q);
      }
      if x.origin.ForSpend? && x.origin.goalId == goalId {
        var q := x.origin.spendSeq;
        SpendEntry(h, d, s, k - 1);
        PaidOnce(h, d, s, k - 1, goalId, q);
        FrozenAmount(h, GoalAt(Head(s).vault, goalId), goalId, q);
        assert PaidAmounts(spends, log + [x], goalId) ==
            PaidAmounts(spends, log, goalId)[q - 1 := spends[q - 1].amount];
        TotalUpdate(PaidAmounts(spends, log, goalId), q - 1, spends[q - 1].amount);
      } else {
        assert PaidAmounts(spends, log + [x], goalId) == PaidAmounts(spends, log, goalId);
      }
    }
  }

  lemma FrozenAmount(h: Hasher, g: Goal, goalId: nat, spendSeq: nat)
    requires HasSpend(g, spendSeq)
    ensures FrozenMessage(h, g, goalId, spendSeq).value == g.spends[spendSeq - 1].amount
  {
  }

  lemma NothingPaid(spends: seq<Record>, goalId: nat)
    ensures Total(PaidAmounts(spends, [], goalId)) == 0
  {
    var zeros := PaidAmounts(spends, [], goalId);
    TotalBound(zeros, 0, zeros);
  }

  /** A paid spend still counts against the budget and the calls. */
  lemma PaidStillCounts(h: Hasher, d: Deployment, s: System, goalId: nat)
    requires Inv(h, d, s) && HasGoal(Head(s).vault, goalId)
    ensures var g := GoalAt(Head(s).vault, goalId); var paid := PaidAmounts(g.spends, s.log, goalId);
            forall i :: 0 <= i < |g.spends| ==>
              paid[i] <= Debits(g.spends)[i] && paid[i] <= g.cap * CallsUsed(g.spends)[i]
  {
    var g := GoalAt(Head(s).vault, goalId);
    assert GoalInv(g);
    forall i | 0 <= i < |g.spends|
      ensures PaidAmounts(g.spends, s.log, goalId)[i] <= Debits(g.spends)[i]
      ensures PaidAmounts(g.spends, s.log, goalId)[i] <= g.cap * CallsUsed(g.spends)[i]
    {
      assert RecordOk(g, g.spends[i]);
      if Paid(s.log, goalId, i + 1) {
        PaidIsUsed(h, d, s, goalId, i + 1);
        assert !Reclaimed(Head(s).vault, goalId, i + 1);
      }
    }
  }

  /**
   * The extraction bound. Whatever a compromised orchestrator, vendor and
   * facilitator do, the payees of a goal together receive at most the budget
   * the owner set, and at most the cap times the calls.
   */
  lemma ExtractionBound(h: Hasher, d: Deployment, actions: seq<Action>, goalId: nat)
    requires HasGoal(Head(Run(h, d, actions)).vault, goalId)
    ensures var s := Run(h, d, actions); var g := GoalAt(Head(s).vault, goalId);
            SettledTo(s.log, goalId) <= Min(g.opening.budget, g.cap * g.opening.calls)
  {
    hide Inv, Run;
    var s := Run(h, d, actions);
    RunInv(h, d, actions);
    SettledIsPaid(h, d, s, goalId, |s.log|);
    assert s.log[..|s.log|] == s.log;
    PaidStillCounts(h, d, s, goalId);
    var g := GoalAt(Head(s).vault, goalId);
    Books(h, d, s, goalId);
    TotalBound(PaidAmounts(g.spends, s.log, goalId), 1, Debits(g.spends));
    TotalBound(PaidAmounts(g.spends, s.log, goalId), g.cap, CallsUsed(g.spends));
    ScaledAtMost(g.cap, Total(CallsUsed(g.spends)), g.opening.calls);
  }

  lemma Books(h: Hasher, d: Deployment, s: System, goalId: nat)
    requires Inv(h, d, s) && HasGoal(Head(s).vault, goalId)
    ensures var g := GoalAt(Head(s).vault, goalId);
            && g.budget + Total(Debits(g.spends)) == g.opening.budget
            && g.callsRemaining + Total(CallsUsed(g.spends)) == g.opening.calls
            && g.attemptsRemaining + |g.spends| == g.opening.attempts
  {
    assert GoalInv(Head(s).vault.goals[goalId - 1]);
  }

  /**
   * Conservation. In every reachable state the opening budget is what remains
   * plus the pending or approved amounts not given back, the opening calls are
   * those left plus those spent, and the opening attempts those left plus the
   * decisions ever asked for. So Inco's arithmetic never wraps.
   */
  lemma Conservation(h: Hasher, d: Deployment, actions: seq<Action>, goalId: nat)
    requires HasGoal(Head(Run(h, d, actions)).vault, goalId)
    ensures var g := GoalAt(Head(Run(h, d, actions)).vault, goalId);
            && g.budget + Total(Debits(g.spends)) == g.opening.budget
            && g.callsRemaining + Total(CallsUsed(g.spends)) == g.opening.calls
            && g.attemptsRemaining + |g.spends| == g.opening.attempts
  {
    hide Inv, Run;
    RunInv(h, d, actions);
    Books(h, d, Run(h, d, actions), goalId);
  }

  // ----------------------------------------------------- every transfer

  /** No two goals share a payer. */
  lemma OnePayerOneGoal(h: Hasher, d: Deployment, actions: seq<Action>, i: nat, j: nat)
    requires HasGoal(Head(Run(h, d, actions)).vault, i) && HasGoal(Head(Run(h, d, actions)).vault, j)
    requires GoalAt(Head(Run(h, d, actions)).vault, i).payer == GoalAt(Head(Run(h, d, actions)).vault, j).payer
    ensures i == j
  {
    hide Run;
    RunInv(h, d, actions);
    var v := Head(Run(h, d, actions)).vault;
    assert v.payerGoal[v.goals[i - 1].payer] == i && v.payerGoal[v.goals[j - 1].payer] == j;
  }

  /** A transfer the owner of a payer's goal should expect to see. */
  ghost predicate Expected(h: Hasher, at: Snapshot, m: Message, goalId: nat)
    requires HasGoal(at.vault, goalId)
  {
    var g := GoalAt(at.vault, goalId);
    || (m.to == g.owner && !g.open)
    || (exists q :: HasSpend(g, q) && SpendAt(g, q).finalized && SpendAt(g, q).approved && !SpendAt(g, q).reclaimed
                 && SpendAt(g, q).decision && SpendAt(g, q).payTo in g.allowlist && SpendAt(g, q).amount <= g.cap
                 && m == FrozenMessage(h, g, goalId, q))
  }

  /**
   * Every transfer out of a payer the signer holds is either a sweep to the
   * owner of its closed goal, or exactly the frozen tuple of a spend that the
   * policy approved, to an allowlisted payee, within the cap, never reclaimed.
   */
  lemma EveryTransferExpected(h: Hasher, d: Deployment, actions: seq<Action>, i: nat, goalId: nat)
    requires var s := Run(h, d, actions);
             && i < |s.log| && HasGoal(Head(s).vault, goalId)
             && GoalAt(Head(s).vault, goalId).payer in d.held
             && s.log[i].message.from == GoalAt(Head(s).vault, goalId).payer
    ensures var s := Run(h, d, actions); Expected(h, Head(s), s.log[i].message, goalId)
  {
    hide Run, SpendNonce, Later;
    RunInv(h, d, actions);
    var s := Run(h, d, actions);
    var v := Head(s).vault;
    var x := s.log[i];
    assert SignedOk(h, d, v, x);
    var own := if x.origin.ForSpend? || x.origin.ForSweep? then x.origin.goalId else 0;
    assert own == goalId by {
      assert v.payerGoal[v.goals[goalId - 1].payer] == goalId;
      assert v.payerGoal[v.goals[own - 1].payer] == own;
    }
    if x.origin.ForSpend? {
      var g := GoalAt(v, goalId);
      var q := x.origin.spendSeq;
      assert GoalInv(g) && RecordOk(g, g.spends[q - 1]);
      assert Paid(s.log, goalId, q);
      assert !Reclaimed(v, goalId, q);
    }
  }

  /** The token executed no authorization twice: no spend, and no balance of a goal swept. */
  lemma NothingTwice(h: Hasher, d: Deployment, actions: seq<Action>, i: nat, j: nat)
    requires i < j < |Run(h, d, actions).log|
    ensures var log := Run(h, d, actions).log;
            && !SameNonce(log[i], log[j])
            && (log[i].origin.ForSpend? ==> log[i].origin != log[j].origin)
            && (log[i].origin.ForSweep? && log[i].origin == log[j].origin ==>
                 log[i].message.value != log[j].message.value)
  {
    hide Run;
    RunInv(h, d, actions);
    var s := Run(h, d, actions);
    if s.log[i].origin.ForSweep? && s.log[i].origin == s.log[j].origin {
      assert SignedOk(h, d, Head(s).vault, s.log[i]) && SignedOk(h, d, Head(s).vault, s.log[j]);
    }
    if s.log[i].origin.ForSpend? && s.log[i].origin == s.log[j].origin {
      assert s.log[..j][i] == s.log[i];
      PaidOnce(h, d, s, j, s.log[j].origin.goalId, s.log[j].origin.spendSeq);
    }
  }

  // ----------------------------------------------- settle against reclaim

  lemma StepExtendsPast(h: Hasher, d: Deployment, s: System, a: Action)
    requires s.past != []
    ensures s.past <= Step(h, d, s, a).past && s.log <= Step(h, d, s, a).log && s.signed <= Step(h, d, s, a).signed
  {
    hide SignAt, SweepAt, OpenGoal, CloseGoal, RequestSpend, Finalize, ReclaimExpired, TransferWithAuthorization,
        NonceUsed;
  }

  lemma {:induction false} RunFromExtendsPast(h: Hasher, d: Deployment, s: System, actions: seq<Action>)
    requires s.past != []
    ensures s.past <= RunFrom(h, d, s, actions).past && s.log <= RunFrom(h, d, s, actions).log
              && s.signed <= RunFrom(h, d, s, actions).signed
  {
    hide Step;
    if actions == [] {
    } else {
      RunFromExtendsPast(h, d, s, actions[..|actions| - 1]);
      StepExtendsPast(h, d, RunFrom(h, d, s, actions[..|actions| - 1]), actions[|actions| - 1]);
    }
  }

  /** The head only moves forward. */
  lemma RunFromIsLater(h: Hasher, d: Deployment, s: System, actions: seq<Action>)
    requires Inv(h, d, s)
    ensures Before(Head(s), Head(RunFrom(h, d, s, actions)))
  {
    hide RunFrom, VaultInv, Before, SignedOk, LogOk, Exclusive;
    var t := RunFrom(h, d, s, actions);
    RunFromExtendsPast(h, d, s, actions);
    RunFromKeepsInv(h, d, s, actions);
    assert t.past[|s.past| - 1] == Head(s);
  }

  /** One spend is never both paid and given back, however the calls interleave. */
  lemma SettleExcludesReclaim(h: Hasher, d: Deployment, actions: seq<Action>, goalId: nat, spendSeq: nat)
    ensures var s := Run(h, d, actions); !(Paid(s.log, goalId, spendSeq) && Reclaimed(Head(s).vault, goalId, spendSeq))
  {
    hide Run, VaultInv, SignedOk, LogOk, HistoryOk;
    RunInv(h, d, actions);
  }

  lemma {:induction false} RunFromConcat(h: Hasher, d: Deployment, s: System, a: seq<Action>, b: seq<Action>)
    requires s.past != []
    ensures RunFrom(h, d, s, a + b) == RunFrom(h, d, RunFrom(h, d, s, a), b)
  {
    hide Step;
    if b == [] {
      assert a + b == a;
    } else {
      assert (a + b)[..|a + b| - 1] == a + b[..|b| - 1];
      RunFromConcat(h, d, s, a, b[..|b| - 1]);
    }
  }

  lemma RunConcat(h: Hasher, d: Deployment, a: seq<Action>, b: seq<Action>)
    ensures Run(h, d, a + b) == RunFrom(h, d, Run(h, d, a), b)
  {
    RunFromConcat(h, d, Start(), a, b);
  }

  lemma StepIsRun(h: Hasher, d: Deployment, actions: seq<Action>, a: Action)
    ensures Run(h, d, actions + [a]) == Step(h, d, Run(h, d, actions), a)
  {
    hide Step;
    assert (actions + [a])[..|actions|] == actions;
  }

  // ------------------------------------------ what a consumed nonce means

  /** The token consumes a nonce only by executing a transfer. */
  predicate Executed(log: seq<Authorized>, from: Address, nonce: Bytes, i: int) {
    0 <= i < |log| && log[i].message.from == from && log[i].message.nonce == nonce
  }

  lemma {:induction false} UsedIsExecuted(h: Hasher, d: Deployment, actions: seq<Action>, from: Address, nonce: Bytes)
    requires AuthorizationState(Head(Run(h, d, actions)).token, from, nonce)
    ensures exists i :: Executed(Run(h, d, actions).log, from, nonce, i)
  {
    hide Step;
    if actions == [] {
    } else {
      var n := |actions| - 1;
      var s := Run(h, d, actions[..n]);
      var log := Run(h, d, actions).log;
      StepConsumes(h, d, s, actions[n], from, nonce);
      if AuthorizationState(Head(s).token, from, nonce) {
        UsedIsExecuted(h, d, actions[..n], from, nonce);
        var i :| Executed(s.log, from, nonce, i);
        assert Executed(log, from, nonce, i);
      } else {
        assert Executed(log, from, nonce, |s.log|);
      }
    }
  }

  lemma StepConsumes(h: Hasher, d: Deployment, s: System, a: Action, from: Address, nonce: Bytes)
    requires s.past != []
    ensures var t := Step(h, d, s, a);
            && s.log <= t.log
            && (AuthorizationState(Head(t).token, from, nonce) ==>
                  AuthorizationState(Head(s).token, from, nonce) || Executed(t.log, from, nonce, |s.log|))
  {
    hide OpenGoal, CloseGoal, Vault.RequestSpend, Finalize, Vault.ReclaimExpired, SignAt, SweepAt, BalanceOf;
  }

  /** The bytes a nonce was made from. */
  function NoncePreimage(a: Authorized): Bytes
    requires !a.origin.Foreign?
  {
    if a.origin.ForSpend? then NonceBytes(a.origin.goalId, a.origin.spendSeq)
        else SweepBytes(a.origin.goalId, a.message.value)
  }

  /** The token has consumed the nonce of this spend, whose payer the signer holds. */
  predicate NonceConsumed(h: Hasher, d: Deployment, at: Snapshot, goalId: nat, spendSeq: nat) {
    && HasGoal(at.vault, goalId) && HasSpend(GoalAt(at.vault, goalId), spendSeq)
    && GoalAt(at.vault, goalId).payer in d.held
    && AuthorizationState(at.token, GoalAt(at.vault, goalId).payer, SpendNonce(h, goalId, spendSeq))
  }

  /** Some executed transfer's nonce was made from other bytes than this spend's, and equals it. */
  ghost predicate NonceCollision(h: Hasher, log: seq<Authorized>, goalId: nat, spendSeq: nat) {
    exists i :: 0 <= i < |log| && !log[i].origin.Foreign? &&
      Collides(h, NonceBytes(goalId, spendSeq), NoncePreimage(log[i]))
  }

  /**
   * In every run a spend's nonce is consumed only by paying that spend, or two
   * of the encodings that were hashed into nonces collide.
   */
  lemma ConsumedMeansPaid(h: Hasher, d: Deployment, actions: seq<Action>, goalId: nat, spendSeq: nat)
    requires NonceConsumed(h, d, Head(Run(h, d, actions)), goalId, spendSeq)
    ensures var log := Run(h, d, actions).log;
            Paid(log, goalId, spendSeq) || NonceCollision(h, log, goalId, spendSeq)
  {
    hide Run, SpendNonce, SweepNonce, Later;
    var s := Run(h, d, actions);
    var v := Head(s).vault;
    var payer := GoalAt(v, goalId).payer;
    RunInv(h, d, actions);
    UsedIsExecuted(h, d, actions, payer, SpendNonce(h, goalId, spendSeq));
    var i :| Executed(s.log, payer, SpendNonce(h, goalId, spendSeq), i);
    var x := s.log[i];
    assert SignedOk(h, d, v, x);
    OneGoal(v, goalId, x.origin.goalId);
    SeqFits(v, goalId, spendSeq);
    if x.origin.ForSpend? {
      SeqFits(v, goalId, x.origin.spendSeq);
      SameGoalNonce(h, goalId, spendSeq, x.origin.spendSeq);
    } else {
      SweepIsNoSpend(h, goalId, spendSeq, goalId, x.message.value);
    }
  }

  lemma OneGoal(v: State, i: nat, j: nat)
    requires VaultInv(v) && HasGoal(v, i) && HasGoal(v, j) && GoalAt(v, i).payer == GoalAt(v, j).payer
    ensures i == j
  {
    assert v.payerGoal[v.goals[i - 1].payer] == i && v.payerGoal[v.goals[j - 1].payer] == j;
  }

  lemma SeqFits(v: State, goalId: nat, q: nat)
    requires VaultInv(v) && HasGoal(v, goalId) && HasSpend(GoalAt(v, goalId), q)
    ensures q < TWO_64
  {
    assert GoalInv(v.goals[goalId - 1]);
  }

  lemma SameGoalNonce(h: Hasher, goalId: nat, q: U64, r: U64)
    requires SpendNonce(h, goalId, q) == SpendNonce(h, goalId, r)
    ensures q == r || Collides(h, NonceBytes(goalId, q), NonceBytes(goalId, r))
  {
    if NonceBytes(goalId, q) == NonceBytes(goalId, r) {
      SplitConcat(Word(goalId), Word(q), Word(goalId), Word(r));
      WordInjective(q, r);
    }
  }

  /**
   * Once reclaimed, a spend can never be paid, and once paid never reclaimed;
   * after a reclaim the token can never consume its nonce at all, unless two
   * nonce encodings collide.
   */
  lemma DecidedForGood(h: Hasher, d: Deployment, actions: seq<Action>, more: seq<Action>, goalId: nat, spendSeq: nat)
    ensures var s := Run(h, d, actions); var t := RunFrom(h, d, s, more);
            && (Reclaimed(Head(s).vault, goalId, spendSeq) ==> !Paid(t.log, goalId, spendSeq))
            && (Paid(s.log, goalId, spendSeq) ==> !Reclaimed(Head(t).vault, goalId, spendSeq))
            && (Reclaimed(Head(s).vault, goalId, spendSeq) && NonceConsumed(h, d, Head(t), goalId, spendSeq) ==>
                  NonceCollision(h, t.log, goalId, spendSeq))
  {
    hide Run, RunFrom, VaultInv, SignedOk, LogOk, Later, NonceConsumed, NonceCollision;
    RunInv(h, d, actions);
    var s := Run(h, d, actions);
    var t := RunFrom(h, d, s, more);
    RunFromKeepsInv(h, d, s, more);
    RunFromIsLater(h, d, s, more);
    RunFromExtendsPast(h, d, s, more);
    if Reclaimed(Head(s).vault, goalId, spendSeq) {
      ReclaimedStays(Head(s).vault, Head(t).vault, goalId, spendSeq);
      if NonceConsumed(h, d, Head(t), goalId, spendSeq) {
        RunConcat(h, d, actions, more);
        ConsumedMeansPaid(h, d, actions + more, goalId, spendSeq);
      }
    }
    if Paid(s.log, goalId, spendSeq) {
      var i :| 0 <= i < |s.log| && s.log[i].origin == ForSpend(goalId, spendSeq);
      assert t.log[i] == s.log[i];
    }
  }

  /** However the chain goes on from `s`, the spend is not paid and its nonce not consumed, or encodings collide. */
  ghost predicate NeverConsumed(h: Hasher, d: Deployment, s: System, goalId: nat, spendSeq: nat)
    requires s.past != []
  {
    forall more: seq<Action> :: var t := RunFrom(h, d, s, more);
      && !Paid(t.log, goalId, spendSeq)
      && (NonceConsumed(h, d, Head(t), goalId, spendSeq) ==> NonceCollision(h, t.log, goalId, spendSeq))
  }

  lemma ReclaimedIsNeverConsumed(h: Hasher, d: Deployment, actions: seq<Action>, goalId: nat, spendSeq: nat)
    requires Reclaimed(Head(Run(h, d, actions)).vault, goalId, spendSeq)
    ensures NeverConsumed(h, d, Run(h, d, actions), goalId, spendSeq)
  {
    hide Run, RunFrom, Paid, NonceConsumed, NonceCollision;
    forall more: seq<Action>
      ensures var t := RunFrom(h, d, Run(h, d, actions), more);
              && !Paid(t.log, goalId, spendSeq)
              && (NonceConsumed(h, d, Head(t), goalId, spendSeq) ==> NonceCollision(h, t.log, goalId, spendSeq))
    {
      DecidedForGood(h, d, actions, more, goalId, spendSeq);
    }
  }

  /**
   * Nothing is stranded: once its window has closed, an approved spend is
   * reclaimed, or its nonce is used, or anybody can reclaim it now; and each of
   * these shuts out the last.
   */
  lemma NothingStranded(h: Hasher, d: Deployment, actions: seq<Action>, goalId: nat, spendSeq: nat)
    requires var at := Head(Run(h, d, actions));
             ApprovedAt(d.config, at.vault, goalId, spendSeq)
                 && SpendAt(GoalAt(at.vault, goalId), spendSeq).validBefore <= at.now
    ensures var at := Head(Run(h, d, actions));
            var used := NonceUsed(h, d, at, goalId, spendSeq, false);
            ReclaimExpired(at.vault, goalId, spendSeq, used, at.now).Ok? <==>
              !used && !Reclaimed(at.vault, goalId, spendSeq)
  {
    hide Run, SpendNonce, Later, SignedOk, LogOk, Exclusive;
    RunInv(h, d, actions);
    var g := GoalAt(Head(Run(h, d, actions)).vault, goalId);
    assert GoalInv(g);
    if !SpendAt(g, spendSeq).reclaimed {
      assert CallsUsed(g.spends)[spendSeq - 1] == 1;
      TotalAtLeast(CallsUsed(g.spends), spendSeq - 1);
    }
  }

  /**
   * A goal is never wedged: whatever is pending, the true decision finalizes
   * it, Solidity's arithmetic check included, and the goal is free again.
   */
  lemma NeverWedged(h: Hasher, d: Deployment, actions: seq<Action>, goalId: nat)
    requires var v := Head(Run(h, d, actions)).vault; HasGoal(v, goalId) && GoalAt(v, goalId).pendingSeq != 0
    ensures var v := Head(Run(h, d, actions)).vault;
            var q := GoalAt(v, goalId).pendingSeq;
            && HasSpend(GoalAt(v, goalId), q)
            && var r := Finalize(v, goalId, q, SpendAt(GoalAt(v, goalId), q).decision, true);
               r.Ok? && GoalAt(r.value, goalId).pendingSeq == 0
  {
    hide Run, Later, SignedOk, LogOk, Exclusive;
    RunInv(h, d, actions);
    assert GoalInv(Head(Run(h, d, actions)).vault.goals[goalId - 1]);
  }

  /** Nobody can finalize a decision other than the one the policy made. */
  lemma DecisionsAreTrue(h: Hasher, d: Deployment, actions: seq<Action>, goalId: nat, spendSeq: nat)
    requires var v := Head(Run(h, d, actions)).vault; HasGoal(v, goalId) && HasSpend(GoalAt(v, goalId), spendSeq)
    ensures var r := SpendAt(GoalAt(Head(Run(h, d, actions)).vault, goalId), spendSeq);
            (r.finalized ==> r.approved == r.decision)
                && (r.approved ==> r.amount <= GoalAt(Head(Run(h, d, actions)).vault, goalId).cap)
  {
    hide Run, Later, SignedOk, LogOk, Exclusive;
    RunInv(h, d, actions);
    var g := GoalAt(Head(Run(h, d, actions)).vault, goalId);
    assert GoalInv(g) && RecordOk(g, g.spends[spendSeq - 1]);
  }

  /**
   * The policy, exactly: in every reachable state a commit is decided approved
   * if and only if the amount is within the cap, within what the owner's
   * opening budget has left beside every debit not given back, and a call is
   * left beside every one in use. Only the goal's relay can ask, and only for
   * an allowlisted payee.
   */
  lemma PolicyIsExact(h: Hasher, d: Deployment, actions: seq<Action>, sender: Address, goalId: nat, amount: U256,
                      payTo: Address, resource: Bytes, payBy: U64)
    requires var at := Head(Run(h, d, actions));
             RequestSpend(h, at.vault, sender, goalId, amount, payTo, resource, payBy, at.now).Ok?
    ensures var at := Head(Run(h, d, actions)); var g := GoalAt(at.vault, goalId);
            var k := GoalAt(RequestSpend(h, at.vault, sender, goalId, amount, payTo, resource, payBy, at.now).value,
                goalId);
            && |k.spends| == |g.spends| + 1 && sender == g.relay && payTo in g.allowlist
            && (k.spends[|g.spends|].decision <==>
                  && amount <= g.cap
                  && amount + Total(Debits(g.spends)) <= g.opening.budget
                  && Total(CallsUsed(g.spends)) < g.opening.calls)
  {
    hide Run, Inv, TermsBytes, Debits, CallsUsed;
    RunInv(h, d, actions);
    Books(h, d, Run(h, d, actions), goalId);
  }
}
