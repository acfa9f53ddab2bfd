/**
 * Where each record comes from: in every run, every recorded spend was committed
 * by one request of its goal's relay, and says exactly what that request said.
 */
module Provenance {
  import opened Wrappers
  import opened Hashing
  import opened Vault
  import opened Token
  import opened Signer
  import opened Protocol
  import opened Guarantees

  /** Within the hour after `time`, the vendor's hold and the goal's expiry. */
  predicate Within(t: nat, time: nat, payBy: nat, expiry: nat) {
    t <= time + 3600 && t <= payBy && t <= expiry
  }

  ghost predicate IsLatest(t: nat, time: nat, payBy: nat, expiry: nat) {
    Within(t, time, payBy, expiry) && forall u: nat :: Within(u, time, payBy, expiry) ==> u <= t
  }

  /**
   * The request `a`, made in the state `at`, is what the record says: its amount
   * and payee, a window from just before the block's time to the latest instant
   * allowed, and the hash of these very terms with the resource as given.
   */
  ghost predicate SaysRequest(h: Hasher, at: Snapshot, a: Action, g: Goal, goalId: nat, spendSeq: nat, r: Record) {
    var time := at.now % TWO_64;
    && a.Request? && a.goalId == goalId && a.sender == g.relay
    && r.amount == a.amount && r.payTo == a.payTo && a.payTo in g.allowlist
    && r.validAfter + 1 == time && time < a.payBy && at.now < g.expiry
    && IsLatest(r.validBefore, time, a.payBy, g.expiry)
    && r.termsHash == h(TermsBytes(goalId, spendSeq, g.payer, a.amount, a.payTo, g.asset, a.resource, r.validAfter,
                                   r.validBefore))
  }

  /** Action `i` of the run committed this spend, the goal's first still without it. */
  ghost predicate CommittedAt(h: Hasher, d: Deployment, actions: seq<Action>, goalId: nat, spendSeq: nat, i: nat)
    requires HasGoal(Head(Run(h, d, actions)).vault, goalId)
    requires HasSpend(GoalAt(Head(Run(h, d, actions)).vault, goalId), spendSeq)
  {
    && i < |actions|
    && var at := Head(Run(h, d, actions[..i]));
       var g := GoalAt(Head(Run(h, d, actions)).vault, goalId);
       && HasGoal(at.vault, goalId) && GoalAt(at.vault, goalId).open
       && |GoalAt(at.vault, goalId).spends| == spendSeq - 1
       && SaysRequest(h, at, actions[i], g, goalId, spendSeq, SpendAt(g, spendSeq))
  }

  /** A spend that was not there before a step is what the step's request says. */
  lemma NewSpendIsRequest(h: Hasher, d: Deployment, s: System, a: Action, goalId: nat, spendSeq: nat)
    requires s.past != []
    requires StoredSpend(Head(s).vault, goalId, spendSeq).None?
    requires StoredSpend(Head(Step(h, d, s, a)).vault, goalId, spendSeq).Some?
    ensures var v, w := Head(s).vault, Head(Step(h, d, s, a)).vault;
            && HasGoal(v, goalId) && GoalAt(v, goalId).open && |GoalAt(v, goalId).spends| == spendSeq - 1
            && SaysRequest(h, Head(s), a, GoalAt(w, goalId), goalId, spendSeq, SpendAt(GoalAt(w, goalId), spendSeq))
  {
    hide TermsBytes, SignAt, SweepAt, TransferWithAuthorization, NonceUsed, Affordable;
  }

  /**
   * In every run, every recorded spend was committed by exactly the request it
   * says: made by the goal's relay while the goal was open, with its amount,
   * payee and resource, and with a window that ends at the latest instant within
   * an hour of the block, the vendor's hold and the goal's expiry.
   */
  lemma {:induction false} EverySpendWasRequested(h: Hasher, d: Deployment, actions: seq<Action>, goalId: nat,
                                                  spendSeq: nat)
    requires StoredSpend(Head(Run(h, d, actions)).vault, goalId, spendSeq).Some?
    ensures exists i: nat :: CommittedAt(h, d, actions, goalId, spendSeq, i)
  {
    hide Run, Step, Inv, SaysRequest, Later;
    if actions == [] {
      NothingStored(h, d, goalId, spendSeq);
    } else {
      var n := |actions| - 1;
      var before := actions[..n];
      var s := Run(h, d, before);
      assert actions == before + [actions[n]];
      StepIsRun(h, d, before, actions[n]);
      if StoredSpend(Head(s).vault, goalId, spendSeq).Some? {
        EverySpendWasRequested(h, d, before, goalId, spendSeq);
        var i: nat :| CommittedAt(h, d, before, goalId, spendSeq, i);
        assert before[..i] == actions[..i];
        RunInv(h, d, before);
        RunFromIsLater(h, d, s, [actions[n]]);
        RunConcat(h, d, before, [actions[n]]);
        StaysAsRequested(h, Head(Run(h, d, actions[..i])), actions[i], Head(s).vault, Head(Run(h, d, actions)).vault,
                         goalId, spendSeq);
        assert CommittedAt(h, d, actions, goalId, spendSeq, i);
      } else {
        NewSpendIsRequest(h, d, s, actions[n], goalId, spendSeq);
        assert CommittedAt(h, d, actions, goalId, spendSeq, n);
      }
    }
  }

  lemma NothingStored(h: Hasher, d: Deployment, goalId: nat, spendSeq: nat)
    ensures StoredSpend(Head(Run(h, d, [])).vault, goalId, spendSeq).None?
  {
  }

  lemma StaysAsRequested(h: Hasher, at: Snapshot, a: Action, v: State, w: State, goalId: nat, spendSeq: nat)
    requires Later(v, w) && StoredSpend(v, goalId, spendSeq).Some?
    requires SaysRequest(h, at, a, GoalAt(v, goalId), goalId, spendSeq, SpendAt(GoalAt(v, goalId), spendSeq))
    ensures StoredSpend(w, goalId, spendSeq).Some?
    ensures SaysRequest(h, at, a, GoalAt(w, goalId), goalId, spendSeq, SpendAt(GoalAt(w, goalId), spendSeq))
  {
    hide TermsBytes, IsLatest;
    StoredIsFrozen(v, w, goalId, spendSeq);
  }
}
