/**
 * What the signer's answers mean for the orchestrator that hears them, over
 * every run: "not yet" ends in a signature, and "never" is never taken back.
 */
module SignerAnswers {
  import opened Wrappers
  import opened Hashing
  import opened Vault
  import opened Token
  import opened Signer
  import opened Protocol
  import opened Guarantees
  import opened RunLanguage
  import opened SignerClient

  /** A request whose every read is answered from the head. */
  function HeadAsk(d: Deployment, s: System, goalId: nat, spendSeq: nat, clock: nat): Action {
    var n := |s.past|;
    AskSign(goalId, spendSeq, d.config.chainId, Views(n, n, n, n, n, n), clock, true, true)
  }

  /** What the orchestrator's client makes of the signer's answer. */
  function Hears(h: Hasher, d: Deployment, s: System, a: Action, payload: string, reason: string): Answer
    requires s.past != [] && a.AskSign?
  {
    AnswerOf(HttpOf(SignAt(h, d, s, a), payload, reason))
  }

  lemma RecordIsWhole(h: Hasher, d: Deployment, s: System, goalId: nat, spendSeq: nat)
    requires Inv(h, d, s) && HasGoal(Head(s).vault, goalId) && HasSpend(GoalAt(Head(s).vault, goalId), spendSeq)
    ensures var g := GoalAt(Head(s).vault, goalId); var r := SpendAt(g, spendSeq);
            && r.amount > 0
            && (!r.finalized ==> g.pendingSeq == spendSeq && (r.decision ==> g.callsRemaining >= 1))
  {
    var g := Head(s).vault.goals[goalId - 1];
    assert GoalInv(g) && RecordOk(g, g.spends[spendSeq - 1]);
  }

  /**
   * In every run, asked about a spend of an owned goal with its reads at the
   * head: the client hears "not ready" if and only if the spend is not
   * finalized, a refusal with 403 if and only if it is finalized and not
   * approved, with 410 if and only if it is approved and its window has closed,
   * and a signature if and only if it is approved, in its window, and its key held.
   */
  lemma HeardIsSo(h: Hasher, d: Deployment, actions: seq<Action>, goalId: nat, spendSeq: nat, clock: nat,
                  payload: string, reason: string)
    requires var v := Head(Run(h, d, actions)).vault;
             SpendKnown(d.config, v, goalId, spendSeq) && GoalAt(v, goalId).owner != 0
    ensures var s := Run(h, d, actions);
            var g := GoalAt(Head(s).vault, goalId); var r := SpendAt(g, spendSeq);
            var heard := Hears(h, d, s, HeadAsk(d, s, goalId, spendSeq, clock), payload, reason);
            && (heard.NotReady? <==> !r.finalized)
            && (heard == RefusedAnswer(403, reason) <==> r.finalized && !r.approved)
            && (heard == RefusedAnswer(410, reason) <==> r.finalized && r.approved && r.validBefore <= clock)
            && (heard.SignedAnswer? <==> r.finalized && r.approved && clock < r.validBefore && g.payer in d.held)
            && !heard.RateLimited? && !heard.Unreachable?
  {
    hide Run, Inv, Sign, ReadSpend;
    RunInv(h, d, actions);
    var s := Run(h, d, actions);
    RecordIsWhole(h, d, s, goalId, spendSeq);
    var v := Head(s).vault;
    AnswersMean(h, d.config, v, goalId, spendSeq, d.config.chainId, clock, GoalAt(v, goalId).payer in d.held, true);
    SignerAtHead(h, d, s, goalId, spendSeq, clock);
  }

  lemma SignerAtHead(h: Hasher, d: Deployment, s: System, goalId: nat, spendSeq: nat, clock: nat)
    requires s.past != [] && HasGoal(Head(s).vault, goalId) && GoalAt(Head(s).vault, goalId).owner != 0
    ensures var v := Head(s).vault;
            SignAt(h, d, s, HeadAsk(d, s, goalId, spendSeq, clock)) ==
              Sign(h, d.config, goalId, spendSeq, d.config.chainId, ReadGoal(v, goalId),
                   ReadSpend(h, SpendReads(v, v, v, v, v), goalId, spendSeq), clock,
                   GoalAt(v, goalId).payer in d.held, true)
    ensures !SignAt(h, d, s, HeadAsk(d, s, goalId, spendSeq, clock)).Threw?
  {
    hide ReadSpend, SpendNonce;
  }

  /**
   * "Not ready" is worth asking again: if the policy approved the spend, its
   * true decision is finalized by anyone, and the next answer is a signature
   * for as long as the window is open.
   */
  lemma NotReadyBecomesSigned(h: Hasher, d: Deployment, actions: seq<Action>, goalId: nat, spendSeq: nat, clock: nat,
                              later: nat, payload: string, reason: string)
    requires var s := Run(h, d, actions); var v := Head(s).vault;
             && SpendKnown(d.config, v, goalId, spendSeq)
             && GoalAt(v, goalId).owner != 0 && GoalAt(v, goalId).payer in d.held
             && Hears(h, d, s, HeadAsk(d, s, goalId, spendSeq, clock), payload, reason).NotReady?
    ensures var r := SpendAt(GoalAt(Head(Run(h, d, actions)).vault, goalId), spendSeq);
            var t := Run(h, d, actions + [Decide(goalId, spendSeq, r.decision, true)]);
            var heard := Hears(h, d, t, HeadAsk(d, t, goalId, spendSeq, later), payload, reason);
            && (r.decision && later < r.validBefore <==> heard.SignedAnswer?)
            && (!r.decision <==> heard == RefusedAnswer(403, reason))
  {
    hide Run, Inv, Hears, HeadAsk;
    var s := Run(h, d, actions);
    var r := SpendAt(GoalAt(Head(s).vault, goalId), spendSeq);
    RunInv(h, d, actions);
    HeardIsSo(h, d, actions, goalId, spendSeq, clock, payload, reason);
    RecordIsWhole(h, d, s, goalId, spendSeq);
    StepIsRun(h, d, actions, Decide(goalId, spendSeq, r.decision, true));
    HeardIsSo(h, d, actions + [Decide(goalId, spendSeq, r.decision, true)], goalId, spendSeq, later, payload, reason);
  }

  /** A 403 or a 410 heard from the head is for good: whatever follows and however torn the reads, no signature. */
  lemma NeverIsForGood(h: Hasher, d: Deployment, actions: seq<Action>, more: seq<Action>, goalId: nat, spendSeq: nat,
                       clock: nat, a: Action)
    requires var s := Run(h, d, actions);
             var o := SignAt(h, d, s, HeadAsk(d, s, goalId, spendSeq, clock));
             o == Refused(403) || o == Refused(410)
    requires a.AskSign? && a.goalId == goalId && a.spendSeq == spendSeq && a.clock >= clock
    ensures !SignAt(h, d, RunFrom(h, d, Run(h, d, actions), more), a).Issued?
  {
    hide Run, RunFrom, Sign, ReadSpend, Later, FrozenMessage, VaultInv, SignedOk, LogOk, Exclusive;
    var s := Run(h, d, actions);
    var t := RunFrom(h, d, s, more);
    RunInv(h, d, actions);
    RunFromKeepsInv(h, d, s, more);
    RunFromIsLater(h, d, s, more);
    RefusedForGood(h, d, s, goalId, spendSeq, clock);
    if SignAt(h, d, t, a).Issued? {
      IssuedIsLive(h, d, t, a);
      FinalizedForGood(Head(s).vault, Head(t).vault, goalId, spendSeq);
    }
  }

  /** What the head shows after such a refusal. */
  lemma RefusedForGood(h: Hasher, d: Deployment, s: System, goalId: nat, spendSeq: nat, clock: nat)
    requires s.past != []
    requires var o := SignAt(h, d, s, HeadAsk(d, s, goalId, spendSeq, clock)); o == Refused(403) || o == Refused(410)
    ensures var v := Head(s).vault;
            && SpendKnown(d.config, v, goalId, spendSeq) && SpendAt(GoalAt(v, goalId), spendSeq).finalized
            && (SpendAt(GoalAt(v, goalId), spendSeq).approved ==>
                  SpendAt(GoalAt(v, goalId), spendSeq).validBefore <= clock)
  {
    hide SpendNonce;
  }

  lemma IssuedIsLive(h: Hasher, d: Deployment, t: System, a: Action)
    requires Inv(h, d, t) && a.AskSign? && SignAt(h, d, t, a).Issued?
    ensures ApprovedAt(d.config, Head(t).vault, a.goalId, a.spendSeq)
    ensures a.clock < SpendAt(GoalAt(Head(t).vault, a.goalId), a.spendSeq).validBefore
  {
    hide VaultInv, Later, Sign, ReadSpend, LogOk, Exclusive, SignedOk, SpendNonce;
    AtIsBefore(h, d, t, a.views.goal);
    AtIsBefore(h, d, t, a.views.authorization);
    AtIsBefore(h, d, t, a.views.window);
    AtIsBefore(h, d, t, a.views.termsHash);
    AtIsBefore(h, d, t, a.views.finalized);
    AtIsBefore(h, d, t, a.views.approved);
    var at := At(t, a.views.goal).vault;
    var seen := SpendReads(At(t, a.views.authorization).vault, At(t, a.views.window).vault,
                           At(t, a.views.termsHash).vault,
                           At(t, a.views.finalized).vault, At(t, a.views.approved).vault);
    var goal := ReadGoal(at, a.goalId);
    SignedIsFrozen(h, d.config, a.goalId, a.spendSeq, a.chainId, at, seen, Head(t).vault, a.clock,
                   a.hasKey && goal.Some? && goal.value.payer in d.held, a.domainMatches);
  }

  lemma FinalizedForGood(v: State, w: State, goalId: nat, spendSeq: nat)
    requires Later(v, w) && HasGoal(v, goalId) && HasSpend(GoalAt(v, goalId), spendSeq)
    requires SpendAt(GoalAt(v, goalId), spendSeq).finalized
    ensures HasGoal(w, goalId) && HasSpend(GoalAt(w, goalId), spendSeq)
    ensures SpendAt(GoalAt(w, goalId), spendSeq).approved == SpendAt(GoalAt(v, goalId), spendSeq).approved
    ensures SpendAt(GoalAt(w, goalId), spendSeq).validBefore == SpendAt(GoalAt(v, goalId), spendSeq).validBefore
  {
    assert LaterGoal(v.goals[goalId - 1], w.goals[goalId - 1]);
    assert LaterRecord(v.goals[goalId - 1].spends[spendSeq - 1], w.goals[goalId - 1].spends[spendSeq - 1]);
  }
}
