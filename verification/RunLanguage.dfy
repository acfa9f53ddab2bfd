/**
 * What one `fetchPaid` run may do, in order: an automaton over its events and
 * its outside calls (services/orchestrator/src/pay/payment-loop.ts). The loop
 * is proved to stay inside it; the lemmas here say what every word of it obeys.
 */
module RunLanguage {
  import opened Wrappers
  import opened Json
  import opened Events

  /** What the signer's HTTP answer carried, whoever answered. */
  datatype SignedAuthorization = SignedAuthorization(nonce: Hex, value: string, payload: string, termsHash: Hex)

  datatype Answer =
    | SignedAnswer(authorization: SignedAuthorization)
    | NotReady
    | RateLimited(retryAfterSeconds: nat)
    | RefusedAnswer(status: int, reason: string)
    | Unreachable

  datatype Act =
    | Emit(event: PaymentEvent)
    /** `fetchResource`, with the X-PAYMENT header when there is one. */
    | Fetch(payment: Option<SignedAuthorization>)
    /** A `requestSpend` transaction left this process. */
    | CommitTx(goalId: nat)
    | FinalizeTx(goalId: nat, spendSeq: nat, approved: bool)
    | SignerCall(goalId: nat, spendSeq: nat, answer: Answer)
    /** `#reclaim` was entered. */
    | ReclaimCall(goalId: nat, spendSeq: nat)
    | ReclaimTx(goalId: nat, spendSeq: nat)

  /** How a run ends. `FailedEarly`: after a commit left, before an approval. */
  datatype End = Free | NothingCommitted | FailedEarly | Rejected(spend: Spend) | Unavailable(spend: Spend)
      | PaidFor(spend: Spend)

  datatype Phase =
    | Begin
    | Asked
    | Answered
    | Quoted
    | Willing
    | OrphanSent(orphan: nat, approved: bool)
    | OrphanDone(orphan: nat, approved: bool)
    | OrphanReclaim(orphan: nat)
    | Committing
    | Committed(spend: Spend)
    | Decided(spend: Spend, approved: bool)
    | Finalizing(spend: Spend, approved: bool)
    | Approved(spend: Spend)
    | Authorized(spend: Spend, authorization: SignedAuthorization)
    | Announced(spend: Spend, authorization: SignedAuthorization)
    | Retrying(spend: Spend, authorization: SignedAuthorization)
    | Paying(spend: Spend, authorization: SignedAuthorization)
    | Losing(spend: Spend)
    | Reclaiming(spend: Spend)
    | Ended(end: End)
    | Illegal

  /** After a 402 was accepted by the agent and before anything was committed. */
  predicate BeforeCommit(q: Phase) {
    q.Willing? || q.OrphanDone? || q.OrphanReclaim?
  }

  /** One step of a run of `fetchPaid(url, goalId)`. */
  function Delta(goalId: nat, q: Phase, a: Act): Phase {
    match a
    case Emit(e) => DeltaEvent(goalId, q, e)
    case Fetch(payment) =>
      if q.Asked? && payment.None? then Answered
      else if q.Retrying? && payment == Some(q.authorization) then Paying(q.spend, q.authorization)
      else Illegal
    case CommitTx(g) =>
      // Again only from inside one `requestSpend` call, see `Relay.OneCommitIff`.
      if (BeforeCommit(q) || q.Committing?) && g == goalId then Committing else Illegal
    case FinalizeTx(g, spendSeq, approved) =>
      if g != goalId then Illegal
      else if q.Willing? then OrphanSent(spendSeq, approved)
      else if q.Decided? && q.spend.spendSeq == spendSeq && q.approved == approved then Finalizing(q.spend, approved)
      else Illegal
    case SignerCall(g, spendSeq, answer) =>
      if q.Approved? && g == goalId && spendSeq == q.spend.spendSeq then
        if answer.SignedAnswer? then Authorized(q.spend, answer.authorization) else q
      else Illegal
    case ReclaimCall(g, spendSeq) =>
      if g != goalId then Illegal
      else if q.OrphanDone? && q.approved && spendSeq == q.orphan then OrphanReclaim(q.orphan)
      else if q.Losing? && spendSeq == q.spend.spendSeq then Reclaiming(q.spend)
      else Illegal
    case ReclaimTx(g, spendSeq) =>
      if g == goalId && ((q.OrphanReclaim? && spendSeq == q.orphan) || (q.Reclaiming? && spendSeq == q.spend.spendSeq))
          then q
      else Illegal
  }

  function DeltaEvent(goalId: nat, q: Phase, e: PaymentEvent): Phase {
    match e
    case Request(_, attempt) =>
      if q.Begin? && attempt == 1 then Asked
      else if q.Announced? && attempt == 2 && q.authorization.termsHash == q.spend.termsHash
          then Retrying(q.spend, q.authorization)
      else Illegal
    case Response200(_, _) =>
      if q.Answered? then Ended(Free) else if q.Paying? then Ended(PaidFor(q.spend)) else Illegal
    case PaymentRequired(_, _) => if q.Answered? then Quoted else Illegal
    case TermsRejected(_, _) => if q.Answered? then Ended(NothingCommitted) else Illegal
    case AgentReasoning(_, _, willing, _) =>
      if q.Quoted? then if willing then Willing else Ended(NothingCommitted) else Illegal
    case OrphanAbandoned(_, _) => if q.Willing? || q.OrphanSent? then Ended(NothingCommitted) else Illegal
    case OrphanRecovered(spendSeq, approved, _) =>
      if q.OrphanSent? && q.orphan == spendSeq && q.approved == approved then OrphanDone(spendSeq, approved)
          else Illegal
    case SpendRequested(g, spend) => if q.Committing? && g == goalId then Committed(spend) else Illegal
    case RevealWaiting(_, _) => if q.Committed? then q else Illegal
    case RevealTimeout(_, _) => if q.Committed? then Ended(Unavailable(q.spend)) else Illegal
    case RevealPolled(_, _, approved) => if q.Committed? then Decided(q.spend, approved) else Illegal
    case DecisionFinalized(g, spendSeq, approved, _, _) =>
      if q.Finalizing? && g == goalId && spendSeq == q.spend.spendSeq && approved == q.approved then
        if approved then Approved(q.spend) else Ended(Rejected(q.spend))
      else Illegal
    case SignerRefused(_, _) => if q.Approved? then Losing(q.spend) else Illegal
    case Signed(nonce, value) =>
      if q.Authorized? && nonce == q.authorization.nonce && value == q.authorization.value
      then Announced(q.spend, q.authorization) else Illegal
    case Settled(_) => if q.Paying? then q else Illegal
    case ReclaimEvent(g, spendSeq, _, _) =>
      if g == goalId && ((q.OrphanReclaim? && spendSeq == q.orphan) || (q.Reclaiming? && spendSeq == q.spend.spendSeq))
          then q
      else Illegal
    case FailedEvent(_) =>
      if q.Answered? || BeforeCommit(q) then Ended(NothingCommitted)
      else if q.Committing? || q.Decided? || q.Finalizing? then Ended(FailedEarly)
      else if q.Announced? && q.authorization.termsHash != q.spend.termsHash then Losing(q.spend)
      else if q.Paying? then Losing(q.spend)
      else Illegal
    case VendorUpstream(_, _, _, _, _, _) => Illegal
  }

  /** The phase a log leaves the run in. */
  function PhaseOf(goalId: nat, log: seq<Act>): Phase {
    if log == [] then Begin else Delta(goalId, PhaseOf(goalId, log[..|log| - 1]), log[|log| - 1])
  }

  /** A log the automaton accepts so far. */
  predicate Legal(goalId: nat, log: seq<Act>) {
    !PhaseOf(goalId, log).Illegal?
  }

  lemma PhaseSnoc(goalId: nat, log: seq<Act>, a: Act)
    ensures PhaseOf(goalId, log + [a]) == Delta(goalId, PhaseOf(goalId, log), a)
  {
    assert (log + [a])[..|log|] == log;
  }

  // --------------------------------------------------- what words obey

  lemma LegalPrefix(goalId: nat, log: seq<Act>, i: nat)
    requires Legal(goalId, log) && i <= |log|
    ensures Legal(goalId, log[..i])
    decreases |log| - i
  {
    if i < |log| {
      LegalPrefix(goalId, log, i + 1);
      assert log[..i + 1][..i] == log[..i];
    } else {
      assert log[..i] == log;
    }
  }

  /** The act at `i` was a step from the phase before it. */
  lemma LegalAt(goalId: nat, log: seq<Act>, i: nat)
    requires Legal(goalId, log) && i < |log|
    ensures Legal(goalId, log[..i]) && !Delta(goalId, PhaseOf(goalId, log[..i]), log[i]).Illegal?
  {
    LegalPrefix(goalId, log, i);
    LegalPrefix(goalId, log, i + 1);
    assert log[..i + 1][..i] == log[..i];
  }

  function SpendOf(q: Phase): Option<Spend> {
    match q
    case Committed(spend) => Some(spend)
    case Decided(spend, _) => Some(spend)
    case Finalizing(spend, _) => Some(spend)
    case Approved(spend) => Some(spend)
    case Authorized(spend, _) => Some(spend)
    case Announced(spend, _) => Some(spend)
    case Retrying(spend, _) => Some(spend)
    case Paying(spend, _) => Some(spend)
    case Losing(spend) => Some(spend)
    case Reclaiming(spend) => Some(spend)
    case Ended(Rejected(spend)) => Some(spend)
    case Ended(Unavailable(spend)) => Some(spend)
    case Ended(PaidFor(spend)) => Some(spend)
    case _ => None
  }

  predicate WasApproved(q: Phase) {
    q.Approved? || q.Authorized? || q.Announced? || q.Retrying? || q.Paying? || q.Losing? || q.Reclaiming? ||
    (q.Ended? && q.end.PaidFor?)
  }

  predicate IsApproval(a: Act, goalId: nat, spendSeq: nat) {
    a.Emit? && a.event.DecisionFinalized? && a.event.goalId == goalId && a.event.spendSeq == spendSeq
        && a.event.approved
  }

  predicate ApprovedIn(log: seq<Act>, goalId: nat, spendSeq: nat) {
    exists i :: 0 <= i < |log| && IsApproval(log[i], goalId, spendSeq)
  }

  predicate HasAuthorization(q: Phase) {
    q.Authorized? || q.Announced? || q.Retrying? || q.Paying?
  }

  /** A spend comes from its own report, and once there the run keeps it or fails. */
  lemma DeltaSpend(goalId: nat, p: Phase, a: Act)
    requires !Delta(goalId, p, a).Illegal?
    ensures var q := Delta(goalId, p, a);
            && !p.Ended?
            && (SpendOf(q).Some? ==> SpendOf(p) == SpendOf(q) || a == Emit(SpendRequested(goalId, SpendOf(q).value)))
            && (SpendOf(p).Some? ==> SpendOf(q) == SpendOf(p) || q == Ended(FailedEarly))
            && (SpendOf(p).Some? && a.FinalizeTx? ==> a.goalId == goalId && a.spendSeq == SpendOf(p).value.spendSeq)
            && (SpendOf(p).Some? || p == Ended(FailedEarly) ==> !a.CommitTx?)
            && (a.Emit? && a.event.SpendRequested? ==> p.Committing? && q == Committed(a.event.spend))
  {
  }

  /** So does an approval. */
  lemma DeltaApproval(goalId: nat, p: Phase, a: Act)
    requires !Delta(goalId, p, a).Illegal?
    ensures var q := Delta(goalId, p, a);
            && (WasApproved(q) ==> WasApproved(p) || IsApproval(a, goalId, SpendOf(q).value.spendSeq))
            && (WasApproved(p) ==> WasApproved(q) && SpendOf(q) == SpendOf(p))
            && (forall k :: IsApproval(a, goalId, k) ==> q.Approved? && q.spend.spendSeq == k)
  {
  }

  /** And an authorization, whose terms are compared before it is sent. */
  lemma DeltaAuthorization(goalId: nat, p: Phase, a: Act)
    requires !Delta(goalId, p, a).Illegal?
    ensures var q := Delta(goalId, p, a);
            && (HasAuthorization(q) ==>
                  || (HasAuthorization(p) && p.authorization == q.authorization && p.spend == q.spend)
                  || a == SignerCall(goalId, q.spend.spendSeq, SignedAnswer(q.authorization)))
            && (q.Retrying? || q.Paying? ==>
                  || q.authorization.termsHash == q.spend.termsHash
                  || ((p.Retrying? || p.Paying?) && p.authorization == q.authorization && p.spend == q.spend))
  {
  }

  /** What the phase says has already happened. */
  lemma {:induction false} PhaseFacts(goalId: nat, log: seq<Act>)
    requires Legal(goalId, log)
    ensures var q := PhaseOf(goalId, log);
            && (SpendOf(q).Some? ==> Emit(SpendRequested(goalId, SpendOf(q).value)) in log)
            && (WasApproved(q) ==> ApprovedIn(log, goalId, SpendOf(q).value.spendSeq))
            && (HasAuthorization(q) ==> SignerCall(goalId, q.spend.spendSeq, SignedAnswer(q.authorization)) in log)
            && (q.Retrying? || q.Paying? ==> q.authorization.termsHash == q.spend.termsHash)
  {
    hide Delta;
    if log == [] {
    } else {
      var n := |log| - 1;
      var before, a := log[..n], log[n];
      LegalPrefix(goalId, log, n);
      PhaseFacts(goalId, before);
      assert log == before + [a];
      var p, q := PhaseOf(goalId, before), PhaseOf(goalId, log);
      DeltaSpend(goalId, p, a);
      DeltaApproval(goalId, p, a);
      DeltaAuthorization(goalId, p, a);
      if WasApproved(q) {
        if WasApproved(p) {
          var i :| 0 <= i < |before| && IsApproval(before[i], goalId, SpendOf(p).value.spendSeq);
          assert log[i] == before[i];
        } else {
          assert IsApproval(log[n], goalId, SpendOf(q).value.spendSeq);
        }
      }
    }
  }

  function Commits(log: seq<Act>): nat {
    if log == [] then 0 else Commits(log[..|log| - 1]) + if log[|log| - 1].CommitTx? then 1 else 0
  }

  predicate NotYetCommitting(q: Phase) {
    || q.Begin? || q.Asked? || q.Answered? || q.Quoted? || q.Willing? || q.OrphanSent? || q.OrphanDone?
         || q.OrphanReclaim?
    || q == Ended(Free) || q == Ended(NothingCommitted)
  }

  /** Nothing leaves before the agent agreed or in a run that ends before that; a reported spend was sent. */
  lemma {:induction false} CommitsInPhase(goalId: nat, log: seq<Act>)
    requires Legal(goalId, log)
    ensures NotYetCommitting(PhaseOf(goalId, log)) ==> Commits(log) == 0
    ensures SpendOf(PhaseOf(goalId, log)).Some? ==> Commits(log) >= 1
  {
    if log == [] {
    } else {
      LegalPrefix(goalId, log, |log| - 1);
      CommitsInPhase(goalId, log[..|log| - 1]);
    }
  }

  /** A run reports at most one spend as committed. */
  lemma OneSpendReported(goalId: nat, log: seq<Act>, i: nat, j: nat)
    requires Legal(goalId, log) && i < |log| && j < |log|
    requires log[i].Emit? && log[i].event.SpendRequested? && log[j].Emit? && log[j].event.SpendRequested?
    ensures i == j
  {
    hide Delta;
    if i < j {
      ReportedBefore(goalId, log, i, j);
    } else if j < i {
      ReportedBefore(goalId, log, j, i);
    }
  }

  lemma ReportedBefore(goalId: nat, log: seq<Act>, i: nat, j: nat)
    requires Legal(goalId, log) && i < j < |log|
    requires log[i].Emit? && log[i].event.SpendRequested?
    ensures !(log[j].Emit? && log[j].event.SpendRequested?)
  {
    hide Delta;
    LegalAt(goalId, log, i);
    LegalAt(goalId, log, j);
    DeltaSpend(goalId, PhaseOf(goalId, log[..i]), log[i]);
    PhaseSnoc(goalId, log[..i], log[i]);
    assert log[..i + 1] == log[..i] + [log[i]];
    StaysWithSpend(goalId, log, i + 1, j);
    DeltaSpend(goalId, PhaseOf(goalId, log[..j]), log[j]);
  }

  /** `n` copies of one commit leaving. */
  function CommitTxs(goalId: nat, n: nat): seq<Act> {
    seq(n, _ => CommitTx(goalId))
  }

  lemma CommitsSnoc(log: seq<Act>, a: Act)
    ensures Commits(log + [a]) == Commits(log) + if a.CommitTx? then 1 else 0
  {
    assert (log + [a])[..|log|] == log;
  }

  lemma {:induction false} CommitsGrow(goalId: nat, log: seq<Act>, n: nat)
    ensures Commits(log + CommitTxs(goalId, n)) == Commits(log) + n
  {
    if n == 0 {
      assert log + CommitTxs(goalId, 0) == log;
    } else {
      CommitsGrow(goalId, log, n - 1);
      var more := log + CommitTxs(goalId, n);
      assert more[..|more| - 1] == log + CommitTxs(goalId, n - 1);
    }
  }

  lemma {:induction false} CommitTxsPhase(goalId: nat, log: seq<Act>, n: nat)
    requires BeforeCommit(PhaseOf(goalId, log))
    ensures PhaseOf(goalId, log + CommitTxs(goalId, n)) == if n == 0 then PhaseOf(goalId, log) else Committing
  {
    if n == 0 {
      assert log + CommitTxs(goalId, 0) == log;
    } else {
      CommitTxsPhase(goalId, log, n - 1);
      PhaseSnoc(goalId, log + CommitTxs(goalId, n - 1), CommitTx(goalId));
      assert log + CommitTxs(goalId, n) == log + CommitTxs(goalId, n - 1) + [CommitTx(goalId)];
    }
  }

  /** Nothing more leaves once the spend is reported. */
  lemma {:induction false} NoCommitAfterReport(goalId: nat, log: seq<Act>, k: nat, i: nat)
    requires Legal(goalId, log) && k <= i <= |log| && PhaseOf(goalId, log[..k]).Committed?
    ensures Commits(log[..i]) == Commits(log[..k])
    decreases i
  {
    hide Delta;
    if k == i {
    } else {
      NoCommitAfterReport(goalId, log, k, i - 1);
      StaysWithSpend(goalId, log, k, i - 1);
      LegalAt(goalId, log, i - 1);
      DeltaSpend(goalId, PhaseOf(goalId, log[..i - 1]), log[i - 1]);
      assert log[..i][..i - 1] == log[..i - 1];
    }
  }

  /** When the agent declines, that is the run's last act and nothing was committed. */
  lemma DeclineCommitsNothing(goalId: nat, log: seq<Act>, i: nat)
    requires Legal(goalId, log) && i < |log|
    requires log[i].Emit? && log[i].event.AgentReasoning? && !log[i].event.decidedToRequest
    ensures i == |log| - 1 && Commits(log) == 0
  {
    LegalAt(goalId, log, i);
    CommitsInPhase(goalId, log[..i]);
    PhaseSnoc(goalId, log[..i], log[i]);
    assert log[..i + 1] == log[..i] + [log[i]];
    if i < |log| - 1 {
      LegalAt(goalId, log, i + 1);
    } else {
      assert log[..i + 1] == log;
    }
  }

  /** The signer is asked only about this run's own spend, after it was finalized approved. */
  lemma SignerOnlyAfterApproval(goalId: nat, log: seq<Act>, i: nat)
    requires Legal(goalId, log) && i < |log| && log[i].SignerCall?
    ensures log[i].goalId == goalId
    ensures exists spend: Spend :: spend.spendSeq == log[i].spendSeq && Emit(SpendRequested(goalId, spend)) in log[..i]
    ensures ApprovedIn(log[..i], goalId, log[i].spendSeq)
  {
    LegalAt(goalId, log, i);
    PhaseFacts(goalId, log[..i]);
    var spend := PhaseOf(goalId, log[..i]).spend;
    assert Emit(SpendRequested(goalId, spend)) in log[..i];
  }

  /** Every payment presented to the vendor, in order. */
  function Payments(log: seq<Act>): seq<SignedAuthorization> {
    if log == [] then [] else
      var last := log[|log| - 1];
      Payments(log[..|log| - 1]) + if last.Fetch? && last.payment.Some? then [last.payment.value] else []
  }

  lemma PaymentsSnoc(log: seq<Act>, a: Act)
    ensures Payments(log + [a]) == Payments(log) + if a.Fetch? && a.payment.Some? then [a.payment.value] else []
  {
    assert (log + [a])[..|log|] == log;
  }

  lemma {:induction false} PaymentsAreFetches(log: seq<Act>, p: SignedAuthorization)
    ensures p in Payments(log) <==> Fetch(Some(p)) in log
  {
    if log == [] {
    } else {
      PaymentsAreFetches(log[..|log| - 1], p);
      assert log == log[..|log| - 1] + [log[|log| - 1]];
    }
  }

  predicate BeforePaying(q: Phase) {
    !q.Paying? && !q.Losing? && !q.Reclaiming? && !(q.Ended? && q.end.PaidFor?)
  }

  lemma DeltaPayment(goalId: nat, p: Phase, a: Act)
    requires !Delta(goalId, p, a).Illegal?
    ensures var q := Delta(goalId, p, a);
            && (BeforePaying(q) ==> BeforePaying(p) && !(a.Fetch? && a.payment.Some?))
            && (a.Fetch? && a.payment.Some? ==> BeforePaying(p) && q.Paying? && a.payment.value == q.authorization)
            && (q.Paying? && !(a.Fetch? && a.payment.Some?) ==> p.Paying? && p.authorization == q.authorization)
            && (q.Ended? && q.end.PaidFor? ==> p.Paying?)
  {
  }

  /** A run presents at most one payment: the one its phase carries. */
  lemma {:induction false} PaymentsInPhase(goalId: nat, log: seq<Act>)
    requires Legal(goalId, log)
    ensures var q := PhaseOf(goalId, log);
            && |Payments(log)| <= 1
            && (BeforePaying(q) ==> Payments(log) == [])
            && (q.Paying? ==> Payments(log) == [q.authorization])
            && (q.Ended? && q.end.PaidFor? ==> |Payments(log)| == 1)
  {
    hide Delta;
    if log == [] {
    } else {
      var n := |log| - 1;
      LegalPrefix(goalId, log, n);
      PaymentsInPhase(goalId, log[..n]);
      DeltaPayment(goalId, PhaseOf(goalId, log[..n]), log[n]);
    }
  }

  lemma {:induction false} PaymentsSame(before: seq<Act>, after: seq<Act>)
    requires before <= after && forall i :: |before| <= i < |after| ==> !after[i].Fetch?
    ensures Payments(after) == Payments(before)
    decreases |after|
  {
    if before == after {
    } else {
      PaymentsSame(before, after[..|after| - 1]);
    }
  }

  /**
   * X-PAYMENT leaves only with an authorization the signer issued for this
   * run's approved spend, whose terms hash is the committed one.
   */
  lemma PaymentOnlyIfTermsMatch(goalId: nat, log: seq<Act>, i: nat)
    requires Legal(goalId, log) && i < |log| && log[i].Fetch? && log[i].payment.Some?
    ensures exists spend: Spend ::
              && Emit(SpendRequested(goalId, spend)) in log[..i]
              && SignerCall(goalId, spend.spendSeq, SignedAnswer(log[i].payment.value)) in log[..i]
              && log[i].payment.value.termsHash == spend.termsHash
              && ApprovedIn(log[..i], goalId, spend.spendSeq)
  {
    LegalAt(goalId, log, i);
    PhaseFacts(goalId, log[..i]);
    var spend := PhaseOf(goalId, log[..i]).spend;
    assert Emit(SpendRequested(goalId, spend)) in log[..i];
  }

  /** An approval in the log is never left behind: the run is past it, with that spend. */
  lemma {:induction false} ApprovalStays(goalId: nat, log: seq<Act>, spendSeq: nat)
    requires Legal(goalId, log) && ApprovedIn(log, goalId, spendSeq)
    ensures WasApproved(PhaseOf(goalId, log)) && SpendOf(PhaseOf(goalId, log)).value.spendSeq == spendSeq
  {
    hide Delta;
    var n := |log| - 1;
    LegalPrefix(goalId, log, n);
    assert log == log[..n] + [log[n]];
    DeltaApproval(goalId, PhaseOf(goalId, log[..n]), log[n]);
    if !IsApproval(log[n], goalId, spendSeq) {
      var i :| 0 <= i < |log| && IsApproval(log[i], goalId, spendSeq);
      assert log[..n][i] == log[i];
      ApprovalStays(goalId, log[..n], spendSeq);
    }
  }

  /** How often `#reclaim` was entered since the last commit. */
  function ReclaimsSinceCommit(log: seq<Act>): nat {
    if log == [] then 0 else
      var last, before := log[|log| - 1], ReclaimsSinceCommit(log[..|log| - 1]);
      if last.CommitTx? then 0 else if last.ReclaimCall? then before + 1 else before
  }

  /** And how often for this spend. */
  function OwnReclaims(log: seq<Act>, goalId: nat, spendSeq: nat): nat {
    if log == [] then 0 else
      var last, before := log[|log| - 1], OwnReclaims(log[..|log| - 1], goalId, spendSeq);
      if last.CommitTx? then 0 else if last == ReclaimCall(goalId, spendSeq) then before + 1 else before
  }

  /**
   * A run in which a spend was finalized approved, once it is over, either paid
   * it and reclaimed nothing since the commit, or failed and reclaimed exactly
   * once, that spend.
   */
  lemma PaidOrReclaimedOnce(goalId: nat, log: seq<Act>, spendSeq: nat)
    requires Legal(goalId, log) && ApprovedIn(log, goalId, spendSeq)
    requires PhaseOf(goalId, log).Ended? || PhaseOf(goalId, log).Reclaiming?
    ensures var q := PhaseOf(goalId, log);
            || (q.Ended? && q.end.PaidFor? && q.end.spend.spendSeq == spendSeq && ReclaimsSinceCommit(log) == 0)
            || (q.Reclaiming? && q.spend.spendSeq == spendSeq
                && ReclaimsSinceCommit(log) == 1 == OwnReclaims(log, goalId, spendSeq))
  {
    hide Delta;
    ApprovalStays(goalId, log, spendSeq);
    SinceCommit(goalId, log);
  }

  lemma DeltaReclaims(goalId: nat, p: Phase, a: Act)
    requires !Delta(goalId, p, a).Illegal?
    ensures var q := Delta(goalId, p, a);
            && (SpendOf(q).Some? || q.Committing? ==>
                 a.CommitTx? || ((SpendOf(p).Some? || p.Committing?) && !p.Reclaiming?) || q == p)
            && (SpendOf(q).Some? && a.ReclaimCall? ==>
                 p.Losing? && q.Reclaiming? && a == ReclaimCall(goalId, q.spend.spendSeq))
            && (q.Reclaiming? && !p.Reclaiming? ==> a.ReclaimCall?)
            && (q.Committing? ==> !a.ReclaimCall?)
            && (p.Reclaiming? ==> q == p && !a.ReclaimCall?)
            && (a.CommitTx? ==> q.Committing?)
  {
  }

  lemma {:induction false} SinceCommit(goalId: nat, log: seq<Act>)
    requires Legal(goalId, log)
    ensures var q := PhaseOf(goalId, log);
            && (SpendOf(q).Some? || q.Committing? ==> ReclaimsSinceCommit(log) == if q.Reclaiming? then 1 else 0)
            && (q.Reclaiming? ==> OwnReclaims(log, goalId, q.spend.spendSeq) == 1)
  {
    hide Delta;
    if log == [] {
    } else {
      var n := |log| - 1;
      LegalPrefix(goalId, log, n);
      SinceCommit(goalId, log[..n]);
      OwnAmongAll(log[..n], goalId);
      DeltaReclaims(goalId, PhaseOf(goalId, log[..n]), log[n]);
    }
  }

  lemma {:induction false} OwnAmongAll(log: seq<Act>, goalId: nat)
    ensures forall k :: OwnReclaims(log, goalId, k) <= ReclaimsSinceCommit(log)
  {
    if log == [] {
    } else {
      OwnAmongAll(log[..|log| - 1], goalId);
    }
  }

  /** Once a spend is reported committed, a finalize is for that spend. */
  lemma {:induction false} FinalizesOwn(goalId: nat, log: seq<Act>, k: nat, i: nat)
    requires Legal(goalId, log) && k <= i < |log| && PhaseOf(goalId, log[..k]).Committed?
    ensures log[i].FinalizeTx? ==>
              log[i].goalId == goalId && log[i].spendSeq == PhaseOf(goalId, log[..k]).spend.spendSeq
  {
    hide Delta;
    LegalAt(goalId, log, i);
    StaysWithSpend(goalId, log, k, i);
    DeltaSpend(goalId, PhaseOf(goalId, log[..i]), log[i]);
  }

  lemma {:induction false} StaysWithSpend(goalId: nat, log: seq<Act>, k: nat, i: nat)
    requires Legal(goalId, log) && k <= i <= |log| && PhaseOf(goalId, log[..k]).Committed?
    ensures var q := PhaseOf(goalId, log[..i]);
            q == Ended(FailedEarly) || SpendOf(q) == Some(PhaseOf(goalId, log[..k]).spend)
    decreases i
  {
    hide Delta;
    if k == i {
    } else {
      StaysWithSpend(goalId, log, k, i - 1);
      LegalPrefix(goalId, log, i);
      PhaseSnoc(goalId, log[..i - 1], log[i - 1]);
      assert log[..i] == log[..i - 1] + [log[i - 1]];
      DeltaSpend(goalId, PhaseOf(goalId, log[..i - 1]), log[i - 1]);
    }
  }

  /** A run never finalizes anything but the orphan it found and its own spend. */
  lemma FinalizesOwnOrOrphan(goalId: nat, log: seq<Act>, i: nat)
    requires Legal(goalId, log) && i < |log| && log[i].FinalizeTx?
    ensures log[i].goalId == goalId
    ensures Commits(log[..i]) == 0 || exists spend: Spend ::
              spend.spendSeq == log[i].spendSeq && Emit(SpendRequested(goalId, spend)) in log[..i]
  {
    LegalAt(goalId, log, i);
    PhaseFacts(goalId, log[..i]);
    CommitsInPhase(goalId, log[..i]);
    var q := PhaseOf(goalId, log[..i]);
    if q.Decided? {
      assert Emit(SpendRequested(goalId, q.spend)) in log[..i];
    }
  }
}
