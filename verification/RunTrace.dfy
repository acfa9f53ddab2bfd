/**
 * A run and the trace built from its events: each attestation in the trace
 * cites the commit of that very run (services/trace/src/builder.ts over
 * services/orchestrator/src/pay/payment-loop.ts).
 */
module RunTrace {
  import opened Wrappers
  import opened Hashing
  import opened Json
  import opened Events
  import opened RunLanguage
  import opened Traces
  import opened Builder
  import opened StepContent

  /** The events among a run's acts, each with the builder's clock when it was recorded. */
  function EventsOf(log: seq<Act>, clock: seq<int>): seq<(PaymentEvent, int)>
    requires |log| == |clock|
  {
    if log == [] then [] else
      var n := |log| - 1;
      EventsOf(log[..n], clock[..n]) + if log[n].Emit? then [(log[n].event, clock[n])] else []
  }

  function PendingOf(spend: Spend): Pending {
    Pending(spend.spendSeq, spend.decisionHandle, spend.commitTx)
  }

  /**
   * Read back by key, the step says its own finalize, and its attestation the
   * handle and the transaction of the spend an earlier `spend-requested`
   * reported, the finalize's own transaction, decision and signatures.
   */
  predicate Cites(goalId: nat, log: seq<Act>, step: Step, i: nat, j: nat) {
    && i < j < |log|
    && log[i].Emit? && log[i].event.SpendRequested? && log[i].event.goalId == goalId
    && log[j].Emit? && log[j].event.DecisionFinalized? && log[j].event.goalId == goalId
    && var spend, e := log[i].event.spend, log[j].event;
       && e.spendSeq == spend.spendSeq
       && Tells(e, step.kind, step.inputs, step.outputs)
       && Attests(step.attestation, goalId, spend, e.approved, e.txHash, e.signatures)
  }

  ghost predicate CitesOwnCommit(goalId: nat, log: seq<Act>, step: Step) {
    step.kind == "decision-finalized" ==> exists i, j :: Cites(goalId, log, step, i, j)
  }

  lemma RecordSnoc(h: Hasher, events: seq<(PaymentEvent, int)>, e: PaymentEvent, now: int)
    ensures RecordAll(h, events + [(e, now)]).0 == Appended(h, RecordAll(h, events).0, e, now).0
  {
    hide Appended;
    assert (events + [(e, now)])[..|events|] == events;
  }

  /** What the builder holds pending is the run's own spend. */
  lemma {:induction false} PendingIsOwn(h: Hasher, goalId: nat, log: seq<Act>, clock: seq<int>)
    requires |log| == |clock| && Legal(goalId, log)
    ensures var q := PhaseOf(goalId, log);
            SpendOf(q).Some? ==> RecordAll(h, EventsOf(log, clock)).0.pending == Some(PendingOf(SpendOf(q).value))
  {
    hide Delta, EntryOf, Linked;
    if log == [] {
    } else {
      var n := |log| - 1;
      var a := log[n];
      LegalPrefix(goalId, log, n);
      PendingIsOwn(h, goalId, log[..n], clock[..n]);
      DeltaSpend(goalId, PhaseOf(goalId, log[..n]), a);
      SpendIsReported(goalId, PhaseOf(goalId, log[..n]), a);
      if a.Emit? {
        RecordSnoc(h, EventsOf(log[..n], clock[..n]), a.event, clock[n]);
      } else {
        assert EventsOf(log, clock) == EventsOf(log[..n], clock[..n]);
      }
    }
  }

  /** A `spend-requested` event is where a run's spend comes from. */
  lemma SpendIsReported(goalId: nat, p: Phase, a: Act)
    requires !Delta(goalId, p, a).Illegal?
    ensures a.Emit? && a.event.SpendRequested? ==> Delta(goalId, p, a) == Committed(a.event.spend)
  {
  }

  /**
   * For every stream of events a run can emit, whatever the clock: each
   * decision-finalized step of its trace cites the goal, the seq, the handle
   * and the transaction of the commit that run itself reported before.
   */
  lemma {:induction false} AttestationsCiteOwnCommit(h: Hasher, goalId: nat, log: seq<Act>, clock: seq<int>, k: nat)
    requires |log| == |clock| && Legal(goalId, log)
    requires k < |RecordAll(h, EventsOf(log, clock)).0.steps|
    ensures CitesOwnCommit(goalId, log, RecordAll(h, EventsOf(log, clock)).0.steps[k])
  {
    hide Delta, DeltaEvent, EntryOf, Linked, Cites, Attestation, Tells, Attests;
    if log == [] {
    } else {
      var n := |log| - 1;
      var a, s := log[n], RecordAll(h, EventsOf(log[..n], clock[..n])).0;
      var step := RecordAll(h, EventsOf(log, clock)).0.steps[k];
      LegalPrefix(goalId, log, n);
      if a.Emit? {
        RecordSnoc(h, EventsOf(log[..n], clock[..n]), a.event, clock[n]);
      } else {
        assert EventsOf(log, clock) == EventsOf(log[..n], clock[..n]);
      }
      if k < |s.steps| {
        AttestationsCiteOwnCommit(h, goalId, log[..n], clock[..n], k);
        CitesStays(goalId, log, n, step);
      } else if step.kind == "decision-finalized" {
        StepCites(h, goalId, log, clock, s);
      }
    }
  }

  lemma CitesStays(goalId: nat, log: seq<Act>, n: nat, step: Step)
    requires n <= |log| && CitesOwnCommit(goalId, log[..n], step)
    ensures CitesOwnCommit(goalId, log, step)
  {
    if step.kind == "decision-finalized" {
      var i, j :| Cites(goalId, log[..n], step, i, j);
      assert Cites(goalId, log, step, i, j);
    }
  }

  /** The step a run's own decision-finalized event becomes. */
  lemma StepCites(h: Hasher, goalId: nat, log: seq<Act>, clock: seq<int>, s: State)
    requires |log| == |clock| && log != [] && Legal(goalId, log) && log[|log| - 1].Emit?
    requires s == RecordAll(h, EventsOf(log[..|log| - 1], clock[..|log| - 1])).0
    requires var after := Appended(h, s, log[|log| - 1].event, clock[|log| - 1]).0;
             |after.steps| > |s.steps| && after.steps[|s.steps|].kind == "decision-finalized"
    ensures CitesOwnCommit(goalId, log, Appended(h, s, log[|log| - 1].event, clock[|log| - 1]).0.steps[|s.steps|])
  {
    hide Delta, RecordAll, EventsOf, Attestation, Linked, EntryOf, Tells, Attests;
    var n := |log| - 1;
    var e := log[n].event;
    var step := Appended(h, s, e, clock[n]).0.steps[|s.steps|];
    LegalPrefix(goalId, log, n);
    var p := PhaseOf(goalId, log[..n]);
    EventOfKind(h, s, e, clock[n]);
    FinalizeFollows(goalId, p, log[n]);
    PendingIsOwn(h, goalId, log[..n], clock[..n]);
    PhaseFacts(goalId, log[..n]);
    var i :| 0 <= i < n && log[..n][i] == Emit(SpendRequested(goalId, p.spend));
    AttestationReads(p.spend, goalId, e.approved, e.txHash, e.signatures);
    assert Cites(goalId, log, step, i, n);
  }

  lemma FinalizeFollows(goalId: nat, p: Phase, a: Act)
    requires a.Emit? && a.event.DecisionFinalized? && !Delta(goalId, p, a).Illegal?
    ensures p.Finalizing? && a.event.goalId == goalId && a.event.spendSeq == p.spend.spendSeq
  {
  }

  /** Only that event makes such a step, with what is pending in its attestation. */
  lemma EventOfKind(h: Hasher, s: State, e: PaymentEvent, now: int)
    requires var after := Appended(h, s, e, now).0;
             |after.steps| > |s.steps| && after.steps[|s.steps|].kind == "decision-finalized"
    ensures e.DecisionFinalized?
    ensures s.pending.Some? ==> Appended(h, s, e, now).0.steps[|s.steps|].attestation ==
                                  Attestation(s.pending.value, e.goalId, e.spendSeq, e.approved, e.txHash, e.signatures)
    ensures var step := Appended(h, s, e, now).0.steps[|s.steps|]; Tells(e, step.kind, step.inputs, step.outputs)
  {
    hide Fields, ComputeStepHash, Tells;
    EntryTells(e, PendingAfter(e, s.pending));
  }
}
