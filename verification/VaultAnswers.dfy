/**
 * When the vault says yes, over every run: each of its functions succeeds
 * exactly under the conditions its caller can check, and none of its internal
 * checks ever stands in the way.
 */
module VaultAnswers {
  import opened Wrappers
  import opened Hashing
  import opened Sums
  import opened Vault
  import opened Token
  import opened Signer
  import opened Protocol
  import opened Guarantees

  // ---------------------------------------------------------------- opening

  /** Only goals bind payers. */
  ghost predicate PayersAreGoals(v: State) {
    forall p :: p in v.payerGoal ==> HasGoal(v, v.payerGoal[p]) && GoalAt(v, v.payerGoal[p]).payer == p
  }

  lemma StepKeepsPayers(h: Hasher, d: Deployment, s: System, a: Action)
    requires s.past != [] && PayersAreGoals(Head(s).vault)
    ensures PayersAreGoals(Head(Step(h, d, s, a)).vault)
  {
    hide TermsBytes, SignAt, SweepAt, TransferWithAuthorization, NonceUsed, Affordable;
  }

  lemma {:induction false} PayersAlwaysGoals(h: Hasher, d: Deployment, actions: seq<Action>)
    ensures PayersAreGoals(Head(Run(h, d, actions)).vault)
  {
    hide Step, PayersAreGoals;
    if actions == [] {
      NoPayersAtStart();
    } else {
      PayersAlwaysGoals(h, d, actions[..|actions| - 1]);
      StepKeepsPayers(h, d, Run(h, d, actions[..|actions| - 1]), actions[|actions| - 1]);
    }
  }

  lemma NoPayersAtStart()
    ensures PayersAreGoals(Head(Start()).vault)
  {
  }

  predicate HasPayer(v: State, payer: Address) {
    exists i :: 0 <= i < |v.goals| && v.goals[i].payer == payer
  }

  /** A goal as its owner may open it. */
  predicate WellFormed(p: OpenGoalParams, now: nat) {
    && p.payer != 0 && p.relay != 0 && p.asset != 0 && p.allowlist != []
    && now < p.expiry && 1 <= p.callsRemaining <= p.maxAttempts
  }

  /**
   * In every run a goal opens exactly when the fee is paid, its parameters are
   * well formed and no goal has its payer; it then is the newest, open, with
   * what it was opened with and nothing spent.
   */
  lemma OpenIsExact(h: Hasher, d: Deployment, actions: seq<Action>, sender: Address, p: OpenGoalParams, feePaid: bool)
    ensures var at := Head(Run(h, d, actions));
            var r := OpenGoal(at.vault, sender, p, feePaid, at.now);
            && (r.Ok? <==> feePaid && WellFormed(p, at.now) && !HasPayer(at.vault, p.payer))
            && (r.Ok? ==>
                  && |r.value.goals| == |at.vault.goals| + 1 && r.value.goals[..|at.vault.goals|] == at.vault.goals
                  && Fresh(r.value.goals[|at.vault.goals|], sender, p))
  {
    hide Run, Inv;
    RunInv(h, d, actions);
    PayersAlwaysGoals(h, d, actions);
    InvHead(h, d, Run(h, d, actions));
    OpenAnswers(Head(Run(h, d, actions)).vault, sender, p, feePaid, Head(Run(h, d, actions)).now);
  }

  ghost predicate Fresh(g: Goal, sender: Address, p: OpenGoalParams) {
    && g.owner == sender && g.payer == p.payer && g.relay == p.relay && g.asset == p.asset && g.open
    && g.expiry == p.expiry && g.spends == [] && g.pendingSeq == 0 && g.cap == p.cap && g.budget == p.budget
    && g.callsRemaining == p.callsRemaining && g.attemptsRemaining == p.maxAttempts
    && g.opening == Opening(p.budget, p.callsRemaining, p.maxAttempts)
    && (forall a: Address :: a in g.allowlist <==> a in p.allowlist)
  }

  lemma OpenAnswers(v: State, sender: Address, p: OpenGoalParams, feePaid: bool, now: nat)
    requires VaultInv(v) && PayersAreGoals(v)
    ensures var r := OpenGoal(v, sender, p, feePaid, now);
            && (r.Ok? <==> feePaid && WellFormed(p, now) && !HasPayer(v, p.payer))
            && (r.Ok? ==>
                  && |r.value.goals| == |v.goals| + 1 && r.value.goals[..|v.goals|] == v.goals
                  && Fresh(r.value.goals[|v.goals|], sender, p))
  {
    if p.payer in v.payerGoal && v.payerGoal[p.payer] != 0 {
      assert v.goals[v.payerGoal[p.payer] - 1].payer == p.payer;
    }
    if HasPayer(v, p.payer) {
      var i :| 0 <= i < |v.goals| && v.goals[i].payer == p.payer;
      assert v.payerGoal[v.goals[i].payer] == i + 1;
    }
  }

  // ------------------------------------------------------------- committing

  /** The block time as the contract's 64 bits hold it, and an hour later still in them. */
  predicate ClockFits(now: nat) {
    0 < now % TWO_64 && now % TWO_64 + AUTHORIZATION_WINDOW < TWO_64
  }

  /**
   * In every run a commit is accepted exactly when the goal's relay asks while
   * the goal is open and not expired, for an allowlisted payee, a positive
   * amount and a hold that has not passed, every earlier spend is finalized, and
   * fewer were asked than the owner allowed. Budget, cap and calls never refuse
   * one.
   */
  lemma CommitIsExact(h: Hasher, d: Deployment, actions: seq<Action>, sender: Address, goalId: nat, amount: U256,
                      payTo: Address, resource: Bytes, payBy: U64)
    ensures var at := Head(Run(h, d, actions));
            RequestSpend(h, at.vault, sender, goalId, amount, payTo, resource, payBy, at.now).Ok? <==>
              && HasGoal(at.vault, goalId) && ClockFits(at.now)
              && var g := GoalAt(at.vault, goalId);
                 && sender == g.relay && g.open && at.now < g.expiry
                 && payTo in g.allowlist && amount > 0 && at.now < payBy
                 && (forall i :: 0 <= i < |g.spends| ==> g.spends[i].finalized)
                 && |g.spends| < g.opening.attempts
  {
    hide Run, Inv, TermsBytes;
    RunInv(h, d, actions);
    var at := Head(Run(h, d, actions));
    if HasGoal(at.vault, goalId) {
      PendingIsUnfinalized(h, d, Run(h, d, actions), goalId);
    }
  }

  lemma PendingIsUnfinalized(h: Hasher, d: Deployment, s: System, goalId: nat)
    requires Inv(h, d, s) && HasGoal(Head(s).vault, goalId)
    ensures var g := GoalAt(Head(s).vault, goalId);
            && (g.pendingSeq == 0 <==> forall i :: 0 <= i < |g.spends| ==> g.spends[i].finalized)
            && g.attemptsRemaining + |g.spends| == g.opening.attempts < TWO_32
            && forall i :: 0 <= i < |g.spends| ==> (!g.spends[i].finalized <==> g.pendingSeq == i + 1)
  {
    var g := Head(s).vault.goals[goalId - 1];
    assert GoalInv(g);
    if g.pendingSeq != 0 { assert !g.spends[g.pendingSeq - 1].finalized; }
  }

  /** What each refusal of a commit says is so. */
  ghost predicate CommitRefusalIsSo(e: VaultError, at: Snapshot, sender: Address, goalId: nat, amount: U256,
                                    payTo: Address, payBy: U64)
  {
    if e.UnknownGoal? then !HasGoal(at.vault, goalId)
    else
      && HasGoal(at.vault, goalId)
      && var g := GoalAt(at.vault, goalId);
         match e
         case NotRelay => sender != g.relay
         case GoalNotOpen => !g.open
         case GoalExpired => g.expiry <= at.now
         case PayeeNotAllowlisted => payTo !in g.allowlist
         case ZeroAmount => amount == 0
         case PayByPassed => payBy <= at.now
         case SpendPending => exists i :: 0 <= i < |g.spends| && !g.spends[i].finalized
         case NoAttemptsLeft => |g.spends| == g.opening.attempts
         case Panic => !ClockFits(at.now)
         case _ => false
  }

  /** In every run each refusal of a commit is true. */
  lemma CommitRefusalsAreSo(h: Hasher, d: Deployment, actions: seq<Action>, sender: Address, goalId: nat,
                            amount: U256, payTo: Address, resource: Bytes, payBy: U64)
    ensures var at := Head(Run(h, d, actions));
            var r := RequestSpend(h, at.vault, sender, goalId, amount, payTo, resource, payBy, at.now);
            r.Err? ==> CommitRefusalIsSo(r.error, at, sender, goalId, amount, payTo, payBy)
  {
    hide Run, Inv, TermsBytes;
    RunInv(h, d, actions);
    var at := Head(Run(h, d, actions));
    if HasGoal(at.vault, goalId) {
      PendingIsUnfinalized(h, d, Run(h, d, actions), goalId);
    }
  }

  /** What each refusal of an opening says is so. */
  ghost predicate OpenRefusalIsSo(e: VaultError, at: Snapshot, p: OpenGoalParams, feePaid: bool) {
    match e
    case FeeNotPaid => !feePaid
    case InvalidPayer => p.payer == 0
    case PayerAlreadyBound => HasPayer(at.vault, p.payer)
    case InvalidRelay => p.relay == 0
    case InvalidAsset => p.asset == 0
    case InvalidExpiry => p.expiry <= at.now
    case InvalidCallCount => p.callsRemaining == 0
    case InvalidAttemptCount => p.maxAttempts < p.callsRemaining
    case EmptyAllowlist => p.allowlist == []
    case _ => false
  }

  /** In every run each refusal of an opening is true. */
  lemma OpenRefusalsAreSo(h: Hasher, d: Deployment, actions: seq<Action>, sender: Address, p: OpenGoalParams,
                          feePaid: bool)
    ensures var at := Head(Run(h, d, actions));
            var r := OpenGoal(at.vault, sender, p, feePaid, at.now);
            r.Err? ==> OpenRefusalIsSo(r.error, at, p, feePaid)
  {
    hide Run, Inv;
    PayersAlwaysGoals(h, d, actions);
    var v := Head(Run(h, d, actions)).vault;
    if p.payer in v.payerGoal && v.payerGoal[p.payer] != 0 {
      assert v.goals[v.payerGoal[p.payer] - 1].payer == p.payer;
    }
  }

  // ------------------------------------------------------ deciding, closing

  /** In every run a decision is finalized exactly when it is the true one of a spend that has none yet. */
  lemma FinalizeIsExact(h: Hasher, d: Deployment, actions: seq<Action>, goalId: nat, spendSeq: nat, approved: bool,
                        genuine: bool)
    ensures var v := Head(Run(h, d, actions)).vault;
            Finalize(v, goalId, spendSeq, approved, genuine).Ok? <==>
              && HasGoal(v, goalId) && HasSpend(GoalAt(v, goalId), spendSeq)
              && !SpendAt(GoalAt(v, goalId), spendSeq).finalized
              && genuine && approved == SpendAt(GoalAt(v, goalId), spendSeq).decision
    ensures var v := Head(Run(h, d, actions)).vault; var r := Finalize(v, goalId, spendSeq, approved, genuine);
            && (r == Err(UnknownGoal) <==> !HasGoal(v, goalId))
            && (r == Err(UnknownSpend) <==> HasGoal(v, goalId) && !HasSpend(GoalAt(v, goalId), spendSeq))
            && (r == Err(AlreadyFinalized) <==>
                  StoredSpend(v, goalId, spendSeq).Some? && StoredSpend(v, goalId, spendSeq).value.finalized)
            && r != Err(Panic)
  {
    hide Run, Inv;
    RunInv(h, d, actions);
    var v := Head(Run(h, d, actions)).vault;
    if HasGoal(v, goalId) && HasSpend(GoalAt(v, goalId), spendSeq) && !SpendAt(GoalAt(v, goalId), spendSeq).finalized {
      PendingIsUnfinalized(h, d, Run(h, d, actions), goalId);
      assert !GoalAt(v, goalId).spends[spendSeq - 1].finalized;
      NeverWedged(h, d, actions, goalId);
    }
  }

  /**
   * In every run each answer to a reclaim means what it says, and it is given
   * exactly then: the arithmetic check is never one of them.
   */
  lemma ReclaimIsExact(h: Hasher, d: Deployment, actions: seq<Action>, goalId: nat, spendSeq: nat, used: bool)
    requires var v := Head(Run(h, d, actions)).vault; HasGoal(v, goalId) && HasSpend(GoalAt(v, goalId), spendSeq)
    ensures var at := Head(Run(h, d, actions));
            var r := SpendAt(GoalAt(at.vault, goalId), spendSeq);
            var answer := ReclaimExpired(at.vault, goalId, spendSeq, used, at.now);
            && (answer == Err(NotApproved) <==> !r.approved)
            && (answer == Err(AlreadyReclaimed) <==> r.reclaimed)
            && (answer == Err(AuthorizationLive) <==> r.approved && !r.reclaimed && at.now < r.validBefore)
            && (answer == Err(AuthorizationUsed) <==> r.approved && !r.reclaimed && r.validBefore <= at.now && used)
            && (answer.Ok? <==> r.approved && !r.reclaimed && r.validBefore <= at.now && !used)
  {
    hide Run, Later, SignedOk, LogOk, Exclusive;
    RunInv(h, d, actions);
    var g := GoalAt(Head(Run(h, d, actions)).vault, goalId);
    assert GoalInv(g) && RecordOk(g, g.spends[spendSeq - 1]);
    if g.spends[spendSeq - 1].approved && !g.spends[spendSeq - 1].reclaimed {
      assert CallsUsed(g.spends)[spendSeq - 1] == 1;
      TotalAtLeast(CallsUsed(g.spends), spendSeq - 1);
    }
  }

  /**
   * Only the owner closes a goal, and closing is for good: whatever follows, the
   * goal stays closed and takes no commit.
   */
  lemma CloseIsForGood(h: Hasher, d: Deployment, actions: seq<Action>, more: seq<Action>, sender: Address, goalId: nat,
                       asker: Address, amount: U256, payTo: Address, resource: Bytes, payBy: U64)
    requires HasGoal(Head(Run(h, d, actions)).vault, goalId)
    ensures var v := Head(Run(h, d, actions)).vault;
            CloseGoal(v, sender, goalId).Ok? <==> sender == GoalAt(v, goalId).owner
    ensures var v := Head(Run(h, d, actions)).vault;
            var t := RunFrom(h, d, Run(h, d, actions + [Close(sender, goalId)]), more);
            sender == GoalAt(v, goalId).owner ==>
              && HasGoal(Head(t).vault, goalId) && !GoalAt(Head(t).vault, goalId).open
              && RequestSpend(h, Head(t).vault, asker, goalId, amount, payTo, resource, payBy, Head(t).now).Err?
  {
    hide Run, RunFrom, Inv, Later, TermsBytes;
    RunInv(h, d, actions);
    var closing := actions + [Close(sender, goalId)];
    StepIsRun(h, d, actions, Close(sender, goalId));
    RunInv(h, d, closing);
    RunFromIsLater(h, d, Run(h, d, closing), more);
    if sender == GoalAt(Head(Run(h, d, actions)).vault, goalId).owner {
      assert !GoalAt(Head(Run(h, d, closing)).vault, goalId).open;
      ClosedStays(Head(Run(h, d, closing)).vault, Head(RunFrom(h, d, Run(h, d, closing), more)).vault, goalId);
    }
  }

  lemma ClosedStays(v: State, w: State, goalId: nat)
    requires Later(v, w) && HasGoal(v, goalId) && !GoalAt(v, goalId).open
    ensures HasGoal(w, goalId) && !GoalAt(w, goalId).open
  {
    assert LaterGoal(v.goals[goalId - 1], w.goals[goalId - 1]);
  }
}
