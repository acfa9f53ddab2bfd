/**
 * The whole spend protocol as a transition system: the vault, the token, the
 * signer, and an adversary who may do everything else. The orchestrator, the
 * vendor and the facilitator hold no key the signer holds, so any of them is
 * just somebody choosing actions, in any order, any number of times.
 *
 * A node may answer a read from any past state, so the system keeps its past.
 */
module Protocol {
  import opened Wrappers
  import opened Hashing
  import opened Sums
  import opened Vault
  import opened Token
  import opened Signer

  /** `held`: the addresses whose keys the signer alone can use. */
  datatype Deployment = Deployment(config: Config, held: set<Address>)

  /** One block: the vault, the token and the block time. */
  datatype Snapshot = Snapshot(vault: State, token: Ledger, now: nat)

  /** Why a message was signed. */
  datatype Origin = ForSpend(goalId: nat, spendSeq: nat) | ForSweep(goalId: nat) | Foreign

  datatype Authorized = Authorized(message: Message, origin: Origin)

  /** `past` ends with the head. `log` lists the transfers the token executed. */
  datatype System = System(past: seq<Snapshot>, signed: set<Authorized>, log: seq<Authorized>)

  /** Which past state answers each read of one signing request. */
  datatype Views = Views(goal: nat, authorization: nat, window: nat, termsHash: nat, finalized: nat, approved: nat)

  datatype Action =
    | Open(sender: Address, params: OpenGoalParams, feePaid: bool)
    | Close(sender: Address, goalId: nat)
    | Request(sender: Address, goalId: nat, amount: U256, payTo: Address, resource: Bytes, payBy: U64)
    | Decide(goalId: nat, spendSeq: nat, approved: bool, genuine: bool)
    /** `foreignUsed`: what a token other than USDC answers the vault. */
    | Reclaim(goalId: nat, spendSeq: nat, foreignUsed: bool)
    | AskSign(goalId: nat, spendSeq: nat, chainId: nat, views: Views, clock: nat, hasKey: bool, domainMatches: bool)
    | AskSweep(goalId: nat, chainId: nat, goalView: nat, balanceView: nat, clock: nat, hasKey: bool,
         domainMatches: bool)
    /** Somebody signs with a key the signer does not hold. */
    | ForeignSign(message: Message)
    /** Anyone submits a signed message to the token. */
    | Submit(authorized: Authorized)
    | Deposit(to: Address, value: nat)
    | PlainTransfer(from: Address, to: Address, value: nat)
    | Tick(seconds: nat)

  function Start(): System {
    System([Snapshot(State([], map[]), Ledger({}, map[]), 0)], {}, [])
  }

  function Head(s: System): Snapshot
    requires s.past != []
  {
    s.past[|s.past| - 1]
  }

  /** The state a node that lags behind answers from. */
  function At(s: System, i: nat): Snapshot
    requires s.past != []
  {
    if i < |s.past| then s.past[i] else Head(s)
  }

  function Advance(s: System, next: Snapshot): System {
    s.(past := s.past + [next])
  }

  function WithVault(s: System, r: Result<State, VaultError>): System
    requires s.past != []
  {
    match r
    case Err(_) => s
    case Ok(v) => Advance(s, Head(s).(vault := v))
  }

  /** What the vault reads from the goal's token. */
  function NonceUsed(h: Hasher, d: Deployment, at: Snapshot, goalId: nat, spendSeq: nat, foreignUsed: bool): bool {
    HasGoal(at.vault, goalId) &&
    var g := GoalAt(at.vault, goalId);
    if g.asset == d.config.usdc then AuthorizationState(at.token, g.payer, SpendNonce(h, goalId, spendSeq))
        else foreignUsed
  }

  function SignAt(h: Hasher, d: Deployment, s: System, a: Action): Outcome
    requires s.past != [] && a.AskSign?
  {
    var goal := ReadGoal(At(s, a.views.goal).vault, a.goalId);
    var seen := SpendReads(At(s, a.views.authorization).vault, At(s, a.views.window).vault,
                           At(s, a.views.termsHash).vault,
                           At(s, a.views.finalized).vault, At(s, a.views.approved).vault);
    Sign(h, d.config, a.goalId, a.spendSeq, a.chainId, goal, ReadSpend(h, seen, a.goalId, a.spendSeq), a.clock,
         a.hasKey && goal.Some? && goal.value.payer in d.held, a.domainMatches)
  }

  function SweepAt(h: Hasher, d: Deployment, s: System, a: Action): Outcome
    requires s.past != [] && a.AskSweep?
  {
    var goal := ReadGoal(At(s, a.goalView).vault, a.goalId);
    var balance := if goal.Some? then BalanceOf(At(s, a.balanceView).token, goal.value.payer) else 0;
    Sweep(h, d.config, a.goalId, a.chainId, goal, balance, a.clock,
          a.hasKey && goal.Some? && goal.value.payer in d.held, a.domainMatches)
  }

  function WithSignature(s: System, o: Outcome, origin: Origin): System {
    if o.Issued? then s.(signed := s.signed + {Authorized(o.message, origin)}) else s
  }

  /** What an action does; one that is refused does nothing. */
  function Step(h: Hasher, d: Deployment, s: System, a: Action): (t: System)
    requires s.past != []
    ensures t.past != []
  {
    var head := Head(s);
    match a
    case Open(sender, params, feePaid) => WithVault(s, OpenGoal(head.vault, sender, params, feePaid, head.now))
    case Close(sender, goalId) => WithVault(s, CloseGoal(head.vault, sender, goalId))
    case Request(sender, goalId, amount, payTo, resource, payBy) =>
      WithVault(s, RequestSpend(h, head.vault, sender, goalId, amount, payTo, resource, payBy, head.now))
    case Decide(goalId, spendSeq, approved, genuine) =>
         WithVault(s, Finalize(head.vault, goalId, spendSeq, approved, genuine))
    case Reclaim(goalId, spendSeq, foreignUsed) =>
      WithVault(s, ReclaimExpired(head.vault, goalId, spendSeq, NonceUsed(h, d, head, goalId, spendSeq, foreignUsed),
          head.now))
    case AskSign(goalId, spendSeq, _, _, _, _, _) => WithSignature(s, SignAt(h, d, s, a), ForSpend(goalId, spendSeq))
    case AskSweep(goalId, _, _, _, _, _, _) => WithSignature(s, SweepAt(h, d, s, a), ForSweep(goalId))
    case ForeignSign(m) => if m.from in d.held then s else s.(signed := s.signed + {Authorized(m, Foreign)})
    case Submit(authorized) =>
      (match TransferWithAuthorization(head.token, authorized.message, authorized in s.signed, head.now)
       case Err(_) => s
       case Ok(t) => Advance(s, head.(token := t)).(log := s.log + [authorized]))
    case Deposit(to, amount) =>
      Advance(s, head.(token := head.token.(balances := head.token.balances[to := BalanceOf(head.token, to) + amount])))
    case PlainTransfer(from, to, amount) =>
      if from in d.held || BalanceOf(head.token, from) < amount then s
      else Advance(s, head.(token := Move(head.token, from, to, amount)))
    case Tick(seconds) => Advance(s, head.(now := head.now + seconds))
  }

  function RunFrom(h: Hasher, d: Deployment, s: System, actions: seq<Action>): (t: System)
    requires s.past != []
    ensures t.past != []
  {
    if actions == [] then s
    else Step(h, d, RunFrom(h, d, s, actions[..|actions| - 1]), actions[|actions| - 1])
  }

  function Run(h: Hasher, d: Deployment, actions: seq<Action>): (t: System)
    ensures t.past != []
  {
    RunFrom(h, d, Start(), actions)
  }

  // -------------------------------------------------------- vault invariant

  /** What each spend has taken from the budget and not given back. */
  function Debits(spends: seq<Record>): seq<nat> {
    seq(|spends|, i requires 0 <= i < |spends| =>
      if spends[i].decision && !spends[i].reclaimed then spends[i].amount else 0)
  }

  /** Which spends have used up a call. */
  function CallsUsed(spends: seq<Record>): seq<nat> {
    seq(|spends|, i requires 0 <= i < |spends| => if spends[i].approved && !spends[i].reclaimed then 1 else 0)
  }

  predicate RecordOk(g: Goal, r: Record) {
    && 0 < r.amount < TWO_256
    && r.payTo in g.allowlist
    && r.validBefore <= g.expiry
    && (r.finalized ==> r.approved == r.decision)
    && (r.approved ==> r.finalized)
    && (r.reclaimed ==> r.approved)
    && (r.decision ==> r.amount <= g.cap)
  }

  ghost predicate GoalInv(g: Goal) {
    && g.opening.budget < TWO_256 && g.opening.calls < TWO_32 && g.opening.attempts < TWO_32
    && (forall i :: 0 <= i < |g.spends| ==> RecordOk(g, g.spends[i]))
    && g.pendingSeq <= |g.spends|
    && (forall i :: 0 <= i < |g.spends| ==> (!g.spends[i].finalized <==> g.pendingSeq == i + 1))
    && g.budget + Total(Debits(g.spends)) == g.opening.budget
    && g.callsRemaining + Total(CallsUsed(g.spends)) == g.opening.calls
    && g.attemptsRemaining + |g.spends| == g.opening.attempts
    && (g.pendingSeq != 0 && g.spends[g.pendingSeq - 1].decision ==> g.callsRemaining >= 1)
  }

  ghost predicate VaultInv(v: State) {
    && (forall i :: 0 <= i < |v.goals| ==> GoalInv(v.goals[i]))
    && (forall i :: 0 <= i < |v.goals| ==> v.goals[i].payer in v.payerGoal && v.payerGoal[v.goals[i].payer] == i + 1)
  }

  lemma RequestKeepsGoal(h: Hasher, v: State, sender: Address, goalId: nat, amount: U256, payTo: Address,
                         resource: Bytes, payBy: U64, now: nat)
    requires VaultInv(v) && RequestSpend(h, v, sender, goalId, amount, payTo, resource, payBy, now).Ok?
    ensures VaultInv(RequestSpend(h, v, sender, goalId, amount, payTo, resource, payBy, now).value)
  {
    hide TermsBytes;
    var w := RequestSpend(h, v, sender, goalId, amount, payTo, resource, payBy, now).value;
    var g, k := GoalAt(v, goalId), GoalAt(w, goalId);
    assert GoalInv(g);
    var r := k.spends[|g.spends|];
    assert Debits(k.spends) == Debits(g.spends) + [if r.decision then r.amount else 0];
    assert CallsUsed(k.spends) == CallsUsed(g.spends) + [0];
    TotalAppend(Debits(g.spends), if r.decision then r.amount else 0);
    TotalAppend(CallsUsed(g.spends), 0);
    forall i | 0 <= i < |k.spends|
      ensures RecordOk(k, k.spends[i])
    {
      if i < |g.spends| { assert RecordOk(g, g.spends[i]); }
    }
    assert GoalInv(k);
  }

  lemma FinalizeKeepsGoal(v: State, goalId: nat, spendSeq: nat, approved: bool, genuine: bool)
    requires VaultInv(v) && Finalize(v, goalId, spendSeq, approved, genuine).Ok?
    ensures VaultInv(Finalize(v, goalId, spendSeq, approved, genuine).value)
  {
    var w := Finalize(v, goalId, spendSeq, approved, genuine).value;
    var g, k := GoalAt(v, goalId), GoalAt(w, goalId);
    var i := spendSeq - 1;
    assert GoalInv(g) && RecordOk(g, g.spends[i]);
    assert Debits(k.spends) == Debits(g.spends);
    assert CallsUsed(k.spends) == CallsUsed(g.spends)[i := if approved then 1 else 0];
    TotalUpdate(CallsUsed(g.spends), i, if approved then 1 else 0);
    forall j | 0 <= j < |k.spends|
      ensures RecordOk(k, k.spends[j])
    {
      assert RecordOk(g, g.spends[j]);
    }
    assert GoalInv(k);
  }

  lemma ReclaimKeepsGoal(v: State, goalId: nat, spendSeq: nat, used: bool, now: nat)
    requires VaultInv(v) && ReclaimExpired(v, goalId, spendSeq, used, now).Ok?
    ensures VaultInv(ReclaimExpired(v, goalId, spendSeq, used, now).value)
  {
    var w := ReclaimExpired(v, goalId, spendSeq, used, now).value;
    var g, k := GoalAt(v, goalId), GoalAt(w, goalId);
    var i := spendSeq - 1;
    assert GoalInv(g) && RecordOk(g, g.spends[i]);
    assert Debits(k.spends) == Debits(g.spends)[i := 0];
    assert CallsUsed(k.spends) == CallsUsed(g.spends)[i := 0];
    TotalUpdate(Debits(g.spends), i, 0);
    TotalUpdate(CallsUsed(g.spends), i, 0);
    TotalAtLeast(Debits(g.spends), i);
    forall j | 0 <= j < |k.spends|
      ensures RecordOk(k, k.spends[j])
    {
      assert RecordOk(g, g.spends[j]);
    }
    assert GoalInv(k);
  }

  lemma OpenKeepsGoals(v: State, sender: Address, p: OpenGoalParams, feePaid: bool, now: nat)
    requires VaultInv(v) && OpenGoal(v, sender, p, feePaid, now).Ok?
    ensures VaultInv(OpenGoal(v, sender, p, feePaid, now).value)
  {
    var w := OpenGoal(v, sender, p, feePaid, now).value;
    var g := w.goals[|v.goals|];
    assert Debits(g.spends) == [] && CallsUsed(g.spends) == [];
    assert GoalInv(g);
  }

  lemma CloseKeepsGoals(v: State, sender: Address, goalId: nat)
    requires VaultInv(v) && CloseGoal(v, sender, goalId).Ok?
    ensures VaultInv(CloseGoal(v, sender, goalId).value)
  {
    var g := GoalAt(v, goalId);
    assert GoalInv(g);
    var k := g.(open := false);
    assert forall i :: 0 <= i < |g.spends| ==> RecordOk(g, g.spends[i]) ==> RecordOk(k, g.spends[i]);
    assert GoalInv(k);
  }

  // ------------------------------------------------------- system invariant

  /** `a` is an earlier block than `b`. */
  ghost predicate Before(a: Snapshot, b: Snapshot) {
    Later(a.vault, b.vault) && a.now <= b.now && a.token.used <= b.token.used
  }

  ghost predicate HistoryOk(s: System) {
    s.past != [] && forall i :: 0 <= i < |s.past| ==> Before(s.past[i], Head(s))
  }

  /** A signature says only what the vault froze, or returns money to an owner. */
  ghost predicate SignedOk(h: Hasher, d: Deployment, v: State, a: Authorized) {
    match a.origin
    case ForSpend(goalId, spendSeq) =>
      && ApprovedAt(d.config, v, goalId, spendSeq)
      && GoalAt(v, goalId).payer in d.held
      && a.message == FrozenMessage(h, GoalAt(v, goalId), goalId, spendSeq)
    case ForSweep(goalId) =>
      && HasGoal(v, goalId) && !GoalAt(v, goalId).open
      && GoalAt(v, goalId).payer in d.held
      && a.message.from == GoalAt(v, goalId).payer && a.message.to == GoalAt(v, goalId).owner
      && a.message.nonce == SweepNonce(h, goalId, a.message.value)
    case Foreign => a.message.from !in d.held
  }

  predicate SameNonce(a: Authorized, b: Authorized) {
    a.message.from == b.message.from && a.message.nonce == b.message.nonce
  }

  ghost predicate LogOk(s: System)
    requires s.past != []
  {
    && (forall i :: 0 <= i < |s.log| ==> s.log[i] in s.signed)
    && (forall i :: 0 <= i < |s.log| ==> (s.log[i].message.from, s.log[i].message.nonce) in Head(s).token.used)
    && (forall i, j :: 0 <= i < j < |s.log| ==> !SameNonce(s.log[i], s.log[j]))
  }

  /** The token executed a transfer signed for this spend. */
  ghost predicate Paid(log: seq<Authorized>, goalId: nat, spendSeq: nat) {
    exists i :: 0 <= i < |log| && log[i].origin == ForSpend(goalId, spendSeq)
  }

  predicate Reclaimed(v: State, goalId: nat, spendSeq: nat) {
    HasGoal(v, goalId) && HasSpend(GoalAt(v, goalId), spendSeq) && SpendAt(GoalAt(v, goalId), spendSeq).reclaimed
  }

  /** A reclaimed spend's window has closed, and it was not paid. */
  ghost predicate Exclusive(at: Snapshot, log: seq<Authorized>) {
    forall goalId, spendSeq :: Reclaimed(at.vault, goalId, spendSeq) ==>
      SpendAt(GoalAt(at.vault, goalId), spendSeq).validBefore <= at.now && !Paid(log, goalId, spendSeq)
  }

  ghost predicate Inv(h: Hasher, d: Deployment, s: System) {
    && HistoryOk(s)
    && VaultInv(Head(s).vault)
    && (forall a :: a in s.signed ==> SignedOk(h, d, Head(s).vault, a))
    && LogOk(s)
    && Exclusive(Head(s), s.log)
  }

  lemma LaterItself(v: State)
    ensures Later(v, v)
  {
  }

  lemma SignedOkLater(h: Hasher, d: Deployment, v: State, w: State, a: Authorized)
    requires Later(v, w) && SignedOk(h, d, v, a)
    ensures SignedOk(h, d, w, a)
  {
    hide SpendNonce;
    match a.origin {
      case ForSpend(goalId, spendSeq) =>
        assert LaterGoal(v.goals[goalId - 1], w.goals[goalId - 1]);
        assert LaterRecord(v.goals[goalId - 1].spends[spendSeq - 1], w.goals[goalId - 1].spends[spendSeq - 1]);
      case ForSweep(goalId) =>
        assert LaterGoal(v.goals[goalId - 1], w.goals[goalId - 1]);
      case Foreign =>
    }
  }

  /** A new block keeps everything that only looks at the past. */
  lemma AdvanceKeepsHistory(h: Hasher, d: Deployment, s: System, next: Snapshot)
    requires Inv(h, d, s) && Before(Head(s), next)
    ensures HistoryOk(Advance(s, next))
    ensures forall a :: a in s.signed ==> SignedOk(h, d, next.vault, a)
    ensures forall i :: 0 <= i < |s.log| ==> (s.log[i].message.from, s.log[i].message.nonce) in next.token.used
  {
    hide SignedOk, VaultInv, Exclusive;
    var t := Advance(s, next);
    LaterItself(next.vault);
    forall i | 0 <= i < |t.past|
      ensures Before(t.past[i], Head(t))
    {
      if i < |s.past| {
        LaterTransitive(s.past[i].vault, Head(s).vault, next.vault);
      }
    }
    forall a | a in s.signed
      ensures SignedOk(h, d, next.vault, a)
    {
      SignedOkLater(h, d, Head(s).vault, next.vault, a);
    }
  }

  /** No record is marked reclaimed in `w` that was not in `v`. */
  ghost predicate NoneReclaimed(v: State, w: State) {
    forall goalId, spendSeq :: Reclaimed(w, goalId, spendSeq) ==> Reclaimed(v, goalId, spendSeq)
  }

  lemma ReclaimedStays(v: State, w: State, goalId: nat, spendSeq: nat)
    requires Later(v, w) && Reclaimed(v, goalId, spendSeq)
    ensures Reclaimed(w, goalId, spendSeq)
    ensures SpendAt(GoalAt(w, goalId), spendSeq).validBefore == SpendAt(GoalAt(v, goalId), spendSeq).validBefore
  {
    assert LaterGoal(v.goals[goalId - 1], w.goals[goalId - 1]);
    assert LaterRecord(v.goals[goalId - 1].spends[spendSeq - 1], w.goals[goalId - 1].spends[spendSeq - 1]);
  }

  lemma VaultActionKeepsInv(h: Hasher, d: Deployment, s: System, v: State)
    requires Inv(h, d, s) && Later(Head(s).vault, v) && VaultInv(v) && NoneReclaimed(Head(s).vault, v)
    ensures Inv(h, d, Advance(s, Head(s).(vault := v)))
  {
    hide SignedOk, VaultInv, Later;
    var next := Head(s).(vault := v);
    AdvanceKeepsHistory(h, d, s, next);
    forall goalId, spendSeq | Reclaimed(v, goalId, spendSeq)
      ensures SpendAt(GoalAt(v, goalId), spendSeq).validBefore <= next.now && !Paid(s.log, goalId, spendSeq)
    {
      assert Reclaimed(Head(s).vault, goalId, spendSeq);
      ReclaimedStays(Head(s).vault, v, goalId, spendSeq);
    }
  }

  lemma InvHead(h: Hasher, d: Deployment, s: System)
    requires Inv(h, d, s)
    ensures s.past != [] && VaultInv(Head(s).vault)
  {
  }

  lemma OpenKeepsInv(h: Hasher, d: Deployment, s: System, a: Action)
    requires Inv(h, d, s) && a.Open?
    ensures Inv(h, d, Step(h, d, s, a))
  {
    hide VaultInv, Later, SignedOk, LogOk, Exclusive;
    var head := Head(s);
    var r := OpenGoal(head.vault, a.sender, a.params, a.feePaid, head.now);
    if r.Ok? {
      OpenGoalLater(head.vault, a.sender, a.params, a.feePaid, head.now);
      OpenKeepsGoals(head.vault, a.sender, a.params, a.feePaid, head.now);
      assert NoneReclaimed(head.vault, r.value);
      VaultActionKeepsInv(h, d, s, r.value);
    }
  }

  lemma CloseKeepsInv(h: Hasher, d: Deployment, s: System, a: Action)
    requires Inv(h, d, s) && a.Close?
    ensures Inv(h, d, Step(h, d, s, a))
  {
    hide VaultInv, Later, SignedOk, LogOk, Exclusive;
    var head := Head(s);
    var r := CloseGoal(head.vault, a.sender, a.goalId);
    if r.Ok? {
      CloseGoalLater(head.vault, a.sender, a.goalId);
      CloseKeepsGoals(head.vault, a.sender, a.goalId);
      assert NoneReclaimed(head.vault, r.value);
      VaultActionKeepsInv(h, d, s, r.value);
    }
  }

  lemma RequestKeepsInv(h: Hasher, d: Deployment, s: System, a: Action)
    requires Inv(h, d, s) && a.Request?
    ensures Inv(h, d, Step(h, d, s, a))
  {
    hide VaultInv, Later, SignedOk, LogOk, Exclusive, TermsBytes;
    var head := Head(s);
    var r := RequestSpend(h, head.vault, a.sender, a.goalId, a.amount, a.payTo, a.resource, a.payBy, head.now);
    if r.Ok? {
      RequestSpendLater(h, head.vault, a.sender, a.goalId, a.amount, a.payTo, a.resource, a.payBy, head.now);
      RequestKeepsGoal(h, head.vault, a.sender, a.goalId, a.amount, a.payTo, a.resource, a.payBy, head.now);
      assert NoneReclaimed(head.vault, r.value);
      VaultActionKeepsInv(h, d, s, r.value);
    }
  }

  lemma DecideKeepsInv(h: Hasher, d: Deployment, s: System, a: Action)
    requires Inv(h, d, s) && a.Decide?
    ensures Inv(h, d, Step(h, d, s, a))
  {
    hide VaultInv, Later, SignedOk, LogOk, Exclusive;
    var head := Head(s);
    var r := Finalize(head.vault, a.goalId, a.spendSeq, a.approved, a.genuine);
    if r.Ok? {
      FinalizeLater(head.vault, a.goalId, a.spendSeq, a.approved, a.genuine);
      FinalizeKeepsGoal(head.vault, a.goalId, a.spendSeq, a.approved, a.genuine);
      assert NoneReclaimed(head.vault, r.value);
      VaultActionKeepsInv(h, d, s, r.value);
    }
  }

  /** A paid spend's nonce is used, so the vault refuses to reclaim it. */
  lemma PaidIsUsed(h: Hasher, d: Deployment, s: System, goalId: nat, spendSeq: nat)
    requires Inv(h, d, s) && Paid(s.log, goalId, spendSeq)
    ensures ApprovedAt(d.config, Head(s).vault, goalId, spendSeq)
    ensures AuthorizationState(Head(s).token, GoalAt(Head(s).vault, goalId).payer, SpendNonce(h, goalId, spendSeq))
  {
    var i :| 0 <= i < |s.log| && s.log[i].origin == ForSpend(goalId, spendSeq);
    assert SignedOk(h, d, Head(s).vault, s.log[i]);
  }

  lemma ReclaimKeepsInv(h: Hasher, d: Deployment, s: System, a: Action)
    requires Inv(h, d, s) && a.Reclaim?
    ensures Inv(h, d, Step(h, d, s, a))
  {
    hide VaultInv, Later, SignedOk, LogOk, SpendNonce;
    var head := Head(s);
    var used := NonceUsed(h, d, head, a.goalId, a.spendSeq, a.foreignUsed);
    var r := ReclaimExpired(head.vault, a.goalId, a.spendSeq, used, head.now);
    if r.Ok? {
      ReclaimLater(head.vault, a.goalId, a.spendSeq, used, head.now);
      ReclaimKeepsGoal(head.vault, a.goalId, a.spendSeq, used, head.now);
      var next := head.(vault := r.value);
      AdvanceKeepsHistory(h, d, s, next);
      forall goalId, spendSeq | Reclaimed(r.value, goalId, spendSeq)
        ensures SpendAt(GoalAt(r.value, goalId), spendSeq).validBefore <= next.now && !Paid(s.log, goalId, spendSeq)
      {
        if goalId == a.goalId && spendSeq == a.spendSeq {
          if Paid(s.log, goalId, spendSeq) { PaidIsUsed(h, d, s, goalId, spendSeq); }
        } else {
          assert Reclaimed(head.vault, goalId, spendSeq);
        }
      }
      assert LogOk(Advance(s, next)) by { LogOkAdvance(s, next); }
    }
  }

  lemma LogOkAdvance(s: System, next: Snapshot)
    requires s.past != [] && LogOk(s) && Head(s).token.used <= next.token.used
    ensures LogOk(Advance(s, next))
  {
  }

  lemma SignatureKeepsInv(h: Hasher, d: Deployment, s: System, a: Authorized)
    requires Inv(h, d, s) && SignedOk(h, d, Head(s).vault, a)
    ensures Inv(h, d, s.(signed := s.signed + {a}))
  {
    hide VaultInv, Later, SignedOk, Exclusive;
  }

  lemma AtIsBefore(h: Hasher, d: Deployment, s: System, i: nat)
    requires Inv(h, d, s)
    ensures Before(At(s, i), Head(s))
  {
    hide VaultInv, Later, SignedOk, Exclusive, LogOk;
    LaterItself(Head(s).vault);
  }

  /** `sign` under stale, torn reads only ever signs what the head froze. */
  lemma SignKeepsInv(h: Hasher, d: Deployment, s: System, a: Action)
    requires Inv(h, d, s) && a.AskSign?
    ensures Inv(h, d, Step(h, d, s, a))
  {
    hide VaultInv, Later, Sign, ReadSpend, FrozenMessage, LogOk, Exclusive;
    var o := SignAt(h, d, s, a);
    if o.Issued? {
      AtIsBefore(h, d, s, a.views.goal);
      AtIsBefore(h, d, s, a.views.authorization);
      AtIsBefore(h, d, s, a.views.window);
      AtIsBefore(h, d, s, a.views.termsHash);
      AtIsBefore(h, d, s, a.views.finalized);
      AtIsBefore(h, d, s, a.views.approved);
      var head := Head(s).vault;
      var at := At(s, a.views.goal).vault;
      var seen := SpendReads(At(s, a.views.authorization).vault, At(s, a.views.window).vault,
                             At(s, a.views.termsHash).vault,
                             At(s, a.views.finalized).vault, At(s, a.views.approved).vault);
      var goal := ReadGoal(at, a.goalId);
      var key := a.hasKey && goal.Some? && goal.value.payer in d.held;
      SignedIsFrozen(h, d.config, a.goalId, a.spendSeq, a.chainId, at, seen, head, a.clock, key, a.domainMatches);
      IssuedNeedsKey(h, d.config, a.goalId, a.spendSeq, a.chainId, goal, ReadSpend(h, seen, a.goalId, a.spendSeq),
          a.clock, key, a.domainMatches);
      SamePayer(at, head, a.goalId);
      SignatureKeepsInv(h, d, s, Authorized(o.message, ForSpend(a.goalId, a.spendSeq)));
    }
  }

  lemma IssuedNeedsKey(h: Hasher, c: Config, goalId: nat, spendSeq: nat, chainId: nat, goal: Option<GoalRecord>,
                       spend: Option<SpendRecord>, now: nat, hasKey: bool, domainMatches: bool)
    requires Sign(h, c, goalId, spendSeq, chainId, goal, spend, now, hasKey, domainMatches).Issued?
    ensures hasKey
  {
  }

  lemma SamePayer(at: State, head: State, goalId: nat)
    requires Later(at, head) && HasGoal(at, goalId)
    ensures HasGoal(head, goalId) && GoalAt(head, goalId).payer == GoalAt(at, goalId).payer
  {
    assert LaterGoal(at.goals[goalId - 1], head.goals[goalId - 1]);
  }

  lemma SweepKeepsInv(h: Hasher, d: Deployment, s: System, a: Action)
    requires Inv(h, d, s) && a.AskSweep?
    ensures Inv(h, d, Step(h, d, s, a))
  {
    hide VaultInv, Later, SweepNonce, LogOk, Exclusive;
    var o := SweepAt(h, d, s, a);
    if o.Issued? {
      AtIsBefore(h, d, s, a.goalView);
      var at := At(s, a.goalView).vault;
      var goal := ReadGoal(at, a.goalId);
      var balance := BalanceOf(At(s, a.balanceView).token, goal.value.payer);
      SweepPaysTheOwner(h, d.config, a.goalId, a.chainId, at, Head(s).vault, balance, a.clock,
                        a.hasKey && goal.value.payer in d.held, a.domainMatches);
      SamePayer(at, Head(s).vault, a.goalId);
      SignatureKeepsInv(h, d, s, Authorized(o.message, ForSweep(a.goalId)));
    }
  }

  lemma PaidAppended(log: seq<Authorized>, x: Authorized, goalId: nat, spendSeq: nat)
    ensures Paid(log + [x], goalId, spendSeq) <==> Paid(log, goalId, spendSeq) || x.origin == ForSpend(goalId, spendSeq)
  {
    if Paid(log, goalId, spendSeq) {
      var i :| 0 <= i < |log| && log[i].origin == ForSpend(goalId, spendSeq);
      assert (log + [x])[i] == log[i];
    }
    assert (log + [x])[|log|] == x;
  }

  /** The token takes an authorization only inside its window and only once. */
  lemma SubmitKeepsInv(h: Hasher, d: Deployment, s: System, a: Action)
    requires Inv(h, d, s) && a.Submit?
    ensures Inv(h, d, Step(h, d, s, a))
  {
    hide VaultInv, Later, SpendNonce, Move, ApprovedAt;
    var head := Head(s);
    var x := a.authorized;
    var r := TransferWithAuthorization(head.token, x.message, x in s.signed, head.now);
    if r.Ok? {
      var next := head.(token := r.value);
      LaterItself(head.vault);
      AdvanceKeepsHistory(h, d, s, next);
      var t := Advance(s, next).(log := s.log + [x]);
      assert SignedOk(h, d, head.vault, x);
      assert LogOk(t) by {
        forall i, j | 0 <= i < j < |t.log|
          ensures !SameNonce(t.log[i], t.log[j])
        {
          if j == |s.log| { assert (s.log[i].message.from, s.log[i].message.nonce) in head.token.used; }
        }
      }
      forall goalId, spendSeq | Reclaimed(head.vault, goalId, spendSeq)
        ensures !Paid(t.log, goalId, spendSeq)
      {
        PaidAppended(s.log, x, goalId, spendSeq);
        assert x.origin != ForSpend(goalId, spendSeq);
      }
      assert HistoryOk(t);
    }
  }

  lemma QuietKeepsInv(h: Hasher, d: Deployment, s: System, next: Snapshot)
    requires Inv(h, d, s) && next.vault == Head(s).vault && next.token.used == Head(s).token.used
             && next.now >= Head(s).now
    ensures Inv(h, d, Advance(s, next))
  {
    hide VaultInv, Later, SignedOk, Reclaimed;
    LaterItself(next.vault);
    AdvanceKeepsHistory(h, d, s, next);
  }

  lemma StepKeepsInv(h: Hasher, d: Deployment, s: System, a: Action)
    requires Inv(h, d, s)
    ensures Inv(h, d, Step(h, d, s, a))
  {
    hide VaultInv, Later, SignedOk, LogOk, Exclusive, SignAt, SweepAt, OpenGoal, CloseGoal, RequestSpend, Finalize,
         ReclaimExpired, TransferWithAuthorization, NonceUsed, Before;
    match a {
      case Open(_, _, _) => OpenKeepsInv(h, d, s, a);
      case Close(_, _) => CloseKeepsInv(h, d, s, a);
      case Request(_, _, _, _, _, _) => RequestKeepsInv(h, d, s, a);
      case Decide(_, _, _, _) => DecideKeepsInv(h, d, s, a);
      case Reclaim(_, _, _) => ReclaimKeepsInv(h, d, s, a);
      case AskSign(_, _, _, _, _, _, _) => SignKeepsInv(h, d, s, a);
      case AskSweep(_, _, _, _, _, _, _) => SweepKeepsInv(h, d, s, a);
      case ForeignSign(m) => if m.from !in d.held { ForeignKeepsInv(h, d, s, m); }
      case Submit(_) => SubmitKeepsInv(h, d, s, a);
      case Deposit(to, value) =>
        var t := Head(s).token;
        QuietKeepsInv(h, d, s, Head(s).(token := t.(balances := t.balances[to := BalanceOf(t, to) + value])));
      case PlainTransfer(from, to, value) =>
        if from !in d.held && BalanceOf(Head(s).token, from) >= value {
          QuietKeepsInv(h, d, s, Head(s).(token := Move(Head(s).token, from, to, value)));
        }
      case Tick(seconds) => QuietKeepsInv(h, d, s, Head(s).(now := Head(s).now + seconds));
    }
  }

  lemma ForeignKeepsInv(h: Hasher, d: Deployment, s: System, m: Message)
    requires Inv(h, d, s) && m.from !in d.held
    ensures Inv(h, d, s.(signed := s.signed + {Authorized(m, Foreign)}))
  {
    hide VaultInv, Later, LogOk, Exclusive;
    SignatureKeepsInv(h, d, s, Authorized(m, Foreign));
  }

  lemma StartInv(h: Hasher, d: Deployment)
    ensures Inv(h, d, Start())
  {
  }

  lemma {:induction false} RunFromKeepsInv(h: Hasher, d: Deployment, s: System, actions: seq<Action>)
    requires Inv(h, d, s)
    ensures Inv(h, d, RunFrom(h, d, s, actions))
  {
    hide Inv, Step;
    InvHead(h, d, s);
    if actions == [] {
    } else {
      RunFromKeepsInv(h, d, s, actions[..|actions| - 1]);
      StepKeepsInv(h, d, RunFrom(h, d, s, actions[..|actions| - 1]), actions[|actions| - 1]);
    }
  }

  /** Every reachable state, whatever anyone did to get there. */
  lemma RunInv(h: Hasher, d: Deployment, actions: seq<Action>)
    ensures Inv(h, d, Run(h, d, actions))
  {
    hide Inv, Step;
    StartInv(h, d);
    RunFromKeepsInv(h, d, Start(), actions);
  }
}
