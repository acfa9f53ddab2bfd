/**
 * What the budget and the cap leak (contracts/src/PolicyVault.sol:28-45).
 *
 * An attacker chooses every action, knows every public value, every decision as
 * soon as it is made, every signature, transfer and past state. The two values
 * Inco keeps encrypted are all that is hidden from it.
 */
module Secrecy {
  import opened Wrappers
  import opened Hashing
  import opened Vault
  import opened Token
  import opened Signer
  import opened Protocol
  import opened Guarantees

  /** What the owner encrypts. */
  datatype Limits = Limits(budget: U256, cap: U256)

  // ------------------------------------------------------------------ views

  function Covered(g: Goal): Goal {
    g.(budget := 0, cap := 0, opening := g.opening.(budget := 0))
  }

  function Public(v: State, goalId: nat): State {
    if HasGoal(v, goalId) then WithGoal(v, goalId, Covered(GoalAt(v, goalId))) else v
  }

  function PublicAt(at: Snapshot, goalId: nat): Snapshot {
    at.(vault := Public(at.vault, goalId))
  }

  /** The system with this goal's budget and cap erased, in the head and in every past state. */
  function View(s: System, goalId: nat): System {
    s.(past := seq(|s.past|, i requires 0 <= i < |s.past| => PublicAt(s.past[i], goalId)))
  }

  /** The goal's decisions, in order. */
  function Decisions(v: State, goalId: nat): seq<bool> {
    if !HasGoal(v, goalId) then [] else
      var spends := GoalAt(v, goalId).spends;
      seq(|spends|, i requires 0 <= i < |spends| => spends[i].decision)
  }

  /** An attacker's next action, from all the views it has had. */
  type Strategy = seq<System> -> Action

  /** The first `n` actions of the attacker from `s`. */
  function Moves(h: Hasher, d: Deployment, s: System, goalId: nat, next: Strategy, n: nat): seq<Action>
    requires s.past != []
    decreases n, 0
  {
    if n == 0 then [] else Moves(h, d, s, goalId, next, n - 1) + [next(Seen(h, d, s, goalId, next, n - 1))]
  }

  /** Everything the attacker has seen by then. */
  function Seen(h: Hasher, d: Deployment, s: System, goalId: nat, next: Strategy, n: nat): seq<System>
    requires s.past != []
    decreases n, 1
  {
    if n == 0 then [View(s, goalId)]
    else Seen(h, d, s, goalId, next, n - 1) + [View(RunFrom(h, d, s, Moves(h, d, s, goalId, next, n)), goalId)]
  }

  // --------------------------------------------------------- what one step tells

  predicate SameView(v: State, w: State, goalId: nat) {
    HasGoal(v, goalId) && HasGoal(w, goalId) && Public(v, goalId) == Public(w, goalId)
  }

  /** Equal outside the goal, and inside it but for the two limits. */
  lemma SameViewGoals(v: State, w: State, goalId: nat)
    requires SameView(v, w, goalId)
    ensures HasGoal(v, goalId) && |v.goals| == |w.goals| && v.payerGoal == w.payerGoal
    ensures Covered(GoalAt(v, goalId)) == Covered(GoalAt(w, goalId))
    ensures forall i :: 0 <= i < |v.goals| && i != goalId - 1 ==> v.goals[i] == w.goals[i]
  {
    var p, q := Public(v, goalId), Public(w, goalId);
    assert p.goals[goalId - 1] == q.goals[goalId - 1];
    forall i | 0 <= i < |v.goals| && i != goalId - 1
      ensures v.goals[i] == w.goals[i]
    {
      assert p.goals[i] == q.goals[i];
    }
  }

  lemma SameGoalsView(v: State, w: State, goalId: nat)
    requires HasGoal(v, goalId) && |v.goals| == |w.goals| && v.payerGoal == w.payerGoal
    requires Covered(GoalAt(v, goalId)) == Covered(GoalAt(w, goalId))
    requires forall i :: 0 <= i < |v.goals| && i != goalId - 1 ==> v.goals[i] == w.goals[i]
    ensures SameView(v, w, goalId)
  {
    var p, q := Public(v, goalId), Public(w, goalId);
    assert p.goals == q.goals;
  }

  /** The same refusal, or results that look the same once their decisions do. */
  predicate TellsOnly(a: Result<State, VaultError>, b: Result<State, VaultError>, goalId: nat) {
    match a
    case Err(_) => b == a
    case Ok(v) =>
      && b.Ok? && |Decisions(v, goalId)| == |Decisions(b.value, goalId)|
      && (Decisions(v, goalId) == Decisions(b.value, goalId) ==> SameView(v, b.value, goalId))
  }

  lemma OpenTells(v: State, w: State, goalId: nat, sender: Address, p: OpenGoalParams, feePaid: bool, now: nat)
    requires SameView(v, w, goalId)
    ensures TellsOnly(OpenGoal(v, sender, p, feePaid, now), OpenGoal(w, sender, p, feePaid, now), goalId)
  {
    hide Public, SameView;
    SameViewGoals(v, w, goalId);
    var a, b := OpenGoal(v, sender, p, feePaid, now), OpenGoal(w, sender, p, feePaid, now);
    if a.Ok? {
      SameGoalsView(a.value, b.value, goalId);
    }
  }

  lemma CloseTells(v: State, w: State, goalId: nat, sender: Address, id: nat)
    requires SameView(v, w, goalId)
    ensures TellsOnly(CloseGoal(v, sender, id), CloseGoal(w, sender, id), goalId)
  {
    hide Public, SameView;
    SameViewGoals(v, w, goalId);
    var a, b := CloseGoal(v, sender, id), CloseGoal(w, sender, id);
    if a.Ok? {
      SameGoalsView(a.value, b.value, goalId);
    }
  }

  /** A commit is refused by nothing hidden; what it tells is its decision. */
  lemma RequestTells(h: Hasher, v: State, w: State, goalId: nat, sender: Address, id: nat, amount: U256,
                     payTo: Address, resource: Bytes, payBy: U64, now: nat)
    requires SameView(v, w, goalId)
    ensures TellsOnly(RequestSpend(h, v, sender, id, amount, payTo, resource, payBy, now),
                      RequestSpend(h, w, sender, id, amount, payTo, resource, payBy, now), goalId)
  {
    hide Public, SameView, TermsBytes, Affordable, Min;
    SameViewGoals(v, w, goalId);
    var a := RequestSpend(h, v, sender, id, amount, payTo, resource, payBy, now);
    var b := RequestSpend(h, w, sender, id, amount, payTo, resource, payBy, now);
    if a.Ok? && Decisions(a.value, goalId) == Decisions(b.value, goalId) {
      if id == goalId {
        var k := |GoalAt(v, goalId).spends|;
        assert Decisions(a.value, goalId)[k] == Decisions(b.value, goalId)[k];
      }
      SameGoalsView(a.value, b.value, goalId);
    }
  }

  lemma FinalizeTells(v: State, w: State, goalId: nat, id: nat, spendSeq: nat, approved: bool, genuine: bool)
    requires SameView(v, w, goalId)
    ensures TellsOnly(Finalize(v, id, spendSeq, approved, genuine), Finalize(w, id, spendSeq, approved, genuine),
                      goalId)
  {
    hide Public, SameView;
    SameViewGoals(v, w, goalId);
    var a, b := Finalize(v, id, spendSeq, approved, genuine), Finalize(w, id, spendSeq, approved, genuine);
    if a.Ok? {
      SameGoalsView(a.value, b.value, goalId);
    }
  }

  lemma ReclaimTells(v: State, w: State, goalId: nat, id: nat, spendSeq: nat, used: bool, now: nat)
    requires SameView(v, w, goalId)
    ensures TellsOnly(ReclaimExpired(v, id, spendSeq, used, now), ReclaimExpired(w, id, spendSeq, used, now), goalId)
  {
    hide Public, SameView;
    SameViewGoals(v, w, goalId);
    var a, b := ReclaimExpired(v, id, spendSeq, used, now), ReclaimExpired(w, id, spendSeq, used, now);
    if a.Ok? {
      SameGoalsView(a.value, b.value, goalId);
    }
  }

  // ------------------------------------------------------- what an action tells

  lemma SameReads(v: State, w: State, goalId: nat, id: nat, spendSeq: nat)
    requires Public(v, goalId) == Public(w, goalId)
    ensures ReadGoal(v, id) == ReadGoal(w, id) && StoredSpend(v, id, spendSeq) == StoredSpend(w, id, spendSeq)
    ensures StoredSpend(v, id, spendSeq).Some? ==>
              GoalAt(v, id).payer == GoalAt(w, id).payer && GoalAt(v, id).asset == GoalAt(w, id).asset
  {
    var p, q := Public(v, goalId), Public(w, goalId);
    assert |p.goals| == |v.goals| == |w.goals|;
    if HasGoal(v, id) { assert p.goals[id - 1] == q.goals[id - 1]; }
  }

  /** A node that lags behind shows the same in both. */
  lemma SameAt(s: System, t: System, goalId: nat, i: nat)
    requires s.past != [] && t.past != [] && View(s, goalId) == View(t, goalId)
    ensures |s.past| == |t.past| && PublicAt(At(s, i), goalId) == PublicAt(At(t, i), goalId)
    ensures PublicAt(Head(s), goalId) == PublicAt(Head(t), goalId)
  {
    hide Public;
    var p, q := View(s, goalId).past, View(t, goalId).past;
    assert |p| == |s.past| == |t.past|;
    assert p[|p| - 1] == q[|p| - 1];
    if i < |p| { assert p[i] == q[i]; }
  }

  lemma ViewAdvance(s: System, next: Snapshot, goalId: nat)
    ensures View(Advance(s, next), goalId) == Advance(View(s, goalId), PublicAt(next, goalId))
  {
    hide Public;
  }

  lemma ViewWith(s: System, signed: set<Authorized>, log: seq<Authorized>, goalId: nat)
    ensures View(s.(signed := signed, log := log), goalId) == View(s, goalId).(signed := signed, log := log)
  {
    hide PublicAt;
    assert View(s.(signed := signed, log := log), goalId).past == View(s, goalId).past;
  }

  /** Equally many decisions, and equal views once the decisions are equal. */
  predicate Alike(s: System, t: System, goalId: nat)
    requires s.past != [] && t.past != []
  {
    && |Decisions(Head(s).vault, goalId)| == |Decisions(Head(t).vault, goalId)|
    && (Decisions(Head(s).vault, goalId) == Decisions(Head(t).vault, goalId) ==> View(s, goalId) == View(t, goalId))
  }

  lemma SameDecisions(v: State, w: State, goalId: nat)
    requires Public(v, goalId) == Public(w, goalId)
    ensures Decisions(v, goalId) == Decisions(w, goalId)
  {
    var p, q := Public(v, goalId), Public(w, goalId);
    assert |p.goals| == |v.goals| == |w.goals|;
    if HasGoal(v, goalId) { assert p.goals[goalId - 1] == q.goals[goalId - 1]; }
  }

  lemma VaultTells(s: System, t: System, goalId: nat, a: Result<State, VaultError>, b: Result<State, VaultError>)
    requires s.past != [] && t.past != [] && View(s, goalId) == View(t, goalId) && TellsOnly(a, b, goalId)
    ensures Alike(WithVault(s, a), WithVault(t, b), goalId)
  {
    hide Public, Decisions, View;
    SameAt(s, t, goalId, 0);
    if a.Ok? {
      ViewAdvance(s, Head(s).(vault := a.value), goalId);
      ViewAdvance(t, Head(t).(vault := b.value), goalId);
    } else {
      SameDecisions(Head(s).vault, Head(t).vault, goalId);
    }
  }

  /** A block that leaves the vault alone. */
  lemma QuietTells(s: System, t: System, goalId: nat, token: Ledger, now: nat)
    requires s.past != [] && t.past != [] && View(s, goalId) == View(t, goalId)
    ensures var s', t' := Advance(s, Head(s).(token := token, now := now)),
                          Advance(t, Head(t).(token := token, now := now));
            && Decisions(Head(s').vault, goalId) == Decisions(Head(t').vault, goalId)
            && View(s', goalId) == View(t', goalId)
  {
    hide Public, Decisions, View;
    SameAt(s, t, goalId, 0);
    ViewAdvance(s, Head(s).(token := token, now := now), goalId);
    ViewAdvance(t, Head(t).(token := token, now := now), goalId);
    SameDecisions(Head(s).vault, Head(t).vault, goalId);
  }

  /** The signer reads nothing hidden. */
  lemma SignTells(h: Hasher, d: Deployment, s: System, t: System, goalId: nat, a: Action)
    requires s.past != [] && t.past != [] && View(s, goalId) == View(t, goalId) && a.AskSign?
    ensures SignAt(h, d, s, a) == SignAt(h, d, t, a)
  {
    hide View, Public, At, Sign, StoredSpend, ReadGoal, SpendNonce;
    SameRead(s, t, goalId, a.views.goal, a.goalId, a.spendSeq);
    SameRead(s, t, goalId, a.views.authorization, a.goalId, a.spendSeq);
    SameRead(s, t, goalId, a.views.window, a.goalId, a.spendSeq);
    SameRead(s, t, goalId, a.views.termsHash, a.goalId, a.spendSeq);
    SameRead(s, t, goalId, a.views.finalized, a.goalId, a.spendSeq);
    SameRead(s, t, goalId, a.views.approved, a.goalId, a.spendSeq);
  }

  lemma SameRead(s: System, t: System, goalId: nat, i: nat, id: nat, spendSeq: nat)
    requires s.past != [] && t.past != [] && View(s, goalId) == View(t, goalId)
    ensures var v, w := At(s, i).vault, At(t, i).vault;
            && ReadGoal(v, id) == ReadGoal(w, id) && StoredSpend(v, id, spendSeq) == StoredSpend(w, id, spendSeq)
            && (StoredSpend(v, id, spendSeq).Some? ==>
                  HasGoal(v, id) && HasGoal(w, id) && GoalAt(v, id).payer == GoalAt(w, id).payer
                  && GoalAt(v, id).asset == GoalAt(w, id).asset)
  {
    hide View, Public, At, ReadGoal;
    SameAt(s, t, goalId, i);
    SameReads(At(s, i).vault, At(t, i).vault, goalId, id, spendSeq);
  }

  lemma SweepTells(h: Hasher, d: Deployment, s: System, t: System, goalId: nat, a: Action)
    requires s.past != [] && t.past != [] && View(s, goalId) == View(t, goalId) && a.AskSweep?
    ensures SweepAt(h, d, s, a) == SweepAt(h, d, t, a)
  {
    hide View, Public, Sweep, StoredSpend, ReadGoal;
    SameAt(s, t, goalId, a.goalView);
    SameAt(s, t, goalId, a.balanceView);
    SameReads(At(s, a.goalView).vault, At(t, a.goalView).vault, goalId, a.goalId, 0);
  }

  lemma SignatureTells(s: System, t: System, goalId: nat, o: Outcome, origin: Origin)
    requires s.past != [] && t.past != [] && View(s, goalId) == View(t, goalId)
    ensures Alike(WithSignature(s, o, origin), WithSignature(t, o, origin), goalId)
  {
    hide Public, Decisions, PublicAt;
    SameStart(s, t, goalId);
    ViewWith(s, WithSignature(s, o, origin).signed, s.log, goalId);
    ViewWith(t, WithSignature(t, o, origin).signed, t.log, goalId);
    assert View(s, goalId).signed == s.signed && View(t, goalId).signed == t.signed;
  }

  lemma NonceTells(h: Hasher, d: Deployment, s: System, t: System, goalId: nat, a: Action)
    requires s.past != [] && t.past != [] && View(s, goalId) == View(t, goalId) && a.Reclaim?
    ensures NonceUsed(h, d, Head(s), a.goalId, a.spendSeq, a.foreignUsed)
         == NonceUsed(h, d, Head(t), a.goalId, a.spendSeq, a.foreignUsed)
  {
    hide View, SpendNonce;
    SameAt(s, t, goalId, 0);
    var p, q := Public(Head(s).vault, goalId), Public(Head(t).vault, goalId);
    assert |p.goals| == |Head(s).vault.goals| == |Head(t).vault.goals|;
    if HasGoal(p, a.goalId) { assert p.goals[a.goalId - 1] == q.goals[a.goalId - 1]; }
  }

  /** One action on two systems that look the same: at most its decision tells them apart. */
  lemma StepTells(h: Hasher, d: Deployment, s: System, t: System, goalId: nat, a: Action)
    requires s.past != [] && t.past != [] && View(s, goalId) == View(t, goalId) && HasGoal(Head(s).vault, goalId)
    ensures Alike(Step(h, d, s, a), Step(h, d, t, a), goalId)
  {
    hide View, Alike, TellsOnly, Public, Decisions, SignAt, SweepAt, OpenGoal, CloseGoal, RequestSpend, Finalize,
        ReclaimExpired, TransferWithAuthorization, NonceUsed, Move;
    LooksSame(s, t, goalId);
    var v, w, now := Head(s).vault, Head(t).vault, Head(s).now;
    match a {
      case Open(sender, p, feePaid) =>
        OpenTells(v, w, goalId, sender, p, feePaid, now);
        VaultTells(s, t, goalId, OpenGoal(v, sender, p, feePaid, now), OpenGoal(w, sender, p, feePaid, now));
      case Close(sender, id) =>
        CloseTells(v, w, goalId, sender, id);
        VaultTells(s, t, goalId, CloseGoal(v, sender, id), CloseGoal(w, sender, id));
      case Request(sender, id, amount, payTo, resource, payBy) =>
        RequestTells(h, v, w, goalId, sender, id, amount, payTo, resource, payBy, now);
        VaultTells(s, t, goalId, RequestSpend(h, v, sender, id, amount, payTo, resource, payBy, now),
            RequestSpend(h, w, sender, id, amount, payTo, resource, payBy, now));
      case Decide(id, q, approved, genuine) =>
        FinalizeTells(v, w, goalId, id, q, approved, genuine);
        VaultTells(s, t, goalId, Finalize(v, id, q, approved, genuine), Finalize(w, id, q, approved, genuine));
      case Reclaim(id, q, foreignUsed) =>
        NonceTells(h, d, s, t, goalId, a);
        var used := NonceUsed(h, d, Head(s), id, q, foreignUsed);
        ReclaimTells(v, w, goalId, id, q, used, now);
        VaultTells(s, t, goalId, ReclaimExpired(v, id, q, used, now), ReclaimExpired(w, id, q, used, now));
      case AskSign(id, q, _, _, _, _, _) =>
        SignTells(h, d, s, t, goalId, a);
        SignatureTells(s, t, goalId, SignAt(h, d, s, a), ForSpend(id, q));
      case AskSweep(id, _, _, _, _, _, _) =>
        SweepTells(h, d, s, t, goalId, a);
        SignatureTells(s, t, goalId, SweepAt(h, d, s, a), ForSweep(id));
      case _ =>
        TokenTells(h, d, s, t, goalId, a);
    }
  }

  lemma LooksSame(s: System, t: System, goalId: nat)
    requires s.past != [] && t.past != [] && View(s, goalId) == View(t, goalId) && HasGoal(Head(s).vault, goalId)
    ensures s.signed == t.signed && s.log == t.log && Head(s).token == Head(t).token && Head(s).now == Head(t).now
    ensures SameView(Head(s).vault, Head(t).vault, goalId)
  {
    SameAt(s, t, goalId, 0);
    var p, q := Public(Head(s).vault, goalId), Public(Head(t).vault, goalId);
    assert |p.goals| == |Head(s).vault.goals| == |Head(t).vault.goals|;
    assert View(s, goalId).signed == s.signed && View(s, goalId).log == s.log;
  }

  /** The actions that no vault sees. */
  lemma TokenTells(h: Hasher, d: Deployment, s: System, t: System, goalId: nat, a: Action)
    requires s.past != [] && t.past != [] && View(s, goalId) == View(t, goalId) && HasGoal(Head(s).vault, goalId)
    requires a.ForeignSign? || a.Submit? || a.Deposit? || a.PlainTransfer? || a.Tick?
    ensures Alike(Step(h, d, s, a), Step(h, d, t, a), goalId)
  {
    hide Public, View, Decisions, TransferWithAuthorization, Move, SameView, BalanceOf;
    LooksSame(s, t, goalId);
    SameAt(s, t, goalId, 0);
    SameDecisions(Head(s).vault, Head(t).vault, goalId);
    var token, now := Head(s).token, Head(s).now;
    match a {
      case ForeignSign(m) =>
        var signed := s.signed + {Authorized(m, Foreign)};
        ViewWith(s, signed, s.log, goalId);
        ViewWith(t, signed, t.log, goalId);
      case Submit(x) =>
        var r := TransferWithAuthorization(token, x.message, x in s.signed, now);
        if r.Ok? {
          QuietTells(s, t, goalId, r.value, now);
          ViewWith(Advance(s, Head(s).(token := r.value)), s.signed, s.log + [x], goalId);
          ViewWith(Advance(t, Head(t).(token := r.value)), t.signed, t.log + [x], goalId);
        }
      case Deposit(to, amount) =>
        QuietTells(s, t, goalId, token.(balances := token.balances[to := BalanceOf(token, to) + amount]), now);
      case PlainTransfer(from, to, amount) =>
        if BalanceOf(token, from) >= amount { QuietTells(s, t, goalId, Move(token, from, to, amount), now); }
      case Tick(seconds) =>
        QuietTells(s, t, goalId, token, now + seconds);
    }
  }

  // ---------------------------------------------------------- what a run tells

  function After(h: Hasher, d: Deployment, s: System, goalId: nat, next: Strategy, n: nat): (t: System)
    requires s.past != []
    ensures t.past != []
  {
    RunFrom(h, d, s, Moves(h, d, s, goalId, next, n))
  }

  lemma NothingDone(h: Hasher, d: Deployment, s: System, goalId: nat, next: Strategy)
    requires s.past != []
    ensures After(h, d, s, goalId, next, 0) == s
  {
  }

  lemma AfterStep(h: Hasher, d: Deployment, s: System, goalId: nat, next: Strategy, n: nat)
    requires s.past != [] && n > 0
    ensures After(h, d, s, goalId, next, n)
         == Step(h, d, After(h, d, s, goalId, next, n - 1), next(Seen(h, d, s, goalId, next, n - 1)))
  {
    hide Step;
    var moves, a := Moves(h, d, s, goalId, next, n - 1), next(Seen(h, d, s, goalId, next, n - 1));
    assert Moves(h, d, s, goalId, next, n) == moves + [a];
    assert (moves + [a])[..|moves|] == moves;
  }

  lemma {:induction false} SeenAll(h: Hasher, d: Deployment, s: System, goalId: nat, next: Strategy, n: nat)
    requires s.past != []
    ensures |Moves(h, d, s, goalId, next, n)| == n
    ensures Seen(h, d, s, goalId, next, n) != []
    ensures var seen := Seen(h, d, s, goalId, next, n);
            seen[|seen| - 1] == View(After(h, d, s, goalId, next, n), goalId)
  {
    if n == 0 {
    } else {
      SeenAll(h, d, s, goalId, next, n - 1);
    }
  }

  /** The decisions a state has, it keeps. */
  lemma DecisionsGrow(v: State, w: State, goalId: nat)
    requires Later(v, w)
    ensures Decisions(v, goalId) <= Decisions(w, goalId)
  {
    if HasGoal(v, goalId) {
      assert LaterGoal(v.goals[goalId - 1], w.goals[goalId - 1]);
    }
  }

  lemma AfterIsLater(h: Hasher, d: Deployment, s: System, goalId: nat, next: Strategy, n: nat)
    requires Inv(h, d, s) && HasGoal(Head(s).vault, goalId)
    ensures Inv(h, d, After(h, d, s, goalId, next, n))
    ensures Later(Head(s).vault, Head(After(h, d, s, goalId, next, n)).vault)
    ensures HasGoal(Head(After(h, d, s, goalId, next, n)).vault, goalId)
  {
    hide RunFrom, Inv, Later;
    InvHead(h, d, s);
    RunFromKeepsInv(h, d, s, Moves(h, d, s, goalId, next, n));
    RunFromIsLater(h, d, s, Moves(h, d, s, goalId, next, n));
    LaterHasGoal(Head(s).vault, Head(After(h, d, s, goalId, next, n)).vault, goalId);
  }

  lemma LaterHasGoal(v: State, w: State, goalId: nat)
    requires Later(v, w) && HasGoal(v, goalId)
    ensures HasGoal(w, goalId) && GoalAt(w, goalId).opening == GoalAt(v, goalId).opening
  {
    assert LaterGoal(v.goals[goalId - 1], w.goals[goalId - 1]);
  }

  /** The decisions made by then. */
  function Told(h: Hasher, d: Deployment, s: System, goalId: nat, next: Strategy, n: nat): seq<bool>
    requires s.past != []
  {
    Decisions(Head(After(h, d, s, goalId, next, n)).vault, goalId)
  }

  lemma ToldGrows(h: Hasher, d: Deployment, s: System, goalId: nat, next: Strategy, n: nat)
    requires Inv(h, d, s) && HasGoal(Head(s).vault, goalId) && n > 0
    ensures Told(h, d, s, goalId, next, n - 1) <= Told(h, d, s, goalId, next, n)
  {
    hide Inv, After, Step, Decisions, RunFrom, Before;
    InvHead(h, d, s);
    AfterIsLater(h, d, s, goalId, next, n - 1);
    AfterStep(h, d, s, goalId, next, n);
    var t, a := After(h, d, s, goalId, next, n - 1), next(Seen(h, d, s, goalId, next, n - 1));
    StepIsLater(h, d, t, a);
    DecisionsGrow(Head(t).vault, Head(Step(h, d, t, a)).vault, goalId);
  }

  lemma StepIsLater(h: Hasher, d: Deployment, s: System, a: Action)
    requires Inv(h, d, s)
    ensures Later(Head(s).vault, Head(Step(h, d, s, a)).vault)
  {
    hide Step, Inv, Later;
    RunFromIsLater(h, d, s, [a]);
    assert RunFrom(h, d, s, [a]) == Step(h, d, s, a);
  }

  lemma SameStart(s: System, t: System, goalId: nat)
    requires s.past != [] && t.past != [] && View(s, goalId) == View(t, goalId)
    ensures Decisions(Head(s).vault, goalId) == Decisions(Head(t).vault, goalId)
  {
    SameAt(s, t, goalId, 0);
    SameDecisions(Head(s).vault, Head(t).vault, goalId);
  }

  predicate Comparable(a: seq<bool>, b: seq<bool>) {
    a <= b || b <= a
  }

  /**
   * The decisions are all an attacker learns. From two systems that differ in
   * nothing but the goal's budget and cap, an attacker has seen exactly the
   * same as long as no decision differed.
   */
  lemma {:induction false} DecisionsTellAll(h: Hasher, d: Deployment, s: System, t: System, goalId: nat,
                                            next: Strategy, n: nat)
    requires Inv(h, d, s) && Inv(h, d, t) && HasGoal(Head(s).vault, goalId) && HasGoal(Head(t).vault, goalId)
    requires View(s, goalId) == View(t, goalId)
    requires Comparable(Told(h, d, s, goalId, next, n), Told(h, d, t, goalId, next, n))
    ensures Seen(h, d, s, goalId, next, n) == Seen(h, d, t, goalId, next, n)
    ensures Told(h, d, s, goalId, next, n) == Told(h, d, t, goalId, next, n)
  {
    hide Inv, Step, View, RunFrom, Decisions, Later;
    InvHead(h, d, s);
    InvHead(h, d, t);
    if n == 0 {
      NothingDone(h, d, s, goalId, next);
      NothingDone(h, d, t, goalId, next);
      SameStart(s, t, goalId);
    } else {
      ToldGrows(h, d, s, goalId, next, n);
      ToldGrows(h, d, t, goalId, next, n);
      DecisionsTellAll(h, d, s, t, goalId, next, n - 1);
      AfterStep(h, d, s, goalId, next, n);
      AfterStep(h, d, t, goalId, next, n);
      AfterIsLater(h, d, s, goalId, next, n - 1);
      SeenAll(h, d, s, goalId, next, n - 1);
      SeenAll(h, d, t, goalId, next, n - 1);
      StepTells(h, d, After(h, d, s, goalId, next, n - 1), After(h, d, t, goalId, next, n - 1), goalId,
                next(Seen(h, d, s, goalId, next, n - 1)));
    }
  }

  // ------------------------------------------------------------ how many bits

  function Power2(n: nat): nat {
    if n == 0 then 1 else 2 * Power2(n - 1)
  }

  function Image<K, V>(keys: set<K>, f: K -> V): set<V> {
    set k | k in keys :: f(k)
  }

  /** All answers to `n` yes/no questions. */
  function Answers(n: nat): set<seq<bool>> {
    if n == 0 then {[]} else Image(Answers(n - 1), Yes) + Image(Answers(n - 1), No)
  }

  function Yes(b: seq<bool>): seq<bool> {
    b + [true]
  }

  function No(b: seq<bool>): seq<bool> {
    b + [false]
  }

  /** What is determined by a code takes no more values than the code. */
  lemma {:induction false} NoMoreThanCodes<K, V, B>(keys: set<K>, value: K -> V, code: K -> B, codes: set<B>)
    requires forall k :: k in keys ==> code(k) in codes
    requires forall k, l :: k in keys && l in keys && code(k) == code(l) ==> value(k) == value(l)
    ensures |Image(keys, value)| <= |codes|
  {
    if codes == {} {
      assert Image(keys, value) == {};
    } else {
      var c :| c in codes;
      var rest := set k | k in keys && code(k) != c;
      NoMoreThanCodes(rest, value, code, codes - {c});
      if k :| k in keys && code(k) == c {
        Larger(Image(keys, value), Image(rest, value) + {value(k)});
      } else {
        Larger(Image(keys, value), Image(rest, value));
      }
    }
  }

  lemma {:induction false} Larger<T>(a: set<T>, b: set<T>)
    requires a <= b
    ensures |a| <= |b|
  {
    if a == {} {
    } else {
      var x :| x in a;
      Larger(a - {x}, b - {x});
    }
  }

  lemma {:induction false} AnswersCount(n: nat)
    ensures |Answers(n)| <= Power2(n)
  {
    hide Image;
    if n == 0 {
    } else {
      AnswersCount(n - 1);
      NoMoreThanCodes(Answers(n - 1), Yes, (b: seq<bool>) => b, Answers(n - 1));
      NoMoreThanCodes(Answers(n - 1), No, (b: seq<bool>) => b, Answers(n - 1));
    }
  }

  /** Decisions, filled up with refusals. */
  function Filled(b: seq<bool>, n: nat): seq<bool> {
    b + seq(if |b| < n then n - |b| else 0, _ => false)
  }

  lemma {:induction false} AllAnswers(b: seq<bool>)
    ensures b in Answers(|b|)
  {
    if b == [] {
    } else {
      var k := |b| - 1;
      AllAnswers(b[..k]);
      assert b == if b[k] then Yes(b[..k]) else No(b[..k]);
    }
  }

  lemma FilledTells(a: seq<bool>, b: seq<bool>, n: nat)
    requires |a| <= n && |b| <= n && Filled(a, n) == Filled(b, n)
    ensures Comparable(a, b)
  {
    var whole := Filled(a, n);
    assert whole[..|a|] == a && whole[..|b|] == b;
  }

  /** The goal is opened with these limits; the rest of its parameters are public. */
  function OpenedWith(h: Hasher, d: Deployment, before: seq<Action>, sender: Address, p: OpenGoalParams,
                      limits: Limits): (s: System)
    ensures s.past != []
  {
    Run(h, d, before + [Open(sender, p.(budget := limits.budget, cap := limits.cap), true)])
  }

  function NewGoal(h: Hasher, d: Deployment, before: seq<Action>): nat {
    |Head(Run(h, d, before)).vault.goals| + 1
  }

  /** The limits an owner chooses show in nothing public. */
  lemma OpeningTellsNothing(h: Hasher, d: Deployment, before: seq<Action>, sender: Address, p: OpenGoalParams,
                            k: Limits, l: Limits)
    requires var at := Head(Run(h, d, before)); OpenGoal(at.vault, sender, p, true, at.now).Ok?
    ensures var s, t := OpenedWith(h, d, before, sender, p, k), OpenedWith(h, d, before, sender, p, l);
            var goalId := NewGoal(h, d, before);
            && View(s, goalId) == View(t, goalId)
            && HasGoal(Head(s).vault, goalId) && GoalAt(Head(s).vault, goalId).opening.attempts == p.maxAttempts
            && HasGoal(Head(t).vault, goalId) && GoalAt(Head(t).vault, goalId).opening.attempts == p.maxAttempts
  {
    hide Run;
    var s0 := Run(h, d, before);
    var goalId := NewGoal(h, d, before);
    StepIsRun(h, d, before, Open(sender, p.(budget := k.budget, cap := k.cap), true));
    StepIsRun(h, d, before, Open(sender, p.(budget := l.budget, cap := l.cap), true));
    var s, t := OpenedWith(h, d, before, sender, p, k), OpenedWith(h, d, before, sender, p, l);
    ViewAdvance(s0, Head(s), goalId);
    ViewAdvance(s0, Head(t), goalId);
    assert Public(Head(s).vault, goalId) == Public(Head(t).vault, goalId);
  }

  lemma ToldAtMost(h: Hasher, d: Deployment, s: System, goalId: nat, next: Strategy, n: nat)
    requires Inv(h, d, s) && HasGoal(Head(s).vault, goalId)
    ensures |Told(h, d, s, goalId, next, n)| <= GoalAt(Head(s).vault, goalId).opening.attempts
  {
    hide Inv, After, Later;
    InvHead(h, d, s);
    AfterIsLater(h, d, s, goalId, next, n);
    LaterHasGoal(Head(s).vault, Head(After(h, d, s, goalId, next, n)).vault, goalId);
    Books(h, d, After(h, d, s, goalId, next, n), goalId);
  }

  /**
   * Two owners' limits look the same to an attacker exactly as long as every
   * decision is the same for both, whatever it does and however it adapts.
   */
  lemma LooksTheSameIff(h: Hasher, d: Deployment, before: seq<Action>, sender: Address, p: OpenGoalParams,
                        k: Limits, l: Limits, next: Strategy, n: nat)
    requires var at := Head(Run(h, d, before)); OpenGoal(at.vault, sender, p, true, at.now).Ok?
    ensures var s, t := OpenedWith(h, d, before, sender, p, k), OpenedWith(h, d, before, sender, p, l);
            var goalId := NewGoal(h, d, before);
            && (Seen(h, d, s, goalId, next, n) == Seen(h, d, t, goalId, next, n) <==>
                 Comparable(Told(h, d, s, goalId, next, n), Told(h, d, t, goalId, next, n)))
            && |Told(h, d, s, goalId, next, n)| <= p.maxAttempts && |Told(h, d, t, goalId, next, n)| <= p.maxAttempts
  {
    hide Inv, Run, View, After, Decisions, Seen;
    var s, t := OpenedWith(h, d, before, sender, p, k), OpenedWith(h, d, before, sender, p, l);
    var goalId := NewGoal(h, d, before);
    RunInv(h, d, before + [Open(sender, p.(budget := k.budget, cap := k.cap), true)]);
    RunInv(h, d, before + [Open(sender, p.(budget := l.budget, cap := l.cap), true)]);
    OpeningTellsNothing(h, d, before, sender, p, k, l);
    ToldAtMost(h, d, s, goalId, next, n);
    ToldAtMost(h, d, t, goalId, next, n);
    if Comparable(Told(h, d, s, goalId, next, n), Told(h, d, t, goalId, next, n)) {
      DecisionsTellAll(h, d, s, t, goalId, next, n);
    } else {
      SeenAll(h, d, s, goalId, next, n);
      SeenAll(h, d, t, goalId, next, n);
      if Seen(h, d, s, goalId, next, n) == Seen(h, d, t, goalId, next, n) {
        SameStart(After(h, d, s, goalId, next, n), After(h, d, t, goalId, next, n), goalId);
      }
    }
  }

  /** Everything an attacker may have seen, over the limits the owner may have chosen. */
  function AllSeen(h: Hasher, d: Deployment, before: seq<Action>, sender: Address, p: OpenGoalParams,
                   secrets: set<Limits>, next: Strategy, n: nat): set<seq<System>>
  {
    Image(secrets, k => Seen(h, d, OpenedWith(h, d, before, sender, p, k), NewGoal(h, d, before), next, n))
  }

  /**
   * At most `maxAttempts` bits. Whatever budgets and caps are possible, and
   * however an attacker adapts every action of everyone over a run of any
   * length, it sees one of at most 2 ^ maxAttempts things.
   */
  lemma AtMostMaxAttemptsBits(h: Hasher, d: Deployment, before: seq<Action>, sender: Address, p: OpenGoalParams,
                              secrets: set<Limits>, next: Strategy, n: nat)
    requires var at := Head(Run(h, d, before)); OpenGoal(at.vault, sender, p, true, at.now).Ok?
    ensures |AllSeen(h, d, before, sender, p, secrets, next, n)| <= Power2(p.maxAttempts)
  {
    hide Run, OpenGoal, Seen, Told, Answers, Power2, OpenedWith, Comparable, NewGoal, Filled;
    var goalId := NewGoal(h, d, before);
    var value := (k: Limits) => Seen(h, d, OpenedWith(h, d, before, sender, p, k), goalId, next, n);
    var told := (k: Limits) => Told(h, d, OpenedWith(h, d, before, sender, p, k), goalId, next, n);
    var code := (k: Limits) => Filled(told(k), p.maxAttempts);
    forall k | k in secrets
      ensures code(k) in Answers(p.maxAttempts)
    {
      LooksTheSameIff(h, d, before, sender, p, k, k, next, n);
      FilledIsAnswer(told(k), p.maxAttempts);
    }
    forall k, l | k in secrets && l in secrets && code(k) == code(l)
      ensures value(k) == value(l)
    {
      LooksTheSameIff(h, d, before, sender, p, k, l, next, n);
      FilledTells(told(k), told(l), p.maxAttempts);
    }
    NoMoreThanCodes(secrets, value, code, Answers(p.maxAttempts));
    AnswersCount(p.maxAttempts);
    assert AllSeen(h, d, before, sender, p, secrets, next, n) == Image(secrets, value);
  }

  lemma FilledIsAnswer(b: seq<bool>, n: nat)
    requires |b| <= n
    ensures Filled(b, n) in Answers(n)
  {
    hide Answers;
    AllAnswers(Filled(b, n));
  }
}
