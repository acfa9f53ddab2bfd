/**
 * PolicyVault (contracts/src/PolicyVault.sol), function by function.
 *
 * Encrypted values are held in the clear: `budget`, `cap` and `decision` are the
 * plaintexts behind Inco's handles, and `e.sub` and `e.add` wrap at 2^256 as
 * they do on ciphertexts. Whether a caller holds genuine covalidator signatures
 * over the stored handle is a parameter of `Finalize`; signatures cover the
 * plaintext, so a genuine set verifies only for the true decision.
 */
module Vault {
  import opened Wrappers
  import opened Hashing

  /** 0 is the zero address. */
  type Address = nat

  const AUTHORIZATION_WINDOW := 3600

  datatype Record = Record(
    payTo: Address, amount: nat, validAfter: nat, validBefore: nat, termsHash: Bytes,
    decision: bool, finalized: bool, approved: bool, reclaimed: bool)

  /** What a goal was opened with. Not stored by the contract; never changes here. */
  datatype Opening = Opening(budget: nat, calls: nat, attempts: nat)

  /** `spends[i]` is the record of seq `i + 1`, so the goal's `seq` is the length. */
  datatype Goal = Goal(
    owner: Address, payer: Address, relay: Address, asset: Address,
    callsRemaining: nat, expiry: nat, open: bool, allowlist: set<Address>,
    attemptsRemaining: nat, pendingSeq: nat, budget: nat, cap: nat,
    spends: seq<Record>, opening: Opening)

  /** Goal ids start at 1. */
  datatype State = State(goals: seq<Goal>, payerGoal: map<Address, nat>)

  datatype VaultError =
    | FeeNotPaid | InvalidPayer | PayerAlreadyBound | InvalidRelay | InvalidAsset | InvalidExpiry
    | InvalidCallCount | InvalidAttemptCount | EmptyAllowlist | UnknownGoal | GoalNotOpen | GoalExpired
    | NotGoalOwner | NotRelay | PayeeNotAllowlisted | ZeroAmount | SpendPending | UnknownSpend
    | AlreadyFinalized | InvalidAttestation | PayByPassed | NotApproved | AlreadyReclaimed
    | AuthorizationLive | AuthorizationUsed | NoAttemptsLeft
    /** Solidity's own arithmetic check. */
    | Panic

  datatype OpenGoalParams = OpenGoalParams(
    budget: U256, cap: U256, callsRemaining: U32, maxAttempts: U32,
    payer: Address, relay: Address, asset: Address, expiry: U64, allowlist: seq<Address>)

  predicate HasGoal(v: State, goalId: nat) {
    1 <= goalId <= |v.goals|
  }

  function GoalAt(v: State, goalId: nat): Goal
    requires HasGoal(v, goalId)
  {
    v.goals[goalId - 1]
  }

  function WithGoal(v: State, goalId: nat, g: Goal): State
    requires HasGoal(v, goalId)
  {
    v.(goals := v.goals[goalId - 1 := g])
  }

  predicate HasSpend(g: Goal, spendSeq: nat) {
    1 <= spendSeq <= |g.spends|
  }

  function SpendAt(g: Goal, spendSeq: nat): Record
    requires HasSpend(g, spendSeq)
  {
    g.spends[spendSeq - 1]
  }

  function WithSpend(g: Goal, spendSeq: nat, r: Record): Goal
    requires HasSpend(g, spendSeq)
  {
    g.(spends := g.spends[spendSeq - 1 := r])
  }

  // ------------------------------------------------------------ open/close

  function OpenGoal(v: State, sender: Address, p: OpenGoalParams, feePaid: bool, now: nat): Result<State, VaultError> {
    if !feePaid then Err(FeeNotPaid)
    else if p.payer == 0 then Err(InvalidPayer)
    else if p.payer in v.payerGoal && v.payerGoal[p.payer] != 0 then Err(PayerAlreadyBound)
    else if p.relay == 0 then Err(InvalidRelay)
    else if p.asset == 0 then Err(InvalidAsset)
    else if p.expiry <= now then Err(InvalidExpiry)
    else if p.callsRemaining == 0 then Err(InvalidCallCount)
    else if p.maxAttempts < p.callsRemaining then Err(InvalidAttemptCount)
    else if p.allowlist == [] then Err(EmptyAllowlist)
    else
      var g := Goal(sender, p.payer, p.relay, p.asset, p.callsRemaining, p.expiry, true,
                    (set a | a in p.allowlist), p.maxAttempts, 0, p.budget, p.cap, [],
                    Opening(p.budget, p.callsRemaining, p.maxAttempts));
      Ok(State(v.goals + [g], v.payerGoal[p.payer := |v.goals| + 1]))
  }

  function CloseGoal(v: State, sender: Address, goalId: nat): Result<State, VaultError> {
    if !HasGoal(v, goalId) then Err(UnknownGoal)
    else if sender != GoalAt(v, goalId).owner then Err(NotGoalOwner)
    else Ok(WithGoal(v, goalId, GoalAt(v, goalId).(open := false)))
  }

  // ----------------------------------------------------------- spend cycle

  function Min(a: int, b: int): int {
    if a <= b then a else b
  }

  /** `abi.encode` of the terms a spend commits to. */
  function TermsBytes(goalId: nat, spendSeq: nat, payer: Address, amount: nat, payTo: Address, asset: Address,
                      resource: Bytes, validAfter: nat, validBefore: nat): Bytes {
    (Word(goalId) + (Word(spendSeq) + (Word(payer) + (Word(amount) + (Word(payTo) + (Word(asset) +
      (Word(288) + (Word(validAfter) + Word(validBefore))))))))) + (Word(|resource|) + Padded(resource))
  }

  /** Bytes filled with zeros to a whole number of words. */
  function Padded(bytes: Bytes): Bytes {
    bytes + seq((32 - |bytes| % 32) % 32, _ => 0)
  }

  predicate Affordable(g: Goal, amount: nat) {
    g.callsRemaining >= 1 && g.budget >= amount && g.cap >= amount
  }

  /** The terms, the frozen window and the conditional debit, in one transaction. */
  function RequestSpend(h: Hasher, v: State, sender: Address, goalId: nat, amount: U256, payTo: Address,
                        resource: Bytes, payBy: U64, now: nat): Result<State, VaultError> {
    if !HasGoal(v, goalId) then Err(UnknownGoal) else
      var g := GoalAt(v, goalId);
      if sender != g.relay then Err(NotRelay)
      else if !g.open then Err(GoalNotOpen)
      else if now >= g.expiry then Err(GoalExpired)
      else if payTo !in g.allowlist then Err(PayeeNotAllowlisted)
      else if amount == 0 then Err(ZeroAmount)
      else if payBy <= now then Err(PayByPassed)
      else if g.pendingSeq != 0 then Err(SpendPending)
      else if g.attemptsRemaining == 0 then Err(NoAttemptsLeft)
      else if |g.spends| + 1 >= TWO_64 || now % TWO_64 == 0
          || now % TWO_64 + AUTHORIZATION_WINDOW >= TWO_64 then Err(Panic)
      else
        var spendSeq := |g.spends| + 1;
        var time := now % TWO_64;
        var validAfter := time - 1;
        var validBefore := Min(Min(time + AUTHORIZATION_WINDOW, payBy), g.expiry);
        var terms := h(TermsBytes(goalId, spendSeq, g.payer, amount, payTo, g.asset, resource, validAfter,
            validBefore));
        var ok := Affordable(g, amount);
        var debit := if ok then amount else 0;
        var record := Record(payTo, amount, validAfter, validBefore, terms, ok, false, false, false);
        Ok(WithGoal(v, goalId, g.(
          attemptsRemaining := g.attemptsRemaining - 1,
          spends := g.spends + [record],
          budget := (g.budget - debit) % TWO_256,
          pendingSeq := spendSeq)))
  }

  /** `genuine`: the signatures are the covalidators' over the stored handle. */
  function Finalize(v: State, goalId: nat, spendSeq: nat, approved: bool, genuine: bool): Result<State, VaultError> {
    if !HasGoal(v, goalId) then Err(UnknownGoal) else
      var g := GoalAt(v, goalId);
      if !HasSpend(g, spendSeq) then Err(UnknownSpend) else
        var r := SpendAt(g, spendSeq);
        if r.finalized then Err(AlreadyFinalized)
        else if !(genuine && approved == r.decision) then Err(InvalidAttestation)
        else if approved && g.callsRemaining == 0 then Err(Panic)
        else
          Ok(WithGoal(v, goalId, WithSpend(g, spendSeq, r.(finalized := true, approved := approved)).(
            pendingSeq := 0,
            callsRemaining := if approved then g.callsRemaining - 1 else g.callsRemaining)))
  }

  /** `used` is the token's `authorizationState` for the payer and this spend's nonce. */
  function ReclaimExpired(v: State, goalId: nat, spendSeq: nat, used: bool, now: nat): Result<State, VaultError> {
    if !HasGoal(v, goalId) then Err(UnknownGoal) else
      var g := GoalAt(v, goalId);
      if !HasSpend(g, spendSeq) then Err(UnknownSpend) else
        var r := SpendAt(g, spendSeq);
        if !(r.finalized && r.approved) then Err(NotApproved)
        else if r.reclaimed then Err(AlreadyReclaimed)
        else if now < r.validBefore then Err(AuthorizationLive)
        else if used then Err(AuthorizationUsed)
        else if g.callsRemaining + 1 >= TWO_32 then Err(Panic)
        else
          Ok(WithGoal(v, goalId, WithSpend(g, spendSeq, r.(reclaimed := true)).(
            budget := (g.budget + r.amount) % TWO_256,
            callsRemaining := g.callsRemaining + 1)))
  }

  /** `keccak256(abi.encode(goalId, seq))`. */
  function NonceBytes(goalId: nat, spendSeq: nat): Bytes {
    Word(goalId) + Word(spendSeq)
  }

  function SpendNonce(h: Hasher, goalId: nat, spendSeq: nat): Digest {
    h(NonceBytes(goalId, spendSeq))
  }

  // -------------------------------------------------------- what only grows

  /** A record once written: its terms never change, its flags only rise. */
  predicate LaterRecord(r: Record, s: Record) {
    && s.payTo == r.payTo && s.amount == r.amount
    && s.validAfter == r.validAfter && s.validBefore == r.validBefore
    && s.termsHash == r.termsHash && s.decision == r.decision
    && (r.finalized ==> s.finalized && s.approved == r.approved)
    && (r.reclaimed ==> s.reclaimed)
  }

  predicate LaterGoal(f: Goal, g: Goal) {
    && g.owner == f.owner && g.payer == f.payer && g.relay == f.relay && g.asset == f.asset
    && g.expiry == f.expiry && g.allowlist == f.allowlist && g.cap == f.cap && g.opening == f.opening
    && (g.open ==> f.open)
    && g.attemptsRemaining <= f.attemptsRemaining
    && |f.spends| <= |g.spends|
    && forall i :: 0 <= i < |f.spends| ==> LaterRecord(f.spends[i], g.spends[i])
  }

  /** `w` can be a later state of the vault than `v`. */
  predicate Later(v: State, w: State) {
    && |v.goals| <= |w.goals|
    && forall i :: 0 <= i < |v.goals| ==> LaterGoal(v.goals[i], w.goals[i])
  }

  lemma LaterTransitive(u: State, v: State, w: State)
    requires Later(u, v) && Later(v, w)
    ensures Later(u, w)
  {
    forall i | 0 <= i < |u.goals|
      ensures LaterGoal(u.goals[i], w.goals[i])
    {
      var f, g, k := u.goals[i], v.goals[i], w.goals[i];
      assert LaterGoal(f, g) && LaterGoal(g, k);
      forall j | 0 <= j < |f.spends|
        ensures LaterRecord(f.spends[j], k.spends[j])
      {
        assert LaterRecord(f.spends[j], g.spends[j]) && LaterRecord(g.spends[j], k.spends[j]);
      }
    }
  }

  lemma OpenGoalLater(v: State, sender: Address, p: OpenGoalParams, feePaid: bool, now: nat)
    requires OpenGoal(v, sender, p, feePaid, now).Ok?
    ensures Later(v, OpenGoal(v, sender, p, feePaid, now).value)
  {
  }

  lemma CloseGoalLater(v: State, sender: Address, goalId: nat)
    requires CloseGoal(v, sender, goalId).Ok?
    ensures Later(v, CloseGoal(v, sender, goalId).value)
  {
  }

  lemma RequestSpendLater(h: Hasher, v: State, sender: Address, goalId: nat, amount: U256, payTo: Address,
                          resource: Bytes, payBy: U64, now: nat)
    requires RequestSpend(h, v, sender, goalId, amount, payTo, resource, payBy, now).Ok?
    ensures Later(v, RequestSpend(h, v, sender, goalId, amount, payTo, resource, payBy, now).value)
  {
    hide TermsBytes;
  }

  lemma FinalizeLater(v: State, goalId: nat, spendSeq: nat, approved: bool, genuine: bool)
    requires Finalize(v, goalId, spendSeq, approved, genuine).Ok?
    ensures Later(v, Finalize(v, goalId, spendSeq, approved, genuine).value)
  {
  }

  lemma ReclaimLater(v: State, goalId: nat, spendSeq: nat, used: bool, now: nat)
    requires ReclaimExpired(v, goalId, spendSeq, used, now).Ok?
    ensures Later(v, ReclaimExpired(v, goalId, spendSeq, used, now).value)
  {
  }

  // ------------------------------------------------------- what hashes bind

  /** Two spends with one nonce are one spend, or the two encodings collide. */
  lemma SpendNonceBinds(h: Hasher, goalId: U256, spendSeq: U64, goalId': U256, spendSeq': U64)
    requires SpendNonce(h, goalId, spendSeq) == SpendNonce(h, goalId', spendSeq')
    ensures (goalId == goalId' && spendSeq == spendSeq')
         || Collides(h, NonceBytes(goalId, spendSeq), NonceBytes(goalId', spendSeq'))
  {
    if NonceBytes(goalId, spendSeq) == NonceBytes(goalId', spendSeq') {
      SplitConcat(Word(goalId), Word(spendSeq), Word(goalId'), Word(spendSeq'));
      WordInjective(goalId, goalId');
      WordInjective(spendSeq, spendSeq');
    }
  }

  lemma NineWords(a: seq<Bytes>, b: seq<Bytes>, s: Bytes, t: Bytes)
    requires |a| == |b| == 9 && forall i :: 0 <= i < 9 ==> |a[i]| == 32 && |b[i]| == 32
    requires (a[0] + (a[1] + (a[2] + (a[3] + (a[4] + (a[5] + (a[6] + (a[7] + a[8])))))))) + s
          == (b[0] + (b[1] + (b[2] + (b[3] + (b[4] + (b[5] + (b[6] + (b[7] + b[8])))))))) + t
    ensures a == b && s == t
  {
    SplitConcat(a[0] + (a[1] + (a[2] + (a[3] + (a[4] + (a[5] + (a[6] + (a[7] + a[8]))))))), s,
                b[0] + (b[1] + (b[2] + (b[3] + (b[4] + (b[5] + (b[6] + (b[7] + b[8]))))))), t);
    SplitConcat(a[0], a[1] + (a[2] + (a[3] + (a[4] + (a[5] + (a[6] + (a[7] + a[8])))))),
                b[0], b[1] + (b[2] + (b[3] + (b[4] + (b[5] + (b[6] + (b[7] + b[8])))))));
    SplitConcat(a[1], a[2] + (a[3] + (a[4] + (a[5] + (a[6] + (a[7] + a[8]))))),
                b[1], b[2] + (b[3] + (b[4] + (b[5] + (b[6] + (b[7] + b[8]))))));
    SplitConcat(a[2], a[3] + (a[4] + (a[5] + (a[6] + (a[7] + a[8])))), b[2],
        b[3] + (b[4] + (b[5] + (b[6] + (b[7] + b[8])))));
    SplitConcat(a[3], a[4] + (a[5] + (a[6] + (a[7] + a[8]))), b[3], b[4] + (b[5] + (b[6] + (b[7] + b[8]))));
    SplitConcat(a[4], a[5] + (a[6] + (a[7] + a[8])), b[4], b[5] + (b[6] + (b[7] + b[8])));
    SplitConcat(a[5], a[6] + (a[7] + a[8]), b[5], b[6] + (b[7] + b[8]));
    SplitConcat(a[6], a[7] + a[8], b[6], b[7] + b[8]);
    SplitConcat(a[7], a[8], b[7], b[8]);
  }

  /** The terms a hash commits to, as one value. */
  datatype Terms = Terms(goalId: U256, spendSeq: U64, payer: Address, amount: U256, payTo: Address, asset: Address,
                         resource: Bytes, validAfter: U64, validBefore: U64)

  function BytesOf(t: Terms): Bytes {
    TermsBytes(t.goalId, t.spendSeq, t.payer, t.amount, t.payTo, t.asset, t.resource, t.validAfter, t.validBefore)
  }

  /** The nine words of fixed place; the resource follows them. */
  function HeadWords(t: Terms): seq<Bytes> {
    [Word(t.goalId), Word(t.spendSeq), Word(t.payer), Word(t.amount), Word(t.payTo), Word(t.asset), Word(288),
     Word(t.validAfter), Word(t.validBefore)]
  }

  /** One terms hash means one set of terms, the resource text included, or a collision. */
  lemma TermsHashBinds(h: Hasher, s: Terms, t: Terms)
    requires s.payer < TWO_256 && s.payTo < TWO_256 && s.asset < TWO_256 && |s.resource| < TWO_256
    requires t.payer < TWO_256 && t.payTo < TWO_256 && t.asset < TWO_256 && |t.resource| < TWO_256
    requires h(BytesOf(s)) == h(BytesOf(t))
    ensures s == t || Collides(h, BytesOf(s), BytesOf(t))
  {
    hide Word;
    if BytesOf(s) == BytesOf(t) {
      NineWords(HeadWords(s), HeadWords(t),
                Word(|s.resource|) + Padded(s.resource), Word(|t.resource|) + Padded(t.resource));
      SameTerms(s, t);
      SplitConcat(Word(|s.resource|), Padded(s.resource), Word(|t.resource|), Padded(t.resource));
      WordInjective(|s.resource|, |t.resource|);
      assert s.resource == Padded(s.resource)[..|s.resource|] == Padded(t.resource)[..|t.resource|] == t.resource;
    }
  }

  lemma SameTerms(s: Terms, t: Terms)
    requires s.payer < TWO_256 && s.payTo < TWO_256 && s.asset < TWO_256
    requires t.payer < TWO_256 && t.payTo < TWO_256 && t.asset < TWO_256
    requires HeadWords(s) == HeadWords(t)
    ensures s.(resource := []) == t.(resource := [])
  {
    hide Word;
    var a, b := HeadWords(s), HeadWords(t);
    assert forall i :: 0 <= i < 9 ==> a[i] == b[i];
    WordInjective(s.goalId, t.goalId);
    WordInjective(s.spendSeq, t.spendSeq);
    WordInjective(s.payer, t.payer);
    WordInjective(s.amount, t.amount);
    WordInjective(s.payTo, t.payTo);
    WordInjective(s.asset, t.asset);
    WordInjective(s.validAfter, t.validAfter);
    WordInjective(s.validBefore, t.validBefore);
  }
}
