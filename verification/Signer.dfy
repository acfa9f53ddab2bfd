/**
 * The authorization signer (services/signer/src/service.ts) over the reads of
 * services/signer/src/vault.ts. Each read may be answered by a different node,
 * so from a different past state of the vault.
 */
module Signer {
  import opened Wrappers
  import opened Hashing
  import opened Vault
  import opened Token

  datatype Config = Config(chainId: nat, usdc: Address)

  datatype GoalRecord = GoalRecord(owner: Address, payer: Address, asset: Address, open: bool)

  datatype SpendRecord = SpendRecord(
    payer: Address, amount: nat, payTo: Address, asset: Address, nonce: Bytes,
    validAfter: nat, validBefore: nat, termsHash: Bytes, finalized: bool, approved: bool)

  /** `Threw`: the clock is too early for a sweep window to be encoded. */
  datatype Outcome = Issued(message: Message, termsHash: Bytes) | Refused(status: nat) | Threw

  /** The zero word. */
  const ZERO_HASH: Digest := Word(0)

  // ---------------------------------------------------------------- reads

  function ReadGoal(v: State, goalId: nat): Option<GoalRecord> {
    if !HasGoal(v, goalId) then None else
      var g := GoalAt(v, goalId);
      if g.owner == 0 then None else Some(GoalRecord(g.owner, g.payer, g.asset, g.open))
  }

  /** The vault states the five parallel calls of one `spend` read are answered from. */
  datatype SpendReads = SpendReads(authorization: State, window: State, termsHash: State, finalized: State,
      approved: State)

  /** An unwritten mapping entry reads as zeros. */
  function StoredSpend(v: State, goalId: nat, spendSeq: nat): Option<Record> {
    if HasGoal(v, goalId) && HasSpend(GoalAt(v, goalId), spendSeq) then Some(SpendAt(GoalAt(v, goalId), spendSeq))
        else None
  }

  function ReadSpend(h: Hasher, r: SpendReads, goalId: nat, spendSeq: nat): Option<SpendRecord> {
    match StoredSpend(r.authorization, goalId, spendSeq)
    case None => None
    case Some(a) =>
      if a.amount == 0 then None else
        var g := GoalAt(r.authorization, goalId);
        var w, t := StoredSpend(r.window, goalId, spendSeq), StoredSpend(r.termsHash, goalId, spendSeq);
        var f, p := StoredSpend(r.finalized, goalId, spendSeq), StoredSpend(r.approved, goalId, spendSeq);
        var window := if w.Some? then (w.value.validAfter, w.value.validBefore) else (0, 0);
        var terms := if t.Some? then t.value.termsHash else ZERO_HASH;
        var finalized := f.Some? && f.value.finalized;
        var approved := p.Some? && p.value.finalized && p.value.approved;
        Some(SpendRecord(g.payer, a.amount, a.payTo, g.asset, SpendNonce(h, goalId, spendSeq),
                         window.0, window.1, terms, finalized, approved))
  }

  // ----------------------------------------------------------------- sign

  /** `sign`, after its reads. The caller supplies nothing but the goal and the seq. */
  function Sign(h: Hasher, c: Config, goalId: nat, spendSeq: nat, chainId: nat, goal: Option<GoalRecord>,
                spend: Option<SpendRecord>, now: nat, hasKey: bool, domainMatches: bool): Outcome {
    if chainId != c.chainId then Refused(503)
    else if goal.None? then Refused(404)
    else if goal.value.asset != c.usdc then Refused(409)
    else if spend.None? then Refused(404)
    else if !spend.value.finalized then Refused(425)
    else if !spend.value.approved then Refused(403)
    else if spend.value.payer != goal.value.payer then Refused(500)
    else if spend.value.nonce != SpendNonce(h, goalId, spendSeq) then Refused(500)
    else if spend.value.validBefore <= now then Refused(410)
    else if !hasKey then Refused(404)
    else if !domainMatches then Refused(500)
    else
      var s := spend.value;
      Issued(Message(goal.value.payer, s.payTo, s.amount, s.validAfter, s.validBefore, s.nonce), s.termsHash)
  }

  /** The tuple the vault froze for a spend. */
  function FrozenMessage(h: Hasher, g: Goal, goalId: nat, spendSeq: nat): Message
    requires HasSpend(g, spendSeq)
  {
    var r := SpendAt(g, spendSeq);
    Message(g.payer, r.payTo, r.amount, r.validAfter, r.validBefore, SpendNonce(h, goalId, spendSeq))
  }

  /** Finalized and approved at `v`, in the signer's token. */
  predicate ApprovedAt(c: Config, v: State, goalId: nat, spendSeq: nat) {
    && HasGoal(v, goalId) && HasSpend(GoalAt(v, goalId), spendSeq)
    && GoalAt(v, goalId).asset == c.usdc
    && SpendAt(GoalAt(v, goalId), spendSeq).finalized
    && SpendAt(GoalAt(v, goalId), spendSeq).approved
  }

  predicate AllBefore(r: SpendReads, goal: State, head: State) {
    && Later(goal, head) && Later(r.authorization, head) && Later(r.window, head)
    && Later(r.termsHash, head) && Later(r.finalized, head) && Later(r.approved, head)
  }

  /** What an earlier read of a spend shows is what the head still holds. */
  lemma StoredIsFrozen(v: State, head: State, goalId: nat, spendSeq: nat)
    requires Later(v, head) && StoredSpend(v, goalId, spendSeq).Some?
    ensures StoredSpend(head, goalId, spendSeq).Some?
    ensures LaterRecord(StoredSpend(v, goalId, spendSeq).value, StoredSpend(head, goalId, spendSeq).value)
    ensures LaterGoal(GoalAt(v, goalId), GoalAt(head, goalId))
  {
    assert LaterGoal(v.goals[goalId - 1], head.goals[goalId - 1]);
  }

  /**
   * However stale and torn the reads, a signature is over exactly the tuple the
   * head has frozen, for a spend that is finalized and approved there. The
   * terms hash beside it is the recorded one exactly when that one read was
   * answered from after the commit, a recorded zero apart.
   */
  lemma SignedIsFrozen(h: Hasher, c: Config, goalId: nat, spendSeq: nat, chainId: nat, at: State, seen: SpendReads,
                       head: State, now: nat, hasKey: bool, domainMatches: bool)
    requires AllBefore(seen, at, head)
    requires Sign(h, c, goalId, spendSeq, chainId, ReadGoal(at, goalId), ReadSpend(h, seen, goalId, spendSeq), now,
             hasKey, domainMatches).Issued?
    ensures ApprovedAt(c, head, goalId, spendSeq)
    ensures var o := Sign(h, c, goalId, spendSeq, chainId, ReadGoal(at, goalId), ReadSpend(h, seen, goalId, spendSeq),
              now, hasKey, domainMatches);
            && o.message == FrozenMessage(h, GoalAt(head, goalId), goalId, spendSeq)
            && now < o.message.validBefore
            && (o.termsHash == SpendAt(GoalAt(head, goalId), spendSeq).termsHash || o.termsHash == ZERO_HASH)
            && (o.termsHash == SpendAt(GoalAt(head, goalId), spendSeq).termsHash <==>
                  || StoredSpend(seen.termsHash, goalId, spendSeq).Some?
                  || SpendAt(GoalAt(head, goalId), spendSeq).termsHash == ZERO_HASH)
  {
    assert LaterGoal(at.goals[goalId - 1], head.goals[goalId - 1]);
    StoredIsFrozen(seen.authorization, head, goalId, spendSeq);
    StoredIsFrozen(seen.window, head, goalId, spendSeq);
    StoredIsFrozen(seen.finalized, head, goalId, spendSeq);
    StoredIsFrozen(seen.approved, head, goalId, spendSeq);
    if StoredSpend(seen.termsHash, goalId, spendSeq).Some? {
      StoredIsFrozen(seen.termsHash, head, goalId, spendSeq);
    }
  }

  /**
   * The torn read is real: for any approved spend whose window is open, the
   * terms hash read from a node that has not seen the commit, and the rest from
   * the head, sign with a zero hash.
   */
  lemma TornReadSignsZero(h: Hasher, c: Config, v: State, goalId: nat, spendSeq: nat, now: nat)
    requires ApprovedAt(c, v, goalId, spendSeq) && now < SpendAt(GoalAt(v, goalId), spendSeq).validBefore
    requires GoalAt(v, goalId).owner != 0 && SpendAt(GoalAt(v, goalId), spendSeq).amount > 0
    ensures var seen := SpendReads(v, v, State([], map[]), v, v);
            && AllBefore(seen, v, v)
            && Sign(h, c, goalId, spendSeq, c.chainId, ReadGoal(v, goalId), ReadSpend(h, seen, goalId, spendSeq), now,
                 true, true)
               == Issued(FrozenMessage(h, GoalAt(v, goalId), goalId, spendSeq), ZERO_HASH)
  {
  }

  /**
   * Retry safety: two signatures for one spend, at any clocks and from any past
   * states, are over one tuple. The terms hash returned beside it may differ:
   * it is zero when that one read was answered from before the commit.
   */
  lemma RetriesAreIdentical(h: Hasher, c: Config, goalId: nat, spendSeq: nat, chainId: nat, head: State,
                            at: State, seen: SpendReads, now: nat, at': State, seen': SpendReads, now': nat)
    requires AllBefore(seen, at, head) && AllBefore(seen', at', head)
    ensures var o := Sign(h, c, goalId, spendSeq, chainId, ReadGoal(at, goalId), ReadSpend(h, seen, goalId, spendSeq),
              now, true, true);
            var o' := Sign(h, c, goalId, spendSeq, chainId, ReadGoal(at', goalId),
                ReadSpend(h, seen', goalId, spendSeq), now', true, true);
            o.Issued? && o'.Issued? ==>
              && o.message == o'.message
              && (o.termsHash != o'.termsHash ==> o.termsHash == ZERO_HASH || o'.termsHash == ZERO_HASH)
  {
    hide Sign, ReadSpend, ReadGoal;
    var o := Sign(h, c, goalId, spendSeq, chainId, ReadGoal(at, goalId), ReadSpend(h, seen, goalId, spendSeq), now,
        true, true);
    var o' := Sign(h, c, goalId, spendSeq, chainId, ReadGoal(at', goalId), ReadSpend(h, seen', goalId, spendSeq), now',
        true, true);
    if o.Issued? && o'.Issued? {
      SignedIsFrozen(h, c, goalId, spendSeq, chainId, at, seen, head, now, true, true);
      SignedIsFrozen(h, c, goalId, spendSeq, chainId, at', seen', head, now', true, true);
    }
  }

  /** With reads from one state the signer signs exactly the approved spends whose window is open. */
  lemma SignsExactlyApproved(h: Hasher, c: Config, v: State, goalId: nat, spendSeq: nat, now: nat)
    requires HasGoal(v, goalId) ==> GoalAt(v, goalId).owner != 0
    requires HasGoal(v, goalId) && HasSpend(GoalAt(v, goalId), spendSeq) ==>
               SpendAt(GoalAt(v, goalId), spendSeq).amount > 0
    ensures var o := Sign(h, c, goalId, spendSeq, c.chainId, ReadGoal(v, goalId),
                          ReadSpend(h, SpendReads(v, v, v, v, v), goalId, spendSeq), now, true, true);
            o.Issued? <==> ApprovedAt(c, v, goalId, spendSeq) && now < SpendAt(GoalAt(v, goalId), spendSeq).validBefore
  {
  }

  /** A spend of a goal in the signer's token. */
  predicate SpendKnown(c: Config, v: State, goalId: nat, spendSeq: nat) {
    HasGoal(v, goalId) && HasSpend(GoalAt(v, goalId), spendSeq) && GoalAt(v, goalId).asset == c.usdc
  }

  /**
   * What each answer means when the reads come from one state, and only then is
   * it given: 425 the decision is not finalized, 403 it is and is no approval,
   * 410 the window has closed, 409 another token, 404 no goal, spend or key,
   * 503 another chain, 500 another domain.
   */
  lemma AnswersMean(h: Hasher, c: Config, v: State, goalId: nat, spendSeq: nat, chainId: nat, now: nat, hasKey: bool,
                    domainMatches: bool)
    requires HasGoal(v, goalId) ==> GoalAt(v, goalId).owner != 0
    requires HasGoal(v, goalId) && HasSpend(GoalAt(v, goalId), spendSeq) ==>
               SpendAt(GoalAt(v, goalId), spendSeq).amount > 0
    ensures var o := Sign(h, c, goalId, spendSeq, chainId, ReadGoal(v, goalId),
                          ReadSpend(h, SpendReads(v, v, v, v, v), goalId, spendSeq), now, hasKey, domainMatches);
            var here, known, approved := chainId == c.chainId, SpendKnown(c, v, goalId, spendSeq),
                                         ApprovedAt(c, v, goalId, spendSeq);
            var live := approved && now < SpendAt(GoalAt(v, goalId), spendSeq).validBefore;
            && (o == Refused(503) <==> !here)
            && (o == Refused(409) <==> here && HasGoal(v, goalId) && GoalAt(v, goalId).asset != c.usdc)
            && (o == Refused(425) <==> here && known && !SpendAt(GoalAt(v, goalId), spendSeq).finalized)
            && (o == Refused(403) <==>
                  here && known && SpendAt(GoalAt(v, goalId), spendSeq).finalized && !approved)
            && (o == Refused(410) <==> here && approved && !live)
            && (o == Refused(404) <==>
                  here && (!HasGoal(v, goalId) || (live && !hasKey)
                    || (GoalAt(v, goalId).asset == c.usdc && !HasSpend(GoalAt(v, goalId), spendSeq))))
            && (o == Refused(500) <==> here && live && hasKey && !domainMatches)
            && (o.Issued? <==> here && live && hasKey && domainMatches)
  {
  }

  predicate SeesFinalized(v: State, goalId: nat, spendSeq: nat) {
    StoredSpend(v, goalId, spendSeq).Some? && StoredSpend(v, goalId, spendSeq).value.finalized
  }

  /**
   * The exact condition under which an approved spend is answered "never":
   * `isFinalized` was read from after its finalize, `isApproved` from before it.
   */
  lemma ApprovedRefusedIff(h: Hasher, c: Config, goalId: nat, spendSeq: nat, at: State, seen: SpendReads, head: State,
                           now: nat, hasKey: bool, domainMatches: bool)
    requires AllBefore(seen, at, head) && ApprovedAt(c, head, goalId, spendSeq)
    requires ReadGoal(at, goalId).Some? && StoredSpend(seen.authorization, goalId, spendSeq).Some?
    requires SpendAt(GoalAt(head, goalId), spendSeq).amount > 0
    ensures Sign(h, c, goalId, spendSeq, c.chainId, ReadGoal(at, goalId), ReadSpend(h, seen, goalId, spendSeq), now,
                 hasKey, domainMatches) == Refused(403)
            <==> SeesFinalized(seen.finalized, goalId, spendSeq) && !SeesFinalized(seen.approved, goalId, spendSeq)
  {
    assert LaterGoal(at.goals[goalId - 1], head.goals[goalId - 1]);
    StoredIsFrozen(seen.authorization, head, goalId, spendSeq);
    if StoredSpend(seen.approved, goalId, spendSeq).Some? { StoredIsFrozen(seen.approved, head, goalId, spendSeq); }
  }

  // ---------------------------------------------------------------- sweep

  const SWEEP: Bytes := [0x53, 0x57, 0x45, 0x45, 0x50]

  /** `abi.encode(goalId, "SWEEP", amount)`. */
  function SweepBytes(goalId: nat, amount: nat): Bytes {
    Word(goalId) + (Word(96) + (Word(amount) + (Word(5) + Padded(SWEEP))))
  }

  function SweepNonce(h: Hasher, goalId: nat, amount: nat): Digest {
    h(SweepBytes(goalId, amount))
  }

  function Sweep(h: Hasher, c: Config, goalId: nat, chainId: nat, goal: Option<GoalRecord>, balance: nat,
                 now: nat, hasKey: bool, domainMatches: bool): Outcome {
    if chainId != c.chainId then Refused(503)
    else if goal.None? then Refused(404)
    else if goal.value.asset != c.usdc then Refused(409)
    else if goal.value.open then Refused(409)
    else if !hasKey then Refused(404)
    else if balance == 0 then Refused(409)
    else if !domainMatches then Refused(500)
    else if now == 0 then Threw
    else Issued(Message(goal.value.payer, goal.value.owner, balance, now - 1, now + 3600,
        SweepNonce(h, goalId, balance)), ZERO_HASH)
  }

  /** A sweep pays the goal's owner, and only once the goal is closed for good. */
  lemma SweepPaysTheOwner(h: Hasher, c: Config, goalId: nat, chainId: nat, at: State, head: State, balance: nat,
                          now: nat, hasKey: bool, domainMatches: bool)
    requires Later(at, head)
    requires Sweep(h, c, goalId, chainId, ReadGoal(at, goalId), balance, now, hasKey, domainMatches).Issued?
    ensures HasGoal(head, goalId) && !GoalAt(head, goalId).open
    ensures var m := Sweep(h, c, goalId, chainId, ReadGoal(at, goalId), balance, now, hasKey, domainMatches).message;
            m.from == GoalAt(head, goalId).payer && m.to == GoalAt(head, goalId).owner && m.value == balance > 0
            && m.validAfter < now < m.validBefore && m.nonce == SweepNonce(h, goalId, balance)
  {
    assert LaterGoal(at.goals[goalId - 1], head.goals[goalId - 1]);
  }

  /** With one read the signer sweeps exactly the closed goals of its token that hold a balance. */
  lemma SweepsExactlyClosed(h: Hasher, c: Config, v: State, goalId: nat, balance: nat, now: nat)
    requires now > 0 && (HasGoal(v, goalId) ==> GoalAt(v, goalId).owner != 0)
    ensures Sweep(h, c, goalId, c.chainId, ReadGoal(v, goalId), balance, now, true, true).Issued? <==>
              HasGoal(v, goalId) && !GoalAt(v, goalId).open && GoalAt(v, goalId).asset == c.usdc && balance > 0
  {
  }

  /** What each refusal of a sweep means when the goal is read from one state. */
  lemma SweepAnswersMean(h: Hasher, c: Config, v: State, goalId: nat, chainId: nat, balance: nat, now: nat,
                         hasKey: bool, domainMatches: bool)
    requires HasGoal(v, goalId) ==> GoalAt(v, goalId).owner != 0
    ensures var o := Sweep(h, c, goalId, chainId, ReadGoal(v, goalId), balance, now, hasKey, domainMatches);
            var here, known := chainId == c.chainId, HasGoal(v, goalId) && GoalAt(v, goalId).asset == c.usdc;
            var closed := known && !GoalAt(v, goalId).open;
            && (o == Refused(503) <==> !here)
            && (o == Refused(404) <==> here && (!HasGoal(v, goalId) || (closed && !hasKey)))
            && (o == Refused(409) <==>
                  here && HasGoal(v, goalId) && (!known || !closed || (hasKey && balance == 0)))
            && (o == Refused(500) <==> here && closed && hasKey && balance > 0 && !domainMatches)
            && (o == Threw <==> here && closed && hasKey && balance > 0 && domainMatches && now == 0)
  {
  }

  /** However often one balance is swept, the signatures share one nonce, so at most one executes. */
  lemma SweepsShareANonce(h: Hasher, c: Config, goalId: nat, goal: Option<GoalRecord>, goal': Option<GoalRecord>,
                          balance: nat, now: nat, now': nat)
    ensures var o := Sweep(h, c, goalId, c.chainId, goal, balance, now, true, true);
            var o' := Sweep(h, c, goalId, c.chainId, goal', balance, now', true, true);
            o.Issued? && o'.Issued? ==> o.message.nonce == o'.message.nonce
  {
  }

  lemma SweepBytesLength(goalId: nat, amount: nat)
    ensures |SweepBytes(goalId, amount)| == 160
  {
    hide Word, Padded;
    var words := [Word(goalId), Word(96), Word(amount), Word(5)];
    assert |words[0]| == |words[1]| == |words[2]| == |words[3]| == 32;
    SweepTextLength();
  }

  lemma SweepTextLength()
    ensures |Padded(SWEEP)| == 32
  {
  }

  /** A sweep nonce is never a spend nonce, for any goals, unless the encodings collide. */
  lemma SweepIsNoSpend(h: Hasher, goalId: nat, spendSeq: nat, goalId': nat, amount: nat)
    requires SpendNonce(h, goalId, spendSeq) == SweepNonce(h, goalId', amount)
    ensures Collides(h, NonceBytes(goalId, spendSeq), SweepBytes(goalId', amount))
  {
    SweepBytesLength(goalId', amount);
    assert |NonceBytes(goalId, spendSeq)| == 64;
  }

  /** One sweep nonce is one goal and one balance, unless the encodings collide. */
  lemma SweepNonceBinds(h: Hasher, goalId: U256, amount: U256, goalId': U256, amount': U256)
    requires SweepNonce(h, goalId, amount) == SweepNonce(h, goalId', amount')
    ensures (goalId == goalId' && amount == amount')
         || Collides(h, SweepBytes(goalId, amount), SweepBytes(goalId', amount'))
  {
    hide Word;
    if SweepBytes(goalId, amount) == SweepBytes(goalId', amount') {
      var tail := Word(5) + Padded(SWEEP);
      SplitConcat(Word(goalId), Word(96) + (Word(amount) + tail), Word(goalId'), Word(96) + (Word(amount') + tail));
      SplitConcat(Word(96), Word(amount) + tail, Word(96), Word(amount') + tail);
      SplitConcat(Word(amount), tail, Word(amount'), tail);
      WordInjective(goalId, goalId');
      WordInjective(amount, amount');
    }
  }
}
