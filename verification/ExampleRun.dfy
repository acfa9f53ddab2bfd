/**
 * Runs in full, of the protocol as it is deployed: a goal is opened, a spend
 * committed and decided, the money paid. They show that what the other modules
 * bound and warn of does happen.
 */
module ExampleRun {
  import opened Wrappers
  import opened Hashing
  import opened Vault
  import opened Token
  import opened Signer
  import opened Protocol
  import opened Guarantees
  import opened Liveness
  import opened Secrecy
  import opened Events
  import opened RunLanguage
  import opened SignerAnswers
  import opened Relay

  /** Owner 1, relay 3, and one payee, 7: the budget is also the cap. */
  function Params(d: Deployment, payer: Address, budget: U256, calls: U32): OpenGoalParams {
    OpenGoalParams(budget, budget, calls, calls, payer, 3, d.config.usdc, 5000, [7])
  }

  function Opened(d: Deployment, payer: Address, budget: U256, calls: U32): seq<Action> {
    [Tick(10), Open(1, Params(d, payer, budget, calls), true)]
  }

  function Commit(amount: U256, resource: Bytes): Action {
    Action.Request(3, 1, amount, 7, resource, 100)
  }

  function Approved(d: Deployment, payer: Address, budget: U256, calls: U32, amount: U256, resource: Bytes)
    : seq<Action>
  {
    Opened(d, payer, budget, calls) + [Commit(amount, resource)] + [Decide(1, 1, true, true)]
  }

  /** The goal, with the spends it has. */
  function TheGoal(d: Deployment, payer: Address, budget: U256, calls: U32, spends: seq<Record>, left: nat,
                   pending: nat, used: nat): Goal
    requires used <= calls && |spends| <= calls
  {
    Goal(1, payer, 3, d.config.usdc, calls - used, 5000, true, {7}, calls - |spends|, pending, left, budget, spends,
         Opening(budget, calls, calls))
  }

  /** Spend `q` for `amount`. */
  function TheRecord(h: Hasher, d: Deployment, payer: Address, q: nat, amount: U256, resource: Bytes, done: bool)
    : Record
  {
    Record(7, amount, 9, 100, h(TermsBytes(1, q, payer, amount, 7, d.config.usdc, resource, 9, 100)), true, done,
           done, false)
  }

  function Vaulted(payer: Address, g: Goal): Snapshot {
    Snapshot(State([g], map[payer := 1]), Ledger({}, map[]), 10)
  }

  lemma AfterOpening(h: Hasher, d: Deployment, payer: Address, budget: U256, calls: U32)
    requires payer != 0 && d.config.usdc != 0 && calls > 0
    ensures var s := Run(h, d, Opened(d, payer, budget, calls));
            && s.past[0] == Head(Start()) && s.signed == {} && s.log == []
            && Head(s) == Vaulted(payer, TheGoal(d, payer, budget, calls, [], budget, 0, 0))
  {
    hide Step;
    var open := Opened(d, payer, budget, calls);
    assert Run(h, d, []) == Start();
    assert [] + [open[0]] == [open[0]] && [open[0]] + [open[1]] == open;
    StepIsRun(h, d, [], open[0]);
    StepIsRun(h, d, [open[0]], open[1]);
    OpenStep(h, d, Run(h, d, [open[0]]), payer, budget, calls);
  }

  lemma OpenStep(h: Hasher, d: Deployment, s: System, payer: Address, budget: U256, calls: U32)
    requires payer != 0 && d.config.usdc != 0 && calls > 0
    requires s == Step(h, d, Start(), Tick(10))
    ensures var t := Step(h, d, s, Open(1, Params(d, payer, budget, calls), true));
            && t.past[0] == Head(Start()) && t.signed == {} && t.log == []
            && Head(t) == Vaulted(payer, TheGoal(d, payer, budget, calls, [], budget, 0, 0))
  {
    assert (set a: Address | a in [7]) == {7};
  }

  /** A commit at a goal that has nothing pending. */
  lemma CommitStep(h: Hasher, d: Deployment, s: System, payer: Address, budget: U256, calls: U32,
                   spends: seq<Record>, left: nat, used: nat, amount: U256, resource: Bytes)
    requires s.past != [] && used < calls && |spends| < calls && 0 < amount <= left <= budget
    requires Head(s) == Vaulted(payer, TheGoal(d, payer, budget, calls, spends, left, 0, used))
    ensures var q := |spends| + 1;
            var r := TheRecord(h, d, payer, q, amount, resource, false);
            Step(h, d, s, Commit(amount, resource)) ==
              Advance(s, Vaulted(payer, TheGoal(d, payer, budget, calls, spends + [r], left - amount, q, used)))
  {
    hide TermsBytes;
    var g := TheGoal(d, payer, budget, calls, spends, left, 0, used);
    var r := TheRecord(h, d, payer, |spends| + 1, amount, resource, false);
    var k := TheGoal(d, payer, budget, calls, spends + [r], left - amount, |spends| + 1, used);
    assert [g][0 := k] == [k];
  }

  lemma DecideStep(h: Hasher, d: Deployment, s: System, payer: Address, budget: U256, calls: U32,
                   spends: seq<Record>, left: nat, used: nat, amount: U256, resource: Bytes)
    requires var q := |spends| + 1;
             && s.past != [] && used < calls && |spends| < calls
             && Head(s) == Vaulted(payer, TheGoal(d, payer, budget, calls,
                  spends + [TheRecord(h, d, payer, q, amount, resource, false)], left, q, used))
    ensures var q := |spends| + 1;
            var r := TheRecord(h, d, payer, q, amount, resource, true);
            Step(h, d, s, Decide(1, q, true, true)) ==
              Advance(s, Vaulted(payer, TheGoal(d, payer, budget, calls, spends + [r], left, 0, used + 1)))
  {
    hide TermsBytes;
    var r := TheRecord(h, d, payer, |spends| + 1, amount, resource, false);
    var g := TheGoal(d, payer, budget, calls, spends + [r], left, |spends| + 1, used);
    var k := TheGoal(d, payer, budget, calls, spends + [r.(finalized := true, approved := true)], left, 0, used + 1);
    assert [g][0 := k] == [k];
    assert (spends + [r])[|spends| := r.(finalized := true, approved := true)] ==
        spends + [r.(finalized := true, approved := true)];
  }

  lemma AfterApproval(h: Hasher, d: Deployment, payer: Address, budget: U256, calls: U32, amount: U256,
                      resource: Bytes)
    requires payer != 0 && d.config.usdc != 0 && calls > 0 && 0 < amount <= budget
    ensures var s := Run(h, d, Approved(d, payer, budget, calls, amount, resource));
            var r := TheRecord(h, d, payer, 1, amount, resource, true);
            && s.past[0] == Head(Start()) && s.signed == {} && s.log == []
            && Head(s) == Vaulted(payer, TheGoal(d, payer, budget, calls, [r], budget - amount, 0, 1))
  {
    hide Run, Step, TheRecord;
    var opening := Opened(d, payer, budget, calls);
    AfterOpening(h, d, payer, budget, calls);
    StepIsRun(h, d, opening, Commit(amount, resource));
    StepIsRun(h, d, opening + [Commit(amount, resource)], Decide(1, 1, true, true));
    var s := Run(h, d, opening);
    var r := TheRecord(h, d, payer, 1, amount, resource, false);
    assert [] + [r] == [r];
    CommitStep(h, d, s, payer, budget, calls, [], budget, 0, amount, resource);
    var t := Step(h, d, s, Commit(amount, resource));
    DecideStep(h, d, t, payer, budget, calls, [], budget - amount, 0, amount, resource);
    var done := TheRecord(h, d, payer, 1, amount, resource, true);
    assert [] + [done] == [done];
  }

  /**
   * A torn read in a run: with the terms hash read from before the commit, the
   * signer signs an approved spend beside the zero hash, whatever hash is recorded.
   */
  lemma TornReadHappens(h: Hasher, d: Deployment, payer: Address, amount: U256, resource: Bytes)
    requires payer in d.held && payer != 0 && d.config.usdc != 0 && amount > 0
    ensures var s := Run(h, d, Approved(d, payer, amount, 1, amount, resource));
            var n := |s.past|;
            var o := SignAt(h, d, s, AskSign(1, 1, d.config.chainId, Views(n, n, n, 0, n, n), 10, true, true));
            && ApprovedAt(d.config, Head(s).vault, 1, 1)
            && SpendAt(GoalAt(Head(s).vault, 1), 1).termsHash
                 == h(TermsBytes(1, 1, payer, amount, 7, d.config.usdc, resource, 9, 100))
            && o == Issued(FrozenMessage(h, GoalAt(Head(s).vault, 1), 1, 1), ZERO_HASH)
  {
    hide Run, TermsBytes, SpendNonce;
    AfterApproval(h, d, payer, amount, 1, amount, resource);
    var s := Run(h, d, Approved(d, payer, amount, 1, amount, resource));
    TornReadSignsZero(h, d.config, Head(s).vault, 1, 1, 10);
  }

  /**
   * And a torn refusal in one: with `isFinalized` read from the head and
   * `isApproved` from before the finalize, the signer answers "never" about a
   * spend that is approved, and the client does not ask again.
   */
  lemma TornRefusalHappens(h: Hasher, d: Deployment, payer: Address, amount: U256, resource: Bytes, payload: string,
                           reason: string)
    requires payer in d.held && payer != 0 && d.config.usdc != 0 && amount > 0
    ensures var s := Run(h, d, Approved(d, payer, amount, 1, amount, resource));
            var n := |s.past|;
            var torn := AskSign(1, 1, d.config.chainId, Views(n, n, n, n, n, 0), 10, true, true);
            && ApprovedAt(d.config, Head(s).vault, 1, 1)
            && Hears(h, d, s, torn, payload, reason) == RefusedAnswer(403, reason)
            && Hears(h, d, s, HeadAsk(d, s, 1, 1, 10), payload, reason).SignedAnswer?
  {
    hide Run, TermsBytes, SpendNonce;
    AfterApproval(h, d, payer, amount, 1, amount, resource);
    HeardIsSo(h, d, Approved(d, payer, amount, 1, amount, resource), 1, 1, 10, payload, reason);
  }

  /** The extraction bound is the best one: for every amount there is a run that reaches it. */
  lemma ExtractionBoundIsReached(h: Hasher, d: Deployment, payer: Address, amount: U256, resource: Bytes)
    requires payer in d.held && payer != 0 && d.config.usdc != 0 && amount > 0
    ensures var before := Approved(d, payer, amount, 1, amount, resource) + [Deposit(payer, amount)];
            var s := Run(h, d, before);
            && HasGoal(Head(s).vault, 1) && HasSpend(GoalAt(Head(s).vault, 1), 1)
            && var t := Run(h, d, before + AskAndSubmit(h, d, s, 1, 1));
               var g := GoalAt(Head(s).vault, 1);
               SettledTo(t.log, 1) == amount == Min(g.opening.budget, g.cap * g.opening.calls)
  {
    hide Run, TermsBytes, SpendNonce;
    var approved := Approved(d, payer, amount, 1, amount, resource);
    AfterApproval(h, d, payer, amount, 1, amount, resource);
    StepIsRun(h, d, approved, Deposit(payer, amount));
    var before := approved + [Deposit(payer, amount)];
    var s := Run(h, d, before);
    ApprovedIsPayable(h, d, before, 1, 1);
    var t := Run(h, d, before + AskAndSubmit(h, d, s, 1, 1));
    assert t.log[..0] == [];
  }

  /**
   * Both commits of `Relay.TwoCommits` can take effect: the first one's answer
   * is lost, somebody finalizes it, and the pending read after it is zero. The
   * goal then holds two spends of one call, both debited, and the call reports
   * the second only.
   */
  lemma BothCommitsLand(h: Hasher, d: Deployment, payer: Address, amount: U256, resource: string, handle: Hex,
                        tx: Hex)
    requires payer != 0 && d.config.usdc != 0 && 0 < 2 * amount < TWO_256 && Includes(resource, SPEND_PENDING)
    ensures var first := Approved(d, payer, 2 * amount, 2, amount, Utf8(resource));
            var s := Run(h, d, first);
            var t := Run(h, d, first + [Commit(amount, Utf8(resource))]);
            var pending := PendingAt(Head(s).vault, 1);
            && HasGoal(Head(t).vault, 1)
            && var g := GoalAt(Head(t).vault, 1);
               && |g.spends| == 2
               && var reported := SpendFrom(Head(t).vault, 1, 2, handle, tx);
                  var attempts := [Attempt(Err(SubmitFailed), Some(Ok(pending))), Attempt(Ok(reported), None)];
                  && IsCall(resource, 1, {}, attempts) && MayLeave(attempts) == 2
                  && RecordedAt(Head(t).vault, 1, reported, amount, 7, 100) && reported.spendSeq == 2
                  && g.spends[0].approved && g.spends[0].payTo == 7 && g.spends[0].amount == amount
                  && g.budget == g.opening.budget - 2 * amount
  {
    hide Run, Step, TermsBytes, Includes, Utf8;
    var budget := 2 * amount;
    var first := Approved(d, payer, budget, 2, amount, Utf8(resource));
    AfterApproval(h, d, payer, budget, 2, amount, Utf8(resource));
    StepIsRun(h, d, first, Commit(amount, Utf8(resource)));
    var s := Run(h, d, first);
    var r := TheRecord(h, d, payer, 1, amount, Utf8(resource), true);
    CommitStep(h, d, s, payer, budget, 2, [r], amount, 1, amount, Utf8(resource));
    var t := Run(h, d, first + [Commit(amount, Utf8(resource))]);
    var reported := SpendFrom(Head(t).vault, 1, 2, handle, tx);
    TwoCommits(resource, 1, {}, Ok(reported));
  }

  // ------------------------------------------------- every attempt tells a bit

  /** Asks for one amount, and has the decision finalized whichever it is. */
  function Ask(q: nat, amount: U256): seq<Action> {
    [Commit(amount, []), Decide(1, q, true, true), Decide(1, q, false, true)]
  }

  /** The first `q` of `m` questions: each asks for half of what the one before did. */
  function Questions(m: nat, q: nat): seq<Action>
    requires q <= m && Power2(m) <= TWO_256
  {
    if q == 0 then [] else Power2Grows(m - q, m); Questions(m, q - 1) + Ask(q, Power2(m - q))
  }

  lemma {:induction false} Power2Grows(n: nat, m: nat)
    requires n <= m
    ensures Power2(n) <= Power2(m) && (n < m ==> 2 * Power2(n) <= Power2(m)) && Power2(n) >= 1
  {
    if n < m {
      Power2Grows(n, m - 1);
    } else if n > 0 {
      Power2Grows(n - 1, n - 1);
    }
  }

  lemma Power2Doubles(n: nat)
    ensures Power2(n + 1) == 2 * Power2(n)
  {
  }

  /** The number whose `m` binary digits start with these. */
  function Number(digits: seq<bool>, m: nat): nat
    requires |digits| <= m
  {
    if digits == [] then 0 else
      var k := |digits|;
      Number(digits[..k - 1], m) + if digits[k - 1] then Power2(m - k) else 0
  }

  /** The one goal after `q` of `m` questions about `budget`, the last one perhaps not finalized yet. */
  predicate Round(s: System, m: nat, q: nat, budget: nat, pending: bool) {
    && q <= m < TWO_32 && s.past != [] && Head(s).now == 10 && |Head(s).vault.goals| == 1
    && var g := Head(s).vault.goals[0];
       && g.relay == 3 && g.open && g.expiry == 5000 && g.allowlist == {7}
       && |g.spends| == q && g.attemptsRemaining == m - q
       && (if pending then q >= 1 && g.pendingSeq == q && !g.spends[q - 1].finalized && m - q < g.callsRemaining
           else g.pendingSeq == 0 && m - q <= g.callsRemaining)
       && g.budget < Power2(m - q) <= TWO_256 && (q < m ==> Power2(m - q - 1) <= g.cap) && g.cap < TWO_256
       && budget == Number(Decisions(Head(s).vault, 1), m) + g.budget
  }

  lemma CommitRound(h: Hasher, d: Deployment, s: System, m: nat, q: nat, budget: nat)
    requires 1 <= q <= m && Power2(m - q) < TWO_256 && Round(s, m, q - 1, budget, false)
    ensures Round(Step(h, d, s, Commit(Power2(m - q), [])), m, q, budget, true)
  {
    hide TermsBytes, Power2, Number, Decisions;
    Power2Doubles(m - q);
    if q < m { Power2Grows(m - q - 1, m - q); }
    var t := Step(h, d, s, Commit(Power2(m - q), []));
    OneMoreDecision(Head(s).vault, Head(t).vault);
    NumberMore(Decisions(Head(s).vault, 1), Head(t).vault.goals[0].spends[q - 1].decision, m);
  }

  lemma OneMoreDecision(v: State, w: State)
    requires |v.goals| == |w.goals| == 1 && |w.goals[0].spends| == |v.goals[0].spends| + 1
    requires v.goals[0].spends == w.goals[0].spends[..|v.goals[0].spends|]
    ensures |Decisions(v, 1)| == |v.goals[0].spends|
    ensures Decisions(w, 1) == Decisions(v, 1) + [w.goals[0].spends[|v.goals[0].spends|].decision]
  {
  }

  lemma NumberMore(digits: seq<bool>, digit: bool, m: nat)
    requires |digits| < m
    ensures Number(digits + [digit], m) == Number(digits, m) + if digit then Power2(m - |digits| - 1) else 0
  {
    assert (digits + [digit])[..|digits|] == digits;
  }

  /** Whichever the decision is, one of the two finalizes it and the other is refused. */
  lemma DecideRound(h: Hasher, d: Deployment, s: System, m: nat, q: nat, budget: nat)
    requires Round(s, m, q, budget, true)
    ensures Round(Step(h, d, Step(h, d, s, Decide(1, q, true, true)), Decide(1, q, false, true)), m, q, budget, false)
  {
    hide Power2, Number;
    var t := Step(h, d, Step(h, d, s, Decide(1, q, true, true)), Decide(1, q, false, true));
    assert Decisions(Head(t).vault, 1) == Decisions(Head(s).vault, 1);
  }

  /** A goal with `m` attempts and as many calls, whose cap is no limit. */
  function Quizzed(d: Deployment, payer: Address, budget: U256, cap: U256, m: nat): seq<Action>
    requires m < TWO_32 && Power2(m) <= TWO_256
  {
    [Tick(10), Open(1, Params(d, payer, budget, m).(cap := cap), true)] + Questions(m, m)
  }

  lemma {:induction false} QuestionsRound(h: Hasher, d: Deployment, s: System, m: nat, q: nat, budget: nat)
    requires s.past != [] && q <= m && Power2(m) <= TWO_256 && Round(s, m, 0, budget, false)
    ensures Round(RunFrom(h, d, s, Questions(m, q)), m, q, budget, false)
  {
    hide Round, Step;
    if q == 0 {
    } else {
      QuestionsRound(h, d, s, m, q - 1, budget);
      Power2Grows(m - q, m);
      var before, asks := Questions(m, q - 1), Ask(q, Power2(m - q));
      var t := RunFrom(h, d, s, before);
      RunFromConcat(h, d, s, before, asks);
      ThreeSteps(h, d, t, asks);
      CommitRound(h, d, t, m, q, budget);
      DecideRound(h, d, Step(h, d, t, asks[0]), m, q, budget);
    }
  }

  lemma ThreeSteps(h: Hasher, d: Deployment, s: System, a: seq<Action>)
    requires s.past != [] && |a| == 3
    ensures RunFrom(h, d, s, a) == Step(h, d, Step(h, d, Step(h, d, s, a[0]), a[1]), a[2])
  {
    hide Step;
    assert a == [a[0]] + [a[1]] + [a[2]];
    RunFromConcat(h, d, s, [a[0]] + [a[1]], [a[2]]);
    RunFromConcat(h, d, s, [a[0]], [a[1]]);
  }

  /**
   * The bound on bits is exact: with `m` attempts an attacker reads off any
   * budget of `m` binary digits, one digit from each decision, whenever the cap
   * admits the largest question.
   */
  lemma EveryAttemptTellsABit(h: Hasher, d: Deployment, payer: Address, budget: U256, cap: U256, m: nat)
    requires payer != 0 && d.config.usdc != 0 && 0 < m < TWO_32 && Power2(m) <= TWO_256
    requires budget < Power2(m) && Power2(m - 1) <= cap
    ensures var v := Head(Run(h, d, Quizzed(d, payer, budget, cap, m))).vault;
            |Decisions(v, 1)| == m && Number(Decisions(v, 1), m) == budget
  {
    hide Step, Number;
    var open := [Tick(10), Open(1, Params(d, payer, budget, m).(cap := cap), true)];
    RunConcat(h, d, open, Questions(m, m));
    OpenRound(h, d, payer, budget, cap, m);
    QuestionsRound(h, d, Run(h, d, open), m, m, budget);
  }

  lemma OpenRound(h: Hasher, d: Deployment, payer: Address, budget: U256, cap: U256, m: nat)
    requires payer != 0 && d.config.usdc != 0 && 0 < m < TWO_32 && Power2(m) <= TWO_256
    requires budget < Power2(m) && Power2(m - 1) <= cap
    ensures Round(Run(h, d, [Tick(10), Open(1, Params(d, payer, budget, m).(cap := cap), true)]), m, 0, budget, false)
  {
    hide Power2;
    var open := [Tick(10), Open(1, Params(d, payer, budget, m).(cap := cap), true)];
    assert [] + [open[0]] == [open[0]] && [open[0]] + [open[1]] == open;
    StepIsRun(h, d, [], open[0]);
    StepIsRun(h, d, [open[0]], open[1]);
    assert (set a: Address | a in [7]) == {7};
  }
}
