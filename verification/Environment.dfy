/**
 * What the orchestrator's code runs against: the chain, which others move on
 * between any two of its steps and whose nodes may answer from the past; a
 * local clock; and a ghost log of everything the run does.
 */
module Environment {
  import opened Wrappers
  import opened Hashing
  import opened Vault
  import opened Token
  import opened Signer
  import opened Protocol
  import opened Guarantees
  import opened RunLanguage

  /** The chain has moved on: nothing that was true of the past is lost. */
  ghost predicate Extends(a: System, b: System) {
    && a.past != [] && b.past != []
    && a.past <= b.past && a.log <= b.log && a.signed <= b.signed
    && Before(Head(a), Head(b))
  }

  class World {
    const h: Hasher
    const d: Deployment
    var s: System
    /** Everything done on the chain so far, by anyone. */
    ghost var actions: seq<Action>
    ghost var log: seq<Act>
    /** The local clock, in milliseconds. */
    var clock: nat
    /** How often a call outside was not answered, or its answer was lost. */
    ghost var faults: nat

    ghost predicate Valid()
      reads this`s, this`actions
    {
      s == Run(h, d, actions) && Inv(h, d, s)
    }

    constructor (h: Hasher, d: Deployment, clock: nat)
      ensures Valid() && log == [] && faults == 0 && this.h == h && this.d == d
    {
      this.h, this.d, this.clock, faults := h, d, clock, 0;
      s, actions, log := Start(), [], [];
      new;
      StartInv(h, d);
    }

    /** Anyone does anything, any number of times. */
    method Elapse()
      requires Valid()
      modifies this`s, this`actions
      ensures Valid() && Extends(old(s), s)
    {
      var more: seq<Action> := *;
      ghost var before := s;
      s := RunFrom(h, d, s, more);
      RunFromIsLater(h, d, before, more);
      RunFromExtendsPast(h, d, before, more);
      RunFromKeepsInv(h, d, before, more);
      RunConcat(h, d, actions, more);
      actions := actions + more;
    }

    /** One transaction takes effect at the head, or is reverted there. */
    method Apply(a: Action) returns (applied: bool)
      requires Valid() && !a.Tick?
      modifies this`s, this`actions
      ensures Valid() && s == Step(h, d, old(s), a) && Extends(old(s), s)
      ensures applied == (s != old(s))
    {
      ghost var before := s;
      var after := Step(h, d, s, a);
      StepIsRun(h, d, actions, a);
      StepKeepsInv(h, d, s, a);
      StepIsLater(h, d, s, a);
      applied := after != s;
      s, actions := after, actions + [a];
    }

    /** The state one node answers from: any state so far. */
    method View() returns (at: Snapshot)
      requires Valid()
      ensures at in s.past && Before(at, Head(s))
    {
      var i :| 0 <= i;
      at := At(s, i);
      AtIsBefore(h, d, s, i);
      if i < |s.past| { assert at == s.past[i]; } else { assert at == s.past[|s.past| - 1]; }
    }

    /** A call outside, which may fail. */
    method Try() returns (answered: bool)
      modifies this`faults
      ensures faults == old(faults) + if answered then 0 else 1
    {
      answered := *;
      if !answered {
        faults := faults + 1;
      }
    }

    ghost method Note(a: Act)
      modifies this`log
      ensures log == old(log) + [a]
    {
      log := log + [a];
    }

    /** A new run starts its own log. */
    ghost method StartRun()
      modifies this`log
      ensures log == []
    {
      log := [];
    }

    /** Reads the local clock, which never goes back. */
    method Now() returns (now: nat)
      modifies this`clock
      ensures clock >= old(clock) && now == clock
    {
      var passed :| 0 <= passed;
      clock := clock + passed;
      now := clock;
    }

    method Sleep(ms: nat)
      modifies this`clock
      ensures clock >= old(clock) + ms && clock > old(clock)
    {
      var passed :| 0 <= passed;
      clock := clock + ms + passed + 1;
    }
  }

  lemma StepIsLater(h: Hasher, d: Deployment, s: System, a: Action)
    requires Inv(h, d, s)
    ensures Extends(s, Step(h, d, s, a))
  {
    hide Step, VaultInv, SignedOk, LogOk, Exclusive, Before;
    StepExtendsPast(h, d, s, a);
    StepKeepsInv(h, d, s, a);
    assert Step(h, d, s, a).past[|s.past| - 1] == Head(s);
  }

  lemma ExtendsTransitive(a: System, b: System, c: System)
    requires Extends(a, b) && Extends(b, c)
    ensures Extends(a, c)
  {
    hide Later;
    LaterTransitive(Head(a).vault, Head(b).vault, Head(c).vault);
  }

  /** Finalized and, if so said, approved: never undone. */
  predicate FinalizedAt(v: State, goalId: nat, spendSeq: nat) {
    HasGoal(v, goalId) && HasSpend(GoalAt(v, goalId), spendSeq) && SpendAt(GoalAt(v, goalId), spendSeq).finalized
  }

  lemma FinalizedStays(v: State, w: State, goalId: nat, spendSeq: nat)
    requires Later(v, w) && FinalizedAt(v, goalId, spendSeq)
    ensures FinalizedAt(w, goalId, spendSeq)
    ensures SpendAt(GoalAt(w, goalId), spendSeq).approved == SpendAt(GoalAt(v, goalId), spendSeq).approved
  {
    assert LaterGoal(v.goals[goalId - 1], w.goals[goalId - 1]);
    assert LaterRecord(v.goals[goalId - 1].spends[spendSeq - 1], w.goals[goalId - 1].spends[spendSeq - 1]);
  }
}
