/** The offline half of the standalone verifier (services/trace/src/verify.ts). */
module Verify {
  import opened Wrappers
  import opened Hashing
  import opened Json
  import opened Canonical
  import opened Traces
  import Merkle

  datatype Check = Version | StepIndex(step: nat) | ChainLink(step: nat) | ChainHash(step: nat)
      | VendorAttested(step: nat) | RootMismatch | OnChainSkipped

  datatype Finding = Error(check: Check) | Warning(check: Check)

  datatype Verification = Verification(valid: bool, checksRun: nat, findings: seq<Finding>)

  /** A step whose hash cannot be computed makes the verifier throw. */
  datatype Thrown = Unhashable(step: nat)

  function Hashes(steps: seq<Step>): seq<Bytes> {
    seq(|steps|, i requires 0 <= i < |steps| => steps[i].hash)
  }

  function ExpectedPrior(h: Hasher, steps: seq<Step>, i: nat): Bytes
    requires i <= |steps|
  {
    if i == 0 then Genesis(h) else steps[i - 1].hash
  }

  function When(bad: bool, check: Check): seq<Finding> {
    if bad then [Error(check)] else []
  }

  predicate VendorClaims(s: Step) {
    s.kind in VENDOR_ATTESTED_STEPS && s.attestation != Undefined
  }

  /** The findings about one step, in the order the checks run. */
  function StepFindings(h: Hasher, steps: seq<Step>, i: nat): seq<Finding>
    requires i < |steps|
  {
    var s := steps[i];
    When(s.index != i, StepIndex(i)) +
    When(s.priorHash != ExpectedPrior(h, steps, i), ChainLink(i)) +
    When(ComputeStepHash(h, s) != Some(s.hash), ChainHash(i)) +
    When(VendorClaims(s), VendorAttested(i))
  }

  function ChainFindings(h: Hasher, steps: seq<Step>, n: nat): seq<Finding>
    requires n <= |steps|
  {
    if n == 0 then [] else ChainFindings(h, steps, n - 1) + StepFindings(h, steps, n - 1)
  }

  /** Step `i` links to the one before it, and its hash is the hash of its content. */
  predicate StepOk(h: Hasher, steps: seq<Step>, i: nat)
    requires i < |steps|
  {
    var s := steps[i];
    && s.index == i
    && s.priorHash == ExpectedPrior(h, steps, i)
    && ComputeStepHash(h, s) == Some(s.hash)
    && !VendorClaims(s)
  }

  ghost predicate ChainOk(h: Hasher, steps: seq<Step>) {
    forall i :: 0 <= i < |steps| ==> StepOk(h, steps, i)
  }

  /** What the offline verifier accepts. */
  ghost predicate Accepts(h: Hasher, t: Trace) {
    t.version == 1 && ChainOk(h, t.steps) && t.root == Merkle.Root(h, Hashes(t.steps))
  }

  lemma NoStepFindings(h: Hasher, steps: seq<Step>, i: nat)
    requires i < |steps|
    ensures StepFindings(h, steps, i) == [] <==> StepOk(h, steps, i)
    ensures forall f :: f in StepFindings(h, steps, i) ==> f.Error?
  {
    hide ComputeStepHash, VendorClaims, ExpectedPrior;
    var s := steps[i];
    var a, b := When(s.index != i, StepIndex(i)), When(s.priorHash != ExpectedPrior(h, steps, i), ChainLink(i));
    var c, d := When(ComputeStepHash(h, s) != Some(s.hash), ChainHash(i)), When(VendorClaims(s), VendorAttested(i));
    assert |a + b + c + d| == |a| + |b| + |c| + |d|;
  }

  lemma {:induction false} NoFindings(h: Hasher, steps: seq<Step>, n: nat)
    requires n <= |steps|
    ensures ChainFindings(h, steps, n) == [] <==> forall i :: 0 <= i < n ==> StepOk(h, steps, i)
    ensures forall f :: f in ChainFindings(h, steps, n) ==> f.Error?
  {
    hide StepFindings, StepOk;
    if n == 0 {
    } else {
      NoFindings(h, steps, n - 1);
      NoStepFindings(h, steps, n - 1);
      var a, b := ChainFindings(h, steps, n - 1), StepFindings(h, steps, n - 1);
      assert |a + b| == |a| + |b|;
    }
  }

  /** The four checks of one step. `None` is the throw of `computeStepHash`. */
  method CheckStep(h: Hasher, steps: seq<Step>, i: nat, expectedPrior: Bytes) returns (r: Option<seq<Finding>>)
    requires i < |steps| && expectedPrior == ExpectedPrior(h, steps, i)
    ensures r.Some? <==> Hashable(steps[i])
    ensures r.Some? ==> r.value == StepFindings(h, steps, i)
  {
    hide StepBytes, Hashable;
    var step := steps[i];
    var findings: seq<Finding> := [];
    if step.index != i {
      findings := findings + [Error(StepIndex(i))];
    }
    if step.priorHash != expectedPrior {
      findings := findings + [Error(ChainLink(i))];
    }
    var recomputed := ComputeStepHash(h, step);
    if recomputed.None? {
      return None;
    }
    if recomputed.value != step.hash {
      findings := findings + [Error(ChainHash(i))];
    }
    if step.kind in VENDOR_ATTESTED_STEPS && step.attestation != Undefined {
      findings := findings + [Error(VendorAttested(i))];
    }
    r := Some(findings);
  }

  predicate AnyError(findings: seq<Finding>) {
    exists f :: f in findings && f.Error?
  }

  /** `verifyTrace` with no RPC: the loop over the steps, then the root. */
  method VerifyTrace(h: Hasher, trace: Trace) returns (r: Result<Verification, Thrown>)
    ensures r.Err? <==> trace.version == 1 && exists i :: 0 <= i < |trace.steps| && !Hashable(trace.steps[i])
    ensures r.Ok? ==> (r.value.valid <==> Accepts(h, trace))
    ensures r.Ok? && trace.version != 1 ==> r.value.findings == [Error(Version)] && r.value.checksRun == 1
    ensures r.Ok? && trace.version == 1 ==>
              && r.value.checksRun == 2 + 4 * |trace.steps|
              && r.value.findings == ChainFindings(h, trace.steps, |trace.steps|)
                                     + When(Merkle.Root(h, Hashes(trace.steps)) != trace.root, RootMismatch)
                                     + [Warning(OnChainSkipped)]
  {
    hide StepFindings, StepOk, Hashable, Accepts, Genesis;
    var checksRun := 1;
    if trace.version != 1 {
      WrongVersion(h, trace);
      return Ok(Verification(false, checksRun, [Error(Version)]));
    }
    var steps := trace.steps;
    var findings: seq<Finding> := [];
    var expectedPrior: Bytes := Genesis(h);
    for i := 0 to |steps|
      invariant checksRun == 1 + 4 * i
      invariant expectedPrior == ExpectedPrior(h, steps, i)
      invariant findings == ChainFindings(h, steps, i)
      invariant forall j :: 0 <= j < i ==> Hashable(steps[j])
    {
      var found := CheckStep(h, steps, i, expectedPrior);
      if found.None? {
        return Err(Unhashable(i));
      }
      findings := findings + found.value;
      checksRun := checksRun + 4;
      expectedPrior := steps[i].hash;
    }
    checksRun := checksRun + 1;
    var root := Merkle.MerkleRoot(h, Hashes(steps));
    findings := findings + When(root != trace.root, RootMismatch);
    NoErrors(h, trace);
    r := Ok(Verification(!AnyError(findings), checksRun, findings + [Warning(OnChainSkipped)]));
  }

  lemma WrongVersion(h: Hasher, t: Trace)
    requires t.version != 1
    ensures !Accepts(h, t)
  {
    hide ChainOk;
  }

  /** `valid` is read off the findings, and is the acceptance predicate. */
  lemma NoErrors(h: Hasher, t: Trace)
    requires t.version == 1
    ensures Accepts(h, t) <==>
              !AnyError(ChainFindings(h, t.steps, |t.steps|)
                  + When(Merkle.Root(h, Hashes(t.steps)) != t.root, RootMismatch))
  {
    hide StepOk, StepFindings;
    NoFindings(h, t.steps, |t.steps|);
    var chain := ChainFindings(h, t.steps, |t.steps|);
    var last := When(Merkle.Root(h, Hashes(t.steps)) != t.root, RootMismatch);
    if chain + last != [] {
      assert (chain + last)[0] in chain + last;
    }
    assert |chain + last| == |chain| + |last|;
  }

  // ------------------------------------------------------------ soundness

  /** Every byte string hashed when the trace is verified, save the genesis. */
  ghost function TraceQueries(h: Hasher, t: Trace): set<Bytes>
    requires ChainOk(h, t.steps)
  {
    Merkle.Queries(h, Hashes(t.steps)) +
    set i, b | 0 <= i < |t.steps| && StepOk(h, t.steps, i) && b in StepQueries(h, t.steps[i]) :: b
  }

  lemma StepQueriesInTrace(h: Hasher, t: Trace, i: nat)
    requires ChainOk(h, t.steps) && i < |t.steps|
    ensures Hashable(t.steps[i]) && StepQueries(h, t.steps[i]) <= TraceQueries(h, t)
  {
    assert StepOk(h, t.steps, i);
  }

  lemma HashesAre32Bytes(h: Hasher, steps: seq<Step>)
    requires ChainOk(h, steps)
    ensures forall i :: 0 <= i < |steps| ==> |Hashes(steps)[i]| == 32
  {
    forall i | 0 <= i < |steps|
      ensures |Hashes(steps)[i]| == 32
    {
      assert StepOk(h, steps, i);
    }
  }

  /**
   * Two accepted traces with one root have the same steps, field by field, up
   * to what canonicalisation forgets; or two of the strings hashed collide. The
   * header (goal, vault, chain) is not hashed and may differ.
   */
  lemma TraceSound(h: Hasher, s: Trace, t: Trace)
    requires Accepts(h, s) && Accepts(h, t) && s.root == t.root
    ensures CollisionIn(h, TraceQueries(h, s) + TraceQueries(h, t))
         || (|s.steps| == |t.steps|
             && forall i :: 0 <= i < |s.steps| ==>
                  SameContent(s.steps[i], t.steps[i]) && s.steps[i].hash == t.steps[i].hash)
  {
    hide SameContent, TraceQueries, StepOk;
    var q := TraceQueries(h, s) + TraceQueries(h, t);
    var hs, ht := Hashes(s.steps), Hashes(t.steps);
    HashesAre32Bytes(h, s.steps);
    HashesAre32Bytes(h, t.steps);
    Merkle.RootInjective(h, hs, ht);
    RootQueriesInTrace(h, s, t);
    if !CollisionIn(h, q) {
      assert hs == ht by {
        assert hs != [[]] by { assert |hs| == 1 ==> |hs[0]| == 32; }
        assert ht != [[]] by { assert |ht| == 1 ==> |ht[0]| == 32; }
      }
      forall i | 0 <= i < |s.steps|
        ensures SameContent(s.steps[i], t.steps[i]) && s.steps[i].hash == t.steps[i].hash
      {
        assert hs[i] == ht[i];
        SameStepAt(h, s, t, i);
      }
    }
  }

  lemma RootQueriesInTrace(h: Hasher, s: Trace, t: Trace)
    requires ChainOk(h, s.steps) && ChainOk(h, t.steps)
    ensures CollisionIn(h, Merkle.Queries(h, Hashes(s.steps)) + Merkle.Queries(h, Hashes(t.steps))) ==>
              CollisionIn(h, TraceQueries(h, s) + TraceQueries(h, t))
  {
    hide StepOk;
    var r := Merkle.Queries(h, Hashes(s.steps)) + Merkle.Queries(h, Hashes(t.steps));
    if CollisionIn(h, r) {
      CollisionGrows(h, r, TraceQueries(h, s) + TraceQueries(h, t));
    }
  }

  lemma SameStepAt(h: Hasher, s: Trace, t: Trace, i: nat)
    requires ChainOk(h, s.steps) && ChainOk(h, t.steps)
    requires i < |s.steps| && i < |t.steps| && s.steps[i].hash == t.steps[i].hash
    ensures SameContent(s.steps[i], t.steps[i]) || CollisionIn(h, TraceQueries(h, s) + TraceQueries(h, t))
  {
    hide SameContent, StepBytes, StepQueries, Hashable;
    assert StepOk(h, s.steps, i) && StepOk(h, t.steps, i);
    StepQueriesInTrace(h, s, i);
    StepQueriesInTrace(h, t, i);
    StepHashBinds(h, s.steps[i], t.steps[i], TraceQueries(h, s) + TraceQueries(h, t));
  }

  /** The header is outside the claim: it can be rewritten and nothing notices. */
  lemma HeaderIsNotCommitted(h: Hasher, t: Trace, goalId: string, vault: Bytes, chainId: int)
    requires Accepts(h, t)
    ensures Accepts(h, t.(goalId := goalId, vault := vault, chainId := chainId))
  {
  }

  /** A Merkle proof against an accepted trace's root is about a step of it. */
  lemma ProofNamesAStep(h: Hasher, t: Trace, value: Digest, proof: Merkle.Proof)
    requires Accepts(h, t) && Merkle.Verifies(h, value, proof, t.root)
    ensures (exists i :: 0 <= i < |t.steps| && t.steps[i].hash == value)
         || CollisionIn(h, TraceQueries(h, t) + Merkle.ClimbQueries(h, value, proof.path))
  {
    var hashes := Hashes(t.steps);
    Merkle.ProofSound(h, hashes, value, proof);
    if value in hashes {
      var i :| 0 <= i < |hashes| && hashes[i] == value;
      assert t.steps[i].hash == value;
    } else {
      CollisionGrows(h, Merkle.Queries(h, hashes) + Merkle.ClimbQueries(h, value, proof.path),
                     TraceQueries(h, t) + Merkle.ClimbQueries(h, value, proof.path));
    }
  }
}
