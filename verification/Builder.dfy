/** Building a trace from the event stream (services/trace/src/builder.ts). */
module Builder {
  import opened Wrappers
  import opened Hashing
  import opened Json
  import opened Canonical
  import opened Traces
  import opened Events
  import Merkle
  import Verify

  /** What `spend-requested` leaves for `decision-finalized` to cite. */
  datatype Pending = Pending(spendSeq: nat, decisionHandle: Hex, commitTx: Hex)

  /** The parts of a step an event decides; `append` adds the rest. */
  datatype Entry = Entry(kind: string, inputs: Value, outputs: Value, attestation: Value)

  const REVEAL_TIMEOUT := "decision unavailable \U{2014} the debit committed but the reveal never resolved"

  function Fields(fields: seq<(string, Value)>): Members {
    if fields == [] then NoMembers else Member(fields[0].0, fields[0].1, Fields(fields[1..]))
  }

  function Record(fields: seq<(string, Value)>): Value {
    Obj(Fields(fields))
  }

  predicate IsHex(s: string) {
    "0x" <= s
  }

  /** `hexArray`: keeps the strings that start with `0x`. */
  function HexItems(signatures: seq<Hex>): Items {
    if signatures == [] then NoItems
    else if IsHex(signatures[0]) then Item(Str(signatures[0]), HexItems(signatures[1..]))
    else HexItems(signatures[1..])
  }

  function Attestation(pending: Pending, goalId: nat, spendSeq: nat, approved: bool, txHash: Hex,
                       signatures: seq<Hex>): Value {
    Record([("decisionHandle", Str(pending.decisionHandle)),
            ("covalidatorSignatures", Arr(HexItems(signatures))),
            ("commitTx", Str(pending.commitTx)),
            ("finalizeTx", Str(txHash)),
            ("goalId", Str(Decimal(goalId))),
            ("seq", Str(Decimal(spendSeq))),
            ("approved", Bool(approved))])
  }

  /** The step an event becomes. `None` for the events `record` ignores. */
  function EntryOf(e: PaymentEvent, pending: Option<Pending>): Option<Entry> {
    match e
    case Request(url, attempt) =>
      Some(Entry("request", Record([("url", Str(url)), ("attempt", Num(attempt))]), Null, Undefined))
    case PaymentRequired(url, t) =>
      Some(Entry("payment-required", Record([("url", Str(url))]),
        Record([("amount", BigInt(t.amount)), ("payTo", Str(t.payTo)), ("asset", Str(t.asset)),
                ("resource", Str(t.resource)), ("description", Str(t.description))]), Undefined))
    case TermsRejected(url, error) =>
      Some(Entry("terms-rejected", Record([("url", Str(url))]), Record([("error", Str(error))]), Undefined))
    case AgentReasoning(reasoning, terms, decided, source) =>
      Some(Entry("agent-reasoning", Record([("modelSafeTerms", terms), ("source", Str(source))]),
        Record([("reasoning", Str(reasoning)), ("decidedToRequest", Bool(decided))]), Undefined))
    case SpendRequested(goalId, s) =>
      // The event's spend has no `amount`, so that member is undefined.
      Some(Entry("spend-requested", Record([("goalId", Str(Decimal(goalId))), ("amount", Undefined)]),
        Record([("seq", Str(Decimal(s.spendSeq))), ("termsHash", Str(s.termsHash)),
            ("decisionHandle", Str(s.decisionHandle)),
                ("validAfter", Str(Decimal(s.validAfter))), ("validBefore", Str(Decimal(s.validBefore))),
                ("commitTx", Str(s.commitTx))]), Undefined))
    case RevealPolled(attempts, latencyMs, approved) =>
      Some(Entry("decision-revealed", Record([("attempts", Num(attempts))]),
        Record([("approved", Bool(approved)), ("latencyMs", Num(latencyMs))]), Undefined))
    case RevealTimeout(attempts, elapsedMs) =>
      Some(Entry("failed", Record([("attempts", Num(attempts))]),
        Record([("reason", Str(REVEAL_TIMEOUT)), ("elapsedMs", Num(elapsedMs))]), Undefined))
    case DecisionFinalized(goalId, spendSeq, approved, txHash, signatures) =>
      Some(Entry("decision-finalized",
        Record([("goalId", Str(Decimal(goalId))), ("seq", Str(Decimal(spendSeq)))]),
        Record([("approved", Bool(approved)), ("txHash", Str(txHash))]),
        if pending.None? then Undefined
        else Attestation(pending.value, goalId, spendSeq, approved, txHash, signatures)))
    case SignerRefused(status, reason) =>
      Some(Entry("signer-refused", Record([("status", Num(status))]), Record([("reason", Str(reason))]), Undefined))
    case Signed(nonce, value) =>
      Some(Entry("authorization-signed", Null, Record([("nonce", Str(nonce)), ("value", Str(value))]), Undefined))
    case Settled(settlement) =>
      Some(Entry("settled", Null, settlement, Undefined))
    case Response200(url, fromCache) =>
      Some(Entry("response", Record([("url", Str(url))]), Record([("fromCache", Bool(fromCache))]), Undefined))
    case VendorUpstream(capability, tier, requestId, latencyMs, quoted, cost) =>
      Some(Entry("vendor-upstream", Record([("capability", capability), ("tier", tier)]),
        Record([("attestedBy", Str("vendor")), ("requestId", requestId), ("latencyMs", latencyMs),
                ("quotedAtomic", quoted), ("costAtomic", cost)]), Undefined))
    case FailedEvent(reason) =>
      Some(Entry("failed", Null, Record([("reason", Str(reason))]), Undefined))
    case _ => None
  }

  function PendingAfter(e: PaymentEvent, pending: Option<Pending>): Option<Pending> {
    match e
    case SpendRequested(_, s) => Some(Pending(s.spendSeq, s.decisionHandle, s.commitTx))
    case _ => pending
  }

  // ------------------------------------------------------------- the state

  datatype State = State(steps: seq<Step>, pending: Option<Pending>)

  /** The step `append` links after `steps`. `None` is a throw while hashing. */
  function Linked(h: Hasher, steps: seq<Step>, entry: Entry, now: int): Option<Step> {
    var partial := Step(|steps|, entry.kind, now, entry.inputs, entry.outputs,
                        if Truthy(entry.attestation) then entry.attestation else Undefined,
                        Verify.ExpectedPrior(h, steps, |steps|), []);
    match ComputeStepHash(h, partial)
    case None => None
    case Some(d) => Some(partial.(hash := d))
  }

  function Appended(h: Hasher, s: State, e: PaymentEvent, now: int): (State, bool) {
    var pending := PendingAfter(e, s.pending);
    match EntryOf(e, pending)
    case None => (State(s.steps, pending), true)
    case Some(entry) =>
      match Linked(h, s.steps, entry, now)
      case None => (State(s.steps, pending), false)
      case Some(step) => (State(s.steps + [step], pending), true)
  }

  /** The builder after a list of timed events; the flag says none of them threw. */
  function RecordAll(h: Hasher, events: seq<(PaymentEvent, int)>): (State, bool) {
    if events == [] then (State([], None), true) else
      var n := |events| - 1;
      var (s, ok) := RecordAll(h, events[..n]);
      var (t, more) := Appended(h, s, events[n].0, events[n].1);
      (t, ok && more)
  }

  class TraceBuilder {
    const h: Hasher
    const goalId: string
    const vault: Bytes
    const chainId: int
    var steps: seq<Step>
    var pending: Option<Pending>

    ghost predicate Valid()
      reads this
    {
      Verify.ChainOk(h, steps)
    }

    constructor (h: Hasher, goalId: string, vault: Bytes, chainId: int)
      ensures Valid() && steps == [] && pending == None
      ensures this.h == h && this.goalId == goalId && this.vault == vault && this.chainId == chainId
    {
      this.h, this.goalId, this.vault, this.chainId := h, goalId, vault, chainId;
      steps, pending := [], None;
    }

    /** Links one step into the chain, or leaves it alone when hashing throws. */
    method Append(entry: Entry, now: int) returns (ok: bool)
      requires Valid()
      requires entry.kind in VENDOR_ATTESTED_STEPS ==> !Truthy(entry.attestation)
      modifies this`steps
      ensures Valid()
      ensures ok == Linked(h, old(steps), entry, now).Some?
      ensures steps == if ok then old(steps) + [Linked(h, old(steps), entry, now).value] else old(steps)
    {
      var step := Linked(h, steps, entry, now);
      if step.None? {
        return false;
      }
      LinkedExtends(h, steps, entry, now);
      steps := steps + [step.value];
      return true;
    }

    /** Translates one event. Whatever happens, the chain stays sound. */
    method RecordEvent(e: PaymentEvent, now: int) returns (ok: bool)
      requires Valid()
      modifies this
      ensures Valid()
      ensures (State(steps, pending), ok) == Appended(h, State(old(steps), old(pending)), e, now)
    {
      pending := PendingAfter(e, pending);
      var entry := EntryOf(e, pending);
      if entry.None? {
        return true;
      }
      VendorHasNoAttestation(e, pending);
      ok := Append(entry.value, now);
    }

    /** What was built passes the offline verifier. */
    method Build() returns (t: Trace)
      requires Valid()
      ensures t == Trace(1, goalId, vault, chainId, steps, Merkle.Root(h, Verify.Hashes(steps)))
      ensures Verify.Accepts(h, t)
    {
      var root := Merkle.MerkleRoot(h, Verify.Hashes(steps));
      t := Trace(1, goalId, vault, chainId, steps, root);
    }
  }

  lemma VendorHasNoAttestation(e: PaymentEvent, pending: Option<Pending>)
    requires EntryOf(e, pending).Some?
    ensures var entry := EntryOf(e, pending).value;
            entry.kind in VENDOR_ATTESTED_STEPS ==> !Truthy(entry.attestation)
  {
  }

  lemma LinkedExtends(h: Hasher, steps: seq<Step>, entry: Entry, now: int)
    requires Verify.ChainOk(h, steps) && Linked(h, steps, entry, now).Some?
    requires entry.kind in VENDOR_ATTESTED_STEPS ==> !Truthy(entry.attestation)
    ensures Verify.ChainOk(h, steps + [Linked(h, steps, entry, now).value])
  {
    hide ComputeStepHash, Linked, Verify.VendorClaims;
    var step := Linked(h, steps, entry, now).value;
    LinkedStep(h, steps, entry, now);
    var more := steps + [step];
    forall i | 0 <= i < |more|
      ensures Verify.StepOk(h, more, i)
    {
      if i < |steps| {
        assert Verify.StepOk(h, steps, i);
      }
      assert Verify.ExpectedPrior(h, more, i) == Verify.ExpectedPrior(h, steps, i);
    }
  }

  lemma LinkedStep(h: Hasher, steps: seq<Step>, entry: Entry, now: int)
    requires Linked(h, steps, entry, now).Some?
    requires entry.kind in VENDOR_ATTESTED_STEPS ==> !Truthy(entry.attestation)
    ensures var step := Linked(h, steps, entry, now).value;
            && step.index == |steps|
            && step.priorHash == Verify.ExpectedPrior(h, steps, |steps|)
            && ComputeStepHash(h, step) == Some(step.hash)
            && !Verify.VendorClaims(step)
  {
    hide StepBytes, Hashable, Verify.ExpectedPrior, Truthy;
    var step := Linked(h, steps, entry, now).value;
    HashIgnoresHash(h, step.(hash := []), step.hash);
    assert step.attestation == if Truthy(entry.attestation) then entry.attestation else Undefined;
  }

  /** A step's own hash is no part of what is hashed. */
  lemma HashIgnoresHash(h: Hasher, s: Step, hash: Bytes)
    ensures ComputeStepHash(h, s.(hash := hash)) == ComputeStepHash(h, s)
  {
    hide OrNull, PayloadBytes, AttestationBytes;
  }

  /** Every event sequence `record` takes leaves a chain the verifier accepts. */
  lemma {:induction false} RecordAllVerifies(h: Hasher, events: seq<(PaymentEvent, int)>, goalId: string, vault: Bytes,
                                             chainId: int)
    ensures var steps := RecordAll(h, events).0.steps;
            Verify.Accepts(h, Trace(1, goalId, vault, chainId, steps, Merkle.Root(h, Verify.Hashes(steps))))
  {
    if events == [] {
    } else {
      var n := |events| - 1;
      RecordAllVerifies(h, events[..n], goalId, vault, chainId);
      var s := RecordAll(h, events[..n]).0;
      var pending := PendingAfter(events[n].0, s.pending);
      var entry := EntryOf(events[n].0, pending);
      if entry.Some? && Linked(h, s.steps, entry.value, events[n].1).Some? {
        VendorHasNoAttestation(events[n].0, pending);
        LinkedExtends(h, s.steps, entry.value, events[n].1);
      }
    }
  }
}
