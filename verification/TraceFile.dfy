/**
 * A trace on its way to disk and back: `TraceStore.save` prints it with bigints
 * as strings and two spaces of indent, `JSON.parse` reads it
 * (services/orchestrator/src/trace-store.ts).
 */
module TraceFile {
  import opened Wrappers
  import opened Hashing
  import opened Json
  import opened HexText
  import opened Canonical
  import opened Traces
  import opened Builder
  import Events
  import Merkle
  import Verify

  // --------------------------------------------------------- the envelope

  function StepFields(s: Step): seq<(string, Value)> {
    [("index", Num(s.index)), ("type", Str(s.kind)), ("timestamp", Num(s.timestamp)),
     ("inputs", s.inputs), ("outputs", s.outputs), ("priorHash", Str(ToHex(s.priorHash))),
     ("attestation", s.attestation), ("hash", Str(ToHex(s.hash)))]
  }

  function StepItems(steps: seq<Step>): Items {
    if steps == [] then NoItems else Item(Record(StepFields(steps[0])), StepItems(steps[1..]))
  }

  function TraceFields(t: Trace): seq<(string, Value)> {
    [("version", Num(t.version)), ("goalId", Str(t.goalId)), ("vault", Str(ToHex(t.vault))),
     ("chainId", Num(t.chainId)), ("steps", Arr(StepItems(t.steps))), ("root", Str(ToHex(t.root)))]
  }

  /** The text `save` writes. */
  function Save(t: Trace): string {
    Stringify(Plain(Record(TraceFields(t))), "  ")
  }

  function StepFrom(v: Value): Option<Step> {
    match v
    case Obj(ms) =>
      (match (Find(ms, "index"), Find(ms, "type"), Find(ms, "timestamp"), Find(ms, "priorHash"), Find(ms, "hash"))
       case (Num(index), Str(kind), Num(timestamp), Str(prior), Str(hash)) =>
         (match (FromHex(prior), FromHex(hash))
          case (Some(p), Some(d)) =>
            Some(Step(index, kind, timestamp, Find(ms, "inputs"), Find(ms, "outputs"), Find(ms, "attestation"), p, d))
          case _ => None)
       case _ => None)
    case _ => None
  }

  function StepsFrom(items: Items): Option<seq<Step>> {
    match items
    case NoItems => Some([])
    case Item(head, tail) =>
      match (StepFrom(head), StepsFrom(tail))
      case (Some(s), Some(rest)) => Some([s] + rest)
      case _ => None
  }

  function TraceFrom(v: Value): Option<Trace> {
    match v
    case Obj(ms) =>
      (match (Find(ms, "version"), Find(ms, "goalId"), Find(ms, "vault"), Find(ms, "chainId"), Find(ms, "steps"),
          Find(ms, "root"))
       case (Num(version), Str(goalId), Str(vault), Num(chainId), Arr(items), Str(root)) =>
         (match (FromHex(vault), StepsFrom(items), FromHex(root))
          case (Some(v), Some(steps), Some(r)) => Some(Trace(version, goalId, v, chainId, steps, r))
          case _ => None)
       case _ => None)
    case _ => None
  }

  /** The trace a file holds. */
  function Load(text: string): Option<Trace> {
    match Parse(text)
    case None => None
    case Some(v) => TraceFrom(v)
  }

  // ----------------------------------------------------------- round trip

  /** A member after printing and parsing: `undefined` stays absent. */
  function Stored(v: Value): Value {
    if v.Undefined? then Undefined else Plain(v)
  }

  lemma {:induction false} FindPlain(ms: Members, key: string)
    ensures Find(PlainMembers(ms), key) == Stored(Find(ms, key))
  {
    if ms.NoMembers? {
    } else {
      FindPlain(ms.tail, key);
      if !HasKey(ms.tail, key) {
        FindMissing(ms.tail, key);
        PlainKeys(ms.tail, key);
      }
      if !HasKey(ms.tail, ms.key) { PlainKeys(ms.tail, ms.key); }
    }
  }

  lemma {:induction false} PlainKeys(ms: Members, key: string)
    requires !HasKey(ms, key)
    ensures !HasKey(PlainMembers(ms), key)
  {
    if ms.NoMembers? {
    } else {
      PlainKeys(ms.tail, key);
    }
  }

  predicate Distinct(fields: seq<(string, Value)>) {
    forall i, j :: 0 <= i < j < |fields| ==> fields[i].0 != fields[j].0
  }

  lemma {:induction false} FieldsLack(fields: seq<(string, Value)>, key: string)
    requires forall i :: 0 <= i < |fields| ==> fields[i].0 != key
    ensures !HasKey(Fields(fields), key)
  {
    if fields == [] {
    } else {
      FieldsLack(fields[1..], key);
    }
  }

  /** What is read back under a field's name is that field. */
  lemma FindStored(fields: seq<(string, Value)>, i: nat, key: string, v: Value)
    requires Distinct(fields) && i < |fields| && fields[i] == (key, v)
    ensures Find(PlainMembers(Fields(fields)), key) == Stored(v)
  {
    FindPlain(Fields(fields), fields[i].0);
    FindField(fields, i);
  }

  lemma {:induction false} FindField(fields: seq<(string, Value)>, i: nat)
    requires Distinct(fields) && i < |fields|
    ensures Find(Fields(fields), fields[i].0) == fields[i].1
  {
    if i == 0 {
      FieldsLack(fields[1..], fields[0].0);
    } else {
      FindField(fields[1..], i - 1);
    }
  }

  function StoredStep(s: Step): Step {
    s.(inputs := Stored(s.inputs), outputs := Stored(s.outputs), attestation := Stored(s.attestation))
  }

  lemma StepRoundTrip(s: Step)
    ensures StepFrom(Plain(Record(StepFields(s)))) == Some(StoredStep(s))
  {
    hide Find, PlainMembers, Fields, FromHex, ToHex;
    var fields := StepFields(s);
    assert Distinct(fields);
    HexRoundTrip(s.priorHash);
    HexRoundTrip(s.hash);
    FindStored(fields, 0, "index", Num(s.index));
    FindStored(fields, 1, "type", Str(s.kind));
    FindStored(fields, 2, "timestamp", Num(s.timestamp));
    FindStored(fields, 3, "inputs", s.inputs);
    FindStored(fields, 4, "outputs", s.outputs);
    FindStored(fields, 5, "priorHash", Str(ToHex(s.priorHash)));
    FindStored(fields, 6, "attestation", s.attestation);
    FindStored(fields, 7, "hash", Str(ToHex(s.hash)));
  }

  function StoredSteps(steps: seq<Step>): seq<Step> {
    seq(|steps|, i requires 0 <= i < |steps| => StoredStep(steps[i]))
  }

  lemma {:induction false} StepsRoundTrip(steps: seq<Step>)
    ensures StepsFrom(PlainItems(StepItems(steps))) == Some(StoredSteps(steps))
  {
    if steps == [] {
      assert StoredSteps(steps) == [];
    } else {
      StepRoundTrip(steps[0]);
      StepsRoundTrip(steps[1..]);
      assert [StoredStep(steps[0])] + StoredSteps(steps[1..]) == StoredSteps(steps);
    }
  }

  /** What was saved loads as the same trace, payloads in their stored form. */
  lemma SaveLoad(t: Trace)
    ensures Load(Save(t)) == Some(t.(steps := StoredSteps(t.steps)))
  {
    hide Find, PlainMembers, Fields, FromHex, ToHex, Stringify, Parse;
    var fields := TraceFields(t);
    StringifyParse(Plain(Record(fields)), "  ");
    assert Distinct(fields);
    HexRoundTrip(t.vault);
    HexRoundTrip(t.root);
    StepsRoundTrip(t.steps);
    FindStored(fields, 0, "version", Num(t.version));
    FindStored(fields, 1, "goalId", Str(t.goalId));
    FindStored(fields, 2, "vault", Str(ToHex(t.vault)));
    FindStored(fields, 3, "chainId", Num(t.chainId));
    FindStored(fields, 4, "steps", Arr(StepItems(t.steps)));
    FindStored(fields, 5, "root", Str(ToHex(t.root)));
  }

  lemma StoredPayload(v: Value)
    requires MeaningOf(OrNull(v)).Some?
    ensures MeaningOf(OrNull(Stored(v))) == MeaningOf(OrNull(v))
  {
    if !v.Undefined? { PlainKeepsMeaning(v); }
  }

  lemma StoredTruth(v: Value)
    requires !v.BigInt?
    ensures Truthy(Stored(v)) == Truthy(v)
  {
  }

  /** Hashing factors through the canonical form, so the stored step has the same hash. */
  lemma StoredStepHash(h: Hasher, s: Step)
    requires Hashable(s) && !s.attestation.BigInt?
    ensures Hashable(StoredStep(s)) && SameContent(s, StoredStep(s))
    ensures ComputeStepHash(h, StoredStep(s)) == ComputeStepHash(h, s)
  {
    var u := StoredStep(s);
    StoredPayload(s.inputs);
    StoredPayload(s.outputs);
    StoredTruth(s.attestation);
    SamePayloadSameMeaning(OrNull(s.inputs), OrNull(u.inputs));
    SamePayloadSameMeaning(OrNull(s.outputs), OrNull(u.outputs));
    if Truthy(s.attestation) {
      StoredPayload(s.attestation);
      SamePayloadSameMeaning(s.attestation, u.attestation);
    }
  }

  predicate NoBareBigInts(steps: seq<Step>) {
    forall i :: 0 <= i < |steps| ==> !steps[i].attestation.BigInt?
  }

  /**
   * A trace the verifier accepts is accepted again after a round trip through
   * the file, with the same root and the same content. An attestation is an
   * object in the source's types; a bare bigint there is excluded because 0n
   * is falsy and its stored form "0" is not.
   */
  lemma SavedTraceVerifies(h: Hasher, t: Trace)
    requires Verify.Accepts(h, t)
    requires NoBareBigInts(t.steps)
    ensures Load(Save(t)).Some?
    ensures var u := Load(Save(t)).value;
            && Verify.Accepts(h, u)
            && u.root == t.root && |u.steps| == |t.steps|
            && forall i :: 0 <= i < |t.steps| ==> SameContent(t.steps[i], u.steps[i])
  {
    hide SameContent, Verify.StepOk, Load, Save, StoredStep;
    SaveLoad(t);
    var u := t.(steps := StoredSteps(t.steps));
    forall i | 0 <= i < |t.steps|
      ensures Verify.StepOk(h, u.steps, i) && SameContent(t.steps[i], u.steps[i])
    {
      SavedStepVerifies(h, t.steps, i);
    }
    StoredHashes(t.steps);
  }

  lemma StoredHashes(steps: seq<Step>)
    ensures Verify.Hashes(StoredSteps(steps)) == Verify.Hashes(steps)
  {
  }

  lemma SavedStepVerifies(h: Hasher, steps: seq<Step>, i: nat)
    requires i < |steps| && Verify.StepOk(h, steps, i) && !steps[i].attestation.BigInt?
    ensures Verify.StepOk(h, StoredSteps(steps), i) && SameContent(steps[i], StoredSteps(steps)[i])
  {
    hide SameContent, ComputeStepHash, Hashable;
    assert Hashable(steps[i]) by { StepIsHashable(h, steps, i); }
    StoredStepHash(h, steps[i]);
    assert Verify.ExpectedPrior(h, StoredSteps(steps), i) == Verify.ExpectedPrior(h, steps, i);
  }

  lemma StepIsHashable(h: Hasher, steps: seq<Step>, i: nat)
    requires i < |steps| && Verify.StepOk(h, steps, i)
    ensures Hashable(steps[i])
  {
  }

  /** Build, save, load, verify: nothing is lost that the hash covers. */
  lemma BuiltTraceSurvivesDisk(h: Hasher, events: seq<(Events.PaymentEvent, int)>, goalId: string, vault: Bytes,
                               chainId: int)
    ensures var steps := RecordAll(h, events).0.steps;
            var t := Trace(1, goalId, vault, chainId, steps, Merkle.Root(h, Verify.Hashes(steps)));
            Load(Save(t)).Some? && Verify.Accepts(h, Load(Save(t)).value) && Load(Save(t)).value.root == t.root
  {
    hide Verify.Accepts;
    RecordAllVerifies(h, events, goalId, vault, chainId);
    BuiltAttestations(h, events);
    var steps := RecordAll(h, events).0.steps;
    SavedTraceVerifies(h, Trace(1, goalId, vault, chainId, steps, Merkle.Root(h, Verify.Hashes(steps))));
  }

  lemma {:induction false} BuiltAttestations(h: Hasher, events: seq<(Events.PaymentEvent, int)>)
    ensures NoBareBigInts(RecordAll(h, events).0.steps)
  {
    hide Appended;
    if events == [] {
    } else {
      var n := |events| - 1;
      BuiltAttestations(h, events[..n]);
      AppendedAttestations(h, RecordAll(h, events[..n]).0, events[n].0, events[n].1);
    }
  }

  lemma AppendedAttestations(h: Hasher, s: State, e: Events.PaymentEvent, now: int)
    requires NoBareBigInts(s.steps)
    ensures NoBareBigInts(Appended(h, s, e, now).0.steps)
  {
    hide ComputeStepHash;
    var entry := EntryOf(e, PendingAfter(e, s.pending));
    if entry.Some? {
      assert entry.value.attestation.Undefined? || entry.value.attestation.Obj?;
      var step := Linked(h, s.steps, entry.value, now);
      assert step.Some? ==> !step.value.attestation.BigInt?;
    }
  }
}
