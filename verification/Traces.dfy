/** The trace step and its hash chain (services/trace/src/step.ts). */
module Traces {
  import opened Wrappers
  import opened Hashing
  import opened Json
  import opened Canonical

  /** `attestation` is `Undefined` when the step has none. */
  datatype Step = Step(
    index: int,
    kind: string,
    timestamp: int,
    inputs: Value,
    outputs: Value,
    attestation: Value,
    priorHash: Bytes,
    hash: Bytes)

  datatype Trace = Trace(version: int, goalId: string, vault: Bytes, chainId: int, steps: seq<Step>, root: Bytes)

  const VENDOR_ATTESTED_STEPS: seq<string> := ["vendor-upstream"]

  const NO_ATTESTATION := "no-attestation"

  function Genesis(h: Hasher): Digest {
    h(Utf8("ntux402/trace/v1"))
  }

  predicate Truthy(v: Value) {
    match v
    case Null => false
    case Undefined => false
    case Bool(b) => b
    case Num(n) => n != 0
    case BigInt(n) => n != 0
    case Str(s) => s != ""
    case _ => true
  }

  /** `v ?? null`. */
  function OrNull(v: Value): Value {
    if v.Undefined? then Null else v
  }

  /** What the attestation part of a step hashes. */
  function AttestationBytes(attestation: Value): Option<Bytes> {
    if Truthy(attestation) then PayloadBytes(attestation) else Some(Utf8(NO_ATTESTATION))
  }

  predicate Hashable(s: Step) {
    && MeaningOf(OrNull(s.inputs)).Some?
    && MeaningOf(OrNull(s.outputs)).Some?
    && (Truthy(s.attestation) ==> MeaningOf(s.attestation).Some?)
    && 0 <= s.timestamp < TWO_256
  }

  lemma HashableParts(s: Step)
    requires Hashable(s)
    ensures PayloadBytes(OrNull(s.inputs)).Some? && PayloadBytes(OrNull(s.outputs)).Some?
    ensures AttestationBytes(s.attestation).Some?
  {
    SamePayloadSameMeaning(OrNull(s.inputs), OrNull(s.inputs));
    SamePayloadSameMeaning(OrNull(s.outputs), OrNull(s.outputs));
    if Truthy(s.attestation) { SamePayloadSameMeaning(s.attestation, s.attestation); }
  }

  /** The five fixed-width parts after the prior hash. */
  function StepTail(h: Hasher, s: Step): (bytes: Bytes)
    requires Hashable(s)
    ensures |bytes| == 160
  {
    HashableParts(s);
    h(Utf8(s.kind)) +
    (h(PayloadBytes(OrNull(s.inputs)).value) +
     (h(PayloadBytes(OrNull(s.outputs)).value) +
      (Word(s.timestamp) + h(AttestationBytes(s.attestation).value))))
  }

  function StepBytes(h: Hasher, s: Step): Bytes
    requires Hashable(s)
  {
    s.priorHash + StepTail(h, s)
  }

  /** `computeStepHash`. `None` is a throw: a payload or a timestamp that cannot be encoded. */
  function ComputeStepHash(h: Hasher, s: Step): Option<Digest> {
    if Hashable(s) then Some(h(StepBytes(h, s))) else None
  }

  /** Every byte string hashed for one step. */
  function StepQueries(h: Hasher, s: Step): set<Bytes>
    requires Hashable(s)
  {
    HashableParts(s);
    {StepBytes(h, s), Utf8(s.kind), PayloadBytes(OrNull(s.inputs)).value,
     PayloadBytes(OrNull(s.outputs)).value, AttestationBytes(s.attestation).value}
  }

  /** Two steps say the same, up to what canonicalisation forgets. */
  ghost predicate SameContent(s: Step, t: Step) {
    && s.kind == t.kind
    && s.timestamp == t.timestamp
    && MeaningOf(OrNull(s.inputs)) == MeaningOf(OrNull(t.inputs))
    && MeaningOf(OrNull(s.outputs)) == MeaningOf(OrNull(t.outputs))
    && (Truthy(s.attestation) <==> Truthy(t.attestation))
    && (Truthy(s.attestation) ==> MeaningOf(s.attestation) == MeaningOf(t.attestation))
  }

  /** "no-attestation" is not JSON, so no payload has its bytes. */
  lemma NoAttestationIsNoPayload(v: Value)
    requires PayloadBytes(v).Some?
    ensures PayloadBytes(v).value != Utf8(NO_ATTESTATION)
  {
    if PayloadBytes(v).value == Utf8(NO_ATTESTATION) {
      Utf8Injective(CanonicalJson(v).value, NO_ATTESTATION);
      CanonicalJsonParses(v);
      SameBytesSameMeaning(v, v);
      CanonicalKeepsMeaning(v);
      NoAttestationIsNoJson(NO_ATTESTATION);
    }
  }

  lemma NoAttestationIsNoJson(text: string)
    requires |text| >= 2 && text[0] == 'n' && text[1] == 'o'
    ensures Parse(text) == None
  {
    assert SkipSpace(text) == text;
    if |text| >= 4 { assert text[..4][1] == 'o'; }
    assert ParseKeyword(text, "null", Null) == Fail;
  }

  /** One attestation hash means one attestation, or none on both sides. */
  lemma SameAttestation(v: Value, w: Value)
    requires AttestationBytes(v).Some? && AttestationBytes(v) == AttestationBytes(w)
    ensures Truthy(v) <==> Truthy(w)
    ensures Truthy(v) ==> MeaningOf(v) == MeaningOf(w)
  {
    if Truthy(v) {
      NoAttestationIsNoPayload(v);
      SameBytesSameMeaning(v, v);
      if Truthy(w) {
        SameBytesSameMeaning(w, w);
        SamePayloadSameMeaning(v, w);
      }
    } else if Truthy(w) {
      NoAttestationIsNoPayload(w);
    }
  }

  /** One step hash means one content, whatever lengths the prior hashes have. */
  lemma StepHashBinds(h: Hasher, s: Step, t: Step, q: set<Bytes>)
    requires Hashable(s) && Hashable(t)
    requires h(StepBytes(h, s)) == h(StepBytes(h, t))
    requires StepQueries(h, s) <= q && StepQueries(h, t) <= q
    ensures (SameContent(s, t) && s.priorHash == t.priorHash) || CollisionIn(h, q)
  {
    SameHash(h, StepBytes(h, s), StepBytes(h, t), q);
    if StepBytes(h, s) == StepBytes(h, t) {
      SplitConcatRight(s.priorHash, StepTail(h, s), t.priorHash, StepTail(h, t));
      StepTailBinds(h, s, t, q);
    }
  }

  lemma StepTailBinds(h: Hasher, s: Step, t: Step, q: set<Bytes>)
    requires Hashable(s) && Hashable(t) && StepTail(h, s) == StepTail(h, t)
    requires StepQueries(h, s) <= q && StepQueries(h, t) <= q
    ensures SameContent(s, t) || CollisionIn(h, q)
  {
    HashableParts(s);
    HashableParts(t);
    var i, o, a := PayloadBytes(OrNull(s.inputs)).value, PayloadBytes(OrNull(s.outputs)).value,
        AttestationBytes(s.attestation).value;
    var j, p, b := PayloadBytes(OrNull(t.inputs)).value, PayloadBytes(OrNull(t.outputs)).value,
        AttestationBytes(t.attestation).value;
    FiveParts(h(Utf8(s.kind)), h(i), h(o), Word(s.timestamp), h(a), h(Utf8(t.kind)), h(j), h(p), Word(t.timestamp),
        h(b));
    WordInjective(s.timestamp, t.timestamp);
    SameHash(h, Utf8(s.kind), Utf8(t.kind), q);
    SameHash(h, i, j, q);
    SameHash(h, o, p, q);
    SameHash(h, a, b, q);
    if !CollisionIn(h, q) {
      Utf8Injective(s.kind, t.kind);
      SamePayloadSameMeaning(OrNull(s.inputs), OrNull(t.inputs));
      SamePayloadSameMeaning(OrNull(s.outputs), OrNull(t.outputs));
      SameAttestation(s.attestation, t.attestation);
    }
  }

  lemma FiveParts(a: Digest, b: Digest, c: Digest, d: Digest, e: Digest,
                  v: Digest, w: Digest, x: Digest, y: Digest, z: Digest)
    requires a + (b + (c + (d + e))) == v + (w + (x + (y + z)))
    ensures a == v && b == w && c == x && d == y && e == z
  {
    SplitConcat(a, b + (c + (d + e)), v, w + (x + (y + z)));
    SplitConcat(b, c + (d + e), w, x + (y + z));
    SplitConcat(c, d + e, x, y + z);
    SplitConcat(d, e, y, z);
  }
}
