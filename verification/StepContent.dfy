/**
 * What each step of a trace says, read back by key: the fields of the event it
 * was recorded from, under the names the viewer and the verifier look up.
 */
module StepContent {
  import opened Wrappers
  import opened Hashing
  import opened Json
  import opened Canonical
  import opened Traces
  import opened Events
  import opened Builder

  /** `object[key]`. */
  function Field(v: Value, key: string): Value {
    if v.Obj? then Find(v.members, key) else Undefined
  }

  function KeySet(ms: Members): set<string> {
    match ms
    case NoMembers => {}
    case Member(key, _, tail) => {key} + KeySet(tail)
  }

  function Keys(v: Value): set<string> {
    if v.Obj? then KeySet(v.members) else {}
  }

  /** The events `record` turns into a step. */
  predicate IsRecorded(e: PaymentEvent) {
    !e.RevealWaiting? && !e.OrphanRecovered? && !e.OrphanAbandoned? && !e.ReclaimEvent?
  }

  /** The step's kind, inputs and outputs say this of the event, and nothing else. */
  predicate Tells(e: PaymentEvent, kind: string, i: Value, o: Value) {
    match e
    case Request(url, attempt) =>
      kind == "request" && Keys(i) == {"url", "attempt"} && o == Null
      && Field(i, "url") == Str(url) && Field(i, "attempt") == Num(attempt)
    case PaymentRequired(url, terms) =>
      kind == "payment-required" && Keys(i) == {"url"} && Field(i, "url") == Str(url)
      && Keys(o) == {"amount", "payTo", "asset", "resource", "description"}
      && Field(o, "amount") == BigInt(terms.amount) && Field(o, "payTo") == Str(terms.payTo)
      && Field(o, "asset") == Str(terms.asset) && Field(o, "resource") == Str(terms.resource)
      && Field(o, "description") == Str(terms.description)
    case TermsRejected(url, error) =>
      kind == "terms-rejected" && Keys(i) == {"url"} && Keys(o) == {"error"}
      && Field(i, "url") == Str(url) && Field(o, "error") == Str(error)
    case AgentReasoning(reasoning, terms, willing, source) =>
      kind == "agent-reasoning" && Keys(i) == {"modelSafeTerms", "source"}
      && Keys(o) == {"reasoning", "decidedToRequest"}
      && Field(i, "modelSafeTerms") == terms && Field(i, "source") == Str(source)
      && Field(o, "reasoning") == Str(reasoning) && Field(o, "decidedToRequest") == Bool(willing)
    case SpendRequested(goalId, spend) =>
      kind == "spend-requested" && Keys(i) == {"goalId", "amount"}
      && Keys(o) == {"seq", "termsHash", "decisionHandle", "validAfter", "validBefore", "commitTx"}
      && Field(i, "goalId") == Str(Decimal(goalId)) && Field(i, "amount") == Undefined
      && Field(o, "seq") == Str(Decimal(spend.spendSeq)) && Field(o, "termsHash") == Str(spend.termsHash)
      && Field(o, "decisionHandle") == Str(spend.decisionHandle)
      && Field(o, "validAfter") == Str(Decimal(spend.validAfter))
      && Field(o, "validBefore") == Str(Decimal(spend.validBefore)) && Field(o, "commitTx") == Str(spend.commitTx)
    case RevealPolled(attempts, latencyMs, approved) =>
      kind == "decision-revealed" && Keys(i) == {"attempts"} && Keys(o) == {"approved", "latencyMs"}
      && Field(i, "attempts") == Num(attempts) && Field(o, "approved") == Bool(approved)
      && Field(o, "latencyMs") == Num(latencyMs)
    case RevealTimeout(attempts, elapsedMs) =>
      kind == "failed" && Keys(i) == {"attempts"} && Keys(o) == {"reason", "elapsedMs"}
      && Field(i, "attempts") == Num(attempts) && Field(o, "reason") == Str(REVEAL_TIMEOUT)
      && Field(o, "elapsedMs") == Num(elapsedMs)
    case DecisionFinalized(goalId, spendSeq, approved, txHash, _) =>
      kind == "decision-finalized" && Keys(i) == {"goalId", "seq"} && Keys(o) == {"approved", "txHash"}
      && Field(i, "goalId") == Str(Decimal(goalId)) && Field(i, "seq") == Str(Decimal(spendSeq))
      && Field(o, "approved") == Bool(approved) && Field(o, "txHash") == Str(txHash)
    case SignerRefused(status, reason) =>
      kind == "signer-refused" && Keys(i) == {"status"} && Keys(o) == {"reason"}
      && Field(i, "status") == Num(status) && Field(o, "reason") == Str(reason)
    case Signed(nonce, value) =>
      kind == "authorization-signed" && i == Null && Keys(o) == {"nonce", "value"}
      && Field(o, "nonce") == Str(nonce) && Field(o, "value") == Str(value)
    case Settled(settlement) =>
      kind == "settled" && i == Null && o == settlement
    case Response200(url, fromCache) =>
      kind == "response" && Keys(i) == {"url"} && Keys(o) == {"fromCache"}
      && Field(i, "url") == Str(url) && Field(o, "fromCache") == Bool(fromCache)
    case VendorUpstream(capability, tier, requestId, latencyMs, quoted, cost) =>
      kind == "vendor-upstream" && Keys(i) == {"capability", "tier"}
      && Keys(o) == {"attestedBy", "requestId", "latencyMs", "quotedAtomic", "costAtomic"}
      && Field(i, "capability") == capability && Field(i, "tier") == tier
      && Field(o, "attestedBy") == Str("vendor") && Field(o, "requestId") == requestId
      && Field(o, "latencyMs") == latencyMs && Field(o, "quotedAtomic") == quoted && Field(o, "costAtomic") == cost
    case FailedEvent(reason) =>
      kind == "failed" && i == Null && Keys(o) == {"reason"} && Field(o, "reason") == Str(reason)
    case _ => false
  }

  /** The strings that start with `0x`, in their order. */
  function Hexes(signatures: seq<Hex>): seq<Hex> {
    if signatures == [] then [] else
      var last := signatures[|signatures| - 1];
      Hexes(signatures[..|signatures| - 1]) + if |last| >= 2 && last[0] == '0' && last[1] == 'x' then [last] else []
  }

  /** The strings a JSON array holds, if it holds only strings. */
  function Texts(items: Items): Option<seq<string>> {
    match items
    case NoItems => Some([])
    case Item(Str(s), tail) => (match Texts(tail) case None => None case Some(rest) => Some([s] + rest))
    case _ => None
  }

  /** The attestation says which commit, which finalize and which signatures, and nothing else. */
  predicate Attests(v: Value, goalId: nat, spend: Spend, approved: bool, txHash: Hex, signatures: seq<Hex>) {
    && Keys(v) == {"decisionHandle", "covalidatorSignatures", "commitTx", "finalizeTx", "goalId", "seq", "approved"}
    && Field(v, "decisionHandle") == Str(spend.decisionHandle)
    && Field(v, "commitTx") == Str(spend.commitTx)
    && Field(v, "finalizeTx") == Str(txHash)
    && Field(v, "goalId") == Str(Decimal(goalId))
    && Field(v, "seq") == Str(Decimal(spend.spendSeq))
    && Field(v, "approved") == Bool(approved)
    && Field(v, "covalidatorSignatures").Arr?
    && Texts(Field(v, "covalidatorSignatures").items) == Some(Hexes(signatures))
  }

  // ------------------------------------------------------------- reading back

  predicate DistinctKeys(fields: seq<(string, Value)>) {
    forall i, j :: 0 <= i < j < |fields| ==> fields[i].0 != fields[j].0
  }

  lemma {:induction false} FieldsKeys(fields: seq<(string, Value)>, key: string)
    ensures HasKey(Fields(fields), key) <==> key in KeySet(Fields(fields))
    ensures HasKey(Fields(fields), key) <==> exists i :: 0 <= i < |fields| && fields[i].0 == key
  {
    if fields == [] {
    } else {
      FieldsKeys(fields[1..], key);
      if i :| 0 <= i < |fields| && fields[i].0 == key {
        if i > 0 { assert fields[1..][i - 1].0 == key; }
      }
    }
  }

  lemma {:induction false} FieldAt(fields: seq<(string, Value)>, i: nat)
    requires DistinctKeys(fields) && i < |fields|
    ensures Field(Builder.Record(fields), fields[i].0) == fields[i].1
  {
    FieldsKeys(fields[1..], fields[0].0);
    if i > 0 {
      FieldAt(fields[1..], i - 1);
    } else {
      assert !HasKey(Fields(fields[1..]), fields[0].0);
    }
  }

  /** A record reads back as it was written, and has no other keys. */
  lemma Reads(fields: seq<(string, Value)>)
    requires DistinctKeys(fields)
    ensures forall i :: 0 <= i < |fields| ==> Field(Builder.Record(fields), fields[i].0) == fields[i].1
    ensures Keys(Builder.Record(fields)) == set i | 0 <= i < |fields| :: fields[i].0
  {
    forall i | 0 <= i < |fields|
      ensures Field(Builder.Record(fields), fields[i].0) == fields[i].1
    {
      FieldAt(fields, i);
    }
    forall key
      ensures key in Keys(Builder.Record(fields)) <==> key in set i | 0 <= i < |fields| :: fields[i].0
    {
      FieldsKeys(fields, key);
    }
  }

  lemma ReadsOne(a: string, v: Value)
    ensures var r := Builder.Record([(a, v)]); Keys(r) == {a} && Field(r, a) == v
  {
    Reads([(a, v)]);
    assert [(a, v)][0] == (a, v);
  }

  lemma ReadsTwo(a: string, v: Value, b: string, w: Value)
    requires a != b
    ensures var r := Builder.Record([(a, v), (b, w)]); Keys(r) == {a, b} && Field(r, a) == v && Field(r, b) == w
  {
    hide Field, Keys, Builder.Record;
    var fields := [(a, v), (b, w)];
    Reads(fields);
    assert fields[0] == (a, v) && fields[1] == (b, w);
    var keys := set i | 0 <= i < |fields| :: fields[i].0;
    assert fields[0].0 in keys && fields[1].0 in keys;
    assert keys == {a, b};
  }

  lemma TermsRead(t: Terms)
    ensures var r := Builder.Record([("amount", BigInt(t.amount)),
                                  ("payTo", Str(t.payTo)),
                                  ("asset", Str(t.asset)),
                                  ("resource", Str(t.resource)),
                                  ("description", Str(t.description))]);
            && Keys(r) == {"amount", "payTo", "asset", "resource", "description"}
            && Field(r, "amount") == BigInt(t.amount)
            && Field(r, "payTo") == Str(t.payTo)
            && Field(r, "asset") == Str(t.asset)
            && Field(r, "resource") == Str(t.resource)
            && Field(r, "description") == Str(t.description)
  {
    hide Field, Keys, Builder.Record;
    var fields := [("amount", BigInt(t.amount)),
                   ("payTo", Str(t.payTo)),
                   ("asset", Str(t.asset)),
                   ("resource", Str(t.resource)),
                   ("description", Str(t.description))];
    Reads(fields);
    var keys := set i | 0 <= i < |fields| :: fields[i].0;
    assert fields[0] == ("amount", BigInt(t.amount)) && "amount" in keys;
    assert fields[1] == ("payTo", Str(t.payTo)) && "payTo" in keys;
    assert fields[2] == ("asset", Str(t.asset)) && "asset" in keys;
    assert fields[3] == ("resource", Str(t.resource)) && "resource" in keys;
    assert fields[4] == ("description", Str(t.description)) && "description" in keys;
    assert keys == {"amount", "payTo", "asset", "resource", "description"};
  }

  lemma SpendKeysDiffer(fields: seq<(string, Value)>)
    requires |fields| == 6 && fields[0].0 == "seq" && fields[1].0 == "termsHash" && fields[2].0 == "decisionHandle"
             && fields[3].0 == "validAfter" && fields[4].0 == "validBefore" && fields[5].0 == "commitTx"
    ensures DistinctKeys(fields)
  {
  }

  lemma SpendReads(s: Spend)
    ensures var r := Builder.Record([("seq", Str(Decimal(s.spendSeq))),
                                  ("termsHash", Str(s.termsHash)),
                                  ("decisionHandle", Str(s.decisionHandle)),
                                  ("validAfter", Str(Decimal(s.validAfter))),
                                  ("validBefore", Str(Decimal(s.validBefore))),
                                  ("commitTx", Str(s.commitTx))]);
            && Keys(r) == {"seq", "termsHash", "decisionHandle", "validAfter", "validBefore", "commitTx"}
            && Field(r, "seq") == Str(Decimal(s.spendSeq))
            && Field(r, "termsHash") == Str(s.termsHash)
            && Field(r, "decisionHandle") == Str(s.decisionHandle)
            && Field(r, "validAfter") == Str(Decimal(s.validAfter))
            && Field(r, "validBefore") == Str(Decimal(s.validBefore))
            && Field(r, "commitTx") == Str(s.commitTx)
  {
    hide Field, Keys, Builder.Record, DistinctKeys;
    var fields := [("seq", Str(Decimal(s.spendSeq))),
                   ("termsHash", Str(s.termsHash)),
                   ("decisionHandle", Str(s.decisionHandle)),
                   ("validAfter", Str(Decimal(s.validAfter))),
                   ("validBefore", Str(Decimal(s.validBefore))),
                   ("commitTx", Str(s.commitTx))];
    SpendKeysDiffer(fields);
    Reads(fields);
    var keys := set i | 0 <= i < |fields| :: fields[i].0;
    assert fields[0] == ("seq", Str(Decimal(s.spendSeq))) && "seq" in keys;
    assert fields[1] == ("termsHash", Str(s.termsHash)) && "termsHash" in keys;
    assert fields[2] == ("decisionHandle", Str(s.decisionHandle)) && "decisionHandle" in keys;
    assert fields[3] == ("validAfter", Str(Decimal(s.validAfter))) && "validAfter" in keys;
    assert fields[4] == ("validBefore", Str(Decimal(s.validBefore))) && "validBefore" in keys;
    assert fields[5] == ("commitTx", Str(s.commitTx)) && "commitTx" in keys;
    assert keys == {"seq", "termsHash", "decisionHandle", "validAfter", "validBefore", "commitTx"};
  }

  lemma VendorReads(requestId: Value, latencyMs: Value, quoted: Value, cost: Value)
    ensures var r := Builder.Record([("attestedBy", Str("vendor")),
                                  ("requestId", requestId),
                                  ("latencyMs", latencyMs),
                                  ("quotedAtomic", quoted),
                                  ("costAtomic", cost)]);
            && Keys(r) == {"attestedBy", "requestId", "latencyMs", "quotedAtomic", "costAtomic"}
            && Field(r, "attestedBy") == Str("vendor")
            && Field(r, "requestId") == requestId
            && Field(r, "latencyMs") == latencyMs
            && Field(r, "quotedAtomic") == quoted
            && Field(r, "costAtomic") == cost
  {
    hide Field, Keys, Builder.Record;
    var fields := [("attestedBy", Str("vendor")),
                   ("requestId", requestId),
                   ("latencyMs", latencyMs),
                   ("quotedAtomic", quoted),
                   ("costAtomic", cost)];
    Reads(fields);
    var keys := set i | 0 <= i < |fields| :: fields[i].0;
    assert fields[0] == ("attestedBy", Str("vendor")) && "attestedBy" in keys;
    assert fields[1] == ("requestId", requestId) && "requestId" in keys;
    assert fields[2] == ("latencyMs", latencyMs) && "latencyMs" in keys;
    assert fields[3] == ("quotedAtomic", quoted) && "quotedAtomic" in keys;
    assert fields[4] == ("costAtomic", cost) && "costAtomic" in keys;
    assert keys == {"attestedBy", "requestId", "latencyMs", "quotedAtomic", "costAtomic"};
  }

  lemma {:induction false} HexItemsKeep(signatures: seq<Hex>, last: Hex)
    ensures HexItems(signatures + [last]) ==
              AppendItems(HexItems(signatures), if IsHex(last) then Item(Str(last), NoItems) else NoItems)
  {
    if signatures == [] {
      assert [] + [last] == [last];
    } else {
      assert (signatures + [last])[1..] == signatures[1..] + [last];
      HexItemsKeep(signatures[1..], last);
    }
  }

  function AppendItems(items: Items, more: Items): Items {
    match items
    case NoItems => more
    case Item(head, tail) => Item(head, AppendItems(tail, more))
  }

  lemma {:induction false} TextsAppend(items: Items, more: Items)
    requires Texts(items).Some? && Texts(more).Some?
    ensures Texts(AppendItems(items, more)) == Some(Texts(items).value + Texts(more).value)
  {
    if items.NoItems? {
      assert [] + Texts(more).value == Texts(more).value;
    } else {
      assert items.head.Str? && Texts(items.tail).Some?;
      TextsAppend(items.tail, more);
      var s, rest, end := items.head.s, Texts(items.tail).value, Texts(more).value;
      assert [s] + (rest + end) == ([s] + rest) + end;
    }
  }

  /** Exactly the signatures that start with `0x` are kept, in order. */
  lemma {:induction false} HexItemsAre(signatures: seq<Hex>)
    ensures Texts(HexItems(signatures)) == Some(Hexes(signatures))
  {
    if signatures == [] {
    } else {
      var n := |signatures| - 1;
      HexItemsAre(signatures[..n]);
      assert signatures == signatures[..n] + [signatures[n]];
      HexItemsKeep(signatures[..n], signatures[n]);
      var more := if IsHex(signatures[n]) then Item(Str(signatures[n]), NoItems) else NoItems;
      assert Texts(NoItems) == Some([]) && [signatures[n]] + [] == [signatures[n]];
      assert Texts(more) == Some(if IsHex(signatures[n]) then [signatures[n]] else []);
      TextsAppend(HexItems(signatures[..n]), more);
    }
  }

  lemma AttestationKeysDiffer(fields: seq<(string, Value)>)
    requires |fields| == 7 && fields[0].0 == "decisionHandle" && fields[1].0 == "covalidatorSignatures"
             && fields[2].0 == "commitTx" && fields[3].0 == "finalizeTx" && fields[4].0 == "goalId"
             && fields[5].0 == "seq" && fields[6].0 == "approved"
    ensures DistinctKeys(fields)
  {
    var a, b := "commitTx", "approved";
    assert a[0] != b[0];
  }

  lemma AttestationKeys(fields: seq<(string, Value)>)
    requires |fields| == 7 && fields[0].0 == "decisionHandle" && fields[1].0 == "covalidatorSignatures"
             && fields[2].0 == "commitTx" && fields[3].0 == "finalizeTx" && fields[4].0 == "goalId"
             && fields[5].0 == "seq" && fields[6].0 == "approved"
    ensures (set i | 0 <= i < |fields| :: fields[i].0) ==
              {"decisionHandle", "covalidatorSignatures", "commitTx", "finalizeTx", "goalId", "seq", "approved"}
  {
    var keys := set i | 0 <= i < |fields| :: fields[i].0;
    assert fields[0].0 in keys && fields[1].0 in keys && fields[2].0 in keys && fields[3].0 in keys;
    assert fields[4].0 in keys && fields[5].0 in keys && fields[6].0 in keys;
  }

  /** The attestation of a finalize, read back by key, cites the commit that was pending. */
  lemma AttestationReads(spend: Spend, goalId: nat, approved: bool, txHash: Hex, signatures: seq<Hex>)
    ensures Attests(Attestation(Pending(spend.spendSeq, spend.decisionHandle, spend.commitTx), goalId, spend.spendSeq,
                                approved, txHash, signatures),
                    goalId, spend, approved, txHash, signatures)
  {
    hide Field, Keys, Builder.Record, HexItems, Hexes, Texts, DistinctKeys;
    HexItemsAre(signatures);
    var s := Arr(HexItems(signatures));
    var fields := [("decisionHandle", Str(spend.decisionHandle)),
                   ("covalidatorSignatures", s),
                   ("commitTx", Str(spend.commitTx)),
                   ("finalizeTx", Str(txHash)),
                   ("goalId", Str(Decimal(goalId))),
                   ("seq", Str(Decimal(spend.spendSeq))),
                   ("approved", Bool(approved))];
    AttestationKeysDiffer(fields);
    AttestationKeys(fields);
    Reads(fields);
    assert fields[0].0 == "decisionHandle" && fields[1] == ("covalidatorSignatures", s) && fields[2].0 == "commitTx";
    assert fields[3].0 == "finalizeTx" && fields[4].0 == "goalId" && fields[5].0 == "seq" && fields[6].0 == "approved";
  }

  /** Every step says its event, read back by key. */
  lemma EntryTells(e: PaymentEvent, pending: Option<Pending>)
    ensures EntryOf(e, pending).Some? <==> IsRecorded(e)
    ensures IsRecorded(e) ==>
              var entry := EntryOf(e, pending).value; Tells(e, entry.kind, entry.inputs, entry.outputs)
  {
    hide Field, Keys, Builder.Record, Tells, EntryOf;
    if e.Request? || e.PaymentRequired? || e.TermsRejected? || e.AgentReasoning? || e.SpendRequested? {
      QuoteTells(e, pending);
    } else if e.RevealPolled? || e.RevealTimeout? || e.DecisionFinalized? || e.SignerRefused? {
      DecisionTells(e, pending);
    } else {
      EndTells(e, pending);
    }
  }

  lemma QuoteTells(e: PaymentEvent, pending: Option<Pending>)
    requires e.Request? || e.PaymentRequired? || e.TermsRejected? || e.AgentReasoning? || e.SpendRequested?
    ensures EntryOf(e, pending).Some?
    ensures var entry := EntryOf(e, pending).value; Tells(e, entry.kind, entry.inputs, entry.outputs)
  {
    hide Field, Keys, Builder.Record;
    match e {
      case Request(url, attempt) =>
        ReadsTwo("url", Str(url), "attempt", Num(attempt));
      case PaymentRequired(url, terms) =>
        ReadsOne("url", Str(url));
        TermsRead(terms);
      case TermsRejected(url, error) =>
        ReadsOne("url", Str(url));
        ReadsOne("error", Str(error));
      case AgentReasoning(reasoning, terms, willing, source) =>
        ReadsTwo("modelSafeTerms", terms, "source", Str(source));
        ReadsTwo("reasoning", Str(reasoning), "decidedToRequest", Bool(willing));
      case SpendRequested(goalId, spend) =>
        ReadsTwo("goalId", Str(Decimal(goalId)), "amount", Undefined);
        SpendReads(spend);
    }
  }

  lemma DecisionTells(e: PaymentEvent, pending: Option<Pending>)
    requires e.RevealPolled? || e.RevealTimeout? || e.DecisionFinalized? || e.SignerRefused?
    ensures EntryOf(e, pending).Some?
    ensures var entry := EntryOf(e, pending).value; Tells(e, entry.kind, entry.inputs, entry.outputs)
  {
    hide Field, Keys, Builder.Record, Attestation;
    match e {
      case RevealPolled(attempts, latencyMs, approved) =>
        ReadsOne("attempts", Num(attempts));
        ReadsTwo("approved", Bool(approved), "latencyMs", Num(latencyMs));
      case RevealTimeout(attempts, elapsedMs) =>
        ReadsOne("attempts", Num(attempts));
        ReadsTwo("reason", Str(REVEAL_TIMEOUT), "elapsedMs", Num(elapsedMs));
      case DecisionFinalized(goalId, spendSeq, approved, txHash, _) =>
        ReadsTwo("goalId", Str(Decimal(goalId)), "seq", Str(Decimal(spendSeq)));
        ReadsTwo("approved", Bool(approved), "txHash", Str(txHash));
      case SignerRefused(status, reason) =>
        ReadsOne("status", Num(status));
        ReadsOne("reason", Str(reason));
    }
  }

  lemma EndTells(e: PaymentEvent, pending: Option<Pending>)
    requires !(e.Request? || e.PaymentRequired? || e.TermsRejected? || e.AgentReasoning? || e.SpendRequested?)
    requires !(e.RevealPolled? || e.RevealTimeout? || e.DecisionFinalized? || e.SignerRefused?)
    ensures EntryOf(e, pending).Some? <==> IsRecorded(e)
    ensures IsRecorded(e) ==>
              var entry := EntryOf(e, pending).value; Tells(e, entry.kind, entry.inputs, entry.outputs)
  {
    hide Field, Keys, Builder.Record;
    if e.Signed? {
      ReadsTwo("nonce", Str(e.nonce), "value", Str(e.value));
    } else if e.Response200? {
      ReadsOne("url", Str(e.url));
      ReadsOne("fromCache", Bool(e.fromCache));
    } else if e.VendorUpstream? {
      ReadsTwo("capability", e.capability, "tier", e.tier);
      VendorReads(e.requestId, e.upstreamMs, e.quotedAtomic, e.costAtomic);
    } else if e.FailedEvent? {
      ReadsOne("reason", Str(e.reason));
    }
  }

  // --------------------------------------------------------- the whole trace

  /** The events of a stream that become steps, in order. */
  function RecordedOf(events: seq<(PaymentEvent, int)>): seq<(PaymentEvent, int)> {
    if events == [] then [] else
      var last := events[|events| - 1];
      RecordedOf(events[..|events| - 1]) + if IsRecorded(last.0) then [last] else []
  }

  /** The step says this event, at the builder's clock; only a finalize carries an attestation. */
  predicate StepTells(step: Step, k: nat, e: PaymentEvent, now: int) {
    && step.index == k && step.timestamp == now && Tells(e, step.kind, step.inputs, step.outputs)
    && (!e.DecisionFinalized? ==> step.attestation == Undefined)
  }

  /** The trace of a stream says exactly its recorded events, one step each, in their order. */
  lemma {:induction false} StepsTellEvents(h: Hasher, events: seq<(PaymentEvent, int)>)
    requires RecordAll(h, events).1
    ensures var steps, told := RecordAll(h, events).0.steps, RecordedOf(events);
            |steps| == |told| && forall k :: 0 <= k < |steps| ==> StepTells(steps[k], k, told[k].0, told[k].1)
  {
    hide Tells, EntryOf, ComputeStepHash;
    if events == [] {
    } else {
      var n := |events| - 1;
      StepsTellEvents(h, events[..n]);
      var s := RecordAll(h, events[..n]).0;
      var pending := PendingAfter(events[n].0, s.pending);
      EntryTells(events[n].0, pending);
      OnlyFinalizesAttest(events[n].0, pending);
    }
  }

  lemma OnlyFinalizesAttest(e: PaymentEvent, pending: Option<Pending>)
    ensures EntryOf(e, pending).Some? && !e.DecisionFinalized? ==> EntryOf(e, pending).value.attestation == Undefined
  {
  }

  // ------------------------------------------------------- when `record` throws

  /** A value the hash can take: it, and what is inside it, is not `undefined`. */
  predicate Plain(v: Value) {
    v.Undefined? || MeaningOf(v).Some?
  }

  /** The values an event carries from outside can all be hashed. */
  predicate CanBeHashed(e: PaymentEvent) {
    match e
    case AgentReasoning(_, terms, _, _) => Plain(terms)
    case Settled(settlement) => Plain(settlement)
    case VendorUpstream(capability, tier, requestId, latencyMs, quoted, cost) =>
      Plain(capability) && Plain(tier) && Plain(requestId) && Plain(latencyMs) && Plain(quoted) && Plain(cost)
    case _ => true
  }

  lemma {:induction false} FieldsMeaning(fields: seq<(string, Value)>)
    ensures (forall i :: 0 <= i < |fields| ==> Plain(fields[i].1)) ==> MembersMeaning(Fields(fields)).Some?
    ensures DistinctKeys(fields) && MembersMeaning(Fields(fields)).Some? ==>
              forall i :: 0 <= i < |fields| ==> Plain(fields[i].1)
  {
    if fields == [] {
    } else {
      var tail := fields[1..];
      FieldsMeaning(tail);
      FieldsKeys(tail, fields[0].0);
      assert forall i :: 0 < i < |fields| ==> fields[i] == tail[i - 1];
      assert (forall i :: 0 <= i < |fields| ==> Plain(fields[i].1)) ==>
          forall i :: 0 <= i < |tail| ==> Plain(tail[i].1);
    }
  }

  lemma {:induction false} HexItemsMean(signatures: seq<Hex>)
    ensures ItemsMeaning(HexItems(signatures)).Some?
  {
    if signatures == [] {
    } else {
      HexItemsMean(signatures[1..]);
    }
  }

  lemma AttestationMeans(pending: Pending, goalId: nat, spendSeq: nat, approved: bool, txHash: Hex,
                         signatures: seq<Hex>)
    ensures MeaningOf(Attestation(pending, goalId, spendSeq, approved, txHash, signatures)).Some?
  {
    hide Fields;
    HexItemsMean(signatures);
    FieldsMeaning([("decisionHandle", Str(pending.decisionHandle)),
                   ("covalidatorSignatures", Arr(HexItems(signatures))),
                   ("commitTx", Str(pending.commitTx)),
                   ("finalizeTx", Str(txHash)),
                   ("goalId", Str(Decimal(goalId))),
                   ("seq", Str(Decimal(spendSeq))),
                   ("approved", Bool(approved))]);
  }

  predicate EntryHashable(entry: Entry) {
    && MeaningOf(OrNull(entry.inputs)).Some? && MeaningOf(OrNull(entry.outputs)).Some?
    && (Truthy(entry.attestation) ==> MeaningOf(entry.attestation).Some?)
  }

  lemma MeansOne(a: string, v: Value)
    ensures MeaningOf(Builder.Record([(a, v)])).Some? <==> Plain(v)
  {
    FieldsMeaning([(a, v)]);
    assert [(a, v)][0] == (a, v);
  }

  lemma MeansTwo(a: string, v: Value, b: string, w: Value)
    requires a != b
    ensures MeaningOf(Builder.Record([(a, v), (b, w)])).Some? <==> Plain(v) && Plain(w)
  {
    hide Fields, Plain;
    var fields := [(a, v), (b, w)];
    FieldsMeaning(fields);
    assert fields[0] == (a, v) && fields[1] == (b, w);
  }

  lemma TermsMean(t: Terms)
    ensures MeaningOf(Builder.Record([("amount", BigInt(t.amount)), ("payTo", Str(t.payTo)), ("asset", Str(t.asset)),
                                      ("resource", Str(t.resource)), ("description", Str(t.description))])).Some?
  {
    hide Fields;
    FieldsMeaning([("amount", BigInt(t.amount)), ("payTo", Str(t.payTo)), ("asset", Str(t.asset)),
                   ("resource", Str(t.resource)), ("description", Str(t.description))]);
  }

  lemma SpendMeans(s: Spend)
    ensures MeaningOf(Builder.Record([("seq", Str(Decimal(s.spendSeq))), ("termsHash", Str(s.termsHash)),
                                      ("decisionHandle", Str(s.decisionHandle)),
                                      ("validAfter", Str(Decimal(s.validAfter))),
                                      ("validBefore", Str(Decimal(s.validBefore))),
                                      ("commitTx", Str(s.commitTx))])).Some?
  {
    hide Fields;
    FieldsMeaning([("seq", Str(Decimal(s.spendSeq))), ("termsHash", Str(s.termsHash)),
                   ("decisionHandle", Str(s.decisionHandle)),
                   ("validAfter", Str(Decimal(s.validAfter))), ("validBefore", Str(Decimal(s.validBefore))),
                   ("commitTx", Str(s.commitTx))]);
  }

  lemma VendorMeans(requestId: Value, latencyMs: Value, quoted: Value, cost: Value)
    ensures MeaningOf(Builder.Record([("attestedBy", Str("vendor")), ("requestId", requestId), ("latencyMs", latencyMs),
                                      ("quotedAtomic", quoted), ("costAtomic", cost)])).Some?
            <==> Plain(requestId) && Plain(latencyMs) && Plain(quoted) && Plain(cost)
  {
    hide Fields, Plain;
    var fields := [("attestedBy", Str("vendor")), ("requestId", requestId), ("latencyMs", latencyMs),
                   ("quotedAtomic", quoted), ("costAtomic", cost)];
    FieldsMeaning(fields);
    StrIsPlain("vendor");
    assert fields[1].1 == requestId && fields[2].1 == latencyMs && fields[3].1 == quoted && fields[4].1 == cost;
  }

  lemma StrIsPlain(s: string)
    ensures Plain(Str(s))
  {
  }

  lemma EntryHashableIff(e: PaymentEvent, pending: Option<Pending>)
    requires IsRecorded(e)
    ensures EntryOf(e, pending).Some? && (EntryHashable(EntryOf(e, pending).value) <==> CanBeHashed(e))
  {
    hide Builder.Record, Attestation;
    if e.Request? || e.PaymentRequired? || e.TermsRejected? || e.AgentReasoning? || e.SpendRequested? {
      QuoteHashable(e, pending);
    } else if e.DecisionFinalized? {
      FinalizeHashable(e, pending);
    } else {
      RestHashable(e, pending);
    }
  }

  lemma QuoteHashable(e: PaymentEvent, pending: Option<Pending>)
    requires e.Request? || e.PaymentRequired? || e.TermsRejected? || e.AgentReasoning? || e.SpendRequested?
    ensures EntryOf(e, pending).Some? && (EntryHashable(EntryOf(e, pending).value) <==> CanBeHashed(e))
  {
    hide MeaningOf, Fields;
    ScalarsArePlain();
    match e {
      case Request(url, attempt) =>
        MeansTwo("url", Str(url), "attempt", Num(attempt));
      case PaymentRequired(url, terms) =>
        MeansOne("url", Str(url));
        TermsMean(terms);
      case TermsRejected(url, error) =>
        MeansOne("url", Str(url));
        MeansOne("error", Str(error));
      case AgentReasoning(reasoning, terms, willing, source) =>
        MeansTwo("modelSafeTerms", terms, "source", Str(source));
        MeansTwo("reasoning", Str(reasoning), "decidedToRequest", Bool(willing));
      case SpendRequested(goalId, spend) =>
        MeansTwo("goalId", Str(Decimal(goalId)), "amount", Undefined);
        SpendMeans(spend);
    }
  }

  lemma ScalarsArePlain()
    ensures (forall s: string :: Plain(Str(s))) && (forall n: int :: Plain(Num(n)))
    ensures forall b: bool :: Plain(Bool(b))
    ensures Plain(Undefined) && MeaningOf(Null).Some?
  {
  }

  lemma FinalizeHashable(e: PaymentEvent, pending: Option<Pending>)
    requires e.DecisionFinalized?
    ensures EntryOf(e, pending).Some? && EntryHashable(EntryOf(e, pending).value)
  {
    hide MeaningOf, Fields, Attestation;
    ScalarsArePlain();
    MeansTwo("goalId", Str(Decimal(e.goalId)), "seq", Str(Decimal(e.spendSeq)));
    MeansTwo("approved", Bool(e.approved), "txHash", Str(e.txHash));
    if pending.Some? {
      AttestationMeans(pending.value, e.goalId, e.spendSeq, e.approved, e.txHash, e.signatures);
    }
  }

  lemma RestHashable(e: PaymentEvent, pending: Option<Pending>)
    requires IsRecorded(e) && !e.DecisionFinalized?
    requires !(e.Request? || e.PaymentRequired? || e.TermsRejected? || e.AgentReasoning? || e.SpendRequested?)
    ensures EntryOf(e, pending).Some? && (EntryHashable(EntryOf(e, pending).value) <==> CanBeHashed(e))
  {
    hide MeaningOf, Fields;
    ScalarsArePlain();
    if e.RevealPolled? {
      MeansOne("attempts", Num(e.attempts));
      MeansTwo("approved", Bool(e.approved), "latencyMs", Num(e.latencyMs));
    } else if e.RevealTimeout? {
      MeansOne("attempts", Num(e.attempts));
      MeansTwo("reason", Str(REVEAL_TIMEOUT), "elapsedMs", Num(e.elapsedMs));
    } else if e.SignerRefused? {
      MeansOne("status", Num(e.status));
      MeansOne("reason", Str(e.reason));
    } else if e.Signed? {
      MeansTwo("nonce", Str(e.nonce), "value", Str(e.value));
    } else if e.Response200? {
      MeansOne("url", Str(e.url));
      MeansOne("fromCache", Bool(e.fromCache));
    } else if e.VendorUpstream? {
      MeansTwo("capability", e.capability, "tier", e.tier);
      VendorMeans(e.requestId, e.upstreamMs, e.quotedAtomic, e.costAtomic);
    } else if e.FailedEvent? {
      MeansOne("reason", Str(e.reason));
    }
  }

  /** The builder never throws, but for a value from outside, or a clock, that cannot be hashed. */
  predicate CanBeRecorded(e: PaymentEvent, now: int) {
    IsRecorded(e) ==> CanBeHashed(e) && 0 <= now < TWO_256
  }

  lemma AppendedIff(h: Hasher, s: State, e: PaymentEvent, now: int)
    ensures Appended(h, s, e, now).1 <==> CanBeRecorded(e, now)
  {
    hide EntryOf, EntryHashable, CanBeHashed, StepBytes;
    var pending := PendingAfter(e, s.pending);
    EntryTells(e, pending);
    if IsRecorded(e) {
      EntryHashableIff(e, pending);
      LinkedIff(h, s.steps, EntryOf(e, pending).value, now);
    }
  }

  lemma LinkedIff(h: Hasher, steps: seq<Step>, entry: Entry, now: int)
    ensures Linked(h, steps, entry, now).Some? <==> EntryHashable(entry) && 0 <= now < TWO_256
  {
    hide StepBytes, MeaningOf;
  }

  lemma {:induction false} RecordsAllIff(h: Hasher, events: seq<(PaymentEvent, int)>)
    ensures RecordAll(h, events).1 <==> forall i :: 0 <= i < |events| ==> CanBeRecorded(events[i].0, events[i].1)
  {
    hide Appended, CanBeRecorded;
    if events == [] {
    } else {
      var n := |events| - 1;
      RecordsAllIff(h, events[..n]);
      AppendedIff(h, RecordAll(h, events[..n]).0, events[n].0, events[n].1);
      assert forall i :: 0 <= i < n ==> events[..n][i] == events[i];
    }
  }
}
