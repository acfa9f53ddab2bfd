/** What the payment loop emits and the trace builder consumes (services/orchestrator/src/pay/payment-loop.ts). */
module Events {
  import opened Hashing
  import opened Json

  /** A `0x…` string, passed through untouched. */
  type Hex = string

  datatype Terms = Terms(
    amount: U256, payTo: Hex, asset: Hex, resource: string, description: string, maxTimeoutSeconds: nat)

  /** What `requestSpend` reports once its transaction is confirmed. */
  datatype Spend = Spend(
    spendSeq: nat, decisionHandle: Hex, termsHash: Hex, validAfter: nat, validBefore: nat, commitTx: Hex)

  datatype ReclaimReport = IsWaiting | IsReclaimed | IsCollected | IsDeferred | HasFailed

  datatype PaymentEvent =
    | Request(url: string, attempt: nat)
    | Response200(url: string, fromCache: bool)
    | PaymentRequired(url: string, terms: Terms)
    | TermsRejected(url: string, error: string)
    | AgentReasoning(reasoning: string, modelSafeTerms: Value, decidedToRequest: bool, source: string)
    | SpendRequested(goalId: nat, spend: Spend)
    | RevealPolled(attempts: nat, latencyMs: int, approved: bool)
    | RevealWaiting(attempts: nat, elapsedMs: int)
    | RevealTimeout(attempts: nat, elapsedMs: int)
    | DecisionFinalized(goalId: nat, spendSeq: nat, approved: bool, txHash: Hex, signatures: seq<Hex>)
    | OrphanRecovered(spendSeq: nat, approved: bool, txHash: Hex)
    | OrphanAbandoned(spendSeq: nat, reason: string)
    | SignerRefused(status: int, reason: string)
    | Signed(nonce: Hex, value: string)
    | Settled(settlement: Value)
    | ReclaimEvent(goalId: nat, spendSeq: nat, outcome: ReclaimReport, validBefore: nat)
    | FailedEvent(reason: string)
    /** Not emitted by the loop; the vendor's own account, recorded by the server. */
    | VendorUpstream(capability: Value, tier: Value, requestId: Value, upstreamMs: Value, quotedAtomic: Value,
         costAtomic: Value)
}
