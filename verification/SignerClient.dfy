/** What the orchestrator makes of the signer's HTTP answers (services/orchestrator/src/pay/signer-client.ts). */
module SignerClient {
  import opened Wrappers
  import opened HexText
  import opened Json
  import opened Events
  import opened RunLanguage
  import Signer

  /** What came back: nothing, a success with its body, or another status. */
  datatype HttpAnswer =
    | NoAnswer
    | Success(authorization: SignedAuthorization)
    | Status(status: nat, reason: string, retryAfter: Option<nat>)

  /** `retry-after` in whole seconds, a minute at most, and 0 when there is none. */
  function RetryAfter(header: Option<nat>): (seconds: nat)
    ensures seconds <= 60 && (header.None? ==> seconds == 0)
    ensures header.Some? && header.value <= 60 ==> seconds == header.value
  {
    match header
    case None => 0
    case Some(seconds) => if seconds > 60 then 60 else seconds
  }

  /** `authorize`: "not yet" and "slow down" can be asked again, any other refusal is final. */
  function AnswerOf(http: HttpAnswer): Answer {
    match http
    case NoAnswer => Unreachable
    case Success(authorization) => SignedAnswer(authorization)
    case Status(status, reason, retryAfter) =>
      if status == 425 then NotReady
      else if status == 429 then RateLimited(RetryAfter(retryAfter))
      else RefusedAnswer(status, reason)
  }

  /** How the signer's own outcome travels (services/signer/src/http.ts). A throw is its server's 500. */
  function HttpOf(o: Signer.Outcome, payload: string, reason: string): HttpAnswer {
    match o
    case Issued(m, termsHash) =>
      Success(SignedAuthorization(ToHex(m.nonce), Decimal(m.value), payload, ToHex(termsHash)))
    case Refused(status) => Status(status, reason, None)
    case Threw => Status(500, reason, None)
  }
}
