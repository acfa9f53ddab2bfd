/**
 * The part of USDC the protocol relies on: EIP-3009 `transferWithAuthorization`
 * and `authorizationState`. The token's source is not part of the repository;
 * these are the rules of EIP-3009, and they are assumptions.
 */
module Token {
  import opened Wrappers
  import opened Hashing
  import opened Vault

  /** The signed EIP-3009 tuple. */
  datatype Message = Message(
    from: Address, to: Address, value: nat, validAfter: nat, validBefore: nat, nonce: Bytes)

  datatype Ledger = Ledger(used: set<(Address, Bytes)>, balances: map<Address, nat>)

  datatype TokenError = NotYetValid | Expired | AlreadyUsed | BadSignature | ZeroRecipient | InsufficientBalance

  function BalanceOf(t: Ledger, a: Address): nat {
    if a in t.balances then t.balances[a] else 0
  }

  predicate AuthorizationState(t: Ledger, authorizer: Address, nonce: Bytes) {
    (authorizer, nonce) in t.used
  }

  function Move(t: Ledger, from: Address, to: Address, value: nat): Ledger
    requires value <= BalanceOf(t, from)
  {
    var debited := t.balances[from := BalanceOf(t, from) - value];
    t.(balances := debited[to := (if to in debited then debited[to] else 0) + value])
  }

  /** `signed`: the signature is the authorizer's over exactly this message. */
  function TransferWithAuthorization(t: Ledger, m: Message, signed: bool, now: nat): Result<Ledger, TokenError> {
    if now <= m.validAfter then Err(NotYetValid)
    else if now >= m.validBefore then Err(Expired)
    else if AuthorizationState(t, m.from, m.nonce) then Err(AlreadyUsed)
    else if !signed then Err(BadSignature)
    else if m.to == 0 then Err(ZeroRecipient)
    else if BalanceOf(t, m.from) < m.value then Err(InsufficientBalance)
    else Ok(Move(t, m.from, m.to, m.value).(used := t.used + {(m.from, m.nonce)}))
  }
}
