# LedgerLighthouse, verified

LedgerLighthouse lets an orchestrator that nobody trusts buy x402 resources.
A vault (`PolicyVault`) debits a hidden budget and freezes the terms of each
spend before anyone knows the decision; a signer whose keys never leave an
enclave signs only what the vault froze and finalized as approved; a
facilitator settles the signature through EIP-3009; and every run leaves a
trace that anyone can check offline. This project models that system in Dafny
and proves what it promises.

Check it with `dafny verify dfyconfig.toml`.

## How it is built

- **The protocol** (`Vault`, `Token`, `Signer`, `Protocol`, `Guarantees`,
  `Provenance`, `VaultAnswers`, `Liveness`, `Secrecy`, `Facilitator`) is a transition system. The vault follows the contract
  function by function, Solidity's widths, wraps and checked arithmetic
  included. An adversary chooses every action, in any order, any number of
  times: opening, committing, finalizing, reclaiming, asking for signatures
  from arbitrarily stale and torn reads, submitting any signed message, moving
  tokens, letting time pass. An invariant over every run carries the theorems:
  bounds on what money moves (`Guarantees`), when it does move (`Liveness`),
  when the vault says yes (`VaultAnswers`), where each record comes from
  (`Provenance`), and what the encrypted limits leak (`Secrecy`). `ExampleRun` gives runs in full that
  reach the bounds and the warnings.
- **The orchestrator** (`Environment`, `Relay`, `X402Client`, `RunLanguage`,
  `SignerClient`, `SignerAnswers`, `PaymentLoop`) is imperative, as in the source: classes, retry loops and
  the `#finalized` set, run against a `World` that others move on between any
  two steps, whose nodes answer any read and any gas estimate from any past
  state, and which may lose any answer. A run writes a ghost log of everything
  it does; the loop is proved to stay inside an automaton, and the automaton's
  words are proved to obey the payment rules. Every call outside counts its
  failure in a ghost counter and every request that leaves is listed with what
  it carried, so a method's failure is proved to have its cause outside.
- **The trace package** (`Json`, `Canonical`, `Merkle`, `Traces`, `Verify`,
  `Builder`, `StepContent`, `TraceFile`, `TraceStore`, `RunTrace`). Keccak is an arbitrary
  function from bytes to 32 bytes, never assumed injective. Each soundness
  theorem says: the claim holds, or two of the byte strings that were actually
  hashed collide. The set of those strings is part of the statement, because
  "some collision exists" alone is true of every such function.
- **The event stream** (`Text`, `Sse`): the server's writer against the
  browser's chunked reader, JSON included.
- **The key store and its limits** (`KeyStore`, `KeyEpochs`, `KeyService`,
  `RateLimit`, `EnclaveLimit`): the store is imperative, its many boots and disks are
  a machine, and the signer's process is proved to take the machine's steps.

Signatures are unforgeable tokens: a message counts as signed only if the
holder of its key signed it. The EIP-3009 rules in `Token` are assumptions;
the token's source is not part of the repository.

## What the proofs found

- The repository's `README.md:172` lists no refund on timeout; the contract
  has one (`reclaimExpired`), and the model follows the contract.
- The facilitator answers "already used" before it compares any terms
  (`services/facilitator/src/facilitator.ts:225-240`). So its success means that the nonce was consumed,
  not that these requirements were met; `Facilitator.Facilitator.Settle` says exactly
  which success means which, and `Guarantees.ConsumedMeansPaid` why an already used
  nonce is still the same spend's.
- The facilitator's window check lets the second of `validAfter` itself pass,
  and the token does not (`Facilitator.VerifiedExecutes`).
- `requestSpend` tells a pending spend by the words of the error, and the client
  library prints the call's arguments in that text, the vendor's resource among
  them. A resource that includes "SpendPending" makes a lost submission look like
  a refusal, and a second commit leaves. One commit per call holds if and only if
  the resource does not include the word (`Relay.OneCommitIff`, `Relay.TwoCommits`);
  in `ExampleRun.BothCommitsLand` both take effect.
  What the commit nobody reports has debited can be finalized by anyone and, unpaid, reclaimed (`Guarantees.NothingStranded`).
- The signer reads a spend with five calls that different nodes may answer. The
  signed tuple cannot be torn by that, but the terms hash returned beside it is
  zero exactly when its own read came from before the commit
  (`Signer.SignedIsFrozen`, `ExampleRun.TornReadHappens`). The run then finds the
  terms mismatched, sends nothing and reclaims (`PaymentLoop.TornHashMismatches`).
- The same five reads can answer "never" about an approved spend: with `isFinalized`
  from after the finalize and `isApproved` from before it, the signer refuses with 403,
  and the client does not ask again (`Signer.ApprovedRefusedIff`, `ExampleRun.TornRefusalHappens`).
  The run then reclaims. A refusal whose reads come from the head is for good
  (`SignerAnswers.NeverIsForGood`).
- A balance of a closed goal that equals one swept before cannot be swept: its nonce
  is the same, so it waits until the balance changes (`Liveness.ClosedIsSweepable`).
- The contract says that the relay learns at most `maxAttempts` bits about the budget
  and the cap. That holds against an attacker who sees everything else and adapts
  (`Secrecy.AtMostMaxAttemptsBits`), and it is exact (`ExampleRun.EveryAttemptTellsABit`).
- A member named `__proto__` leaves no mark on a payload's hash
  (`Canonical.ProtoIsInvisible`), and the empty list and the list of one empty
  string have the same Merkle root (`Merkle.EmptyRootIsAmbiguous`). Both are outside
  what step hashes are.
- The header of a trace is not committed (`Verify.HeaderIsNotCommitted`).
- The comment at `services/signer/src/main.ts:175-182` says that after a rebuild
  the counter never hands out an id that is already bound. A payer minted before a
  disk wipe and bound after the rebuild is handed out again
  (`KeyEpochs.BoundAfterTheRebuild`). It holds exactly while every id ever issued
  is below the counter (`KeyEpochs.NeverReissuesBoundIff`).
- A limiter with a limit of zero admits the first call of every window
  (`RateLimit.ZeroAdmitsOne`), and one less than twice the limit is the exact worst
  case over one window length (`RateLimit.BoundIsReached`).

## Model

| member | source | states |
|---|---|---|
| Guarantees.ExtractionBound | README.md:131-134 | in every run of every adversary, what the payees of a goal receive is at most min(opening budget, cap times calls) |
| ExampleRun.ExtractionBoundIsReached | README.md:131-134 | for every amount a run in full in which the payees receive exactly that bound |
| Liveness.ApprovedIsPayable | services/signer/src/service.ts:288-454 | in every run an approved spend of a held payer is paid by asking the signer and submitting the answer if and only if its window is open, the payee is not zero, the payer holds the amount and the nonce is unused; otherwise nothing moves |
| Liveness.ClosedIsSweepable | services/signer/src/service.ts:174-275 | in every run a sweep moves the whole balance of a closed goal's payer to its owner and nothing else, if and only if the nonce of this goal and balance is unused; otherwise nothing changes |
| Secrecy.LooksTheSameIff | contracts/src/PolicyVault.sol:28-45 | two choices of budget and cap have looked the same to an adaptive attacker, who sees all but them at every step, if and only if the decisions so far agree; at most maxAttempts decisions are ever made |
| Secrecy.AtMostMaxAttemptsBits | contracts/src/PolicyVault.sol:37-45 | over all budgets and caps, such an attacker sees one of at most 2 ^ maxAttempts things in a run of any length |
| ExampleRun.EveryAttemptTellsABit | contracts/src/PolicyVault.sol:30-36 | m attempts read off every budget of m binary digits, so the bound on bits is exact |
| Guarantees.Conservation | contracts/src/PolicyVault.sol:410-436 | opening budget = what remains plus debits not given back; likewise calls and attempts; so the wrapping encrypted arithmetic never wraps |
| Guarantees.PolicyIsExact | contracts/src/PolicyVault.sol:329-436 | in every reachable state a commit is decided approved if and only if the amount is within the cap, within the opening budget beside all debits, and a call is left; only the relay asks, only for allowlisted payees |
| Guarantees.EveryTransferExpected | services/signer/src/service.ts:288-454 | every transfer out of a held payer is a sweep to the owner of its closed goal or the frozen tuple of an approved, unreclaimed spend to an allowlisted payee within the cap |
| Guarantees.NothingTwice | contracts/src/PolicyVault.sol:552-554 | the token executes no nonce twice, pays no spend twice, and sweeps no balance of one goal twice |
| Guarantees.OnePayerOneGoal | contracts/src/PolicyVault.sol:238-298 | in every run no two goals share a payer |
| Guarantees.SettleExcludesReclaim | contracts/src/PolicyVault.sol:489-518 | no interleaving both pays a spend and gives its amount back |
| Guarantees.DecidedForGood | contracts/src/PolicyVault.sol:489-518 | once reclaimed never paid afterwards, once paid never reclaimed afterwards, over every continuation; and after a reclaim the token never consumes the spend's nonce at all, or two nonce encodings collide |
| Guarantees.ReclaimedIsNeverConsumed | contracts/src/PolicyVault.sol:489-518 | the same as one predicate of a reclaimed spend over every continuation, which a `reclaimed` report carries |
| Guarantees.NothingStranded | contracts/src/PolicyVault.sol:489-518 | after its window an approved spend can be reclaimed if and only if its nonce is unused and it was not reclaimed: the contract's counter check never blocks it |
| Guarantees.NeverWedged | contracts/src/PolicyVault.sol:452-475 | whatever is pending, the true decision finalizes it, with checked arithmetic, and frees the goal |
| Provenance.EverySpendWasRequested | contracts/src/PolicyVault.sol:329-403 | in every run each recorded spend was committed by one request of the goal's relay while it was open, with that amount, payee and resource; its window ends at the latest instant within an hour of the block, payBy and the expiry |
| VaultAnswers.OpenIsExact | contracts/src/PolicyVault.sol:238-298 | in every run a goal opens exactly when the fee is paid, its parameters are well formed and no goal has its payer, and then holds what it was opened with |
| VaultAnswers.OpenRefusalsAreSo | contracts/src/PolicyVault.sol:238-298 | each refusal of an opening is true |
| VaultAnswers.CommitIsExact | contracts/src/PolicyVault.sol:329-403 | in every run a commit is accepted exactly when the open, unexpired goal's relay asks for an allowlisted payee, a positive amount and a hold not passed, every earlier spend is finalized and fewer were asked than allowed; the hidden limits never refuse one |
| VaultAnswers.CommitRefusalsAreSo | contracts/src/PolicyVault.sol:329-366 | each refusal of a commit is true |
| VaultAnswers.FinalizeIsExact | contracts/src/PolicyVault.sol:452-475 | in every run a decision is finalized exactly when it is the true one of a spend that has none yet; each refusal about the spend is given exactly when it is so |
| VaultAnswers.ReclaimIsExact | contracts/src/PolicyVault.sol:489-518 | in every run each answer to a reclaim is given exactly when it is so |
| VaultAnswers.CloseIsForGood | contracts/src/PolicyVault.sol:302-308 | only the owner closes a goal, and over every continuation it stays closed and takes no commit |
| Guarantees.DecisionsAreTrue | contracts/src/PolicyVault.sol:452-475 | a finalized decision is the one the policy made, and an approved amount is within the cap |
| Protocol.RunInv | services/signer/src/service.ts:355-426 | the invariant (books, frozen signatures, executed nonces, exclusion) holds after every sequence of actions |
| Protocol.RequestKeepsGoal | contracts/src/PolicyVault.sol:329-403 | a commit keeps the vault's books, allowlist and one-pending rule |
| Protocol.FinalizeKeepsGoal | contracts/src/PolicyVault.sol:452-475 | a finalize keeps them, approval equal to the decision included |
| Protocol.ReclaimKeepsGoal | contracts/src/PolicyVault.sol:489-518 | a reclaim keeps them, giving back one debit and one call |
| Vault.RequestSpendLater | contracts/src/PolicyVault.sol:329-403 | a commit changes no earlier record |
| Vault.SpendNonceBinds | contracts/src/PolicyVault.sol:552-554 | two spends with one nonce are one spend, or the two 64-byte encodings collide |
| Vault.TermsHashBinds | contracts/src/PolicyVault.sol:372-386 | one terms hash means one set of all nine terms, resource text included, or a collision |
| Signer.SignedIsFrozen | services/signer/src/service.ts:288-454 | however stale and torn the reads, a signature is over exactly the tuple the head has frozen for a spend finalized and approved there; the terms hash beside it is the recorded one exactly when its own read saw the spend, a recorded zero apart (what the refusals mean is in the rows after it) |
| Signer.AnswersMean | services/signer/src/service.ts:288-426 | with reads from one state each answer is given exactly when it is so: 425 not finalized, 403 finalized and not approved, 410 window closed, 409 another token, 404 no goal, spend or key, 503 another chain, 500 another domain, and a signature otherwise |
| SignerAnswers.HeardIsSo | services/orchestrator/src/pay/signer-client.ts:170-178 | in every run, with reads at the head, the client hears "not ready" if and only if the spend is not finalized, a 403 refusal if and only if it is finalized and not approved, a 410 if and only if its window closed, a signature if and only if it is approved, live and its key held |
| SignerAnswers.NotReadyBecomesSigned | services/signer/src/service.ts:323-332 | after "not ready", finalizing the true decision makes the next answer a signature if and only if it is an approval and the window is open, and otherwise a 403 if it is none |
| SignerAnswers.NeverIsForGood | services/signer/src/service.ts:334-378 | a 403 or a 410 answered from the head is never followed by a signature, over every continuation and however torn the later reads |
| Signer.ApprovedRefusedIff | services/signer/src/vault.ts:102-133 | an approved spend is refused with 403 if and only if `isFinalized` was read from after its finalize and `isApproved` from before it |
| ExampleRun.TornRefusalHappens | services/signer/src/vault.ts:102-133 | a run in full in which that happens, while reads at the head sign |
| Signer.SweepAnswersMean | services/signer/src/service.ts:174-239 | each refusal of a sweep is given exactly when it is so |
| Signer.TornReadSignsZero | services/signer/src/vault.ts:102-133 | for every approved spend with an open window, one read answered from before the commit signs with a zero terms hash |
| ExampleRun.TornReadHappens | services/signer/src/vault.ts:102-133 | a run in full (open, commit, decide) after which one stale read signs the approved spend beside a zero terms hash, whatever hash of its terms is recorded |
| PaymentLoop.TornHashMismatches | services/orchestrator/src/pay/payment-loop.ts:518-530 | however stale and torn the signer's reads, its answered text differs from the committed one if and only if the terms hash alone was read from before the commit and the recorded one is not zero; Pay then reclaims |
| Signer.RetriesAreIdentical | services/signer/src/service.ts:288-454 | any two signatures for one spend, at any clocks and reads, are over one tuple; their terms hashes differ only if one is zero |
| Signer.SweepPaysTheOwner | services/signer/src/service.ts:174-275 | a sweep moves the whole balance to the owner of a goal that is closed for good |
| Signer.SweepsShareANonce | services/signer/src/service.ts:213-243 | sweeps of one goal and balance share one nonce at any clock; NothingTwice says at most one executes |
| Signer.SweepIsNoSpend | services/signer/src/service.ts:213-243 | a sweep nonce equals no spend nonce of any goal, unless a 160-byte and a 64-byte encoding collide |
| Signer.SweepNonceBinds | services/signer/src/service.ts:213-243 | one sweep nonce means one goal and one balance, or a collision |
| Facilitator.VerifiedExecutes | services/facilitator/src/facilitator.ts:108-208 | on one state, passing verify is the same as meeting the terms and being executable by the token, but for two named edges |
| Facilitator.Facilitator.Verify | services/facilitator/src/facilitator.ts:108-208 | valid implies the terms are met, the payer signed, and every node read shows it in its window, unused and funded; each refusal is so of the terms, the clock, the signature or the node it was read from; it throws exactly when a read failed |
| Facilitator.Facilitator.SubmitPayment | services/facilitator/src/facilitator.ts:252-287 | a signed payment leaves exactly when the token executes it at the estimating node, and settles exactly when it also does where it lands and the outcome is not lost |
| Facilitator.Facilitator.Settle | services/facilitator/src/facilitator.ts:219-294 | success implies the nonce is consumed; a payment that passes at every node that was read leaves exactly one transaction, and settles exactly when the token executes it where it lands; a failed submission left nothing only if the estimate refused it; refusals are so; a new transfer happens at most once, only on terms met, never if consumed before; "already settled" exactly when the first read shows it |
| Guarantees.UsedIsExecuted | services/facilitator/src/facilitator.ts:225-240 | in every run a consumed nonce stands for an executed transfer |
| Guarantees.ConsumedMeansPaid | services/facilitator/src/facilitator.ts:212-240 | in every run a spend's nonce is consumed only by paying that spend, or two nonce encodings collide |
| Facilitator.AlreadySettledIsPaid | services/facilitator/src/facilitator.ts:225-240 | a settlement reported as already done, for a spend's authorization, is that spend's payment, or two encodings collide |
| Facilitator.SettledThoughUnmet | services/facilitator/src/facilitator.ts:225-240 | a concrete run and requirements that were not met, for which the first read shows the nonce consumed, so settle reports success |
| Environment.World.Elapse | services/orchestrator/src/pay/relay.ts:144-158 | whatever others do, the chain only moves on: history, log and every true fact are kept |
| Relay.VaultRelay.RequestSpendOnce | services/orchestrator/src/pay/relay.ts:182-241 | at most one transaction leaves, none when the estimate reverts; a reported spend is new and in the vault with this amount, payee and window ending by payBy; it fails only for a call that failed, a payBy that does not fit, or a state in which the vault refuses the commit |
| Relay.VaultRelay.RequestSpend | services/orchestrator/src/pay/relay.ts:160-180 | what leaves is exactly what the attempts of one call may send, under stale estimates and stale reads; only refusals that name SpendPending are retried, while the pending seq reads as none or known finalized, five times at most |
| Relay.OneCommitIff | services/orchestrator/src/pay/relay.ts:160-180 | one call sends at most one commit, whatever is answered, if and only if the vendor's resource does not include "SpendPending" |
| Relay.TwoCommits | services/orchestrator/src/pay/relay.ts:168-176 | with such a resource, a submission whose answer is lost and a pending read of zero send a second commit, however that one ends |
| ExampleRun.BothCommitsLand | services/orchestrator/src/pay/relay.ts:160-180 | a run in full in which both commits of one call take effect and are debited, and the call reports only the second |
| Relay.ResourceNamingIt | services/orchestrator/src/pay/relay.ts:168-176 | such a resource can be an ordinary path |
| Relay.VaultRelay.FinalizeDecision | services/orchestrator/src/pay/relay.ts:249-272 | only a confirmed finalize enters the set, and each entry is finalized at the true head; it fails only for a call that failed or a state in which the vault refuses it |
| Relay.VaultRelay.ReclaimOnce | services/orchestrator/src/pay/relay.ts:301-318 | a refusal from a stale estimate is true at the head: reclaimed, or the nonce used; any failure is a call's that failed or the vault's own refusal in some state |
| Relay.VaultRelay.ReclaimExpired | services/orchestrator/src/pay/relay.ts:285-299 | the last attempt decides, both ways: confirmed is reclaimed, AuthorizationUsed is collected, AlreadyReclaimed is already, six times AuthorizationLive is live, anything else is thrown; only AuthorizationLive is tried again, two seconds apart; each report is so at the head; at most one transaction leaves |
| Relay.VaultRelay.ReadWindow | services/orchestrator/src/pay/relay.ts:358-370 | the end of the window some node has recorded for the spend, zero if it has none; it fails only when the read does |
| Relay.VaultRelay.WaitUntilVisible | services/orchestrator/src/pay/relay.ts:382-397 | ends; every answered read before the last did not show what is waited for, the last one does exactly if it returns true, and false takes the whole timeout |
| Relay.CommitRecorded | services/orchestrator/src/pay/relay.ts:182-241 | a commit that took effect is the goal's newest spend and stays as recorded, whatever follows |
| Relay.RefusalIsTrue | services/orchestrator/src/pay/relay.ts:274-299 | the vault's refusal seen from any past state still holds at the head |
| X402Client.ResponseCache.Get | services/orchestrator/src/x402/cache.ts:63-71 | a hit is the stored response unless it is too old, and then it is deleted |
| X402Client.Client.FetchResource | services/orchestrator/src/x402/client.ts:139-206 | a cached URL answers with no request unless paying or fresh; otherwise requests of this URL, each with this payment or none, leave until one answer is final, at most the attempt bound, and that answer decides; it waits between two attempts and only there, what the policy says each time; only a 200 is stored; other entries are untouched |
| X402Client.BackoffTotal | services/orchestrator/src/x402/client.ts:110-112 | the waits of one request are a geometric sum: (factor - 1) times their total is the next delay less the first |
| RunLanguage.CommitsInPhase | services/orchestrator/src/pay/payment-loop.ts:317-408 | nothing leaves before the agent agreed or in a run that ends before its commit; a reported spend was sent |
| RunLanguage.OneSpendReported | services/orchestrator/src/pay/payment-loop.ts:400-408 | a run reports at most one spend as committed |
| RunLanguage.DeclineCommitsNothing | services/orchestrator/src/pay/payment-loop.ts:360-371 | a declined run commits nothing and does nothing after |
| RunLanguage.SignerOnlyAfterApproval | services/orchestrator/src/pay/payment-loop.ts:472-485 | the signer is asked only about the run's own spend after its own approval was finalized |
| RunLanguage.PaymentOnlyIfTermsMatch | services/orchestrator/src/pay/payment-loop.ts:508-539 | X-PAYMENT leaves only with an authorization the signer gave for this spend, with the committed terms hash |
| RunLanguage.PaymentsInPhase | services/orchestrator/src/pay/payment-loop.ts:508-584 | a run presents at most one payment, none before it is paying, and a paid run exactly one |
| RunLanguage.PaidOrReclaimedOnce | services/orchestrator/src/pay/payment-loop.ts:484-584 | a run whose log holds an approval of a spend, once over, either paid that spend with no reclaim since the commit, or failed with exactly one, of that spend |
| RunLanguage.ApprovalStays | services/orchestrator/src/pay/payment-loop.ts:464-584 | an approval in the log is never left behind: the run is past it, with that spend |
| RunLanguage.FinalizesOwn | services/orchestrator/src/pay/payment-loop.ts:446-470 | after the commit every finalize is for that spend |
| RunLanguage.FinalizesOwnOrOrphan | services/orchestrator/src/pay/payment-loop.ts:611-694 | before the commit a finalize is an orphan's, after it the run's own |
| PaymentLoop.PaymentLoop.PollForDecision | services/orchestrator/src/inco/reveal.ts:67-101 | the poll ends, with reads an interval apart and bounded by the deadline; the first revealed answer is what it returns, and it times out only at the deadline with none |
| PaymentLoop.PaymentLoop.AskVault | services/orchestrator/src/pay/payment-loop.ts:746-768 | the report is the one of the vault's answer, and a failed one has its cause outside |
| PaymentLoop.PaymentLoop.ReclaimSpend | services/orchestrator/src/pay/payment-loop.ts:726-768 | the vault is asked only after the window and its grace, and not at all exactly when that is further off than may be waited; the last report is the vault's answer and true: reclaimed is at the head and never to be paid, collected is consumed |
| PaymentLoop.PaymentLoop.AuthorizeWithRetry | services/orchestrator/src/pay/payment-loop.ts:799-813 | a bounded number of asks, each "ask again" waited as long as the signer asked, between one second and ten; all but the last say ask again, and the last answer is returned; "ask again" only when they are used up |
| PaymentLoop.PaymentLoop.RecoverOrphan | services/orchestrator/src/pay/payment-loop.ts:611-711 | an orphan a node showed is finalized as Inco revealed it and an approved one asked back, or the run stops because a call failed, the reveal timed out or the vault refuses it; never sends a finalize for a seq the relay already saw confirmed |
| PaymentLoop.PaymentLoop.CommitSpend | services/orchestrator/src/pay/payment-loop.ts:384-408 | with less than the minimum hold left nothing is committed, both ways; otherwise the spend is recorded with the quoted amount and payee and a window within the hold, or a call failed, or the vault refuses the commit in some state; commits within the limit of one call |
| PaymentLoop.PaymentLoop.FinalizeOwn | services/orchestrator/src/pay/payment-loop.ts:436-470 | a finalized own decision is so at the head and is told with the polled decision and all its signatures; it fails only for a call that failed or the vault's refusal |
| PaymentLoop.PaymentLoop.SendPayment | services/orchestrator/src/pay/payment-loop.ts:538-584 | every request that leaves carries exactly the signed authorization, never the cache's answer, and the run is paid exactly when the last of them was answered with the resource that is returned |
| PaymentLoop.PaymentLoop.Pay | services/orchestrator/src/pay/payment-loop.ts:508-584 | a terms mismatch, exactly, sends nothing and reclaims; otherwise the payment is presented as in SendPayment, paid stores the body, anything else reclaims once and reports truly |
| PaymentLoop.PaymentLoop.FetchPaid | services/orchestrator/src/pay/payment-loop.ts:317-584 | whatever everyone answers, the log is a word of the run language ending as the result says; the requests that left are the first one's, with no payment, and then those carrying the one payment in the log, and a paid result is the answer to the last of them; the result is what was heard makes of it, each failure with its cause outside; an approval ends paid or in one reclaim; at most one commit leaves unless the quoted resource includes "SpendPending", and then five; a result about a spend is true on chain, recorded as quoted; no finalize for a seq known finalized; a cached URL is returned untouched |
| PaymentLoop.PaymentLoop.RetryRuns | services/orchestrator/src/x402/cache.ts:53-88 | over any series of retried runs with the default cache each URL is paid at most once, and later runs return the same body with no request |
| RunTrace.PendingIsOwn | services/trace/src/builder.ts:126-148 | what the builder holds pending is the run's own spend |
| RunTrace.AttestationsCiteOwnCommit | services/trace/src/builder.ts:126-192 | for every event stream a run can emit, each decision-finalized step, read back by key, says its own finalize, and its attestation the handle and transaction of the commit that run reported before, its own transaction and decision, and exactly its 0x signatures |
| StepContent.EntryTells | services/trace/src/builder.ts:90-254 | every recorded event becomes a step whose kind and whose inputs and outputs, read back by key, are the event's own fields and nothing else; the other events become none |
| StepContent.AttestationReads | services/trace/src/builder.ts:170-190 | the attestation read back by key, its signatures the 0x strings in order |
| StepContent.StepsTellEvents | services/trace/src/builder.ts:68-254 | the trace of a stream says exactly its recorded events, one step each, in order, at the builder's clock, and only finalizes carry an attestation |
| StepContent.RecordsAllIff | services/trace/src/builder.ts:68-88 | recording throws if and only if a value from outside, or the clock, cannot be hashed |
| Json.StringifyParse | services/trace/src/canonical.ts:61-67 | parsing a printed JSON value, compact or indented, gives it back |
| Canonical.Canonicalize | services/trace/src/canonical.ts:23-58 | the key-by-key loop computes the canonical form |
| Canonical.SameBytesSameMeaning | services/trace/src/canonical.ts:23-63 | canonical bytes are equal if and only if the values mean the same: order of members, undefined members and bigint against its decimal string are all that is lost |
| Canonical.SameLookupsSameBytes | services/trace/src/canonical.ts:44-58 | objects that read the same by every key have the same bytes |
| Canonical.CanonicalJsonParses | services/trace/src/canonical.ts:61-63 | canonical text parses back to the canonical value |
| Canonical.SamePayloadSameMeaning | services/trace/src/canonical.ts:65-67 | equal payload bytes are equal meanings |
| Canonical.CanonicalAscends | services/trace/src/canonical.ts:44-58 | at every depth each key is a proper prefix of the next ones or has the smaller character where they first differ |
| Canonical.ProtoIsInvisible | services/trace/src/canonical.ts:44-58 | a `__proto__` member leaves no mark |
| Merkle.MerkleRoot | services/trace/src/merkle.ts:35-50 | the level loop with promoted nodes computes the root function |
| Merkle.TreeOfList | services/trace/src/merkle.ts:35-50 | that root is the hash of a tree whose in-order leaves are the list |
| Merkle.RootInjective | services/trace/src/merkle.ts:9-50 | equal roots give equal lists of any lengths, or a collision among the strings hashed, but for one named pair |
| Merkle.EmptyRootIsAmbiguous | services/trace/src/merkle.ts:22-29 | that pair is real |
| Merkle.MerkleProof | services/trace/src/merkle.ts:58-85 | the loop computes the path, and throws exactly on a bad index |
| Merkle.VerifyMerkleProof | services/trace/src/merkle.ts:87-93 | the loop accepts exactly the proofs that climb to the root |
| Merkle.ProofComplete | services/trace/src/merkle.ts:58-93 | every leaf's own proof is accepted, at levels that promote too |
| Merkle.ProofSound | services/trace/src/merkle.ts:87-93 | any accepted value is in the list, or a collision, whatever path is presented |
| Traces.StepHashBinds | services/trace/src/step.ts:89-103 | one step hash means one type, time, inputs, outputs, attestation (present or absent) and prior hash, or a collision |
| Traces.NoAttestationIsNoPayload | services/trace/src/step.ts:89-103 | the marker for no attestation is no payload's text |
| Verify.VerifyTrace | services/trace/src/verify.ts:60-148 | the offline verifier's findings, count and verdict are exactly the acceptance predicate's |
| Verify.TraceSound | services/trace/src/verify.ts:82-148 | two accepted traces with one root agree step by step, or a collision among the strings hashed |
| Verify.ProofNamesAStep | services/trace/src/merkle.ts:87-93 | a Merkle proof against an accepted trace's root names one of its steps, or a collision |
| Builder.TraceBuilder.RecordEvent | services/trace/src/builder.ts:90-254 | one event is recorded as the specification says, and the chain stays sound even when hashing throws |
| Builder.TraceBuilder.Build | services/trace/src/builder.ts:257-266 | what is built is accepted by the offline verifier |
| Builder.RecordAllVerifies | services/trace/src/builder.ts:68-266 | every event sequence builds an accepted trace |
| TraceFile.SaveLoad | services/orchestrator/src/trace-store.ts:58-64 | a saved trace loads as the same trace in stored form |
| TraceFile.SavedTraceVerifies | services/orchestrator/src/trace-store.ts:58-64 | an accepted trace is accepted again after the file, with the same root and content |
| TraceFile.BuiltTraceSurvivesDisk | services/orchestrator/src/trace-store.ts:101-103 | build, save, load, verify succeeds for every event sequence |
| TraceStore.TraceStore.Save | services/orchestrator/src/trace-store.ts:58-75 | a crash or a throw anywhere leaves whole files, the old trace or the new one, and it fails only for such a fault; the cache is updated last and in use order, and within its bound stays within it |
| TraceStore.TraceStore.Get | services/orchestrator/src/trace-store.ts:77-97 | returns the last completed save of any process, or nothing exactly when there is none or the read failed; only a disk read grows the cache |
| Text.SplitExtends | apps/web/src/lib/run.ts:178-181 | splitting is incremental in the last part |
| Sse.EventStream.Emit | services/orchestrator/src/server.ts:462-468 | what is written is the stream of the events sent |
| Sse.ReadStream | apps/web/src/lib/run.ts:169-193 | under every chunking the reader yields what the frames of the whole text decode to |
| Sse.FrameRoundTrip | apps/web/src/lib/run.ts:183-191 | a frame decodes to its channel and data, and throws exactly for undefined data |
| Sse.StreamRoundTrip | apps/web/src/lib/run.ts:169-193 | the emitted events are read back exactly and in order, however the text is cut |
| Sse.ResponseRoundTrip | services/orchestrator/src/server.ts:462-468 | whatever a server emitted on its five channels comes back from any chunking |
| Sse.CutStream | apps/web/src/lib/run.ts:178-181 | a stream cut anywhere yields a prefix of its events and never throws |
| KeyStore.RoflKeyStore.Scan | services/signer/src/keystore.ts:354-368 | the scan ends for every finite set of bound ids, at the first run of gap unbound ids, and finds exactly the bound ids before it |
| KeyStore.RoflKeyStore.Recover | services/signer/src/keystore.ts:348-376 | found payers become signable and the counter is highest plus one, on disk; it throws exactly when a call outside failed, and then leaves the namespace unrecorded |
| KeyStore.RoflKeyStore.Mint | services/signer/src/keystore.ts:378-391 | the id is one this disk never handed out, whatever failed before; the counter is on disk first; it throws exactly when a call outside failed |
| KeyStore.RoflKeyStore.MintTogether | services/signer/src/keystore.ts:378-391 | any number of mints in one process, interleaved and failing in any way: no two get one id, and none an id this disk handed out before |
| KeyStore.RoflKeyStore.SignerFor | services/signer/src/keystore.ts:393-399 | a signer exactly for the addresses held, and of that address |
| KeyStore.ScanFindsAll | services/signer/src/keystore.ts:348-376 | a scan finds every bound id if and only if every hole is shorter than the gap |
| KeyStore.BoundIdsAreFinite | services/signer/src/keystore.ts:354-368 | finitely many payers are finitely many ids when derivation is injective |
| KeyEpochs.AlwaysSound | services/signer/src/keystore.ts:348-391 | the invariant over every sequence of boots, mints, crashes, bindings and wipes |
| KeyEpochs.HolesWereTaken | services/signer/src/keystore.ts:259-266 | below a bound id everything was handed out or skipped |
| KeyEpochs.OncePerDisk | services/signer/src/keystore.ts:252-257 | no id is handed out twice in one disk's life |
| KeyEpochs.BootFindsAll | services/signer/src/keystore.ts:259-266 | a boot on a new disk finds every bound payer and resumes above all of them if and only if every hole is short |
| KeyEpochs.FoundStayUnique | services/signer/src/keystore.ts:252-257 | ids the counter has passed are never handed out again on that disk |
| KeyEpochs.HandedOutIff | services/signer/src/keystore.ts:378-391 | on one disk exactly the ids from the counter up are handed out by some continuation |
| KeyEpochs.NeverReissuesBoundIff | services/signer/src/main.ts:175-182 | no continuation on a disk hands out an id bound by then, if and only if every id ever issued is below the counter |
| KeyEpochs.BoundAfterTheRebuild | services/signer/src/keystore.ts:254-257 | a concrete run hands out an id that is bound by then |
| KeyService.KeyService.Start | services/signer/src/main.ts:183-187 | a boot, with its scan and its failures, is one boot step of the epoch machine over what disk and process hold |
| KeyService.KeyService.MintPayer | services/signer/src/keystore.ts:378-391 | a mint, whatever fails in it, is one mint step of that machine, and hands out the id the machine says |
| KeyService.KeyService.ServiceIsSound | services/signer/src/main.ts:175-187 | so the machine's invariant holds of the process and its disk |
| RateLimit.RateLimiter.Allow | packages/shared/src/node/guard.ts:179-192 | the entry and the verdict of one call; other keys are cleared only above 10,000 entries |
| RateLimit.RateLimiter.RetryAfterSeconds | packages/shared/src/node/guard.ts:205-209 | the fewest whole seconds, at least one, that reach the reset; whoever waits them is admitted unless somebody called since |
| RateLimit.SlidingBound | packages/shared/src/node/guard.ts:162-192 | over any half-open interval of length L fewer than max times (ceil(L/window) + 1) calls are admitted, from any state |
| RateLimit.BoundIsReached | packages/shared/src/node/guard.ts:162-192 | 2 max - 1 are admitted within one window length |
| EnclaveLimit.RateLimitedKeyStore.Mint | services/signer/src/enclave-limit.ts:185-188 | refused exactly when over the limit, and a refused mint reaches neither the store nor the daemon |
| EnclaveLimit.RateLimitedKeyStore.SignerFor | services/signer/src/enclave-limit.ts:202-205 | charged before the lookup; refused exactly when over the limit, and then reaches no daemon |
| EnclaveLimit.RateLimitedKeyStore.DaemonCallsBounded | services/signer/src/enclave-limit.ts:167-205 | after boot the daemon receives fewer than (mint + derive)(ceil(L/window) + 1) calls in any interval |

## Left out

- Keccak, ECDSA and EIP-712: abstract, as said above; a recovered signer is the payer exactly when the payer's key signed the message.
- USDC beyond `transferWithAuthorization`, transfers and balances: cancelling authorizations, receiveWithAuthorization, pausing, blacklisting and upgrades.
- Encrypted handles: the vault's ciphertext budget, cap and decision are held in the clear, and Inco's compute server answers truly or not at all.
- X402Client.Client.FetchResource: one clock reading serves the cache lookup and the store; the waits between attempts are recorded and do not advance the payment loop's clock; the delay is that of whole-number policies.
- PaymentLoop.PaymentLoop.AuthorizeWithRetry: waits are lower bounds, since a process may always sleep longer; a success whose body is not JSON, which throws, is not modelled.
- Chain reorganisations; a confirmed transaction stays confirmed.
- Relay.VaultRelay.RequestSpend: a failure names SpendPending only by the vault's own refusal or by the printed resource; a node that puts a vault error's name into a message of its own is not modelled, here or in `ReclaimExpired`.
- Two runs on one relay at once: other parties act between any two steps, but one relay object runs one method at a time. Transactions of other processes are covered.
- The parsers of 402 bodies, payment headers and signer requests, URL joining, HTTP servers, CORS, tokens and body limits: their outputs are typed inputs.
- The language model and the scripted agents: one nondeterministic boolean.
- The wording of failure reasons: the text of an error comes from outside and is arbitrary. The mapping of vendor text into a reason is not modelled.
- Listeners and the `onEvent` sink: they neither throw nor matter to the run.
- JSON numbers other than integers, the key order of integer-like names, surrogate pairs, dates and byte arrays. Sorting is by code point where ECMAScript sorts by UTF-16 unit.
- Duplicate keys parsed from foreign JSON text: printers never write them.
- The verifier's checks against the chain and the trace anchor contract.
- Verify.TraceSound: a lone surrogate in a step's type, where UTF-8 encoding writes one replacement character for each, so that two accepted traces may differ there; a `char` here is a whole code point.
- TextDecoder: chunks of text, not of bytes.
- TraceFile.SavedTraceVerifies: excludes an attestation that is a bare bigint, which the source's types exclude, because 0n is falsy and its stored "0" is not.
- KeyStore.RoflKeyStore.Recover: the set of bound payers does not change during one scan, and reads that answer, answer truly, as the source asks of them.
- KeyService.KeyService.MintPayer: mints one at a time; interleaved ones are in `KeyStore.RoflKeyStore.MintTogether`.
- A torn write of the key index file, an index kept only in memory, and two processes on one index file.
- EnclaveLimit.RateLimitedKeyStore.DaemonCallsBounded: counts a daemon call at the clock reading of its admission, which is the same synchronous turn.
- `FileKeyStore`, `InMemoryKeyStore` and the migration of old key files.
- The web console, the trace viewer and the end-to-end tools.
