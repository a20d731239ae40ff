# Verified model of the Circle payment services

This project models the server-side services that hold value or authority in the repository and proves what they
guarantee in every state of every run. `dafny verify dfyconfig.toml` checks all of it.

| part | files | what is modelled |
|---|---|---|
| Secret sharing and vaults | `GF256`, `GfTables`, `Polynomial`, `Shamir`, `Vault` | the field of 256 elements, its tables, splitting and reconstructing secrets, recovery vaults |
| Merkle membership | `Hashing`, `Merkle` | root, path and verification of the sorted-pair tree |
| Transaction authorization | `TxAuth`, `TxAuthSafety`, `TxAuthTheorems`, `TxAuthOutcomes`, `TxAuthService` | registry, challenges, revocation, merchant signatures, prover, verifier, metrics |
| Credit pool | `Credit`, `CreditSafety`, `CreditLoans`, `CreditTheorems`, `CreditOutcomes`, `CreditStanding`, `CreditService` | deposits, loans, installments, misses, liquidation, with ghost books of all money moved |
| Compact ledger | `WitnessBag`, `CompactLedger`, `CompactQueue`, `CompactTheorems`, `CompactWitnesses`, `CompactSync`, `CompactStaging`, `CompactExamples`, `CompactService` | the replay log, the cached context, the promise-chain lock, concurrent callers, whose witnesses and which staged leaf a run uses, and the remembered root |
| Payments | `Lifecycle`, `LifecycleOutcomes`, `Settlement`, `SettlementOutcomes`, `PaymentService`, `Funding` | settlement, lifecycle, reconciliation, note claims, reseals, and nullifiers across all of these and the pool |
| Overlapping requests | `Overlap`, `OverlapSpent`, `OverlapPool`, `OverlapRuns`, `OverlapConfirm` | settlements, deposits, loans, repayments and confirmations that are checked, wait for proofs or signatures and are written later |
| Receiving | `Receive`, `ReceiveSafety`, `ReceiveOutcomes`, `Crediting`, `ReceiveService` | minting, observing, reconciling, confirming, crediting, the buyer's view |
| Spend policy | `Policy` | the T1-T5 evaluator |
| Shared | `Wrappers`, `Sequences`, `Text` | options and results, lists without repetition, hexadecimal and decimal text |

## How the model is built

Services that update a store in place are classes (`TxAuthService.Service`, `CreditService.Service`,
`PaymentService.Service`, `ReceiveService.Service`, `CompactService.Service`, `Vault.VaultStore`, `GfTables.Tables`).
Each of their methods equals a function of the old state; the safety theorems are about runs of those functions.
Loops of the source (tables, field product, Horner, splitting, interpolation, Merkle levels, log replay, policy
templates) are loops here, each proved against an independent definition.

The modules named `Outcomes` say of every operation when it is accepted, condition by condition, what each refusal says,
and what is written; the theorems about runs are stated beside them.

A request of the pool or a settlement is first modelled as one step. `Overlap` then splits it where the source awaits
its proofs: `Checked` are its checks with what it read, `Written` is what it writes into whatever state it finds, and
`WrittenAtOnce` shows that the two without anything in between are the one step. `OverlapConfirm` does the same for
confirmations of received payments. The four theorems about overlapping requests say exactly which writes keep what
holds for requests that run one after another.

Assumptions, all stated as predicates:

- `Hashing.GoodHash`: the hash has no collisions and its outputs are lower-case hexadecimal text. The length of the
  output is left open, because an injective function cannot have outputs of one length; `GoodHashExists` shows that
  the assumption can be met.
- `TxAuth.GoodEnv`: also that the JSON text determines the canonical intent.
- `Vault.Invertible`: opening a sealed text with its key gives the text back.
- `CompactLedger.Sound`: a circuit that is not staged a membership leaf does not read one, and publishing takes a
  leaf. In `contracts/nyxpay.compact` only `prove_kyc_membership` (line 112) reads the path, and every circuit that
  calls it is staged one. `CompactStaging.GuardedSound` shows that contracts whose path checks throw without their leaf
  meet it. The lemma `StagedLeafLeaks` motivates it: with an invented circuit that reads another's leaf, cache and
  replay would differ.
- `OverlapSpent.Anew`: accounts begin with different commitments, and every request brings new ones. The source takes
  commitments from clients, which draw their openings at random.
- Random draws are parameters, new where a run needs them new (`FreshDraws`, `FreshNote`, `Enabled`). Times are
  parameters; they do not decrease during a run of the pool.

## Where the code does less than expected

Each of these is proved with the condition under which the code does what is expected of it, or with its consequences
over whole runs.

- `Shamir.RoundTrip`: a secret text comes back exactly when it is lower-case hexadecimal of even length; other texts
  are decoded up to their first non-digit.
- `Merkle.RootDeterminesListIff`: the root fixes the set of leaves, but the list only for a single leaf and for one
  leaf given twice. In every other list two different siblings can be swapped, or an odd last leaf repeated, or a
  repeated last leaf dropped, without changing the root. `Merkle.RootIgnoresRepetition` is such
  an odd last leaf.
- `TxAuthOutcomes.AcceptedIsProvedIff`: a proof that is accepted is the one the prover would make in the same state
  exactly when its challenge was issued for the commitment, which the verifier does not compare.
  `OtherChallengeAccepted` is a proof that is accepted with a challenge issued for another commitment, where the prover
  makes none.
- `CreditTheorems.CashCanRunOut`: liquidity counts seized collateral in full and also the principal that liquidated
  loans never paid back, so the pool can lend more than its cash. `LoanLeavesCashIff` gives the check on the stored
  loans that decides whether a loan leaves the cash nonnegative.
- `Funding.RefusedLoanWritesIff`: a refused loan changes the store exactly when its second nullifier conflicts;
  `ConflictHappens` is such a request. By `RefusedLoanStrands` the account then keeps a commitment that is recorded as
  spent, and none of its settlements, deposits, loans and repayments succeeds until a claim, a reseal or a received
  credit replaces it.
- `OverlapSpent.SpentOnceIff`: a settlement does not look at its account again after its proofs. Beside overlapping
  requests no spent nullifier is recorded twice exactly when every settlement finds its account with the commitment it
  was checked with. `OverlapRuns.SettledTwice` writes two settlements of one commitment.
- `OverlapPool.TotalExactIff`: a deposit stores a total that it computed before its proof. The pool total is the seed,
  the accepted deposits and the seized collateral exactly when every accepted deposit finds the total it read, and less
  otherwise, for ever. In `OverlapRuns.DepositLost` deposits of 100 and 50 leave a total of 50 and shares of 150.
- `OverlapPool.InstallmentsOnceIff`: a repayment counts the installment it saw before its proof. No installment
  nullifier is counted twice exactly when every accepted repayment finds its loan with the payments it had then. In
  `OverlapRuns.RepaidTwice` two accepted payments of 25 leave 75 of a loan of 100, with 50 outstanding.
- `Lifecycle.ReportIsStoredIff`: when the state that reconciliation reports is the stored one; `EarlyReport` is a
  payment that is reported as reconciled and stays reserved.
- `OverlapConfirm.OneConfirmationIff`: a confirmation does not look for another one after its signature. No order gets two
  exactly when every confirmation that is written finds none of its order. In `ConfirmedTwice` an order gets two, and
  the second takes it back from credited to confirmed.
- `LifecycleOutcomes.DeadMoves`: two moves of the transition table can never be made, because the terminal guard ignores
  them: from a failed rail to a pending reversal and from manual review to reconciled.
- `CompactWitnesses.StagedWitnessesIff`: as long as nobody sets others and no reader replays the log, witnesses that a
  caller sets reach the next run that starts exactly when no other run, then between its start and its settling, holds
  other witnesses and gets its context. Otherwise the next run uses those of the other call. `TwoCallers` shows two
  payments at once whose second log entry records the witnesses of the first, and `CompactExamples.TwoCallersHappen`
  runs it on a contract. By `CompactTheorems.ReaderReplaces` a status read on a cold cache is enough to replace a
  caller's witnesses.
- `CompactSync.SkipIsRightIff`: a sync that skips finds its root published exactly when the newest settled publication
  whose caller has yet to note it, if there is one, is of the same root. `StaleSkip` is a run in which it is not, and
  `CompactExamples.StaleSkipHappens` has it on a contract.
- `WitnessBag.RestoreAnywhereIff`, `RestoreForgetsIff`: an opening that does not have 32 bytes is padded or cut by
  the log, and an empty later opening is not restored at all.
- `Policy.CounterIsSumIff`: a category cap listed more than once is charged once for every listing.
- `Policy.RefusedCountersIff`: when the counters returned with a refusal are the same for every order of the
  templates; `Policy.RefusedCountersDepend` is a list for which they are not.
- `Crediting.CreditOrderIff`: a received order may be credited again; that it was credited before is no part of the
  condition. By `CreditedAgainIff` every later request for an order once credited is granted exactly when it is well
  formed and its account agrees, in every run; `CreditedTwice` is a run that moves one account from a to b and from b
  to c for one payment.

## Model

| member | source | states |
|---|---|---|
| GF256.GfMulRaw | server/services/crypto.ts:116-128 | eight shift-and-reduce rounds compute the field product |
| GF256.MulAssoc | server/services/crypto.ts:116-128 | the product is associative |
| GF256.MulComm | server/services/crypto.ts:116-128 | the product is commutative |
| GF256.MulAddLeft | server/services/crypto.ts:116-128 | the product distributes over exclusive or |
| GF256.NoZeroDivisors | server/services/crypto.ts:116-128 | nonzero factors have a nonzero product |
| GF256.GeneratorOrder | server/services/crypto.ts:101-111 | no power of 3 below the 255th is 1 |
| GF256.LogExists | server/services/crypto.ts:104-111 | every nonzero byte is one of the 255 powers of 3 |
| GfTables.Tables.constructor | server/services/crypto.ts:102-114 | the initialiser leaves valid exponent and logarithm tables |
| GfTables.Tables.GfMul | server/services/crypto.ts:130-133 | table multiplication is the field product, zero included |
| GfTables.Tables.GfDiv | server/services/crypto.ts:135-139 | table division is multiplication by the inverse, and fails only on zero |
| GfTables.QuotientUnique | server/services/crypto.ts:135-139 | a nonzero divisor has one quotient |
| Polynomial.AgreementUnique | server/services/crypto.ts:141-147 | polynomials that agree at as many distinct points as they have coefficients are equal |
| Polynomial.LagrangeRecovers | server/services/crypto.ts:177-190 | Lagrange's value at 0 of any such points is the constant coefficient |
| Shamir.EvalPoly | server/services/crypto.ts:141-147 | Horner's loop evaluates the polynomial |
| Shamir.SplitSecret | server/services/crypto.ts:149-166 | refuses bad parameters, and otherwise gives n share texts at the points 1 to n |
| Shamir.ParseShow | server/services/crypto.ts:165-173 | a share text is read back as the share |
| Shamir.InterpolateByte | server/services/crypto.ts:177-190 | the double loop gives Lagrange's value at 0, and fails exactly on repeated points |
| Shamir.ReconstructSecret | server/services/crypto.ts:168-192 | interpolates the first t shares byte by byte, with every error case |
| Shamir.ReconstructedIff | server/services/crypto.ts:168-190 | when reconstruction fails, and with which error |
| Shamir.RoundTripBytes | server/services/crypto.ts:149-192 | any t or more distinct shares in any order give back the bytes that were split, whatever the coefficients |
| Shamir.RoundTrip | server/services/crypto.ts:149-192 | the text comes back exactly when it is lower-case hexadecimal |
| Shamir.OtherCoefficients | server/services/crypto.ts:141-163 | values at t - 1 points fit every other constant term through exactly one coefficient vector |
| Shamir.BelowThreshold | server/services/crypto.ts:149-166 | any t - 1 distinct shares are shares of every other secret of that length, through exactly one choice of coefficients |
| Vault.VaultStore.Provision | server/services/vault.ts:14-51 | replaces the user's vault by one whose key is split five ways, and no other vault |
| Vault.VaultStore.ReleaseShares | server/services/vault.ts:70-95 | releases shares and unwraps the ciphertext, with every error in its order |
| Vault.FindOther | server/services/vault.ts:34-41 | provisioning leaves the vaults of other users as they were |
| Vault.ChosenCount | server/services/vault.ts:80-83 | one holder is selected for every requested id that is a holder's |
| Vault.RecoveryIff | server/services/vault.ts:14-95 | a provisioned vault gives its ciphertext back exactly when three different holders are requested |
| Vault.RefusedMeans | server/services/vault.ts:70-95 | what each refusal of a release says |
| Merkle.MerkleRoot | server/services/crypto.ts:42-55 | the level loop computes the recursive root |
| Merkle.MerkleProof | server/services/crypto.ts:57-72 | the level loop collects the recursive path |
| Merkle.VerifyMerkle | server/services/crypto.ts:74-78 | accepts exactly when folding the path over the leaf gives the root |
| Merkle.HashPairInjective | server/services/crypto.ts:38-40 | equal pair hashes have the same two children up to order |
| Merkle.PathLeadsToRoot | server/services/crypto.ts:42-78 | the path of every index is accepted, and its length is the height |
| Merkle.HeightIsLog | server/services/crypto.ts:57-72 | the height is the rounded-up binary logarithm of the leaf count |
| Merkle.AcceptedIff | server/services/crypto.ts:57-78 | a text has an accepted path of some length exactly when it is a node of the tree |
| Merkle.MembershipIff | server/services/crypto.ts:57-78 | a text that is no pair hash has an accepted path exactly when it is a leaf |
| Merkle.RootDeterminesLeaves | server/services/crypto.ts:42-55 | equal roots have equal leaf sets |
| Merkle.RootDeterminesListIff | server/services/crypto.ts:42-55 | the root determines the list of leaves exactly for a single leaf and one leaf given twice |
| Merkle.RootIgnoresRepetition | server/services/crypto.ts:47-51 | a list and the list with its odd last leaf repeated have one root |
| TxAuthService.Service.EnrollMerchant | server/txAuth/registry.ts:67-106 | the store becomes what enrolment specifies; an active merchant is returned unchanged |
| TxAuthService.Service.RevokeMerchant | server/txAuth/revocation.ts:8-40 | status, accumulator and version change as specified |
| TxAuthService.Service.IssueChallenge | server/txAuth/challenge.ts:12-43 | a well-shaped commitment gets a pending challenge that expires after five minutes |
| TxAuthService.Service.ConsumeChallenge | server/txAuth/challenge.ts:45-73 | expired ones are dropped and counted, live ones move from pending to spent |
| TxAuthService.Service.ComputeRoot | server/txAuth/registry.ts:47-50 | the Merkle root of the active leaves, or of the sentinel |
| TxAuthService.Service.ProveMembership | server/txAuth/prover.ts:77-85 | the path of an active leaf, when it checks |
| TxAuthService.Service.GenerateProof | server/txAuth/prover.ts:17-138 | every refusal in its order, and the bound digest |
| TxAuthService.Service.RunChecks | server/txAuth/verifier.ts:50-122 | every check before the challenge is consumed, in order |
| TxAuthService.Service.VerifyTransaction | server/txAuth/verifier.ts:25-146 | checks, consumption and metrics of one verification |
| TxAuthSafety.FreshNullifier | server/txAuth/registry.ts:80-98 | a merchant enrolled under a new secret has a nullifier outside the accumulator |
| TxAuthSafety.EnrollKeeps | server/txAuth/registry.ts:67-106 | enrolment keeps the invariant |
| TxAuthSafety.RevokeKeeps | server/txAuth/revocation.ts:21-31 | revocation keeps: revoked exactly when the nullifier is in the accumulator |
| TxAuthSafety.VerifyKeeps | server/txAuth/verifier.ts:37-48 | verification keeps the counters and spends a challenge exactly when it authorizes |
| TxAuthSafety.RunKeeps | server/txAuth/verifier.ts:37-48 | in every run: pending and spent disjoint, successes count spent challenges, failures by reason sum up, revoked iff accumulated |
| TxAuthTheorems.RootPinsActiveSet | server/txAuth/registry.ts:47-50 | equal roots of reachable states mean equal active sets |
| TxAuthTheorems.AuthorizedMeans | server/txAuth/verifier.ts:50-146 | what an authorization implies about merchant, root, challenge, expiry and intent |
| TxAuthTheorems.StaleProofRefused | server/txAuth/verifier.ts:72-87 | a proof from a state with another active set is refused |
| TxAuthTheorems.RevocationIsFinal | server/txAuth/verifier.ts:68-78 | a proof over a revoked merchant's leaf is refused ever after, re-enrolment included |
| TxAuthTheorems.ProofBindsChallenge | server/txAuth/verifier.ts:56-95 | a proof is accepted, in any reachable state, only with the challenge and commitment it was made for and an intent of that commitment |
| TxAuthTheorems.ProofIsSingleUse | server/txAuth/verifier.ts:89-127 | an accepted proof is refused ever after, with any challenge or intent |
| TxAuthTheorems.ChallengeIsSingleUse | server/txAuth/challenge.ts:62-72 | a challenge authorizes at most once in a run |
| TxAuthTheorems.ProofBindsIntent | server/txAuth/intent.ts:24-64 | one proof is accepted only for intents with one canonical form |
| TxAuthTheorems.WorkflowAuthorizesIff | server/txAuth/workflow.ts:38-139 | the undisturbed workflow authorizes exactly for an active merchant whose signature verifies or who may be signed for, an amount within policy and an unexpired challenge |
| TxAuthOutcomes.IssuedIff | server/txAuth/challenge.ts:12-43 | a challenge is issued exactly for 64 hexadecimal digits, for five minutes, bound to nonce, session, window and commitment |
| TxAuthOutcomes.ConsumedIff | server/txAuth/challenge.ts:45-73 | a challenge is used exactly while pending, live and unspent; an expired one is dropped and counted |
| TxAuthOutcomes.Enrolled | server/txAuth/registry.ts:67-106 | enrolling leaves an active merchant under the id, new exactly when none was active, and every other id as it was |
| TxAuthOutcomes.RevokedIff | server/txAuth/revocation.ts:8-40 | revoking succeeds exactly for a known merchant, and leaves every other id as it was |
| TxAuthOutcomes.AuthorizeIff | server/txAuth/merchantAuth.ts:1-80 | a signature is given exactly for an active merchant, a committed intent within policy, and a valid or permitted signature |
| TxAuthOutcomes.AuthorizedIff | server/txAuth/verifier.ts:50-146 | a verification authorizes exactly when every condition on request, registry, challenge, dates, merchant signature and digest holds |
| TxAuthOutcomes.RejectedMeans | server/txAuth/verifier.ts:50-127 | what each reason of a rejection says of the request |
| TxAuthOutcomes.RejectedWrites | server/txAuth/verifier.ts:37-48 | a rejection is counted once under its reason and drops at most the expired challenge |
| TxAuthOutcomes.ProvedIff | server/txAuth/prover.ts:30-135 | a proof is made exactly for an active merchant, a live challenge of the commitment and its signature; what the proof holds; what each refusal says |
| TxAuthOutcomes.DigestBinds | server/txAuth/verifier.ts:109-122 | equal digests have equal root, challenge, commitment, signature, leaf and path |
| TxAuthOutcomes.AcceptedIsProvedIff | server/txAuth/verifier.ts:89-122 | in every reachable state an accepted proof is the one the prover would make exactly when the challenge was issued for its commitment |
| TxAuthOutcomes.OtherChallengeAccepted | server/txAuth/verifier.ts:89-122 | a proof accepted with a challenge that was issued for another commitment |
| CreditService.Service.DepositToPool | server/credit/service.ts:196-290 | every refusal in its order, and a deposit with nothing written between its checks and its write |
| CreditService.Service.FinishDeposit | server/credit/service.ts:254-279 | what a deposit writes after its proof into any store: the total it read plus the amount, the lender's share, the account's current nullifier |
| CreditService.Service.BorrowFromPool | server/credit/service.ts:292-465 | every refusal in its order, the recorded nullifiers and the new loan |
| CreditService.Service.RepayLoan | server/credit/service.ts:467-584 | every refusal in its order, and a repayment with nothing written between its checks and its write |
| CreditService.Service.FinishRepayment | server/credit/service.ts:545-573 | what a repayment writes after its proof into any store: what is left, due amount and nullifier of the loan as checked |
| CreditService.Service.LiquidateIfDue | server/credit/service.ts:652-698 | a miss, or the closing of the loan |
| CreditSafety.InstallmentsUsed | server/credit/service.ts:349 | a loan of L over n installments needs ceil(L/ceil(L/n)) of them, at most n |
| CreditSafety.AddShareTo | server/credit/service.ts:266-279 | a deposit raises its lender's share by the amount and no other lender's |
| CreditSafety.PaidOk | server/credit/service.ts:500-573 | a payment closes the loan exactly at its last installment and leaves room in the schedule |
| CreditSafety.MissedOk | server/credit/service.ts:660-680 | a miss takes a full period, and closing needs grace plus one periods |
| CreditSafety.RepayKeeps | server/credit/service.ts:467-584 | repayment keeps every pool invariant, and pays no more than is outstanding |
| CreditSafety.LiquidateKeeps | server/credit/service.ts:652-698 | liquidation keeps every pool invariant |
| CreditTheorems.NullifierDetermines | server/credit/service.ts:507-509 | an installment nullifier determines loan and number |
| CreditTheorems.RepayInstallments | server/credit/service.ts:505-557 | spent installment nullifiers are exactly those of received payments, so none is counted twice |
| CreditTheorems.Solvency | server/credit/service.ts:221-698 | over every run: total, outstanding, liquidity and cash in terms of seed, deposits, what the loans owe, and the losses and collateral of liquidated loans |
| CreditTheorems.LoanProgress | server/credit/service.ts:500-573 | what is left of a loan follows from its payments; it is repaid exactly at its last installment; standing counts liquidations |
| CreditTheorems.PaymentsAddUp | server/credit/service.ts:500-573 | the payments accepted for a loan sum to its amount less what is left, to its amount once repaid, and to its amount less its loss once liquidated |
| CreditTheorems.NoEarlyLiquidation | server/credit/service.ts:652-680 | no loan is liquidated before grace plus one periods since it was made |
| CreditTheorems.ClampsNeverBind | server/credit/service.ts:510-560 | the floors at zero never apply and the already-counted refusal is unreachable |
| CreditTheorems.ReopenIsIdentity | server/credit/state.ts:19-56 | opening the pool again, as every request does, changes nothing in any reachable state |
| CreditTheorems.CashCanRunOut | server/credit/service.ts:328-331 | a run in which the pool lends more than its cash |
| CreditTheorems.LoanLeavesCashIff | server/credit/service.ts:328-331 | a loan leaves the cash nonnegative exactly when it fits the liquidity less the losses of the stored liquidated loans |
| CreditOutcomes.DepositedIff | server/credit/service.ts:211-279 | when a deposit is accepted, what each refusal says, and which account and share it moves |
| CreditOutcomes.BorrowedIff | server/credit/service.ts:325-416 | when a loan is granted, and what each refusal says |
| CreditOutcomes.LoanWritten | server/credit/service.ts:406-449 | the loan, the nullifiers and the standing that a grant writes; the installment is the least that covers the amount |
| CreditOutcomes.RepaidIff | server/credit/service.ts:483-548 | when a repayment is accepted, and what each refusal says |
| CreditOutcomes.PaymentWritten | server/credit/service.ts:545-573 | what a repayment writes: more than a day late it is a miss, else on time |
| CreditOutcomes.LiquidatedIff | server/credit/service.ts:652-698 | a miss is recorded exactly for an active loan past its due date |
| CreditOutcomes.MissWritten | server/credit/service.ts:652-698 | what a miss writes, and that the one past the grace period closes the loan |
| CreditStanding.EveryPaymentCounts | server/credit/service.ts:552-573 | over every run and for every borrower: on-time payments and misses are the payments and the misses of overdue loans; the standing lists the borrower's loans in order |
| Text.NumeralRoundTrip | server/services/compactLedger.ts:142-215 | a signed number survives its decimal text |
| WitnessBag.OpeningRoundTrip | server/services/compactCommit.ts:18-29 | an opening read back from its text is cut or padded to 32 bytes |
| WitnessBag.RestoreAnywhereIff | server/services/compactLedger.ts:142-215 | a snapshot restores the same bag into any process exactly when all openings have 32 bytes |
| WitnessBag.RestoreHereIff | server/services/compactLedger.ts:142-215 | when snapshot and restore in one process lose nothing |
| WitnessBag.RestoreForgetsIff | server/services/compactLedger.ts:142-215 | what is restored is independent of the bag it meets exactly when no later opening was empty |
| CompactLedger.ArgRoundTrip | server/services/compactLedger.ts:530-542 | a 32-byte argument survives its text |
| CompactLedger.ReplayMeans | server/services/compactLedger.ts:611-643 | replay gives the same context whatever bag and staged leaf the process has |
| CompactLedger.EntryReplays | server/services/compactLedger.ts:670-694 | the entry a run appends replays to the context the run computed |
| CompactService.Service.StageMembershipLeaf | server/services/compactLedger.ts:600-609 | which circuits stage their first argument |
| CompactService.Service.EnsureContext | server/services/compactLedger.ts:611-644 | the cached context, or the log replayed step by step up to the first step that throws |
| CompactService.Service.ExecuteStaged | server/services/compactLedger.ts:678-694 | the part of a run after its context arrived: bag, cache, log and inserted leaves |
| CompactService.Service.RunCompactCircuit | server/services/compactLedger.ts:670-712 | a run that nothing interrupts |
| CompactService.Service.SyncKycRoot | server/services/compactLedger.ts:801-835 | with nothing else running, success leaves the root last published and the leaf published; a second call for the same root and leaf changes nothing |
| CompactSync.SkipIsRightIff | server/services/compactLedger.ts:801-834 | beside any other callers, when a skipping sync finds its root published |
| CompactSync.StaleSkip | server/services/compactLedger.ts:828-830 | two callers and a third that skips while the contract has another root |
| CompactQueue.NextKeeps | server/services/compactLedger.ts:660-712 | every step of every caller keeps the cache coherent, the queue in order and the snapshots whole |
| CompactQueue.FinishKeeps | server/services/compactLedger.ts:678-694 | a finishing call changes the log as it does alone; a failing one leaves log and cache as they were |
| CompactTheorems.CacheIsReplay | server/services/compactLedger.ts:611-712 | under any interleaving the cached context is absent or the replay of the log, which never fails |
| CompactTheorems.ColdComputesWarm | server/services/compactLedger.ts:611-712 | a process started now gets the same context and the same entry from the same witnesses |
| CompactTheorems.OneAtATime | server/services/compactLedger.ts:660-668 | calls run one at a time in call order |
| CompactTheorems.CallsActAlone | server/services/compactLedger.ts:670-694 | a finishing call changes the log as it does alone in a fresh process |
| CompactTheorems.LogIsSerial | server/services/compactLedger.ts:660-712 | in every run, restarts included, the log is that of the finished calls made one after another by fresh processes |
| CompactTheorems.FinishInCallOrder | server/services/compactLedger.ts:660-668 | within one process calls finish in the order in which they were made |
| CompactTheorems.LeavesArePublished | server/services/compactLedger.ts:690-693 | the inserted leaves are the published ones, each once |
| CompactTheorems.NeverBlocked | server/services/compactLedger.ts:661-668 | the oldest unsettled call can always take its step, after a failure too |
| CompactTheorems.QueueDrains | server/services/compactLedger.ts:661-668 | every queue can be brought to its end in at most four steps a call |
| CompactWitnesses.StagedWitnessesIff | server/services/compactLedger.ts:670-683 | while nobody sets others and no reader replays the log, witnesses a caller sets reach the next run exactly when no run in hand holds others and gets its context, and otherwise that run's are used |
| CompactWitnesses.TwoCallers | server/services/proofServer.ts:243-292 | two payments at once: the second log entry records the witnesses of the first |
| CompactExamples.TwoCallersHappen | server/services/proofServer.ts:243-292 | such a run on a contract that counts, for any two whole bags |
| CompactExamples.StaleSkipHappens | server/services/compactLedger.ts:828-830 | a stale skip on the same contract, for any two different roots |
| CompactTheorems.ReaderReplaces | server/services/compactLedger.ts:632-633 | a read on a cold cache leaves the last entry's witnesses in the bag |
| CompactStaging.StagedIff | server/services/compactLedger.ts:600-609 | which circuits are staged their first argument; all others leave the leaf alone |
| CompactStaging.LeafIsStaged | server/services/compactLedger.ts:600-609 | the three circuits that check a path, and the one that publishes a leaf, are staged theirs |
| CompactStaging.GuardedSound | server/services/compactLedger.ts:375-389 | a contract whose path checks throw without their leaf is sound |
| CompactStaging.CheckedCallsRun | server/services/compactLedger.ts:678-694 | in every run a call that checks its leaf fails only for want of an argument or when the circuit itself throws |
| CompactStaging.CheckedLogsReplay | server/services/compactLedger.ts:611-643 | and every log it leaves replays, whatever leaf the process has staged |
| CompactStaging.ArgumentIs | server/services/compactLedger.ts:530-538 | 64 digits are read as bytes with or without prefix, anything else is digested |
| Lifecycle.AbsorbingIff | server/services/paymentLifecycle.ts:69-85 | exactly reconciled, refunded and proof_failed cannot be left |
| Lifecycle.AdvanceLegal | server/services/paymentLifecycle.ts:120-166 | a call moves along an edge or not at all, and the timeline ends in the stored state |
| Lifecycle.AnyCalls | server/services/paymentLifecycle.ts:92-166 | after any calls: legal timeline, settled only after authorization and proof, at most nine changes |
| Lifecycle.NineChanges | server/services/paymentLifecycle.ts:69-85 | nine changes are possible |
| Lifecycle.ReportIsStoredIff | server/services/reconciliation.ts:28-85 | when the reported state is the stored one |
| Lifecycle.EarlyReport | server/services/reconciliation.ts:65-75 | a payment made by the settlement's calls that is reported as reconciled and stays reserved |
| Lifecycle.ReconcileLegal | server/services/reconciliation.ts:28-85 | reconciliation makes legal moves only |
| LifecycleOutcomes.EnteredFrom | server/services/paymentLifecycle.ts:69-140 | from which states each state is entered |
| LifecycleOutcomes.DeadMoves | server/services/paymentLifecycle.ts:69-140 | exactly two moves of the table are never made |
| LifecycleOutcomes.ReconciledIff | server/services/reconciliation.ts:28-85 | when a payment is reported reconciled, and the gaps it is reported with otherwise |
| LifecycleOutcomes.StoredState | server/services/reconciliation.ts:39-76 | the state that acknowledgements and closing leave |
| LifecycleOutcomes.ReceiptReported | server/services/reconciliation.ts:59-84 | the receipt reported, and that no other field changes |
| PaymentService.Service.AdvancePayment | server/services/paymentLifecycle.ts:120-166 | moves the first record with the id and no other |
| PaymentService.Service.RunStages | server/services/payments.ts:60-370 | runs the checks in their order between the lifecycle moves, up to the rail reservation or the first refusal |
| PaymentService.Service.ReconcilePayment | server/services/reconciliation.ts:28-85 | receipt, acknowledgements, gaps and closing of the first record with the id, and of no other |
| PaymentService.Service.SettlePayment | server/services/payments.ts:83-495 | nullifiers, accounts, notes, events, lifecycle and report of one settlement |
| PaymentService.Service.Claim | server/services/payments.ts:497-516 | a note claim |
| PaymentService.Service.ResealBalance | server/index.ts:2029-2048 | a reseal |
| Settlement.StagedOk | server/services/payments.ts:129-386 | every move of a settlement is legal and unblocked |
| Settlement.SettleOutcome | server/services/payments.ts:83-495 | ok: stored and reported reconciled, one bound unspent nullifier added, both commitments replaced; refused: a failure state and nothing else changed |
| SettlementOutcomes.SettledIff | server/services/payments.ts:99-370 | a settlement succeeds exactly when every check passes, each written out |
| SettlementOutcomes.RefusedMeans | server/services/payments.ts:99-370 | what each reason of a refusal says of the request |
| SettlementOutcomes.RefusalWritten | server/services/payments.ts:60-81 | the moves a refused payment shows and the state it ends in, by reason; nothing else changes |
| SettlementOutcomes.SettlementWritten | server/services/payments.ts:372-440 | accounts, nullifier, note, events and the record's fields and timeline of a settlement |
| SettlementOutcomes.ClaimedIff | server/services/payments.ts:497-516 | a claim succeeds exactly when the first unclaimed note of the id is addressed to the claimant, and marks that note alone |
| SettlementOutcomes.ResealedIff | server/index.ts:2029-2048 | when a reseal moves the account, and what it records |
| SettlementOutcomes.ReceivedIff | server/receivePay/credit.ts:52-120 | when a received credit moves the account, and what it records |
| Overlap.WrittenAtOnce | server/services/payments.ts:83-419 | checks and write with nothing in between do what the request does as one step |
| OverlapSpent.SpentOnceIff | server/services/payments.ts:106-118 | however requests overlap, no spent nullifier repeats exactly when every settlement finds its account as it was checked |
| OverlapPool.TotalExactIff | server/credit/service.ts:221-261 | however requests overlap, the pool total is what was booked exactly when every accepted deposit finds the total it read, and is less ever after otherwise |
| OverlapPool.SharesBooked | server/credit/service.ts:261-279 | what a write books is what the lenders' shares gain |
| OverlapPool.InstallmentsOnceIff | server/credit/service.ts:505-557 | however requests overlap, no installment nullifier repeats exactly when every accepted repayment finds its loan with the payments it had when checked |
| OverlapRuns.SettledTwice | server/services/payments.ts:373-375 | two settlements written for one commitment |
| OverlapRuns.DepositLost | server/credit/service.ts:261 | deposits of 100 and 50 that leave a total of 50 |
| OverlapRuns.RepaidTwice | server/credit/service.ts:552-560 | two accepted payments of which the loan notes one |
| OverlapConfirm.SignedAtOnce | server/receivePay/confirm.ts:19-71 | asking and signing with nothing in between are the confirmation as one step |
| OverlapConfirm.OneConfirmationIff | server/receivePay/confirm.ts:29-68 | however confirmations overlap, no order gets two exactly when every one written finds none of its order |
| OverlapConfirm.ConfirmedTwice | server/receivePay/confirm.ts:51-68 | an order with two confirmations, taken back from credited to confirmed |
| Funding.StepMoves | server/services/payments.ts:107-118 | every operation appends distinct nullifiers and records the one it moves an account away from |
| Funding.NeverDuplicated | server/services/payments.ts:373-375 | spent nullifiers never repeat, across all operations and users |
| Funding.CommitmentFundsOnce | server/credit/service.ts:254-259 | two successful settlements, deposits, loans or repayments of any users spend different commitments |
| Funding.LeftIsSpent | server/receivePay/credit.ts:106-120 | a commitment an account moved away from is recorded as spent |
| Funding.ClaimedOnce | server/services/payments.ts:497-516 | a claimed note is not found by any later claim of the run |
| Funding.RefusedLoanWritesIff | server/credit/service.ts:406-418 | a refused loan changes the store exactly when its second nullifier conflicts |
| Funding.ConflictHappens | server/credit/service.ts:406-418 | a request that conflicts |
| Funding.RefusedLoanStrands | server/credit/service.ts:406-418 | over every run, what a conflicting loan does to its account until its commitment is replaced |
| ReceiveService.Service.MintDestination | server/receivePay/mint.ts:15-105 | every refusal in its order, and the new destination |
| ReceiveService.Service.ObserveInbound | server/receivePay/reconcile.ts:36-170 | acceptance, or one unmatched entry with its reason |
| ReceiveService.Service.ReconcileByOrderRef | server/receivePay/reconcile.ts:172-210 | the status step of an observed order |
| ReceiveService.Service.IssueConfirmation | server/receivePay/confirm.ts:19-71 | reconciles, then signs once |
| ReceiveService.Service.CreditBalance | server/receivePay/credit.ts:25-144 | the status step of a confirmed order |
| ReceiveSafety.MintKeeps | server/receivePay/mint.ts:35-101 | minting keeps orders, ids and settlement texts distinct and indexed |
| ReceiveSafety.ObserveKeeps | server/receivePay/reconcile.ts:36-170 | accepted with a matching observation, or exactly one unmatched entry and no other change |
| ReceiveSafety.ReconcileKeeps | server/receivePay/reconcile.ts:172-210 | succeeds exactly for observed orders |
| ReceiveSafety.ConfirmKeeps | server/receivePay/confirm.ts:26-70 | at most one confirmation for an order |
| ReceiveSafety.CreditKeeps | server/receivePay/credit.ts:36-125 | an order is credited exactly when it is confirmed, signed, and circuit and account agree, whether or not it was credited before |
| Crediting.CreditOrderIff | server/receivePay/credit.ts:25-144 | one request to credit succeeds exactly for a confirmed order, a well-formed request and an account with the old commitment, moves that account, and changes nothing when refused |
| Crediting.CreditedAgainIff | server/receivePay/credit.ts:43-122 | in every run, a later request for an order once credited succeeds exactly when it is well formed and its account agrees, and moves the account again |
| Crediting.CreditedTwice | server/receivePay/credit.ts:43-122 | a run from the empty store that credits one payment twice |
| ReceiveSafety.RunKeeps | server/receivePay/reconcile.ts:36-210 | in every run: one destination, at most one matching observation and confirmation for an order, in step with its status |
| ReceiveSafety.RunClimbs | server/receivePay/reconcile.ts:155-208 | no destination steps down or disappears, and records are only added |
| ReceiveSafety.BuyerViewMonotone | server/receivePay/buyerStatus.ts:24-78 | the buyer's view never moves back, and says matched exactly when a merchant confirmed |
| ReceiveOutcomes.MintedIff | server/receivePay/mint.ts:15-105 | when a destination is minted, what it holds, and what each refusal says |
| ReceiveOutcomes.ObservedIff | server/receivePay/reconcile.ts:36-170 | in every reachable state: a payment is accepted exactly when settlement text, amount, currency and reference agree |
| ReceiveOutcomes.FlaggedMeans | server/receivePay/reconcile.ts:36-135 | what each reason of an unmatched entry says |
| ReceiveOutcomes.ObservationWritten | server/receivePay/reconcile.ts:136-170 | the observation an accepted payment has, and the status step |
| ReceiveOutcomes.ConfirmedIff | server/receivePay/confirm.ts:19-71 | when an order is confirmed, and what each refusal says |
| ReceiveOutcomes.ConfirmationWritten | server/receivePay/confirm.ts:26-70 | what a new confirmation holds; an order that has one gets no other |
| ReceiveOutcomes.CreditedIff | server/receivePay/credit.ts:38-125 | whatever the state, when an order is credited |
| ReceiveOutcomes.CreditWritten | server/receivePay/credit.ts:38-125 | crediting sets one status; what each refusal says |
| ReceiveOutcomes.ViewIff | server/receivePay/buyerStatus.ts:24-78 | when the buyer is told matched, and when sent |
| Policy.EvaluatePolicy | server/services/policy.ts:42-102 | the template loop computes the recursive verdict |
| Policy.WindowWraps | server/services/policy.ts:74-79 | the time window runs forward from start to end, past midnight |
| Policy.AcceptedIff | server/services/policy.ts:42-102 | accepted exactly when the blocked category, the window, the limit and every charge of the cap allow it, each written out; flag and counters of an acceptance |
| Policy.RefusedMeans | server/services/policy.ts:46-97 | a refusal names a listed template that stands against the spend |
| Policy.SamePeriodIff | server/services/policy.ts:25-40 | two spends are charged to one counter exactly when they fall into one day, week or month |
| Policy.OrderIsIrrelevant | server/services/policy.ts:46-101 | verdict, flag and accepted counters do not depend on the order of the templates |
| Policy.RefusedCountersIff | server/services/policy.ts:58-71 | the counters of a refusal are the same for every order of the templates exactly when only the cap refuses, or no charge is made or changes anything |
| Policy.RefusedCountersDepend | server/services/policy.ts:58-71 | two orders of one list whose refusals return different counters |
| Policy.CountersAreSums | server/services/policy.ts:32-62 | over any run a counter is the sum of accepted spends times the listings of the cap, and within the cap |
| Policy.CounterIsSumIff | server/services/policy.ts:46-62 | it is the sum itself exactly when the cap is listed once or nothing was spent |

## Left out

- Internals of sha256, HMAC, AES-GCM, ECDSA and persistentCommit: parameters with the assumptions above.
- Proof server, SNARK proving, risk engine, rails, chain broadcast, wallets, HSM, databases and HTTP routing: their answers are arbitrary outcomes. An attestation that succeeds carries a grade other than `rejected`.
- Interleavings: requests are checked at one moment and written at another. In `Overlap` a settlement's record is stored with its outcome, and the checks that follow an await but read nothing these requests write count as made with the others. Claims and reseals check and write without an await between; a received credit looks at its account only after its circuit, and its order's earlier checks count as made then.
- CreditTheorems.Solvency: holds for requests that run one after another. `OverlapPool.TotalExactIff` says when the total stays exact otherwise; overlapping loans can be granted from one liquidity, and overlapping repayments can lower what is outstanding below what the loans owe.
- CreditTheorems.RepayInstallments: holds for requests that run one after another; `OverlapPool.InstallmentsOnceIff` is the theorem without that.
- Funding.NeverDuplicated: holds for requests that run one after another; `OverlapSpent.SpentOnceIff` is the theorem without that.
- Funding.CommitmentFundsOnce: holds for requests that run one after another; `OverlapRuns.SettledTwice` shows a commitment that funds two settlements otherwise.
- CreditService.Service.DepositToPool: nothing is written between its checks and its write; `FinishDeposit` is the write into any store.
- Shamir.ReconstructSecret: a share text that is not a number up to 255, a colon and text gives an error of the model's own, where the source computes with NaN or fails later.
- Floating-point amounts: amounts are integers. Trimming, case folding, JSON text and calendar dates are parameters.
- Keys such as `__proto__` in plain objects used as dictionaries.
- TxAuthSafety.RunKeeps: says nothing about the status `suspended`, which no operation sets, nor about the latency samples kept for averages.
- Challenge sessions, credential metadata, registry documents, and the optional SNARK digest of a proof.
- CreditService.Service.RepayLoan: nothing is written between its checks and its write; `FinishRepayment` is the write into any store. Both require a standing entry, which `CreditSafety.StepKeeps` maintains; the source would throw without one.
- Pool and loan commitments, openings and nonces, disclosures, interest, standing proofs, and loan previews: display values that no other operation reads back, or proof inputs.
- PaymentService.Service.SettlePayment: nothing is written between its checks and its write. Failure notes, latency figures and structured logs of a settlement are not part of the record.
- Records of loans, payments and destinations are values in lists that the services replace; aliasing of one record by two lists does not occur in the source and is not modelled.
- CompactQueue.NextKeeps: witness setters never leave a later opening empty, which `WitnessBag.RestoreForgetsIff` shows to be exactly what replay needs; callers pass 32 random or decoded bytes.
- Logs edited by hand or written by versions without witnesses, failing disk writes, and `resetCompactLedger` during a run.
- CompactService.Service.SyncKycRoot: runs with nothing else at work on the ledger; concurrent callers are the subject of `CompactSync`, where a sync's leaf is taken to be published already.
- CompactTheorems.ColdComputesWarm: each process of the source draws its own sample contract address for its first context; here the first context is one constant of the contract.
- ReceiveSafety.RunKeeps: holds for requests that run one after another; `OverlapConfirm.OneConfirmationIff` is the theorem on confirmations without that.
- ReceiveSafety.RunClimbs: holds for requests that run one after another; `OverlapConfirm.ConfirmedTwice` shows a step down otherwise.
- Receive: minted texts come from rail adapters, which are not modelled; the account part of crediting is `Settlement.ReceiveCredit`.
- The client's T6 policy template, which returns before the others.
- `server/services/universalService.ts`, `sandboxLedger.ts`, `verifiedMerchant.ts`, `nyxproof.ts`, `store.ts` and all of `src/`: simple non-negativity, repetitions of patterns proved here, or user interface.
