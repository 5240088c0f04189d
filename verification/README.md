# ChainRail money path, in Dafny

ChainRail moves customer funds between EVM chains and a double-entry ledger. This project models its
money path and proves what it keeps, over every run and not only per call:

- **Ledger** (`Ledger`, `LedgerLaws`, `Posting`, `Database`): postings, the balance trigger and the
  domain postings.
- **Withdrawals** (`Books`, `BooksLaws`, `Pipeline`, `PipelineLaws`, `RunLaws`, `RefusalLaws`,
  `EffectLaws`, `ApprovalLaws`, `WithdrawalOps`, `Passes`, `PassLaws`, `GasLaws`, `BlockedLaws`,
  `PipelineWorker`, `Witnesses`): API calls, one pipeline worker that may crash between any two commits, and a
  chain that mines at most one transaction per nonce, as one state machine; and whole passes of that worker.
- **Deposits** (`Blocks`, `Watcher`, `ForkLaws`, `WatcherLaws`, `Site`, `SiteLaws`, `RetentionLaws`,
  `ConfirmLaws`, `TickLaws`, `ConvergenceLaws`, `ScanLaws`, `AdriftLaws`, `LimitLaws`, `DepositOps`,
  `WatcherWitnesses`): the watcher against a chain that may replace any suffix between ticks, joined to the
  money system.
- **Events** (`Outbox`, `Consumer`), **policy** (`Velocity`, `PolicyLaws`, `PolicyRuns`), **concurrent reservations**
  (`Contention`), **circuit breaker** (`Breaker`) and **ERC-20 codec** (`Codec`).

Code that works on values is a function. Code that updates rows step by step is a method on mutable
tables (`Database.Db`, `PipelineRunner`, `OutboxRelay`, `ConsumerRunner`, `EndpointHealth`), proved to
compute the function of the same transaction; the theorems are about those functions and about runs
of them. `World.sent` and `World.mined` stand for the outside world, `Site.first` and `Site.top`
remember the watcher's history; none of them is a table.

Check everything with `dafny verify dfyconfig.toml`.

## What the code does differently from its comments

Each entry names the exact condition and a run that reaches the failing case.

- A reorg's compensation is said to always go through by booking the shortfall as a receivable. It is
  refused, and with it the whole reorg tick, exactly when custody is short
  (`RefusalLaws.ReorgAllowedIff`, `Witnesses.ReorgRefusedInARun`).
- Re-broadcasting is said to reproduce the identical transaction. Fees are fetched again, so only the
  nonce is the same; a changed fee can leave a paid withdrawal in flight for ever
  (`RunLaws.ResignedTransaction`, `RunLaws.EndsIffRecordedTransactionDid`, `Witnesses.DisplacedInARun`).
- The zero-hash rewind is said to restart scanning. It never does so by itself: each tick rewinds further or
  fails, and the watcher scans again exactly when the rewinding meets a stored block of the chain in time
  (`AdriftLaws.ScansAgainIff`, `WatcherWitnesses.StrandedInARun`).
- A transfer that survives a reorg in another block is said to be re-observed. Its deposit is live again
  exactly when its row was not orphaned, so a recorded one stays reorged
  (`ScanLaws.LiveAfterScanIff`, `WatcherWitnesses.SurvivorReorgedInARun`).
- A stale address snapshot is said to be safe because the range is scanned again. The cursor has passed the
  block, so a transfer is recorded exactly if its address was in the snapshot when its block was scanned
  (`ScanLaws.RowIffTrackedWhenScanned`, `WatcherWitnesses.StaleDirectoryMisses`).
- Withdrawals are processed in separate transactions so that one failure does not undo a batch. It still ends
  the pass: with a sent withdrawal that custody cannot cover nothing more is signed or settled on its chain
  and the later ones, on any pass (`BlockedLaws.PassClearIff`, `BlockedLaws.StuckForGood`,
  `Witnesses.BlockedInARun`).
- A transfer of 16^31 or more does not decode although its amount may be representable; the scan logs it
  and passes, and no deposit is made (`ScanLaws.RowExactlyWhenDecodable`, `WatcherWitnesses.LargeTransferPassed`).
- A zero-value transfer to a tracked address stops the scan (`LimitLaws.ScanFailsIff`,
  `WatcherWitnesses.ZeroValueStalls`).
- The deposit handler's separate claim is said to be an audit trail only. A credit that fails after it is
  not retried (`Consumer.CreditedByTheClaimer`, `Consumer.DoneIsACreditIff`, `Consumer.FailedCreditIsNotRetried`).
- The daily withdrawal count is configured per user and counted per user and asset
  (`Velocity.UserCountKeptIff`, `Velocity.CountExceeded`).
- Validation sums a posting across assets, so it does not protect the accounting identity
  (`LedgerLaws.PostSoundIff`, `LedgerLaws.MixedAssetsBreakTheIdentity`). All domain postings are in one asset.

## Model

| member | source | states |
|---|---|---|
| `Posting.ComputeNet` | crates/ledger/src/posting.rs:147-158 | The running sum is an error exactly when a step leaves the 128-bit range, and otherwise the sum of the signed entries |
| `Posting.NetOkIff` | crates/ledger/src/posting.rs:147-158 | The net is the signed sum exactly when every running sum stays in the 128-bit range, and an overflow otherwise |
| `Posting.CheckPosting` | crates/ledger/src/posting.rs:160-186 | The loop computes the validation; an accepted posting has at least two entries, positive amounts and signed sum zero |
| `Posting.ValidateNames` | crates/ledger/src/posting.rs:160-186 | A posting is valid exactly when its key fits, it has two entries, all positive, the running sums stay in range and the sum is zero; each refusal names its cause, in the source's order |
| `Posting.OrderedEntries` | crates/ledger/src/posting.rs:194-198 | The insertion loop returns a rearrangement of the entries ordered by account id, then direction |
| `Posting.SortKeeps` | crates/ledger/src/posting.rs:188-198 | Sorting is a permutation and is ordered, for every account numbering |
| `Posting.SortedIsBuilderOrder` | crates/ledger/src/service.rs:78-92 | With distinct accounts, posting the sorted entries gives the same ledger and the same refusal as posting them in builder order |
| `LedgerLaws.OrderIrrelevant` | crates/ledger/src/posting.rs:188-198 | Any permutation of entries on distinct accounts moves the balances alike and is accepted alike |
| `LedgerLaws.OrderMattersForRepeatedAccounts` | crates/ledger/src/posting.rs:188-198 | Distinctness is needed: two entries on one account are accepted in one order and refused in the other |
| `LedgerLaws.NetIsDifferenceOfTotals` | crates/ledger/src/posting.rs:200-216 | When neither total overflows, net is debits minus credits, so it is zero exactly when the totals agree |
| `LedgerLaws.NetZeroDespiteTotalOverflow` | crates/ledger/src/posting.rs:146-216 | A posting whose net is zero while both totals overflow |
| `LedgerLaws.PostShape` | crates/ledger/src/service.rs:48-102 | A replayed key changes nothing; a new one records exactly its entries and moves every balance by the sum of their deltas |
| `LedgerLaws.PostSoundIff` | crates/ledger/src/integrity.rs:93-157 | An accepted posting under a new key leaves the integrity checks and the accounting identity in place exactly when its debits equal its credits in each asset |
| `LedgerLaws.IdentityKeptIff` | crates/ledger/src/posting.rs:160-186 | Accepted entries keep the identity exactly when their signed sum is zero in each asset |
| `LedgerLaws.PostKeepsSound` | crates/ledger/src/integrity.rs:93-157 | A posting in one asset keeps the ledger sound; derived from the exact condition |
| `LedgerLaws.MixedAssetsBreakTheIdentity` | crates/ledger/src/posting.rs:160-186 | The input: validation sums across assets, so a posting that debits one and credits another is accepted and breaks the identity |
| `LedgerLaws.SurplusIsTreasuryLessFees` | crates/ledger/src/integrity.rs:81-157 | Custody + clearing + network fees + deficits = available + reserved + treasury per asset, so the reported surplus is treasury less network fees |
| `LedgerLaws.PairEffect` | crates/ledger/src/operations.rs:31-345 | A two-legged posting is accepted exactly when both balances allow it, and then moves exactly those two accounts |
| `LedgerLaws.ReversalEffect` | crates/ledger/src/operations.rs:65-115 | A fresh compensation is refused exactly when custody is short of the amount; otherwise it takes what is spendable and books the rest as a deficit |
| `LedgerLaws.ReversalTakesSpendableFirst` | crates/ledger/src/operations.rs:65-115 | A deficit grows only once nothing spendable is left, and available less deficit falls by exactly the amount |
| `Database.Db.InsertLedgerEntry` | migrations/0003_ledger.sql:137-173 | The balance trigger: debits raise custody, clearing, network fees and deficits, credits the rest; refused exactly when a balance other than clearing or treasury would go below zero |
| `Database.Db.InsertEntries` | crates/ledger/src/service.rs:78-92 | The entry loop gives the balances of all entries, or the first refusal |
| `Database.Db.PostTransaction` | crates/ledger/src/service.rs:48-102 | The method that validates, claims the key, sorts and inserts entry by entry computes the posting function, refusals included |
| `Database.Db.PostTwoLegs` | crates/ledger/src/operations.rs:31-58 | The shared shape of the domain postings: equal to the builder-order posting, and under a new key it moves exactly the two balances, by their signed amounts |
| `Database.Db.PostDepositCredit` | crates/ledger/src/operations.rs:31-58 | Under a new key custody and the user's spendable balance rise by the amount and nothing else moves; a replay changes nothing |
| `Database.Db.PostRelease` | crates/ledger/src/operations.rs:167-191 | Under a new key the amount moves from reserved to spendable and nothing else moves; a replay changes nothing |
| `Database.Db.PostBroadcast` | crates/ledger/src/operations.rs:199-222 | Under a new key the amount moves from custody to clearing and nothing else moves; a replay changes nothing |
| `Database.Db.PostSettlement` | crates/ledger/src/operations.rs:228-252 | Under a new key reserved and clearing fall by the amount and nothing else moves; a replay changes nothing |
| `Database.Db.PostBroadcastReversal` | crates/ledger/src/operations.rs:258-281 | Under a new key the amount moves from clearing to custody and nothing else moves; a replay changes nothing |
| `Database.Db.PostFunding` | crates/ledger/src/operations.rs:322-345 | Under a new reference custody and treasury rise by the amount and nothing else moves; a replay changes nothing |
| `Database.Db.PostDepositReversal` | crates/ledger/src/operations.rs:65-115 | The branches on the spendable balance build exactly the compensating entries |
| `Database.Db.PostReservation` | crates/ledger/src/operations.rs:125-162 | Lock, check and post, with insufficient balance as its own error; under a new key the amount moves from spendable to reserved |
| `Database.Db.PostFee` | crates/ledger/src/operations.rs:286-312 | Gas is booked in the native asset when there is one and the fee is not zero |
| `WithdrawalOps.CreateWithdrawal` | crates/withdrawals/src/service.rs:127-257 | The row updates commit exactly the outcome of `create`: replay, key conflict, denial, reservation, approval or hold; an error leaves every table unchanged |
| `WithdrawalOps.ApproveWithdrawal` | crates/withdrawals/src/service.rs:300-321 | Succeeds exactly for a validated withdrawal, and then that row is approved and nothing else changes |
| `EffectLaws.ApproveAllowedIff` | crates/withdrawals/src/service.rs:300-321 | Approval succeeds exactly for a validated withdrawal, changes its status and nothing else, and has its own error for a missing row and for any other status |
| `EffectLaws.CancelReturns` | crates/withdrawals/src/service.rs:327-358 | A cancelled withdrawal's whole reservation is spendable again and no other balance or row moves |
| `EffectLaws.FailReturns` | crates/withdrawals/src/pipeline.rs:621-651 | The same for a withdrawal failed before it was sent; a sent or finished one is left as it is |
| `EffectLaws.CreateReserves` | crates/withdrawals/src/service.rs:127-257 | What a new request commits: the row as requested, held exactly on manual approval, with the amount moved from spendable to reserved; denied, a failed row and no posting |
| `EffectLaws.SignTakesNonce` | crates/withdrawals/src/pipeline.rs:164-220 | Signing takes the larger of counter and hint, writes a transaction for the row's destination, asset and amount under it, and leaves the counter one above |
| `EffectLaws.BroadcastClears` | crates/withdrawals/src/pipeline.rs:235-279 | Recording a broadcast moves exactly the amount from custody to clearing |
| `EffectLaws.SettlePays` | crates/withdrawals/src/pipeline.rs:463-550 | Every balance after a settlement: reserved and clearing fall by the amount, gas moves from native custody to network fees |
| `EffectLaws.UnwindPays` | crates/withdrawals/src/pipeline.rs:556-618 | Every balance after unwinding: custody and the user have the amount back, and the gas is still paid |
| `EffectLaws.CreditPays` | crates/deposits/src/credit.rs:37-122 | Crediting a confirmed deposit pays exactly its amount to its owner; on a credited, reorged or failed one it does nothing |
| `EffectLaws.RefusedWith` | crates/deposits/src/credit.rs:37-75 | The error of each refused cancel, create and credit: a missing deposit is not found, an unconfirmed one a conflict to retry, a short balance is insufficient balance |
| `EffectLaws.FundAllowedIff` | crates/ledger/src/operations.rs:322-345 | Funding is refused exactly for a non-positive amount or a reference too long for the key |
| `ApprovalLaws.ApprovedIsSigned` | crates/withdrawals/src/service.rs:300-321 | Over any run: a request held for approval is not signed before it, and once approved the idle worker signs it for its destination and amount |
| `ApprovalLaws.HeldIsNeverSent` | crates/withdrawals/src/service.rs:234-257 | In every continuation of a run without its approval, nothing is ever sent for a withdrawal held for approval |
| `ApprovalLaws.NoNonceGap` | crates/database/src/repo/withdrawals.rs:380-405 | Over every run whose hints are not ahead of the counter, the nonces of a chain's withdrawals are exactly those below its counter |
| `WithdrawalOps.CancelWithdrawal` | crates/withdrawals/src/service.rs:327-358 | Release first, transition second; a refused transition rolls the release back |
| `WithdrawalOps.RecordBroadcastOf` | crates/withdrawals/src/pipeline.rs:235-279 | Status and the custody-to-clearing posting commit together or not at all |
| `WithdrawalOps.SettleCompleted` | crates/withdrawals/src/pipeline.rs:463-550 | Settlement, gas and status commit together or not at all |
| `WithdrawalOps.SettleReverted` | crates/withdrawals/src/pipeline.rs:556-618 | The reversed broadcast, the returned reservation, gas and status commit together or not at all |
| `WithdrawalOps.FailWithdrawal` | crates/withdrawals/src/pipeline.rs:621-651 | A withdrawal that may have left or is over is left alone; any other is failed and its reservation returned |
| `Books.NextNonce` | crates/database/src/repo/withdrawals.rs:380-405 | The allocated nonce is behind neither the counter nor the chain's hint, and is one of the two |
| `RefusalLaws.FeeBooked` | crates/ledger/src/operations.rs:286-312 | Gas moves from native custody to network fees by exactly the fee, and no other account moves |
| `RefusalLaws.FundingBooked` | crates/ledger/src/operations.rs:322-345 | Funding raises custody and treasury by exactly the amount, once per reference |
| `RefusalLaws.SettleRefusedOnlyForGas` | crates/withdrawals/src/pipeline.rs:463-550 | In any state with the invariant, settling is refused exactly when native custody does not cover the gas, never for reserved or clearing funds |
| `RefusalLaws.UnwindRefusedOnlyForGas` | crates/withdrawals/src/pipeline.rs:556-618 | The same for unwinding a reverted withdrawal, counting the custody it returns |
| `RefusalLaws.BroadcastRefusedOnlyForCustody` | crates/withdrawals/src/pipeline.rs:235-279 | Recording a broadcast is refused exactly when custody is short of the amount already sent |
| `RefusalLaws.FailNeverRefused` | crates/withdrawals/src/pipeline.rs:621-651 | Failing and releasing succeeds for every existing withdrawal |
| `RefusalLaws.CancelAllowedIff` | crates/withdrawals/src/service.rs:327-358 | Cancellation succeeds exactly for validated or approved withdrawals; for a signing one it is an invalid transition |
| `RefusalLaws.FreshCreateAllowedIff` | crates/withdrawals/src/service.rs:110-257 | Under an unused key, `create` commits exactly when the request is well formed and the policy denies it or the spendable balance covers it |
| `RefusalLaws.CreditAllowedIff` | crates/deposits/src/credit.rs:37-122 | Crediting is refused exactly for missing or not yet confirmed deposits |
| `RefusalLaws.ReorgAllowedIff` | crates/deposits/src/reorg.rs:200-258 | A reorg over any list of deposits is accepted exactly when custody of every asset covers the credited ones, each once; then all are marked and custody falls by that sum |
| `Witnesses.ReorgRefusedInARun` | crates/deposits/src/reorg.rs:32-40 | A run from the start, for every amount: deposit credited, withdrawn and sent, and its reorg then refused with nothing changed |
| `PolicyLaws.JudgedRequest` | crates/withdrawals/src/service.rs:159-257 | Judged on the balance the ledger holds, a request always commits a row: failed and unreserved when denied, otherwise reserved, and held exactly above the manual threshold |
| `PipelineLaws.NextSafe` | crates/withdrawals/src/pipeline.rs:158-651 | Every step of API calls, deposit handlers, worker, crash and chain keeps the whole invariant: ledger, aggregates, rows, keys, nonces, sent transactions |
| `PipelineLaws.AlwaysSafe` | crates/withdrawals/src/pipeline.rs:158-651 | The invariant holds after every sequence of steps |
| `RunLaws.PerUserConservation` | crates/ledger/src/operations.rs:31-345 | In every reachable state available + reserved - deficit is the sum of the user's credited deposits less their completed withdrawals |
| `RunLaws.ReservedAndClearingExact` | crates/withdrawals/src/pipeline.rs:235-651 | In every reachable state reserved is the sum of the withdrawals holding it and clearing is the sum of those in flight, hence never negative |
| `RunLaws.LedgerAlwaysSound` | crates/ledger/src/integrity.rs:81-157 | In every reachable state the integrity checks pass and the surplus is treasury less network fees |
| `RunLaws.CreditedAndReversedAtMostOnce` | crates/deposits/src/reorg.rs:172-263 | Counting steps of any run: a deposit is credited at most once, reversed at most once, and reversed only after a credit |
| `RunLaws.NextSteps` | crates/database/src/models.rs:284-298 | Every step moves each withdrawal along an allowed transition, keeps what was requested, and keeps a recorded nonce and hash |
| `RunLaws.RowsOutlive` | crates/withdrawals/src/pipeline.rs:158-380 | Across any continuation a recorded nonce and hash never change and a final status is final |
| `RunLaws.OneNonce` | crates/withdrawals/src/pipeline.rs:158-380 | Every transaction ever sent for a withdrawal has its destination, chain, asset and amount and the one nonce of its row, in every continuation |
| `RunLaws.SentPaysTheRequest` | crates/withdrawals/src/pipeline.rs:190-197 | From the request to the wire: whatever is ever sent for a withdrawal pays the destination its request named, on that chain, in that asset, by that amount |
| `RunLaws.NoDoublePayment` | crates/database/src/repo/withdrawals.rs:380-405 | Sent transactions of different withdrawals never share a nonce, and at most one transaction of a withdrawal is ever mined |
| `RunLaws.ReleasedNeverPaid` | crates/withdrawals/src/pipeline.rs:556-667 | Once a withdrawal failed or was cancelled, nothing sent for it pays out in any continuation: its mined transaction reverted |
| `RunLaws.ReturnedIffUnpaid` | crates/withdrawals/src/pipeline.rs:463-667 | The release is posted exactly for reserved withdrawals that ended unpaid, the settlement exactly for completed ones, a completed one was mined, and signing always has hash and nonce |
| `RunLaws.CreateIsIdempotent` | crates/withdrawals/src/service.rs:127-157 | After any further run, the same request under the same key returns the same withdrawal and changes nothing; another body is a conflict |
| `RunLaws.ResignedTransaction` | crates/withdrawals/src/pipeline.rs:351-380 | Recovery signs under the recorded nonce always, and reproduces the recorded hash exactly when the fee is the same |
| `RunLaws.EndsIffRecordedTransactionDid` | crates/withdrawals/src/pipeline.rs:383-461 | A look at a withdrawal in flight ends it exactly when the recorded transaction reverted, or succeeded and is final, and custody covers the gas |
| `RunLaws.DisplacedNeverSettles` | crates/withdrawals/src/pipeline.rs:383-461 | If a transaction other than the recorded one took the nonce, the withdrawal stays in flight in every continuation |
| `RunLaws.RepricingDisplaces` | crates/withdrawals/src/pipeline.rs:316-380 | How that happens: from any signed withdrawal, a lost broadcast re-signed at another fee and mined pays once and leaves the withdrawal in flight |
| `Witnesses.DisplacedInARun` | crates/withdrawals/src/pipeline.rs:316-380 | A run from the start, for every amount, after which the withdrawal is paid and no continuation settles or returns it |
| `PipelineWorker.PipelineRunner.SignPhase` | crates/withdrawals/src/pipeline.rs:164-220 | Phase 1 is one protocol step: the transaction pays the row's destination, its nonce and hash are on record and the counter is one above before anything is sent; a missing row is an error and a row someone else took is left |
| `PipelineWorker.PipelineRunner.BroadcastPhase` | crates/withdrawals/src/pipeline.rs:227-228 | The broadcast is one protocol step, also when the transaction gets out although the call failed |
| `PipelineWorker.PipelineRunner.RecordPhase` | crates/withdrawals/src/pipeline.rs:230-232 | Recording the broadcast is one protocol step |
| `PipelineWorker.PipelineRunner.SendAndRecord` | crates/withdrawals/src/pipeline.rs:227-232 | Broadcast and record as protocol steps, entering broadcast exactly when it succeeds |
| `PipelineWorker.PipelineRunner.ReleasePhase` | crates/withdrawals/src/pipeline.rs:621-651 | The release is one protocol step, entering failed exactly when it reports so |
| `PipelineWorker.PipelineRunner.SignAndBroadcast` | crates/withdrawals/src/pipeline.rs:158-233 | The three phases are a run of the protocol, and an error leaves the worker at the failure handler |
| `PipelineWorker.PipelineRunner.FailBeforeBroadcast` | crates/withdrawals/src/pipeline.rs:653-667 | The read and the release are protocol steps; an ambiguous broadcast is left alone |
| `PipelineWorker.PipelineRunner.ProcessOne` | crates/withdrawals/src/pipeline.rs:140-154 | One withdrawal of the pass, with its failure handling, is a run of the protocol that ends idle and enters broadcast or failed exactly as reported |
| `PipelineWorker.PipelineRunner.RecoverOne` | crates/withdrawals/src/pipeline.rs:304-342 | One stranded withdrawal: release, record, or sign again under the recorded nonce, as protocol steps, with recovered meaning it left signing |
| `PipelineWorker.PipelineRunner.RecordSeen` | crates/withdrawals/src/pipeline.rs:330-341 | The broadcast of a transaction the node has seen is recorded as one protocol step, or is an error |
| `PipelineWorker.PipelineRunner.RecoverUnseen` | crates/withdrawals/src/pipeline.rs:305-329 | Without a hash it is released, unknown to the node it is signed again under the recorded nonce, as protocol steps; a resend that goes wrong is no error |
| `PipelineWorker.PipelineRunner.RecoverRest` | crates/withdrawals/src/pipeline.rs:351-380 | The release without a hash, or the re-signed broadcast and its record, as protocol steps |
| `PipelineWorker.PipelineRunner.WatchOne` | crates/withdrawals/src/pipeline.rs:399-458 | One withdrawal in flight: each answer of the node is the matching protocol step |
| `PipelineWorker.PipelineRunner.ProcessApproved` | crates/withdrawals/src/pipeline.rs:113-156 | A whole pass, whatever the outside answers, is a run of the protocol, and its counters are the numbers of withdrawals that entered broadcast and failed in it |
| `PipelineWorker.PipelineRunner.RecoverSigning` | crates/withdrawals/src/pipeline.rs:286-349 | A recovery pass against an honest node is a run of the protocol that ends at the first broadcast it cannot record; its count is the withdrawals that left signing |
| `PipelineWorker.PipelineRunner.ProcessInFlight` | crates/withdrawals/src/pipeline.rs:383-461 | A settlement pass against an honest node is a run of the protocol; completed and failed are the withdrawals that entered those states, and each candidate is counted once |
| `PipelineWorker.PipelineRunner.ChainOnce` | crates/withdrawals/src/pipeline.rs:91-107 | Recovery, signing and settlement at one chain over the claimed rows leave the tables and the error of the pass function, as a run of the protocol, and the counters count what each stage did |
| `PipelineWorker.PipelineRunner.RunOnce` | crates/withdrawals/src/pipeline.rs:88-110 | The pass over all chains leaves the tables and the error of the pass function, ending at the first error; its totals are the sums of exact counts per chain |
| `Passes.Claimed` | crates/database/src/repo/withdrawals.rs:164-179 | At most the batch size, all of them rows of that chain in that status |
| `BlockedLaws.ClaimedIff` | crates/database/src/repo/withdrawals.rs:164-179 | Claimed are exactly the matching rows with fewer than the limit of matching rows created before them |
| `BlockedLaws.ClaimedInOrder` | crates/database/src/repo/withdrawals.rs:164-179 | They are claimed in the order of creation |
| `BlockedLaws.StaysClaimed` | crates/database/src/repo/withdrawals.rs:164-179 | A row that keeps its status stays in the claimed batch while others only leave that status |
| `PassLaws.RecoversIff` | crates/withdrawals/src/pipeline.rs:286-349 | In any state with the invariant, recovery of a batch goes through exactly when custody, taken in order, lasts for every transaction the node has seen; then every covered candidate is in flight, no other row changed, and custody is what is left |
| `PassLaws.AllCoveredIff` | crates/withdrawals/src/pipeline.rs:303-342 | Every candidate recovery would record is covered exactly when custody of each asset covers all of them together |
| `GasLaws.SendsAll` | crates/withdrawals/src/pipeline.rs:113-156 | Processing approved withdrawals is never blocked: every candidate ends failed, signed with its hash on record, or in flight |
| `GasLaws.SettlesIff` | crates/withdrawals/src/pipeline.rs:383-461 | Settlement of a batch goes through exactly when native custody lasts for the gas of every settlement in turn, reverted native transfers returned first; then each candidate has the status of its transaction |
| `BlockedLaws.ChainClearIff` | crates/withdrawals/src/pipeline.rs:91-107 | At one chain the pass goes through exactly when custody lasts for recovery and native custody for gas |
| `BlockedLaws.PassClearIff` | crates/withdrawals/src/pipeline.rs:88-110 | The whole pass goes through exactly when that holds at every chain when the pass comes to it |
| `BlockedLaws.StuckPass` | crates/withdrawals/src/pipeline.rs:88-110 | A claimed, signed withdrawal the node knows and custody cannot cover ends the pass: no row of any chain changes but other stranded ones, and it is as stuck as before |
| `BlockedLaws.StuckForGood` | crates/withdrawals/src/pipeline.rs:88-110 | However many passes follow, each fails while the node knows the transaction, and nothing approved or in flight moves |
| `Witnesses.BlockedInARun` | crates/withdrawals/src/pipeline.rs:330-341 | A run from the start, for every amount, that ends so: the worker dies after sending, the deposit paid from is reorged, and every pass fails |
| `Blocks.HeaderAt` | crates/chains-evm/src/adapter.rs:238-258 | A chain has exactly one block at each height up to its head, of that height |
| `Blocks.ForkOf` | crates/deposits/src/reorg.rs:71-75 | Any two chains have exactly such a highest common height, so what is said of the fork holds for every chain |
| `ForkLaws.LineageIsAChain` | migrations/0002_chain.sql:27-32 | A stored lineage has one canonical block per height from the lowest stored to the cursor, parent-linked, and nothing above |
| `ForkLaws.ForkSplitsTheStore` | crates/deposits/src/reorg.rs:71-75 | What is stored at or below the fork is on the chain, and what is stored above it is not |
| `ForkLaws.DetectExact` | crates/deposits/src/reorg.rs:76-129 | The complete answer of `detect`, also for a chain shorter than the cursor: none exactly when the head is below the cursor or the tip is on the chain, the exact fork inside the stored window, an error when the whole window disagrees, and the height below storage when storage ends first |
| `ForkLaws.DetectAgreesWithSearch` | crates/deposits/src/reorg.rs:300-316 | On the scan window `detect` and `find_common_ancestor` give the same answer |
| `DepositOps.DetectFork` | crates/deposits/src/reorg.rs:76-129 | The walk-back loop computes the function, and examines at most scan-depth heights |
| `DepositOps.SearchAncestor` | crates/deposits/src/reorg.rs:305-316 | The loop returns the first stored pair the chain has |
| `DepositOps.HandleReorg` | crates/deposits/src/reorg.rs:132-263 | Orphaning, marking, compensating and rewinding commit together, or an error leaves every table unchanged |
| `DepositOps.ReorgOneDeposit` | crates/deposits/src/reorg.rs:202-240 | One deposit of the loop: skipped if already reorged, compensated if credited, then marked |
| `DepositOps.ReorgEach` | crates/deposits/src/reorg.rs:200-258 | The loop over abandoned deposits computes the fold, or stops at the first refused compensation |
| `DepositOps.PersistEachHeader` | crates/deposits/src/engine.rs:75-77 | The header loop computes the fold, or stops at the first conflict |
| `DepositOps.PersistEachTransfer` | crates/deposits/src/engine.rs:79-86 | The transfer loop computes the fold, or stops at the first refused row |
| `DepositOps.PersistOneHeader` | crates/deposits/src/engine.rs:95-124 | A header is inserted after freeing an occupied height |
| `DepositOps.PersistOneTransfer` | crates/deposits/src/engine.rs:150-186 | Unknown asset or address and duplicates are skipped, a non-positive amount is refused, anything else adds the transfer and its deposit |
| `DepositOps.PersistScan` | crates/deposits/src/engine.rs:39-93 | Headers, transfers and the cursor commit together, or an error leaves every table unchanged |
| `DepositOps.InitialiseCursor` | crates/deposits/src/watcher.rs:167-190 | The first block and cursor, with the head's hash when the chain has no block there |
| `DepositOps.TickOnce` | crates/deposits/src/watcher.rs:87-162 | One tick of loops and branches computes the tick function; a failing tick changes nothing |
| `DepositOps.RunConfirmations` | crates/deposits/src/confirmations.rs:65-160 | The pass computes its function, and its counters are the deposits it brought to confirming and confirmed and those not in a canonical block |
| `DepositOps.CreditOne` | crates/deposits/src/credit.rs:37-122 | The credit posting and the status commit together, or nothing changes |
| `WatcherLaws.IncumbentNeverMet` | crates/deposits/src/engine.rs:101-116 | In a scan from the cursor the incumbent-orphaning branch never fires |
| `WatcherLaws.HandledConsistent` | crates/deposits/src/reorg.rs:265-275 | After a reorg tick the store is a lineage again exactly when the ancestor it went back to is stored |
| `WatcherLaws.HandleTracked` | crates/deposits/src/reorg.rs:185-262 | Rolling back to any height keeps every deposit that is not reorged in a canonical block |
| `WatcherLaws.LogsAre` | crates/chains-evm/src/adapter.rs:141-211 | A scan hands over exactly the tracked transfers of the scanned blocks that decode |
| `WatcherLaws.FreshStartMissesNothing` | crates/deposits/src/watcher.rs:164-171 | A cold start scans exactly from the configured block, or every height that has at most the required confirmations; with a tag policy and no start block, the head alone |
| `WatcherLaws.NewDepositIsTheOwners` | crates/deposits/src/engine.rs:170-186 | A transfer adds a deposit exactly when it is resolved and new, and then for the owner, asset and amount of the log, touching no balance |
| `WatcherLaws.TickKeeps` | crates/deposits/src/watcher.rs:87-162 | Every tick on any chain keeps the store consistent and the deposits tracked, and one that ends scanned, or idle at the head, leaves the tip on the chain |
| `ConfirmLaws.DeepEnough` | crates/common/src/chain.rs:88-104 | A canonical block is deep enough exactly when head + 1 is at least its height plus the required confirmations, a requirement of at most one always being met; a tag policy has no depth |
| `ConfirmLaws.PassConfirmsExactly` | crates/deposits/src/confirmations.rs:65-160 | Over a whole pass: a claimed pending deposit in a canonical block is confirmed if that is deep enough and confirming if not; every other deposit, the ledger and the withdrawals are unchanged |
| `ConfirmLaws.ConfirmedOnlyWhenDeep` | crates/deposits/src/confirmations.rs:77-109 | Over every run of the site, each confirmed or credited deposit of the chain had an earlier pass that claimed it and saw its block canonical and deep enough |
| `TickLaws.ScannedRange` | crates/deposits/src/watcher.rs:269-276 | A scan starts just above the cursor and is a batch long or ends at the head |
| `TickLaws.ScanStoresExactly` | crates/deposits/src/watcher.rs:127-154 | After a scan a block is stored exactly when it was before or was scanned and, if pruning ran, is not four windows below the range or is named by a transfer |
| `TickLaws.ColdStartLeaves` | crates/deposits/src/watcher.rs:167-190 | A cold start stores one block with the cursor on it and touches nothing else |
| `TickLaws.IdleLeaves` | crates/deposits/src/watcher.rs:110-126 | With nothing to scan a tick changes nothing and reports head and cursor |
| `TickLaws.ReorgLeavesExactly` | crates/deposits/src/reorg.rs:132-263 | After a reorg tick the store is what it was up to the ancestor with the cursor on it; orphaned are exactly the live rows above it, with their deposits reorged, and every other row and deposit is as it was |
| `TickLaws.ReorgedIffOffChain` | crates/deposits/src/reorg.rs:185-240 | With the fork in the window a reorg tick reorgs exactly the live deposits whose block is not on the chain |
| `TickLaws.ReorgedOnlyOffChain` | crates/deposits/src/reorg.rs:185-240 | In every reachable state each reorged deposit was reorged by a tick that saw a chain without its block |
| `SiteLaws.SiteIsARun` | crates/deposits/src/watcher.rs:87-162 | Every run of watcher, confirmations and money actions is a run of the money system, so each theorem about runs holds with the watcher in place |
| `SiteLaws.LiveDepositsAlwaysCanonical` | crates/deposits/src/confirmations.rs:77-94 | In every reachable state a deposit that is not reorged is in a canonical block of the store, so the non-canonical branch never fires |
| `SiteLaws.LiveDepositsOnTheChain` | crates/deposits/src/watcher.rs:87-162 | After any run against a chain that may replace any suffix, a tick that ends scanned, or idle at the head, leaves every deposit that is not reorged in a block of that chain which carries its transfer and amount |
| `SiteLaws.StoreAlwaysConsistent` | crates/deposits/src/engine.rs:61-141 | Every reachable store is unstarted, one parent-linked lineage, or cut off from the chain |
| `RetentionLaws.AlwaysRetained` | crates/database/src/repo/chain.rs:184-210 | Over every run only blocks more than four windows below the highest scanned height are gone |
| `RetentionLaws.WindowStored` | crates/deposits/src/watcher.rs:145-154 | The detection window is stored back to the first block unless reorgs pulled the cursor more than three windows below the highest scanned height |
| `RetentionLaws.DeadEndOnlyIf` | crates/deposits/src/reorg.rs:116-121 | Detection runs off the stored blocks only for a fork below the first block, or after such a pull-back |
| `ConvergenceLaws.BatchRefusedIff` | migrations/0002_chain.sql:71-72 | A decoded batch is refused exactly when it holds a zero-value transfer that is resolved and seen for the first time |
| `ScanLaws.RowsAfterScan` | crates/deposits/src/engine.rs:150-186 | After a scan exactly these transfers have rows: those that had one, and the tracked, resolved and decodable ones of the scanned blocks |
| `ScanLaws.RowExactlyWhenDecodable` | crates/chains-evm/src/adapter.rs:173-193 | A new tracked and resolved transfer of a scanned block gets its row exactly when its amount is below 16^31; otherwise the cursor passes it and neither row nor deposit is made |
| `WatcherWitnesses.LargeTransferPassed` | crates/chains-evm/src/adapter.rs:173-193 | A run from a new site: the block of such a transfer is scanned, with no row and no deposit |
| `ScanLaws.AlwaysComplete` | crates/deposits/src/engine.rs:61-93 | Over every run with one directory, in every reachable state each tracked, resolved and decodable transfer of a canonical block above the first has its row |
| `ScanLaws.RowIffTrackedWhenScanned` | crates/deposits/src/context.rs:1-8 | Over every run, with a directory that may differ at every tick, a transfer has a row exactly when some tick scanned a block that carries it with a directory that tracked and resolved it |
| `WatcherWitnesses.StaleDirectoryMisses` | crates/deposits/src/context.rs:1-8 | A run from a new site: scanned with the address missing from the snapshot, the transfer is recorded by no later tick although each has the address |
| `ConvergenceLaws.Converges` | crates/deposits/src/watcher.rs:87-162 | With the chain still and the fork in the window, one reorg tick if needed and ceil((head - fork) / batch) scans reach the head, visit each height above the fork once and in order, and record every tracked, resolved and decodable transfer there; every further tick, with any directory, is idle and changes nothing |
| `ConvergenceLaws.CeilIsLeast` | crates/deposits/src/watcher.rs:269-276 | The number of scans is the least number of batches that covers the distance |
| `LimitLaws.StrandedNeverConverges` | crates/deposits/src/reorg.rs:265-275 | With no stored block at or below a zero-hash cursor every tick on a still chain steps back one more and visits nothing, and from height zero on every tick fails |
| `WatcherWitnesses.StrandedInARun` | crates/deposits/src/reorg.rs:116-121 | A run from a new site that ends there: the first stored block is replaced |
| `AdriftLaws.ScansAgainIff` | crates/deposits/src/reorg.rs:265-275 | For any zero-hash cursor on a still chain, with custody for what is taken back: the watcher gets back on the chain exactly when, going down, it meets a stored block of the chain before scan-depth stored blocks in a row that are not on it |
| `AdriftLaws.RecoveringTick` | crates/deposits/src/reorg.rs:76-129 | In the recoverable case every tick, whatever the order of deposits, is accepted and resumes or rewinds further |
| `AdriftLaws.NeverScansAgain` | crates/deposits/src/reorg.rs:267-273 | In the other case no tick among any events that follow on the still chain scans, money actions and confirmations in between included |
| `LimitLaws.SurvivorStaysReorged` | crates/deposits/src/reorg.rs:206-240 | Once reorged a deposit stays reorged in every continuation of every run |
| `ScanLaws.LiveAfterScanIff` | crates/deposits/src/reorg.rs:25-29 | After a scan of a block that carries a transfer to record, its deposit is live exactly when before the scan the transfer had no row or one that was not orphaned |
| `WatcherWitnesses.SurvivorReorgedInARun` | crates/deposits/src/reorg.rs:25-29 | A run from a new site, for every decodable amount: scan, reorg, scan of a block with the same transfer; the head carries the transfer and its deposit is reorged |
| `LimitLaws.ScanFailsIff` | crates/deposits/src/watcher.rs:127-142 | A tick on the stored chain fails exactly when its batch holds a zero-value transfer that is resolved and new |
| `WatcherWitnesses.ZeroValueStalls` | migrations/0002_chain.sql:71-72 | A run from a new site: with such a block at hand every tick fails and changes nothing, however often it is tried |
| `Contention.NeverOverdrawn` | crates/ledger/src/operations.rs:125-162 | For any interleaving of lock, check, post, commit and crash of any number of reservations, spendable never goes negative and reserved plus rest is the start |
| `Contention.ExactlyAsManyAsFit` | crates/ledger/src/accounts.rs:185-209 | For equal amounts, once all ran to the end exactly min(N, B div a) succeeded |
| `Velocity.RollingLimit` | crates/database/src/repo/withdrawals.rs:348-372 | At every moment and for every 24-hour window a user's live withdrawals of an asset sum to at most the cap and number at most the count, over every run of the policy |
| `PolicyRuns.RequestOutcome` | crates/withdrawals/src/service.rs:159-257 | A new request in any state of the money system is failed exactly when it breaks a rule on the ledger's balance and the last day's rows, held exactly above the governing threshold, and approved otherwise |
| `PolicyRuns.LimitsAlwaysHold` | crates/withdrawals/src/service.rs:159-257 | The same on the withdrawal rows over every run of the whole money system, with each decision computed from the rows and balances it finds |
| `PolicyRuns.LimitsOnTheRows` | crates/database/src/repo/withdrawals.rs:348-372 | The same read off the withdrawal rows: in no run does a 24-hour window hold more of a user's withdrawals of an asset, neither failed nor cancelled, than the governing cap or the count |
| `Velocity.PerUserCount` | crates/withdrawals/src/service.rs:168-174 | Over all assets a user has at most the configured count times the number of assets in use, so with one asset the count itself is kept |
| `Velocity.CountExceeded` | crates/withdrawals/src/service.rs:168-174 | For every count of at least one: a run over two assets whose day holds one withdrawal more |
| `Velocity.UserCountKeptIff` | crates/risk/src/lib.rs:207-214 | The configured count per user is kept over a set of assets exactly when it has at most one asset or the count is zero |
| `Velocity.LimitGoverns` | crates/risk/src/lib.rs:123-132 | The limit that decides is the chain's own entry, the bare symbol's only where the chain has none, and none without either |
| `Velocity.DeniedIff` | crates/risk/src/lib.rs:134-262 | The ordered rules deny exactly the requests that break some rule, each limit being the governing entry of its table |
| `Velocity.DecidedByTheTables` | crates/risk/src/lib.rs:134-262 | The denial names the first broken rule in the source's order; otherwise the request is held exactly above the governing manual threshold |
| `Velocity.HistoryOnly` | crates/withdrawals/src/service.rs:159-174 | The day's total and count shown to the policy are those of the earlier withdrawals, the new row being in neither |
| `Velocity.LiveIffAcceptable` | crates/withdrawals/src/service.rs:159-257 | A new request is live exactly when it meets every rule with those totals, so one within what remains of cap and count is let through |
| `Outbox.OutboxRelay.RunOnce` | crates/events/src/outbox.rs:76-164 | The loop that collects ids and marks them at the end equals relaying row by row, and its counters are the three fates |
| `Outbox.PassAccounts` | crates/events/src/outbox.rs:87-158 | Each claimed row is published when acknowledged, pending with one more attempt while that leaves a try, and a dead letter exactly when unreadable or out of tries; no other row changes; the counters add up |
| `Outbox.SettledOnce` | crates/database/src/repo/outbox.rs:31-60 | While its row is not pruned an event has at most one acknowledged publish or dead letter, however often it is enqueued, and one exactly when its row is marked |
| `Outbox.DeadOnlyWhenTried` | crates/events/src/outbox.rs:123-149 | Over every run, for each dead letter of a readable event there were as many committed unacknowledged publishes as the budget allows |
| `Outbox.NothingLost` | crates/database/src/repo/outbox.rs:31-108 | For any run of commits, passes, lost acknowledgements, crashes before commit and pruning, every committed event is pending with retries left, on the bus, or a dead letter |
| `Consumer.EffectsMatchClaims` | crates/database/src/repo/outbox.rs:155-201 | An event's effect committed once per kept claim and once per pruned claim |
| `Consumer.ExactlyOnce` | crates/events/src/consumer.rs:370-411 | While its claim is not pruned an event's effect commits at most once, and exactly once after a delivery that returned done |
| `Consumer.PruningForgets` | crates/database/src/repo/outbox.rs:191-201 | A redelivery after pruning commits the effect again |
| `Consumer.ConsumerRunner.Handle` | crates/events/src/consumer.rs:383-410 | Claim, act and commit or roll back, including a commit whose reply is lost |
| `Consumer.ConsumerRunner.Process` | crates/events/src/consumer.rs:84-166 | The loop leaves what the first attempt within the budget that does not miss decides; if all miss, one more dead letter and nothing else; an unsupported version is a dead letter at once |
| `Consumer.ProcessOutcome` | crates/events/src/consumer.rs:84-166 | The outcome of processing, read off the attempts: unsupported, already claimed, decided by the first attempt that does not miss, or dead after the whole budget |
| `Consumer.RetryDropsNothing` | crates/events/src/consumer.rs:110-166 | A processed event ends up claimed or in the dead letters, at most once more than before |
| `Consumer.CreditedByTheClaimer` | crates/deposits/src/credit.rs:142-172 | Over deliveries, crashes, unseen commits and pruned claims the deposit handler credits at most once, exactly if some delivery that took the claim got its credit done |
| `Consumer.DeliveryLeaves` | crates/deposits/src/credit.rs:142-172 | What one delivery leaves and answers: rejected exactly for the taker of a missing deposit, failed exactly for an unseen claim or a credit not seen done |
| `Consumer.DoneIsACreditIff` | crates/deposits/src/credit.rs:48-171 | A done answer comes with a credit exactly when an earlier taker was credited, or this delivery took the claim and its credit found the deposit valid |
| `Consumer.DoneMayMeanUncredited` | crates/deposits/src/credit.rs:151-159 | A delivery that finds the claim taken returns done and credits nothing, whatever the claimer achieved |
| `Consumer.OneTaker` | crates/deposits/src/credit.rs:154-159 | Between two prunings only one delivery takes the claim |
| `Consumer.FailedCreditIsNotRetried` | crates/deposits/src/credit.rs:161-171 | The input: a credit that fails once, then a redelivery that returns done with nothing credited |
| `Breaker.EndpointHealth.AllowsRequest` | crates/rpc/src/health.rs:122-135 | Answer and state change of asking |
| `Breaker.EndpointHealth.RecordSuccess` | crates/rpc/src/health.rs:137-158 | State, counters and average after a success |
| `Breaker.EndpointHealth.RecordFailure` | crates/rpc/src/health.rs:160-175 | State and counters after a failure |
| `Breaker.TotalsCountResults` | crates/rpc/src/health.rs:137-162 | The totals behind the failure rate count exactly the recorded results |
| `Breaker.ClosedMeansFewFailures` | crates/rpc/src/health.rs:122-175 | On every trace, late results included, while the breaker is closed every stretch without a success up to now holds fewer failures than the threshold |
| `Breaker.OpenSince` | crates/rpc/src/health.rs:160-175 | An open breaker carries the deadline of the last failure that opened it |
| `Breaker.NoRequestBeforeDeadline` | crates/rpc/src/health.rs:118-135 | With a clock that never runs back, a request is allowed only after every deadline set so far |
| `Breaker.ClosedOnlyAfterProbe` | crates/rpc/src/health.rs:137-158 | Closed is regained only after a deadline passed, with at least the threshold of successes since the probe began and no failure between |
| `Breaker.FailureOpensIff` | crates/rpc/src/health.rs:160-175 | After any trace a failure reopens a half-open breaker, and opens any other exactly when it completes the threshold of failures since the last success |
| `Breaker.SuccessClosesIff` | crates/rpc/src/health.rs:137-158 | After any trace a success closes a half-open breaker exactly when it completes the threshold since the probe began, and otherwise leaves the state |
| `Breaker.AskedAfterDeadline` | crates/rpc/src/health.rs:122-135 | An open breaker lets requests through exactly from its deadline on, and is half open then |
| `Breaker.AverageIsBlend` | crates/rpc/src/health.rs:143-151 | The average after a success is the first sample, or the percentage-weighted mean of sample and average, rounded down |
| `Breaker.StampsAreLast` | crates/rpc/src/health.rs:137-165 | The time stamps are those of the last success and the last failure, and only a success moves the average |
| `Breaker.AverageWithinSamples` | crates/rpc/src/health.rs:143-151 | The latency average stays between the smallest and largest sample |
| `Codec.EncodeTransferCall` | crates/chains-evm/src/abi.rs:92-121 | The byte buffer holds the selector and two padded words, or the source's error |
| `Codec.CallRoundTrip` | crates/chains-evm/src/abi.rs:54-121 | For every address and positive amount the two words decode to the address, and to the amount exactly when it is below 16^31; above it is an error |
| `Codec.LogRoundTrip` | crates/chains-evm/src/abi.rs:31-52 | The same for a whole transfer log |
| `Codec.TokenLogDecodesIff` | crates/chains-evm/src/abi.rs:31-90 | The log of any 256-bit transfer decodes to it exactly when the amount is below 16^31, and to an error otherwise |
| `Codec.DecodedIsExact` | crates/common/src/money.rs:110-126 | Whatever decodes is the value the text spells out, below 16^31 |

## Left out

Assumptions the theorems rest on:

- Each `begin ... commit` is one atomic step that may fail and leave the tables unchanged; unlocked reads
  inside a transaction see no concurrent writer.
- One pipeline worker, one watcher per chain and one hot wallet per chain; API calls, other chains' deposits
  and crashes interleave freely.
- The chain a tick or a pipeline pass sees stands still while it runs, and chains share one genesis block;
  a scan is therefore never truncated.
- A mined transaction stays mined with the same result. `process_in_flight` settles a reverted transaction
  without waiting for confirmations, so `RunLaws.ReleasedNeverPaid` depends on this.
- Signing and hashing are deterministic and injective: a transaction, or a block, is its own hash.
- Balances are unbounded integers: a balance beyond 128 bits, which the schema can hold and a read would
  refuse, is not modelled. Amounts of single requests, deposits and entries are bounded as in the source.

Weaker than the source:

- ConvergenceLaws.Converges: asks that custody covers what the reorg takes back and that no transfer to record above the fork has the value zero, because a tick otherwise fails; `RefusalLaws.ReorgAllowedIff` and `LimitLaws.ScanFailsIff` say exactly when.
- ScanLaws.RowExactlyWhenDecodable: asks that a transaction hash and log index name one log of a chain; `ScanLaws.RowsAfterScan` does without.
- Velocity.RollingLimit: takes the row's creation time and the policy's clock reading as one instant.
- PolicyRuns.LimitsAlwaysHold: takes the row's creation time and the policy's clock reading as one instant.
- AdriftLaws.ScansAgainIff: asks that custody covers the live deposits, because a refused compensation makes the tick fail; `RefusalLaws.ReorgAllowedIff` says exactly when. `AdriftLaws.NeverScansAgain` does without.
- ApprovalLaws.NoNonceGap: asks that no hint is ahead of the counter, because one ahead is taken as it is; `EffectLaws.SignTakesNonce` covers every hint.
- PolicyRuns.RequestOutcome: asks that the day's sum stays a 128-bit amount, because reading it back fails otherwise.
- Outbox.NothingLost: does not order deliveries or bound the time to delivery.
- PipelineWorker.PipelineRunner.ProcessApproved: the ids are given; `PipelineRunner.ChainOnce` claims them.
- PipelineWorker.PipelineRunner.RecoverSigning: the ids are given; `PipelineRunner.ChainOnce` claims them.
- PipelineWorker.PipelineRunner.ProcessInFlight: the ids are given; `PipelineRunner.ChainOnce` claims them.
- PipelineWorker.PipelineRunner.RunOnce: the node answers every query and every chain is configured; an RPC or configuration error would end the pass in the same way.
- Passes.Claimed: no other transaction holds a lock on the rows, so none is skipped.
- ScanLaws.AlwaysComplete: one directory throughout; `ScanLaws.RowIffTrackedWhenScanned` is for changing ones.
- Codec.AddressFromTopic: trims ASCII white space only.
- Codec.Uint256FromData: trims ASCII white space only.
- Contention.NeverOverdrawn: contenders are reservations of one user and asset; other postings on that account do not take part.

Not modelled:

- HTTP API, DTOs, middleware, OpenAPI, configuration, metrics and logging: they only add per-branch facts.
- Kafka and JSON-RPC transports, the typed EVM client, keccak and ECDSA: code outside the repository.
- Endpoint scoring and retry jitter: floating point that the breaker does not use.
- Event payloads and outbox rows written by the money transactions: their delivery is proved on its own.
- Tag-based finality beyond its never confirming by count.
- Deposit address pool, listings, statements, pagination and asset registry: easy members.
- Deadlock freedom of whole transactions, several workers or watchers, and statement-level interleavings
  other than those of `Contention`.
- Mined transactions that a chain reorganisation removes again.
