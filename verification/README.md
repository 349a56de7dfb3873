# Verified model of the LP vault book and its neighbours

This project models the accounting of a rolling liquidity-provider vault in Dafny and proves what its operations
promise. `dafny verify dfyconfig.toml` checks all of it.

**The vault book.** `VaultTables` holds the tables of one vault and its hash-chained event log as append-only
sequences; a row's identity is its number, an event's is its book version, and SHA-256 is a free constructor, hence
injective. `VaultSteps` says what each transaction does: recording a pending deposit, requesting a redemption,
admitting the head of the queue, and closing the cycle that is due (recognition, ticket and liability marks,
checkpoint, reserve marks, liquidity, burns, mints, closing state). Each is one atomic step over a strictly increasing
clock, and a failed step changes nothing. `VaultLedger.Ledger` performs the same operations in place, row by row and
loop by loop, and is proved to end in exactly the state that the step gives, or in the old one. `VaultService` strings
them together, so every theorem about runs of steps holds of every use of the class.

The proofs are layered. `VaultInvariant`, `VaultQueue`, `VaultLots` and `VaultLinks` say what single writes keep;
`VaultMarking`, `VaultReserving`, `VaultPaying`, `VaultActivating`, `VaultClosing` and `VaultClose` take a close apart
into stages; `VaultCycle` puts it together; `VaultRuns`, `VaultLifecycle`, `VaultReplayed`, `VaultLiquidity`,
`VaultFaults`, `VaultOutcomes`, `VaultContinuity`, `VaultEvidence`, `VaultPublished` and `VaultOwners` state the
results. In `VaultReplay` the log is folded on its own, without the tables, and `VaultAudit` holds the outcome against
every table. `VaultRequests`, `VaultTickets`, `VaultPayments`, `VaultMints` and `VaultStatement` tell each operation
again from the rows of the tables, with every branch and every figure written out and without the functions that
define the steps; `VaultLogs` and `VaultBinding` do so for the replay, `VaultProfits` adds up an owner's profits, and
`VaultRetries` repeats operations at any later time. `VaultPayout` and `VaultBatch` compare the payments of a close
with one redemption batch. `VaultQuiet`, `VaultAllPaid` and `VaultScripts` work out closes without tickets, from which
`VaultStaleRun` and `VaultDustRun` build two concrete runs, beside `VaultDust`.

**The custody ledger.** `CustodyTables` and `CustodyLedger` model the crediting of on-chain deposits, the booking of
house funding and the compensation of both after a chain reorganisation, over one double-entry ledger and one map of
claimed transfer keys. `CustodyRuns`, `CustodyAccounts` and `CustodyReorgs` state what holds after any interleaving,
`CustodyOutcomes` how each operation ends.

**Arithmetic that has to agree.** `OwnerClaims`, `ShareMint`, `ShareRedemption` with `RedemptionOrder` and
`RedemptionBatch`, `CostBasis` and `DepositSplit` are the exact integer kernels, and `ShareOutcomes` says how they
end. `OrderBook`, `OrderFill`, `OrderExecution` and `OrderQuotes` are the order-book quote over exact reals,
`Settlement` and `SettlementLaws` the payout after partial voids, `UsdcAmounts` and `UsdcLaws` the printer and the two
parsers of dollar amounts, `Solvency` the solvency floors, and `SolvencyView` and `SolvencyLaws` the public view that
the client recomputes from doubles, which `Doubles` and `MicroUnits` model bit by bit.

Inputs that come from elsewhere are parameters: reconciliation snapshots, house-book tickets, the two figures of the
admission capacity function, wallets, quote claims and the chain scan. The history rows, the seventy-two hour window
and the single open request per position come from database triggers and indexes of the migrations.

## What the proofs found

- A burn of the whole supply that leaves rounding dust ends the vault. The table of liabilities adds the dust to the
  fees that it expects, the program does not, so no close on a later snapshot goes through
  (`VaultDustRun.DustEndsTheVault`). When nothing else has changed the close already fails before that, because the
  dust is value without shares: `VaultOutcomes.DustBlocksAnEmptyVault` gives the exact condition for every reachable
  book, `VaultDustRun.DustBlocksTheNextClose` a run of eight operations in which it happens.
- A snapshot from before the last close reserves once more what that close has paid. `VaultOutcomes.CloseEndsBy` says
  exactly when the guards for a collateral shortfall and for reserves without supply refuse a close,
  `VaultStaleRun.StaleSnapshotRefused` gives the run of a worker that closes two missed days with one snapshot, and
  `VaultLiquidity.AnyCloseIsCovered` what such a close still guarantees when it goes through. On a snapshot no older
  than the last close neither guard can fire.
- The guards for a missing cost basis, a binding-mark mismatch, shares beyond the supply, a failed split and an
  invalid closing state cannot fire at all, nor can those of the accounting that is loaded after a close.
- An available public view is refused by the client when one of its figures does not survive being sent as a double:
  dividing by a million and multiplying back must not miss by more than a millionth. Below 2^33 micro-units, 8,589
  dollars, everything survives; above, `MicroUnits.ReadsBack` gives the exact condition, and 17,009.283511 dollars is
  an amount that fails it (`SolvencyView.TreasuryView`). From 2^52 micro-units on the client can also read, and accept,
  the neighbour of what was sent. Sums beyond the safe integers are refused (`SolvencyView.IndebtedView`).
- The second check on the depth of an order book is not implied by the first one, which compares with the rounded
  depth (`OrderExecution.RoundingHidesAShortfall`).

## Model

| member | source | states |
|---|---|---|
| OwnerClaims.AggregateClaims | server/lpVaultAccounting.ts:188-209 | entries are refused when there are none or one is not positive, and are otherwise grouped into one claim per owner with that owner's total |
| OwnerClaims.GroupingConserves | server/lpVaultAccounting.ts:188-209 | grouping loses nothing: the claims add up to the entries |
| OwnerClaims.ClaimsIgnoreOrder | server/lpVaultAccounting.ts:188-209 | permuted entries give the same claims |
| OwnerClaims.ClaimsIgnoreEntrySplit | server/lpVaultAccounting.ts:188-209 | one owner's entry split in two gives the same claims |
| OwnerClaims.IdentityFloorDust | server/lpVaultAccounting.ts:211-245 | the owners' remainders add up to dust times the denominator plus the total remainder, and the dust is at least zero and below the number of owners |
| OwnerClaims.IdentitySplitNeverGains | server/lpVaultAccounting.ts:211-245 | one owner split into two identities is granted no more, and neither is the whole batch |
| ShareMint.MintSharesAtCommonPreDepositPrice | server/lpVaultAccounting.ts:361-408 | the guarded computation ends in the specified mint or the specified error |
| ShareMint.MintIsFair | server/lpVaultAccounting.ts:361-408 | new shares are never worth more than the deposits at the old price, all deposits are attributed, the retained dust is below one unit an owner |
| ShareMint.MintOfOwner | server/lpVaultAccounting.ts:361-408 | each owner gets the floor of that owner's exact claim, and at least one unit |
| ShareMint.MintIgnoresOrder | server/lpVaultAccounting.ts:361-408 | permuted deposits mint the same |
| ShareMint.MintIgnoresEntrySplit | server/lpVaultAccounting.ts:361-408 | a deposit made in two parts mints the same |
| ShareOutcomes.MintEnds | server/lpVaultAccounting.ts:361-408 | every refusal of a mint, in order and with its cause told from the deposits, and otherwise every figure: price, whole quotient and rest, each owner once with the own quotient, what is minted, the new supply and the dust |
| ShareRedemption.AggregateRedemptions | server/lpVaultAccounting.ts:247-274 | requests are grouped by owner, or refused with the first fault |
| ShareRedemption.FinalizeRedemptionsAtEndPeriodPrice | server/lpVaultAccounting.ts:486-542 | the guarded computation ends in the specified batch or the specified error |
| ShareRedemption.RedemptionIsFair | server/lpVaultAccounting.ts:486-542 | a batch burns what was asked, pays no more than the burned shares are worth, leaves the rest at no lower price, and splits the value exactly into payables, dust and what stays |
| ShareRedemption.RedemptionsNeverExceedSupply | server/lpVaultAccounting.ts:486-542 | the guard on the summed shares cannot fire behind the per-owner guard |
| ShareRedemption.SingleRedemption | server/lpVaultAccounting.ts:486-542 | a lone request within its holding and the supply is paid the floor of its own worth |
| RedemptionOrder.RedemptionIgnoresOrder | server/lpVaultAccounting.ts:486-542 | permuted requests are accepted alike and get the same payables, dust and remainders |
| RedemptionOrder.RedemptionIgnoresEntrySplit | server/lpVaultAccounting.ts:247-274 | one owner's request made in two parts is accepted and paid as one request |
| RedemptionBatch.BatchPaysEach | server/lpVaultAccounting.ts:486-542 | when every owner asks once within the supply the batch goes through, pays each owner the floor of that owner's own request and nobody else, and withholds dust only when the whole supply is burned |
| ShareRedemption.PerRequestRefinesBatch | server/db/lpVaultAccountingRepository.ts:910-930 | requests that are finalized one by one, each in a batch of its own at one checkpoint, are paid in total what one batch pays and leave its protocol dust when each owner has one request, and are never paid more otherwise |
| ShareOutcomes.RedeemEnds | server/lpVaultAccounting.ts:486-542 | every refusal of a redemption batch, the first request that cannot be grouped deciding, and otherwise every figure: burned shares, payables, dust and to whom it goes, what stays |
| CostBasis.SplitBurnsAgree | server/lpVaultAccounting.ts:422-452 | however a burn is split, the lot has given up the difference of two cumulative floors |
| CostBasis.SplitBurnIsOneBurn | server/lpVaultAccounting.ts:422-452 | splitting a burn equals making it at once, and a lot burned to nothing has given up its whole basis |
| ShareOutcomes.CostBasisEnds | server/lpVaultAccounting.ts:422-452 | when a burn of a lot is refused, and otherwise the basis given up before and after as rounded parts of the original basis, and what remains |
| DepositSplit.AllocateOwnerMintAcrossDeposits | server/db/lpVaultAccountingRepository.ts:268-283 | the loops over sorted remainders compute the specified split, or refuse the input |
| DepositSplit.SplitConserves | server/db/lpVaultAccountingRepository.ts:268-283 | the deposits' shares add up to the owner's mint, so the conservation error cannot occur |
| DepositSplit.SplitOfDeposit | server/db/lpVaultAccountingRepository.ts:268-283 | each deposit gets its floor or one more, and one more only on a nonzero remainder |
| DepositSplit.SplitInRemainderOrder | server/db/lpVaultAccountingRepository.ts:268-283 | no deposit gets an extra unit before one that is ahead of it in remainder order |
| VaultLots.BurnConsumesLots | server/db/lpVaultAccountingRepository.ts:931-969 | a burn within the position always finds its lots, burns exactly what was asked in first-in first-out order, touches no other position, and keeps every lot on its cumulative floor |
| VaultClose.ClosingArithmetic | server/db/lpVaultAccountingRepository.ts:1286-1317 | for any burns and mints at one checkpoint the closing value is not negative, vanishes with the last share, and gives each share at least the checkpoint price |
| VaultClose.ClosingIsSound | server/db/lpVaultAccountingRepository.ts:1286-1317 | the closing state that is computed from the tables satisfies that arithmetic, so its guard cannot fire |
| VaultPaying.RipeIsPaid | server/db/lpVaultAccountingRepository.ts:867-1022 | a matured and marked request passes every guard of finalization: its mark binds what it is worth and its lots are there |
| VaultPaying.PayAll | server/db/lpVaultAccountingRepository.ts:867-1022 | finalizing the matured requests succeeds, pays each of them once and touches no other |
| VaultSharing.SharesConserve | server/db/lpVaultAccountingRepository.ts:720-808 | over all eligible deposits together exactly what their owners were minted is handed out |
| VaultSharing.AlwaysSplits | server/db/lpVaultAccountingRepository.ts:745-790 | the split of an owner's positive mint over that owner's deposits cannot fail |
| VaultRuns.RunConsistent | server/db/lpVaultAccountingRepository.ts:348-370 | every run of the operations, in any order and with any inputs, ends in a consistent book |
| VaultRuns.ClosesNeverDilute | server/db/lpVaultAccountingRepository.ts:1286-1317 | after every run, each close kept at least the checkpoint price per share, with a value that is not negative, none without shares, and conserved to the unit |
| VaultRuns.CutoffsAreConsecutive | server/db/lpVaultAccountingRepository.ts:2057-2130 | cycles close on consecutive days, none missing, none twice |
| VaultRuns.VersionsAreGapless | server/db/lpVaultAccountingRepository.ts:372-412 | book versions are gapless and each event carries the previous event's hash |
| VaultRuns.LotsFollowBurns | server/db/lpVaultAccountingRepository.ts:931-969 | after every run each lot's allocated basis is one floor of what was burned, the whole basis once it is used up, and a position's lots hold its balance |
| VaultRuns.QueueIsFair | server/db/lpVaultAccountingRepository.ts:516-591 | nothing overtakes a request that is still queued, and nobody has two requests open |
| VaultRuns.PaidExactlyOnce | server/db/lpVaultAccountingRepository.ts:867-1022 | a request has exactly one payable and one burn once it is claimable, and none before |
| VaultLifecycle.StatusesOnlyMoveForward | server/db/lpVaultAccountingRepository.ts:475-591 | over any run a request's status only moves forward |
| VaultLifecycle.ClosePaysMatured | server/db/lpVaultAccountingRepository.ts:867-1022 | a close pays exactly the requests whose window was over and which its checkpoint marked, and changes no other |
| VaultBatch.CloseIsBatch | server/db/lpVaultAccountingRepository.ts:910-930 | every close from a consistent book pays its matured requests as one batch at its checkpoint would: one payable each, in queue order, at the batch's allocation for its owner, with the batch's total as the recorded matured amount and its protocol dust as the recorded dust |
| VaultLiquidity.FreshCloseIsCovered | server/db/lpVaultAccountingRepository.ts:1362-1380 | after a close on a fresh snapshot free and collateral add up to the gross assets, free and reserve are not negative, and the closing value is free plus reserve |
| VaultLiquidity.AnyCloseIsCovered | server/db/lpVaultAccountingRepository.ts:1362-1380 | whatever the age of its snapshot, a close that goes through publishes free and collateral figures that add up to the gross assets, a value that is free plus reserve, a reserve that is not negative, and free liquidity that is not negative unless dust was withheld |
| VaultCollateral.FreshCollateral | server/db/lpVaultAccountingRepository.ts:1270-1276 | on a fresh snapshot the reserves fit into the value and the collateral guard cannot fire |
| VaultOutcomes.CloseEndsBy | server/db/lpVaultAccountingRepository.ts:1077-1336 | decides every due close by figures known beforehand, in the order of the guards of the program and of the tables it writes: not due, an inception with a negative seed or on an old observation, a negative value, value without shares, dust that closes had withheld by the snapshot, a request reserved at the snapshot without supply, reserves at the snapshot worth more than the value, deposits that cannot be minted; in all other cases the close goes through |
| VaultStatement.CloseStates | server/db/lpVaultAccountingRepository.ts:1077-1336 | what a close that goes through records, written out in the fields of the snapshot, the tickets and the tables before it: inception and seed, fees, recognized results, ticket marks, each senior figure of the liability, value, free liquidity, reserve marks, payments, burns and lots, mints, and the closing state |
| VaultStatement.DueMeans | server/db/lpVaultAccountingRepository.ts:2057-2130 | the day that a snapshot makes due, and the snapshot that the close then works on, both by trust, book version and times |
| VaultTickets.FeesPicked | server/db/lpVaultAccountingRepository.ts:1024-1075 | a close accrues the fees of exactly the tickets with a fee that were created since the inception and up to the snapshot and were not accrued before, in their order |
| VaultTickets.SettlementsPicked | server/db/lpVaultAccountingRepository.ts:1024-1075 | it recognizes exactly the tickets settled after the inception and up to the snapshot that were not recognized before, in their order |
| VaultTickets.OpenPicked | server/db/lpVaultAccountingRepository.ts:297-316 | and it marks exactly the tickets that are open at the snapshot, in their order |
| VaultPayments.PaymentsWritten | server/db/lpVaultAccountingRepository.ts:867-1022 | the rows, events and lots that all payments of a close write: one payable, burn and consumption in first-in first-out order for each matured request |
| VaultMints.ActivationsWritten | server/db/lpVaultAccountingRepository.ts:720-808 | the activations of a close: each eligible deposit once, the quotient of its owner or one more, its lot, and its share event |
| VaultStaleRun.StaleSnapshotRefused | server/db/lpVaultAccountingRepository.ts:2132-2223 | a run in which one snapshot closes two missed days: the request that the first close paid is reserved again by the second, which is refused for want of supply when it was everything, for want of collateral exactly when it was more than half, and goes through otherwise |
| VaultContinuity.NextCheckpoint | server/db/lpVaultAccountingRepository.ts:1215-1237 | the next valuation starts from the last closing supply and from the last closing value plus its dust plus the change outside |
| VaultContinuity.ClosesContinue | server/db/lpVaultAccountingRepository.ts:1215-1237 | the same of every close that goes through, with dust only on a snapshot from before the last close |
| VaultOutcomes.DustBlocksAnEmptyVault | server/db/lpVaultAccountingRepository.ts:1215-1237 | after a close that left no shares, a due close with nothing changed outside is refused for value without shares exactly when that close withheld dust |
| VaultDust.DustRefusesCloses | server/db/migrations/0049_lp_vault_accounting_hardening.sql:177-205 | after a close that withheld dust, no close on a snapshot taken since goes through, because the program leaves that dust out of the fees that the table of liabilities expects |
| VaultDustRun.DustEndsTheVault | server/db/migrations/0049_lp_vault_accounting_hardening.sql:177-205 | over every run: once a close has withheld dust, whatever operations follow, no cycle is ever closed again on snapshots taken after that close |
| VaultDustRun.DustBlocksTheNextClose | server/db/lpVaultAccountingRepository.ts:1308-1317 | a run in which two equal holders redeem everything: an odd value leaves one unit of dust and the next close is refused for it, an even value leaves none and the next close goes through |
| VaultContinuity.RecoveryMeetsTheCutoff | server/db/lpVaultAccountingRepository.ts:1140-1174 | while the financial book version only grows with its state, a recovered close works on the state that held at the cutoff and ever since |
| VaultReplay.ReplayLog | server/db/lpVaultAccountingRepository.ts:1430-1508 | the loop over the log, with its running figures and maps and its fallbacks for older payloads, computes the specified fold or its fault |
| VaultReplayed.EveryRunReplays | server/db/lpVaultAccountingRepository.ts:1421-1877 | after every run with a closed cycle the independent replay accepts the log and reports the supply, totals, value, assets and counts of the tables |
| VaultReplayed.TailKeepsTheClose | server/db/lpVaultAccountingRepository.ts:1509-1516 | deposits, requests and admissions after a close leave what the replay reports of it unchanged |
| VaultReplayed.LastHashBindsTheLog | server/db/lpVaultAccountingRepository.ts:1454-1459 | two accepted logs of one vault with the same last hash are the same events |
| VaultReplayed.ReplayBindsTheLog | server/db/lpVaultAccountingRepository.ts:1454-1459 | the same of two whole books that the replay accepts |
| VaultLogs.ReplayMeans | server/db/lpVaultAccountingRepository.ts:1430-1508 | the replay accepts exactly the logs that are chained by version and hash, with checkpoints that agree with the last liability and the shares so far and closes that continue their checkpoint, and reports the totals of the log |
| VaultBinding.LastHashBindsTheTables | server/db/lpVaultAccountingRepository.ts:1454-1459 | two accepted books whose logs end in the same hash have the same rows in every table that the log records |
| VaultBinding.AcceptedReports | server/db/lpVaultAccountingRepository.ts:1421-1877 | whatever book the replay accepts, reachable or not, has closing states that continue their checkpoints and is reported with its own counts, shares and figures |
| VaultEvidence.RunEvidenced | server/db/lpVaultAccountingRepository.ts:1186-1214 | after every run each cycle's ticket marks add up to its recorded gross liability, and later deposits are still pending |
| VaultPublished.PublishedIsAccepted | server/db/lpVaultAccountingRepository.ts:1338-1419 | after every run with a closed cycle, what is loaded of the latest close with its observation time passes the server's plausibility check and the client's; in particular it was observed on or after its day and before it was processed |
| VaultPublished.EveryViewPasses | server/db/lpVaultRepository.ts:218-471 | for every run, reconciliation and gate: an available view carries accounting that the client accepts, and a snapshot that it accepts exactly when the figures of the reconciliation recompute as they are read: always when every figure survives being sent as a double, never when some figure cannot be read, which decides it below 2^52 micro-units, and always below 2^33 |
| VaultOwners.EveryOwnerIsShown | server/db/lpVaultAccountingRepository.ts:1879-1980 | after every run with a closed cycle no guard of an owner's view can fire, withdrawals included, and the owner is shown their balance, its floor value, the cost basis left, the difference of the two and the profit of their redemptions |
| VaultOwners.EveryWithdrawalIsShown | server/db/lpVaultAccountingRepository.ts:1958-1972 | after every run with a closed cycle each redemption is shown with what was paid for it or, before that, with the rounded worth of its shares at the last close |
| VaultOwners.OwnersShareTheValue | server/lpVaultAccounting.ts:410-420 | the values in the views of all owners together stay within the closing value and miss it by less than one unit each |
| VaultProfits.BasisIsConserved | server/db/lpVaultAccountingRepository.ts:931-969 | after every run, what an owner put in is the basis still in lots and the basis used up by payments |
| VaultProfits.ProfitsAddUp | server/db/lpVaultAccountingRepository.ts:1879-1980 | after every run the profits in an owner's view are the worth of the position and what was paid, less all that was put in |
| VaultLedger.Ledger.Append | server/db/lpVaultAccountingRepository.ts:372-412 | one event is appended at the next version, sealed and chained, and nothing else changes |
| VaultLedger.Ledger.RecordPendingDeposit | server/db/lpVaultAccountingRepository.ts:446-473 | in place, with the guards of the tables: the specified book, or the specified fault and no change |
| VaultLedger.Ledger.RequestLpVaultRedemption | server/db/lpVaultAccountingRepository.ts:475-514 | in place: the specified book, or the specified fault and no change |
| VaultLedger.Ledger.AdmitNextLpVaultRedemption | server/db/lpVaultAccountingRepository.ts:516-591 | in place, each reconciliation admitting one request: the specified book, or the specified fault and no change |
| VaultRequests.DepositEnds | server/db/lpVaultAccountingRepository.ts:446-473 | every end of recording a deposit, on the rows: a key used with other contents and a used source are refused, the same contents change nothing, and what is new is one pending row for the next day, its key and its event |
| VaultRequests.RequestEnds | server/db/lpVaultAccountingRepository.ts:475-514 | every end of a redemption request, on the rows: the key, the position, the shares not held back and the other open request decide, and what is new is one queued row with its event and history |
| VaultRequests.AdmissionEnds | server/db/lpVaultAccountingRepository.ts:516-591 | every end of an admission, on the rows: a queued head without liquidity starts to wait with one row of evidence, a waiting one only sees the clock move, and enough liquidity on an unused reconciliation makes it redeeming with one reserve of the same figures and the last close |
| VaultRetries.DepositsAreIdempotent | server/db/lpVaultAccountingRepository.ts:446-473 | once a deposit was recorded, after whatever further operations the same deposit under its key changes nothing and another one under that key is refused |
| VaultRetries.RequestsAreIdempotent | server/db/lpVaultAccountingRepository.ts:475-514 | once a redemption was requested, after whatever further operations, payment included, the same request under its key changes nothing and one for other shares is refused |
| VaultRetries.SourcesFundOnce | server/db/lpVaultAccountingRepository.ts:446-473 | after every run no source has paid for two deposits, whatever keys were used |
| VaultLedger.Ledger.PlanLots | server/db/lpVaultAccountingRepository.ts:931-969 | the loop over a position's lots computes the specified plan |
| VaultLedger.Ledger.FinalizeEligibleRedemptions | server/db/lpVaultAccountingRepository.ts:867-1022 | the loop over matured requests ends in the specified book or fault |
| VaultLedger.Ledger.ActivateEligibleDeposits | server/db/lpVaultAccountingRepository.ts:720-808 | the split and the loop over eligible deposits end in the specified book or fault |
| VaultLedger.Ledger.CloseAccountingCycle | server/db/lpVaultAccountingRepository.ts:1077-1336 | a closed cycle is loaded again if it is the latest, a half-closed one is refused, and the stages of an open one end in the specified book or fault |
| VaultLedger.Ledger.CloseDueForReconciliation | server/db/lpVaultAccountingRepository.ts:2028-2130 | the close that is due happens as a whole or leaves the book as it was |
| VaultService.Serve | server/db/lpVaultAccountingRepository.ts:348-370 | any history of operations on a new ledger ends exactly where the run of steps ends, consistently |
| CustodyLedger.Ledger.CreditConfirmedDeposit | server/db/depositRepository.ts:132-466 | in place: the specified custody state, or the specified fault and no change |
| CustodyLedger.Ledger.RecordVerifiedHouseFunding | server/db/houseFundingRepository.ts:86-286 | in place: the specified custody state, or the specified fault and no change |
| CustodyLedger.Ledger.MarkReorgedDeposits | server/db/depositRepository.ts:704-1075 | the candidate loops end in the specified custody state with the specified counts |
| CustodyOutcomes.CreditEnds | server/db/depositRepository.ts:132-466 | every end of crediting a transfer, on the rows, with the account that is paid: available without a quote, checkout with one |
| CustodyOutcomes.FundEnds | server/db/houseFundingRepository.ts:86-286 | every end of booking house funding, on the rows: the guards in order, and what is booked |
| CustodyOutcomes.ReorgEnds | server/db/depositRepository.ts:704-1075 | every row after a reorganisation: the lost ones marked, each loss of money compensated and reported on its own, the gate blocked, and nothing else changed |
| CustodyOutcomes.ReorgReports | server/db/depositRepository.ts:704-1075 | the reported counts are the numbers of lost deposits, lost credits and lost funding |
| CustodyRuns.RunSound | server/db/depositRepository.ts:132-466 | every interleaving of credits, house funding and reorganisations keeps the ledger sound |
| CustodyRuns.MarkReorgedSound | server/db/depositRepository.ts:704-1075 | a reorganisation of a sound ledger always succeeds: no ledger link is missing |
| CustodyRuns.TransactionsBalance | server/db/depositRepository.ts:132-466 | every ledger transaction sums to zero |
| CustodyRuns.DepositsNetOut | server/db/depositRepository.ts:704-1075 | a deposit's net effect is its amount while it is credited and zero otherwise |
| CustodyRuns.AccountsHoldWhatStands | server/db/houseFundingRepository.ts:86-286 | user, house and external accounts hold exactly the deposits still credited and the funding still on the chain |
| CustodyAccounts.EachAccountOnItsOwn | server/db/depositRepository.ts:132-466 | after every run a user's checkout account holds exactly the credited deposits that a quote had claimed, and the available account exactly the others |
| CustodyRuns.NeverBookedTwice | server/db/houseFundingRepository.ts:86-286 | no transfer is both credited to a user and booked as house funding |
| CustodyReorgs.ReorgMarksOrphans | server/db/depositRepository.ts:704-1075 | exactly the orphaned rows are marked, each affected one compensated once, and the gate is blocked when money was affected |
| CustodyReorgs.GateStaysBlocked | server/db/depositRepository.ts:704-1075 | no operation reopens a blocked gate |
| CustodyReorgs.CompensatedForGood | server/db/depositRepository.ts:704-1075 | a compensated deposit is never credited or compensated again |
| CustodyReorgs.ReobservingIsIdempotent | server/db/depositRepository.ts:132-466 | observing a credited transfer again moves no money, claims nothing and raises nothing |
| CustodyReorgs.RefundingIsIdempotent | server/db/houseFundingRepository.ts:86-286 | recording the same funding again changes nothing |
| ScanCursors.SavesMoveForward | server/db/depositRepository.ts:490-551 | a saved cursor never moves back and keeps its observations within it |
| ScanCursors.SaveMeans | server/db/depositRepository.ts:490-551 | when a save is refused, and the cursor that it stores otherwise, block by block |
| ScanCursors.CursorStore.SaveScanCursor | server/db/depositRepository.ts:490-551 | saving updates one cursor as specified or changes nothing, and no cursor moves back |
| OrderBook.AsksAreSorted | src/marketData.ts:222-233 | the asks are valid and ascending in price |
| OrderBook.AsksCount | src/marketData.ts:222-233 | the asks hold exactly the usable levels, each as often as the book does |
| OrderFill.GreedyIsFeasible | src/marketData.ts:267-278 | the greedy fill takes from no level more than it offers and buys the quoted shares |
| OrderFill.GreedySpends | src/marketData.ts:267-278 | the greedy fill spends the whole request within depth |
| OrderFill.GreedyIsBest | src/marketData.ts:267-278 | no feasible allocation of the same notional buys more |
| OrderExecution.AskSideExecution | src/marketData.ts:235-302 | the loops compute the specified quote, refusal or display price, with the rounding to millionths and both tolerances |
| OrderExecution.RefusedOnlyForDepth | src/marketData.ts:255-290 | a request is refused exactly when it exceeds the rounded depth or the depth itself by more than the tolerance; whatever is within the depth is quoted, at the rounded average price of what is spent |
| OrderExecution.RoundingHidesAShortfall | src/marketData.ts:255-290 | some request is refused by the check after the fill alone exactly when the depth was rounded up, with a book and a request for which it is |
| OrderExecution.QuoteIsBest | src/marketData.ts:267-302 | a quoted request is spent in full, or all the book holds when that is within the tolerance; nothing that costs at most the request buys more; the quote is the rounded average price, which lies between the best ask and the last level touched |
| OrderExecution.PriceNeverFalls | src/marketData.ts:267-302 | a larger request is never quoted at a lower price |
| OrderExecution.OrderDoesNotMatter | src/marketData.ts:222-302 | books with the same levels in another order get the same quote |
| OrderQuotes.QuoteMeans | src/marketData.ts:235-302 | for any book and any or no request: there is a quote exactly when some level sells, with its lowest price and the rounded worth of all levels; the executable price is that lowest price without a positive request, else the rounded average of the cheapest purchase, which is missing exactly when the depth is |
| Settlement.ValidateInput | server/settlementPayout.ts:42-61 | the first fault is reported, and none exactly for valid inputs |
| Settlement.CalculateSettlementPayout | server/settlementPayout.ts:63-132 | the loops compute the specified verdict, lists of ids and prices exactly for valid inputs |
| SettlementLaws.OrderDoesNotMatter | server/settlementPayout.ts:63-132 | permuted legs are accepted alike and get the same verdict |
| SettlementLaws.EveryLegIsListed | server/settlementPayout.ts:66-82 | every leg is listed under its own status and the lists are no longer than the legs |
| SettlementLaws.ListsInOrder | server/settlementPayout.ts:66-82 | the list of a status holds the ids of exactly its legs, in their order |
| SettlementLaws.FinalVerdictsStand | server/settlementPayout.ts:98-131 | a final verdict survives every resolution of pending and disputed legs |
| SettlementLaws.PayoutBounds | server/settlementPayout.ts:98-131 | lost pays nothing; anything else final pays from the stake up to the larger of stake and offer |
| SettlementLaws.VerdictMeans | server/settlementPayout.ts:98-131 | every verdict in the order of its causes; with a won leg and none open or lost, the payout is the larger of the stake and the offer times the product of the voided prices, rounded down once, for any number of voids |
| SettlementLaws.WonOutright | server/settlementPayout.ts:98-131 | a combination whose legs are all won pays the larger of stake and offer |
| SettlementLaws.VoidingNeverRaises | server/settlementPayout.ts:106-131 | turning a won leg into a voided one keeps the verdict final and never raises the payout |
| UsdcAmounts.MatchMeans | server/financialAmounts.ts:8-9 | the pattern accepts a string exactly when it is joined from well-formed parts, and finds those parts |
| UsdcAmounts.RoundTrip | src/App.tsx:579-599 | both parsers read a printed amount back as that amount, the server refusing only zero |
| UsdcAmounts.ParsersAgree | server/financialAmounts.ts:1-15 | the server reads exactly what the client reads after trimming, to the same amount, and refuses zero |
| UsdcAmounts.SameAmount | src/App.tsx:579-583 | a string that both accept is the same amount for both |
| UsdcAmounts.PrintingIsInjective | src/App.tsx:595-599 | different amounts are printed differently |
| UsdcLaws.ReadMeans | src/App.tsx:579-583 | the client reads a text as an amount exactly when it shows that amount: a whole number without leading zeros and up to six places |
| UsdcLaws.PrintMeans | src/App.tsx:595-599 | the client prints exactly the shortest text that shows the amount |
| UsdcLaws.TrimMeans | server/financialAmounts.ts:11 | trimming cuts exactly the white space at both ends, by its code points |
| Solvency.CeilRatioMeans | server/vaultSolvency.ts:30-33 | the ratio is refused exactly for invalid arguments and is otherwise the least whole number that covers it |
| Solvency.StatusMeans | server/vaultSolvency.ts:35-83 | status, floors and capital figures of an evaluation are consistent with each other |
| Solvency.EvaluationMeans | server/vaultSolvency.ts:35-83 | every end of an evaluation: the first negative figure in the order of the checks, and otherwise both floors, the coverage buffer, the charge, the capital figures and the status, each written out |
| Solvency.ChargesNearAggregate | server/db/reconciliationRepository.ts:337-350 | for quotes that offer at least their stake, the charges rounded up per basket are at least the aggregate charge and above it by less than one unit a basket |
| Solvency.OffersCoverRequirements | server/db/migrations/0047_ticket_economic_terms_hardening.sql:8-11 | under the constraint on quotes each requirement covers its stake, so no charge is cut off at zero |
| SolvencyView.RatioIsNearest | server/db/lpVaultRepository.ts:164-170 | the coverage is the nearest millionth and symmetric in sign |
| MicroUnits.ReadsBack | src/lpVault.ts:142-146 | what an amount is read as once it was divided by a million and multiplied back as doubles, for every amount: itself exactly when it is a safe integer that is below 2^33, or lies in the lower part of its octave, or has a remainder near zero in the scale of the quotient; otherwise nothing below 2^52, and from there on its neighbour as long as that is safe |
| MicroUnits.OrdinaryAmountsRefused | src/lpVault.ts:142-146 | three amounts between seventeen and sixty-seven thousand dollars that do not survive |
| Doubles.NearestMono | server/db/lpVaultRepository.ts:160-162 | rounding to the nearest double keeps the order of amounts |
| SolvencyView.AvailableViewPasses | server/db/lpVaultRepository.ts:218-471 | an available view passes the client's recomputation exactly when the figures of its reconciliation recompute as they are read: always when every figure survives being sent as a double, never when some figure cannot be read, which decides it below 2^52 micro-units, and always below 2^33; its accounting passes exactly when it is in order |
| SolvencyView.TreasuryView | src/lpVault.ts:142-146 | a treasury without obligations: its view is served as available, and accepted exactly when the amount is read at all, which below 2^52 micro-units means that it survives being sent, and 17,009.283511 dollars do not |
| SolvencyView.SnapshotAccepted | src/lpVault.ts:226-326 | the client accepts a derived snapshot exactly when its figures recompute as they are read; it does when every figure survives being sent, and does not when some figure cannot be read |
| SolvencyView.AccountingRecomputed | src/lpVault.ts:168-224 | the client accepts plausible accounting exactly when its times and its fallback are in order |
| SolvencyView.OwnChargesAccepted | server/db/lpVaultRepository.ts:354-367 | the band check accepts the summed charges of all quotes that offer at least their stake |
| SolvencyView.IndebtedView | src/lpVault.ts:142-146 | a family of available views that the client refuses because two obligations do not add up to a safe integer |
| SolvencyLaws.ViewEnds | server/db/lpVaultRepository.ts:218-471 | why a view is unavailable, in the order of the guards, and what an available one shows, figure by figure |
| SolvencyLaws.AcceptanceMeans | src/lpVault.ts:226-326 | the client accepts a snapshot exactly when its times, signs and floors are in order and every derived figure follows from what is read of treasury, obligations and baskets |
| SolvencyLaws.AcceptedSnapshotsAgree | src/lpVault.ts:226-326 | two accepted snapshots with the same treasury, obligations and baskets have the same capital, floors, charge, status and coverage |
| SolvencyLaws.AccountingMeans | src/lpVault.ts:168-224 | the published accounting that the client accepts: a whole day, times in order, a price that follows from value and shares |

## Left out

- SQL text, connections, advisory locks, isolation levels: each transaction is one atomic step; its time is strictly later than the one before.
- Statuses that exist only inside one transaction (a cycle being marked or checkpointed, a redemption finalized but not yet claimable, an admitted request before it starts redeeming) do not outlive a step.
- Releases of protocol fees and vault expenses: they belong to operations outside the modelled files; approved expenses are an input of the close.
- The admission capacity function: its two figures are arbitrary inputs, kept behind the guards of the program.
- Cancellation of a redemption: no modelled operation cancels; the status is kept in the types.
- The sort orders of the ticket queries: fees, settlements and ticket marks are handled in the order of one given list of tickets.
- Equal timestamps in the redemption history and among the lots of one close: rows are ordered by insertion.
- Of the table constraints and triggers of the migrations, those that compare a row with what the program has just computed from the same tables, and the 64-bit columns. Kept are the history rows, the redemption window, the single open request, the dust among the expected fees, the age of the inception's source, the deposits' keys, sources and inception, and one admission a reconciliation.
- UUIDs, JSON text, hex formats and dates: abstract ids, an injective hash, whole milliseconds and whole days.
- RPC clients, routes, configuration and user interface.
- The quote payment that may claim a deposit: an opaque alternative that posts a balanced pair to the user's checkout account.
- Reopening of the control gate by operators.
- Negative amounts in the amount printer: account balances that it prints are not negative.
- Binary floating point in the order book: exact reals, with the rounding of prices and their tolerances kept. The smallest and largest exponents of doubles, which no figure of the public view comes near.
- calculateEconomicNav and markUnresolvedTicketLiability as separate functions: the repository does not call them; the same value is modelled where a cycle is valued.
- Unavailable views carry only their reason.
- Quotes that were stored before their constraint and never validated: each usable quote offers at least its stake.
- VaultOwners.EveryOwnerIsShown: the ids and dates of pending deposits and withdrawals in the owner's view are left out; they are copied from the rows.
