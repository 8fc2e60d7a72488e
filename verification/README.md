# GlobMint money core, in Dafny

A model of the GlobMint backend's money core and proofs of what it keeps: the
append-only ledger with its cached balances, the time-locked withdrawal
protocol, the crash-resumable deposit indexer, the signature-gated relay to the
per-user vault clones, and the exact arithmetic and text under them.

`dafny verify dfyconfig.toml` checks everything.

| module | what it holds |
|---|---|
| `Int64`, `Arithmetic` | Go's 64-bit wrap-around; products and floors |
| `Quote`, `Fees`, `Decimal` | rounding, conversion quotes, the fee schedule, decimal text |
| `Ledger` | the tables as values, what each request posts, the projection law |
| `Storage` | the repositories and services as a mutable object, refining `Ledger` |
| `Conservation` | schema, totals and non-negativity over serial runs |
| `Acceptance` | when each request commits, replays or is refused |
| `Concurrency` | requests whose lookups, transactions and commits interleave; one transaction per key |
| `Replay` | what deleting replays changes, in serial and in interleaved runs |
| `Locks`, `LostUpdates` | interleaved credits with and without the per-user lock |
| `Solvency` | USDC custody against NGN liabilities |
| `Eip712`, `Calldata` | the signed digests and the relayed payloads |
| `TypedData` | EIP-712 for any flat struct, which the digests agree with |
| `Withdrawals`, `Elevations` | the withdrawal protocol over any number of agents; its table |
| `DeadEnds`, `LostReplies` | rows that end stuck or expired; debits whose outcome is not heard of |
| `Origins` | where every row, job and transfer of a run comes from |
| `WithdrawalSteps` | when a request, a cancel or an attempt gets through |
| `LogScan` | the chunked log scan |
| `Indexer`, `IndexerInvariant` | the deposit indexer as a protocol, and what every step keeps |
| `IndexerSteps` | when a step credits, flags or gives up a transfer, and at what price |
| `ExactlyOnce`, `Cursors` | what follows over whole runs for credits and for cursors |
| `Scans`, `SharedCredits`, `DroppedFlags` | what a scan takes up; runs written out: shared credits and dropped flags |
| `VaultIndexer` | the service object that performs the protocol |
| `TokenBucket` | the rate limiter |

Protocols are step functions over a state; a run is any sequence of actions and
an action that is not enabled does nothing, so a statement over all sequences
covers every interleaving. Database, chain and lookup failures are flags on the
actions. Clock readings, the chain, hashing and signature recovery are
parameters. Instead of assuming that no two inputs hash alike, the digest
theorems exhibit the two inputs.

Where the code does not meet what it promises, the model follows the code:

- `Convert` reads both sums before it writes, so with one currency on both
  sides the stored balance is wrong (`Ledger.ConvertAgreesIff`,
  `Conservation.SelfConversionDisagrees`). It needs a rate row from a currency
  to itself, which no code writes: the seed migration and the market feed only
  write cross pairs. It also creates accounts before it looks the key up
  (`Replay.DeletableIff`, `Replay.SkippableIff`).
- A transfer with a negative fee, or whose amount plus fee wraps, can overdraw
  (`Conservation.TransferNeverOverdrawsIff`).
- The guard of `move` against overflow adds the amount of a debit too, so a
  debit of a covered amount is refused when balance plus amount does not fit
  (`Acceptance.DebitCommitsIff`).
- The comment in `scan` says the cursor moves over the full window when there
  was no event; it stays (`Cursors.WindowPassedIff`).
- Two transfers of one transaction that are routed alike share a credit
  (`ExactlyOnce.OwnCreditsIff`, `SharedCredits.OneOfTwoCredited`).
- A restart that cannot read the stored cursor, with no start block configured,
  takes a new baseline (`Cursors.RestartKeepsBaseIff`); with one configured
  behind the stored cursor, it leaves the stored cursor ahead
  (`Cursors.StoredBehindCursorIff`).
- Without a fallback account, a flag for the operator is dropped when the
  sender's event row was written before a crash and the sender is unlinked
  since (`DroppedFlags.NothingLostIff`, `DroppedFlags.RelinkingDropsAFlag`).
- `ReleaseClaim` meets the unique index on pending content, so a row whose
  content was requested again stays broadcasting for ever
  (`DeadEnds.FailedReturnsIff`, `DeadEnds.ReleaseMeetsTwin`,
  `DeadEnds.StuckForEver`).
- A failed read of the clone's nonce expires a signed elevation that could
  still be relayed (`DeadEnds.LiveExpiresIff`, `DeadEnds.FailedReadExpires`).
- A debit whose outcome is lost is repeated when the request had no key
  (`LostReplies.NeverTwiceIff`).
- Credits of one account that interleave without the per-user lock lose what
  the last committer did not see (`LostUpdates.StoredBalanceRightIff`).
- Words hold absolute values, so negative deadlines, amounts and chain ids
  share digests and payloads with positive ones (`Eip712.DigestForgetsSign`).
- `MulRatio` moves the quotient the wrong way for a negative denominator
  (`Quote.NegativeDenominatorNearestIff`).
- `FromMajorUnits` does not rescale more than two fraction digits and drops the
  fraction of a text with two dots (`Decimal.ExactIff`,
  `Decimal.SecondDotDropsFraction`).

## Model

| member | source | states |
|---|---|---|
| `Storage.Store.EnsureAccount` | `backend/internal/storage/postgres/account_repo.go:38-49` | the account exists afterwards, no other row changes |
| `Storage.Store.CreateTransaction` | `backend/internal/storage/postgres/ledger_repo.go:36-52` | a non-empty key already committed is a conflict and writes nothing; otherwise the row is appended |
| `Storage.Store.InsertEntry` | `backend/internal/storage/postgres/ledger_repo.go:85-94` | the entry is appended |
| `Storage.Store.SetBalance` | `backend/internal/storage/postgres/account_repo.go:94-101` | only that account's projection is overwritten |
| `Storage.Store.SumBalanceByAccount` | `backend/internal/storage/postgres/ledger_repo.go:98-104` | credits minus debits of the account, an error when no int64 holds it |
| `Storage.Store.Credit` | `backend/internal/services/ledger.go:61-66` | new tables and outcome of a credit, against the specification `Ledger.Apply` |
| `Storage.Store.Debit` | `backend/internal/services/ledger.go:70-76` | the same for a debit of amount plus fee |
| `Storage.Store.Move` | `backend/internal/services/ledger.go:78-168` | replay lookup, then the transaction; a refusal leaves the tables as they were |
| `Storage.Store.MoveTx` | `backend/internal/services/ledger.go:91-157` | row, entry and recomputed projection, or the error of the check that failed |
| `Storage.Store.WithdrawExternal` | `backend/internal/services/money.go:186-295` | the whole operation refines `Ledger.Apply`, with roll-back of a refused transaction |
| `Storage.Store.WithdrawTx` | `backend/internal/services/money.go:208-286` | principal plus fee debited, fee settled to the platform account, also when the payer is that account |
| `Storage.Store.SettleFee` | `backend/internal/services/money.go:259-281` | the fee account's projection starts from a sum read after the payer's entry |
| `Storage.Store.Transfer` | `backend/internal/services/money.go:324-468` | the whole operation refines `Ledger.Apply`, with roll-back of a refused transaction |
| `Storage.Store.TransferTx` | `backend/internal/services/money.go:345-439` | two or three entries and right projections, also when source and destination are one account |
| `Storage.Store.DebitSource` | `backend/internal/services/money.go:376-411` | amount and fee leave one account and its projection is the sum of its entries |
| `Storage.Store.CreditDestination` | `backend/internal/services/money.go:413-434` | the destination's projection starts from a sum read after the debit |
| `Storage.Store.Convert` | `backend/internal/services/money.go:571-655` | accounts ensured before the key lookup, then the conversion |
| `Storage.Store.ConvertTx` | `backend/internal/services/money.go:596-647` | what the commit leaves, including the stale second balance when both currencies are the same |
| `Ledger.ConvertAgreesIff` | `backend/internal/services/money.go:596-647` | a committed conversion leaves every stored balance equal to its sum if and only if the two currencies differ |
| `Conservation.SelfConversionDisagrees` | `backend/internal/services/money.go:596-647` | a ledger and a rate row from NGN to NGN with which a conversion commits and leaves a wrong balance |
| `Ledger.ApplyAgrees` | `backend/internal/services/ledger.go:91-157` | every other request, committed, replayed or refused, keeps stored balance = credits - debits for every account |
| `Ledger.RunAgrees` | `backend/internal/services/money.go:208-286` | the projection law over every serial run |
| `Ledger.FindKeyIff` | `backend/internal/storage/postgres/ledger_repo.go:59-66` | the key lookup finds a row exactly when one carries the key |
| `Conservation.ApplyValid` | `backend/internal/storage/postgres/postgres.go:103-116` | foreign keys and the unique constraints survive every committed or rolled-back request |
| `Conservation.ApplyTxns` | `backend/internal/services/ledger.go:91-157` | one transaction row per commit, only ever appended, and only for a key that was new |
| `Conservation.BookedKept` | `backend/internal/storage/postgres/ledger_repo.go:85-94` | what a committed row posted is never added to or changed by later requests |
| `Conservation.RunConserves` | `backend/internal/services/money.go:186-439` | every currency total equals the opening total plus deposits and conversion outputs minus inputs, principals, debits, external transfers and transfer fees |
| `Conservation.RunFees` | `backend/internal/services/money.go:259-281` | the platform fee account grows by exactly the fees of committed external withdrawals |
| `Conservation.RunNonNegative` | `backend/internal/services/ledger.go:101-118` | no account is ever overdrawn in a serial run of safe requests |
| `Conservation.TransferNeverOverdrawsIff` | `backend/internal/services/money.go:345-411` | a transfer can never overdraw, whatever the ledger holds, if and only if its amount is refused, or it moves an account to itself without a fee, or its fee is not negative and amount plus fee does not wrap |
| `Conservation.UnsafeTransferOverdraws` | `backend/internal/services/money.go:345-411` | for every unsafe transfer, a ledger that it overdraws |
| `Conservation.WithdrawExactIff` | `backend/internal/services/money.go:186-286` | an external withdrawal debits amount plus fee exactly when the sum does not wrap |
| `Conservation.StoredBalanceExact` | `backend/internal/storage/postgres/account_repo.go:80-92` | a stored balance is the exact sum as long as the currency total fits int64 |
| `Conservation.TotalIsFlow` | `backend/internal/storage/postgres/ledger_repo.go:98-104` | summing accounts and summing entries give the same currency total |
| `Acceptance.CommitsIff` | `backend/internal/services/ledger.go:78-168` | a request commits if and only if it is valid, its key is new and its transaction goes through; it is replayed if and only if it is valid and its key is used |
| `Acceptance.CreditCommitsIff` | `backend/internal/services/ledger.go:91-157` | a credit commits if and only if it has a value, a new key and a readable account whose sum stays within 0 and the int64 maximum; that account alone grows, by the amount |
| `Acceptance.DebitCommitsIff` | `backend/internal/services/ledger.go:91-157` | a debit commits if and only if amount plus fee is positive, the key new, the account readable and covering it, and the sum plus the total fits int64; that account alone falls, by the total |
| `Acceptance.WithdrawCommitsIff` | `backend/internal/services/money.go:186-286` | the same for an external withdrawal, with the fee account's own condition; the payer loses principal and fee, the platform gains the fee |
| `Acceptance.TransferCommitsIff` | `backend/internal/services/money.go:345-439` | the same for a transfer, external ones, one account on both sides and negative fees included |
| `Acceptance.ConvertCommitsIff` | `backend/internal/services/money.go:571-655` | the same for a conversion, whose input leaves one account and whose output reaches the other |
| `Acceptance.ShortIff` | `backend/internal/services/ledger.go:101-118` | a request is refused for its balance if and only if it is valid and new, and the payer is short of it or the guard against overflow fires |
| `Replay.ReplayKeepsMoney` | `backend/internal/services/money.go:584-593` | a replayed key changes no transaction, entry or balance |
| `Replay.DeletableIff` | `backend/internal/services/money.go:571-593` | a replay can be deleted from every trace if and only if it creates no account |
| `Replay.PruneKeepsRun` | `backend/internal/services/money.go:196-205` | deleting every request whose key is committed when its turn comes from a serial run of any length leaves the tables unchanged, unless one of them creates an account |
| `Replay.SkippableIff` | `backend/internal/services/money.go:441-445` | at any point of any interleaving of lookups and commits, the requests whose key is committed by then, racers that lost included, can be taken out of every schedule if and only if none still ahead of its lookup creates an account |
| `Concurrency.OneTransactionPerKey` | `backend/internal/services/ledger.go:78-168` | over any valid ledger and under every interleaving of lookups, transactions and commits, at most one of the requests with one key commits and all that report a transaction report the same |
| `Concurrency.StepKeys` | `backend/internal/services/money.go:441-445` | every step keeps keys unique, and every request that reports a transaction under its key reports one that is committed |
| `Locks.LockedBatchIsSequential` | `backend/internal/services/vault.go:746-758` | any schedule of workers holding one lock per user ends a batch, rescanned credits and missing accounts included, with the sums and balances of crediting it one by one, and a worker commits exactly when its credit has a value, an account and a new key |
| `Locks.LockedStepInv` | `backend/internal/services/vault.go:460-486` | every worker step keeps: stored balances right, staged sums current, one active worker per user, replays and rejections without effect |
| `Locks.Sequential` | `backend/internal/services/vault.go:445-452` | crediting a batch one by one adds each effective amount once, whatever was already committed |
| `Locks.OrderFreeIff` | `backend/internal/services/ledger.go:101-111` | the order of credits makes no difference to an account if and only if it is at most one kobo overdrawn, the room a batch is asked for |
| `LostUpdates.StoredBalanceIs` | `backend/internal/storage/postgres/postgres.go:103-116` | after any interleaving of credits without locks, an account's stored balance is its sum minus what was committed on it between the last committer's read and its commit |
| `LostUpdates.StoredBalanceRightIff` | `backend/internal/services/ledger.go:91-157` | so it is right if and only if no credit of the account committed in between |
| `LostUpdates.UnlockedCreditsLoseAnUpdate` | `backend/internal/services/ledger.go:91-157` | two credits that both read before either commits lose the first from the stored balance |
| `Solvency.BroadcastIsDebited` | `backend/internal/services/vault.go:1144-1196` | a withdrawal that passes the balance check and is broadcast is always debited |
| `Solvency.BroadcastIsCovered` | `backend/internal/services/vault.go:2113-2119` | its USDC amount is never more than the credited part of custody |
| `Solvency.DepositExact` | `backend/internal/services/vault.go:2104-2109` | a deposit credits its worth, amount times rate over one million, rounded down to the kobo, wrapped to int64 |
| `Solvency.WithdrawExact` | `backend/internal/services/vault.go:2113-2119` | a withdrawal pays out its worth, amount times one million over the rate, rounded down, wrapped to int64 |
| `Solvency.StepSolvent` | `backend/internal/services/vault.go:1144-1196` | every step keeps custody times rate at least NGN liabilities times one million |
| `Solvency.RunSolvent` | `backend/internal/services/vault.go:1908-1918` | over every fair run custody covers every NGN balance and is never overdrawn |
| `Withdrawals.OneBroadcasterPerRow` | `backend/internal/services/vault.go:1992-2026` | in every run an agent past the claim works on that row's content, after its release time, and is the only one |
| `Withdrawals.ActKeepsClaims` | `backend/internal/storage/postgres/elevation_repo.go:118-170` | every step of every agent keeps the claim discipline |
| `Withdrawals.ActFollowsLifecycle` | `backend/internal/storage/postgres/elevation_repo.go:118-170` | rows only move along pending, broadcasting and the three terminal states, although MarkBroadcast has no guard |
| `Withdrawals.TerminalForEver` | `backend/internal/storage/postgres/elevation_repo.go:132-170` | content never changes; cancelled, broadcast and expired are never left; what was claimed was due |
| `Withdrawals.DebitedAtMostOnce` | `backend/internal/services/vault.go:1144-1196` | in every run whose debits are all heard of, each elevation is debited at most once, for its principal and stored fee; pending, cancelled and expired ones never were |
| `Withdrawals.ActKeepsDebits` | `backend/internal/services/vault.go:2000-2026` | every step, failed debits and lost key races included, keeps debits, rows and agents in agreement |
| `Withdrawals.RunClaims` | `backend/internal/services/vault.go:1072-1130` | the claim discipline holds after every run from an empty table |
| `Withdrawals.KeyedDebitedAtMostOnce` | `backend/internal/services/vault.go:1144-1196` | in every run, replies that get lost included, an elevation with a key is debited at most once and every recorded debit is a committed transaction of its row |
| `LostReplies.NeverTwiceIff` | `backend/internal/services/vault.go:1144-1196` | an elevation that can be sent and paid for twice is debited at most once in every run if and only if its request carried a key |
| `LostReplies.UnkeyedDebitedTwice` | `backend/internal/services/vault.go:2000-2026` | the run: the debit lands, its reply is lost, the row is released, swept again and debited again |
| `DeadEnds.StuckForEver` | `backend/internal/services/vault.go:2000-2026` | a row left broadcasting that no agent holds, after a crash, a failed MarkBroadcast or a refused release, stays so in every continuation of every run |
| `DeadEnds.FailedReturnsIff` | `backend/internal/storage/postgres/elevation_repo.go:142-148` | a failed withdrawal's row is pending again if and only if the release call succeeds and its content was not requested anew; otherwise it is stuck |
| `DeadEnds.ReleaseMeetsTwin` | `backend/internal/storage/postgres/elevation_repo.go:142-148` | a run in which the release meets the same content pending again and leaves the row stuck |
| `DeadEnds.ExpiryIsLiveness` | `backend/internal/services/vault.go:2055-2083` | only the holder's liveness check expires a row, and the intent was still live if and only if its deadline was ahead, its nonce current and the read failed |
| `DeadEnds.ExpiredWasDead` | `backend/internal/services/vault.go:2055-2083` | in every run whose nonce reads succeed, a row that expires could no longer be relayed |
| `DeadEnds.LiveExpiresIff` | `backend/internal/services/vault.go:2066-2075` | a live signed intent is expired if and only if its nonce matters, its clone was found and its nonce could not be read |
| `DeadEnds.FailedReadExpires` | `backend/internal/services/vault.go:2066-2075` | a run in which one failed read of the nonce expires a live intent |
| `DeadEnds.DeadExpiresIff` | `backend/internal/services/vault.go:2055-2083` | a dead signed intent is expired if and only if the update succeeds and the deadline has passed or the clone was found |
| `DeadEnds.GoesOnIff` | `backend/internal/services/vault.go:2055-2083` | a claimed row goes on to its withdrawal if and only if nothing was signed, or its deadline is not behind and a signed nonce was found to be current |
| `DeadEnds.DoneBroadcastIff` | `backend/internal/storage/postgres/elevation_repo.go:134-140` | a paid elevation's row is broadcast after the last step if and only if that update succeeds; otherwise it is stuck |
| `LostReplies.PaidAndBroadcast` | `backend/internal/services/vault.go:1992-2026` | the run of an accepted elevation that nothing gets in the way of ends with it broadcast, debited exactly once for principal and fee, and sent to its destination for its worth |
| `Origins.RunOrigins` | `backend/internal/services/vault.go:1144-1264` | over every run in either mode: rows, jobs and done jobs stem from requests, checks and debits of the run, and every event was sent by one step, for a requested and covered job, to that job's destination, for its converted principal or the signed amount, from the user's clone when there is one and then as its owner signed or the vault, or nobody, owned it |
| `Origins.ClaimedWhenDue` | `backend/internal/services/vault.go:1072-1130` | no row is claimed, broadcast or expired before the time of its request plus the delay |
| `Origins.CarriesNow` | `backend/internal/services/vault.go:1286-1333` | the relay that is checked has the job's destination, deadline and signature, the signed amount when there is one and the signed nonce unless it is zero |
| `WithdrawalSteps.RequestedIff` | `backend/internal/services/vault.go:1072-1130` | a request makes a pending row, due after the delay, if and only if it is above the threshold, not pending already, covered and not expired |
| `WithdrawalSteps.CancelledIff` | `backend/internal/storage/postgres/elevation_repo.go:158-170` | a row is cancelled by a step if and only if its own user cancels it while it is pending |
| `WithdrawalSteps.PrecheckedIff` | `backend/internal/services/vault.go:1144-1174` | an attempt passes the check if and only if its key is not found, principal and fee are covered and the principal is worth something; it is done if and only if the key is found |
| `WithdrawalSteps.UnsignedSentIff` | `backend/internal/services/vault.go:1239-1264` | an unsigned attempt reaches the chain if and only if it is covered, the mode is not strict and the clone, if any, is not a user's; then with exactly this event |
| `WithdrawalSteps.SignedSentIff` | `backend/internal/services/vault.go:1271-1333` | a signed attempt reaches the chain if and only if it is covered, not expired and the clone's owner signed exactly the relay, in either mode |
| `Withdrawals.StrictRelaysOnly` | `backend/internal/services/vault.go:1230-1333` | in strict mode only unexpired user-signed relays of the user's own clone reach the chain, signed over exactly the relayed fields by the owner the chain reported |
| `Withdrawals.RouteKeepsStrict` | `backend/internal/services/vault.go:1230-1264` | neither the platform-signed nor the shared-signer path is taken in strict mode |
| `Withdrawals.VerifyKeepsStrict` | `backend/internal/services/vault.go:1271-1333` | a relay is built only from a signature that recovers to the owner read for that clone |
| `Elevations.ElevationRepo.ProbeIndex` | `backend/internal/storage/postgres/elevation_repo.go:90-95` | whether another pending row has the same content |
| `Elevations.ElevationRepo.Create` | `backend/internal/storage/postgres/elevation_repo.go:43-65` | a second pending row with the same content is refused |
| `Elevations.ElevationRepo.ClaimForBroadcast` | `backend/internal/storage/postgres/elevation_repo.go:118-132` | succeeds exactly on a pending row, which becomes broadcasting |
| `Elevations.ElevationRepo.MarkBroadcast` | `backend/internal/storage/postgres/elevation_repo.go:134-140` | sets the status whatever it was |
| `Elevations.ElevationRepo.ReleaseClaim` | `backend/internal/storage/postgres/elevation_repo.go:142-148` | back to pending only from broadcasting, and not over a pending twin |
| `Elevations.ElevationRepo.MarkExpired` | `backend/internal/storage/postgres/elevation_repo.go:150-156` | only from pending or broadcasting |
| `Elevations.ElevationRepo.CancelPending` | `backend/internal/storage/postgres/elevation_repo.go:158-170` | only the owner's pending row, not found otherwise |
| `IndexerInvariant.RunInv` | `backend/internal/services/vault.go:341-455` | the indexer's invariant holds after every run of scans, crashes, restarts, reorganisations, attributions and other traffic |
| `IndexerInvariant.FinishCovers` | `backend/internal/services/vault.go:430-452` | the cursor only moves over blocks whose due transfers are all settled |
| `IndexerInvariant.CreditKeeps` | `backend/internal/services/vault.go:723-775` | every credit under an indexer key pays a confirmed transfer, its clone's user, and its worth at a rate that was in force |
| `IndexerInvariant.RouteSettles` | `backend/internal/services/vault.go:661-706` | up to the event row a handler either goes on to the right user and key or settles a due transfer |
| `IndexerInvariant.AttributeKeeps` | `backend/internal/services/vault.go:830-890` | attribution keeps every credit sourced and takes a flag away only with a credit in place |
| `IndexerInvariant.MineScan` | `backend/internal/services/vault.go:361-370` | a reorganisation inside the confirmation window undoes nothing that was counted |
| `IndexerSteps.CreditSucceedsIff` | `backend/internal/services/vault.go:736-758` | a credit succeeds if and only if there is a rate, the deposit is worth something at it, and the ledger has the credit or can take it |
| `IndexerSteps.CreditAdds` | `backend/internal/services/vault.go:736-758` | a credit under a new key adds to the user's account alone its worth at the rate in force: n with n * 1000000 <= base * rate < (n + 1) * 1000000 when it fits int64 |
| `IndexerSteps.RouteGoesOnIff` | `backend/internal/services/vault.go:661-706` | a transfer goes on to a credit if and only if it is a clone's, for the clone's user, or into the vault from a sender who resolves to a user; with the key of its path |
| `IndexerSteps.OrphanFlaggedIff` | `backend/internal/services/vault.go:685-703` | a transfer of nobody's is flagged if and only if its row can be written and is not there as a deposit |
| `IndexerSteps.IgnoredIff` | `backend/internal/services/vault.go:661-758` | a step gives a transfer up if and only if its sender cannot be looked up, its flag cannot be written, or its credit does not succeed |
| `IndexerSteps.WorkPays` | `backend/internal/services/vault.go:736-758` | a worker's credit that does not fail is booked once, at the rate in force |
| `IndexerSteps.AttributeIff` | `backend/internal/services/vault.go:830-890` | an attribution takes the flag away if and only if the row is the operator's to assign, its credit goes through and the row can be updated; a valid one links the sender, and a paid one books the deposit at the rate in force |
| `Scans.TakesUpIff` | `backend/internal/services/vault.go:355-416` | a scan without a failing call takes up exactly the confirmed transfers from the cursor on, with every known clone in its routing table |
| `ExactlyOnce.CreditedExactlyOnce` | `backend/internal/services/vault.go:723-775` | after every run a due transfer between base and cursor has exactly one credit and one ledger entry, for its worth at a rate the run had in force, for its clone's user or a user its sender was linked to, unless its handler failed or it awaits an operator |
| `ExactlyOnce.PastIsTheRuns` | `backend/internal/services/vault.go:162-173` | every rate and every link that a credit refers to was in force at some point of the run |
| `ExactlyOnce.NothingUnconfirmed` | `backend/internal/services/vault.go:361-370` | no credit ever pays a transfer above latest - MinConfirmations |
| `ExactlyOnce.OwnCreditsIff` | `backend/internal/services/vault.go:677-705` | a set of payable clone deposits all have credits of their own if and only if no two are in one transaction |
| `ExactlyOnce.SharedTransactionSharesCredit` | `backend/internal/services/vault.go:677-705` | two transfers of one transaction routed alike never have two credits |
| `SharedCredits.OneOfTwoCredited` | `backend/internal/services/vault.go:677-705` | a run that ends with two payable deposits of one transaction and a single transaction in the ledger |
| `Cursors.CursorNeverDecreases` | `backend/internal/services/vault.go:437-443` | within one process the cursor never moves back |
| `Cursors.StoredBehindCursorIff` | `backend/internal/services/vault.go:341-353` | from a restart to the next the stored cursor never passes the one in memory if and only if the restart could read it or it was no further than the start block |
| `Cursors.WindowPassedIff` | `backend/internal/services/vault.go:417-429` | a scan passes its whole window if and only if the last block had an event, and stays if and only if none had |
| `Cursors.RestartKeepsBaseIff` | `backend/internal/services/vault.go:341-394` | a restart keeps counting from the old base if and only if a start block is set or the stored cursor was read and is set |
| `Cursors.RestartResumes` | `backend/internal/services/vault.go:437-452` | a process that dies after a batch with new events was stored is followed by one at the same cursor |
| `DroppedFlags.NothingLostIff` | `backend/internal/services/vault.go:685-703` | no run from any empty installation ever drops an operator flag if and only if a fallback account is configured |
| `DroppedFlags.NothingLost` | `backend/internal/services/vault.go:685-703` | nor does any run in which linked wallets stay linked |
| `DroppedFlags.RelinkingDropsAFlag` | `backend/internal/storage/postgres/indexer_event_repo.go:20-29` | under every configuration without a fallback, a run from an empty installation in which a user relinks after a crash and a deposit ends neither credited, flagged nor reported |
| `Indexer.NextCursor` | `backend/internal/services/vault.go:417-429` | the least cursor at or above the old one and past every block with an event |
| `VaultIndexer.AdvancePast` | `backend/internal/services/vault.go:417-429` | the loop computes that cursor |
| `VaultIndexer.OneStep` | `backend/internal/services/vault.go:661-775` | a step of a worker changes tables and caches as the protocol's step does, wherever its batch stands |
| `VaultIndexer.VaultService.Start` | `backend/internal/services/vault.go:341-353` | the new process starts at the stored cursor, else at the configured block |
| `VaultIndexer.VaultService.InsertEvent` | `backend/internal/storage/postgres/indexer_event_repo.go:20-29` | the first row for a log wins |
| `VaultIndexer.VaultService.MarkAttributed` | `backend/internal/storage/postgres/indexer_event_repo.go:96-109` | only a flagged row becomes deposited |
| `VaultIndexer.VaultService.SetLastBlock` | `backend/internal/storage/postgres/indexer_state_repo.go:34-42` | the stored cursor is overwritten |
| `VaultIndexer.VaultService.SenderUserId` | `backend/internal/services/vault.go:779-801` | cached, linked or fallback user, cached once known |
| `VaultIndexer.VaultService.RecordUnattributed` | `backend/internal/services/vault.go:809-816` | the row is flagged, or the flag is dropped over an existing deposited row |
| `VaultIndexer.VaultService.LogDeposit` | `backend/internal/services/vault.go:723-734` | the event row first; a failed insert is only logged |
| `VaultIndexer.VaultService.PayDeposit` | `backend/internal/services/vault.go:736-755` | the price and the credit; an error is reported |
| `VaultIndexer.VaultService.RouteDeposit` | `backend/internal/services/vault.go:661-706` | by recipient, clones first, then by sender, up to the event row |
| `VaultIndexer.VaultService.WorkOnce` | `backend/internal/services/vault.go:469-481` | the next step of whichever worker has the transfer |
| `VaultIndexer.VaultService.HandleDeposit` | `backend/internal/services/vault.go:661-706` | handling a transfer from start to end is the worker's steps one after the other |
| `VaultIndexer.VaultService.RefreshCloneUsers` | `backend/internal/services/vault.go:528-543` | the routing table maps every clone to its user |
| `VaultIndexer.VaultService.AttributeDeposit` | `backend/internal/services/vault.go:830-890` | does to links, ledger and events what the protocol's attribution does |
| `VaultIndexer.VaultService.ProcessTransfers` | `backend/internal/services/vault.go:460-486` | whichever worker takes the next step in each round, a batch ends with every transfer handled, as a run of protocol workers |
| `VaultIndexer.VaultService.Scan` | `backend/internal/services/vault.go:355-455` | one poll, whichever of its calls fail, is a run of the protocol |
| `LogScan.Scan` | `backend/internal/infrastructure/blockchain/service.go:1257-1303` | the walk in ten-block slices returns exactly what one query over the range decodes to, or fails when a slice does |
| `LogScan.AppendDecoded` | `backend/internal/infrastructure/blockchain/service.go:1281-1296` | the inner loop appends the decoding of a slice |
| `LogScan.InterruptedIff` | `backend/internal/infrastructure/blockchain/service.go:1262-1301` | the walk fails exactly when a slice from, from + 10, ... fails or its end wraps around uint64 |
| `LogScan.RangeSplit` | `backend/internal/infrastructure/blockchain/service.go:1311-1355` | adjacent ranges partition a query: no block twice, none skipped |
| `LogScan.SliceSpan` | `backend/internal/infrastructure/blockchain/service.go:1262-1270` | a slice spans at most ten blocks and never passes the end of the range |
| `Eip712.DigestBinds` | `backend/internal/eip712/eip712.go:80-163` | equal digests mean the same intent type, chain, clone and fields up to sign, or exhibit two inputs of one hash |
| `Eip712.DigestInjective` | `backend/internal/eip712/eip712.go:93-163` | on non-negative fields digests are equal if and only if everything signed is, or a collision is exhibited |
| `Eip712.DigestForgetsSign` | `backend/internal/eip712/eip712.go:253-258` | fields that differ only in sign always share a digest |
| `Eip712.NegativeDeadlineCollides` | `backend/internal/eip712/eip712.go:93-115` | a concrete pair of intents with one digest |
| `Eip712.Uint256RoundTrip` | `backend/internal/eip712/eip712.go:253-258` | the 32-byte word of a number below 2^256 reads back as its absolute value |
| `Eip712.RelayedSignatureRecoversAlike` | `backend/internal/eip712/eip712.go:182-221` | the split signature that is relayed recovers like the one that was checked, whichever v convention it came in |
| `TypedData.DigestIsTyped` | `backend/internal/eip712/eip712.go:37-163` | the three digests are those of an EIP-712 encoder for any flat struct, from the member lists: encodeType, encodeData and hashStruct of the domain and of the intent |
| `TypedData.StructTyped` | `backend/internal/eip712/eip712.go:41-43` | each type string is the one its member list gives |
| `Calldata.FillBytes` | `backend/internal/infrastructure/blockchain/service.go:1197-1208` | the number's big-endian bytes fill the slice and what comes before stays |
| `Calldata.PutSignature` | `backend/internal/infrastructure/blockchain/service.go:1197-1208` | v right-aligned in its word, then r and s |
| `Calldata.PutTail` | `backend/internal/infrastructure/blockchain/service.go:1130-1140` | nonce, deadline and signature fill the rest of the buffer |
| `Calldata.EncodeWithdrawWithSig` | `backend/internal/infrastructure/blockchain/service.go:1197-1208` | the buffer is selector, the four signed words, then v, r and s |
| `Calldata.EncodeSeatBySig` | `backend/internal/infrastructure/blockchain/service.go:1067-1077` | the buffer is selector, the three signed words, then v, r and s; both seating encoders |
| `Calldata.WithdrawRoundTripIff` | `backend/internal/infrastructure/blockchain/service.go:1197-1208` | decoding the words gives the relay back if and only if amount and deadline are not negative |
| `Calldata.SeatRoundTripIff` | `backend/internal/infrastructure/blockchain/service.go:1130-1140` | decoding gives the seating relay back if and only if the deadline is not negative |
| `Calldata.RelayedWordsAreSignedWords` | `backend/internal/eip712/eip712.go:93-115` | the to, amount, nonce and deadline words sent are byte for byte the ones hashed |
| `Calldata.SeatedWordsAreSignedWords` | `backend/internal/eip712/eip712.go:122-163` | the same for recovery and ownership |
| `Quote.MulRatioNearest` | `backend/internal/domain/money/money.go:114-145` | m * num / den to the nearest integer, ties away from zero, for every positive denominator |
| `Quote.NegativeDenominatorNearestIff` | `backend/internal/domain/money/money.go:114-145` | with a negative denominator it is the nearest if and only if no rounding was due |
| `Quote.QuoteExact` | `backend/internal/services/money.go:490-536` | fee plus net is the input with 0 <= fee <= input, and fee and output are the nearest integers to their exact values |
| `Quote.WorthExact` | `backend/internal/services/money.go:545-567` | the output is the nearest integer to the net at the book rate, in both directions |
| `Quote.FeeExact` | `backend/internal/domain/money/money.go:149-154` | the fee is the nearest integer to its share, between nothing and the input |
| `Quote.QuoteMonotone` | `backend/internal/services/money.go:490-536` | a larger input never yields a smaller output |
| `Quote.QuoteIff` | `backend/internal/services/money.go:490-536` | there is a quote if and only if the amount is positive and within the row's limits, the rate positive, the fee at most 100%, and the conversion between NGN and another currency fits int64 |
| `Fees.ComputeWithdrawalFee` | `backend/internal/domain/fees/fees.go:13-30` | the documented clamped fee for every int64 amount up to 100%, the clamped wrapped value above |
| `Fees.DivideFirst` | `backend/internal/domain/fees/fees.go:17-19` | dividing first gives exactly floor(amount * bps / 10000) |
| `Fees.ExactForAllAmountsIff` | `backend/internal/domain/fees/fees.go:17-19` | a rate is priced exactly for every int64 amount if and only if it is at most 10000 bps |
| `Fees.FeeInRange` | `backend/internal/domain/fees/fees.go:20-28` | min <= fee <= cap when 0 <= min <= cap |
| `Fees.FeeMonotone` | `backend/internal/services/vault.go:896-898` | a larger withdrawal never costs less |
| `Fees.SplitSavesAtMostOne` | `backend/internal/services/vault.go:896-898` | splitting a withdrawal in two saves at most one kobo |
| `Fees.SplitCanSaveOne` | `backend/internal/domain/fees/fees.go:17-19` | the kobo is saved where both remainders are lost |
| `Decimal.ParseMajorToBase` | `backend/internal/infrastructure/blockchain/service.go:1379-1413` | the parser, with its padding loop, against `Decimal.MajorToBase` |
| `Decimal.PlainBase` | `backend/internal/infrastructure/blockchain/service.go:1379-1413` | digits with at most `decimals` fraction digits are read exactly |
| `Decimal.BaseRoundTripIff` | `backend/internal/services/vault.go:2123-2130` | parsing undoes printing if and only if amount and decimals are not negative |
| `Decimal.NeverNegative` | `backend/internal/infrastructure/blockchain/service.go:1407-1412` | no text is read as a negative amount |
| `Decimal.FromMajorUnits` | `backend/internal/domain/money/money.go:36-77` | the parser, with its padding loop, against `Decimal.MajorToMinor` |
| `Decimal.PadFraction` | `backend/internal/domain/money/money.go:59-62` | zeros up to the wanted number of digits, nothing when there are enough |
| `Decimal.PlainMinor` | `backend/internal/domain/money/money.go:46-77` | plain texts are read as their minor units, and as overflow exactly when no int64 holds them |
| `Decimal.ExactIff` | `backend/internal/domain/money/money.go:55-66` | the minor units are those the text denotes if and only if it has at most two fraction digits or is zero |
| `Decimal.SecondDotDropsFraction` | `backend/internal/domain/money/money.go:46-51` | with a second dot the fraction is dropped without an error |
| `Decimal.MoneyRoundTripIff` | `backend/internal/domain/money/money.go:172-184` | parsing undoes printing if and only if the amount is not negative |
| `TokenBucket.RateLimiter.Allow` | `backend/internal/httpapi/middleware/rate_limiter.go:60-86` | the answer and the bucket after it; other keys' buckets stay |
| `TokenBucket.WindowBound` | `backend/internal/httpapi/middleware/rate_limiter.go:60-86` | in every window of every run of interleaved keys, at most burst + floor((t1 - t0) / interval) requests of a key are allowed |
| `TokenBucket.ServeKeeps` | `backend/internal/httpapi/middleware/rate_limiter.go:73-83` | tokens stay between 0 and the burst |
| `TokenBucket.DeniedSoonAfterAllowed` | `backend/internal/httpapi/middleware/rate_limiter.go:73-86` | a request is denied only within one interval of an allowed one of the same key |
| `TokenBucket.FirstBurstAllowed` | `backend/internal/httpapi/middleware/rate_limiter.go:60-86` | the first burst requests of a new key are all allowed |
| `TokenBucket.RestedServes` | `backend/internal/httpapi/middleware/rate_limiter.go:73-83` | a bucket left alone serves its tokens and one per whole interval it rested, up to the burst, however fast they are asked for |

## Left out

- Storage.Store.WithdrawExternal: metadata, notifications and the inbox message are not modelled; neither are those of the other operations.
- Conservation.RunNonNegative: states non-negativity for serial committed transactions, because a transaction takes no row lock and withdrawals do not take the per-user lock; what interleaving breaks is `LostUpdates.StoredBalanceIs`.
- Locks.LockedBatchIsSequential: an account that the batch credits is at most one kobo overdrawn (`Locks.OrderFreeIff`) and can hold what the batch adds to it.
- Solvency.RunSolvent: covers unsigned withdrawals, because a signed amount overrides the converted one, and assumes that a deposit is credited only out of what arrived (`ExactlyOnce`), that the rate never falls, that amounts are validated and that the NGN supply fits int64; a withdrawal at rate 0, where the code divides by zero, is excluded.
- Withdrawals.DebitedAtMostOnce: at most one debit, not at most one broadcast: a broadcast whose debit fails is released and sent again. Debits whose outcome is lost are `Withdrawals.KeyedDebitedAtMostOnce`.
- Withdrawals.StrictRelaysOnly: the owner is the one the chain reported when the signature was checked; it may change before the relay is sent. An immediate request's nonce is not compared with the chain's, as in the code.
- Origins.RunOrigins: a signed amount is not compared with the principal, as in the code; the check of a job's balance may be that of an earlier attempt at the same job, since nothing tells two requests with equal content and no row apart.
- ExactlyOnce.CreditedExactlyOnce: needs the transfer to be the only one credited under its key; reorganisations are no deeper than MinConfirmations; no other caller uses the indexer's keys; a clone's address is not the vault's; and transfers into a clone mined before its row was written are not owed.
- VaultIndexer.VaultService.ProcessTransfers: does not bound the pool at eight workers, and a credit is one step; workers inside one credit are `Locks.LockedBatchIsSequential`.
- LogScan.Scan: a slice whose end wraps below its start is taken to be refused by the node.
- Decimal.FromMajorUnits: texts are ASCII bytes, so only ASCII white space is trimmed.
- TokenBucket.WindowBound: burst is not negative (a burst of at most 0 allows nothing); durations are unbounded integers.
- Privacy-mode deposits (`DepositedPrivate` events and commitments); their events only move the cursor here.
- Leader election and takeover by a standby instance, which does not re-read the stored cursor.
- Upper and lower case of addresses, hexadecimal decoding, and 64-bit limits of block numbers.
- The daily limit and the other checks of `validateWithdrawalRequest`, which only reject.
- HTTP handlers, mail, events, metrics, rate feeds, floating-point and JSON paths, authentication, recovery and custody caches, the contracts: no invariant of the money core, or foreign code.
