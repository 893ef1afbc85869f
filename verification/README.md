# Verified model of the top-up platform's stateful cores

This project models the parts of the platform in which several requests, tabs or steps meet the same
state, and proves what they keep over whole runs:

- **Money store** (`rust-api/src/wallet_store.rs`). `WalletTables` holds the committed rows,
  `WalletSpec` says what each operation does to them alone, `WalletStore` is the store as a class whose
  methods meet that specification, and `WalletSoundness` is the invariant of every committed state.
  `WalletTransactions` breaks each operation into its SQL statements and `WalletInterleaving` runs any
  number of them at once, one statement at a time, under row locks, unique-key reservations and
  read-committed reads. Every such run commits the states of a serial run in commit order;
  `WalletGuarantees` draws the consequences, `WalletTerms` says on which terms an operation commits and
  where a checkout has its price from (`WalletPostings`: under which source each operation posts), and
  `WalletReplies` says what those transactions tell their callers that commit nothing.
- **Settlement and rewards** (the same file). `SettlementSpec`, `SettlementStore`, `SettlementRuns` and
  `SettlementGuarantees` cover provider callbacks, points, reward claims and their refunds, mixed with
  any other wallet operation under any keys; `SettlementKeys` follows one callback key through a run and
  says exactly which events of others disturb it. `RewardInterleaving` runs claims and refunds
  concurrently, statement by statement, each with the writes that follow from what it read under its row
  locks, and shows that every run is a serial one.
- **Sliders and the rate limiter** (the same file). `SliderSpec`/`SliderStore` show that the numbered
  rows stand for a list. `RateLimiter` is the shared key store with the single commands of concurrent
  calls interleaved; `RateLane` is what the callers of one key see of it, `RateKeys` the names of the
  cells, and `RateFailures` runs in which callers share cells; `RateWindow` says exactly which callers
  break the bound on a window, and `RateBlocks` when a block that stands still sees an admission.
- **Session authority** (`rust-api/src/postgres_auth.rs`). `SessionSpec` and `SessionStore` are the
  operations; `SessionRuns` splits a login into its early read, its count under the row lock and its
  insert, splits a rotation likewise, and lets everything else happen in between; `SessionGuarantees`
  and `SessionSlots` have the theorems.
- **Browser session coordinator** (`client/src/auth/coordinator.ts`). `CoordinatorSpec` is a machine
  whose steps lie between two `await` points, `Coordinator` the mutable object, `CoordinatorRefresh` the
  retry loop, `CoordinatorRuns` and `CoordinatorRemote` the results about runs and about announcements
  of other tabs; `CoordinatorOutcomes` says what each answer and message comes to by the server's codes,
  and that a refresh keeps trying as long as it may.
- **Civil time** (`client/src/auth/twoFactorEnrollmentClock.ts`, `rust-api/src/catalog_store.rs`).
  `Calendar` counts the Gregorian calendar out and relates it to the formulas of section 21.4.1 of
  ECMA-262; `Timestamp` and `TimestampText` are the parser of zoned timestamps and its round trips;
  `EnrollmentClock` is the deadline gate and its timer; `References` is the daily reference allocator.
- **Verification matrix** (`tools/dev-verification/verify.ts`). `MatrixSpec`, `MatrixExecutor` and
  `MatrixGuarantees` run any matrix of checks against any pattern of failing effects; `MatrixPlans` has
  the effects of each check written out, and its cleanup whatever fails.

`Base` holds optional values and the 64-bit arithmetic of Rust.

## What was found

The properties below are stated as the code behaves. Where a natural property is false of the code, a
lemma exhibits the failure and another one says exactly when it happens or when it cannot.

- Counting stale sessions too, a staff user can hold more active sessions than the two slots:
  `StraddlingLoginsPassTheStaffLimit`. Slots are exceeded exactly at an insert that finds the slots of
  the user's present role taken: `EventStaysWithinExactly`, `SlotsAreKeptExactly`; and then a member was
  made staff between the read and the insert of a login: `WhatOverfills`, `ExceededOnlyAfterADemotion`.
  Sessions of the current generation never exceed the slots, and only those authorize: `SlotsHold`.
- A callback's sources join provider and reference with a colon, so two keys can share them, and any
  other posting may use the same text as its key. Then a first failure or a correction is refused
  (`CollidingKeysConflict`, `TakenSourceRefuses`, `PostingTakesItsSource`), or a success is applied
  without its points (`CollidingSuccessAwardsNothing`). `KeysCollideExactly` says which keys share,
  `FirstFailureAppliesExactly`, `CorrectionAppliesExactly`, `FirstSuccessAppliesExactly` and
  `SuccessAwardsExactly` when a callback is applied on any books, and `RunSettlesExactly` which runs keep
  a key settled. A correction told another amount than the failure leaves the difference on the wallet:
  `OtherAmountLeavesADifference`.
- The refund of a reward claim under `k` answers "replay" when somebody claimed the same reward under
  `refund:k`: `ClaimUnderARefundKeyBlocks`; `RefundGoesThroughExactly` and `WhatBlocksARefund` say when
  it goes through.
- Of two concurrent requests under one key that both find no earlier commit, the second is refused, not
  answered as the replay that it is: `RacingCreditIsRefused`, `RacingCheckoutIsRefused`. Exactly when, for
  every operation: `QuittersAnswerExactly`; for the idempotent credit at any later moment too:
  `IdempotentCreditAnswersExactly`.
- Announced tokens whose issue time and id compare equal make arrival order matter:
  `TiedTokensExist`, `TiedTokensDiverge`; exactly when: `ConvergesExactlyWhenTopsAgree`.
- Callers of the rate limiter can share cells, across namespaces too, exactly as `CellsAreSharedExactly`
  says. Then one admitted call on `K:block` blocks `K` (`OneCallBlocksAnotherKey`), and the bound on a
  window fails, for a key whose counter is another's counter (`ForeignCounterPassesTheBound`) and for one
  whose counter is another's block (`ForeignBlockPassesTheBound`). These are the only callers that break
  it: `BoundIsKeptExactly`, `BoundIsKeptExactlyByName`.
- A call that had passed the check before a block can be admitted during it: `AdmittedDuringABlock`;
  exactly when: `StandingBlockAdmitsExactly`; never another: `NobodyEntersABlock`.
- A call lost between its increment and its expiry leaves a counter that never expires; after `limit`
  calls its key is denied for ever: `LosingTheExpiry`, `LostExpiryDeniesForever`.
- With 2^31 active sliders the place wraps in the column's width: `CreateWrapsWhenFull`,
  `RestoreWrapsWhenFull`; the rows number the list exactly as long as no append meets such a list:
  `RunFollowsExactly`.
- A self-managed check whose preliminary stop fails, and an isolated check whose cleanup fails, are
  reported in the phase `run`: `SelfManagedStopFailureIsMisreported`, `CleanupFailureIsMisreported`.
  These are the only cases: `PhaseIsRightExactly`, `ReportedPhaseIsRightExactly`.

## How the source is read

- The unique columns, foreign keys and CHECK constraints that the code relies on are those of
  `rust-api/migrations`; unique columns are map keys or are checked by the inserts. `postgres_auth.rs`
  reads generations as 32-bit integers and inserts sessions without the columns that migration 0044
  made mandatory, so it is modelled on the schema before that migration.
- A transaction commits all its writes or none. A refusal, an abort and a lost connection roll back.
- Rust's `i64` arithmetic wraps, as in release builds; PostgreSQL's refuses to overflow. Both are
  written out.
- The statement of `revoke_all` may miss sessions inserted while it waits for a lock; the concurrent model
  lets it miss any of them.
- bcrypt, HMAC, one-time passwords and token decoding are parameters: their verdict or their output
  may be anything. Where a token decodes to an order, the order is a function of the token.
- Comments in the timer promise that it never spins at zero delay; that is proved as
  `TimeoutCounts` and `CountdownEnds`.

## Model

| member | source | states |
|---|---|---|
| WalletStore.Store.PostWithin | rust-api/src/wallet_store.rs:600-610 | The posting shared by all money operations refuses non-positive amounts, empty sources, unknown users, negative results and reused sources; on sound tables a posting it makes moves the balance by exactly the signed amount and takes its source. |
| WalletStore.Store.Post | rust-api/src/wallet_store.rs:64-84 | A credit, debit or refund has the specified effect and reply, keeps every invariant of the tables, and leaves them alone when refused or aborted. |
| WalletStore.Store.IdempotentCredit | rust-api/src/wallet_store.rs:86-104 | An idempotent credit has the specified effect and reply and keeps every invariant; refused, it changes nothing. |
| WalletStore.Store.Checkout | rust-api/src/wallet_store.rs:145-170 | A checkout has the specified effect and reply and keeps every invariant; a new order is at the gold column of its product for gold members, at the platinum column for platinum members and at the basic one for all others, and the balance falls by that price; refused or aborted, the checkout changes nothing. |
| WalletStore.Store.ApproveDeposit | rust-api/src/wallet_store.rs:172-187 | Approving a deposit has the specified effect and reply and keeps every invariant; refused, it changes nothing. |
| WalletStore.Store.RefundDeposit | rust-api/src/wallet_store.rs:189-204 | Refunding a deposit has the specified effect and reply and keeps every invariant; refused, it changes nothing. |
| WalletStore.Store.AdjustBalance | rust-api/src/wallet_store.rs:206-219 | A balance adjustment has the specified effect and reply and keeps every invariant; refused, it changes nothing. |
| WalletStore.Store.GuestCheckout | rust-api/src/wallet_store.rs:220-238 | A guest checkout has the specified effect and reply and keeps every invariant; refused, it changes nothing. |
| WalletStore.Store.EnqueueProvider | rust-api/src/wallet_store.rs:106-109 | Enqueueing a provider row has the specified effect and reply and keeps every invariant. |
| WalletStore.Store.ClaimProvider | rust-api/src/wallet_store.rs:111-115 | Claiming a row leases a pending one only, and on sound tables the lease it hands out is always the first. |
| WalletStore.Store.MarkProviderAmbiguous | rust-api/src/wallet_store.rs:117-122 | Only the holder of the current lease of a row being sent can mark it ambiguous; every invariant is kept. |
| WalletStore.Store.ReconcileProvider | rust-api/src/wallet_store.rs:124-135 | An acknowledged result is the stored one; every invariant is kept. |
| WalletStore.Store.Reconcile | rust-api/src/wallet_store.rs:57-62 | The answer compares the balance with the signed ledger sum, and on sound tables it is never negative. |
| WalletSoundness.OpeningTablesAreSound | rust-api/src/wallet_store.rs:57-62 | Tables with zero balances, no postings and waiting deposits satisfy the invariant that all runs start from. |
| WalletSoundness.ExecuteKeepsSound | rust-api/src/wallet_store.rs:64-238 | Every operation, accepted or refused, keeps the whole invariant: balances equal to ledger sums, prefix sums in entries, distinct sources, orders with their debit and outbox row, deposits at their worth, stock not negative, results exactly in sent rows. |
| Base.OverflowingCreditTurnsNegative | rust-api/src/wallet_store.rs:604-605 | A credit onto a non-negative balance wraps to a negative number exactly when it overflows, so the guard against negative balances also refuses every overflow. |
| WalletInterleaving.CommitIsSerial | rust-api/src/wallet_store.rs:64-238 | A transaction whose earlier answers still describe the committed tables commits exactly what its operation does alone. |
| WalletInterleaving.OthersStayCurrent | rust-api/src/wallet_store.rs:67-83 | A commit leaves valid everything that another open transaction has read under a lock or a reservation. |
| WalletInterleaving.EveryRunIsSerial | rust-api/src/wallet_store.rs:64-238 | Serializability: for every interleaving of statements, commits and rollbacks, the committed tables and all replies are those of the committed operations run one after the other in commit order, and the tables are sound. |
| WalletGuarantees.BalancesReconcile | rust-api/src/wallet_store.rs:57-84 | In every committed state of every interleaving each balance is non-negative, fits 64 bits and equals the signed sum of its user's entries. |
| WalletGuarantees.EntriesCarryPrefixSums | rust-api/src/wallet_store.rs:72-77 | Each committed entry carries the prefix sum of its user at its place, and its source finds it alone. |
| WalletGuarantees.CommittedPostingStands | rust-api/src/wallet_store.rs:64-104 | No lost update: the entry a committed posting asked for, with the balance it reported, is in the ledger for good. |
| WalletGuarantees.LedgerHasNoOtherEntries | rust-api/src/wallet_store.rs:72-84 | The ledger grows by exactly one entry for each committed posting and by nothing else. |
| WalletGuarantees.AtMostOncePerSlot | rust-api/src/wallet_store.rs:95-200 | Over a whole interleaved run no two committed operations share a slot: one order per checkout key, one credit per claim key, one approval and one refund per deposit, one lease and one result per outbox row. |
| WalletGuarantees.DepositContributesItsWorth | rust-api/src/wallet_store.rs:172-204 | In every committed state a deposit contributes nothing while pending, exactly amount minus fee once approved, and nothing once refunded. |
| WalletGuarantees.OrderHasOneDebitAndOneRow | rust-api/src/wallet_store.rs:160-166 | Every member order has exactly one debit, of its price on its owner, and one outbox row with that product and price. |
| WalletGuarantees.RepeatedCreditAnswersTheSame | rust-api/src/wallet_store.rs:89-94 | A committed idempotent credit answers every later repetition with the same balance and no effect, and refuses any other digest. |
| WalletGuarantees.RepeatedCheckoutChangesNothing | rust-api/src/wallet_store.rs:148-150 | A repeated checkout key changes nothing, whatever else ran since: the same digest is acknowledged, any other refused. |
| WalletGuarantees.SentRowIsFinal | rust-api/src/wallet_store.rs:124-135 | A sent outbox row keeps its one result and its one lease through the rest of any run. |
| WalletGuarantees.StockPlusOrdersIsConstant | rust-api/src/wallet_store.rs:226-233 | Stock plus guest orders of a limited product is constant over every interleaving, and stock never goes negative. |
| WalletTerms.TermsExactly | rust-api/src/wallet_store.rs:64-238 | On sound tables an operation goes through if and only if its conditions hold, and then it writes exactly its entry, rows and reply, each in full, and nothing else. |
| WalletTerms.OtherwiseExactly | rust-api/src/wallet_store.rs:64-238 | An operation that changes nothing answers with exactly the refusal, or the replay of an earlier commit, that its arguments and the tables call for. |
| WalletTerms.CommittedOnTerms | rust-api/src/wallet_store.rs:64-238 | In every interleaving each committed operation met its conditions in the serial state at its commit, and wrote and answered exactly its terms. |
| WalletTerms.CheckoutsPayACommittedPrice | rust-api/src/wallet_store.rs:151-163 | In every interleaving the order and the debit of a committed checkout carry the price that the column of its member level had for its product in some committed state no later than its commit, and that price is positive. |
| WalletReplies.QuitIsSerial | rust-api/src/wallet_store.rs:64-238 | A transaction that replays or refuses tells its caller what the operation tells alone at that moment, and alone it changes nothing either, if what it was told is still true. |
| WalletReplies.QuittersAnswerExactly | rust-api/src/wallet_store.rs:64-238 | In every interleaving, when the answer comes that ends a transaction without a commit: its reply is the one of its operation alone at that moment if and only if it was not overtaken, that is, unless it asked for an earlier commit of the same request, found none, and there is one now (with the same digest, or for a checkout also with too little balance left). |
| WalletReplies.RefusedAtOnce | rust-api/src/wallet_store.rs:64-238 | An operation refused on its arguments is refused alone, too. |
| WalletReplies.IdempotentCreditAnswersExactly | rust-api/src/wallet_store.rs:89-104 | In every state of every interleaving, however long it has waited, an idempotent credit about to end without a commit gives the reply of the credit alone at that moment if and only if it did not miss the claim of the same credit committed since. |
| WalletReplies.RacingCreditIsRefused | rust-api/src/wallet_store.rs:89-96 | Two requests for one credit both find no claim; the second is refused although alone it would be answered with the balance. |
| WalletReplies.RacingCheckoutIsRefused | rust-api/src/wallet_store.rs:145-166 | Two requests for one checkout both find no order; the second is refused although alone it would be acknowledged. |
| SettlementStore.Store.ApplyFinancialWebhook | rust-api/src/wallet_store.rs:561-590 | A callback has the specified effect and verdict. Applied, it records the status with the refund flag set exactly for a failure; a failure credits the amount, a success after it debits it, a first success moves no money; a success whose points source is free awards, once, the multiple of 100 points p with 100 p <= amount < 100 (p + 100); nothing else changes. A replay repeats the status. Otherwise nothing changes. |
| SettlementStore.Store.ClaimReward | rust-api/src/wallet_store.rs:356-379 | Which of its refusals a claim reports, in which case each; granted to an active member whose points cover the price it takes one from the stock and the price from the points and writes one row; otherwise nothing changes. |
| SettlementStore.Store.RefundRewardClaim | rust-api/src/wallet_store.rs:381-398 | Missing exactly without a redemption of this user under the key, a replay exactly when its reward has a row under the refund key; going through, it gives the stock and the points of one such redemption back and writes one row; otherwise nothing changes. |
| SettlementStore.Store.CreateReward | rust-api/src/wallet_store.rs:351-354 | A new reward is active, has the next number and the given price and stock; a price that is not positive or a stock out of range is refused. |
| SettlementStore.Store.RemoveReward | rust-api/src/wallet_store.rs:400-408 | A reward is removed only if no row of the point ledger names it. |
| SettlementGuarantees.SettlementHolds | rust-api/src/wallet_store.rs:561-590 | After any run of callbacks and other operations in which nobody intrudes on the key: the net wallet effect is the amount while the status is failed and zero otherwise, the refund flag holds exactly when failed, and points are awarded once, exactly for a success, a hundred for each full ten thousand of the amount. |
| SettlementSpec.PointsAreFair | rust-api/src/wallet_store.rs:576 | The points of an amount are the one multiple p of 100 with 100 p <= amount < 100 (p + 100). |
| SettlementKeys.EventSettlesExactly | rust-api/src/wallet_store.rs:561-610 | Whatever the key, the books and the event: the event keeps a settled key settled if and only if it does not intrude, that is, it is no callback about another purchase and takes none of the key's sources for somebody else. |
| SettlementKeys.RunSettlesExactly | rust-api/src/wallet_store.rs:561-610 | A key stays settled throughout a run if and only if no event of the run intrudes on it. |
| SettlementKeys.ApartIsUndisturbed | rust-api/src/wallet_store.rs:570-578 | Callbacks of the key that tell its purchase, callbacks whose keys are spelled otherwise, and operations under other sources never intrude. |
| SettlementKeys.AcceptsExactly | rust-api/src/wallet_store.rs:561-590 | On any books a callback is applied if and only if its guards hold: it is well-formed, and its posting and its points fit. |
| WalletPostings.PostsExactly | rust-api/src/wallet_store.rs:64-219 | A wallet operation takes its ledger source if and only if its guards hold before it runs. |
| SettlementGuarantees.ReplaysExactly | rust-api/src/wallet_store.rs:562-569 | On any books a callback is a replay if and only if it is well-formed and repeats the status; unless it is applied nothing changes. |
| SettlementGuarantees.FirstFailureAppliesExactly | rust-api/src/wallet_store.rs:572 | On any books a first failure credits the amount and sets the flag if and only if it is well-formed, the user exists, the credit fits and its source is free. |
| SettlementGuarantees.CorrectionAppliesExactly | rust-api/src/wallet_store.rs:570-583 | On any books a success after a failure takes the amount back if and only if the user exists, the balance covers it, its source is free and the points fit. |
| SettlementGuarantees.FirstSuccessAppliesExactly | rust-api/src/wallet_store.rs:573-583 | A first success moves no money and is applied if and only if its points fit. |
| SettlementGuarantees.SuccessAwardsExactly | rust-api/src/wallet_store.rs:575-583 | An applied success awards its points if and only if there are any and its points source is not taken. |
| SettlementGuarantees.WhenMoneyMoves | rust-api/src/wallet_store.rs:568-584 | On a settled key only the wallet and the points can refuse a first failure or a correction; a repeated status is a replay and a failure after a success a conflict. |
| SettlementGuarantees.SuccessIsFinal | rust-api/src/wallet_store.rs:568-574 | Once a key succeeded no callback for it changes anything. |
| SettlementGuarantees.SuccessStays | rust-api/src/wallet_store.rs:568-574 | A key that succeeded stays so, unrefunded, through any run. |
| SettlementGuarantees.CallbackKeepsWalletSound | rust-api/src/wallet_store.rs:592-610 | Callbacks keep the wallet's whole invariant. |
| SettlementGuarantees.CollidingKeysConflict | rust-api/src/wallet_store.rs:572 | Of two callback keys that share their sources, the first failure of the one makes the first failure of the other fail. |
| SettlementGuarantees.CollidingSuccessAwardsNothing | rust-api/src/wallet_store.rs:576-582 | Of two such keys the second success is applied without its points. |
| SettlementGuarantees.TakenSourceRefuses | rust-api/src/wallet_store.rs:570-572 | A first failure or a correction whose source is taken, by whomever, fails and changes nothing. |
| SettlementGuarantees.PostingTakesItsSource | rust-api/src/wallet_store.rs:64-84 | A posting under a callback's source takes it. |
| SettlementGuarantees.OtherAmountLeavesADifference | rust-api/src/wallet_store.rs:570 | A correction for another amount than the failure's leaves the difference on the wallet. |
| SettlementGuarantees.CollidingKeysExist | rust-api/src/wallet_store.rs:572 | Such keys exist, with a colon in a provider name. |
| SettlementRuns.SourcesDiffer | rust-api/src/wallet_store.rs:570-578 | Two callback keys share each kind of source exactly when provider and reference join to the same text; refund and correction sources always differ. |
| SettlementRuns.KeysCollideExactly | rust-api/src/wallet_store.rs:570-578 | Two keys are spelled alike if and only if they are the same or one provider is the other with a colon and the beginning of its reference added; among colon-free providers never. |
| SettlementGuarantees.PointsAndStockAreConserved | rust-api/src/wallet_store.rs:356-398 | Over any run a user's points move exactly with awards and point-ledger rows, stock plus claims minus refunds of a reward is constant, and neither goes negative. |
| SettlementGuarantees.ClaimsAndRefundsPairUp | rust-api/src/wallet_store.rs:363-395 | A key claims a reward at most once; a refund row belongs to exactly one claim, gives back exactly its points, and is that claim's only refund. |
| SettlementGuarantees.RefundGoesThroughExactly | rust-api/src/wallet_store.rs:384-397 | The refund of a claim goes through if and only if no row of the reward has the claim's refund key and neither counter is at its limit. |
| SettlementGuarantees.WhatBlocksARefund | rust-api/src/wallet_store.rs:387-390 | A row with the refund key is the claim's own refund or somebody's claim under that key. |
| SettlementGuarantees.ClaimUnderARefundKeyBlocks | rust-api/src/wallet_store.rs:387-390 | After claims under `k` and `refund:k` the unrefunded first claim is answered as already refunded. |
| RewardInterleaving.ClaimIsSerial | rust-api/src/wallet_store.rs:360-378 | A claim that reaches its commit through its locks is granted and writes exactly what the claim writes when it runs alone at that moment. |
| RewardInterleaving.RefundIsSerial | rust-api/src/wallet_store.rs:381-398 | A refund that reaches its commit through the locks on the claim, the reward and the user writes, from the values it read there, exactly what the refund writes when it runs alone at that moment; refused by the unique key it writes nothing. |
| RewardInterleaving.RefundsNeverCollide | rust-api/src/wallet_store.rs:384-391 | Whenever a refund that found no earlier one is refused by the unique key, the row in its way is a claim: two refunds of one claim never meet there. |
| RewardInterleaving.EveryRunIsSerial | rust-api/src/wallet_store.rs:356-398 | Under every interleaving of the statements of claims and refunds with callbacks, reward edits and wallet operations the books are those of the committed events run one after the other. |
| RewardInterleaving.InterleavingConserves | rust-api/src/wallet_store.rs:356-398 | So points and stock are conserved, and stay non-negative, however claims and refunds interleave. |
| SliderStore.Renumber | rust-api/src/wallet_store.rs:329-331 | The renumbering loop gives the selected rows their positions, changes nothing else, and never violates the unique index on active places. |
| SliderStore.Store.CreateSlider | rust-api/src/wallet_store.rs:311-320 | A created slider is active at revision 1, shown exactly if it is to be published, and appended to the list of active ones at the place it reports; no other row changes; at a list of 2^31 the place wraps and the rows no longer number the list; without the schema nothing happens. |
| SliderStore.Store.ArchiveSlider | rust-api/src/wallet_store.rs:322-334 | A slider is archived exactly when it is listed and its revision is current and can be raised: it is hidden at the next revision, the others keep their order, change nothing but their places and report them; otherwise nothing changes. |
| SliderStore.Store.RestoreSlider | rust-api/src/wallet_store.rs:336-345 | A slider is restored exactly when it is archived and the revision is current: hidden, at the next revision, at the place it reports, with no other row changed; at a list of 2^31 the place wraps; otherwise nothing changes. |
| SliderSpec.CreateAppends | rust-api/src/wallet_store.rs:314-316 | Below 2^31 active sliders a new one extends the list at its end, at the free place n. |
| SliderSpec.CreateWrapsWhenFull | rust-api/src/wallet_store.rs:314-316 | With 2^31 active sliders the truncated place is negative and the rows no longer number the list. |
| SliderSpec.RestoreWrapsWhenFull | rust-api/src/wallet_store.rs:336-345 | So does restoring one. |
| SliderSpec.ArchiveRemoves | rust-api/src/wallet_store.rs:322-334 | With the current revision archiving leaves exactly the rest of the list, renumbered and with the revision raised; otherwise the table is unchanged. |
| SliderSpec.RestoreAppends | rust-api/src/wallet_store.rs:336-345 | With the current revision restoring extends the list at its end; otherwise the table is unchanged. |
| SliderSpec.LoopNeverCollides | rust-api/src/wallet_store.rs:328-331 | At each step of the loop the place about to be given is free among the active rows. |
| SliderSpec.StepFollowsExactly | rust-api/src/wallet_store.rs:311-345 | An operation on rows that number a list does to them what it does to the list if and only if the place it gives fits the column. |
| SliderSpec.RunFollowsExactly | rust-api/src/wallet_store.rs:311-345 | From any such rows and over any run the places of the active sliders stay exactly 0 to n - 1, in the order of the list that appends and removals build, if and only if no append meets a list of 2^31. |
| SliderSpec.PlacesFollowTheList | rust-api/src/wallet_store.rs:311-345 | In particular from an empty table. |
| RateLimiter.Limiter.RateLimit | rust-api/src/wallet_store.rs:507-524 | A call under a block is denied for the rest of its time and changes nothing; another one is counted, admitted exactly within the limit for the rest of the counter's time and at least a second, and otherwise denied for the length of the block it starts; it touches no cell but its two. |
| RateLimiter.OnceIsTold | rust-api/src/wallet_store.rs:510-523 | The same of the call as a function on the store: which answer, with how many seconds, and what the counter and the block are afterwards. |
| RateLimiter.OnceIsARun | rust-api/src/wallet_store.rs:512-523 | An uninterrupted call is the sequence of its commands in the concurrent model, and it allows exactly when that run admits. |
| RateLimiter.RunShows | rust-api/src/wallet_store.rs:507-524 | In every run over the shared store in which nobody else touches its cells, the callers of one namespace and key see a run of their own machine. |
| RateLane.OneLifeAdmitsAtMostTheLimit | rust-api/src/wallet_store.rs:514-521 | Under every interleaving of its calls a counter admits at most `limit` of them in its life. |
| RateWindow.WindowAdmitsAtMostTwiceTheLimit | rust-api/src/wallet_store.rs:514-521 | Over the shared store, a half-open interval of one window's length sees at most twice the limit of a key whose counter nobody else works on, whatever becomes of its block. |
| RateWindow.BoundIsKeptExactly | rust-api/src/wallet_store.rs:510-521 | All runs of the calls of two pairs, the one under any one configuration and the other under any at all, keep that bound for the one if and only if they are the same pair or neither the counter nor the block of the other is its counter. |
| RateWindow.BoundIsKeptExactlyByName | rust-api/src/wallet_store.rs:510-511 | The same condition in terms of namespaces and keys. |
| RateLimiter.NobodyEntersABlock | rust-api/src/wallet_store.rs:512-520 | Once such a key is blocked, no call that starts before the end of the block is ever admitted; each admission of another is of a call that had passed the check before, and there are no more of them than such calls. |
| RateFailures.AdmittedDuringABlock | rust-api/src/wallet_store.rs:512-520 | A run in which a call that had passed the check is admitted while the block stands. |
| RateBlocks.StandingBlockAdmitsExactly | rust-api/src/wallet_store.rs:512-520 | In every reachable state a block that stands sees another admission before its end, in some continuation, if and only if the limit is positive, a call has passed the check, and the counter is gone, has room, expires in time or can still get an expiry that comes in time. |
| RateKeys.CountersCollideExactly | rust-api/src/wallet_store.rs:510 | Two pairs of namespace and key count in one cell if and only if they are equal or one namespace continues the other with the beginning of its key, past the mark or into it. |
| RateKeys.CellsAreSharedExactly | rust-api/src/wallet_store.rs:510-511 | Two pairs have any cell in common if and only if they collide so, or one collides with the other's key with `:block` added. |
| RateKeys.OneNamespaceSharesExactly | rust-api/src/wallet_store.rs:510-511 | Within one namespace only a key and the same key with `:block` added share a cell. |
| RateKeys.NamespacesCanCollide | rust-api/src/wallet_store.rs:510 | Keys of different namespaces with one counter exist, of both kinds. |
| RateFailures.OneCallBlocksAnotherKey | rust-api/src/wallet_store.rs:510-518 | One admitted call on `K:block` blocks `K` for a window though nobody called with `K`. |
| RateFailures.ForeignBlockPassesTheBound | rust-api/src/wallet_store.rs:510-519 | For every two pairs of which the block of one is the counter of the other, the other is admitted three times in a window with limit one. |
| RateFailures.ForeignCounterPassesTheBound | rust-api/src/wallet_store.rs:510-517 | For every two pairs with one counter, across namespaces too, each can be admitted five times in a second with limit two in a hundred. |
| RateLane.LosingTheExpiry | rust-api/src/wallet_store.rs:514-517 | A live counter without expiry becomes one for ever exactly when the only call that owes the expiry is lost. |
| RateLane.LostOnAFreshKey | rust-api/src/wallet_store.rs:513-517 | It happens on a fresh key when its first call is lost after the increment. |
| RateLane.LostExpiryDeniesForever | rust-api/src/wallet_store.rs:514-521 | Such a counter admits what is left of its limit and then denies every call for ever. |
| SessionStore.AuthStore.Login | rust-api/src/postgres_auth.rs:107-169 | An undisturbed login is refused as invalid exactly for an unknown or inactive user, a wrong password or a role that the audience is not for; it is done exactly when otherwise fewer than 2 (staff) or 5 (member) sessions are active, and then adds one active session with the versions of the user row; else nothing changes. |
| SessionStore.AuthStore.RevokeAll | rust-api/src/postgres_auth.rs:171-183 | The active sessions of the user, and no others, are revoked; without any it reports a conflict. |
| SessionStore.AuthStore.Rotate | rust-api/src/postgres_auth.rs:185-203 | A rotation goes through exactly for an active session, its current digest and a generation below the maximum, a wrong digest being invalid credentials; it appends the low byte of the new generation to the digest, remembers the old one and changes nothing else. |
| SessionStore.AuthStore.ChangeRole | rust-api/src/postgres_auth.rs:205-216 | A role change goes through exactly for one of the four roles, a known user and counters below their maximum; it sets the role, raises version and generation by one and revokes exactly the user's active sessions of earlier generations; else nothing changes. |
| SessionStore.AuthStore.Authorize | rust-api/src/postgres_auth.rs:218-223 | Authorization holds exactly for an active session of an active user that has the owner role or the permission, in the current generation. |
| SessionStore.AuthStore.EnrollTwoFactor | rust-api/src/postgres_auth.rs:225-231 | A secret is stored exactly when it has at least 16 bytes and the user has no confirmed factor; nothing else changes. |
| SessionStore.AuthStore.ConfirmTwoFactor | rust-api/src/postgres_auth.rs:233-247 | A factor is confirmed exactly by the expected six digits for a stored secret; that raises the generation by one and revokes exactly the user's active sessions; refused, nothing changes. |
| SessionGuarantees.CommitsAreSerial | rust-api/src/postgres_auth.rs:137-167 | The insert of a login and the write of a rotation do, at their commit, what the whole transaction does alone at that moment. |
| SessionRuns.RevokeAlone | rust-api/src/postgres_auth.rs:171-183 | A revocation whose statement misses no session is the undisturbed one. |
| SessionGuarantees.AuthorizationIsFresh | rust-api/src/postgres_auth.rs:107-247 | In every reachable state a session authorizes if and only if it is entitled and its user row was read after the user's latest role change or factor confirmation. |
| SessionGuarantees.WhatRaisesGeneration | rust-api/src/postgres_auth.rs:205-247 | The security generation of a user goes up exactly on a change to one of the four roles and on a confirmation with the expected six digits for a stored secret. |
| SessionGuarantees.EarlierSessionNeverAuthorizes | rust-api/src/postgres_auth.rs:205-247 | A session that existed when the generation went up never authorizes again, in any continuation. |
| SessionGuarantees.StaleSessionNeverAuthorizes | rust-api/src/postgres_auth.rs:205-247 | Nor does any session opened from a user row that was read before the change. |
| SessionGuarantees.StraddlingLoginNeverAuthorizes | rust-api/src/postgres_auth.rs:113-167 | A login that read the row before a change and inserts after it, with anything in between and afterwards, yields a session that never authorizes. |
| SessionSlots.SlotsHold | rust-api/src/postgres_auth.rs:132-167 | In every reachable state the active sessions of the current generation, and those that authorize, number at most the slots of the current role (2 staff, 5 member); all active ones at most 5. |
| SessionSlots.StraddlingLoginsPassTheStaffLimit | rust-api/src/postgres_auth.rs:113-152 | A run that leaves an administrator with three active sessions, none of the current generation. |
| SessionSlots.EventStaysWithinExactly | rust-api/src/postgres_auth.rs:107-247 | Whatever the event: a user within the slots of the role stays within them if and only if the event is no insert for that user that finds the slots of the present role taken. |
| SessionSlots.SlotsAreKeptExactly | rust-api/src/postgres_auth.rs:107-247 | Over every run the active sessions stay within the slots of the role all along if and only if no login overfills them. |
| SessionSlots.WhatOverfills | rust-api/src/postgres_auth.rs:113-152 | An insert that overfills is of a login of the member audience that read a member's row, outdated since, of a user who is staff now. |
| SessionSlots.ExceededOnlyAfterADemotion | rust-api/src/postgres_auth.rs:113-216 | If slots are exceeded, some login of the member audience read the row of a member, that member was made staff later, and the login's session was inserted after that and is active. |
| SessionSlots.EverySessionWasLoggedIn | rust-api/src/postgres_auth.rs:107-167 | Every session of every reachable state goes back to a login with the right password, of a user who was active and had a role of the session's audience when the login read the row. |
| SessionGuarantees.GenerationCountsRotations | rust-api/src/postgres_auth.rs:196-201 | A session's rotation generation is the number of rotations it went through in the run. |
| SessionGuarantees.RotationsCount | rust-api/src/postgres_auth.rs:196-200 | Each rotation raises the generation by one and lengthens the digest by one, the earlier digest being a proper beginning of the later. |
| SessionGuarantees.ConsumedDigestIsRefused | rust-api/src/postgres_auth.rs:187-195 | Once a session has rotated away from a digest, no interleaving accepts that digest for it again. |
| SessionGuarantees.EachDigestRotatesOnce | rust-api/src/postgres_auth.rs:185-203 | Two rotations of one session in a run present different digests. |
| Coordinator.AuthCoordinator.Install | client/src/auth/coordinator.ts:66-78 | Installing takes the specified step; it throws exactly when disposed or given a token without an order, and then changes nothing. |
| Coordinator.AuthCoordinator.TransitionTerminal | client/src/auth/coordinator.ts:58-61 | A terminal transition drops the credential and takes the specified step. |
| Coordinator.AuthCoordinator.ClearSession | client/src/auth/coordinator.ts:118 | A logout drops the credential and announces the session it ended. |
| Coordinator.AuthCoordinator.LockSession | client/src/auth/coordinator.ts:119 | Locking takes the specified step and leaves credential, generation and operations alone. |
| Coordinator.AuthCoordinator.RefreshOnce | client/src/auth/coordinator.ts:109 | Afterwards an operation is in flight unless disposed; with one in flight already nothing changes. |
| Coordinator.AuthCoordinator.BootstrapSession | client/src/auth/coordinator.ts:110-113 | Bootstrapping starts an operation of its own, beside the one in flight, and keeps the token. |
| Coordinator.AuthCoordinator.Answered | client/src/auth/coordinator.ts:91-105 | A server answer takes the step that `CoordinatorOutcomes` spells out for each code; an overtaken one only ends its operation. |
| Coordinator.AuthCoordinator.Woken | client/src/auth/coordinator.ts:100-101 | After a delay the loop goes round; after a race it starts over without the race; the operation calls again, with the generation it began with. |
| Coordinator.AuthCoordinator.ProactiveTimer | client/src/auth/coordinator.ts:62-65 | The proactive timer fires once and refreshes; otherwise nothing changes. |
| Coordinator.AuthCoordinator.AcceptChannelMessage | client/src/auth/coordinator.ts:120-126 | What each kind of announcement does; none is announced again, and after disposal nothing happens. |
| Coordinator.AuthCoordinator.Dispose | client/src/auth/coordinator.ts:128 | Disposal ends every waiting operation. |
| CoordinatorRefresh.ClassifyAttempt | client/src/auth/coordinator.ts:88-107 | Whatever the server answers, the loop ends within its bound, every call but the last met a retryable failure, at most one of them a race; when the last one failed for want of recovery all attempts were used up, and when it lost a race one had been waited out before. |
| CoordinatorRefresh.PerformRefresh | client/src/auth/coordinator.ts:108 | One refresh makes at most 2 * (backoffs + 1) calls and waits for at most one race, and exactly backoffs + 1 calls if recovery fails every time; a first lost race is followed by another call; it installs exactly a fresh ordered token, ends the session exactly on a code that does, and is superseded exactly when the last call was stale. |
| CoordinatorOutcomes.RecoveryFailure | client/src/auth/coordinator.ts:99-104 | An undisturbed answer that recovery is unavailable ends the operation if and only if its attempts are used up; otherwise the operation waits, shown as offline, and then makes its next call. |
| CoordinatorOutcomes.RaceFailure | client/src/auth/coordinator.ts:99-104 | An undisturbed lost race ends the operation if and only if one was lost before; otherwise the operation waits and calls again from the first attempt on. |
| CoordinatorOutcomes.TerminalFailure | client/src/auth/coordinator.ts:18-102 | Each of the seven codes that end a session drops the credential, ends the operation and is reported unless the session had ended before. |
| CoordinatorOutcomes.OtherFailure | client/src/auth/coordinator.ts:19-104 | Any other failure only ends the operation, and shows as offline exactly without a status or with 500, 502 or 503. |
| CoordinatorOutcomes.Success | client/src/auth/coordinator.ts:92-94 | An undisturbed token with an order is held, shown, watched and announced; one without only ends the operation, as offline. |
| CoordinatorOutcomes.InstallsLocally | client/src/auth/coordinator.ts:66-79 | So is a token installed on purpose, without touching the operations under way. |
| CoordinatorOutcomes.HeardToken | client/src/auth/coordinator.ts:66-122 | An announced token is taken over, and not passed on, if and only if its order is as announced, it is for the session held, accepted and newer. |
| CoordinatorOutcomes.HeardLogout | client/src/auth/coordinator.ts:118-123 | A logout heard from another tab is followed exactly when it is about no session in particular or the one held, and not passed on. |
| CoordinatorOutcomes.HeardRevocation | client/src/auth/coordinator.ts:124 | So is a revocation, which is reported unless the session had ended before. |
| CoordinatorOutcomes.HeardLock | client/src/auth/coordinator.ts:119-125 | A lock heard for the session held is shown and not passed on; any other is ignored. |
| CoordinatorOutcomes.Locks | client/src/auth/coordinator.ts:119 | A lock of one's own shows, stops the timer and is announced on request, if a session is held. |
| CoordinatorOutcomes.LogsOut | client/src/auth/coordinator.ts:118 | A logout drops the credential, shows as unauthenticated and announces the session on request; it never counts as reported. |
| CoordinatorOutcomes.Begins | client/src/auth/coordinator.ts:62-125 | What starts a refresh, and when: one operation with its first call, under the present generation, shown as refreshing; shared unless it is the one at start-up. |
| CoordinatorOutcomes.PatienceOverRuns | client/src/auth/coordinator.ts:88-107 | In every interleaving in which recovery fails undisturbed each time, each such answer costs an operation exactly one of the calls it has left, and nothing else does. |
| CoordinatorOutcomes.RecoveryIsTriedToTheEnd | client/src/auth/coordinator.ts:88-107 | So a refresh that meets only that failure is over if and only if backoffs + 1 calls have been answered. |
| CoordinatorRuns.EveryReachableState | client/src/auth/coordinator.ts:58-79 | After any events, token, session id, order and acceptance stand or fall together, the order is the token's, no refresh exceeds its call and race bounds, and sessions end at most once more often than credentials were installed. |
| CoordinatorRuns.NoResurrection | client/src/auth/coordinator.ts:88-105 | The answer to a refresh that was overtaken by anything that moved the generation only ends that refresh: it installs, drops, shows and reports nothing. |
| CoordinatorRuns.AnswerInstallsExactlyWhenUndisturbed | client/src/auth/coordinator.ts:92-94 | An answer is installed and announced if and only if the generation stood still and it is a token with an order. |
| CoordinatorRuns.WhatSupersedes | client/src/auth/coordinator.ts:58-126 | The generation moves exactly on logouts, terminal revocations, local installations, accepted announcements and decisive answers. |
| CoordinatorRuns.CredentialMovesWithGeneration | client/src/auth/coordinator.ts:58-78 | The credential changes only together with the generation, which moves one step at a time. |
| CoordinatorRuns.AnnouncementsAreConsistent | client/src/auth/coordinator.ts:76 | Every announced token passes the consistency check of the tabs that hear it. |
| CoordinatorRuns.DisposedIsInert | client/src/auth/coordinator.ts:128 | After disposal nothing but a logout has an effect. |
| CoordinatorRuns.OperationsEnd | client/src/auth/coordinator.ts:88-107 | Under every interleaving an operation takes a bounded number of further steps, by a measure on race allowance and remaining recoveries. |
| CoordinatorRuns.RefreshTerminates | client/src/auth/coordinator.ts:88-113 | A refresh is over after at most 4 * backoffs + 4 answers, delays and race waits. |
| CoordinatorRemote.OneAnnouncement | client/src/auth/coordinator.ts:66-78 | An announcement replaces the token exactly when it is consistent, of this session, accepted and strictly newer. |
| CoordinatorRemote.DeliveryKeepsTheNewest | client/src/auth/coordinator.ts:120-122 | After any deliveries the token held is the old one or one that arrived, and none held or arrived is newer. |
| CoordinatorRemote.DeliveriesAgreeOnTheOrder | client/src/auth/coordinator.ts:40 | Deliveries of the same announcements, reordered and repeated at will, end with the same order. |
| CoordinatorRemote.ConvergesExactlyWhenTopsAgree | client/src/auth/coordinator.ts:66-78 | All arrival orders leave the same token if and only if the newest accepted announcements carry the same token. |
| CoordinatorRemote.TiedTokensDiverge | client/src/auth/coordinator.ts:40-78 | Of two newer announcements with equal order and different tokens the first to arrive stays. |
| CoordinatorRemote.TiedTokensExist | client/src/auth/coordinator.ts:40-78 | Two such announcements and a state in which the order of arrival decides. |
| Calendar.ClosedFormCountsYears | client/src/auth/twoFactorEnrollmentClock.ts:71 | The day formula of the standard counts the days of all years between, leap years included. |
| Calendar.MakeDayCounts | client/src/auth/twoFactorEnrollmentClock.ts:71 | The standard's day of a date is the counted one, also past the end of the month. |
| Calendar.DateOfDay | client/src/auth/twoFactorEnrollmentClock.ts:75-79 | Every day number is read back as a valid date with that number. |
| Calendar.DayOfDate | client/src/auth/twoFactorEnrollmentClock.ts:75-79 | Every valid date is read back from its day number. |
| Calendar.ProbeIsValidity | client/src/auth/twoFactorEnrollmentClock.ts:74-79 | Reading a built date back gives the same fields if and only if the day exists in its month. |
| Timestamp.ProbePasses | client/src/auth/twoFactorEnrollmentClock.ts:71-86 | The probe passes if and only if the day exists and the year is not shifted into the twentieth century. |
| Timestamp.MatchesExactly | client/src/auth/twoFactorEnrollmentClock.ts:29-37 | The pattern matches a text if and only if it is a date and time, a fraction of one to three digits or none, and a zone; it captures those parts. |
| Timestamp.ParseAcceptsExactlyMoments | client/src/auth/twoFactorEnrollmentClock.ts:32-89 | The parser accepts exactly the canonical zoned strings, white space around them aside, that name a real date from year 100 on with time and zone in range, and returns the counted milliseconds minus the offset. |
| TimestampText.TrimUndoesPadding | client/src/auth/twoFactorEnrollmentClock.ts:34 | Trimming removes exactly the white space around a text. |
| TimestampText.WrittenMomentsParse | client/src/auth/twoFactorEnrollmentClock.ts:29-89 | Canonically written fields, with `Z` or an offset and with as many places of a second as suffice, padded with any white space, parse to their moment if they name one and are refused otherwise. |
| TimestampText.InstantsRoundTrip | client/src/auth/twoFactorEnrollmentClock.ts:32-89 | Every instant whose local year is 100 to 9999, written in any zone and to any number of places that suffices, parses to itself. |
| EnrollmentClock.OverdueIgnoresTheBrowserClock | client/src/auth/twoFactorEnrollmentClock.ts:95-156 | The overdue gate and the countdown agree, the browser's own clock cancels out, and an unusable server time counts as overdue. |
| EnrollmentClock.WhoIsOverdue | client/src/auth/twoFactorEnrollmentClock.ts:111-140 | Overdue is exactly an owner, admin or cs without an activated factor whose readable deadline has come by the authoritative time, or whose authoritative time is not known; nobody else is ever gated. |
| EnrollmentClock.OneLiveTimeout | client/src/auth/twoFactorEnrollmentClock.ts:249-297 | After any starts, stops, replacements and timeouts, also from inside a tick, at most one timeout is live, of the current generation, with a positive delay of at most a minute. |
| EnrollmentClock.StartCounts | client/src/auth/twoFactorEnrollmentClock.ts:249-281 | A start before the deadline schedules one timeout no later than the deadline; a start after it ticks once and schedules none. |
| EnrollmentClock.TimeoutCounts | client/src/auth/twoFactorEnrollmentClock.ts:263-270 | A due timeout ticks once and goes on only before the deadline, at least a minute nearer to it. |
| EnrollmentClock.CountdownEnds | client/src/auth/twoFactorEnrollmentClock.ts:217-271 | An undisturbed countdown is over after at most one tick a minute and one more; it never spins. |
| EnrollmentClock.DeadlineTimer.ScheduleNext | client/src/auth/twoFactorEnrollmentClock.ts:249-271 | Scheduling takes the specified step and keeps at most one live timeout, of the current generation. |
| EnrollmentClock.DeadlineTimer.StartCountdown | client/src/auth/twoFactorEnrollmentClock.ts:274-297 | Starting and replacing raise the generation and take the specified step. |
| EnrollmentClock.DeadlineTimer.StopCountdown | client/src/auth/twoFactorEnrollmentClock.ts:282-288 | Stopping leaves no timeout pending. |
| EnrollmentClock.DeadlineTimer.Fired | client/src/auth/twoFactorEnrollmentClock.ts:263-270 | A timeout takes the specified step, whatever the tick handler does to the timer, and keeps at most one live timeout. |
| References.Store.AllocateReference | rust-api/src/catalog_store.rs:113-146 | The reference handed out is the next number of the day, unless the method is unknown or the day is used up; refused, counter and allocations stay. |
| References.Store.DeletePaymentMethod | rust-api/src/catalog_store.rs:148-155 | A method is deleted exactly when it exists and no allocation, deposit or guest order refers to it. |
| References.AllocationSucceedsExactly | rust-api/src/catalog_store.rs:125-145 | An allocation succeeds if and only if its method exists and its day has a number left; the insert never conflicts and a refusal leaves the counter. |
| References.RenderIsInjective | rust-api/src/catalog_store.rs:141 | Different days or numbers render different references, in every year. |
| References.WibDayIsTheLocalDay | rust-api/src/catalog_store.rs:118-119 | The day of a moment is its date on a clock seven hours ahead of UTC. |
| References.WibDaySpan | rust-api/src/catalog_store.rs:118-119 | The day lasts from midnight to midnight on that clock. |
| References.ReferenceReads | rust-api/src/catalog_store.rs:118-141 | A reference reads `REF`, then day, month and year of that date and the number, in two, two, four and four digits. |
| References.NumbersAreGapless | rust-api/src/catalog_store.rs:113-155 | After any operations the numbers of a day are exactly 1 to k with k at most 9999, no reference occurs twice, and the methods that allocations, deposits and guest orders name exist. |
| MatrixExecutor.Executor.Body | tools/dev-verification/verify.ts:40-57 | The effects of one check, their order and the reported phase are as specified; it succeeds exactly when all of them do. |
| MatrixExecutor.Executor.One | tools/dev-verification/verify.ts:40-69 | One check with its cleanup is as specified, whether it passed or not; it succeeds exactly when all its effects do. |
| MatrixExecutor.Executor.ExecuteMatrix | tools/dev-verification/verify.ts:34-74 | The executor's loop produces the specified trace and checks, all of which passed exactly when no effect failed. |
| MatrixExecutor.RunFullVerification | tools/dev-verification/verify.ts:105-138 | The full run produces the specified checks and verdict. |
| MatrixGuarantees.EveryTraceIsOrderly | tools/dev-verification/verify.ts:34-74 | For every matrix and failure pattern a command with a host profile runs only under that profile, the database is prepared or reset only under an idle host, and the stopped state is verified only when nothing is up. |
| MatrixGuarantees.ResultsAreAPrefix | tools/dev-verification/verify.ts:70-71 | The checks are the first ones of the matrix in order; all but the last passed, and it failed if the matrix was cut short; exactly a failed one carries a phase. |
| MatrixGuarantees.ChecksPassExactlyWhenEffectsDo | tools/dev-verification/verify.ts:58-71 | All checks passed if and only if no effect in the trace failed. |
| MatrixGuarantees.CommandsFollowTheMatrix | tools/dev-verification/verify.ts:37-71 | Commands are issued once each, in matrix order, and all of them if every check passed. |
| MatrixGuarantees.IsolatedChecksLeaveNothing | tools/dev-verification/verify.ts:60-69 | After an isolated check that passed the host is idle and the last effect was a successful reset. |
| MatrixPlans.BodyFollowsThePlan | tools/dev-verification/verify.ts:40-57 | For each profile, host state and failure pattern the effects of a check are its planned ones in order, cut short after the first that fails. |
| MatrixPlans.CleanupFollows | tools/dev-verification/verify.ts:60-69 | After an isolated check, passed or failed, follow the stop of whatever is up and the reset, the reset only if the stop succeeds. |
| MatrixPlans.IsolatedChecksAlwaysCleanUp | tools/dev-verification/verify.ts:58-69 | Whatever fails, the last effect of an isolated check is a reset under an idle host or a stop that failed. |
| MatrixPlans.MatrixAlwaysCleansUp | tools/dev-verification/verify.ts:34-74 | So it is for the last check that ran of any matrix, if it is isolated. |
| MatrixGuarantees.NothingGoesUnreported | tools/dev-verification/verify.ts:129-132 | The report has the checks that ran, then a failed `cleanup` exactly if an outer stop failed, then every other check of the matrix as not run, and nothing else. |
| MatrixGuarantees.VerifiedExactlyWhenAllWentWell | tools/dev-verification/verify.ts:76-137 | The verdict is verified if and only if both outer stops, every effect and the report's writing succeeded; then every command ran once and in order. |
| MatrixGuarantees.PhaseIsRightExactly | tools/dev-verification/verify.ts:37-70 | A failed check reports the phase of its first failing effect if and only if that effect is neither the preliminary stop of a self-managed check nor part of the cleanup of an isolated one. |
| MatrixGuarantees.ReportedPhaseIsRightExactly | tools/dev-verification/verify.ts:34-74 | Over any matrix the failed check reports the phase of the first failing effect of all, with the same exceptions. |
| MatrixGuarantees.SelfManagedStopFailureIsMisreported | tools/dev-verification/verify.ts:45-46 | A failing preliminary stop of a self-managed check is reported in the running phase. |
| MatrixGuarantees.CleanupFailureIsMisreported | tools/dev-verification/verify.ts:58-70 | So is a stop that fails in the cleanup of an isolated check whose command succeeded. |

## Left out

- Concurrent callbacks and slider changes: a first callback and a slider count lock no row, so their properties are stated for transactions one at a time; two first callbacks for one key running at once are not covered. A callback among concurrent claims is one step.
- Deposit creation, rejection and assignment, product administration other than repricing, and user registration: they happen outside the modelled operations; all runs start from arbitrary tables that satisfy the invariant.
- Deposits whose user or amount is NULL, and outbox payloads that are not JSON: the row decoding and the cast fail before anything is written.
- Debug builds of the Rust code, in which an overflowing `i64` sum panics instead of wrapping.
- Seller callbacks, managed assets, site settings, open API credentials, report snapshots, catalogue caching, notifications and audit redaction in the money store: single-row updates or plumbing.
- The session locking, unlocking, expiry and step-up paths of the other authentication modules, apart from an event that takes a session out of the active state; e-mail normalization; the one-time-password computation and its counter.
- Removal of users between the two halves of a login.
- WalletReplies.QuittersAnswerExactly: the reply is compared with the serial one at the moment the last answer comes; between that and the rollback more may be committed, which is covered for the idempotent credit only.
- Key-store time: seconds are whole, so the rounding of a remaining lifetime below half a second is not modelled; an increment that reaches the integer limit of the store is not either.
- Re-entrant callbacks of the coordinator's dependencies, errors of a closed broadcast channel, code outside the coordinator that clears the token store, the request replay wrapper, and the `deferTerminalInvalid` option, which no caller passes.
- The microtask between a refresh settling and `inFlight` being cleared; collation of token ids beyond it being a total preorder.
- The wording and the day and hour rounding of the countdown message, and the reminder dialog.
- Readings of the clock that are fractions of a millisecond.
- Vendor price rounding, payment categories and methods other than their deletion, and counters of other scopes.
- Concurrent reference allocation: the counter row is locked from its update to the commit, so allocations of one day run one after the other.
- What a failed start leaves of the host: the executor takes it for stopped, and so does the trace. Its own recovery can fail too (`tools/dev-verification/processes.ts:413-428`); the database reset then stops the host itself (`tools/dev-verification/databaseWorkflow.ts:90-91`), which happens inside an effect.
- A dependency of the matrix executor that throws a falsy value, which the executor takes for success; the step runner with one final cleanup; log files, the contents of the report, and a failing status collection or initial report.
- WalletStore.Store.EnqueueProvider: the payload is kept as text and not parsed.
- EnrollmentClock.OverdueIgnoresTheBrowserClock: role and deadline come from one user record; caller-side dismissal is not part of it.
