# Where money is collected, and which payment counts

A Dafny model of the data layer of an Ethereum payment server, with proofs of
the guarantees its comments claim for whole runs. Tables are maps. Each
transaction is a function from tables to tables and an answer, and the
repository classes are proved to compute exactly that function. Runs are
sequences of such steps, and the main results hold in every reachable state.

- **Receiving keys** (`KeyTables`, `KeyCommands`, `KeyRouting`, `KeyAnswers`,
  `WalletRotation`, `WalletRepository`, `AddressReuse`, `WalletLocks`,
  `WalletSerial`, `InvoiceCreation`). Accounts register extended public keys, one derivation
  counter each. A payment method resolves to its pin, else its store's override,
  else the owner's primary wallet. An allocation takes the resolved wallet's
  next index; an invoice watches the address derived from it. Proved: over every
  run no index is issued twice and no address ever serves two invoices; what
  every routing command moves and what it leaves; rotation and its log; and, with
  statements of any number of transactions interleaved, exclusive keys, a single
  primary, freedom from deadlock, and a serial run behind every interleaving.
- **Ledger, cursor and outbox** (`PaymentLedger`, `LedgerHistory`,
  `ConfirmationRace`, `LedgerRepository`, `WebhookOutbox`, `ChainCursor`, `EventConsumer`). Monitor
  events arrive at least once. Proved: one row per transfer and one obligation
  per payment and event type whatever is redelivered; leases that never overlap,
  and a backlog drained by any number of instances in as few claims as possible;
  retraction that is final; and what a consumer that crashes anywhere leaves behind.
- **List queries** (`Like`, `Sql`, `InvoiceQuery`, `PaymentQuery`). Filters are
  compiled to a WHERE clause with positional binds. Proved: the compiled clause
  means the conjunction of the filters, and escaping is exact.
- **Account standing**, **payment volume** and the **watch index**
  (`AccountStanding`, `Sums`, `PaymentVolume`, `WatchKeys`, `WatchIndex`).

`Common`, `Ordered` and `Text` hold shared values. What comes from outside is a
parameter: new identifiers, clock readings, the key derivation (any function that,
within a family, is injective up to letter case), the answers of the chain, the order in which a scan returns keys, and
the trimmed search term. Of the schema, the model takes the unique indexes on
wallets, methods, payments and obligations and the foreign keys of the wallet and
watch tables. An identifier drawn for a new row is new.

## Where the code differs from what is said of it

These statements are false of the code. The model keeps the code, and the exact
condition is proved.

- *Replaying a confirmation is a no-op.* The statement that confirms a payment
  reports not-found when the payment is confirmed already, and the consumer
  halts on that error, although a comment beside the call says it does nothing.
  A crash after the mark and before the cursor commit therefore stops the
  consumer at that event for good. `CrashIsHarmlessIff` says exactly when a crash
  is harmless, `ConfirmationCrash` is a concrete run, and `StuckForever` shows
  that restarting does not help.
- *Deleting a wallet is harmless.* It drops the counter. `DeletionIsSafeIff`:
  indices stay unique afterwards, whatever is done next, exactly when the wallet
  had issued none. `DeletionReusesAnIndex` is a concrete run.
- *Any two writes of a watched address agree on its invoice.* Token rows are
  written by exact spelling and looked up case-insensitively, so a caller that
  passes addresses of its own can have one address credit two invoices
  (`TwoSpellingsTwoInvoices`); `CreditIsUnambiguousIff` gives the condition. Over
  the runs modelled here, where addresses are derived from allocations, it cannot
  happen (`NoAddressServesTwoInvoices`).
- *A watched row's invoice column names the invoice it credits.*
  `InvoiceColumnAgreesIff`: exactly when the row is new or named it already.
  `StaleInvoiceColumn` is a row that does not.
- *Distinct transfers have distinct rows.* `OneRowPerTransferIff`: exactly unless
  a transaction has both the native transfer and a log with the last 32-bit index.
  `TwoTransfersOneRow` is such a history.
- *Confirming a payment by its id leaves retracted rows alone.* Only the lookup
  before it does. `MarkingIsSafeIff` gives the condition, `MarkingARetractedRow`
  a concrete history.
- *A lookup before the mark is enough.* `NeverBothIff`: over histories that
  interleave lookups, marks and everything else, exactly when no retraction of the
  row found falls in between. `RetractedBeforeTheMark` is one where it does. The
  one consumer does nothing in between (`NeverRetractedAndConfirmed`).
- *Successive pages show every row once.* `PagingIsExactIff`: exactly when no two
  selected rows share a time.
- *A key can always be read back.* `RoundTripIff`: exactly when neither address
  nor token holds a colon and the token is not spelled like the native marker.
  `UnreadableKeys` are two that cannot.

## Model

| member | source | states |
|---|---|---|
| KeyTables.ResolutionServes | data-service/src/postgres/wallet.rs:44-53 | the wallet a method resolves to is of the method's family and belongs to its store's owner |
| KeyCommands.UpsertWalletKeepsInv | data-service/src/postgres/wallet.rs:192-227 | registering a key keeps one counter per key, one account per key, one primary per family, and every reference in family and tenancy |
| KeyCommands.CreateWalletKeepsInv | data-service/src/postgres/wallet.rs:358-381 | the same for registration that refuses a key another account holds |
| KeyCommands.SetPrimaryKeepsInv | data-service/src/postgres/wallet.rs:398-444 | demoting and promoting leaves one primary per family |
| KeyCommands.DeleteWalletKeepsInv | data-service/src/postgres/wallet.rs:446-473 | deletion leaves no pin or override dangling |
| KeyCommands.SetStoreWalletKeepsInv | data-service/src/postgres/wallet.rs:475-538 | an override is always to a wallet of the store's owner and the family it is filed under |
| KeyCommands.ClearStoreWalletKeepsInv | data-service/src/postgres/wallet.rs:540-573 | clearing keeps the invariant |
| KeyCommands.CreateMethodKeepsInv | data-service/src/postgres/store_payment_method.rs:187-273 | creation keeps one method per asset of a store and pins only wallets that serve it |
| KeyCommands.UpdateMethodKeepsInv | data-service/src/postgres/store_payment_method.rs:275-323 | re-pinning to a wallet of the owner keeps the invariant; one of another family is refused |
| KeyCommands.ChangeMethodKeepsInv | data-service/src/postgres/store_payment_method.rs:275-323 | with a pasted key the pin is always to a wallet that serves the method, so updates need no condition |
| KeyCommands.NextIndexKeepsInv | data-service/src/postgres/wallet.rs:575-603 | taking an index keeps the invariant, which bounds every counter by its 32-bit limit |
| KeyRouting.SetStoreWalletRoutes | data-service/src/postgres/wallet.rs:475-538 | every method of that store and family resolves to the named wallet, pinned or not; every other resolution is unchanged |
| KeyRouting.ClearStoreWalletRoutes | data-service/src/postgres/wallet.rs:540-573 | those methods resolve to the owner's primary or to nothing; every other is unchanged |
| KeyRouting.SetPrimaryRoutes | data-service/src/postgres/wallet.rs:398-444 | only unpinned methods of the owner's stores without an override in that family move, and they move to the new primary |
| KeyRouting.UpsertWalletRoutes | data-service/src/postgres/wallet.rs:192-227 | registering a key moves no method that had a wallet; the first key of a family serves the methods that had none |
| KeyRouting.DeleteWalletRoutes | data-service/src/postgres/wallet.rs:446-473 | only methods that followed the deleted wallet as primary lose their wallet |
| KeyRouting.CreatedMethodHasAWallet | data-service/src/postgres/store_payment_method.rs:187-273 | a created method resolves: to the owner's own wallet for the pasted key, or unpinned to what the store resolves to |
| KeyRouting.AllocationIsFromTheResolvedWallet | data-service/src/postgres/store_payment_method.rs:339-388 | an allocation returns key, family and pre-increment index of precisely the resolved wallet; one counter moves by one and nothing else changes; it fails only without a wallet or at the limit, changing nothing |
| KeyAnswers.CreateWalletAnswers | data-service/src/postgres/wallet.rs:358-381 | refused exactly when another account holds the key; else the wallet there was, nothing changed, or a new one at index 0, primary exactly when the account had none of the family |
| KeyAnswers.SetPrimaryAnswers | data-service/src/postgres/wallet.rs:398-444 | succeeds exactly on a wallet of the caller; of that account and family it alone is primary then, and no other column or row changes |
| KeyAnswers.DeleteWalletAnswers | data-service/src/postgres/wallet.rs:446-473 | not found, refused as in use exactly when pinned or overridden to, or that row alone removed |
| KeyAnswers.NextIndexAnswers | data-service/src/postgres/wallet.rs:575-603 | the index before the increment, that counter moved by one; an error and no change without the wallet or at the limit of its column |
| KeyAnswers.ResolutionOrder | data-service/src/postgres/store_payment_method.rs:36-61 | the pin decides; without one the override; without that the one primary of the owner, if any |
| KeyAnswers.SetStoreWalletAnswers | data-service/src/postgres/wallet.rs:475-538 | set exactly when store and wallet exist and belong together; that override changes, pins of that store and family are released, nothing else changes |
| KeyAnswers.ClearStoreWalletAnswers | data-service/src/postgres/wallet.rs:540-573 | needs only the store; that override is gone, those pins released, nothing else changes |
| KeyAnswers.CreateMethodAnswers | data-service/src/postgres/store_payment_method.rs:187-273 | refused exactly for an unknown store, a key another account holds, or no key where the store resolves to none; else one row is written, the one for the asset if there was one |
| KeyAnswers.ChangeMethodAnswers | data-service/src/postgres/store_payment_method.rs:275-323 | refused exactly for an unknown method or a key another account holds |
| KeyAnswers.ChangeMethodRoutes | data-service/src/postgres/store_payment_method.rs:275-323 | with a pasted key the method collects on the owner's wallet for it, without one its pin stays; enabled is what was given; every other row stays and resolves as registering the key leaves it |
| KeyAnswers.DeleteMethodAnswers | data-service/src/postgres/store_payment_method.rs:325-337 | not found, or that row gone and every other resolution unchanged |
| WalletRotation.RotateKeepsInv | data-service/src/postgres/wallet_rotation.rs:120-223 | rotation of one method or all keeps the invariant |
| WalletRotation.RotateRoutes | data-service/src/postgres/wallet_rotation.rs:120-223 | where every method ends: the new wallet if rotated or inheriting beside a rotated inheriting one, else where it was |
| WalletRotation.WholeStoreRotation | data-service/src/postgres/wallet_rotation.rs:98-223 | methods of the store and family that have a wallet end on the new one; pinned stays pinned, inheriting stays inheriting; others keep their wallet |
| WalletRotation.RotationMovesNoCounter | data-service/src/postgres/wallet_rotation.rs:120-223 | no existing wallet changes at all, and a new one starts at 0 |
| WalletRotation.RotationLogIsExact | data-service/src/postgres/wallet_rotation.rs:156-282 | the log gains one row for each method that resolved elsewhere, with that wallet's key and counter, in method order, and no other row |
| WalletRotation.RotationLogRows | data-service/src/postgres/wallet_rotation.rs:156-282 | row by row: store, method, the key it leaves and how far that was used, and the new key; for exactly the methods of the store and family that resolved to another wallet, in method order |
| WalletRotation.RotateSomeRoutes | data-service/src/postgres/wallet_rotation.rs:120-223 | rotating some methods: a chosen one with a wallet ends on the new one, a pinned one not chosen and any of another store or family keep theirs |
| WalletRotation.RotateAnswers | data-service/src/postgres/wallet_rotation.rs:120-149 | refused exactly for an unknown store or a key another account holds, changing nothing |
| WalletRotation.RotationRewrites | data-service/src/postgres/wallet_rotation.rs:176-218 | of a method only the pin is rewritten, of the overrides only the one of the store and family, and the log only grows |
| WalletRepository.Repository.ResolveMethod | data-service/src/postgres/store_payment_method.rs:36-61 | the walk pin, override, primary finds the wallet the specification names |
| WalletRepository.Repository.UpsertWallet | data-service/src/postgres/wallet.rs:192-227 | new tables and id are those of the specification; the invariant holds |
| WalletRepository.Repository.CreateWallet | data-service/src/postgres/wallet.rs:358-381 | the same, with the conflict when another account holds the key |
| WalletRepository.Repository.SetPrimaryWallet | data-service/src/postgres/wallet.rs:398-444 | the statements together are the specified change, errors included |
| WalletRepository.Repository.DeleteWallet | data-service/src/postgres/wallet.rs:446-473 | deletes, or refuses when missing or in use, as specified |
| WalletRepository.Repository.SetStoreWallet | data-service/src/postgres/wallet.rs:475-538 | override upserted and pins of the family released, or an error and no change |
| WalletRepository.Repository.ClearStoreWallet | data-service/src/postgres/wallet.rs:540-573 | override removed and pins released, as specified |
| WalletRepository.Repository.NextDerivationIndex | data-service/src/postgres/wallet.rs:575-603 | returns the index before advancing it |
| WalletRepository.Repository.AllocateDerivation | data-service/src/postgres/store_payment_method.rs:339-388 | resolve and advance in one step, as specified |
| WalletRepository.Repository.WalletForStoreXpub | data-service/src/postgres/wallet.rs:241-264 | registers a pasted key for the store's owner, or reports the missing store or the conflict |
| WalletRepository.Repository.CreatePaymentMethod | data-service/src/postgres/store_payment_method.rs:187-273 | upserts the method, pinned to the pasted key's wallet or unpinned when the store resolves to one, else a conflict |
| WalletRepository.Repository.UpdatePaymentMethod | data-service/src/postgres/store_payment_method.rs:275-323 | changes only what is given; a missing method is an error |
| WalletRepository.Repository.DeletePaymentMethod | data-service/src/postgres/store_payment_method.rs:325-337 | removes the row, or reports that there is none |
| WalletRepository.Repository.MethodsToRotate | data-service/src/postgres/wallet_rotation.rs:233-282 | the scan lists, in method order, exactly the methods in scope that derive from another wallet |
| WalletRepository.Repository.MoveMethods | data-service/src/postgres/wallet_rotation.rs:154-218 | the loop logs every listed method, re-pins the pinned ones and finds out whether one inherits |
| WalletRepository.MoveRows | data-service/src/postgres/wallet_rotation.rs:154-218 | the loop itself, on values: pins, log and the override flag after any rows |
| WalletRepository.Repository.RotateMethods | data-service/src/postgres/wallet_rotation.rs:120-223 | the whole transaction is the specified rotation, errors included |
| AddressReuse.RunKeepsGood | data-service/src/postgres/store_payment_method.rs:339-388 | over every run of every command the invariant holds: tables sound, each counter counts its issued indices, each watched row spends an issued index |
| AddressReuse.IssuingSteps | data-service/src/postgres/store_payment_method.rs:339-388 | in a run, taking an index logs the pre-increment index of the wallet, or of the one the method resolves to, and moves that counter alone |
| AddressReuse.WalletSteps | data-service/src/postgres/wallet.rs:192-264 | registering leaves a wallet of the account, family and key; deleting removes the row |
| AddressReuse.RoutingSteps | data-service/src/postgres/wallet.rs:398-573 | promotions and overrides set and cleared reroute the methods they are about |
| AddressReuse.RotationStep | data-service/src/postgres/wallet_rotation.rs:120-223 | a rotation moves the methods in scope to the new wallet |
| AddressReuse.MethodSteps | data-service/src/postgres/store_payment_method.rs:187-337 | methods are added with their pin, re-pinned, and dropped |
| AddressReuse.InvoiceSteps | data-service/src/postgres/invoice_creation.rs:211-237 | an invoice is stored with its options and spends its allocations; a watch is marked or closed |
| AddressReuse.NoIndexIsIssuedTwice | data-service/src/postgres/wallet.rs:575-603 | over every run, no (family, key, index) is issued twice, and a key's issued indices are exactly those below its counter |
| AddressReuse.ReachableResolutionServes | data-service/src/postgres/wallet_rotation.rs:154-218 | family and tenancy of every resolution in every reachable state |
| AddressReuse.NoAddressServesTwoInvoices | data-service/src/postgres/watched_address.rs:18-56 | over every run, an address credited to an invoice is then and ever after credited to no other, on any chain of the family, in any token, under any spelling |
| AddressReuse.NoAddressIsWatchedTwice | data-service/src/postgres/invoice_creation.rs:116-237 | in every reachable state no two watched rows of a family have addresses equal up to case |
| AddressReuse.RowStaysForever | data-service/src/postgres/invoice_creation.rs:116-207 | through every run a watched row stays, for the same payment option, which stays as it is |
| AddressReuse.NoWatchedAddressIsReassigned | data-service/src/postgres/invoice_creation.rs:116-237 | after any run, creating an invoice changes no watched row there was; its addresses are new to the family and distinct, whatever the token or spelling |
| AddressReuse.BillHitsNothing | data-service/src/postgres/invoice_creation.rs:116-237 | freshly derived addresses equal no watched address of the family up to case, under any token, and no other option's |
| AddressReuse.DeletionIsSafeIff | data-service/src/postgres/wallet.rs:446-473 | after a deletion, all continuations stay free of reuse exactly when the wallet had issued nothing |
| AddressReuse.ReRegister | data-service/src/postgres/wallet.rs:192-227 | the continuation that issues index 0 of a deleted key again |
| AddressReuse.DeletionReusesAnIndex | data-service/src/postgres/wallet.rs:446-473 | a concrete run from the empty database that gets there |
| WalletLocks.AdvanceKeepsSafe | data-service/src/postgres/wallet.rs:97-180 | one statement of any open transaction keeps what makes concurrent readings trustworthy |
| WalletLocks.CommandsKeepSafe | data-service/src/postgres/wallet.rs:446-473 | deleting an unlocked row or taking an index at any moment keeps it too |
| WalletLocks.AbortKeepsSafe | data-service/src/postgres/wallet.rs:162-180 | so does rolling back any transaction at any point |
| WalletLocks.InterleavingsAreSafe | data-service/src/postgres/wallet.rs:97-227 | under every interleaving no two accounts hold a key, no family has two primaries, no key has two counters |
| WalletLocks.WaitsLeadToARunner | data-service/src/postgres/wallet.rs:97-160 | account lock before key lock: every waiting transaction is at most two waits from one that can run |
| WalletLocks.NoDeadlock | data-service/src/postgres/wallet_rotation.rs:138-149 | in every state no transactions wait in a circle; an open one can run or waits, at most twice removed, for one that can; and each ends after at most five statements |
| WalletSerial.InterleavingsAreSerial | data-service/src/postgres/wallet.rs:97-227 | every interleaving has a serial run of registrations, promotions, index takings and deletions that issues the same indices in the same order and, once no registration is between insert and commit, ends in the same wallets |
| WalletSerial.NoIndexIsTakenTwice | data-service/src/postgres/wallet.rs:575-603 | under every interleaving no index of a key is taken twice, if no wallet that has issued one is deleted |
| WalletSerial.InsertMerges | data-service/src/postgres/wallet.rs:192-227 | under the locks an insert decides the same serially, on what others have inserted and not committed, as on what is committed |
| WalletSerial.PromotionMerges | data-service/src/postgres/wallet.rs:398-444 | the commit of a promotion is the serial promotion, whatever other accounts have in flight |
| InvoiceCreation.RowsAfterWriting | data-service/src/postgres/invoice_creation.rs:116-237 | row by row what the loop leaves: hit rows as some option wrote them, others untouched |
| InvoiceCreation.CreatedInvoiceIsPayable | data-service/src/postgres/watched_address.rs:18-56 | every option has an active, un-notified row that expires with the invoice, and its address credits this invoice |
| InvoiceCreation.CreationTouchesNothingElse | data-service/src/postgres/invoice_creation.rs:61-105 | a row no option hits is exactly as it was |
| InvoiceCreation.CreatedRecords | data-service/src/postgres/invoice_creation.rs:28-58 | exactly the invoice and its options are added, as given |
| InvoiceCreation.CreateRefusedIff | data-service/src/postgres/invoice_creation.rs:211-237 | refused exactly for an invoice id in use, an option id in use or repeated, or an option of an unknown invoice |
| InvoiceCreation.NewRowOnlyWhereNone | data-service/src/postgres/invoice_creation.rs:116-207 | a new watch row appears only for an option no row was there for, as its exact triple |
| InvoiceCreation.NotifiedRows | data-service/src/postgres/watched_address.rs:328-364 | exactly the rows of that address, chain and token, up to case, are marked notified |
| InvoiceCreation.DeactivatedCreditsNothing | data-service/src/postgres/watched_address.rs:366-402 | a deactivated address credits nothing; what any other credits is as it was |
| InvoiceCreation.StatementsAre | data-service/src/postgres/invoice_creation.rs:116-207 | two statements for each option and one more for each native one |
| InvoiceCreation.CreationKeepsReferences | data-service/src/postgres/invoice_creation.rs:28-58 | watch rows keep pointing at stored options |
| InvoiceCreation.CreditIsUnambiguousIff | data-service/src/postgres/watched_address.rs:18-56 | an option credits this invoice only, exactly when no untouched active row that differs by letter case credits another; native options always touch every such row |
| InvoiceCreation.TwoSpellingsTwoInvoices | data-service/src/postgres/invoice_creation.rs:126-147 | concrete tables where one token payment is credited to two invoices |
| InvoiceCreation.InvoiceColumnAgreesIff | data-service/src/postgres/invoice_creation.rs:61-105 | the row's own invoice column names this invoice exactly when the row is new or did already |
| InvoiceCreation.WriteAll | data-service/src/postgres/invoice_creation.rs:211-237 | the loop writes all the options as specified, or nothing comes of it when a statement is refused or lost |
| InvoiceCreation.StaleInvoiceColumn | data-service/src/postgres/invoice_creation.rs:126-147 | concrete tables where a re-pointed row credits the new invoice and names the old |
| InvoiceCreation.InvoiceRepository.CreateInvoiceWithOptions | data-service/src/postgres/invoice_creation.rs:116-237 | succeeds exactly when no statement is refused or lost, counting two for a token option and three for a native one, with the specified tables; otherwise every table is as it was |
| PaymentLedger.TxIndexCollidesIff | evm/src/monitor/events.rs:214-236 | two transfers of a transaction share an index only if one is native and the other the last 32-bit log index; below 2^31 a log index stays non-negative |
| PaymentLedger.UpsertTwice | data-service/src/postgres/payment.rs:289-341 | two sightings of a transfer are one sighting of their merge, under the first's identity |
| PaymentLedger.UpsertedRow | data-service/src/postgres/payment.rs:289-341 | column by column: a first sighting as it is, standing; a later one fills in what it brings and touches neither identity, invoice, amount nor retraction |
| PaymentLedger.RecordedObligation | data-service/src/postgres/payment.rs:693-724 | the obligation of the standing row is there: the old one untouched, or a new one of this invoice, neither claimed nor dispatched; no other changes |
| PaymentLedger.ConfirmedRow | data-service/src/postgres/payment.rs:350-372 | an unconfirmed row of that id gets that time; no other row or column changes |
| PaymentLedger.ConfirmedTransfer | data-service/src/postgres/payment.rs:727-756 | the standing unconfirmed row of the invoice, hash and index is confirmed, and no other |
| PaymentLedger.ReorgedRow | data-service/src/postgres/payment.rs:374-398 | exactly the invoice's standing payments on the chain from the fork on are retracted and unconfirmed |
| PaymentLedger.ReorgedCount | data-service/src/postgres/payment.rs:374-398 | the count is the number of those rows |
| PaymentLedger.RetractedRow | data-service/src/postgres/payment.rs:462-476 | the standing row of that id is retracted and unconfirmed, and no other |
| PaymentLedger.OneByOneIsTheStatement | data-service/src/postgres/payment.rs:374-476 | retracting an invoice's candidates singly in any order equals the one statement, count included |
| LedgerHistory.HistoryIsMirrored | data-service/src/postgres/payment.rs:289-341 | rows and obligations mirror the transfers and event types ever seen, over every history |
| LedgerHistory.OpsDo | data-service/src/postgres/payment.rs:350-476 | in a history, confirmations confirm, leases hold until they run out and deliveries are for good |
| LedgerHistory.OneRowPerTransferIff | data-service/src/postgres/payment.rs:289-341 | over any history with redeliveries there are as many rows as distinct transfers on the chain, exactly unless a transaction has both the native transfer and the last 32-bit log; and then one obligation per distinct event |
| LedgerHistory.TwoTransfersOneRow | evm/src/monitor/events.rs:214-236 | a concrete history of two transfers that leaves one row |
| LedgerHistory.OneRowPerTransfer | evm/src/monitor/events.rs:214-236 | in particular for log indices below 2^31: exactly one row per transfer, one obligation per event, and distinct transfers never share a key |
| LedgerHistory.OneRowOneObligation | data-service/src/postgres/payment.rs:693-724 | exactly one row per key detected and one obligation per key and event type, on that row, whatever claims, dispatches, confirmations and retractions interleave |
| LedgerHistory.RetractionIsFinal | data-service/src/postgres/payment.rs:462-476 | a retracted row stays retracted, under the same id, through every history |
| LedgerHistory.MarkingIsSafeIff | data-service/src/postgres/payment.rs:350-372 | marking by id alone leaves no row both retracted and confirmed exactly when no row of that id is retracted |
| LedgerHistory.MarkingARetractedRow | data-service/src/postgres/payment.rs:350-372 | a concrete history after which marking confirms a retracted row |
| LedgerHistory.NeverRetractedAndConfirmed | data-service/src/postgres/payment.rs:727-756 | with the lookup before the mark, no reachable row is both |
| ConfirmationRace.NeverBothIff | server/src/services/event_consumer/confirmation_handler.rs:87-110 | with lookup and mark as separate steps of any history, no row is ever both retracted and confirmed exactly when no retraction of the row found falls between a lookup and its mark |
| ConfirmationRace.RetractedIff | data-service/src/postgres/payment.rs:374-476 | a row is retracted between two points of a history exactly when one of the operations between retracts it |
| ConfirmationRace.RetractedBeforeTheMark | server/src/services/event_consumer/confirmation_handler.rs:87-110 | a concrete history where it does and the row ends both |
| LedgerRepository.Repository.UpsertPaymentRow | data-service/src/postgres/payment.rs:289-341 | insert or column-wise merge, returning the id of the row that stands |
| LedgerRepository.Repository.UpsertWithTxIndexAndObligation | data-service/src/postgres/payment.rs:693-724 | row and obligation together; an obligation there already is left as it is |
| LedgerRepository.Repository.MarkConfirmed | data-service/src/postgres/payment.rs:350-372 | confirms an unconfirmed payment, or reports not-found and changes nothing |
| LedgerRepository.Repository.MarkReorged | data-service/src/postgres/payment.rs:374-398 | retracts exactly the invoice's standing payments from the fork on, and counts them |
| LedgerRepository.Repository.MarkPaymentReorged | data-service/src/postgres/payment.rs:462-476 | retracts one payment, if it stands |
| LedgerRepository.SelectOldest | data-service/src/postgres/webhook_outbox.rs:28-37 | the selection is of claimable rows, as many as the limit or all, none older left out |
| LedgerRepository.Repository.ClaimUndispatchedObligations | data-service/src/postgres/webhook_outbox.rs:15-63 | leases exactly the selected rows for the given time |
| LedgerRepository.Repository.MarkObligationDispatched | data-service/src/postgres/webhook_outbox.rs:68-76 | marks the named obligation and no other |
| WebhookOutbox.LeasesNeverOverlap | data-service/src/postgres/webhook_outbox.rs:15-63 | over every run of concurrent claims, a row is in two claims only if the later began strictly after the earlier lease ended; claims in progress are disjoint |
| WebhookOutbox.DispatchedIsNeverClaimed | data-service/src/postgres/webhook_outbox.rs:28-37 | a dispatched obligation is in no claim returned from then on |
| WebhookOutbox.DispatchedRow | data-service/src/postgres/webhook_outbox.rs:68-76 | the named obligation is marked and never claimable again; every other is unchanged |
| WebhookOutbox.LeasedRow | data-service/src/postgres/webhook_outbox.rs:39-43 | exactly the rows named are leased, claimable again exactly after the lease ends |
| WebhookOutbox.OldestGoesFirst | data-service/src/postgres/webhook_outbox.rs:28-37 | an eligible row older than all others is in any claim that takes something |
| WebhookOutbox.RecordIsAdd | data-service/src/postgres/payment.rs:693-724 | recording a payment that owes a new notice adds an obligation free for any claim |
| WebhookOutbox.ClaimLasts | data-service/src/postgres/webhook_outbox.rs:15-63 | a claim picked at t for v seconds locks its rows, and returned leaves them claimable exactly after t + v |
| WebhookOutbox.DoneIsForGood | data-service/src/postgres/webhook_outbox.rs:68-76 | in a run, a dispatched row is claimable at no time, and no other row changes |
| WebhookOutbox.PickTakes | data-service/src/postgres/webhook_outbox.rs:28-37 | a pick takes the limit or everything of what nobody has claimed, whatever other claims are open, leased or under way |
| WebhookOutbox.UnclaimedAfter | data-service/src/postgres/webhook_outbox.rs:15-63 | over every run of any number of claimants, the rows not yet claimed number the backlog less a full batch per claim begun |
| WebhookOutbox.DrainsInCeilingClaims | server/src/services/webhook_outbox_drain.rs:159-180 | however picks, returns and dispatches of any number of instances interleave, once all are settled nothing is due exactly when at least ceil(n / limit) claims were begun |
| ChainCursor.StoredIs | data-service/src/postgres/chain_cursor.rs:42-82 | after any commits, what is stored is the first with the greatest position in the last lineage |
| ChainCursor.LaggingWritersCommute | data-service/src/postgres/chain_cursor.rs:48-68 | within a lineage any reordering or repetition of commits stores the same epoch and position |
| ChainCursor.NeverMovesBack | data-service/src/postgres/chain_cursor.rs:48-68 | the epoch is the commit's; within an epoch the position is the greater of the two |
| ChainCursor.CursorRepository.CommitChainCursor | data-service/src/postgres/chain_cursor.rs:42-82 | overwrites on a new lineage or a later position, touches no other cursor, and says whether it wrote |
| ChainCursor.CursorRepository.DeleteChainCursor | data-service/src/postgres/chain_cursor.rs:84-92 | removes that cursor only |
| EventConsumer.DetectTwice | server/src/services/event_consumer/payment_handler.rs:51-325 | two attempts at a detection equal one attempt with the first's identity and the last quote known |
| EventConsumer.DetectedOnce | server/src/services/event_consumer/payment_handler.rs:236-302 | a new transfer is recorded with the event's invoice, amount, block and time, standing and unconfirmed, and owes a notice; a known one keeps identity, invoice, amount and retraction |
| EventConsumer.ConfirmedOnce | server/src/services/event_consumer/confirmation_handler.rs:73-112 | the standing row the transfer names is confirmed at the event's time, and no other |
| EventConsumer.ReorgedOnce | server/src/services/event_consumer/reorg_handler.rs:44-150 | retracted are exactly the standing payments on the chain from the fork on whose transaction did not survive, and none when survival could not be checked |
| EventConsumer.FailsExactly | server/src/services/event_consumer/confirmation_handler.rs:73-112 | handling fails exactly for a malformed event and for a confirmation whose row is confirmed already |
| EventConsumer.CommitStores | server/src/services/event_consumer/mod.rs:537-594 | a commit stores the event's position and height under the epoch resumed with, for its chain only |
| EventConsumer.ResumesAfterTheLastCommit | server/src/services/event_consumer/mod.rs:399-447 | with cursors spread over chains, resuming starts exactly after the last committed event |
| EventConsumer.MarkedFails | server/src/services/event_consumer/confirmation_handler.rs:73-112 | confirming again what a confirmation has marked is an error |
| EventConsumer.RetractKeepsFaithful | server/src/services/event_consumer/reorg_handler.rs:44-150 | each single retraction of a reorganisation brings it one payment closer to done, wherever it is resumed |
| EventConsumer.ReorgIsThrough | server/src/services/event_consumer/reorg_handler.rs:44-150 | once through, over whatever crashes, every payment is as the one reorganisation leaves it |
| EventConsumer.DrainDoes | server/src/services/webhook_outbox_drain.rs:159-180 | the drain beside the consumer leases and delivers in earnest |
| EventConsumer.CommitKeepsFaithful | server/src/services/event_consumer/mod.rs:537-594 | committing after the event makes it one more event applied once |
| EventConsumer.RunKeepsFaithful | data-service/src/chain_cursor.rs:43-54 | over every run with crashes anywhere, the ledger is that of the committed events applied once, plus the recorded part of the current one |
| EventConsumer.CrashReplayIsExactlyOnce | data-service/src/chain_cursor.rs:43-54 | whenever no event is half applied, and in particular when all are committed, payments and obligations equal one application of each event |
| EventConsumer.FailsIff | server/src/services/event_consumer/confirmation_handler.rs:73-112 | a consumer fails on its next event exactly when one pass would, or it is a confirmation marked by an earlier incarnation |
| EventConsumer.CrashIsHarmlessIff | server/src/services/event_consumer/mod.rs:537-620 | after a crash the event can be applied exactly when the crash was not between a confirmation's mark and its commit |
| EventConsumer.StuckForever | server/src/services/event_consumer/mod.rs:601-630 | once the next event fails, no number of restarts commits another event or changes a payment |
| EventConsumer.MarkedRunIsStuck | server/src/services/event_consumer/confirmation_handler.rs:73-112 | every run that went down with a mark made and not committed is stuck, though one application would succeed |
| EventConsumer.ConfirmationCrash | data-service/src/postgres/payment.rs:364-369 | a concrete run that ends so, though one application would have succeeded |
| Like.EscapeLike | data-service/src/postgres/mod.rs:65-74 | the loop lower-cases the term and quotes each special character |
| Like.SearchPrefixPattern | data-service/src/postgres/mod.rs:78-80 | the pattern matches a text exactly when the lower-cased term is its prefix |
| Like.SearchContainsPattern | data-service/src/postgres/mod.rs:85-87 | the pattern matches a text exactly when the lower-cased term occurs in it |
| Like.EscapedMatches | data-service/src/postgres/mod.rs:65-74 | an escaped text consumes exactly itself, for any text, special characters included, and any pattern after it |
| Sql.CompilationPreservesMeaning | data-service/src/postgres/payment.rs:149-209 | for any list of filters, the numbered conditions under the concatenated binds are the conjunction of the filters, whatever is bound after them |
| Sql.PagingIsExactIff | data-service/src/postgres/invoice.rs:117-130 | reading page after page, at any page size, lists every selected row once and latest first, exactly when no two selected rows share a time |
| Sql.FirstPageIsLatest | data-service/src/postgres/invoice.rs:117-130 | a first page begins with a latest row |
| Sql.TiesBreakPaging | data-service/src/postgres/invoice.rs:117-130 | with any tie, pages the database may answer show a row twice |
| InvoiceQuery.CompiledQueryIsExact | data-service/src/postgres/invoice.rs:43-108 | the clause selects exactly the invoices that satisfy every filter given |
| InvoiceQuery.BuildConditions | data-service/src/postgres/invoice.rs:47-108 | the builder produces the compiled clause and the first free placeholder |
| InvoiceQuery.BindFilters | data-service/src/postgres/invoice.rs:132-160 | the values are bound in the order the clause numbers them |
| InvoiceQuery.InvoiceReader.Query | data-service/src/postgres/invoice.rs:43-208 | count is the number of matching invoices, page the limit/offset slice of a latest-first permutation of them; an empty store list selects nothing |
| PaymentQuery.CompiledQueryIsExact | data-service/src/postgres/payment.rs:145-215 | joined or not, the clause selects exactly the payments that satisfy every filter given |
| PaymentQuery.BuildConditions | data-service/src/postgres/payment.rs:149-209 | the builder produces the compiled clause and the first free placeholder |
| PaymentQuery.BindPaymentFilters | data-service/src/postgres/payment.rs:21-42 | the values are bound in the order the clause numbers them; the confirmation filter binds none |
| PaymentQuery.PaymentReader.Query | data-service/src/postgres/payment.rs:145-266 | count, page and empty store list, as for invoices |
| AccountStanding.HeldIs | data-service/src/postgres/account_standing.rs:14-69 | after any interleaving of pushes, the first push with the greatest version is held, heard when applied or when its version was last repeated |
| AccountStanding.HeardOnlyThen | data-service/src/postgres/account_standing.rs:50-61 | the time of hearing moves only on an applied push or a repeat of the held version |
| AccountStanding.OrderDoesNotMatter | data-service/src/postgres/account_standing.rs:14-69 | if versions determine content, reordering and duplication leave the same standing and the same refusal at any time |
| AccountStanding.DeniedIff | data-service/src/account_standing.rs:74-94 | refused exactly when the first push of the greatest version said no, at any time and for any age limit |
| AccountStanding.DecideIs | data-service/src/account_standing.rs:74-94 | refused with plan and checkout exactly when the held standing is bad; else stale exactly after more than the bound of silence, and unheard when nothing is held |
| AccountStanding.StandingStore.ApplyAccountStanding | data-service/src/postgres/account_standing.rs:14-69 | compare-and-set and touch, the outcome reported, no other account changed |
| PaymentVolume.VolumeIsExact | data-service/src/postgres/payment.rs:552-673 | one bucket per key that occurs, strictly ascending, with sum and number of its payments; an error exactly when some decimals do not fit a byte |
| PaymentVolume.ScopeIs | data-service/src/postgres/payment.rs:578-584 | counted are exactly the standing payments of a named store, at or after the start and before the end |
| PaymentVolume.KeyIs | data-service/src/postgres/payment.rs:572-585 | a key is the UTC day, the asset, the option's decimals or 18, and the store if asked for |
| PaymentVolume.BeforeIs | data-service/src/postgres/payment.rs:585-586 | ascending means by store, then day, then symbol, then decimals |
| PaymentVolume.TotalsAreConserved | data-service/src/postgres/payment.rs:552-673 | both aggregations total the standing payments in the half-open window, each counted once |
| PaymentVolume.StoresAddUp | data-service/src/postgres/payment.rs:615-673 | in the two answers, each overall bucket is the sum of the per-store buckets of its day and asset, in amount and count, and every per-store bucket has an overall one |
| PaymentVolume.RepeatsDoNotCount | data-service/src/postgres/payment.rs:552-577 | the result depends only on which stores are named |
| WatchKeys.RoundTripIff | data-service/src/redis/watched_address.rs:41-69 | parsing a printed key gives back chain, lower-cased address and token exactly when neither holds a colon and the token is not spelled like the native marker |
| WatchKeys.PrintSplits | data-service/src/redis/watched_address.rs:41-49 | the five parts of a printed key, prefix and native marker included |
| WatchKeys.SeparatorIsRefused | data-service/src/redis/watched_address.rs:53-59 | a key whose address or token holds a colon is refused |
| WatchKeys.MarkerReadsAsNative | data-service/src/redis/watched_address.rs:61-68 | a token spelled like the marker reads back as the native asset |
| WatchKeys.UnreadableKeys | data-service/src/redis/watched_address.rs:41-69 | two concrete watches that are not read back |
| WatchKeys.KeysAreInjective | data-service/src/redis/watched_address.rs:41-49 | two printable watches share a key exactly when they differ only by case |
| WatchIndex.AgreedIff | data-service/src/watch_reconciliation.rs:79-93 | nothing is stale or missed exactly when both sides hold the same watches |
| WatchIndex.SpellingNeverSeparates | data-service/src/watch_reconciliation.rs:47-61 | two watches are one exactly when they differ only by case |
| WatchIndex.HistoryIsRepresented | data-service/src/redis/watched_address.rs:152-194 | after any watching and unwatching, the keys stand for exactly the live watches |
| WatchIndex.LastWordCounts | data-service/src/redis/watched_address.rs:152-194 | after the last watch or unwatch of an address, that decides, whatever the spelling, and no other watch changes |
| WatchIndex.ScanShowsTheWatches | data-service/src/redis/watched_address.rs:96-147 | a scan that returns every key, with repeats and strangers, shows exactly the live watches |
| WatchIndex.QuietIff | data-service/src/watch_reconciliation.rs:79-93 | after any history the reconciler is quiet exactly when precisely the live watches are expected |
| WatchIndex.HalfFinishedReassignment | data-service/src/watch_reconciliation.rs:47-93 | a reassignment caught half-way is one missed and one stale watch, and nothing else |
| WatchIndex.LiveIndex.GetAllWatched | data-service/src/redis/watched_address.rs:96-147 | the loop collects the watches of all keys returned, skipping those gone or unreadable |
| WatchIndex.LiveIndex.WatchAddress | data-service/src/redis/watched_address.rs:152-173 | sets that key only; a chain without a number is an error and changes nothing |
| WatchIndex.LiveIndex.UnwatchAddress | data-service/src/redis/watched_address.rs:175-194 | removes that key only and says whether it was there |

## Left out

- Key derivation, base58check and hashing: an arbitrary injective function stands for them.
- Single-method rotation's log as a complete record: an inheriting method rotated alone moves its inheriting siblings through the override, and `RotateRoutes` says so; exactness of the log is stated for whole stores.
- Invoice totals, settlement tolerance and invoice status: decided by a trigger and a service outside these tables. The status write of the reorganisation handler is among them.
- The operator's list of events to skip, and lineage breaks: the consumer is modelled under one epoch and with nothing skipped.
- EventConsumer.CrashReplayIsExactlyOnce: a transaction hash is taken to belong to one chain, because the confirmation lookup does not name the chain.
- PaymentLedger.ConfirmedTransfer: hash and index are taken to name one row, for the same reason.
- WebhookOutbox.DrainsInCeilingClaims: about claimants that lose no claim and dispatch what they were given before its lease runs out, with nothing added meanwhile and no live lease at the start.
- WalletLocks.NoDeadlock: about the account and key locks; the row locks of unrelated statements are not modelled beyond rows being locked while a transaction rewrites them.
- Letter case is folded for ASCII only; other alphabets and the collation of symbols in an ORDER BY are not modelled.
- Deleting a store or an account: its wallets, counters and watched rows go with it by cascade, behind a guard that counts payments, payouts and refunds but not issued addresses, so registering its keys anew starts over at index 0 as after `DeletionReusesAnIndex`. The runs modelled delete neither.
- Redis keys outside the watch prefix, and changes to the index while a scan is under way.
- Negative limits and offsets, which the database refuses.
- Tokens, invites, plugins, settings, payouts, refunds, API keys, telemetry, configuration and HTTP: each would add only easy members.
