# PayWarden wallet ledger in Dafny

PayWarden is a wallet backend. Users sign in with Google and get one wallet each. They can:

- fund the wallet through the Paystack gateway;
- move money to other wallets by wallet number;
- read their balance and a paged transaction history;
- issue API keys with a permission list and an expiry.

This project models the application core of that backend and proves properties of it. The model covers:

- the command and query handlers;
- the request validators;
- the wallet controller's guards;
- the permission filter;
- the global exception middleware.

## Encoding

- **Store.** The database is a value of five tables keyed by Guid (`Store.Tables`): users, wallets, ledger entries (the source's `Transaction`), transfers and API keys.
- **Saving.** `Store.Db` is the unit of work. Its `SaveChanges` either writes a whole change set or returns the error the database would raise:
  - a failure of the server, passed in as `outage`;
  - a concurrency conflict, when an updated wallet's version has moved since it was read;
  - a key or constraint violation, checked by `Store.Schema` against the columns and unique indexes of the initial migration.
- **Rollback.** `Db.Rollback` restores the state a database transaction began in.
- **Handlers.** Each imperative handler is a `method` on a `Db`. Its `ensures` ties the returned result and the new store state to a pure function of the old state; the properties are lemmas about that function. The pure handlers (queries, validators, controller, middleware) are functions.
- **Amounts.** Amounts are `numeric(18,4)`, held as integers in ten-thousandths. Transfer and deposit requests carry their amount as a `decimal` (`RequestAmount.Decimal`). The deposit handler keeps it as a decimal and stores it rounded to four places (`InitiateDeposit.StoredAmount`). The transfer handler takes it in whole ten-thousandths, which is the corrected behaviour of the second row under Findings.
- **Instants.** Instants are integer ticks.
- **Enums.** The `TransactionType` and `TransactionStatus` values follow `paywarden-web/src/types/index.ts:23,25`.
- **Nondeterminism.** Everything nondeterministic is a parameter:
  - fresh Guids and their `N` renderings;
  - the clock;
  - the thirteen `Random.Next(0, 10)` draws;
  - the gateway's replies;
  - the Google token check;
  - the JWT;
  - the generated API key.
- **Consistency.** A store is consistent (`Ledger.Consistent`) when:
  - every balance equals the net of its wallet's settled ledger entries;
  - no balance is negative;
  - every transfer is linked to its two legs.

  The handlers that write are proved to keep this. The deposit handler keeps it only when the stored amount is positive. Neither its validator, which nothing runs, nor the column's rounding guarantees that (see Findings).

## Model

| member | source | states |
|---|---|---|
| TransferFunds.Handle | src/Application/Wallets/Commands/TransferFunds/TransferFundsCommandHandler.cs:26-153 | The result and the new store state are those of `Transfer` applied to the old state: the checks first, each returning before any write, then the database transaction. |
| TransferFunds.Commit | src/Application/Wallets/Commands/TransferFunds/TransferFundsCommandHandler.cs:66-152 | The try block: both saves and the commit change the store as `CommitTransfer` says. On any failure the store is back at the state the transaction began in. A concurrency conflict is reported as the retry message. |
| TransferFunds.CommitFailureRollsBack | src/Application/Wallets/Commands/TransferFunds/TransferFundsCommandHandler.cs:141-152 | Every failure of the transaction leaves the store as the transaction found it, whichever save or the commit it came from. |
| TransferFunds.CommitEffect | src/Application/Wallets/Commands/TransferFunds/TransferFundsCommandHandler.cs:105-125 | A commit that goes through leaves the state of both saves applied to the state the plan was read from. |
| TransferFunds.CommitResult | src/Application/Wallets/Commands/TransferFunds/TransferFundsCommandHandler.cs:130-139 | The result of a successful commit: the transfer reference, both wallet numbers, the amount, the sender's balance less the amount, the clock reading and the description. |
| TransferProperties.CheckTransferAccepts | src/Application/Wallets/Commands/TransferFunds/TransferFundsCommandHandler.cs:29-60 | The checks accept exactly when all of these hold: the caller is signed in; the amount is positive; the caller has a wallet; the number names a different wallet; the balance covers the amount, an equal balance being enough. The plan names those two wallets as read. |
| TransferProperties.TransferRefusals | src/Application/Wallets/Commands/TransferFunds/TransferFundsCommandHandler.cs:29-60 | Each refusal in check order, with its message, including the insufficient-balance message with both amounts formatted to two decimals. None of them writes. |
| TransferProperties.TransferFailureChangesNothing | src/Application/Wallets/Commands/TransferFunds/TransferFundsCommandHandler.cs:141-152 | A transfer that fails for any reason, at any step, leaves the store unchanged. |
| TransferProperties.ConflictIsReportedAsRetry | src/Application/Wallets/Commands/TransferFunds/TransferFundsCommandHandler.cs:141-146 | A concurrency conflict on either save is reported as the "concurrent operation" retry message. |
| TransferProperties.TransferSuccess | src/Application/Wallets/Commands/TransferFunds/TransferFundsCommandHandler.cs:63-139 | A successful transfer passed the checks and changed the store exactly as `TransferEffect` says. Its result carries the reference "TRF_" + the Guid, both numbers, the amount and `NewBalance` = the sender's balance after the debit. |
| TransferProperties.EffectOnBalances | src/Application/Wallets/Commands/TransferFunds/TransferFundsCommandHandler.cs:118-119 | The sender's balance falls by the amount and the recipient's rises by it. Every other wallet is unchanged and no balance is negative. |
| TransferProperties.EffectConservesTotal | src/Application/Wallets/Commands/TransferFunds/TransferFundsCommandHandler.cs:118-119 | The sum of all wallet balances is the same after a transfer. |
| TransferProperties.EffectOnEntries | src/Application/Wallets/Commands/TransferFunds/TransferFundsCommandHandler.cs:63-106 | Exactly two entries are added, both `Success` and for the amount: a `TransferDebit` on the sender and a `TransferCredit` on the recipient. Their references, `_DEBIT` and `_CREDIT`, differ. No other entry changes. |
| TransferProperties.EffectOnTransfers | src/Application/Wallets/Commands/TransferFunds/TransferFundsCommandHandler.cs:71-115 | Exactly one transfer record is added. It carries the reference, sender, receiver, amount, description and clock reading, and its debit and credit ids point at the two new legs. No other transfer record changes. |
| TransferProperties.EffectPreservesConsistency | src/Application/Wallets/Commands/TransferFunds/TransferFundsCommandHandler.cs:83-122 | After a successful transfer, entries stay well formed, every balance still equals its wallet's ledger net, and every transfer is still linked to its legs. |
| TransferProperties.TransferPreservesConsistency | src/Application/Wallets/Commands/TransferFunds/TransferFundsCommandHandler.cs:26-153 | Any run on a consistent store leaves it consistent. On success it conserves the total balance. |
| TransferProperties.TransferSchema | src/Infrastructure/Persistence/Migrations/20251210141931_InitialCreate.cs:237-258 | The state after a successful commit satisfies every column and unique-index constraint, including the unique transfer reference and leg ids. |
| TransferProperties.RacingTransfers | src/Infrastructure/Persistence/Configurations/WalletConfiguration.cs:27-29 | Two transfers planned from one state that share a wallet: once the first is through, the second fails and leaves the first one's state. The shared wallet is moved once per balance reading. |
| TransferProperties.RacingTransferReportsConflict | src/Application/Wallets/Commands/TransferFunds/TransferFundsCommandHandler.cs:141-146 | When its first save has nothing else wrong, the second racing transfer fails with the retry message. |
| TransferProperties.StaleCommitConflicts | src/Application/Wallets/Commands/TransferFunds/TransferFundsCommandHandler.cs:121-122 | A commit whose plan read a wallet at a version the store has moved past is refused by the second save as a concurrency conflict. |
| TransferProperties.EffectMovesVersions | src/Infrastructure/Persistence/Configurations/WalletConfiguration.cs:27-29 | A successful transfer moves the version of both of its wallets. |
| PaystackWebhook.Handle | src/Application/Wallets/Commands/ProcessPaystackWebhook/ProcessPaystackWebhookCommandHandler.cs:28-85 | The result and new state are those of `Settle` on the old state: the event filter, the lookup, the pending gate, then the atomic credit. |
| PaystackWebhook.Commit | src/Application/Wallets/Commands/ProcessPaystackWebhook/ProcessPaystackWebhookCommandHandler.cs:61-83 | The status change and the credit are saved together and committed. On failure the transaction is rolled back to the state it began in and the error is rethrown. |
| WebhookProperties.IgnoredEvents | src/Application/Wallets/Commands/ProcessPaystackWebhook/ProcessPaystackWebhookCommandHandler.cs:28-58 | Each of these is acknowledged with no write: an event other than charge.success; a data status other than success; an unknown reference; an entry no longer `Pending`. |
| WebhookProperties.CheckSettleMeaning | src/Application/Wallets/Commands/ProcessPaystackWebhook/ProcessPaystackWebhookCommandHandler.cs:28-58 | A settlement is picked exactly for a successful charge on a pending entry with that reference. It is that entry and its wallet as stored. |
| WebhookProperties.SettleFailureChangesNothing | src/Application/Wallets/Commands/ProcessPaystackWebhook/ProcessPaystackWebhookCommandHandler.cs:78-83 | Every failed run leaves the store as it was. |
| WebhookProperties.SettleEffect | src/Application/Wallets/Commands/ProcessPaystackWebhook/ProcessPaystackWebhookCommandHandler.cs:61-83 | A run either changes nothing or writes exactly the picked entry, now `Success`, and its wallet, credited with the entry's amount. No other row changes. |
| WebhookProperties.AmountFieldUnused | src/Application/Wallets/Commands/ProcessPaystackWebhook/ProcessPaystackWebhookCommandHandler.cs:69 | Changing the event's own amount field changes nothing about the run: the credit is the stored entry's amount. |
| WebhookProperties.SettleIdempotent | src/Application/Wallets/Commands/ProcessPaystackWebhook/ProcessPaystackWebhookCommandHandler.cs:53-70 | Handling the same event a second time leaves the state the first delivery left, whatever that delivery did. |
| WebhookProperties.SettledEntryIsFound | src/Application/Wallets/Commands/ProcessPaystackWebhook/ProcessPaystackWebhookCommandHandler.cs:42-58 | After a settlement, the reference finds the same entry, now settled, so the gate ignores the event. |
| WebhookProperties.CreditPreservesConsistency | src/Application/Wallets/Commands/ProcessPaystackWebhook/ProcessPaystackWebhookCommandHandler.cs:65-69 | Settling a pending deposit raises its wallet's ledger net by exactly what the credit adds to the balance, so consistency is kept. |
| WebhookProperties.CreditRaisesTotal | src/Application/Wallets/Commands/ProcessPaystackWebhook/ProcessPaystackWebhookCommandHandler.cs:69 | The total of all balances rises by the settled entry's amount. |
| WebhookProperties.SettlePreservesConsistency | src/Application/Wallets/Commands/ProcessPaystackWebhook/ProcessPaystackWebhookCommandHandler.cs:28-85 | Every run keeps a consistent store consistent. |
| WebhookProperties.DuplicateDeliveriesCreditOnce | src/Application/Wallets/Commands/ProcessPaystackWebhook/ProcessPaystackWebhookCommandHandler.cs:53-73 | Two deliveries that both read the entry as pending: once the first commits, the second finds the wallet's version moved and fails, and the first delivery's state stays. The wallet is credited once. |
| InitiateDeposit.Handle | src/Application/Wallets/Commands/InitiateDeposit/InitiateDepositCommandHandler.cs:29-100 | The result and new state are those of `Initiate` on the old state: the checks, then the writes of `Commit`. |
| InitiateDeposit.Commit | src/Application/Wallets/Commands/InitiateDeposit/InitiateDepositCommandHandler.cs:47-99 | The first save of the pending entry, the gateway branches, the second save, and the catch block that marks the entry `Failed` and rethrows. The store ends as `CommitDeposit` says: the entry holds the requested decimal rounded to four places, as its numeric(18,4) column stores it, and the result carries the decimal unrounded. |
| DepositProperties.DepositRefusals | src/Application/Wallets/Commands/InitiateDeposit/InitiateDepositCommandHandler.cs:31-41 | No caller is unauthorized; a missing user row or wallet is "User or wallet not found". Neither writes. |
| DepositProperties.CheckDepositAccepts | src/Application/Wallets/Commands/InitiateDeposit/InitiateDepositCommandHandler.cs:31-41 | The checks pass exactly for an authenticated caller with a user row and a wallet, and name that wallet. |
| DepositProperties.InitiateEffect | src/Application/Wallets/Commands/InitiateDeposit/InitiateDepositCommandHandler.cs:44-95 | A run writes nothing or adds exactly one entry under the new key. It is a `Deposit` on the caller's wallet for the requested amount rounded to four places, with reference "DEP_" + the Guid. It ends `Pending` or `Failed`. |
| DepositProperties.InitiateKeepsBalances | src/Application/Wallets/Commands/InitiateDeposit/InitiateDepositCommandHandler.cs:29-100 | No path changes a wallet, a user, a transfer or an API key. |
| DepositProperties.InitiateSuccess | src/Application/Wallets/Commands/InitiateDeposit/InitiateDepositCommandHandler.cs:47-89 | On gateway success the entry stays `Pending` with the gateway's reference recorded and holds the requested amount rounded to four places. The result carries the local reference, the requested decimal unrounded, and the gateway's URL and access code. |
| DepositProperties.GatewayFailureMarksFailed | src/Application/Wallets/Commands/InitiateDeposit/InitiateDepositCommandHandler.cs:70-99 | A gateway exception, `Status` false or missing `Data` makes the entry end `Failed` with no gateway reference, and the error is rethrown. This holds unless the catch block's save fails. |
| DepositProperties.SecondSaveFailureMarksFailed | src/Application/Wallets/Commands/InitiateDeposit/InitiateDepositCommandHandler.cs:77-99 | If the second save fails, the entry ends `Failed` but keeps the gateway reference the tracked entry still carries. |
| DepositProperties.OverlongGatewayReferenceLeavesPending | src/Application/Wallets/Commands/InitiateDeposit/InitiateDepositCommandHandler.cs:77-95 | A gateway reference longer than the 100-character column fails the second save and then the catch block's save. The error escapes and the entry stays `Pending`. |
| DepositProperties.InitiatePreservesConsistency | src/Application/Wallets/Commands/InitiateDeposit/InitiateDepositCommandHandler.cs:47-60 | When the stored amount is positive, a run keeps a consistent store consistent. |
| DepositProperties.NonPositiveEntryBreaksConsistency | src/Application/Wallets/Commands/InitiateDeposit/InitiateDepositCommandHandler.cs:47-60 | The converse: when the stored amount is zero or less, every successful run writes, and any run that writes leaves a store that is not consistent. |
| DepositProperties.UnvalidatedDepositBreaksConsistency | src/Application/Wallets/Commands/InitiateDeposit/InitiateDepositCommandHandler.cs:47-60 | As written: a request of zero or less, which the validator would refuse, is saved by any run that writes, and every successful run writes. The stored entry's amount is not positive, so the store is no longer consistent. |
| DepositProperties.SubUnitDepositSavesZero | src/Application/Wallets/Commands/InitiateDeposit/InitiateDepositCommandHandler.cs:52 | As written: 0.00004 passes the validator and is stored as 0, so a successful run leaves a store that is not consistent. |
| DepositProperties.HalfUnitDepositRoundsUp | src/Application/Wallets/Commands/InitiateDeposit/InitiateDepositCommandHandler.cs:52 | As written: 0.00005 passes the validator and is stored as 0.0001, a different number. A success reports 0.00005 while the entry holds 0.0001. |
| DepositProperties.PrecisionFailures | src/Application/Wallets/Commands/InitiateDeposit/InitiateDepositCommandHandler.cs:52 | Corrected: the rule the amount needs besides the validator's. It fails exactly when the amount has more than four decimal places. |
| DepositProperties.ValidatedInitiate | src/Application/Wallets/Commands/InitiateDeposit/InitiateDepositCommandValidator.cs:9-13 | Corrected: the handler with its validator and the four-places rule run first. A run that writes has a stored amount in (0, 10,000,000] that denotes the requested number exactly. A success reports the requested amount and passed the validator. |
| DepositProperties.ValidatedInitiatePreservesConsistency | src/Application/Wallets/Commands/InitiateDeposit/InitiateDepositCommandHandler.cs:47-60 | Corrected: with the validator and the four-places rule in front, every run keeps a consistent store consistent, whatever the amount. An amount out of range, or with more than four places, is refused with the rules' failures and writes nothing. |
| DepositProperties.ValidatedInitiateStoresRequestedAmount | src/Application/Wallets/Commands/InitiateDeposit/InitiateDepositCommandHandler.cs:52 | Corrected: with the rules in front, the entry a run writes holds exactly the requested number, and a success reports the requested amount. |
| DepositProperties.InitiatedDepositIsSettleable | src/Application/Wallets/Commands/InitiateDeposit/InitiateDepositCommandHandler.cs:50-54 | Once a deposit is initiated, a successful charge event for its reference settles exactly that entry on the caller's wallet, for the stored amount: the request rounded to four places. |
| GetDepositStatus.GetDepositStatus | src/Application/Wallets/Queries/GetDepositStatus/GetDepositStatusQueryHandler.cs:27-74 | No caller is refused; an unknown reference is "Transaction not found"; another user's entry is refused as unauthorized. Otherwise the report is the stored reference, amount, status and creation time. |
| GetDepositStatus.GatewayStatus | src/Application/Wallets/Queries/GetDepositStatus/GetDepositStatusQueryHandler.cs:48-64 | The gateway's status when it answered with data; "unknown" when it threw, answered `Status` false or sent no data. |
| GetDepositStatus.OwnershipDecides | src/Application/Wallets/Queries/GetDepositStatus/GetDepositStatusQueryHandler.cs:42-45 | An existing entry is refused exactly when its wallet is another user's, and that refusal is unauthorized, not not-found. |
| GetDepositStatus.GatewayNeverFailsTheQuery | src/Application/Wallets/Queries/GetDepositStatus/GetDepositStatusQueryHandler.cs:48-64 | Whatever the gateway does, the outcome is the same except for the gateway status shown. |
| GetDepositStatus.GatewayFailureShowsUnknown | src/Application/Wallets/Queries/GetDepositStatus/GetDepositStatusQueryHandler.cs:60-64 | A gateway failure still gives a successful report, showing "unknown". |
| GetWalletBalance.GetWalletBalance | src/Application/Wallets/Queries/GetWalletBalance/GetWalletBalanceQueryHandler.cs:20-39 | No caller is unauthorized and a caller without a wallet is "Wallet not found for user". Otherwise every field is the stored wallet's. |
| GetWalletBalance.BalanceOfOwnWallet | src/Application/Wallets/Queries/GetWalletBalance/GetWalletBalanceQueryHandler.cs:24-38 | A caller with a wallet always gets that wallet's report. |
| GetWalletBalance.ReportedBalanceIsLedgerNet | src/Application/Wallets/Queries/GetWalletBalance/GetWalletBalanceQueryHandler.cs:36 | On a consistent store the reported balance is non-negative and is the net of the wallet's settled entries. |
| Lookups.WalletOfUserIsTheOnlyMatch | src/Application/Wallets/Queries/GetWalletBalance/GetWalletBalanceQueryHandler.cs:24-25 | With unique owners, any wallet of the user is the one the lookup returns. |
| Lookups.WalletByNumberIsTheOnlyMatch | src/Application/Wallets/Queries/ResolveWalletNumber/ResolveWalletNumberQueryHandler.cs:18-20 | With unique numbers, any wallet carrying exactly that number is the one the lookup returns. |
| Lookups.TransactionByReferenceIsTheOnlyMatch | src/Application/Wallets/Commands/ProcessPaystackWebhook/ProcessPaystackWebhookCommandHandler.cs:42-44 | With unique references, any entry carrying that reference is the one the lookup returns. |
| Lookups.UserByGoogleIdIsTheOnlyMatch | src/Application/Auth/Commands/GoogleLoginCommandHandler.cs:35-36 | With unique Google ids, any user with that Google id is the one the lookup returns. |
| ResolveWalletNumber.Resolve | src/Application/Wallets/Queries/ResolveWalletNumber/ResolveWalletNumberQueryHandler.cs:16-32 | The wallet whose number equals the query exactly, with its owner's name. An unknown number is an error naming that number. |
| ResolveWalletNumber.ResolvesToOwner | src/Application/Wallets/Queries/ResolveWalletNumber/ResolveWalletNumberQueryHandler.cs:27-31 | The name shown is the name of the owner of the one wallet with that number. |
| GetWalletTransactions.ListingRefusals | src/Application/Wallets/Queries/GetWalletTransactions/GetWalletTransactionsQueryHandler.cs:22-31 | No caller is unauthorized, and a caller without a wallet is "Wallet not found for user". |
| GetWalletTransactions.GetWalletTransactions | src/Application/Wallets/Queries/GetWalletTransactions/GetWalletTransactionsQueryHandler.cs:20-62 | The handler fails only with the unauthorized or the not-found exception. A report comes from a signed-in caller, echoes the page number and size, and holds at most a page size of entries. |
| GetWalletTransactions.ListingReport | src/Application/Wallets/Queries/GetWalletTransactions/GetWalletTransactionsQueryHandler.cs:34-61 | The count is that of all the wallet's entries, and the page parameters are echoed. The page has at most pageSize entries, every one the wallet's, newest first. |
| GetWalletTransactions.SortNewestFirst | src/Application/Wallets/Queries/GetWalletTransactions/GetWalletTransactionsQueryHandler.cs:40 | A listing of exactly the given entries, each once, in non-increasing creation time. |
| GetWalletTransactions.NewestFirstIsUnique | src/Application/Wallets/Queries/GetWalletTransactions/GetWalletTransactionsQueryHandler.cs:40 | Two newest-first listings of the same entries are equal: creation time with the id tie-break fixes the order. |
| GetWalletTransactions.HistoryIsDetermined | src/Application/Wallets/Queries/GetWalletTransactions/GetWalletTransactionsQueryHandler.cs:38-40 | The history is the one newest-first listing of the wallet's entries. |
| GetWalletTransactions.SkipTake | src/Application/Wallets/Queries/GetWalletTransactions/GetWalletTransactionsQueryHandler.cs:41-42 | Skip then Take yields the elements at positions skip .. skip+take-1 that exist, in order. |
| GetWalletTransactions.Dtos | src/Application/Wallets/Queries/GetWalletTransactions/GetWalletTransactionsQueryHandler.cs:43-52 | One DTO per listed entry, carrying its id, reference, type and status names, amount, description and creation time. |
| GetWalletTransactions.PageIsSliceOfHistory | src/Application/Wallets/Queries/GetWalletTransactions/GetWalletTransactionsQueryHandler.cs:38-53 | Page p of size s holds the history at positions (p-1)s .. (p-1)s+s-1, as far as those exist. |
| GetWalletTransactions.PagesArePrefix | src/Application/Wallets/Queries/GetWalletTransactions/GetWalletTransactionsQueryHandler.cs:41-42 | The first n pages joined are the first n·s elements of the list. |
| GetWalletTransactions.PagesPartition | src/Application/Wallets/Queries/GetWalletTransactions/GetWalletTransactionsQueryHandler.cs:41-42 | Pages 1 .. TotalPages joined in order are the whole list, and every later page is empty. |
| GetWalletTransactions.ReportedPagesPartitionHistory | src/Application/Wallets/Queries/GetWalletTransactions/GetWalletTransactionsQueryHandler.cs:34-61 | The reported pages of a caller's history partition that history. |
| GetWalletTransactions.OffsetOverflow | src/Application/Wallets/Queries/GetWalletTransactions/GetWalletTransactionsQueryHandler.cs:41 | As written, with a 32-bit product, page 42,949,674 of size 100 starts at entry 4. Page 21,474,838 gets a negative offset and fails. The corrected pages past the end are empty. |
| GetWalletTransactions.OffsetAsWrittenAgrees | src/Application/Wallets/Queries/GetWalletTransactions/GetWalletTransactionsQueryHandler.cs:41 | When (p-1)·s fits in 32 bits, the offset as written is the corrected one. |
| GetWalletTransactions.PageAsWritten | src/Application/Wallets/Queries/GetWalletTransactions/GetWalletTransactionsQueryHandler.cs:38-42 | As written, the query fails exactly when the 32-bit offset is negative, and otherwise returns at most a page size of entries. |
| TransactionList.TotalPages | src/Application/Wallets/Queries/GetWalletTransactions/TransactionListDto.cs:9 | The number of pages is the ceiling of count over size. The pages hold every entry, the last page holds one, and a count of 0 gives 0 pages. |
| TransactionList.TotalPagesIsTheCeiling | src/Application/Wallets/Queries/GetWalletTransactions/TransactionListDto.cs:9 | Any page count that holds every entry and whose last page is not empty equals TotalPages. |
| WalletController.ErrorStatuses | src/WebAPI/Controllers/WalletController.cs:43-105 | The 200, 404, 401 and 500 branches, each an if-and-only-if. A result passes through; 404 is an InvalidOperationException and 401 an UnauthorizedAccessException, each with its own message; anything else is 500 with the endpoint's generic message. |
| WalletController.BalanceStatuses | src/WebAPI/Controllers/WalletController.cs:32-58 | GetBalance answers 401 exactly without a caller, 404 exactly when the caller has no wallet, and 200 otherwise. |
| WalletController.PageGuards | src/WebAPI/Controllers/WalletController.cs:73-81 | A page number below 1 is the first 400, and a size outside 1 .. 100 the second. These are exactly the 400 answers. |
| WalletController.AcceptedPageStatuses | src/WebAPI/Controllers/WalletController.cs:83-105 | Past the guards the answer is 401, 404 or 200. A 200 carries the given page number and size, at most that many entries, and a page count that covers the history. |
| WalletController.DefaultsPassGuards | src/WebAPI/Controllers/WalletController.cs:68 | The defaults 1 and 20 pass the guards and are the query's own defaults. |
| WalletController.GuardsAdmitOverflowingPage | src/WebAPI/Controllers/WalletController.cs:73-84 | The guards let page 42,949,674 of size 100 through, and for it the 32-bit offset as written differs from the intended one. |
| WalletController.Respond | src/WebAPI/Controllers/WalletController.cs:41-57 | The catch blocks: a 200 exactly when the handler returned, and otherwise 401, 404 or 500. |
| WalletController.GetBalance | src/WebAPI/Controllers/WalletController.cs:32-58 | The balance endpoint never answers 400 or 500. A 200 reports a wallet that belongs to the caller. |
| WalletController.GetTransactions | src/WebAPI/Controllers/WalletController.cs:68-106 | A 400 exactly when the page number is below 1 or the size lies outside 1 .. 100. A 200 echoes the page number and size asked for. |
| TransferValidator.ValidateTransfer | src/Application/Wallets/Commands/TransferFunds/TransferFundsCommandValidator.cs:9-19 | A request is accepted exactly when all three rules pass: the number is not blank and is 10 to 50 UTF-16 code units long, the amount lies in (0, 10,000,000], and the description is absent or at most 500 UTF-16 code units long. |
| TransferValidator.NumberFailures | src/Application/Wallets/Commands/TransferFunds/TransferFundsCommandValidator.cs:9-11 | The number passes both rules exactly when it is not blank and its length in UTF-16 code units lies in [10, 50]. A blank number gets the "required" failure and a number of the wrong length the length failure. |
| TransferValidator.AmountFailures | src/Application/Wallets/Commands/TransferFunds/TransferFundsCommandValidator.cs:13-15 | The amount passes both rules exactly when it lies in (0, 10,000,000]. |
| TransferValidator.DescriptionFailures | src/Application/Wallets/Commands/TransferFunds/TransferFundsCommandValidator.cs:17-19 | The description fails exactly when it is non-empty and longer than 500 UTF-16 code units, and then with the one length failure. |
| TransferValidator.TransferRuleEdges | src/Application/Wallets/Commands/TransferFunds/TransferFundsCommandValidator.cs:10-18 | An empty number fails both number rules. Exactly 10,000,000 passes and one unit more fails. A description of 500 UTF-16 code units passes and one of 501 fails. |
| TransferValidator.SurrogatePairsCountTwice | src/Application/Wallets/Commands/TransferFunds/TransferFundsCommandValidator.cs:9-19 | A character outside the Basic Multilingual Plane counts two units: a 300-emoji description and a 30-emoji wallet number are refused. |
| TransferValidator.ValidAmountIsPositive | src/Application/Wallets/Commands/TransferFunds/TransferFundsCommandValidator.cs:14 | An accepted request always passes the handler's own amount check. |
| DepositValidator.ValidateDeposit | src/Application/Wallets/Commands/InitiateDeposit/InitiateDepositCommandValidator.cs:9-13 | A request is accepted exactly when its decimal amount lies in (0, 10,000,000]. Nothing else is checked, the number of decimal places included. A non-positive amount gets the "greater than zero" failure and one above the maximum the "cannot exceed" failure. |
| DepositValidator.DepositLimits | src/Application/Wallets/Commands/InitiateDeposit/InitiateDepositCommandValidator.cs:10-13 | 10,000,000 is accepted; 0 and one ten-thousandth above the maximum are not. 0.00004, finer than the column holds, is accepted. |
| DepositValidator.ValidateColumnAmount | src/Application/Wallets/Commands/InitiateDeposit/InitiateDepositCommandValidator.cs:10-13 | On whole ten-thousandths the rule is exactly the range (0, 10,000,000]. |
| DepositValidator.SameRuleAsTransfers | src/Application/Wallets/Commands/InitiateDeposit/InitiateDepositCommandValidator.cs:9-13 | The deposit rule accepts exactly the amounts the transfer validator's amount rule accepts. |
| ResolveWalletNumberValidator.ValidateQuery | src/Application/Wallets/Queries/ResolveWalletNumber/ResolveWalletNumberValidator.cs:9-11 | A number is accepted exactly when it is not blank and its length in UTF-16 code units lies in [10, 50]. A blank number gets the "required" failure and a number of the wrong length the length failure. |
| ResolveWalletNumberValidator.NumberEdges | src/Application/Wallets/Queries/ResolveWalletNumber/ResolveWalletNumberValidator.cs:10-11 | The empty number fails both rules, nine digits are too short and ten pass. |
| ResolveWalletNumberValidator.TooLongNumber | src/Application/Wallets/Queries/ResolveWalletNumber/ResolveWalletNumberValidator.cs:11 | A 51-character number that starts with a digit fails the length rule and nothing else. |
| GoogleLogin.Handle | src/Application/Auth/Commands/GoogleLoginCommandHandler.cs:25-77 | The result and new state are those of `Login` on the old state. |
| GoogleLogin.GenerateWalletNumber | src/Application/Auth/Commands/GoogleLoginCommandHandler.cs:79-84 | The number has 13 characters, each a digit 0-9. |
| GoogleLogin.WalletNumberSpellsDraws | src/Application/Auth/Commands/GoogleLoginCommandHandler.cs:82-83 | Digit i of the number is draw i, so distinct draws give distinct numbers. |
| GoogleLogin.InvalidTokenIsRefused | src/Application/Auth/Commands/GoogleLoginCommandHandler.cs:28-32 | A token that does not validate is unauthorized and nothing is written. |
| GoogleLogin.ReturningUserAddsNothing | src/Application/Auth/Commands/GoogleLoginCommandHandler.cs:35-76 | An existing Google id writes nothing. The token and the result's id, email and name are the stored user's. |
| GoogleLogin.NewUserGetsOneWallet | src/Application/Auth/Commands/GoogleLoginCommandHandler.cs:38-76 | A first sign-in fails and writes nothing, or adds exactly the user with the Google profile and one zero-balance wallet of that user with a 13-digit number. The result is the new user's. |
| GoogleLogin.TakenNumberFailsSignUp | src/Application/Auth/Commands/GoogleLoginCommandHandler.cs:57-64 | An already taken number is not checked by the handler. The unique index rejects the save and the sign-up fails with no write. |
| GoogleLogin.LoginPreservesConsistency | src/Application/Auth/Commands/GoogleLoginCommandHandler.cs:51-64 | Sign-in keeps a consistent store consistent: it only adds a user and an empty wallet no entry refers to. |
| CreateApiKey.Handle | src/Application/ApiKeys/Commands/CreateApiKey/CreateApiKeyCommandHandler.cs:30-87 | The result and new state are those of `Create` on the old state. |
| CreateApiKey.CheckPermissions | src/Application/ApiKeys/Commands/CreateApiKey/CreateApiKeyCommandHandler.cs:46-52 | The loop reports the first invalid permission, and passes exactly when all are valid. |
| CreateApiKey.CreateRefusals | src/Application/ApiKeys/Commands/CreateApiKey/CreateApiKeyCommandHandler.cs:33-55 | The refusals in check order: no caller; five active keys, checked before the permissions; the first invalid permission; an unknown duration. A refused or failed request writes nothing. |
| CreateApiKey.CreateAddsOneKey | src/Application/ApiKeys/Commands/CreateApiKey/CreateApiKeyCommandHandler.cs:61-86 | Success adds one active key of the caller with the requested name and (valid) permissions and the parsed expiry. No other key changes, and the caller's active count rises by one and stays at most five. The result describes the key. |
| CreateApiKey.ActiveKeyCountAfterPut | src/Application/ApiKeys/Commands/CreateApiKey/CreateApiKeyCommandHandler.cs:36-37 | Writing one key changes a user's active count by what that row was and what it becomes. |
| CreateApiKey.CreatedKeyIsUsable | src/Application/ApiKeys/Commands/CreateApiKey/CreateApiKeyCommandHandler.cs:55-74 | The key a successful creation stores is an active key of the caller. It has not expired at any instant in the hour after its creation, and it grants every requested permission. |
| CreateApiKey.CreatePreservesConsistency | src/Application/ApiKeys/Commands/CreateApiKey/CreateApiKeyCommandHandler.cs:30-87 | A creation, whether it succeeds or not, leaves a consistent store consistent. |
| RolloverApiKey.Handle | src/Application/ApiKeys/Commands/RolloverApiKey/RolloverApiKeyCommandHandler.cs:30-96 | The result and new state are those of `Rollover` on the old state. |
| RolloverApiKey.RolloverRefusals | src/Application/ApiKeys/Commands/RolloverApiKey/RolloverApiKeyCommandHandler.cs:33-60 | The refusals in order: no caller; unknown key; someone else's key; a key not yet expired; an unknown duration. A refusal writes nothing. |
| RolloverApiKey.CheckRolloverMeaning | src/Application/ApiKeys/Commands/RolloverApiKey/RolloverApiKeyCommandHandler.cs:36-57 | The checks pass exactly for the caller's own expired keys, active or not, without looking at the five-key limit. |
| RolloverApiKey.RolloverEffect | src/Application/ApiKeys/Commands/RolloverApiKey/RolloverApiKeyCommandHandler.cs:60-95 | The old key ends inactive and otherwise unchanged. The new key is active, the caller's, with the old key's name and permissions and the parsed expiry. No other key changes, and the result describes the new key. |
| RolloverApiKey.RolloverActiveCount | src/Application/ApiKeys/Commands/RolloverApiKey/RolloverApiKeyCommandHandler.cs:36-83 | Rolling over an active key keeps the caller's active count. Rolling over an inactive one raises it by one, so five active keys can become six. |
| RolloverApiKey.RolloverPreservesConsistency | src/Application/ApiKeys/Commands/RolloverApiKey/RolloverApiKeyCommandHandler.cs:30-96 | A rollover, whether it succeeds or not, leaves a consistent store consistent. |
| ExpiryDurationParser.ParseAcceptsTheValidDurations | src/Application/Common/Services/ExpiryDurationParser.cs:9-18 | It succeeds exactly on what ExpiryDurations.IsValid accepts. Anything else is an ArgumentException naming the input. |
| ExpiryDurationParser.ParseToDateTime | src/Application/Common/Services/ExpiryDurationParser.cs:7-19 | A failure is the ArgumentException naming the duration; a parsed expiry lies after now. |
| ExpiryDurationParser.ParseIgnoresCase | src/Application/Common/Services/ExpiryDurationParser.cs:9 | Parsing depends on the duration only up to case. |
| ExpiryDurationParser.ExpiryOrder | src/Application/Common/Services/ExpiryDurationParser.cs:13-16 | 1H, 1D, 1M and 1Y give now + 1 hour, 24 hours, 30 days and 365 days: strictly after now, in that order. |
| ExpiryDurationParser.ExpiryIsAhead | src/Application/Common/Services/ExpiryDurationParser.cs:13-16 | A parsed expiry lies between one hour and 365 days ahead. |
| ExpiryDurations.IsValidMeaning | src/Application/Common/Constants/ExpiryDurations.cs:10-15 | A duration is valid exactly when its upper-case form is one of 1H, 1D, 1M, 1Y. |
| ExpiryDurations.ConstantsAreUpper | src/Application/Common/Constants/ExpiryDurations.cs:5-8 | The four constants are their own upper-case forms. |
| ExpiryDurations.Examples | src/Application/Common/Constants/ExpiryDurations.cs:12-15 | "1m" is valid; "2H" and "" are not. |
| Permissions.IsValidMeaning | src/Application/Common/Constants/Permissions.cs:9-14 | A name is valid exactly when it equals deposit, transfer or read, ignoring case. |
| Permissions.AllDistinct | src/Application/Common/Constants/Permissions.cs:9 | The three names are distinct, even ignoring case. |
| Permissions.Examples | src/Application/Common/Constants/Permissions.cs:11-14 | "READ" is valid; "write" and "" are not. |
| Entities.ExpiryIsPermanent | src/Domain/Entities/ApiKey.cs:18 | A key is still live at the instant ExpiresAt, and once expired it stays expired at every later instant. |
| Entities.HasPermissionIgnoresCase | src/Domain/Entities/ApiKey.cs:19 | Two spellings of a permission that differ only in case are granted by the same keys. |
| Entities.GrantsOwnPermissions | src/Domain/Entities/ApiKey.cs:19 | A key grants each permission in its own list. |
| RequirePermission.DecideMeaning | src/WebAPI/Authorization/RequirePermissionAttribute.cs:23-38 | A request is let through exactly when it is a signed-in user without a key id, or an authenticated key holding the permission up to case. Every refusal is a 403 naming the permission. |
| RequirePermission.Decide | src/WebAPI/Authorization/RequirePermissionAttribute.cs:17-39 | A denial is always the 403 naming the permission. A request let through is authenticated, as a user or with a key. |
| RequirePermission.SignedInUserHasFullAccess | src/WebAPI/Authorization/RequirePermissionAttribute.cs:23-26 | A signed-in user without a key id passes whatever permission is required. |
| RequirePermission.KeyCallerNeedsThePermission | src/WebAPI/Authorization/RequirePermissionAttribute.cs:29-32 | A request with a key id passes exactly when the key is authenticated and holds the permission. |
| RequirePermission.AnonymousIsForbidden | src/WebAPI/Authorization/RequirePermissionAttribute.cs:35-38 | An unauthenticated request gets the 403. |
| RequirePermission.RequirePermissionAttribute.OnAuthorization | src/WebAPI/Authorization/RequirePermissionAttribute.cs:17-39 | Allowing leaves the context's result as it was; denying sets it to the 403 and changes nothing else. |
| ExceptionMiddleware.StatusCodes | src/WebAPI/Middleware/GlobalExceptionHandlerMiddleware.cs:70-89 | 401 exactly for unauthorized access, with the fixed message. 400 for invalid operations and bad arguments, with their own message. 404 for a missing key, with a fixed message. 500 for the rest, with the generic message. |
| ExceptionMiddleware.HandleException | src/WebAPI/Middleware/GlobalExceptionHandlerMiddleware.cs:38-89 | Any exception but a validation failure gets a plain error response; a validation failure that does not throw gets the 400 validation response. |
| ExceptionMiddleware.StatusAndMessage | src/WebAPI/Middleware/GlobalExceptionHandlerMiddleware.cs:70-77 | The status is 400, 401, 404 or 500. Invalid operations and bad arguments are 400 with the exception's own message. |
| ExceptionMiddleware.DetailsOnlyInDevelopment | src/WebAPI/Middleware/GlobalExceptionHandlerMiddleware.cs:88 | Details are present exactly in Development, and are then the exception's rendering. |
| ExceptionMiddleware.ValidationResponse | src/WebAPI/Middleware/GlobalExceptionHandlerMiddleware.cs:43-58 | A validation failure is a 400 with each failing property's camel-cased name once, with its messages in order, in first-failure order. Names that collide once camel-cased make the handler throw. |
| ExceptionMiddleware.GroupByPropertyMeaning | src/WebAPI/Middleware/GlobalExceptionHandlerMiddleware.cs:53-54 | Each failing property is one group with exactly its messages, in failure order, and no other group exists. |
| ExceptionMiddleware.GroupByProperty | src/WebAPI/Middleware/GlobalExceptionHandlerMiddleware.cs:53-54 | There are never more groups than failures, and there is a group exactly when some rule failed. |
| ExceptionMiddleware.ToDictionaryMeaning | src/WebAPI/Middleware/GlobalExceptionHandlerMiddleware.cs:55-57 | Building the dictionary succeeds exactly when the keys are distinct, and then it holds exactly the entries, in order. |
| ExceptionMiddleware.ToDictionary | src/WebAPI/Middleware/GlobalExceptionHandlerMiddleware.cs:55-57 | A dictionary that is built holds exactly the entries, in order. |
| ExceptionMiddleware.ToCamelCase | src/WebAPI/Middleware/GlobalExceptionHandlerMiddleware.cs:100-106 | Length and tail are kept and only the first character is lowered. An empty string, or one that starts lower case, is returned as is. |
| ExceptionMiddleware.ToCamelCaseIdempotent | src/WebAPI/Middleware/GlobalExceptionHandlerMiddleware.cs:100-106 | Camel-casing twice is camel-casing once, and the result never starts with an upper-case letter. |
| Store.Db.SaveChanges | src/Application/Common/Interfaces/IApplicationDbContext.cs:15 | The returned error is the one the database raises: an outage, a conflict on a missing row or a moved wallet version, or a key or constraint violation. A save without an error writes the whole change set; a save with one writes nothing. |
| Store.Db.Rollback | src/Application/Wallets/Commands/TransferFunds/TransferFundsCommandHandler.cs:143-149 | The store returns to the state the transaction began in. |
| Store.SaveMovesVersionsForward | src/Infrastructure/Persistence/Configurations/WalletConfiguration.cs:27-29 | A save that goes through removes no row. It keeps the version of every wallet it does not update and moves the version of each wallet it updates one step on. |
| Store.SavedUpdateInvalidatesStaleCopies | src/Infrastructure/Persistence/Configurations/WalletConfiguration.cs:27-29 | Once a save has updated a wallet, any other pending update of that wallet that was made from the same reading is refused as a concurrency conflict. |
| Text.ToUpperInvariant | src/Application/Common/Services/ExpiryDurationParser.cs:9 | Each character is upper-cased in place and the length is kept. |
| Text.FormatF2Shows | src/Application/Wallets/Commands/TransferFunds/TransferFundsCommandHandler.cs:59 | The F2 rendering of an amount, read back in hundredths, is the amount rounded to the nearest hundredth, half away from zero. |
| Text.Utf16Length | src/Application/Wallets/Commands/TransferFunds/TransferFundsCommandValidator.cs:11 | `string.Length` counts between one and two units per character. It equals the number of characters exactly when every character lies in the Basic Multilingual Plane, and is twice it when none does. |
| RequestAmount.RoundToColumn | src/Infrastructure/Persistence/Migrations/20251210141931_InitialCreate.cs:82 | A decimal with more than four places is stored as the nearest whole number of ten-thousandths, within half a ten-thousandth. |
| RequestAmount.RoundKeepsSign | src/Infrastructure/Persistence/Migrations/20251210141931_InitialCreate.cs:106 | Rounding to the column keeps the sign: an amount of zero or less is stored as zero or less, and one of zero or more as zero or more. |
| RequestAmount.AcceptedIsColumnValue | src/Infrastructure/Persistence/Migrations/20251210141931_InitialCreate.cs:106 | An amount in the validators' range with at most four places is stored without rounding: as a positive number of ten-thousandths, at most 10,000,000, denoting the same number. |
| RequestAmount.SubUnitAmountCreatesMoney | src/Application/Wallets/Commands/TransferFunds/TransferFundsCommandHandler.cs:118-119 | As written: 0.00005 from a wallet holding 1.0000 to an empty one passes every check. It is saved as sender 1.0000, recipient 0.0001 and legs of 0.0001. The total rises and the sender's balance is no longer its old balance less its debit. |
| RequestAmount.CorrectedAmountIsConserved | src/Application/Wallets/Commands/TransferFunds/TransferFundsCommandHandler.cs:118-119 | Corrected: with at most four decimal places the amount is a whole number `a` of ten-thousandths. The validator and balance checks on the decimal agree with those on `a`. The saved rows are exact: the sender loses `a`, the recipient gains `a`, both legs record `a`, and the total is kept. |

## Left out

- **UpdatedAt.** The `UpdatedAt` columns the handlers set are not modelled: nothing reads them.
- **Clock.** One clock reading `now` stands for every `DateTime.UtcNow` of a run.
- **Case folding.** It covers ASCII letters only. .NET's `char.IsLower`, `ToLowerInvariant`, `ToUpperInvariant` and `OrdinalIgnoreCase` also fold other Unicode letters.
- **Concurrency.** Real concurrency is not modelled. Racing transfers and duplicate webhook deliveries are two runs in sequence against the wallet version check, which is how PostgreSQL's `xmin` check resolves them.
- **TotalPages.** It uses a `double` division and `Math.Ceiling`. The model uses the exact integer ceiling, which agrees for these magnitudes.
- **Calls into other services.** The Paystack gateway, Google token validation, JWT generation and API-key generation and hashing are parameters. The HMAC webhook signature check runs before the handler, so it is not part of this model.
- **Fresh Guids.** Guid.NewGuid() values are assumed fresh where the source relies on it: the two legs and the transfer record have keys no row uses, and those of the two legs differ.
- **Newest-first ties.** `OrderByDescending(CreatedAt)` does not order entries with equal creation times. The model breaks ties by id, which is one admissible order.
- **Read failures.** Database reads do not fail in the model, so the controllers' 500 branch is reached only through `WalletController.ErrorStatuses`.
- **Negative offsets.** A negative `OFFSET`, reachable only through the overflow under Findings, is a database failure in `GetWalletTransactions.PageAsWritten`. The handler and the endpoint are built on the corrected offset and never reach it.
- ListingReport: states the listing for the corrected offset `(p - 1) * s`. As written, page 21,474,838 of size 100 fails through the wrapped negative offset (see Findings).
- PageIsSliceOfHistory: states the slice at the exact offset. As written, the 32-bit product wraps once it passes 2,147,483,647, so page 42,949,674 of size 100 shows entries 4 onwards (see Findings).
- AcceptedPageStatuses: states the 401, 404 and 200 answers for the corrected offset. As written, a page whose offset wraps negative answers 500 (see Findings).
- **Amounts finer than 0.0001.** A transfer request's `Amount` is a `decimal` checked only for being in (0, 10,000,000]. The handler computes the new balances exactly in memory, and the `numeric(18,4)` columns round them when they are saved. The transfer model counts every amount in whole ten-thousandths; `RequestAmount` shows what the rounding does to the rest (see Findings). The deposit model keeps the request's decimal and stores it rounded.
- EffectOnBalances: holds for amounts in whole ten-thousandths only. An amount such as 0.00005 leaves the saved sender balance where it was.
- EffectConservesTotal: holds for amounts in whole ten-thousandths only. An amount such as 0.00005 raises the saved total by 0.0001.
- EffectPreservesConsistency: holds for amounts in whole ten-thousandths only. With 0.00005 the saved sender balance no longer equals its ledger net.
- TransferPreservesConsistency: holds for amounts in whole ten-thousandths only, for the same reason as EffectPreservesConsistency.
- **Decimal arithmetic.** `RequestAmount` adds decimals exactly. .NET rounds a sum that does not fit the 96-bit mantissa, which amounts within the validated range never reach.
- **Culture.** `{x:F2}` in the insufficient-balance message formats with the current culture. No culture is set, so the separator may be other than "."; the model always writes ".".
- **String lengths.** The validators count UTF-16 code units, as `string.Length` does (`Text.Utf16Length`). The varchar column limits in `Store.Schema` count characters, as PostgreSQL does.
- **Logging.** All logging is left out.
- **Responses.** JSON serialisation and response writing are left out. `InvokeAsync` only catches the exception and passes it on, so the model is `HandleException` alone. The exception's `ToString()` is a parameter, `rendered`.
- **Exception subclasses.** Exception types are rendered as one datatype. Subclasses of `ArgumentException` and `InvalidOperationException` are not distinguished.
- InitiatePreservesConsistency: assumes the stored amount is positive. Nothing guarantees it. The application only registers its validators (src/Application/DependencyInjection.cs:17-18) and nothing runs them, and even the validator accepts 0.00004, which is stored as 0. NonPositiveEntryBreaksConsistency shows the assumption cannot be dropped (see Findings).
- **Gateway amount.** The decimal the handler sends to the gateway is not modelled; the gateway's reply is a parameter.
- **Validation pipeline.** The other request validators are not run before their handlers either. The transfer handler checks for a positive amount itself, and the upper bound and length rules it lacks do not bear on consistency.
- **Key request validators.** The CreateApiKey and RolloverApiKey request validators are not part of this model.
- **ResolveWalletNumberResult.cs** is not part of this model; the result is a pair of wallet number and account name.
- **Missing wallet in the webhook.** `transaction.Wallet` is loaded through the entry's foreign key. The webhook therefore requires that every entry's wallet exists (`Lookups.Readable`), as the schema guarantees.

## Findings

| source | as written | input that shows it | evidently intended | confidence | as-written member | corrected member |
|---|---|---|---|---|---|---|
| src/Application/Wallets/Queries/GetWalletTransactions/GetWalletTransactionsQueryHandler.cs:41 | The offset `(PageNumber - 1) * PageSize` is computed in unchecked 32-bit `int`, and the controller bounds only the page size | pageNumber 42,949,674 with pageSize 100 on a 10-entry history: the product wraps to 4, so the page holds entries 4 .. 9 instead of none; pageNumber 21,474,838 gives a negative offset and fails | The offset is the exact (p-1)·s, so every page past the last is empty | not executed | GetWalletTransactions.OffsetOverflow | GetWalletTransactions.PagesPartition |
| src/Application/Wallets/Commands/TransferFunds/TransferFundsCommandHandler.cs:118-119 | The `decimal` amount, checked only for being in (0, 10,000,000], is subtracted from and added to the balances in memory. The `numeric(18,4)` balance and amount columns round the results on save | 0.00005 from a wallet holding 1.0000 to an empty one: the sender is saved at 1.0000, the recipient at 0.0001 and both legs at 0.0001, so 0.0001 is created and the sender's balance no longer matches its ledger | Amounts with more than four decimal places are refused, so that every saved row is the exact in-memory value | not executed | RequestAmount.SubUnitAmountCreatesMoney | RequestAmount.CorrectedAmountIsConserved |
| src/Application/DependencyInjection.cs:12-18 | MediatR is registered without a validation behaviour and nothing calls the validators, so InitiateDepositCommandHandler (lines 47-60) saves whatever `request.Amount` it is given | A signed-in caller with a wallet initiates a deposit of 0 (or -5) and the gateway accepts: a Pending entry with amount 0 is stored, breaking the positive-amount rule of the ledger | The registered InitiateDepositCommandValidator refuses amounts outside (0, 10,000,000] before the handler runs | not executed | DepositProperties.UnvalidatedDepositBreaksConsistency | DepositProperties.ValidatedInitiatePreservesConsistency |
| src/Application/Wallets/Commands/InitiateDeposit/InitiateDepositCommandHandler.cs:52 | The `decimal` amount, checked only for being in (0, 10,000,000], is put into the entry's `numeric(18,4)` column, which rounds it to four places; the result returns it unrounded | 0.00004 passes the validator and is stored as 0.0000, a zero entry the ledger rules refuse; 0.00005 is stored, and later credited, as 0.0001 while the caller is told 0.00005 | Amounts with more than four decimal places are refused, so the entry holds exactly the requested amount | not executed | DepositProperties.SubUnitDepositSavesZero | DepositProperties.ValidatedInitiateStoresRequestedAmount |
