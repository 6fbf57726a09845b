/** What deposit initiation guarantees: refused requests write nothing; otherwise at most one
    new entry is written, a deposit on the caller's wallet that is never settled here; no wallet
    row (so no balance) changes on any path; a gateway failure marks the entry `Failed` and is
    rethrown; a success keeps the entry `Pending` with the gateway's reference and returns the
    local reference and the requested amount; and the ledger stays consistent. */
module DepositProperties {
  import opened Common
  import opened Entities
  import opened Store
  import opened Ledger
  import opened Lookups
  import opened InitiateDeposit
  import opened DepositValidator
  import opened RequestAmount
  import opened PaystackWebhook

  /** The refusals, each before any write. */
  lemma DepositRefusals(t: Tables, currentUser: Option<Guid>, request: InitiateDepositCommand, entryId: Guid, guidN: string,
                        now: Instant, reply: GatewayReply, outage: Outage)
    requires UniqueWalletOwners(t.wallets)
    ensures currentUser.None? ==>
              Initiate(t, currentUser, request, entryId, guidN, now, reply, outage)
              == Outcome(Err(UnauthorizedAccessException("User is not authenticated")), t)
    ensures currentUser.Some? && (currentUser.value !in t.users || WalletOfUser(t.wallets, currentUser.value).None?) ==>
              Initiate(t, currentUser, request, entryId, guidN, now, reply, outage)
              == Outcome(Err(InvalidOperationException(UserOrWalletNotFound)), t)
  {
  }

  /** The checks accept exactly an authenticated caller with a user row and a wallet, and name
      that wallet. */
  lemma CheckDepositAccepts(t: Tables, currentUser: Option<Guid>, w: Guid)
    requires UniqueWalletOwners(t.wallets)
    ensures CheckDeposit(t, currentUser) == Ok(w)
        <==> currentUser.Some? && currentUser.value in t.users && w in t.wallets && t.wallets[w].userId == currentUser.value
  {
    if currentUser.Some? && w in t.wallets && t.wallets[w].userId == currentUser.value {
      WalletOfUserIsTheOnlyMatch(t.wallets, currentUser.value, w);
    }
  }

  /** `t'` is `t` with one entry added under the new key `id`, and nothing else changed. */
  predicate EntryWritten(t: Tables, t': Tables, id: Guid, y: Transaction) {
    id !in t.transactions && t' == t.(transactions := t.transactions[id := y])
  }

  /** Entry `y` is the deposit the handler creates, possibly marked `Failed` or carrying a
      gateway reference, but never settled. */
  predicate IsInitiatedDeposit(y: Transaction, walletId: Guid, amount: int, reference: string, now: Instant) {
    && y.reference == reference && y.kind == Deposit && y.amount == amount && y.walletId == walletId
    && y.description == Some(DepositDescription) && y.createdAt == now
    && y.status != Success
  }

  lemma ApplyInsert(t: Tables, id: Guid, x: Transaction)
    requires id !in t.transactions
    ensures EntryWritten(t, Apply(t, InsertEntry(id, x)), id, x)
  {
    MergeOne(t.transactions, id, x);
    ApplyKeeps(t, InsertEntry(id, x));
  }

  lemma ApplyUpdate(t: Tables, id: Guid, y: Transaction)
    ensures Apply(t, UpdateEntry(id, y)) == t.(transactions := t.transactions[id := y])
  {
    MergeOne(t.transactions, id, y);
    ApplyKeeps(t, UpdateEntry(id, y));
  }

  /** A later save of the entry the first save added leaves one entry added, with the later
      columns. */
  lemma ApplyInsertThenUpdate(t: Tables, id: Guid, x: Transaction, y: Transaction)
    requires id !in t.transactions
    ensures EntryWritten(t, Apply(Apply(t, InsertEntry(id, x)), UpdateEntry(id, y)), id, y)
  {
    ApplyInsert(t, id, x);
    ApplyUpdate(Apply(t, InsertEntry(id, x)), id, y);
    assert t.transactions[id := x][id := y] == t.transactions[id := y];
  }

  lemma InsertSaved(t: Tables, id: Guid, x: Transaction, outage: bool)
    requires SaveError(t, InsertEntry(id, x), outage).None?
    ensures id !in t.transactions
  {
    assert FreshKeys(t, InsertEntry(id, x).inserted);
  }

  /** What a run may leave behind, given the store `t` it started from: the same store, or `t`
      with the one initiated deposit added under key `id`, in a store that satisfies its schema. */
  predicate DepositWrite(t: Tables, t': Tables, id: Guid, walletId: Guid, amount: int, reference: string, now: Instant) {
    || t' == t
    || (&& id in t'.transactions
        && EntryWritten(t, t', id, t'.transactions[id])
        && IsInitiatedDeposit(t'.transactions[id], walletId, amount, reference, now)
        && Schema(t'))
  }

  /** The state after a save that went through on top of the first one. */
  lemma RewriteIsDepositWrite(t: Tables, id: Guid, x: Transaction, y: Transaction, walletId: Guid, amount: int, reference: string,
                              now: Instant, cs: ChangeSet, outage: bool)
    requires id !in t.transactions
    requires IsInitiatedDeposit(y, walletId, amount, reference, now)
    requires cs == UpdateEntry(id, y)
    requires SaveError(Apply(t, InsertEntry(id, x)), cs, outage).None?
    ensures DepositWrite(t, Apply(Apply(t, InsertEntry(id, x)), cs), id, walletId, amount, reference, now)
  {
    SavedStateIsWellFormed(Apply(t, InsertEntry(id, x)), cs, outage);
    ApplyInsertThenUpdate(t, id, x, y);
  }

  /** The state after the first save alone. */
  lemma InsertIsDepositWrite(t: Tables, id: Guid, x: Transaction, walletId: Guid, amount: int, reference: string,
                             now: Instant, outage: bool)
    requires IsInitiatedDeposit(x, walletId, amount, reference, now)
    requires SaveError(t, InsertEntry(id, x), outage).None?
    ensures DepositWrite(t, Apply(t, InsertEntry(id, x)), id, walletId, amount, reference, now)
  {
    InsertSaved(t, id, x, outage);
    SavedStateIsWellFormed(t, InsertEntry(id, x), outage);
    ApplyInsert(t, id, x);
  }

  /** The catch block leaves the first save's state or the entry marked `Failed`. */
  lemma MarkFailedIsDepositWrite(t: Tables, id: Guid, x: Transaction, y: Transaction, caught: Exception, outage: bool,
                                 walletId: Guid, amount: int, reference: string, now: Instant, outage1: bool)
    requires IsInitiatedDeposit(x, walletId, amount, reference, now)
    requires IsInitiatedDeposit(y.(status := Failed), walletId, amount, reference, now)
    requires SaveError(t, InsertEntry(id, x), outage1).None?
    ensures DepositWrite(t, MarkFailed(Apply(t, InsertEntry(id, x)), id, y, caught, outage).tables, id, walletId, amount, reference, now)
  {
    var t1 := Apply(t, InsertEntry(id, x));
    var cs := UpdateEntry(id, y.(status := Failed));
    if SaveError(t1, cs, outage).None? {
      assert MarkFailed(t1, id, y, caught, outage).tables == Apply(t1, cs);
      InsertSaved(t, id, x, outage1);
      RewriteIsDepositWrite(t, id, x, y.(status := Failed), walletId, amount, reference, now, cs, outage);
    } else {
      assert MarkFailed(t1, id, y, caught, outage).tables == t1;
      InsertIsDepositWrite(t, id, x, walletId, amount, reference, now, outage1);
    }
  }

  /** The writes after the checks, branch by branch. */
  lemma CommitDepositWrites(t: Tables, w: Guid, request: InitiateDepositCommand, entryId: Guid, guidN: string,
                            now: Instant, reply: GatewayReply, outage: Outage)
    ensures DepositWrite(t, CommitDeposit(t, w, request, entryId, guidN, now, reply, outage).tables, entryId, w, StoredAmount(request), "DEP_" + guidN, now)
  {
    var reference := "DEP_" + guidN;
    var entry := PendingEntry(w, StoredAmount(request), reference, now);
    if SaveError(t, InsertEntry(entryId, entry), 1 in outage.saves).None? {
      var t1 := Apply(t, InsertEntry(entryId, entry));
      match GatewayData(reply)
      case Err(e) =>
        MarkFailedIsDepositWrite(t, entryId, entry, entry, e, 2 in outage.saves, w, StoredAmount(request), reference, now, 1 in outage.saves);
      case Ok(data) =>
        var x := entry.(paystackReference := Some(data.reference));
        var second := SaveError(t1, UpdateEntry(entryId, x), 2 in outage.saves);
        if second.None? {
          InsertSaved(t, entryId, entry, 1 in outage.saves);
          RewriteIsDepositWrite(t, entryId, entry, x, w, StoredAmount(request), reference, now, UpdateEntry(entryId, x), 2 in outage.saves);
        } else {
          MarkFailedIsDepositWrite(t, entryId, entry, x, second.value, 3 in outage.saves, w, StoredAmount(request), reference, now, 1 in outage.saves);
        }
    }
  }

  /** Any run either writes nothing or adds exactly one entry: the deposit on the caller's
      wallet, in one of the states the handler leaves it in, under the new key. The store still
      satisfies its schema. */
  lemma InitiateEffect(t: Tables, currentUser: Option<Guid>, request: InitiateDepositCommand, entryId: Guid, guidN: string,
                       now: Instant, reply: GatewayReply, outage: Outage)
    requires UniqueWalletOwners(t.wallets)
    ensures var o := Initiate(t, currentUser, request, entryId, guidN, now, reply, outage);
            || o.tables == t
            || (CheckDeposit(t, currentUser).Ok?
                && DepositWrite(t, o.tables, entryId, CheckDeposit(t, currentUser).value, StoredAmount(request), "DEP_" + guidN, now))
  {
    if CheckDeposit(t, currentUser).Ok? {
      CommitDepositWrites(t, CheckDeposit(t, currentUser).value, request, entryId, guidN, now, reply, outage);
    }
  }

  /** No run changes a wallet, a user, a transfer or an API key: the balance is not touched on
      any path. */
  lemma InitiateKeepsBalances(t: Tables, currentUser: Option<Guid>, request: InitiateDepositCommand, entryId: Guid, guidN: string,
                              now: Instant, reply: GatewayReply, outage: Outage)
    requires UniqueWalletOwners(t.wallets)
    ensures var o := Initiate(t, currentUser, request, entryId, guidN, now, reply, outage);
            && o.tables.wallets == t.wallets && o.tables.users == t.users
            && o.tables.transfers == t.transfers && o.tables.apiKeys == t.apiKeys
  {
    InitiateEffect(t, currentUser, request, entryId, guidN, now, reply, outage);
  }

  /** A successful run: the gateway accepted the charge, the entry is the pending deposit with
      the gateway's reference recorded, and the result carries the local reference, the
      requested amount and the gateway's authorisation URL and access code. */
  lemma InitiateSuccess(t: Tables, currentUser: Option<Guid>, request: InitiateDepositCommand, entryId: Guid, guidN: string,
                        now: Instant, reply: GatewayReply, outage: Outage)
    requires UniqueWalletOwners(t.wallets)
    requires Initiate(t, currentUser, request, entryId, guidN, now, reply, outage).result.Ok?
    ensures CheckDeposit(t, currentUser).Ok? && GatewayData(reply).Ok?
    ensures var o := Initiate(t, currentUser, request, entryId, guidN, now, reply, outage);
            var data := GatewayData(reply).value;
            && o.result.value == DepositInitializationResult(data.authorizationUrl, "DEP_" + guidN, data.accessCode, request.amount)
            && EntryWritten(t, o.tables, entryId,
                 PendingEntry(CheckDeposit(t, currentUser).value, StoredAmount(request), "DEP_" + guidN, now).(paystackReference := Some(data.reference)))
  {
    var w := CheckDeposit(t, currentUser).value;
    var entry := PendingEntry(w, StoredAmount(request), "DEP_" + guidN, now);
    InsertSaved(t, entryId, entry, 1 in outage.saves);
    ApplyInsertThenUpdate(t, entryId, entry, entry.(paystackReference := Some(GatewayData(reply).value.reference)));
  }

  /** Rewriting an entry without touching its reference or wallet, and within the column
      lengths, keeps every schema constraint. */
  lemma RewriteKeepsSchema(t: Tables, id: Guid, y: Transaction)
    requires Schema(t) && id in t.transactions
    requires y.reference == t.transactions[id].reference && y.walletId == t.transactions[id].walletId
    requires y.amount == t.transactions[id].amount && y.description == t.transactions[id].description
    requires MaxLengthOpt(y.paystackReference, 100)
    ensures Schema(t.(transactions := t.transactions[id := y]))
  {
    var t' := t.(transactions := t.transactions[id := y]);
    SameRowsKeepUsers(t, t');
    SameRowsKeepWallets(t, t');
    SameRowsKeepApiKeys(t, t');
    RewriteKeepsTransactions(t, id, y);
    RewriteKeepsTransfers(t, id, y);
  }

  lemma SameRowsKeepUsers(t: Tables, t': Tables)
    requires UsersWellFormed(t) && t'.users == t.users
    ensures UsersWellFormed(t')
  {
  }

  lemma SameRowsKeepWallets(t: Tables, t': Tables)
    requires WalletsWellFormed(t) && t'.users == t.users && t'.wallets == t.wallets
    ensures WalletsWellFormed(t')
  {
  }

  lemma SameRowsKeepApiKeys(t: Tables, t': Tables)
    requires ApiKeysWellFormed(t) && t'.users == t.users && t'.apiKeys == t.apiKeys
    ensures ApiKeysWellFormed(t')
  {
  }

  lemma RewriteKeepsTransactions(t: Tables, id: Guid, y: Transaction)
    requires TransactionsWellFormed(t) && id in t.transactions
    requires y.reference == t.transactions[id].reference && y.walletId == t.transactions[id].walletId
    requires y.amount == t.transactions[id].amount && y.description == t.transactions[id].description
    requires MaxLengthOpt(y.paystackReference, 100)
    ensures TransactionsWellFormed(t.(transactions := t.transactions[id := y]))
  {
    var t' := t.(transactions := t.transactions[id := y]);
    forall a, b | a in t'.transactions && b in t'.transactions && t'.transactions[a].reference == t'.transactions[b].reference
      ensures a == b
    {
      assert t.transactions[a].reference == t'.transactions[a].reference;
      assert t.transactions[b].reference == t'.transactions[b].reference;
    }
  }

  lemma RewriteKeepsTransfers(t: Tables, id: Guid, y: Transaction)
    requires TransfersWellFormed(t) && id in t.transactions
    ensures TransfersWellFormed(t.(transactions := t.transactions[id := y]))
  {
  }

  /** The catch block's save goes through when the store does not fail: it only rewrites the
      status of the entry the first save added. */
  lemma MarkFailedSaves(t1: Tables, id: Guid, y: Transaction)
    requires Schema(t1) && id in t1.transactions
    requires y.reference == t1.transactions[id].reference && y.walletId == t1.transactions[id].walletId
    requires y.amount == t1.transactions[id].amount && y.description == t1.transactions[id].description
    requires MaxLengthOpt(y.paystackReference, 100)
    ensures SaveError(t1, UpdateEntry(id, y.(status := Failed)), false).None?
  {
    var cs := UpdateEntry(id, y.(status := Failed));
    UpdateIsTracked(t1, id, y.(status := Failed));
    RewrittenSchema(t1, id, y.(status := Failed));
  }

  lemma UpdateIsTracked(t1: Tables, id: Guid, y: Transaction)
    requires id in t1.transactions
    ensures Tracked(t1, UpdateEntry(id, y).modified) && FreshKeys(t1, UpdateEntry(id, y).inserted)
  {
  }

  lemma RewrittenSchema(t1: Tables, id: Guid, y: Transaction)
    requires Schema(t1) && id in t1.transactions
    requires y.reference == t1.transactions[id].reference && y.walletId == t1.transactions[id].walletId
    requires y.amount == t1.transactions[id].amount && y.description == t1.transactions[id].description
    requires MaxLengthOpt(y.paystackReference, 100)
    ensures Schema(Apply(t1, UpdateEntry(id, y)))
  {
    ApplyUpdate(t1, id, y);
    RewriteKeepsSchema(t1, id, y);
  }

  /** A gateway failure (an exception, `Status` false or no `Data`) after the entry was saved:
      unless the store fails the catch block's save, the entry ends `Failed`, without a gateway
      reference, and the gateway's error is rethrown. */
  lemma GatewayFailureMarksFailed(t: Tables, currentUser: Option<Guid>, request: InitiateDepositCommand, entryId: Guid, guidN: string,
                                  now: Instant, reply: GatewayReply, outage: Outage)
    requires UniqueWalletOwners(t.wallets)
    requires CheckDeposit(t, currentUser).Ok? && GatewayData(reply).Err?
    requires SaveError(t, InsertEntry(entryId, PendingEntry(CheckDeposit(t, currentUser).value, StoredAmount(request), "DEP_" + guidN, now)), 1 in outage.saves).None?
    requires 2 !in outage.saves
    ensures var o := Initiate(t, currentUser, request, entryId, guidN, now, reply, outage);
            && o.result == Err(GatewayData(reply).error)
            && EntryWritten(t, o.tables, entryId,
                 PendingEntry(CheckDeposit(t, currentUser).value, StoredAmount(request), "DEP_" + guidN, now).(status := Failed))
  {
    var entry := PendingEntry(CheckDeposit(t, currentUser).value, StoredAmount(request), "DEP_" + guidN, now);
    InsertSaved(t, entryId, entry, 1 in outage.saves);
    SavedStateIsWellFormed(t, InsertEntry(entryId, entry), 1 in outage.saves);
    ApplyInsert(t, entryId, entry);
    MarkFailedSaves(Apply(t, InsertEntry(entryId, entry)), entryId, entry);
    ApplyInsertThenUpdate(t, entryId, entry, entry.(status := Failed));
  }

  /** The second save failing after the gateway accepted the charge (here, a store outage):
      unless the catch block's save fails too, the entry ends `Failed` but keeps the gateway
      reference the failed save was to record, because the tracked entry still carries it. */
  lemma SecondSaveFailureMarksFailed(t: Tables, currentUser: Option<Guid>, request: InitiateDepositCommand, entryId: Guid, guidN: string,
                                     now: Instant, reply: GatewayReply, outage: Outage)
    requires UniqueWalletOwners(t.wallets)
    requires CheckDeposit(t, currentUser).Ok? && GatewayData(reply).Ok? && |GatewayData(reply).value.reference| <= 100
    requires SaveError(t, InsertEntry(entryId, PendingEntry(CheckDeposit(t, currentUser).value, StoredAmount(request), "DEP_" + guidN, now)), 1 in outage.saves).None?
    requires 2 in outage.saves && 3 !in outage.saves
    ensures var o := Initiate(t, currentUser, request, entryId, guidN, now, reply, outage);
            && o.result == Err(DbFailure)
            && EntryWritten(t, o.tables, entryId,
                 PendingEntry(CheckDeposit(t, currentUser).value, StoredAmount(request), "DEP_" + guidN, now)
                   .(paystackReference := Some(GatewayData(reply).value.reference), status := Failed))
  {
    var entry := PendingEntry(CheckDeposit(t, currentUser).value, StoredAmount(request), "DEP_" + guidN, now);
    var x := entry.(paystackReference := Some(GatewayData(reply).value.reference));
    InsertSaved(t, entryId, entry, 1 in outage.saves);
    SavedStateIsWellFormed(t, InsertEntry(entryId, entry), 1 in outage.saves);
    ApplyInsert(t, entryId, entry);
    MarkFailedSaves(Apply(t, InsertEntry(entryId, entry)), entryId, x);
    ApplyInsertThenUpdate(t, entryId, entry, x.(status := Failed));
  }

  /** A gateway reference longer than the column's 100 characters makes the second save fail
      on the constraint, and the catch block's save fails on it again: the error escapes and the
      entry is left `Pending` with no gateway reference, not `Failed`. */
  lemma OverlongGatewayReferenceLeavesPending(t: Tables, currentUser: Option<Guid>, request: InitiateDepositCommand, entryId: Guid,
                                              guidN: string, now: Instant, reply: GatewayReply, outage: Outage)
    requires UniqueWalletOwners(t.wallets)
    requires CheckDeposit(t, currentUser).Ok? && GatewayData(reply).Ok? && |GatewayData(reply).value.reference| > 100
    requires SaveError(t, InsertEntry(entryId, PendingEntry(CheckDeposit(t, currentUser).value, StoredAmount(request), "DEP_" + guidN, now)), 1 in outage.saves).None?
    ensures var o := Initiate(t, currentUser, request, entryId, guidN, now, reply, outage);
            && o.result == Err(DbFailure)
            && EntryWritten(t, o.tables, entryId, PendingEntry(CheckDeposit(t, currentUser).value, StoredAmount(request), "DEP_" + guidN, now))
  {
    var entry := PendingEntry(CheckDeposit(t, currentUser).value, StoredAmount(request), "DEP_" + guidN, now);
    var x := entry.(paystackReference := Some(GatewayData(reply).value.reference));
    InsertSaved(t, entryId, entry, 1 in outage.saves);
    ApplyInsert(t, entryId, entry);
    var t1 := Apply(t, InsertEntry(entryId, entry));
    OverlongReferenceIsRefused(t1, entryId, x, 2 in outage.saves);
    OverlongReferenceIsRefused(t1, entryId, x.(status := Failed), 3 in outage.saves);
  }

  lemma OverlongReferenceIsRefused(t1: Tables, id: Guid, y: Transaction, outage: bool)
    requires id in t1.transactions
    requires y.paystackReference.Some? && |y.paystackReference.value| > 100
    ensures SaveError(t1, UpdateEntry(id, y), outage) == Some(DbFailure)
  {
    ApplyUpdate(t1, id, y);
    assert Apply(t1, UpdateEntry(id, y)).transactions[id] == y;
    assert !TransactionsWellFormed(Apply(t1, UpdateEntry(id, y)));
  }

  /** When the saved amount is positive, a run keeps a consistent store consistent: the one entry
      it may add is an unsettled deposit with a positive amount, which changes no wallet's
      ledger net and is no transfer leg. */
  lemma InitiatePreservesConsistency(t: Tables, currentUser: Option<Guid>, request: InitiateDepositCommand, entryId: Guid,
                                     guidN: string, now: Instant, reply: GatewayReply, outage: Outage)
    requires Consistent(t)
    requires StoredAmount(request) > 0
    ensures Consistent(Initiate(t, currentUser, request, entryId, guidN, now, reply, outage).tables)
  {
    InitiateEffect(t, currentUser, request, entryId, guidN, now, reply, outage);
    var t' := Initiate(t, currentUser, request, entryId, guidN, now, reply, outage).tables;
    if t' != t {
      var y := t'.transactions[entryId];
      UnsettledEntryKeepsEntriesWellFormed(t, t', entryId, y);
      UnsettledEntryKeepsBalancesMatched(t, t', entryId, y);
      UnsettledEntryKeepsLegsLinked(t, t', entryId, y);
    }
  }

  /** The converse: when the saved amount is not positive, a run that writes leaves an entry
      the ledger rules refuse, and a successful run always writes. */
  lemma NonPositiveEntryBreaksConsistency(t: Tables, currentUser: Option<Guid>, request: InitiateDepositCommand, entryId: Guid,
                                          guidN: string, now: Instant, reply: GatewayReply, outage: Outage)
    requires UniqueWalletOwners(t.wallets)
    requires StoredAmount(request) <= 0
    ensures var o := Initiate(t, currentUser, request, entryId, guidN, now, reply, outage);
            && (o.result.Ok? ==> o.tables != t)
            && (o.tables != t ==> !EntriesWellFormed(o.tables.transactions) && !Consistent(o.tables))
  {
    InitiateEffect(t, currentUser, request, entryId, guidN, now, reply, outage);
    var o := Initiate(t, currentUser, request, entryId, guidN, now, reply, outage);
    if o.result.Ok? {
      InitiateSuccess(t, currentUser, request, entryId, guidN, now, reply, outage);
      assert entryId in o.tables.transactions && entryId !in t.transactions;
    }
    if o.tables != t {
      assert entryId in o.tables.transactions && o.tables.transactions[entryId].amount <= 0;
    }
  }

  /** The handler as wired: no validation runs before it and it checks no amount itself, so a
      request of zero or less, which the validator would refuse, is saved with an amount of
      zero or less by any run that writes, and the store is no longer consistent. */
  lemma UnvalidatedDepositBreaksConsistency(t: Tables, currentUser: Option<Guid>, request: InitiateDepositCommand, entryId: Guid,
                                            guidN: string, now: Instant, reply: GatewayReply, outage: Outage)
    requires UniqueWalletOwners(t.wallets)
    requires request.amount.units <= 0
    ensures ValidateDeposit(request) == [AmountNotPositive]
    ensures var o := Initiate(t, currentUser, request, entryId, guidN, now, reply, outage);
            && (o.result.Ok? ==> o.tables != t)
            && (o.tables != t ==> !EntriesWellFormed(o.tables.transactions) && !Consistent(o.tables))
  {
    RoundKeepsSign(request.amount);
    NonPositiveEntryBreaksConsistency(t, currentUser, request, entryId, guidN, now, reply, outage);
  }

  /** As written, with the validator in front: 0.00004 passes the validator and is saved as
      0.0000, so a successful run leaves an inconsistent store. */
  lemma SubUnitDepositSavesZero(t: Tables, currentUser: Option<Guid>, entryId: Guid,
                                guidN: string, now: Instant, reply: GatewayReply, outage: Outage)
    requires UniqueWalletOwners(t.wallets)
    ensures var tiny := InitiateDepositCommand(Decimal(4, 5));
            var o := Initiate(t, currentUser, tiny, entryId, guidN, now, reply, outage);
            && ValidateDeposit(tiny) == [] && StoredAmount(tiny) == 0
            && (o.result.Ok? ==> !Consistent(o.tables))
  {
    SubUnitAmounts();
    NonPositiveEntryBreaksConsistency(t, currentUser, InitiateDepositCommand(Decimal(4, 5)), entryId, guidN, now, reply, outage);
  }

  /** As written: 0.00005 passes the validator and is saved, and later credited, as 0.0001,
      while a success reports the 0.00005 requested. */
  lemma HalfUnitDepositRoundsUp(t: Tables, currentUser: Option<Guid>, entryId: Guid,
                                guidN: string, now: Instant, reply: GatewayReply, outage: Outage)
    requires UniqueWalletOwners(t.wallets)
    ensures var half := InitiateDepositCommand(Decimal(5, 5));
            var o := Initiate(t, currentUser, half, entryId, guidN, now, reply, outage);
            && ValidateDeposit(half) == [] && StoredAmount(half) == 1
            && !SameValue(FromColumn(StoredAmount(half)), half.amount)
            && (o.result.Ok? ==> o.result.value.amount == Decimal(5, 5)
                                 && entryId in o.tables.transactions
                                 && o.tables.transactions[entryId].amount == 1)
  {
    SubUnitAmounts();
    var half := InitiateDepositCommand(Decimal(5, 5));
    if Initiate(t, currentUser, half, entryId, guidN, now, reply, outage).result.Ok? {
      InitiateSuccess(t, currentUser, half, entryId, guidN, now, reply, outage);
    }
  }

  lemma SubUnitAmounts()
    ensures ValidateDeposit(InitiateDepositCommand(Decimal(4, 5))) == []
    ensures StoredAmount(InitiateDepositCommand(Decimal(4, 5))) == 0
    ensures ValidateDeposit(InitiateDepositCommand(Decimal(5, 5))) == []
    ensures StoredAmount(InitiateDepositCommand(Decimal(5, 5))) == 1
    ensures !SameValue(FromColumn(1), Decimal(5, 5))
  {
    RoundSubUnit();
    Pow10Small();
    assert Align(FromColumn(1), 5) == 10;
  }

  const AmountTooPrecise: ValidationFailure := ValidationFailure("Amount", "Amount cannot have more than 4 decimal places")

  /** The rule the deposit amount evidently needs besides the validator's: no more than four
      decimal places, so that the column holds it exactly. */
  function PrecisionFailures(request: InitiateDepositCommand): (errors: seq<ValidationFailure>)
    ensures errors == [] <==> FitsColumn(request.amount)
  {
    if FitsColumn(request.amount) then [] else [AmountTooPrecise]
  }

  /** The handler with the deposit rules run first: the registered validator and the
      four-places rule. A refused request fails with their failures before any check or write;
      an accepted one runs the handler unchanged. Whatever such a run writes or returns carries
      an amount in (0, 10,000,000], saved without rounding. */
  function ValidatedInitiate(t: Tables, currentUser: Option<Guid>, request: InitiateDepositCommand, entryId: Guid,
                             guidN: string, now: Instant, reply: GatewayReply, outage: Outage): (o: Outcome<DepositInitializationResult>)
    requires UniqueWalletOwners(t.wallets)
    ensures o.tables != t ==>
              && 0 < StoredAmount(request) <= MaxDepositAmount
              && SameValue(FromColumn(StoredAmount(request)), request.amount)
    ensures o.result.Ok? ==> o.result.value.amount == request.amount && ValidateDeposit(request) == []
  {
    var errors := ValidateDeposit(request) + PrecisionFailures(request);
    if errors != [] then Outcome(Err(ValidationException(errors)), t)
    else
      SameRuleAsTransfers(request);
      AcceptedIsColumnValue(request.amount);
      var o := Initiate(t, currentUser, request, entryId, guidN, now, reply, outage);
      InitiateSuccessAmount(t, currentUser, request, entryId, guidN, now, reply, outage);
      o
  }

  lemma InitiateSuccessAmount(t: Tables, currentUser: Option<Guid>, request: InitiateDepositCommand, entryId: Guid,
                              guidN: string, now: Instant, reply: GatewayReply, outage: Outage)
    requires UniqueWalletOwners(t.wallets)
    ensures var o := Initiate(t, currentUser, request, entryId, guidN, now, reply, outage);
            o.result.Ok? ==> o.result.value.amount == request.amount
  {
    if Initiate(t, currentUser, request, entryId, guidN, now, reply, outage).result.Ok? {
      InitiateSuccess(t, currentUser, request, entryId, guidN, now, reply, outage);
    }
  }

  /** With the deposit rules in front, every run keeps a consistent store consistent, whatever
      the request; an amount out of range or with more than four decimal places is refused with
      the rules' failures and writes nothing. */
  lemma ValidatedInitiatePreservesConsistency(t: Tables, currentUser: Option<Guid>, request: InitiateDepositCommand, entryId: Guid,
                                              guidN: string, now: Instant, reply: GatewayReply, outage: Outage)
    requires Consistent(t)
    ensures Consistent(ValidatedInitiate(t, currentUser, request, entryId, guidN, now, reply, outage).tables)
    ensures ValidateDeposit(request) != [] || !FitsColumn(request.amount) ==>
              ValidatedInitiate(t, currentUser, request, entryId, guidN, now, reply, outage)
                == Outcome(Err(ValidationException(ValidateDeposit(request) + PrecisionFailures(request))), t)
  {
    if ValidateDeposit(request) == [] && FitsColumn(request.amount) {
      SameRuleAsTransfers(request);
      AcceptedIsColumnValue(request.amount);
      InitiatePreservesConsistency(t, currentUser, request, entryId, guidN, now, reply, outage);
    }
  }

  /** With the deposit rules in front, the entry a run saves, and the webhook later credits,
      holds exactly the requested amount, and a success reports that same amount. */
  lemma ValidatedInitiateStoresRequestedAmount(t: Tables, currentUser: Option<Guid>, request: InitiateDepositCommand, entryId: Guid,
                                               guidN: string, now: Instant, reply: GatewayReply, outage: Outage)
    requires UniqueWalletOwners(t.wallets)
    ensures var o := ValidatedInitiate(t, currentUser, request, entryId, guidN, now, reply, outage);
            && (o.tables != t ==> entryId in o.tables.transactions
                                  && SameValue(FromColumn(o.tables.transactions[entryId].amount), request.amount))
            && (o.result.Ok? ==> o.result.value.amount == request.amount)
  {
    var o := ValidatedInitiate(t, currentUser, request, entryId, guidN, now, reply, outage);
    if o.tables != t {
      InitiateEffect(t, currentUser, request, entryId, guidN, now, reply, outage);
    }
  }

  lemma UnsettledEntryKeepsEntriesWellFormed(t: Tables, t': Tables, id: Guid, y: Transaction)
    requires EntriesWellFormed(t.transactions)
    requires EntryWritten(t, t', id, y) && y.amount > 0 && y.kind == Deposit
    ensures EntriesWellFormed(t'.transactions)
  {
  }

  lemma UnsettledEntryKeepsBalancesMatched(t: Tables, t': Tables, id: Guid, y: Transaction)
    requires BalancesMatchLedger(t)
    requires EntryWritten(t, t', id, y) && y.status != Success
    ensures BalancesMatchLedger(t')
  {
    forall w | w in t'.wallets
      ensures 0 <= t'.wallets[w].balance == LedgerNet(t'.transactions, w)
    {
      LedgerNetUpdate(t.transactions, id, y, w);
    }
  }

  lemma UnsettledEntryKeepsLegsLinked(t: Tables, t': Tables, id: Guid, y: Transaction)
    requires LegsLinked(t)
    requires EntryWritten(t, t', id, y) && y.kind == Deposit
    ensures LegsLinked(t')
  {
    forall f | f in t'.transfers
      ensures LegsOf(t'.transactions, t'.transfers[f])
    {
      assert LegsOf(t.transactions, t.transfers[f]);
    }
    forall x | x in t'.transactions && t'.transactions[x].kind != Deposit
      ensures IsLeg(t', x)
    {
      assert IsLeg(t, x);
    }
  }

  /** The partner of settlement: once a deposit is initiated, the gateway's `charge.success`
      event for its reference settles exactly that entry, on the caller's wallet, for the
      requested amount. */
  lemma InitiatedDepositIsSettleable(t: Tables, currentUser: Option<Guid>, request: InitiateDepositCommand, entryId: Guid,
                                     guidN: string, now: Instant, reply: GatewayReply, outage: Outage, customer: string, amount: int)
    requires UniqueWalletOwners(t.wallets)
    requires Initiate(t, currentUser, request, entryId, guidN, now, reply, outage).result.Ok?
    ensures var t' := Initiate(t, currentUser, request, entryId, guidN, now, reply, outage).tables;
            var event := ProcessPaystackWebhookCommand("charge.success", PaystackWebhookData("DEP_" + guidN, "success", amount, customer));
            && Readable(t')
            && CheckSettle(t', event).Some?
            && CheckSettle(t', event).value.entryId == entryId
            && CheckSettle(t', event).value.entry.walletId == CheckDeposit(t, currentUser).value
            && CheckSettle(t', event).value.entry.amount == StoredAmount(request)
  {
    InitiateEffect(t, currentUser, request, entryId, guidN, now, reply, outage);
    InitiateSuccess(t, currentUser, request, entryId, guidN, now, reply, outage);
    var t' := Initiate(t, currentUser, request, entryId, guidN, now, reply, outage).tables;
    var y := PendingEntry(CheckDeposit(t, currentUser).value, StoredAmount(request), "DEP_" + guidN, now)
               .(paystackReference := Some(GatewayData(reply).value.reference));
    WrittenEntryIsStored(t, t', entryId, y);
    assert Schema(t');
    SchemaIsReadable(t');
    PendingEntryIsSettleable(t', entryId, ProcessPaystackWebhookCommand("charge.success", PaystackWebhookData("DEP_" + guidN, "success", amount, customer)));
  }

  lemma WrittenEntryIsStored(t: Tables, t': Tables, id: Guid, y: Transaction)
    requires EntryWritten(t, t', id, y)
    ensures id in t'.transactions && t'.transactions[id] == y && t' != t
  {
  }

  lemma SchemaIsReadable(t: Tables)
    requires Schema(t)
    ensures Readable(t)
  {
  }

  /** A successful charge event for the reference of a pending entry picks that entry. */
  lemma PendingEntryIsSettleable(t: Tables, id: Guid, event: ProcessPaystackWebhookCommand)
    requires Readable(t) && id in t.transactions && t.transactions[id].status == Pending
    requires event.event == "charge.success" && event.data.status == "success"
    requires event.data.reference == t.transactions[id].reference
    ensures CheckSettle(t, event) == Some(Settlement(id, t.transactions[id], t.wallets[t.transactions[id].walletId]))
  {
    TransactionByReferenceIsTheOnlyMatch(t.transactions, event.data.reference, id);
  }
}
