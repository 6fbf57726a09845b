/** What settlement guarantees: every event but the successful charge of a pending entry is a
    no-op; a settlement marks that one entry settled and credits its own wallet with the stored
    amount and nothing more; processing an event again changes nothing; the ledger stays
    consistent; and of two deliveries of one event that both read the entry as pending, only one
    credits the wallet. */
module WebhookProperties {
  import opened Common
  import opened Entities
  import opened Store
  import opened Ledger
  import opened Lookups
  import opened Sums
  import opened PaystackWebhook

  /** The ignored events, each acknowledged without a write. */
  lemma IgnoredEvents(t: Tables, request: ProcessPaystackWebhookCommand, outage: Outage)
    requires Readable(t)
    ensures request.event != "charge.success" ==> Settle(t, request, outage) == Outcome(Ok(Unit), t)
    ensures request.data.status != "success" ==> Settle(t, request, outage) == Outcome(Ok(Unit), t)
    ensures TransactionByReference(t.transactions, request.data.reference).None? ==>
              Settle(t, request, outage) == Outcome(Ok(Unit), t)
    ensures forall id :: TransactionByReference(t.transactions, request.data.reference) == Some(id)
                         && t.transactions[id].status != Pending ==>
              Settle(t, request, outage) == Outcome(Ok(Unit), t)
  {
  }

  /** The checks pick a settlement exactly for a successful charge of a pending entry with that
      reference, and the settlement is that entry and its wallet as stored. */
  lemma CheckSettleMeaning(t: Tables, request: ProcessPaystackWebhookCommand)
    requires Readable(t)
    ensures CheckSettle(t, request).Some?
        <==> && request.event == "charge.success" && request.data.status == "success"
             && exists id :: id in t.transactions && t.transactions[id].reference == request.data.reference
                             && t.transactions[id].status == Pending
    ensures CheckSettle(t, request).Some? ==>
              var s := CheckSettle(t, request).value;
              SettlementReadFrom(t, s) && s.entry.reference == request.data.reference
  {
    if id :| id in t.transactions && t.transactions[id].reference == request.data.reference {
      TransactionByReferenceIsTheOnlyMatch(t.transactions, request.data.reference, id);
    }
  }

  /** A settlement describes a pending entry and its wallet as they are stored in `t`. */
  predicate SettlementReadFrom(t: Tables, s: Settlement) {
    && s.entryId in t.transactions && s.entry == t.transactions[s.entryId]
    && s.entry.status == Pending
    && s.entry.walletId in t.wallets && s.wallet == t.wallets[s.entry.walletId]
  }

  /** The one save writes the settled entry and the credited wallet, with a new version. */
  lemma ApplyCredit(t: Tables, s: Settlement)
    ensures Apply(t, CreditChange(s))
         == t.(transactions := t.transactions[s.entryId := s.entry.(status := Success)],
               wallets := t.wallets[s.entry.walletId := Bump(s.wallet.(balance := s.wallet.balance + s.entry.amount))])
  {
    ApplyCreditWallets(t, s);
    MergeOne(t.transactions, s.entryId, s.entry.(status := Success));
    ApplyKeeps(t, CreditChange(s));
  }

  lemma ApplyCreditWallets(t: Tables, s: Settlement)
    ensures Apply(t, CreditChange(s)).wallets
         == t.wallets[s.entry.walletId := Bump(s.wallet.(balance := s.wallet.balance + s.entry.amount))]
  {
    var w := s.wallet.(balance := s.wallet.balance + s.entry.amount);
    StampedOne(s.entry.walletId, w);
    MergeOne(t.wallets, s.entry.walletId, Bump(w));
  }

  /** What a settlement writes: the entry becomes `Success`, its wallet's balance rises by the
      stored entry amount (the event's amount plays no part), and nothing else changes. */
  predicate CreditEffect(t: Tables, t': Tables, s: Settlement) {
    && SettlementReadFrom(t, s)
    && t'.users == t.users && t'.transfers == t.transfers && t'.apiKeys == t.apiKeys
    && t'.transactions == t.transactions[s.entryId := t.transactions[s.entryId].(status := Success)]
    && t'.wallets == t.wallets[s.entry.walletId := Bump(t.wallets[s.entry.walletId].(balance := t.wallets[s.entry.walletId].balance + s.entry.amount))]
  }

  /** A commit that went through saved the change set, so the new state satisfies the schema and
      is the credit applied to `t`. */
  lemma CommitSettleSucceeded(t: Tables, s: Settlement, outage: Outage)
    requires CommitSettle(t, s, outage).result.Ok?
    ensures CommitSettle(t, s, outage).tables == Apply(t, CreditChange(s))
    ensures Schema(CommitSettle(t, s, outage).tables)
  {
    SavedStateIsWellFormed(t, CreditChange(s), 1 in outage.saves);
  }

  /** Every failed run leaves the store as it was. */
  lemma SettleFailureChangesNothing(t: Tables, request: ProcessPaystackWebhookCommand, outage: Outage)
    requires Readable(t)
    ensures Settle(t, request, outage).result.Err? ==> Settle(t, request, outage).tables == t
  {
  }

  /** The credit applied to the state the settlement was read from is the credit effect. */
  lemma CreditApplied(t: Tables, t': Tables, s: Settlement)
    requires SettlementReadFrom(t, s)
    requires t' == Apply(t, CreditChange(s))
    ensures CreditEffect(t, t', s)
  {
    ApplyCredit(t, s);
  }

  /** A commit either changes nothing or writes exactly the credit, and what it writes satisfies
      the schema. */
  lemma CommitSettleEffect(t: Tables, s: Settlement, outage: Outage)
    requires SettlementReadFrom(t, s)
    ensures var o := CommitSettle(t, s, outage);
            || (o.result.Err? && o.tables == t)
            || (o.result.Ok? && CreditEffect(t, o.tables, s) && Schema(o.tables))
  {
    if CommitSettle(t, s, outage).result.Ok? {
      CommitSettleSucceeded(t, s, outage);
      CreditApplied(t, CommitSettle(t, s, outage).tables, s);
    }
  }

  /** A run either changes nothing or is exactly the settlement the checks picked. */
  lemma SettleEffect(t: Tables, request: ProcessPaystackWebhookCommand, outage: Outage)
    requires Readable(t)
    ensures var o := Settle(t, request, outage);
            || o.tables == t
            || (&& o.result.Ok? && CheckSettle(t, request).Some?
                && SettlementReadFrom(t, CheckSettle(t, request).value)
                && CreditEffect(t, o.tables, CheckSettle(t, request).value)
                && Schema(o.tables))
  {
    CheckSettleMeaning(t, request);
    if CheckSettle(t, request).Some? {
      CommitSettleEffect(t, CheckSettle(t, request).value, outage);
    }
  }

  /** The event's own amount is never read: changing it changes nothing about the run. */
  lemma AmountFieldUnused(t: Tables, request: ProcessPaystackWebhookCommand, outage: Outage, amount: int)
    requires Readable(t)
    ensures Settle(t, request, outage) == Settle(t, request.(data := request.data.(amount := amount)), outage)
  {
  }

  /** After a run the store is still readable by the handler. */
  lemma SettleKeepsReadable(t: Tables, request: ProcessPaystackWebhookCommand, outage: Outage)
    requires Readable(t)
    ensures Readable(Settle(t, request, outage).tables)
  {
    SettleEffect(t, request, outage);
  }

  /** Delivering the same event a second time, whatever the first delivery did, leaves the state
      the first one left: an entry already settled is not settled again. */
  lemma SettleIdempotent(t: Tables, request: ProcessPaystackWebhookCommand, outage: Outage)
    requires Readable(t)
    ensures Readable(Settle(t, request, outage).tables)
    ensures Settle(Settle(t, request, outage).tables, request, outage).tables == Settle(t, request, outage).tables
  {
    SettleEffect(t, request, outage);
    SettleKeepsReadable(t, request, outage);
    var t1 := Settle(t, request, outage).tables;
    if t1 != t {
      var s := CheckSettle(t, request).value;
      SettledEntryIsFound(t, t1, request, s);
    }
  }

  /** After a settlement the event's reference finds the same entry, now settled, so the checks
      ignore the event. */
  lemma SettledEntryIsFound(t: Tables, t1: Tables, request: ProcessPaystackWebhookCommand, s: Settlement)
    requires Readable(t) && Readable(t1)
    requires CheckSettle(t, request) == Some(s)
    requires CreditEffect(t, t1, s)
    ensures CheckSettle(t1, request).None?
  {
    CheckSettleMeaning(t, request);
    TransactionByReferenceIsTheOnlyMatch(t1.transactions, request.data.reference, s.entryId);
  }

  /** A settlement keeps the ledger consistent: the entry it settles is a pending deposit, so
      settling it adds exactly its amount to its wallet's ledger net, as the credit does to the
      balance. The total of all balances rises by that amount. */
  lemma CreditPreservesConsistency(t: Tables, t': Tables, s: Settlement)
    requires Consistent(t) && Schema(t')
    requires CreditEffect(t, t', s)
    ensures Consistent(t')
    ensures TotalBalance(t'.wallets) == TotalBalance(t.wallets) + s.entry.amount
  {
    CreditKeepsEntriesWellFormed(t, t', s);
    CreditKeepsBalancesMatched(t, t', s);
    CreditKeepsLegsLinked(t, t', s);
    CreditRaisesTotal(t, t', s);
  }

  lemma CreditKeepsEntriesWellFormed(t: Tables, t': Tables, s: Settlement)
    requires EntriesWellFormed(t.transactions)
    requires CreditEffect(t, t', s)
    ensures EntriesWellFormed(t'.transactions)
  {
  }

  /** The settled entry is a deposit (only deposits are ever pending), so its wallet's ledger net
      rises by its amount, which is what the credit adds to the balance. */
  lemma CreditKeepsBalancesMatched(t: Tables, t': Tables, s: Settlement)
    requires EntriesWellFormed(t.transactions) && BalancesMatchLedger(t)
    requires CreditEffect(t, t', s)
    ensures BalancesMatchLedger(t')
  {
    assert s.entry.kind == Deposit && s.entry.amount > 0;
    var x := t.transactions[s.entryId].(status := Success);
    forall v | v in t'.wallets
      ensures 0 <= t'.wallets[v].balance == LedgerNet(t'.transactions, v)
    {
      LedgerNetUpdate(t.transactions, s.entryId, x, v);
    }
  }

  lemma CreditKeepsLegsLinked(t: Tables, t': Tables, s: Settlement)
    requires LegsLinked(t)
    requires CreditEffect(t, t', s)
    ensures LegsLinked(t')
  {
    forall f | f in t'.transfers
      ensures LegsOf(t'.transactions, t'.transfers[f])
    {
      assert LegsOf(t.transactions, t.transfers[f]);
    }
    forall id | id in t'.transactions && t'.transactions[id].kind != Deposit
      ensures IsLeg(t', id)
    {
      assert IsLeg(t, id);
    }
  }

  lemma CreditRaisesTotal(t: Tables, t': Tables, s: Settlement)
    requires CreditEffect(t, t', s)
    ensures TotalBalance(t'.wallets) == TotalBalance(t.wallets) + s.entry.amount
  {
    var w := s.entry.walletId;
    TotalBalanceUpdate(t.wallets, w, t'.wallets[w]);
  }

  /** Any run keeps a consistent store consistent. */
  lemma SettlePreservesConsistency(t: Tables, request: ProcessPaystackWebhookCommand, outage: Outage)
    requires Consistent(t)
    ensures Consistent(Settle(t, request, outage).tables)
  {
    SettleEffect(t, request, outage);
    var o := Settle(t, request, outage);
    if o.tables != t {
      CreditPreservesConsistency(t, o.tables, CheckSettle(t, request).value);
    }
  }

  /** Two deliveries of one event that both read the entry as pending: once the first has
      committed, the second's save finds the wallet's version moved and fails with a concurrency
      conflict (unless the store failed first), and the store keeps the first delivery's state.
      The wallet is credited once. */
  lemma DuplicateDeliveriesCreditOnce(t: Tables, s: Settlement, out1: Outage, out2: Outage)
    requires SettlementReadFrom(t, s)
    requires CommitSettle(t, s, out1).result.Ok?
    ensures var t1 := CommitSettle(t, s, out1).tables;
            && CommitSettle(t1, s, out2).tables == t1
            && CommitSettle(t1, s, out2).result
               == Err(if 1 in out2.saves then DbFailure else DbUpdateConcurrencyException)
  {
    CommitSettleSucceeded(t, s, out1);
    ApplyCredit(t, s);
    var t1 := CommitSettle(t, s, out1).tables;
    var m := CreditChange(s).modified;
    assert s.entry.walletId in m.wallets && t1.wallets[s.entry.walletId].version != m.wallets[s.entry.walletId].version;
    if !(1 in out2.saves) {
      StaleWalletConflicts(t1, CreditChange(s), s.entry.walletId);
    }
  }
}
