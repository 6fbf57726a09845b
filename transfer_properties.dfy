/** What a transfer guarantees: which requests are refused and with what, that a refused or
    failed transfer changes nothing, what a successful one writes, that it conserves money and
    keeps the ledger consistent, and that of two transfers planned from the same read of a wallet
    at most one goes through. */
module TransferProperties {
  import opened Common
  import opened Text
  import opened Entities
  import opened Store
  import opened Ledger
  import opened Lookups
  import opened Sums
  import opened TransferFunds

  /** A plan the checks produce describes two distinct wallets as they were read, and a positive
      amount the sender can cover. */
  predicate PlanReadFrom(t: Tables, plan: TransferPlan) {
    && plan.senderId != plan.recipientId
    && plan.senderId in t.wallets && plan.sender == t.wallets[plan.senderId]
    && plan.recipientId in t.wallets && plan.recipient == t.wallets[plan.recipientId]
    && 0 < plan.amount <= plan.sender.balance
  }

  /** The checks accept a request exactly when the caller is signed in, the amount is positive,
      the caller owns a wallet, another wallet carries the requested number, and the caller's
      balance covers the amount (an exactly equal balance is enough). The plan then names those
      two wallets. */
  lemma CheckTransferAccepts(t: Tables, currentUser: Option<Guid>, request: TransferFundsCommand)
    requires UniqueWalletOwners(t.wallets) && UniqueWalletNumbers(t.wallets)
    ensures CheckTransfer(t, currentUser, request).Ok?
        <==> && currentUser.Some?
             && request.amount > 0
             && exists s, r :: && s in t.wallets && r in t.wallets && s != r
                              && t.wallets[s].userId == currentUser.value
                              && t.wallets[r].walletNumber == request.recipientWalletNumber
                              && t.wallets[s].balance >= request.amount
    ensures CheckTransfer(t, currentUser, request).Ok? ==>
              var plan := CheckTransfer(t, currentUser, request).value;
              && PlanReadFrom(t, plan)
              && plan.sender.userId == currentUser.value
              && plan.recipient.walletNumber == request.recipientWalletNumber
              && plan.amount == request.amount
              && plan.description == request.description
  {
    if currentUser.Some? && request.amount > 0 {
      if s, r :| && s in t.wallets && r in t.wallets && s != r
                 && t.wallets[s].userId == currentUser.value
                 && t.wallets[r].walletNumber == request.recipientWalletNumber
                 && t.wallets[s].balance >= request.amount {
        WalletOfUserIsTheOnlyMatch(t.wallets, currentUser.value, s);
        WalletByNumberIsTheOnlyMatch(t.wallets, request.recipientWalletNumber, r);
      }
    }
  }

  /** Each refusal, with its message, in the order the checks are made. None of them writes. */
  lemma TransferRefusals(t: Tables, currentUser: Option<Guid>, request: TransferFundsCommand, ids: NewIds,
                         guidN: string, now: Instant, outage: Outage)
    requires UniqueWalletOwners(t.wallets) && UniqueWalletNumbers(t.wallets)
    ensures currentUser.None? ==>
              Transfer(t, currentUser, request, ids, guidN, now, outage)
              == Outcome(Err(UnauthorizedAccessException("User is not authenticated")), t)
    ensures currentUser.Some? && request.amount <= 0 ==>
              Transfer(t, currentUser, request, ids, guidN, now, outage)
              == Outcome(Err(InvalidOperationException("Transfer amount must be greater than zero")), t)
    ensures currentUser.Some? && request.amount > 0 && WalletOfUser(t.wallets, currentUser.value).None? ==>
              Transfer(t, currentUser, request, ids, guidN, now, outage)
              == Outcome(Err(InvalidOperationException("Sender wallet not found")), t)
    ensures currentUser.Some? && request.amount > 0 && WalletOfUser(t.wallets, currentUser.value).Some?
            && WalletByNumber(t.wallets, request.recipientWalletNumber).None? ==>
              Transfer(t, currentUser, request, ids, guidN, now, outage)
              == Outcome(Err(InvalidOperationException(RecipientNotFoundMessage(request.recipientWalletNumber))), t)
    ensures currentUser.Some? && request.amount > 0
            && WalletOfUser(t.wallets, currentUser.value).Some?
            && WalletOfUser(t.wallets, currentUser.value) == WalletByNumber(t.wallets, request.recipientWalletNumber) ==>
              Transfer(t, currentUser, request, ids, guidN, now, outage)
              == Outcome(Err(InvalidOperationException("Cannot transfer to your own wallet")), t)
    ensures forall s, r :: && currentUser.Some? && request.amount > 0
                           && WalletOfUser(t.wallets, currentUser.value) == Some(s)
                           && WalletByNumber(t.wallets, request.recipientWalletNumber) == Some(r)
                           && s != r && t.wallets[s].balance < request.amount ==>
              Transfer(t, currentUser, request, ids, guidN, now, outage)
              == Outcome(Err(InvalidOperationException(InsufficientBalanceMessage(t.wallets[s].balance, request.amount))), t)
  {
  }

  /** A transfer that fails, for whatever reason and at whatever step, leaves the store as it was. */
  lemma TransferFailureChangesNothing(t: Tables, currentUser: Option<Guid>, request: TransferFundsCommand, ids: NewIds,
                                      guidN: string, now: Instant, outage: Outage)
    requires UniqueWalletOwners(t.wallets) && UniqueWalletNumbers(t.wallets)
    ensures Transfer(t, currentUser, request, ids, guidN, now, outage).result.Err? ==>
              Transfer(t, currentUser, request, ids, guidN, now, outage).tables == t
  {
    if CheckTransfer(t, currentUser, request).Ok? {
      CommitFailureRollsBack(t, CheckTransfer(t, currentUser, request).value, ids, guidN, now, outage);
    }
  }

  /** A concurrency conflict on either save is reported as the retry message. */
  lemma ConflictIsReportedAsRetry(t: Tables, plan: TransferPlan, ids: NewIds, guidN: string, now: Instant, outage: Outage)
    ensures var first := SaveError(t, LegsChange(plan, ids, "TRF_" + guidN, now), 1 in outage.saves);
            first == Some(DbUpdateConcurrencyException) ==>
              CommitTransfer(t, plan, ids, guidN, now, outage)
              == Outcome(Err(InvalidOperationException(ConcurrencyMessage)), t)
    ensures var t1 := Apply(t, LegsChange(plan, ids, "TRF_" + guidN, now));
            && SaveError(t, LegsChange(plan, ids, "TRF_" + guidN, now), 1 in outage.saves).None?
            && SaveError(t1, RecordChange(plan, ids, "TRF_" + guidN, now), 2 in outage.saves) == Some(DbUpdateConcurrencyException) ==>
              CommitTransfer(t, plan, ids, guidN, now, outage)
              == Outcome(Err(InvalidOperationException(ConcurrencyMessage)), t)
  {
  }

  /** A successful transfer: the checks accepted the request, the store changed exactly as
      `TransferEffect` says, and the result reports the reference, both wallet numbers, the amount
      and the sender's balance after the debit. */
  lemma TransferSuccess(t: Tables, currentUser: Option<Guid>, request: TransferFundsCommand, ids: NewIds,
                        guidN: string, now: Instant, outage: Outage)
    requires UniqueWalletOwners(t.wallets) && UniqueWalletNumbers(t.wallets)
    requires Transfer(t, currentUser, request, ids, guidN, now, outage).result.Ok?
    ensures CheckTransfer(t, currentUser, request).Ok?
    ensures var plan := CheckTransfer(t, currentUser, request).value;
            var o := Transfer(t, currentUser, request, ids, guidN, now, outage);
            && PlanReadFrom(t, plan)
            && TransferEffect(t, o.tables, plan, ids, "TRF_" + guidN, now)
            && o.result.value.transferReference == "TRF_" + guidN
            && o.result.value.senderWalletNumber == t.wallets[plan.senderId].walletNumber
            && o.result.value.recipientWalletNumber == request.recipientWalletNumber
            && o.result.value.amount == request.amount
            && o.result.value.newBalance == o.tables.wallets[plan.senderId].balance
            && o.result.value.description == request.description
  {
    CheckTransferAccepts(t, currentUser, request);
    var plan := CheckTransfer(t, currentUser, request).value;
    assert Transfer(t, currentUser, request, ids, guidN, now, outage) == CommitTransfer(t, plan, ids, guidN, now, outage);
    CommitEffect(t, plan, ids, guidN, now, outage);
    CommitResult(t, plan, ids, guidN, now, outage);
  }

  /** The balances a successful transfer leaves: the sender down by the amount, the recipient up
      by it, every other wallet as it was, none negative. */
  lemma EffectOnBalances(t: Tables, t': Tables, plan: TransferPlan, ids: NewIds, reference: string, now: Instant)
    requires PlanReadFrom(t, plan) && TransferEffect(t, t', plan, ids, reference, now)
    requires forall w :: w in t.wallets ==> t.wallets[w].balance >= 0
    ensures t'.wallets.Keys == t.wallets.Keys
    ensures t'.wallets[plan.senderId].balance == t.wallets[plan.senderId].balance - plan.amount
    ensures t'.wallets[plan.recipientId].balance == t.wallets[plan.recipientId].balance + plan.amount
    ensures forall w :: w in t.wallets && w != plan.senderId && w != plan.recipientId ==> t'.wallets[w] == t.wallets[w]
    ensures forall w :: w in t'.wallets ==> t'.wallets[w].balance >= 0
  {
  }

  /** A successful transfer moves money between two wallets and creates or destroys none. */
  lemma EffectConservesTotal(t: Tables, t': Tables, plan: TransferPlan, ids: NewIds, reference: string, now: Instant)
    requires PlanReadFrom(t, plan) && TransferEffect(t, t', plan, ids, reference, now)
    ensures TotalBalance(t'.wallets) == TotalBalance(t.wallets)
  {
    var s, r := plan.senderId, plan.recipientId;
    var ws1 := t.wallets[s := Bump(t.wallets[s].(balance := t.wallets[s].balance - plan.amount))];
    TotalBalanceUpdate(t.wallets, s, ws1[s]);
    TotalBalanceUpdate(ws1, r, Bump(t.wallets[r].(balance := t.wallets[r].balance + plan.amount)));
  }

  /** The ledger entries a successful transfer adds: exactly two new settled entries, a debit on
      the sender and a credit on the recipient, both of the amount, with distinct references. */
  lemma EffectOnEntries(t: Tables, t': Tables, plan: TransferPlan, ids: NewIds, reference: string, now: Instant)
    requires ids.debit != ids.credit
    requires TransferEffect(t, t', plan, ids, reference, now)
    ensures t'.transactions.Keys == t.transactions.Keys + {ids.debit, ids.credit}
    ensures |t'.transactions| == |t.transactions| + 2
    ensures forall id :: id in t.transactions ==> t'.transactions[id] == t.transactions[id]
    ensures var d, c := t'.transactions[ids.debit], t'.transactions[ids.credit];
            && d.kind == TransferDebit && d.walletId == plan.senderId && d.amount == plan.amount && d.status == Success
            && c.kind == TransferCredit && c.walletId == plan.recipientId && c.amount == plan.amount && c.status == Success
            && d.reference == reference + "_DEBIT" && c.reference == reference + "_CREDIT"
            && d.reference != c.reference
  {
    LegReferencesDiffer(reference);
    TwoInsertions(t.transactions, ids.debit, DebitLeg(plan, reference, now), ids.credit, CreditLeg(plan, reference, now));
  }

  lemma LegReferencesDiffer(reference: string)
    ensures reference + "_DEBIT" != reference + "_CREDIT"
  {
    assert (reference + "_DEBIT")[|reference| + 1] == 'D';
    assert (reference + "_CREDIT")[|reference| + 1] == 'C';
  }

  lemma TwoInsertions<V>(m: map<Guid, V>, a: Guid, va: V, b: Guid, vb: V)
    requires a !in m && b !in m && a != b
    ensures m[a := va][b := vb].Keys == m.Keys + {a, b}
    ensures |m[a := va][b := vb]| == |m| + 2
    ensures forall k :: k in m ==> m[a := va][b := vb][k] == m[k]
  {
    assert |m[a := va]| == |m| + 1;
    assert |m[a := va][b := vb]| == |m[a := va]| + 1;
  }

  /** The one transfer record a successful transfer adds, linking its two legs. */
  lemma EffectOnTransfers(t: Tables, t': Tables, plan: TransferPlan, ids: NewIds, reference: string, now: Instant)
    requires TransferEffect(t, t', plan, ids, reference, now)
    ensures t'.transfers.Keys == t.transfers.Keys + {ids.transfer}
    ensures |t'.transfers| == |t.transfers| + 1
    ensures forall f :: f in t.transfers ==> t'.transfers[f] == t.transfers[f]
    ensures var f := t'.transfers[ids.transfer];
            && f.debitTransactionId == ids.debit && f.creditTransactionId == ids.credit
            && f.senderWalletId == plan.senderId && f.receiverWalletId == plan.recipientId
            && f.amount == plan.amount && f.reference == reference
            && f.description == plan.description && f.createdAt == now
  {
  }

  /** A successful transfer keeps every entry well formed, every balance equal to its wallet's
      ledger net, and every transfer linked to its two legs. */
  lemma EffectPreservesConsistency(t: Tables, t': Tables, plan: TransferPlan, ids: NewIds, reference: string, now: Instant)
    requires Consistent(t) && Schema(t')
    requires ids.debit != ids.credit
    requires PlanReadFrom(t, plan) && TransferEffect(t, t', plan, ids, reference, now)
    ensures Consistent(t')
  {
    EffectKeepsEntriesWellFormed(t, t', plan, ids, reference, now);
    EffectKeepsBalancesMatched(t, t', plan, ids, reference, now);
    EffectKeepsLegsLinked(t, t', plan, ids, reference, now);
  }

  lemma EffectKeepsEntriesWellFormed(t: Tables, t': Tables, plan: TransferPlan, ids: NewIds, reference: string, now: Instant)
    requires EntriesWellFormed(t.transactions)
    requires PlanReadFrom(t, plan) && TransferEffect(t, t', plan, ids, reference, now)
    ensures EntriesWellFormed(t'.transactions)
  {
  }

  lemma EffectKeepsBalancesMatched(t: Tables, t': Tables, plan: TransferPlan, ids: NewIds, reference: string, now: Instant)
    requires BalancesMatchLedger(t)
    requires ids.debit != ids.credit
    requires PlanReadFrom(t, plan) && TransferEffect(t, t', plan, ids, reference, now)
    ensures BalancesMatchLedger(t')
  {
    forall w | w in t'.wallets
      ensures 0 <= t'.wallets[w].balance == LedgerNet(t'.transactions, w)
    {
      LegsNet(t.transactions, plan, ids, reference, now, w);
    }
  }

  /** What the two legs do to one wallet's ledger net. */
  lemma LegsNet(txs: map<Guid, Transaction>, plan: TransferPlan, ids: NewIds, reference: string, now: Instant, w: Guid)
    requires ids.debit != ids.credit && ids.debit !in txs && ids.credit !in txs
    requires plan.senderId != plan.recipientId
    ensures LedgerNet(txs[ids.debit := DebitLeg(plan, reference, now)][ids.credit := CreditLeg(plan, reference, now)], w)
         == LedgerNet(txs, w) - (if w == plan.senderId then plan.amount else 0) + (if w == plan.recipientId then plan.amount else 0)
  {
    var txs1 := txs[ids.debit := DebitLeg(plan, reference, now)];
    LedgerNetUpdate(txs, ids.debit, DebitLeg(plan, reference, now), w);
    LedgerNetUpdate(txs1, ids.credit, CreditLeg(plan, reference, now), w);
  }

  lemma EffectKeepsLegsLinked(t: Tables, t': Tables, plan: TransferPlan, ids: NewIds, reference: string, now: Instant)
    requires LegsLinked(t)
    requires ids.debit != ids.credit
    requires PlanReadFrom(t, plan) && TransferEffect(t, t', plan, ids, reference, now)
    ensures LegsLinked(t')
  {
    EffectKeepsTransfersBacked(t, t', plan, ids, reference, now);
    EffectKeepsEntriesLinked(t, t', plan, ids, reference, now);
  }

  lemma EffectKeepsTransfersBacked(t: Tables, t': Tables, plan: TransferPlan, ids: NewIds, reference: string, now: Instant)
    requires forall f :: f in t.transfers ==> LegsOf(t.transactions, t.transfers[f])
    requires ids.debit != ids.credit
    requires PlanReadFrom(t, plan) && TransferEffect(t, t', plan, ids, reference, now)
    ensures forall f :: f in t'.transfers ==> LegsOf(t'.transactions, t'.transfers[f])
  {
    forall f | f in t'.transfers
      ensures LegsOf(t'.transactions, t'.transfers[f])
    {
      if f != ids.transfer {
        LegsOfSurviveInsertions(t.transactions, t'.transactions, t.transfers[f]);
      }
    }
  }

  /** Entries that stay as they were keep backing the transfers they backed. */
  lemma LegsOfSurviveInsertions(txs: map<Guid, Transaction>, txs': map<Guid, Transaction>, f: WalletTransfer)
    requires LegsOf(txs, f)
    requires forall id :: id in txs ==> id in txs' && txs'[id] == txs[id]
    ensures LegsOf(txs', f)
  {
  }

  lemma EffectKeepsEntriesLinked(t: Tables, t': Tables, plan: TransferPlan, ids: NewIds, reference: string, now: Instant)
    requires forall id :: id in t.transactions && t.transactions[id].kind != Deposit ==> IsLeg(t, id)
    requires TransferEffect(t, t', plan, ids, reference, now)
    ensures forall id :: id in t'.transactions && t'.transactions[id].kind != Deposit ==> IsLeg(t', id)
  {
    forall id | id in t'.transactions && t'.transactions[id].kind != Deposit
      ensures IsLeg(t', id)
    {
      if id == ids.debit || id == ids.credit {
        assert ids.transfer in t'.transfers;
      } else {
        assert IsLeg(t, id);
        var f :| f in t.transfers && (t.transfers[f].debitTransactionId == id || t.transfers[f].creditTransactionId == id);
        assert f in t'.transfers && t'.transfers[f] == t.transfers[f];
      }
    }
  }

  /** A transfer run on a consistent store leaves it consistent, and on success conserves the total
      balance. The two leg ids are distinct, as fresh Guids are. */
  lemma TransferPreservesConsistency(t: Tables, currentUser: Option<Guid>, request: TransferFundsCommand, ids: NewIds,
                                     guidN: string, now: Instant, outage: Outage)
    requires Consistent(t)
    requires ids.debit != ids.credit
    ensures Consistent(Transfer(t, currentUser, request, ids, guidN, now, outage).tables)
    ensures TotalBalance(Transfer(t, currentUser, request, ids, guidN, now, outage).tables.wallets) == TotalBalance(t.wallets)
  {
    var o := Transfer(t, currentUser, request, ids, guidN, now, outage);
    TransferFailureChangesNothing(t, currentUser, request, ids, guidN, now, outage);
    if o.result.Ok? {
      TransferSuccess(t, currentUser, request, ids, guidN, now, outage);
      var plan := CheckTransfer(t, currentUser, request).value;
      TransferSchema(t, plan, ids, guidN, now, outage);
      EffectPreservesConsistency(t, o.tables, plan, ids, "TRF_" + guidN, now);
      EffectConservesTotal(t, o.tables, plan, ids, "TRF_" + guidN, now);
    }
  }

  /** The store after a successful commit satisfies its schema: the second save checked it. */
  lemma TransferSchema(t: Tables, plan: TransferPlan, ids: NewIds, guidN: string, now: Instant, outage: Outage)
    requires CommitTransfer(t, plan, ids, guidN, now, outage).result.Ok?
    ensures Schema(CommitTransfer(t, plan, ids, guidN, now, outage).tables)
  {
    var reference := "TRF_" + guidN;
    SavedStateIsWellFormed(Apply(t, LegsChange(plan, ids, reference, now)), RecordChange(plan, ids, reference, now), 2 in outage.saves);
  }

  /** Two transfers planned from the same store state that touch a common wallet: once the first
      has gone through, the second cannot, because the shared wallet's version has moved; it fails
      and leaves the first one's state as it is. So the wallet is debited or credited once, not
      twice from one balance reading. */
  lemma RacingTransfers(t: Tables, p1: TransferPlan, ids1: NewIds, g1: string, n1: Instant, out1: Outage,
                        p2: TransferPlan, ids2: NewIds, g2: string, n2: Instant, out2: Outage)
    requires PlanReadFrom(t, p1) && PlanReadFrom(t, p2)
    requires p2.senderId in {p1.senderId, p1.recipientId} || p2.recipientId in {p1.senderId, p1.recipientId}
    requires CommitTransfer(t, p1, ids1, g1, n1, out1).result.Ok?
    ensures var t1 := CommitTransfer(t, p1, ids1, g1, n1, out1).tables;
            && CommitTransfer(t1, p2, ids2, g2, n2, out2).result.Err?
            && CommitTransfer(t1, p2, ids2, g2, n2, out2).tables == t1
  {
    CommitEffect(t, p1, ids1, g1, n1, out1);
    var t1 := CommitTransfer(t, p1, ids1, g1, n1, out1).tables;
    if CommitTransfer(t1, p2, ids2, g2, n2, out2).result.Ok? {
      CommitSucceeded(t1, p2, ids2, g2, n2, out2);
      assert false;
    }
    CommitFailureRollsBack(t1, p2, ids2, g2, n2, out2);
  }

  /** When nothing else goes wrong with the second transfer's first save, its failure is the
      concurrency conflict, reported as the retry message. */
  lemma RacingTransferReportsConflict(t: Tables, p1: TransferPlan, ids1: NewIds, g1: string, n1: Instant, out1: Outage,
                                      p2: TransferPlan, ids2: NewIds, g2: string, n2: Instant)
    requires PlanReadFrom(t, p1) && PlanReadFrom(t, p2)
    requires p2.senderId in {p1.senderId, p1.recipientId} || p2.recipientId in {p1.senderId, p1.recipientId}
    requires CommitTransfer(t, p1, ids1, g1, n1, out1).result.Ok?
    requires SaveError(CommitTransfer(t, p1, ids1, g1, n1, out1).tables, LegsChange(p2, ids2, "TRF_" + g2, n2), false).None?
    ensures CommitTransfer(CommitTransfer(t, p1, ids1, g1, n1, out1).tables, p2, ids2, g2, n2, NoOutage).result
         == Err(InvalidOperationException(ConcurrencyMessage))
  {
    CommitEffect(t, p1, ids1, g1, n1, out1);
    var t1 := CommitTransfer(t, p1, ids1, g1, n1, out1).tables;
    EffectMovesVersions(t, t1, p1, ids1, "TRF_" + g1, n1, p2);
    if p2.senderId in {p1.senderId, p1.recipientId} {
      StaleCommitConflicts(t1, p2, ids2, g2, n2, p2.senderId);
    } else {
      StaleCommitConflicts(t1, p2, ids2, g2, n2, p2.recipientId);
    }
  }

  /** A commit whose plan read one of its wallets at a version the store has since moved past is
      refused by the second save as a concurrency conflict. */
  lemma StaleCommitConflicts(t: Tables, plan: TransferPlan, ids: NewIds, guidN: string, now: Instant, id: Guid)
    requires plan.senderId != plan.recipientId
    requires id == plan.senderId || id == plan.recipientId
    requires id in t.wallets
    requires t.wallets[id].version != (if id == plan.senderId then plan.sender.version else plan.recipient.version)
    requires SaveError(t, LegsChange(plan, ids, "TRF_" + guidN, now), false).None?
    ensures CommitTransfer(t, plan, ids, guidN, now, NoOutage).result == Err(InvalidOperationException(ConcurrencyMessage))
  {
    var reference := "TRF_" + guidN;
    ApplyLegs(t, plan, ids, reference, now);
    var t1 := Apply(t, LegsChange(plan, ids, reference, now));
    var record := RecordChange(plan, ids, reference, now);
    assert id in record.modified.wallets && t1.wallets[id].version != record.modified.wallets[id].version;
    StaleWalletConflicts(t1, record, id);
  }

  /** A successful transfer moves the version of both its wallets, so any plan that read one of
      them beforehand is stale. */
  lemma EffectMovesVersions(t: Tables, t': Tables, p1: TransferPlan, ids: NewIds, reference: string, now: Instant, p2: TransferPlan)
    requires PlanReadFrom(t, p1) && PlanReadFrom(t, p2)
    requires TransferEffect(t, t', p1, ids, reference, now)
    ensures p2.senderId in {p1.senderId, p1.recipientId} ==>
              p2.senderId in t'.wallets && t'.wallets[p2.senderId].version != p2.sender.version
    ensures p2.recipientId in {p1.senderId, p1.recipientId} ==>
              p2.recipientId in t'.wallets && t'.wallets[p2.recipientId].version != p2.recipient.version
  {
  }
}
