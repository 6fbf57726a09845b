/** The invariants of the wallet ledger that every handler keeps: balances are never
    negative, each balance is the net of its wallet's settled ledger entries, and the two legs
    of a transfer exist together with the transfer record that links them. */
module Ledger {
  import opened Common
  import opened Entities
  import opened Store
  import opened Sums

  /** What a ledger entry adds to its wallet's balance: debits subtract, deposits and credits add. */
  function Signed(x: Transaction): int {
    if x.kind == TransferDebit then -x.amount else x.amount
  }

  /** The share of entry `x` in the balance of wallet `w`: only settled entries count. */
  function Contribution(x: Transaction, w: Guid): int {
    if x.walletId == w && x.status == Success then Signed(x) else 0
  }

  function Contributions(txs: map<Guid, Transaction>, w: Guid): map<Guid, int> {
    map id | id in txs :: Contribution(txs[id], w)
  }

  /** The balance the ledger implies for wallet `w`. */
  ghost function LedgerNet(txs: map<Guid, Transaction>, w: Guid): int {
    Sum(Contributions(txs, w))
  }

  function Balances(ws: map<Guid, Wallet>): map<Guid, int> {
    map id | id in ws :: ws[id].balance
  }

  /** The money held by all wallets together. */
  ghost function TotalBalance(ws: map<Guid, Wallet>): int {
    Sum(Balances(ws))
  }

  /** Adding or replacing one entry moves each wallet's ledger net by the change in that entry's
      contribution. */
  lemma LedgerNetUpdate(txs: map<Guid, Transaction>, id: Guid, x: Transaction, w: Guid)
    ensures LedgerNet(txs[id := x], w)
         == LedgerNet(txs, w) - (if id in txs then Contribution(txs[id], w) else 0) + Contribution(x, w)
  {
    assert Contributions(txs[id := x], w) == Contributions(txs, w)[id := Contribution(x, w)];
    SumUpdate(Contributions(txs, w), id, Contribution(x, w));
  }

  /** Replacing or adding one wallet moves the total by the change in that wallet's balance. */
  lemma TotalBalanceUpdate(ws: map<Guid, Wallet>, id: Guid, v: Wallet)
    ensures TotalBalance(ws[id := v]) == TotalBalance(ws) - (if id in ws then ws[id].balance else 0) + v.balance
  {
    assert Balances(ws[id := v]) == Balances(ws)[id := v.balance];
    SumUpdate(Balances(ws), id, v.balance);
  }

  /** A wallet no entry refers to has a ledger net of zero. */
  lemma LedgerNetOfUnusedWallet(txs: map<Guid, Transaction>, w: Guid)
    requires forall id :: id in txs ==> txs[id].walletId != w
    ensures LedgerNet(txs, w) == 0
  {
    SumZero(Contributions(txs, w));
  }

  /** Transfer `f` is backed by its two legs: a settled debit of the amount on the sender and a
      settled credit of the amount on a different receiver. */
  predicate LegsOf(txs: map<Guid, Transaction>, f: WalletTransfer) {
    && f.senderWalletId != f.receiverWalletId
    && f.debitTransactionId in txs && f.creditTransactionId in txs
    && txs[f.debitTransactionId].kind == TransferDebit
    && txs[f.debitTransactionId].walletId == f.senderWalletId
    && txs[f.debitTransactionId].amount == f.amount
    && txs[f.creditTransactionId].kind == TransferCredit
    && txs[f.creditTransactionId].walletId == f.receiverWalletId
    && txs[f.creditTransactionId].amount == f.amount
  }

  /** Some transfer names entry `id` as one of its legs. */
  predicate IsLeg(t: Tables, id: Guid) {
    exists f :: f in t.transfers && (t.transfers[f].debitTransactionId == id || t.transfers[f].creditTransactionId == id)
  }

  /** The legs of a transfer exist together with its record: every transfer has both legs, and
      every transfer entry is a leg of some transfer. */
  ghost predicate LegsLinked(t: Tables) {
    && (forall f :: f in t.transfers ==> LegsOf(t.transactions, t.transfers[f]))
    && (forall id :: id in t.transactions && t.transactions[id].kind != Deposit ==> IsLeg(t, id))
  }

  /** Every entry moves a positive amount, and only deposits are ever anything but settled. */
  predicate EntriesWellFormed(txs: map<Guid, Transaction>) {
    forall id :: id in txs ==>
      && txs[id].amount > 0
      && (txs[id].kind != Deposit ==> txs[id].status == Success)
  }

  /** Every balance is non-negative and equals the net of the wallet's settled entries. */
  ghost predicate BalancesMatchLedger(t: Tables) {
    forall w :: w in t.wallets ==> 0 <= t.wallets[w].balance == LedgerNet(t.transactions, w)
  }

  ghost predicate Consistent(t: Tables) {
    && Schema(t)
    && EntriesWellFormed(t.transactions)
    && BalancesMatchLedger(t)
    && LegsLinked(t)
  }

  /** Keys take no part in balances, entries or transfers: replacing the API-key table keeps a
      consistent store consistent whenever the schema still holds. */
  lemma KeyTableChangeKeepsConsistent(t: Tables, keys: map<Guid, ApiKey>)
    requires Consistent(t) && Schema(t.(apiKeys := keys))
    ensures Consistent(t.(apiKeys := keys))
  {
    var t' := t.(apiKeys := keys);
    forall id | id in t'.transactions && t'.transactions[id].kind != Deposit ensures IsLeg(t', id) {
      assert IsLeg(t, id);
      var f :| f in t.transfers && (t.transfers[f].debitTransactionId == id || t.transfers[f].creditTransactionId == id);
      assert f in t'.transfers;
    }
  }

  /** The empty store is consistent. */
  lemma EmptyIsConsistent()
    ensures Consistent(EmptyTables)
  {
  }
}
