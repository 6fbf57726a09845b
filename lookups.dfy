/** The single-row queries the handlers run (FirstOrDefaultAsync over one table). Each filters
    on a column with a unique index, so at most one row matches and the answer is determined. */
module Lookups {
  import opened Common
  import opened Entities
  import opened Store

  /** Every entry's wallet exists: the foreign key the handler relies on when it loads the
      entry together with its wallet. */
  predicate EntryWalletsExist(t: Tables) {
    forall id :: id in t.transactions ==> t.transactions[id].walletId in t.wallets
  }

  /** What a lookup of an entry by reference needs of the store: a unique reference column and
      the wallet foreign key. */
  predicate Readable(t: Tables) {
    UniqueReferences(t.transactions) && EntryWalletsExist(t)
  }

  /** Every wallet's owner exists: the foreign key behind loading a wallet with its user. */
  predicate WalletOwnersExist(t: Tables) {
    forall id :: id in t.wallets ==> t.wallets[id].userId in t.users
  }

  /** The refusal of a query by a caller who has no wallet. */
  const WalletNotFoundForUser: string := "Wallet not found for user"

  /** `Wallets.FirstOrDefault(w => w.UserId == userId)`. */
  function WalletOfUser(ws: map<Guid, Wallet>, userId: Guid): (r: Option<Guid>)
    requires UniqueWalletOwners(ws)
    ensures r.Some? ==> r.value in ws && ws[r.value].userId == userId
    ensures r.None? <==> forall id :: id in ws ==> ws[id].userId != userId
  {
    if exists id :: id in ws && ws[id].userId == userId then
      var id :| id in ws && ws[id].userId == userId; Some(id)
    else None
  }

  /** `Wallets.FirstOrDefault(w => w.WalletNumber == number)`: exact, case-sensitive equality. */
  function WalletByNumber(ws: map<Guid, Wallet>, number: string): (r: Option<Guid>)
    requires UniqueWalletNumbers(ws)
    ensures r.Some? ==> r.value in ws && ws[r.value].walletNumber == number
    ensures r.None? <==> forall id :: id in ws ==> ws[id].walletNumber != number
  {
    if exists id :: id in ws && ws[id].walletNumber == number then
      var id :| id in ws && ws[id].walletNumber == number; Some(id)
    else None
  }

  /** `Transactions.FirstOrDefault(t => t.Reference == reference)`. */
  function TransactionByReference(txs: map<Guid, Transaction>, reference: string): (r: Option<Guid>)
    requires UniqueReferences(txs)
    ensures r.Some? ==> r.value in txs && txs[r.value].reference == reference
    ensures r.None? <==> forall id :: id in txs ==> txs[id].reference != reference
  {
    if exists id :: id in txs && txs[id].reference == reference then
      var id :| id in txs && txs[id].reference == reference; Some(id)
    else None
  }

  /** `Users.FirstOrDefault(u => u.GoogleId == googleId)`. */
  function UserByGoogleId(us: map<Guid, User>, googleId: string): (r: Option<Guid>)
    requires UniqueGoogleIds(us)
    ensures r.Some? ==> r.value in us && us[r.value].googleId == googleId
    ensures r.None? <==> forall id :: id in us ==> us[id].googleId != googleId
  {
    if exists id :: id in us && us[id].googleId == googleId then
      var id :| id in us && us[id].googleId == googleId; Some(id)
    else None
  }

  /** Because the column is unique, a lookup that finds a row finds the only matching one. */
  lemma WalletOfUserIsTheOnlyMatch(ws: map<Guid, Wallet>, userId: Guid, id: Guid)
    requires UniqueWalletOwners(ws)
    requires id in ws && ws[id].userId == userId
    ensures WalletOfUser(ws, userId) == Some(id)
  {
  }

  lemma WalletByNumberIsTheOnlyMatch(ws: map<Guid, Wallet>, number: string, id: Guid)
    requires UniqueWalletNumbers(ws)
    requires id in ws && ws[id].walletNumber == number
    ensures WalletByNumber(ws, number) == Some(id)
  {
  }

  lemma TransactionByReferenceIsTheOnlyMatch(txs: map<Guid, Transaction>, reference: string, id: Guid)
    requires UniqueReferences(txs)
    requires id in txs && txs[id].reference == reference
    ensures TransactionByReference(txs, reference) == Some(id)
  {
  }

  lemma UserByGoogleIdIsTheOnlyMatch(us: map<Guid, User>, googleId: string, id: Guid)
    requires UniqueGoogleIds(us)
    requires id in us && us[id].googleId == googleId
    ensures UserByGoogleId(us, googleId) == Some(id)
  {
  }
}
