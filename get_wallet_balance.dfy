/** GetWalletBalanceQueryHandler: the caller's wallet as a balance report. A read; the store is
    not changed. */
module GetWalletBalance {
  import opened Common
  import opened Entities
  import opened Store
  import opened Ledger
  import opened Lookups

  datatype WalletBalanceDto = WalletBalanceDto(walletId: Guid, walletNumber: string, balance: int, createdAt: Instant)

  /** The report of the caller's own wallet: an unauthenticated caller is refused, a caller
      without a wallet gets the not-found error, and otherwise every field is the stored wallet's. */
  function GetWalletBalance(t: Tables, currentUser: Option<Guid>): (r: Result<WalletBalanceDto>)
    requires UniqueWalletOwners(t.wallets)
    ensures currentUser.None? ==> r == Err(UnauthorizedAccessException("User is not authenticated"))
    ensures currentUser.Some? ==>
              (r == Err(InvalidOperationException(WalletNotFoundForUser))
               <==> forall id :: id in t.wallets ==> t.wallets[id].userId != currentUser.value)
    ensures r.Ok? ==> && currentUser.Some?
                      && r.value.walletId in t.wallets
                      && t.wallets[r.value.walletId].userId == currentUser.value
                      && var w := t.wallets[r.value.walletId];
                         r.value == WalletBalanceDto(r.value.walletId, w.walletNumber, w.balance, w.createdAt)
  {
    if currentUser.None? then Err(UnauthorizedAccessException("User is not authenticated"))
    else
      match WalletOfUser(t.wallets, currentUser.value)
      case None => Err(InvalidOperationException(WalletNotFoundForUser))
      case Some(id) =>
        var w := t.wallets[id];
        Ok(WalletBalanceDto(id, w.walletNumber, w.balance, w.createdAt))
  }

  /** The error cases are the only failures: a caller with a wallet always gets that wallet. */
  lemma BalanceOfOwnWallet(t: Tables, userId: Guid, id: Guid)
    requires UniqueWalletOwners(t.wallets)
    requires id in t.wallets && t.wallets[id].userId == userId
    ensures GetWalletBalance(t, Some(userId)).Ok?
    ensures GetWalletBalance(t, Some(userId)).value.walletId == id
  {
    WalletOfUserIsTheOnlyMatch(t.wallets, userId, id);
  }

  /** On a consistent store the reported balance is never negative and is the net of the
      wallet's settled entries. */
  lemma ReportedBalanceIsLedgerNet(t: Tables, currentUser: Option<Guid>)
    requires Consistent(t)
    requires GetWalletBalance(t, currentUser).Ok?
    ensures var b := GetWalletBalance(t, currentUser).value;
            0 <= b.balance == LedgerNet(t.transactions, b.walletId)
  {
    var b := GetWalletBalance(t, currentUser).value;
    assert b.walletId in t.wallets;
  }
}
