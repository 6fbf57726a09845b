/** ResolveWalletNumberQueryHandler: the account name behind a wallet number, shown before a
    transfer. A read; the store is not changed. */
module ResolveWalletNumber {
  import opened Common
  import opened Entities
  import opened Store
  import opened Lookups

  datatype ResolveWalletNumberQuery = ResolveWalletNumberQuery(walletNumber: string)

  datatype ResolveWalletNumberResult = ResolveWalletNumberResult(walletNumber: string, accountName: string)

  function WalletNumberNotFound(number: string): string {
    "Wallet with number '" + number + "' not found"
  }

  /** The wallet whose number equals the query exactly, and its owner's name; a number no wallet
      carries is an error naming that number. */
  function Resolve(t: Tables, query: ResolveWalletNumberQuery): (r: Result<ResolveWalletNumberResult>)
    requires UniqueWalletNumbers(t.wallets) && WalletOwnersExist(t)
    ensures r.Err? <==> forall id :: id in t.wallets ==> t.wallets[id].walletNumber != query.walletNumber
    ensures r.Err? ==> r.error == InvalidOperationException(WalletNumberNotFound(query.walletNumber))
    ensures r.Ok? ==> && r.value.walletNumber == query.walletNumber
                      && exists id :: id in t.wallets && t.wallets[id].walletNumber == query.walletNumber
                                      && r.value.accountName == t.users[t.wallets[id].userId].name
  {
    match WalletByNumber(t.wallets, query.walletNumber)
    case None => Err(InvalidOperationException(WalletNumberNotFound(query.walletNumber)))
    case Some(id) =>
      var wallet := t.wallets[id];
      Ok(ResolveWalletNumberResult(wallet.walletNumber, t.users[wallet.userId].name))
  }

  /** The answer is determined: the name shown is the name of the owner of the one wallet with
      that number. */
  lemma ResolvesToOwner(t: Tables, id: Guid)
    requires UniqueWalletNumbers(t.wallets) && WalletOwnersExist(t)
    requires id in t.wallets
    ensures Resolve(t, ResolveWalletNumberQuery(t.wallets[id].walletNumber))
         == Ok(ResolveWalletNumberResult(t.wallets[id].walletNumber, t.users[t.wallets[id].userId].name))
  {
    WalletByNumberIsTheOnlyMatch(t.wallets, t.wallets[id].walletNumber, id);
  }
}
