/** The relational store behind the application's DbContext: five tables, the constraints the
    schema declares on them, and the unit-of-work save with its optimistic concurrency check. */
module Store {
  import opened Common
  import opened Entities

  datatype Tables = Tables(
    users: map<Guid, User>,
    wallets: map<Guid, Wallet>,
    transactions: map<Guid, Transaction>,
    transfers: map<Guid, WalletTransfer>,
    apiKeys: map<Guid, ApiKey>)

  const EmptyTables: Tables := Tables(map[], map[], map[], map[], map[])

  /** What a handler run returns and the state of the store once it has finished. */
  datatype Outcome<T> = Outcome(result: Result<T>, tables: Tables)

  /** The pending changes of one SaveChanges call: rows added, and tracked rows whose columns
      were changed. A modified wallet row carries the version that was read with it. */
  datatype ChangeSet = ChangeSet(inserted: Tables, modified: Tables)

  predicate MaxLength(s: string, n: nat) { |s| <= n }

  predicate MaxLengthOpt(s: Option<string>, n: nat) { s.None? || |s.value| <= n }

  /** Users: GoogleId, Email and Name are varchar(255), ProfilePictureUrl varchar(500);
      GoogleId and Email carry unique indexes. */
  predicate UsersWellFormed(t: Tables) {
    && (forall id :: id in t.users ==>
          && MaxLength(t.users[id].googleId, 255)
          && MaxLength(t.users[id].email, 255)
          && MaxLength(t.users[id].name, 255)
          && MaxLengthOpt(t.users[id].profilePictureUrl, 500))
    && UniqueGoogleIds(t.users)
    && (forall a, b :: a in t.users && b in t.users && t.users[a].email == t.users[b].email ==> a == b)
  }

  predicate UniqueGoogleIds(us: map<Guid, User>) {
    forall a, b :: a in us && b in us && us[a].googleId == us[b].googleId ==> a == b
  }

  /** Wallets: UserId references Users and is unique (one wallet per user); WalletNumber is
      varchar(20) and unique; Balance is numeric(18,4). */
  predicate WalletsWellFormed(t: Tables) {
    && (forall id :: id in t.wallets ==>
          && t.wallets[id].userId in t.users
          && MaxLength(t.wallets[id].walletNumber, 20)
          && FitsNumeric(t.wallets[id].balance))
    && UniqueWalletOwners(t.wallets)
    && UniqueWalletNumbers(t.wallets)
  }

  predicate UniqueWalletOwners(ws: map<Guid, Wallet>) {
    forall a, b :: a in ws && b in ws && ws[a].userId == ws[b].userId ==> a == b
  }

  predicate UniqueWalletNumbers(ws: map<Guid, Wallet>) {
    forall a, b :: a in ws && b in ws && ws[a].walletNumber == ws[b].walletNumber ==> a == b
  }

  /** Transactions: WalletId references Wallets; Reference is varchar(100) and unique;
      Description varchar(500); PaystackReference varchar(100); Amount numeric(18,4). */
  predicate TransactionsWellFormed(t: Tables) {
    && (forall id :: id in t.transactions ==>
          && t.transactions[id].walletId in t.wallets
          && MaxLength(t.transactions[id].reference, 100)
          && MaxLengthOpt(t.transactions[id].description, 500)
          && MaxLengthOpt(t.transactions[id].paystackReference, 100)
          && FitsNumeric(t.transactions[id].amount))
    && UniqueReferences(t.transactions)
  }

  predicate UniqueReferences(txs: map<Guid, Transaction>) {
    forall a, b :: a in txs && b in txs && txs[a].reference == txs[b].reference ==> a == b
  }

  /** WalletTransfers: both wallets and both legs are foreign keys; Reference, DebitTransactionId
      and CreditTransactionId are unique; Reference varchar(100), Description varchar(500). */
  predicate TransfersWellFormed(t: Tables) {
    && (forall id :: id in t.transfers ==>
          && t.transfers[id].senderWalletId in t.wallets
          && t.transfers[id].receiverWalletId in t.wallets
          && t.transfers[id].debitTransactionId in t.transactions
          && t.transfers[id].creditTransactionId in t.transactions
          && MaxLength(t.transfers[id].reference, 100)
          && MaxLengthOpt(t.transfers[id].description, 500)
          && FitsNumeric(t.transfers[id].amount))
    && (forall a, b :: a in t.transfers && b in t.transfers ==>
          t.transfers[a].reference == t.transfers[b].reference ==> a == b)
    && (forall a, b :: a in t.transfers && b in t.transfers ==>
          t.transfers[a].debitTransactionId == t.transfers[b].debitTransactionId ==> a == b)
    && (forall a, b :: a in t.transfers && b in t.transfers ==>
          t.transfers[a].creditTransactionId == t.transfers[b].creditTransactionId ==> a == b)
  }

  /** ApiKeys: UserId references Users; KeyHash is varchar(500) and unique; Name varchar(100). */
  predicate ApiKeysWellFormed(t: Tables) {
    && (forall id :: id in t.apiKeys ==>
          && t.apiKeys[id].userId in t.users
          && MaxLength(t.apiKeys[id].keyHash, 500)
          && MaxLength(t.apiKeys[id].name, 100))
    && (forall a, b :: a in t.apiKeys && b in t.apiKeys && t.apiKeys[a].keyHash == t.apiKeys[b].keyHash ==> a == b)
  }

  /** Every constraint the database enforces on a committed row. */
  predicate Schema(t: Tables) {
    && UsersWellFormed(t)
    && WalletsWellFormed(t)
    && TransactionsWellFormed(t)
    && TransfersWellFormed(t)
    && ApiKeysWellFormed(t)
  }

  /** The rows the database writes for a change set: inserts are added, updates replace the row,
      and every updated wallet gets a new concurrency token. */
  function Apply(t: Tables, cs: ChangeSet): Tables {
    Tables(
      t.users + cs.inserted.users + cs.modified.users,
      t.wallets + cs.inserted.wallets + Stamped(cs.modified.wallets),
      t.transactions + cs.inserted.transactions + cs.modified.transactions,
      t.transfers + cs.inserted.transfers + cs.modified.transfers,
      t.apiKeys + cs.inserted.apiKeys + cs.modified.apiKeys)
  }

  /** A wallet row as the UPDATE leaves it: with a new concurrency token. */
  function Bump(w: Wallet): Wallet {
    w.(version := w.version + 1)
  }

  function Stamped(ws: map<Guid, Wallet>): (r: map<Guid, Wallet>)
    ensures r.Keys == ws.Keys
    ensures forall id :: id in ws ==> r[id] == Bump(ws[id])
  {
    map id | id in ws :: Bump(ws[id])
  }

  /** Stamping two updated wallets. */
  lemma StampedPair(a: Guid, x: Wallet, b: Guid, y: Wallet)
    ensures Stamped(map[a := x, b := y]) == map[a := Bump(x), b := Bump(y)]
  {
    var l, r := Stamped(map[a := x, b := y]), map[a := Bump(x), b := Bump(y)];
    assert l.Keys == r.Keys;
    forall k | k in l ensures l[k] == r[k] {
      if k == b { assert l[k] == Bump(y); } else { assert l[k] == Bump(x); }
    }
  }

  /** Stamping one updated wallet. */
  lemma StampedOne(a: Guid, x: Wallet)
    ensures Stamped(map[a := x]) == map[a := Bump(x)]
  {
  }

  /** A save that only inserts can fail only with DbFailure. */
  lemma InsertOnlyFailure(t: Tables, cs: ChangeSet, outage: bool)
    requires cs.modified == EmptyTables
    ensures SaveError(t, cs, outage).Some? ==> SaveError(t, cs, outage).value == DbFailure
  {
    assert Tracked(t, cs.modified);
  }

  /** Merging in nothing leaves a map as it was. */
  lemma MergeNothing<K, V>(m: map<K, V>, a: map<K, V>, b: map<K, V>)
    requires a == map[] && b == map[]
    ensures m + a + b == m
  {
    assert m + a == m;
  }

  /** A table the change set does not mention comes out of a save as it went in. */
  lemma ApplyKeeps(t: Tables, cs: ChangeSet)
    ensures cs.inserted.users == map[] && cs.modified.users == map[] ==> Apply(t, cs).users == t.users
    ensures cs.inserted.wallets == map[] && cs.modified.wallets == map[] ==> Apply(t, cs).wallets == t.wallets
    ensures cs.inserted.transactions == map[] && cs.modified.transactions == map[] ==> Apply(t, cs).transactions == t.transactions
    ensures cs.inserted.transfers == map[] && cs.modified.transfers == map[] ==> Apply(t, cs).transfers == t.transfers
    ensures cs.inserted.apiKeys == map[] && cs.modified.apiKeys == map[] ==> Apply(t, cs).apiKeys == t.apiKeys
  {
    if cs.inserted.users == map[] && cs.modified.users == map[] {
      MergeNothing(t.users, cs.inserted.users, cs.modified.users);
    }
    if cs.inserted.wallets == map[] && cs.modified.wallets == map[] {
      assert Stamped(cs.modified.wallets) == map[];
      MergeNothing(t.wallets, cs.inserted.wallets, Stamped(cs.modified.wallets));
    }
    if cs.inserted.transactions == map[] && cs.modified.transactions == map[] {
      MergeNothing(t.transactions, cs.inserted.transactions, cs.modified.transactions);
    }
    if cs.inserted.transfers == map[] && cs.modified.transfers == map[] {
      MergeNothing(t.transfers, cs.inserted.transfers, cs.modified.transfers);
    }
    if cs.inserted.apiKeys == map[] && cs.modified.apiKeys == map[] {
      MergeNothing(t.apiKeys, cs.inserted.apiKeys, cs.modified.apiKeys);
    }
  }

  /** Merging in a two-entry display is two updates. */
  lemma MergePair<K, V>(m: map<K, V>, a: K, x: V, b: K, y: V)
    ensures m + map[] + map[a := x, b := y] == m[a := x][b := y]
    ensures m + map[a := x, b := y] + map[] == m[a := x][b := y]
  {
  }

  /** Merging in a one-entry display is one update. */
  lemma MergeOne<K, V>(m: map<K, V>, a: K, x: V)
    ensures m + map[a := x] + map[] == m[a := x]
    ensures m + map[] + map[a := x] == m[a := x]
  {
  }

  /** Every updated row still exists and every updated wallet still has the version read with it;
      otherwise the UPDATE matches no row. */
  predicate Tracked(t: Tables, m: Tables) {
    && m.users.Keys <= t.users.Keys
    && m.transactions.Keys <= t.transactions.Keys
    && m.transfers.Keys <= t.transfers.Keys
    && m.apiKeys.Keys <= t.apiKeys.Keys
    && (forall id :: id in m.wallets ==> id in t.wallets && t.wallets[id].version == m.wallets[id].version)
  }

  /** No inserted row reuses a primary key. */
  predicate FreshKeys(t: Tables, ins: Tables) {
    && ins.users.Keys !! t.users.Keys
    && ins.wallets.Keys !! t.wallets.Keys
    && ins.transactions.Keys !! t.transactions.Keys
    && ins.transfers.Keys !! t.transfers.Keys
    && ins.apiKeys.Keys !! t.apiKeys.Keys
  }

  /** What SaveChanges throws: an outage fails the call; an UPDATE that matches no row raises a
      concurrency exception; a key or constraint violation fails the statement. */
  function SaveError(t: Tables, cs: ChangeSet, outage: bool): Option<Exception> {
    if outage then Some(DbFailure)
    else if !Tracked(t, cs.modified) then Some(DbUpdateConcurrencyException)
    else if !FreshKeys(t, cs.inserted) || !Schema(Apply(t, cs)) then Some(DbFailure)
    else None
  }

  /** A save that went through leaves a state satisfying every schema constraint. */
  lemma SavedStateIsWellFormed(t: Tables, cs: ChangeSet, outage: bool)
    requires SaveError(t, cs, outage).None?
    ensures Schema(Apply(t, cs))
    ensures Apply(t, cs).wallets.Keys == t.wallets.Keys + cs.inserted.wallets.Keys
  {
  }

  /** Any update of a wallet whose version moved since it was read is refused. */
  lemma StaleWalletConflicts(t: Tables, cs: ChangeSet, id: Guid)
    requires id in cs.modified.wallets && id in t.wallets
    requires t.wallets[id].version != cs.modified.wallets[id].version
    ensures SaveError(t, cs, false) == Some(DbUpdateConcurrencyException)
  {
  }

  /** A save that goes through removes no row, keeps the version of every wallet it does not
      update, and moves the version of every wallet it updates one step on. */
  lemma SaveMovesVersionsForward(t: Tables, cs: ChangeSet, outage: bool)
    requires SaveError(t, cs, outage).None?
    ensures t.users.Keys <= Apply(t, cs).users.Keys
    ensures t.transactions.Keys <= Apply(t, cs).transactions.Keys
    ensures t.transfers.Keys <= Apply(t, cs).transfers.Keys
    ensures t.apiKeys.Keys <= Apply(t, cs).apiKeys.Keys
    ensures forall id :: id in t.wallets ==>
              && id in Apply(t, cs).wallets
              && Apply(t, cs).wallets[id].version == t.wallets[id].version + (if id in cs.modified.wallets then 1 else 0)
  {
    assert Tracked(t, cs.modified) && FreshKeys(t, cs.inserted);
  }

  /** Lost-update protection: once a save has updated a wallet, every other pending update of
      that wallet made from the same reading is refused as a concurrency conflict. */
  lemma SavedUpdateInvalidatesStaleCopies(t: Tables, first: ChangeSet, second: ChangeSet, id: Guid)
    requires SaveError(t, first, false).None?
    requires id in first.modified.wallets && id in second.modified.wallets
    requires second.modified.wallets[id].version == first.modified.wallets[id].version
    ensures SaveError(Apply(t, first), second, false) == Some(DbUpdateConcurrencyException)
  {
    SaveMovesVersionsForward(t, first, false);
    assert Tracked(t, first.modified);
    StaleWalletConflicts(Apply(t, first), second, id);
  }

  /** The database behind the context. Each table is a map from primary key to row. */
  class Db {
    var users: map<Guid, User>
    var wallets: map<Guid, Wallet>
    var transactions: map<Guid, Transaction>
    var transfers: map<Guid, WalletTransfer>
    var apiKeys: map<Guid, ApiKey>

    constructor (t: Tables)
      ensures Snapshot() == t
    {
      users, wallets, transactions, transfers, apiKeys := t.users, t.wallets, t.transactions, t.transfers, t.apiKeys;
    }

    function Snapshot(): Tables
      reads this
    {
      Tables(users, wallets, transactions, transfers, apiKeys)
    }

    /** SaveChangesAsync: either every change of the set is written, or none is and the error
        is returned. `outage` stands for a failure of the connection or server. */
    method SaveChanges(cs: ChangeSet, outage: bool) returns (err: Option<Exception>)
      modifies this
      ensures err == SaveError(old(Snapshot()), cs, outage)
      ensures Snapshot() == if err.None? then Apply(old(Snapshot()), cs) else old(Snapshot())
    {
      var before := Snapshot();
      err := SaveError(before, cs, outage);
      if err.None? {
        var t := Apply(before, cs);
        users, wallets, transactions, transfers, apiKeys := t.users, t.wallets, t.transactions, t.transfers, t.apiKeys;
        assert Snapshot() == t;
      }
    }

    /** RollbackAsync of a database transaction begun when the store held `savepoint`. */
    method Rollback(savepoint: Tables)
      modifies this
      ensures Snapshot() == savepoint
    {
      users, wallets, transactions, transfers, apiKeys := savepoint.users, savepoint.wallets, savepoint.transactions, savepoint.transfers, savepoint.apiKeys;
    }
  }
}
