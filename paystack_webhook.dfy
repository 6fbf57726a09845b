/** ProcessPaystackWebhookCommandHandler: settlement of a deposit when the payment gateway
    reports a successful charge. Only a `charge.success` event with data status `success` for a
    known, still pending entry does anything: inside one database transaction the entry becomes
    `Success` and its wallet is credited with the entry's own amount. The event's signature is
    checked before this handler runs, outside this model. */
module PaystackWebhook {
  import opened Common
  import opened Entities
  import opened Store
  import opened Lookups

  /** The `data` object of the event. `amount` is in kobo and is never read by the handler. */
  datatype PaystackWebhookData = PaystackWebhookData(reference: string, status: string, amount: int, customer: string)

  datatype ProcessPaystackWebhookCommand = ProcessPaystackWebhookCommand(event: string, data: PaystackWebhookData)

  /** What the handler read before it begins the database transaction: the pending entry, and
      its wallet as loaded with it (with the wallet's version). */
  datatype Settlement = Settlement(entryId: Guid, entry: Transaction, wallet: Wallet)

  /** The four filters before any write; `None` means the event is acknowledged and ignored. */
  function CheckSettle(t: Tables, request: ProcessPaystackWebhookCommand): Option<Settlement>
    requires Readable(t)
  {
    if request.event != "charge.success" then None
    else if request.data.status != "success" then None
    else
      match TransactionByReference(t.transactions, request.data.reference)
      case None => None
      case Some(id) =>
        if t.transactions[id].status != Pending then None
        else Some(Settlement(id, t.transactions[id], t.wallets[t.transactions[id].walletId]))
  }

  /** The single save: the entry marked settled and its wallet credited with the entry amount. */
  function CreditChange(s: Settlement): ChangeSet {
    ChangeSet(EmptyTables,
      EmptyTables.(transactions := map[s.entryId := s.entry.(status := Success)],
                   wallets := map[s.entry.walletId := s.wallet.(balance := s.wallet.balance + s.entry.amount)]))
  }

  /** The database transaction, run against store state `t`; a failure rolls back and is rethrown. */
  function CommitSettle(t: Tables, s: Settlement, outage: Outage): Outcome<Unit> {
    var err := SaveError(t, CreditChange(s), 1 in outage.saves);
    if err.Some? then Outcome(Err(err.value), t)
    else if outage.commit then Outcome(Err(DbFailure), t)
    else Outcome(Ok(Unit), Apply(t, CreditChange(s)))
  }

  /** The whole handler run on store state `t`. */
  function Settle(t: Tables, request: ProcessPaystackWebhookCommand, outage: Outage): Outcome<Unit>
    requires Readable(t)
  {
    match CheckSettle(t, request)
    case None => Outcome(Ok(Unit), t)
    case Some(s) => CommitSettle(t, s, outage)
  }

  /** ProcessPaystackWebhookCommandHandler.Handle. */
  method Handle(db: Db, request: ProcessPaystackWebhookCommand, outage: Outage) returns (r: Result<Unit>)
    requires Readable(db.Snapshot())
    modifies db
    ensures Outcome(r, db.Snapshot()) == Settle(old(db.Snapshot()), request, outage)
  {
    if request.event != "charge.success" {
      return Ok(Unit);
    }
    if request.data.status != "success" {
      return Ok(Unit);
    }
    var found := TransactionByReference(db.transactions, request.data.reference);
    if found.None? {
      return Ok(Unit);
    }
    var transaction := db.transactions[found.value];
    if transaction.status != Pending {
      return Ok(Unit);
    }
    var settlement := Settlement(found.value, transaction, db.wallets[transaction.walletId]);
    assert CheckSettle(db.Snapshot(), request) == Some(settlement);
    r := Commit(db, settlement, outage);
  }

  /** The try block: BeginTransaction, the status change and the credit, one save, Commit; the
      catch block rolls back and rethrows. */
  method Commit(db: Db, s: Settlement, outage: Outage) returns (r: Result<Unit>)
    modifies db
    ensures Outcome(r, db.Snapshot()) == CommitSettle(old(db.Snapshot()), s, outage)
  {
    var savepoint := db.Snapshot();
    var transaction := s.entry.(status := Success);
    var wallet := s.wallet.(balance := s.wallet.balance + transaction.amount);
    var change := ChangeSet(EmptyTables,
      EmptyTables.(transactions := map[s.entryId := transaction], wallets := map[transaction.walletId := wallet]));
    assert change == CreditChange(s);
    var err := db.SaveChanges(change, 1 in outage.saves);
    if err.None? && outage.commit {
      err := Some(DbFailure);
    }
    if err.Some? {
      db.Rollback(savepoint);
      return Err(err.value);
    }
    r := Ok(Unit);
  }
}
