/** InitiateDepositCommandHandler: the start of a deposit through the payment gateway. The
    handler saves a `Pending` deposit entry on the caller's wallet, asks the gateway to
    initialise a charge under the entry's reference, and then either records the gateway's own
    reference on the entry or, when the gateway or the second save fails, marks the entry
    `Failed` and rethrows. There is no database transaction: each save stands on its own. No
    balance is touched; the credit comes later, from the webhook. */
module InitiateDeposit {
  import opened Common
  import opened Entities
  import opened Store
  import opened Lookups
  import opened RequestAmount

  /** The requested amount, a .NET decimal. */
  datatype InitiateDepositCommand = InitiateDepositCommand(amount: Decimal)

  datatype DepositInitializationResult = DepositInitializationResult(
    authorizationUrl: string,
    reference: string,
    accessCode: string,
    amount: Decimal)

  datatype PaystackInitializeData = PaystackInitializeData(authorizationUrl: string, accessCode: string, reference: string)

  datatype PaystackInitializeResponse = PaystackInitializeResponse(status: bool, message: string, data: Option<PaystackInitializeData>)

  /** What the gateway call InitializeTransactionAsync(amount, email, reference) came back with:
      a response, or an exception. */
  datatype GatewayReply = Replied(response: PaystackInitializeResponse) | Threw(error: Exception)

  const DepositDescription: string := "Deposit via Paystack"

  const UserOrWalletNotFound: string := "User or wallet not found"

  /** The checks before the first write: an authenticated caller with a user row and a wallet.
      The answer is the caller's wallet. */
  function CheckDeposit(t: Tables, currentUser: Option<Guid>): Result<Guid>
    requires UniqueWalletOwners(t.wallets)
  {
    if currentUser.None? then Err(UnauthorizedAccessException("User is not authenticated"))
    else if currentUser.value !in t.users then Err(InvalidOperationException(UserOrWalletNotFound))
    else
      match WalletOfUser(t.wallets, currentUser.value)
      case None => Err(InvalidOperationException(UserOrWalletNotFound))
      case Some(w) => Ok(w)
  }

  /** The amount the entry's numeric(18,4) column holds once it is saved: the requested decimal
      rounded to four places. The handler never reads it back, so the model rounds it as the
      row is built. */
  function StoredAmount(request: InitiateDepositCommand): int {
    RoundToColumn(request.amount)
  }

  /** The entry the first save adds. */
  function PendingEntry(walletId: Guid, amount: int, reference: string, now: Instant): Transaction {
    Transaction(reference, Deposit, amount, walletId, Pending, Some(DepositDescription), None, now)
  }

  /** A save that adds entry `x` under key `id`. */
  function InsertEntry(id: Guid, x: Transaction): ChangeSet {
    ChangeSet(EmptyTables.(transactions := map[id := x]), EmptyTables)
  }

  /** A save that writes the tracked entry `id` with columns `x`. */
  function UpdateEntry(id: Guid, x: Transaction): ChangeSet {
    ChangeSet(EmptyTables, EmptyTables.(transactions := map[id := x]))
  }

  function GatewayFailedMessage(message: string): string {
    "Failed to initialize payment: " + message
  }

  /** The gateway's data, or the exception the try block raises for its reply: the gateway's
      own exception, or a failed or empty response. */
  function GatewayData(reply: GatewayReply): Result<PaystackInitializeData> {
    match reply
    case Threw(e) => Err(e)
    case Replied(response) =>
      if !response.status || response.data.None? then Err(InvalidOperationException(GatewayFailedMessage(response.message)))
      else Ok(response.data.value)
  }

  /** The catch block: the tracked entry (with every change the try block made to it) is marked
      `Failed` and saved, and the caught exception is rethrown; if that save fails, its own
      exception escapes instead. */
  function MarkFailed(t: Tables, id: Guid, x: Transaction, caught: Exception, outage: bool): Outcome<DepositInitializationResult> {
    var err := SaveError(t, UpdateEntry(id, x.(status := Failed)), outage);
    if err.Some? then Outcome(Err(err.value), t)
    else Outcome(Err(caught), Apply(t, UpdateEntry(id, x.(status := Failed))))
  }

  /** Everything after the checks, run on store state `t` for the caller's wallet `walletId`.
      `entryId` is the Guid drawn for the entry, `guidN` the rendering of the one drawn for the
      reference, `reply` the gateway's answer; the saves are numbered in the order they run. */
  function CommitDeposit(t: Tables, walletId: Guid, request: InitiateDepositCommand, entryId: Guid, guidN: string,
                         now: Instant, reply: GatewayReply, outage: Outage): Outcome<DepositInitializationResult> {
    var reference := "DEP_" + guidN;
    var entry := PendingEntry(walletId, StoredAmount(request), reference, now);
    var first := SaveError(t, InsertEntry(entryId, entry), 1 in outage.saves);
    if first.Some? then Outcome(Err(first.value), t)
    else
      var t1 := Apply(t, InsertEntry(entryId, entry));
      match GatewayData(reply)
      case Err(e) => MarkFailed(t1, entryId, entry, e, 2 in outage.saves)
      case Ok(data) =>
        var x := entry.(paystackReference := Some(data.reference));
        var second := SaveError(t1, UpdateEntry(entryId, x), 2 in outage.saves);
        if second.Some? then MarkFailed(t1, entryId, x, second.value, 3 in outage.saves)
        else Outcome(Ok(DepositInitializationResult(data.authorizationUrl, reference, data.accessCode, request.amount)),
                     Apply(t1, UpdateEntry(entryId, x)))
  }

  /** The whole handler run on store state `t`. */
  function Initiate(t: Tables, currentUser: Option<Guid>, request: InitiateDepositCommand, entryId: Guid, guidN: string,
                    now: Instant, reply: GatewayReply, outage: Outage): Outcome<DepositInitializationResult>
    requires UniqueWalletOwners(t.wallets)
  {
    match CheckDeposit(t, currentUser)
    case Err(e) => Outcome(Err(e), t)
    case Ok(w) => CommitDeposit(t, w, request, entryId, guidN, now, reply, outage)
  }

  /** InitiateDepositCommandHandler.Handle. */
  method Handle(db: Db, currentUser: Option<Guid>, request: InitiateDepositCommand, entryId: Guid, guidN: string,
                now: Instant, reply: GatewayReply, outage: Outage) returns (r: Result<DepositInitializationResult>)
    requires UniqueWalletOwners(db.wallets)
    modifies db
    ensures Outcome(r, db.Snapshot()) == Initiate(old(db.Snapshot()), currentUser, request, entryId, guidN, now, reply, outage)
  {
    if currentUser.None? {
      return Err(UnauthorizedAccessException("User is not authenticated"));
    }
    var userId := currentUser.value;
    if userId !in db.users {
      return Err(InvalidOperationException(UserOrWalletNotFound));
    }
    var walletId := WalletOfUser(db.wallets, userId);
    if walletId.None? {
      return Err(InvalidOperationException(UserOrWalletNotFound));
    }
    r := Commit(db, walletId.value, request, entryId, guidN, now, reply, outage);
  }

  /** The writes of the handler: the first save, then the try block around the gateway call and
      the second save, and the catch block. `saves` counts the SaveChanges calls made so far. */
  method Commit(db: Db, walletId: Guid, request: InitiateDepositCommand, entryId: Guid, guidN: string,
                now: Instant, reply: GatewayReply, outage: Outage) returns (r: Result<DepositInitializationResult>)
    modifies db
    ensures Outcome(r, db.Snapshot()) == CommitDeposit(old(db.Snapshot()), walletId, request, entryId, guidN, now, reply, outage)
  {
    var reference := "DEP_" + guidN;
    var transaction := Transaction(reference, Deposit, StoredAmount(request), walletId, Pending, Some(DepositDescription), None, now);
    var err := db.SaveChanges(InsertEntry(entryId, transaction), 1 in outage.saves);
    if err.Some? {
      return Err(err.value);
    }
    var saves := 1;
    var caught: Exception;
    if reply.Threw? {
      caught := reply.error;
    } else if !reply.response.status || reply.response.data.None? {
      caught := InvalidOperationException(GatewayFailedMessage(reply.response.message));
    } else {
      var data := reply.response.data.value;
      transaction := transaction.(paystackReference := Some(data.reference));
      err := db.SaveChanges(UpdateEntry(entryId, transaction), 2 in outage.saves);
      saves := 2;
      if err.None? {
        return Ok(DepositInitializationResult(data.authorizationUrl, reference, data.accessCode, request.amount));
      }
      caught := err.value;
    }
    transaction := transaction.(status := Failed);
    err := db.SaveChanges(UpdateEntry(entryId, transaction), saves + 1 in outage.saves);
    if err.Some? {
      return Err(err.value);
    }
    r := Err(caught);
  }
}
