/** TransferFundsCommandHandler: a peer-to-peer transfer. The handler checks the request
    against what it reads, then inside one database transaction writes a debit leg on the
    sender and a credit leg on the recipient, the WalletTransfer record linking them, and the
    two new balances. Any failure rolls the transaction back. */
module TransferFunds {
  import opened Common
  import opened Text
  import opened Entities
  import opened Store
  import opened Ledger
  import opened Lookups

  datatype TransferFundsCommand = TransferFundsCommand(
    recipientWalletNumber: string,
    amount: int,
    description: Option<string>)

  datatype TransferFundsResult = TransferFundsResult(
    transferReference: string,
    senderWalletNumber: string,
    recipientWalletNumber: string,
    amount: int,
    newBalance: int,
    transferredAt: Instant,
    description: Option<string>)

  /** The Guids the run draws for the transfer record and its two legs. */
  datatype NewIds = NewIds(transfer: Guid, debit: Guid, credit: Guid)

  /** What the handler has read and checked before it begins the database transaction: both
      wallet rows as read (with their versions), and the request. */
  datatype TransferPlan = TransferPlan(
    senderId: Guid,
    sender: Wallet,
    recipientId: Guid,
    recipient: Wallet,
    amount: int,
    description: Option<string>)

  const ConcurrencyMessage: string := "Transfer failed due to concurrent operation. Please try again."

  function RecipientNotFoundMessage(number: string): string {
    "Recipient wallet with number '" + number + "' not found"
  }

  function InsufficientBalanceMessage(available: int, required: int): string {
    "Insufficient balance. Available: " + FormatF2(available) + ", Required: " + FormatF2(required)
  }

  /** The checks made before any write. */
  function CheckTransfer(t: Tables, currentUser: Option<Guid>, request: TransferFundsCommand): Result<TransferPlan>
    requires UniqueWalletOwners(t.wallets) && UniqueWalletNumbers(t.wallets)
  {
    if currentUser.None? then Err(UnauthorizedAccessException("User is not authenticated"))
    else if request.amount <= 0 then Err(InvalidOperationException("Transfer amount must be greater than zero"))
    else
      match WalletOfUser(t.wallets, currentUser.value)
      case None => Err(InvalidOperationException("Sender wallet not found"))
      case Some(s) =>
        match WalletByNumber(t.wallets, request.recipientWalletNumber)
        case None => Err(InvalidOperationException(RecipientNotFoundMessage(request.recipientWalletNumber)))
        case Some(r) =>
          if s == r then Err(InvalidOperationException("Cannot transfer to your own wallet"))
          else if t.wallets[s].balance < request.amount then
            Err(InvalidOperationException(InsufficientBalanceMessage(t.wallets[s].balance, request.amount)))
          else Ok(TransferPlan(s, t.wallets[s], r, t.wallets[r], request.amount, request.description))
  }

  function DebitLeg(plan: TransferPlan, reference: string, now: Instant): Transaction {
    Transaction(reference + "_DEBIT", TransferDebit, plan.amount, plan.senderId, Success,
      Some(if plan.description.Some? then plan.description.value else "Transfer to " + plan.recipient.walletNumber),
      None, now)
  }

  function CreditLeg(plan: TransferPlan, reference: string, now: Instant): Transaction {
    Transaction(reference + "_CREDIT", TransferCredit, plan.amount, plan.recipientId, Success,
      Some(if plan.description.Some? then plan.description.value else "Transfer from " + plan.sender.walletNumber),
      None, now)
  }

  function TransferRecord(plan: TransferPlan, ids: NewIds, reference: string, now: Instant): WalletTransfer {
    WalletTransfer(reference, plan.senderId, plan.recipientId, plan.amount, ids.debit, ids.credit, plan.description, now)
  }

  /** The first save: both legs. */
  function LegsChange(plan: TransferPlan, ids: NewIds, reference: string, now: Instant): ChangeSet {
    ChangeSet(EmptyTables.(transactions := map[ids.debit := DebitLeg(plan, reference, now), ids.credit := CreditLeg(plan, reference, now)]), EmptyTables)
  }

  /** The second save: the transfer record and both wallets with their new balances. */
  function RecordChange(plan: TransferPlan, ids: NewIds, reference: string, now: Instant): ChangeSet {
    ChangeSet(
      EmptyTables.(transfers := map[ids.transfer := TransferRecord(plan, ids, reference, now)]),
      EmptyTables.(wallets := map[plan.senderId := plan.sender.(balance := plan.sender.balance - plan.amount),
                                  plan.recipientId := plan.recipient.(balance := plan.recipient.balance + plan.amount)]))
  }

  /** How the catch blocks report a failure: a concurrency conflict becomes a retry message,
      anything else is rethrown. */
  function Reported(e: Exception): Exception {
    if e.DbUpdateConcurrencyException? then InvalidOperationException(ConcurrencyMessage) else e
  }

  /** The database transaction of a checked transfer, run against store state `t` (which need not
      be the state the plan was read from). On any failure the state is rolled back to `t`. */
  function CommitTransfer(t: Tables, plan: TransferPlan, ids: NewIds, guidN: string, now: Instant, outage: Outage): Outcome<TransferFundsResult> {
    var reference := "TRF_" + guidN;
    var first := SaveError(t, LegsChange(plan, ids, reference, now), 1 in outage.saves);
    if first.Some? then Outcome(Err(Reported(first.value)), t)
    else
      var t1 := Apply(t, LegsChange(plan, ids, reference, now));
      var second := SaveError(t1, RecordChange(plan, ids, reference, now), 2 in outage.saves);
      if second.Some? then Outcome(Err(Reported(second.value)), t)
      else if outage.commit then Outcome(Err(DbFailure), t)
      else Outcome(
        Ok(TransferFundsResult(reference, plan.sender.walletNumber, plan.recipient.walletNumber, plan.amount,
                               plan.sender.balance - plan.amount, now, plan.description)),
        Apply(t1, RecordChange(plan, ids, reference, now)))
  }

  /** The outcome of a commit whose saves both went through. */
  lemma CommitTransferSucceeds(t: Tables, plan: TransferPlan, ids: NewIds, guidN: string, now: Instant, outage: Outage)
    requires SaveError(t, LegsChange(plan, ids, "TRF_" + guidN, now), 1 in outage.saves).None?
    requires SaveError(Apply(t, LegsChange(plan, ids, "TRF_" + guidN, now)), RecordChange(plan, ids, "TRF_" + guidN, now), 2 in outage.saves).None?
    requires !outage.commit
    ensures CommitTransfer(t, plan, ids, guidN, now, outage)
         == Outcome(Ok(TransferFundsResult("TRF_" + guidN, plan.sender.walletNumber, plan.recipient.walletNumber, plan.amount,
                                           plan.sender.balance - plan.amount, now, plan.description)),
                    Apply(Apply(t, LegsChange(plan, ids, "TRF_" + guidN, now)), RecordChange(plan, ids, "TRF_" + guidN, now)))
  {
  }

  /** The whole handler run on store state `t`. `guidN` is the 32-digit rendering of the Guid
      drawn for the reference; `now` the clock reading. */
  function Transfer(t: Tables, currentUser: Option<Guid>, request: TransferFundsCommand, ids: NewIds,
                    guidN: string, now: Instant, outage: Outage): Outcome<TransferFundsResult>
    requires UniqueWalletOwners(t.wallets) && UniqueWalletNumbers(t.wallets)
  {
    match CheckTransfer(t, currentUser, request)
    case Err(e) => Outcome(Err(e), t)
    case Ok(plan) => CommitTransfer(t, plan, ids, guidN, now, outage)
  }

  /** TransferFundsCommandHandler.Handle: the checks, each returning before anything is written,
      then the database transaction. */
  method Handle(db: Db, currentUser: Option<Guid>, request: TransferFundsCommand, ids: NewIds,
                guidN: string, now: Instant, outage: Outage) returns (r: Result<TransferFundsResult>)
    requires UniqueWalletOwners(db.wallets) && UniqueWalletNumbers(db.wallets)
    modifies db
    ensures Outcome(r, db.Snapshot()) == Transfer(old(db.Snapshot()), currentUser, request, ids, guidN, now, outage)
  {
    if currentUser.None? {
      return Err(UnauthorizedAccessException("User is not authenticated"));
    }
    var userId := currentUser.value;
    if request.amount <= 0 {
      return Err(InvalidOperationException("Transfer amount must be greater than zero"));
    }
    var senderId := WalletOfUser(db.wallets, userId);
    if senderId.None? {
      return Err(InvalidOperationException("Sender wallet not found"));
    }
    var recipientId := WalletByNumber(db.wallets, request.recipientWalletNumber);
    if recipientId.None? {
      return Err(InvalidOperationException(RecipientNotFoundMessage(request.recipientWalletNumber)));
    }
    var senderWallet := db.wallets[senderId.value];
    var recipientWallet := db.wallets[recipientId.value];
    if senderId.value == recipientId.value {
      return Err(InvalidOperationException("Cannot transfer to your own wallet"));
    }
    if senderWallet.balance < request.amount {
      return Err(InvalidOperationException(InsufficientBalanceMessage(senderWallet.balance, request.amount)));
    }
    var plan := TransferPlan(senderId.value, senderWallet, recipientId.value, recipientWallet, request.amount, request.description);
    assert CheckTransfer(db.Snapshot(), currentUser, request) == Ok(plan);
    r := Commit(db, plan, ids, guidN, now, outage);
  }

  /** The try block of the handler: BeginTransaction, the two saves and Commit, with the
      catch blocks rolling back to the state the transaction began in. The transfer record is
      built first with empty leg ids, which are patched in once the first save has assigned them. */
  method Commit(db: Db, plan: TransferPlan, ids: NewIds, guidN: string, now: Instant, outage: Outage)
    returns (r: Result<TransferFundsResult>)
    modifies db
    ensures Outcome(r, db.Snapshot()) == CommitTransfer(old(db.Snapshot()), plan, ids, guidN, now, outage)
  {
    var transferReference := "TRF_" + guidN;
    var savepoint := db.Snapshot();
    var senderWallet, recipientWallet := plan.sender, plan.recipient;
    var walletTransfer := WalletTransfer(transferReference, plan.senderId, plan.recipientId, plan.amount,
                                         EmptyGuid, EmptyGuid, plan.description, now);
    var debit := Transaction(transferReference + "_DEBIT", TransferDebit, plan.amount, plan.senderId, Success,
      Some(if plan.description.Some? then plan.description.value else "Transfer to " + recipientWallet.walletNumber),
      None, now);
    var credit := Transaction(transferReference + "_CREDIT", TransferCredit, plan.amount, plan.recipientId, Success,
      Some(if plan.description.Some? then plan.description.value else "Transfer from " + senderWallet.walletNumber),
      None, now);
    var legs := ChangeSet(EmptyTables.(transactions := map[ids.debit := debit, ids.credit := credit]), EmptyTables);
    assert legs == LegsChange(plan, ids, transferReference, now);
    var err := db.SaveChanges(legs, 1 in outage.saves);
    if err.None? {
      walletTransfer := walletTransfer.(debitTransactionId := ids.debit, creditTransactionId := ids.credit);
      senderWallet := senderWallet.(balance := senderWallet.balance - plan.amount);
      recipientWallet := recipientWallet.(balance := recipientWallet.balance + plan.amount);
      var record := ChangeSet(EmptyTables.(transfers := map[ids.transfer := walletTransfer]),
                              EmptyTables.(wallets := map[plan.senderId := senderWallet, plan.recipientId := recipientWallet]));
      assert record == RecordChange(plan, ids, transferReference, now);
      err := db.SaveChanges(record, 2 in outage.saves);
      if err.None? && outage.commit {
        err := Some(DbFailure);
      }
    }
    if err.Some? {
      db.Rollback(savepoint);
      return Err(Reported(err.value));
    }
    r := Ok(TransferFundsResult(transferReference, senderWallet.walletNumber, recipientWallet.walletNumber,
                                plan.amount, senderWallet.balance, now, plan.description));
  }

  /** What a successful transfer with plan `plan` does to the store, table by table: the two
      balances move by the amount (each wallet row also gets a new version), every other wallet is
      untouched, both legs and the transfer record are added under fresh keys, and the users and
      API keys are left alone. */
  predicate TransferEffect(t: Tables, t': Tables, plan: TransferPlan, ids: NewIds, reference: string, now: Instant) {
    && t'.users == t.users
    && t'.apiKeys == t.apiKeys
    && plan.senderId in t.wallets && plan.recipientId in t.wallets
    && t'.wallets == t.wallets[plan.senderId := Bump(t.wallets[plan.senderId].(balance := t.wallets[plan.senderId].balance - plan.amount))]
                              [plan.recipientId := Bump(t.wallets[plan.recipientId].(balance := t.wallets[plan.recipientId].balance + plan.amount))]
    && ids.debit !in t.transactions && ids.credit !in t.transactions
    && t'.transactions == t.transactions[ids.debit := DebitLeg(plan, reference, now)][ids.credit := CreditLeg(plan, reference, now)]
    && ids.transfer !in t.transfers
    && t'.transfers == t.transfers[ids.transfer := TransferRecord(plan, ids, reference, now)]
  }

  /** The first save adds the two legs and nothing else. */
  lemma ApplyLegs(t: Tables, plan: TransferPlan, ids: NewIds, reference: string, now: Instant)
    ensures Apply(t, LegsChange(plan, ids, reference, now))
         == t.(transactions := t.transactions[ids.debit := DebitLeg(plan, reference, now)][ids.credit := CreditLeg(plan, reference, now)])
  {
    MergePair(t.transactions, ids.debit, DebitLeg(plan, reference, now), ids.credit, CreditLeg(plan, reference, now));
    ApplyKeeps(t, LegsChange(plan, ids, reference, now));
  }

  /** The second save adds the transfer record and writes both wallets with new versions. */
  lemma ApplyRecord(t: Tables, plan: TransferPlan, ids: NewIds, reference: string, now: Instant)
    ensures Apply(t, RecordChange(plan, ids, reference, now))
         == t.(transfers := t.transfers[ids.transfer := TransferRecord(plan, ids, reference, now)],
               wallets := t.wallets[plan.senderId := Bump(plan.sender.(balance := plan.sender.balance - plan.amount))]
                                   [plan.recipientId := Bump(plan.recipient.(balance := plan.recipient.balance + plan.amount))])
  {
    ApplyRecordWallets(t, plan, ids, reference, now);
    MergeOne(t.transfers, ids.transfer, TransferRecord(plan, ids, reference, now));
    ApplyKeeps(t, RecordChange(plan, ids, reference, now));
  }

  lemma ApplyRecordWallets(t: Tables, plan: TransferPlan, ids: NewIds, reference: string, now: Instant)
    ensures Apply(t, RecordChange(plan, ids, reference, now)).wallets
         == t.wallets[plan.senderId := Bump(plan.sender.(balance := plan.sender.balance - plan.amount))]
                     [plan.recipientId := Bump(plan.recipient.(balance := plan.recipient.balance + plan.amount))]
  {
    var x := plan.sender.(balance := plan.sender.balance - plan.amount);
    var y := plan.recipient.(balance := plan.recipient.balance + plan.amount);
    var cs := RecordChange(plan, ids, reference, now);
    assert cs.inserted.wallets == map[] && cs.modified.wallets == map[plan.senderId := x, plan.recipientId := y];
    StampedPair(plan.senderId, x, plan.recipientId, y);
    MergePair(t.wallets, plan.senderId, Bump(x), plan.recipientId, Bump(y));
  }

  /** A commit that returns a result went through both saves and the commit: the new keys were
      free and both wallets still had the versions the plan read. */
  lemma CommitSucceeded(t: Tables, plan: TransferPlan, ids: NewIds, guidN: string, now: Instant, outage: Outage)
    requires plan.senderId != plan.recipientId
    requires CommitTransfer(t, plan, ids, guidN, now, outage).result.Ok?
    ensures ids.debit !in t.transactions && ids.credit !in t.transactions && ids.transfer !in t.transfers
    ensures plan.senderId in t.wallets && plan.recipientId in t.wallets
    ensures t.wallets[plan.senderId].version == plan.sender.version
    ensures t.wallets[plan.recipientId].version == plan.recipient.version
    ensures CommitTransfer(t, plan, ids, guidN, now, outage).tables
         == Apply(Apply(t, LegsChange(plan, ids, "TRF_" + guidN, now)), RecordChange(plan, ids, "TRF_" + guidN, now))
  {
    var reference := "TRF_" + guidN;
    LegsSaved(t, plan, ids, reference, now, 1 in outage.saves);
    ApplyLegs(t, plan, ids, reference, now);
    RecordSaved(Apply(t, LegsChange(plan, ids, reference, now)), plan, ids, reference, now, 2 in outage.saves);
  }

  /** The result a successful commit reports. */
  lemma CommitResult(t: Tables, plan: TransferPlan, ids: NewIds, guidN: string, now: Instant, outage: Outage)
    requires CommitTransfer(t, plan, ids, guidN, now, outage).result.Ok?
    ensures CommitTransfer(t, plan, ids, guidN, now, outage).result.value
         == TransferFundsResult("TRF_" + guidN, plan.sender.walletNumber, plan.recipient.walletNumber, plan.amount,
                                plan.sender.balance - plan.amount, now, plan.description)
  {
  }

  lemma LegsSaved(t: Tables, plan: TransferPlan, ids: NewIds, reference: string, now: Instant, outage: bool)
    requires SaveError(t, LegsChange(plan, ids, reference, now), outage).None?
    ensures ids.debit !in t.transactions && ids.credit !in t.transactions
  {
    assert FreshKeys(t, LegsChange(plan, ids, reference, now).inserted);
  }

  lemma RecordSaved(t: Tables, plan: TransferPlan, ids: NewIds, reference: string, now: Instant, outage: bool)
    requires plan.senderId != plan.recipientId
    requires SaveError(t, RecordChange(plan, ids, reference, now), outage).None?
    ensures ids.transfer !in t.transfers
    ensures plan.senderId in t.wallets && t.wallets[plan.senderId].version == plan.sender.version
    ensures plan.recipientId in t.wallets && t.wallets[plan.recipientId].version == plan.recipient.version
  {
    var m := RecordChange(plan, ids, reference, now).modified;
    assert Tracked(t, m);
    assert plan.senderId in m.wallets && m.wallets[plan.senderId].version == plan.sender.version;
    assert plan.recipientId in m.wallets && m.wallets[plan.recipientId].version == plan.recipient.version;
  }

  /** Every failure of the transaction, whichever save or the commit it came from, leaves the
      store as the transaction found it. */
  lemma CommitFailureRollsBack(t: Tables, plan: TransferPlan, ids: NewIds, guidN: string, now: Instant, outage: Outage)
    ensures CommitTransfer(t, plan, ids, guidN, now, outage).result.Err? ==> CommitTransfer(t, plan, ids, guidN, now, outage).tables == t
  {
  }

  /** The store after both saves of a commit whose plan was read from `t` itself. */
  lemma CommitEffect(t: Tables, plan: TransferPlan, ids: NewIds, guidN: string, now: Instant, outage: Outage)
    requires plan.senderId != plan.recipientId
    requires plan.senderId in t.wallets && plan.sender == t.wallets[plan.senderId]
    requires plan.recipientId in t.wallets && plan.recipient == t.wallets[plan.recipientId]
    requires CommitTransfer(t, plan, ids, guidN, now, outage).result.Ok?
    ensures TransferEffect(t, CommitTransfer(t, plan, ids, guidN, now, outage).tables, plan, ids, "TRF_" + guidN, now)
  {
    CommitSucceeded(t, plan, ids, guidN, now, outage);
    SavesEffect(t, plan, ids, "TRF_" + guidN, now);
  }

  /** Both saves applied to the state the plan was read from. */
  lemma SavesEffect(t: Tables, plan: TransferPlan, ids: NewIds, reference: string, now: Instant)
    requires plan.senderId != plan.recipientId
    requires plan.senderId in t.wallets && plan.sender == t.wallets[plan.senderId]
    requires plan.recipientId in t.wallets && plan.recipient == t.wallets[plan.recipientId]
    requires ids.debit !in t.transactions && ids.credit !in t.transactions && ids.transfer !in t.transfers
    ensures TransferEffect(t, Apply(Apply(t, LegsChange(plan, ids, reference, now)), RecordChange(plan, ids, reference, now)), plan, ids, reference, now)
  {
    ApplyLegs(t, plan, ids, reference, now);
    ApplyRecord(Apply(t, LegsChange(plan, ids, reference, now)), plan, ids, reference, now);
  }
}
