/** GetDepositStatusQueryHandler: the local status of one ledger entry of the caller, with the
    gateway's view of it when the gateway answers. A read: the gateway's answer is only
    reported, never acted on, and the store is not changed. */
module GetDepositStatus {
  import opened Common
  import opened Entities
  import opened Store
  import opened Lookups

  datatype GetDepositStatusQuery = GetDepositStatusQuery(reference: string)

  datatype DepositStatusDto = DepositStatusDto(reference: string, amount: int, status: string, paystackStatus: string, createdAt: Instant)

  datatype PaystackVerifyData = PaystackVerifyData(reference: string, amount: int, status: string)

  datatype PaystackVerifyResponse = PaystackVerifyResponse(status: bool, message: string, data: Option<PaystackVerifyData>)

  /** What VerifyTransactionAsync(reference) came back with: a response, or an exception. */
  datatype VerifyReply = Verified(response: PaystackVerifyResponse) | VerifyThrew(error: Exception)

  const UnknownStatus: string := "unknown"

  const NoAccess: string := "You do not have access to this transaction"

  /** The gateway status the report shows: the gateway's own when it answered with data, and
      "unknown" when it threw, answered `Status` false or sent no data. */
  function GatewayStatus(reply: VerifyReply): (s: string)
    ensures s != UnknownStatus ==> reply.Verified? && reply.response.status && reply.response.data.Some?
    ensures reply.Verified? && reply.response.status && reply.response.data.Some? ==> s == reply.response.data.value.status
  {
    if reply.Verified? && reply.response.status && reply.response.data.Some? then reply.response.data.value.status
    else UnknownStatus
  }

  /** The handler: an unauthenticated caller is refused; an unknown reference is "Transaction not
      found"; an entry on another user's wallet is refused as unauthorized; otherwise the report
      carries the stored entry's reference, amount, status and creation time. */
  function GetDepositStatus(t: Tables, currentUser: Option<Guid>, query: GetDepositStatusQuery, reply: VerifyReply): (r: Result<DepositStatusDto>)
    requires Readable(t)
    ensures currentUser.None? ==> r == Err(UnauthorizedAccessException("User is not authenticated"))
    ensures currentUser.Some? ==>
              (r == Err(InvalidOperationException("Transaction not found"))
               <==> forall id :: id in t.transactions ==> t.transactions[id].reference != query.reference)
    ensures r.Ok? ==>
              && currentUser.Some?
              && exists id :: && id in t.transactions && t.transactions[id].reference == query.reference
                              && t.wallets[t.transactions[id].walletId].userId == currentUser.value
                              && r.value == DepositStatusDto(t.transactions[id].reference, t.transactions[id].amount,
                                                             StatusName(t.transactions[id].status), GatewayStatus(reply),
                                                             t.transactions[id].createdAt)
  {
    if currentUser.None? then Err(UnauthorizedAccessException("User is not authenticated"))
    else
      match TransactionByReference(t.transactions, query.reference)
      case None => Err(InvalidOperationException("Transaction not found"))
      case Some(id) =>
        var x := t.transactions[id];
        if t.wallets[x.walletId].userId != currentUser.value then Err(UnauthorizedAccessException(NoAccess))
        else Ok(DepositStatusDto(x.reference, x.amount, StatusName(x.status), GatewayStatus(reply), x.createdAt))
  }

  /** The ownership check: an existing entry is refused exactly when its wallet is another
      user's, and that refusal is unauthorized, not not-found. */
  lemma OwnershipDecides(t: Tables, userId: Guid, query: GetDepositStatusQuery, reply: VerifyReply, id: Guid)
    requires Readable(t)
    requires id in t.transactions && t.transactions[id].reference == query.reference
    ensures GetDepositStatus(t, Some(userId), query, reply) == Err(UnauthorizedAccessException(NoAccess))
        <==> t.wallets[t.transactions[id].walletId].userId != userId
    ensures GetDepositStatus(t, Some(userId), query, reply).Ok?
        <==> t.wallets[t.transactions[id].walletId].userId == userId
  {
    TransactionByReferenceIsTheOnlyMatch(t.transactions, query.reference, id);
  }

  /** The gateway cannot fail the query: whatever it answers, or if it throws, the outcome is the
      same except for the gateway status shown. */
  lemma GatewayNeverFailsTheQuery(t: Tables, currentUser: Option<Guid>, query: GetDepositStatusQuery, a: VerifyReply, b: VerifyReply)
    requires Readable(t)
    ensures GetDepositStatus(t, currentUser, query, a).Ok? == GetDepositStatus(t, currentUser, query, b).Ok?
    ensures GetDepositStatus(t, currentUser, query, a).Err? ==>
              GetDepositStatus(t, currentUser, query, a) == GetDepositStatus(t, currentUser, query, b)
    ensures GetDepositStatus(t, currentUser, query, a).Ok? ==>
              GetDepositStatus(t, currentUser, query, a).value.(paystackStatus := GatewayStatus(b))
              == GetDepositStatus(t, currentUser, query, b).value
  {
  }

  /** A gateway failure shows as "unknown" in a successful report. */
  lemma GatewayFailureShowsUnknown(t: Tables, currentUser: Option<Guid>, query: GetDepositStatusQuery, reply: VerifyReply)
    requires Readable(t)
    requires GetDepositStatus(t, currentUser, query, reply).Ok?
    requires reply.VerifyThrew? || !reply.response.status || reply.response.data.None?
    ensures GetDepositStatus(t, currentUser, query, reply).value.paystackStatus == UnknownStatus
  {
  }
}
