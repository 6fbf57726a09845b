/** WalletController: the HTTP face of the balance and history queries. It checks the page
    parameters before sending the history query and turns the handlers' exceptions into
    status codes. */
module WalletController {
  import opened Common
  import opened Store
  import opened TransactionList
  import GetWalletBalance
  import opened Lookups
  import GetWalletTransactions

  /** The action results the two endpoints return; each error carries a `{ message }` body. */
  datatype ActionResult<T> =
    | OkResult(value: T)
    | BadRequest(message: string)
    | NotFound(message: string)
    | UnauthorizedResult(message: string)
    | ServerError(message: string)

  function StatusCode<T>(r: ActionResult<T>): int {
    match r
    case OkResult(_) => 200
    case BadRequest(_) => 400
    case NotFound(_) => 404
    case UnauthorizedResult(_) => 401
    case ServerError(_) => 500
  }

  const BalanceFailed: string := "An error occurred while retrieving wallet balance"
  const TransactionsFailed: string := "An error occurred while retrieving transactions"
  const PageNumberTooSmall: string := "Page number must be greater than 0"
  const PageSizeOutOfRange: string := "Page size must be between 1 and 100"

  const DefaultPageNumber: int := 1
  const DefaultPageSize: int := 20
  const MaxPageSize: int := 100

  /** The three catch blocks of an endpoint; `fallback` is its generic 500 message. */
  function Respond<T>(r: Result<T>, fallback: string): (a: ActionResult<T>)
    ensures a.OkResult? <==> r.Ok?
    ensures StatusCode(a) in {200, 401, 404, 500}
  {
    match r
    case Ok(v) => OkResult(v)
    case Err(e) =>
      if e.InvalidOperationException? then NotFound(e.message)
      else if e.UnauthorizedAccessException? then UnauthorizedResult(e.message)
      else ServerError(fallback)
  }

  /** The catch blocks: a result is passed through with 200; an InvalidOperationException is a
      404 and an UnauthorizedAccessException a 401, each with the exception's own message; any
      other exception is a 500 with the generic message. */
  lemma ErrorStatuses<T>(r: Result<T>, fallback: string)
    ensures StatusCode(Respond(r, fallback)) == 200 <==> r.Ok?
    ensures r.Ok? ==> Respond(r, fallback) == OkResult(r.value)
    ensures StatusCode(Respond(r, fallback)) == 404 <==> r.Err? && r.error.InvalidOperationException?
    ensures StatusCode(Respond(r, fallback)) == 401 <==> r.Err? && r.error.UnauthorizedAccessException?
    ensures StatusCode(Respond(r, fallback)) == 500 <==>
              r.Err? && !r.error.InvalidOperationException? && !r.error.UnauthorizedAccessException?
    ensures StatusCode(Respond(r, fallback)) in {200, 401, 404, 500}
    ensures r.Err? && (r.error.InvalidOperationException? || r.error.UnauthorizedAccessException?) ==>
              Respond(r, fallback).message == r.error.message
    ensures Respond(r, fallback) == ServerError(fallback) <==>
              r.Err? && !r.error.InvalidOperationException? && !r.error.UnauthorizedAccessException?
  {
  }

  /** GET api/wallet/balance. */
  function GetBalance(t: Tables, currentUser: Option<Guid>): (a: ActionResult<GetWalletBalance.WalletBalanceDto>)
    requires UniqueWalletOwners(t.wallets)
    ensures a.OkResult? ==> a.value.walletId in t.wallets && currentUser == Some(t.wallets[a.value.walletId].userId)
    ensures !a.BadRequest? && !a.ServerError?
  {
    Respond(GetWalletBalance.GetWalletBalance(t, currentUser), BalanceFailed)
  }

  /** The balance endpoint answers 401 to an unauthenticated caller, 404 to a caller without a
      wallet and 200 otherwise; it never answers 400 or 500. */
  lemma BalanceStatuses(t: Tables, currentUser: Option<Guid>)
    requires UniqueWalletOwners(t.wallets)
    ensures StatusCode(GetBalance(t, currentUser)) == 401 <==> currentUser.None?
    ensures StatusCode(GetBalance(t, currentUser)) == 404 <==>
              currentUser.Some? && forall id :: id in t.wallets ==> t.wallets[id].userId != currentUser.value
    ensures StatusCode(GetBalance(t, currentUser)) in {200, 401, 404}
    ensures GetBalance(t, currentUser).NotFound? ==> GetBalance(t, currentUser).message == WalletNotFoundForUser
  {
    ErrorStatuses(GetWalletBalance.GetWalletBalance(t, currentUser), BalanceFailed);
  }

  /** GET api/wallet/transactions?pageNumber=…&pageSize=…; the page parameters default to 1 and
      20. The guards establish what the handler needs: a page number and a page size of at
      least 1. */
  function GetTransactions(t: Tables, currentUser: Option<Guid>, pageNumber: int, pageSize: int): (a: ActionResult<TransactionListDto>)
    requires UniqueWalletOwners(t.wallets)
    ensures a.BadRequest? <==> pageNumber < 1 || !(1 <= pageSize <= MaxPageSize)
    ensures a.OkResult? ==> a.value.pageNumber == pageNumber && a.value.pageSize == pageSize
  {
    if pageNumber < 1 then BadRequest(PageNumberTooSmall)
    else if pageSize < 1 || pageSize > MaxPageSize then BadRequest(PageSizeOutOfRange)
    else Respond(GetWalletTransactions.GetWalletTransactions(t, currentUser, GetWalletTransactions.GetWalletTransactionsQuery(pageNumber, pageSize)), TransactionsFailed)
  }

  /** The page guards: a page number below 1 is refused first, then a page size outside
      1 .. 100; these are exactly the 400 answers. */
  lemma PageGuards(t: Tables, currentUser: Option<Guid>, pageNumber: int, pageSize: int)
    requires UniqueWalletOwners(t.wallets)
    ensures pageNumber < 1 ==> GetTransactions(t, currentUser, pageNumber, pageSize) == BadRequest(PageNumberTooSmall)
    ensures pageNumber >= 1 && !(1 <= pageSize <= 100) ==>
              GetTransactions(t, currentUser, pageNumber, pageSize) == BadRequest(PageSizeOutOfRange)
    ensures StatusCode(GetTransactions(t, currentUser, pageNumber, pageSize)) == 400 <==>
              pageNumber < 1 || !(1 <= pageSize <= 100)
  {
    if 1 <= pageNumber && 1 <= pageSize <= 100 {
      ErrorStatuses(GetWalletTransactions.GetWalletTransactions(t, currentUser, GetWalletTransactions.GetWalletTransactionsQuery(pageNumber, pageSize)), TransactionsFailed);
    }
  }

  /** Past the guards: 401 for no caller, 404 for a caller without a wallet, otherwise 200 with
      the page asked for, whose page count is then well defined and covers the whole history. */
  lemma AcceptedPageStatuses(t: Tables, currentUser: Option<Guid>, pageNumber: int, pageSize: int)
    requires UniqueWalletOwners(t.wallets)
    requires pageNumber >= 1 && 1 <= pageSize <= 100
    ensures StatusCode(GetTransactions(t, currentUser, pageNumber, pageSize)) == 401 <==> currentUser.None?
    ensures StatusCode(GetTransactions(t, currentUser, pageNumber, pageSize)) == 404 <==>
              currentUser.Some? && forall id :: id in t.wallets ==> t.wallets[id].userId != currentUser.value
    ensures StatusCode(GetTransactions(t, currentUser, pageNumber, pageSize)) in {200, 401, 404}
    ensures var r := GetTransactions(t, currentUser, pageNumber, pageSize);
            r.OkResult? ==>
              && r.value.pageNumber == pageNumber && r.value.pageSize == pageSize
              && |r.value.transactions| <= pageSize
              && r.value.totalCount >= 0
              && TotalPages(r.value) * pageSize >= r.value.totalCount
  {
    var q := GetWalletTransactions.GetWalletTransactionsQuery(pageNumber, pageSize);
    ErrorStatuses(GetWalletTransactions.GetWalletTransactions(t, currentUser, q), TransactionsFailed);
    GetWalletTransactions.ListingRefusals(t, currentUser, q);
    var r := GetTransactions(t, currentUser, pageNumber, pageSize);
    if r.OkResult? {
      var w := WalletOfUser(t.wallets, currentUser.value).value;
      GetWalletTransactions.ListingReport(t, currentUser.value, q, w);
    }
  }

  /** The default parameters pass the guards. */
  lemma DefaultsPassGuards(t: Tables, currentUser: Option<Guid>)
    requires UniqueWalletOwners(t.wallets)
    ensures !GetTransactions(t, currentUser, DefaultPageNumber, DefaultPageSize).BadRequest?
    ensures GetWalletTransactions.GetWalletTransactionsQuery(DefaultPageNumber, DefaultPageSize) == GetWalletTransactions.DefaultQuery
  {
    PageGuards(t, currentUser, DefaultPageNumber, DefaultPageSize);
  }

  /** The guards bound the page size but not the page number: page 42,949,674 of size 100 gets
      through, and for it the 32-bit skip as written is 4 instead of 4,294,967,300. */
  lemma GuardsAdmitOverflowingPage(t: Tables, currentUser: Option<Guid>)
    requires UniqueWalletOwners(t.wallets)
    ensures !GetTransactions(t, currentUser, 42_949_674, 100).BadRequest?
    ensures GetWalletTransactions.IsInt32(42_949_674) && GetWalletTransactions.OffsetAsWritten(42_949_674, 100) != GetWalletTransactions.PageOffset(42_949_674, 100)
  {
    PageGuards(t, currentUser, 42_949_674, 100);
  }
}
