/** GetWalletTransactionsQueryHandler: one page of the caller's history, newest first. The
    handler counts the wallet's entries, orders them by creation time descending, skips the
    earlier pages and takes one page. A read; the store is not changed. */
module GetWalletTransactions {
  import opened Common
  import opened Entities
  import opened Store
  import opened Lookups
  import opened TransactionList

  datatype GetWalletTransactionsQuery = GetWalletTransactionsQuery(pageNumber: int, pageSize: int)

  /** The query's default parameters. */
  const DefaultQuery: GetWalletTransactionsQuery := GetWalletTransactionsQuery(1, 20)

  /** OrderByDescending(CreatedAt): entry `a` is listed before entry `b`. The database leaves the
      order of entries created at the same instant open; the model lists those by id. */
  predicate Before(txs: map<Guid, Transaction>, a: Guid, b: Guid)
    requires a in txs && b in txs
  {
    txs[a].createdAt > txs[b].createdAt || (txs[a].createdAt == txs[b].createdAt && a < b)
  }

  lemma BeforeIsTransitive(txs: map<Guid, Transaction>, a: Guid, b: Guid, c: Guid)
    requires a in txs && b in txs && c in txs
    requires Before(txs, a, b) && Before(txs, b, c)
    ensures Before(txs, a, c)
  {
  }

  /** `s` lists entries of `txs`, each once, newest first. */
  predicate NewestFirst(txs: map<Guid, Transaction>, s: seq<Guid>) {
    && (forall i :: 0 <= i < |s| ==> s[i] in txs)
    && (forall i, j :: 0 <= i < j < |s| ==> Before(txs, s[i], s[j]))
  }

  /** Among finitely many entries, one is listed before all the others. */
  lemma {:induction false} NewestExists(txs: map<Guid, Transaction>, ids: set<Guid>)
    requires ids != {} && ids <= txs.Keys
    ensures exists x :: x in ids && forall y :: y in ids && y != x ==> Before(txs, x, y)
    decreases |ids|
  {
    var z :| z in ids;
    if ids != {z} {
      var rest := ids - {z};
      assert rest != {};
      NewestExists(txs, rest);
      var m :| m in rest && forall y :: y in rest && y != m ==> Before(txs, m, y);
      if Before(txs, z, m) {
        forall y | y in ids && y != z ensures Before(txs, z, y) {
          if y != m { BeforeIsTransitive(txs, z, m, y); }
        }
      } else {
        forall y | y in ids && y != m ensures Before(txs, m, y) {
          if y == z {
            assert txs[m].createdAt >= txs[z].createdAt;
          }
        }
      }
    }
  }

  /** The entry listed first: the newest, the lowest id among equally new ones. */
  function Newest(txs: map<Guid, Transaction>, ids: set<Guid>): (x: Guid)
    requires ids != {} && ids <= txs.Keys
    ensures x in ids
    ensures forall y :: y in ids && y != x ==> Before(txs, x, y)
  {
    NewestExists(txs, ids);
    var x :| x in ids && forall y :: y in ids && y != x ==> Before(txs, x, y);
    x
  }

  /** The entries with keys in `ids`, newest first. */
  function SortNewestFirst(txs: map<Guid, Transaction>, ids: set<Guid>): (r: seq<Guid>)
    requires ids <= txs.Keys
    ensures NewestFirst(txs, r)
    ensures |r| == |ids|
    ensures forall y :: y in r <==> y in ids
    decreases |ids|
  {
    if ids == {} then []
    else
      var x := Newest(txs, ids);
      var rest := SortNewestFirst(txs, ids - {x});
      assert forall j :: 0 <= j < |rest| ==> Before(txs, x, rest[j]);
      [x] + rest
  }

  /** `Transactions.Where(t => t.WalletId == walletId)`. */
  function WalletEntries(txs: map<Guid, Transaction>, walletId: Guid): set<Guid> {
    set id | id in txs && txs[id].walletId == walletId
  }

  /** The wallet's whole history, newest first. */
  function History(txs: map<Guid, Transaction>, walletId: Guid): seq<Guid> {
    SortNewestFirst(txs, WalletEntries(txs, walletId))
  }

  function ToDto(id: Guid, x: Transaction): TransactionDto {
    TransactionDto(id, x.reference, TypeName(x.kind), x.amount, StatusName(x.status), x.description, x.createdAt)
  }

  /** The `Select` projection of a list of entries. */
  function Dtos(txs: map<Guid, Transaction>, s: seq<Guid>): (r: seq<TransactionDto>)
    requires forall i :: 0 <= i < |s| ==> s[i] in txs
    ensures |r| == |s|
    ensures forall i :: 0 <= i < |s| ==> r[i] == ToDto(s[i], txs[s[i]])
  {
    if s == [] then [] else [ToDto(s[0], txs[s[0]])] + Dtos(txs, s[1..])
  }

  function Min(a: int, b: int): int { if a <= b then a else b }

  /** `Skip(skip).Take(take)` on a list: the elements at positions skip .. skip + take - 1 that
      exist. */
  function SkipTake<T>(s: seq<T>, skip: nat, take: nat): (r: seq<T>)
    ensures |r| <= take
    ensures skip >= |s| ==> r == []
    ensures skip < |s| ==> r == s[skip..Min(skip + take, |s|)]
  {
    if skip >= |s| then [] else s[skip..Min(skip + take, |s|)]
  }

  /** The number of entries before page `pageNumber`, computed without overflow. */
  function PageOffset(pageNumber: int, pageSize: int): nat
    requires pageNumber >= 1 && pageSize >= 1
  {
    (pageNumber - 1) * pageSize
  }

  /** Page `pageNumber` of the list `s`. */
  function Page<T>(s: seq<T>, pageNumber: int, pageSize: int): seq<T>
    requires pageNumber >= 1 && pageSize >= 1
  {
    SkipTake(s, PageOffset(pageNumber, pageSize), pageSize)
  }

  /** The handler. The page parameters are those the controller lets through. */
  function GetWalletTransactions(t: Tables, currentUser: Option<Guid>, query: GetWalletTransactionsQuery): (r: Result<TransactionListDto>)
    requires UniqueWalletOwners(t.wallets)
    requires query.pageNumber >= 1 && query.pageSize >= 1
    ensures r.Err? ==> r.error.UnauthorizedAccessException? || r.error.InvalidOperationException?
    ensures r.Ok? ==> && currentUser.Some?
                      && r.value.pageNumber == query.pageNumber && r.value.pageSize == query.pageSize
                      && |r.value.transactions| <= query.pageSize
  {
    if currentUser.None? then Err(UnauthorizedAccessException("User is not authenticated"))
    else
      match WalletOfUser(t.wallets, currentUser.value)
      case None => Err(InvalidOperationException(WalletNotFoundForUser))
      case Some(w) =>
        var totalCount := |WalletEntries(t.transactions, w)|;
        var page := Page(History(t.transactions, w), query.pageNumber, query.pageSize);
        Ok(TransactionListDto(Dtos(t.transactions, page), totalCount, query.pageNumber, query.pageSize))
  }

  /** The refusals: no caller, or a caller without a wallet. */
  lemma ListingRefusals(t: Tables, currentUser: Option<Guid>, query: GetWalletTransactionsQuery)
    requires UniqueWalletOwners(t.wallets)
    requires query.pageNumber >= 1 && query.pageSize >= 1
    ensures currentUser.None? ==> GetWalletTransactions(t, currentUser, query) == Err(UnauthorizedAccessException("User is not authenticated"))
    ensures currentUser.Some? ==>
              (GetWalletTransactions(t, currentUser, query).Err?
               <==> forall id :: id in t.wallets ==> t.wallets[id].userId != currentUser.value)
    ensures currentUser.Some? && GetWalletTransactions(t, currentUser, query).Err? ==>
              GetWalletTransactions(t, currentUser, query).error == InvalidOperationException(WalletNotFoundForUser)
  {
  }

  /** What a page reports, for the caller's wallet `w`: the count of all the wallet's entries,
      the page parameters as given, at most one page of entries, each an entry of that wallet,
      newest first. */
  lemma ListingReport(t: Tables, userId: Guid, query: GetWalletTransactionsQuery, w: Guid)
    requires UniqueWalletOwners(t.wallets)
    requires query.pageNumber >= 1 && query.pageSize >= 1
    requires w in t.wallets && t.wallets[w].userId == userId
    ensures GetWalletTransactions(t, Some(userId), query).Ok?
    ensures var dto := GetWalletTransactions(t, Some(userId), query).value;
            && dto.totalCount == |WalletEntries(t.transactions, w)|
            && dto.pageNumber == query.pageNumber && dto.pageSize == query.pageSize
            && |dto.transactions| <= query.pageSize
            && (forall i :: 0 <= i < |dto.transactions| ==>
                  && dto.transactions[i].id in t.transactions
                  && t.transactions[dto.transactions[i].id].walletId == w
                  && dto.transactions[i] == ToDto(dto.transactions[i].id, t.transactions[dto.transactions[i].id]))
            && (forall i, j :: 0 <= i < j < |dto.transactions| ==> dto.transactions[i].createdAt >= dto.transactions[j].createdAt)
  {
    WalletOfUserIsTheOnlyMatch(t.wallets, userId, w);
    var h := History(t.transactions, w);
    var page := Page(h, query.pageNumber, query.pageSize);
    var dto := GetWalletTransactions(t, Some(userId), query).value;
    PageOfSortedIsSorted(t.transactions, h, query.pageNumber, query.pageSize);
    forall i | 0 <= i < |page| ensures page[i] in h {
      PageElementIsListed(h, query.pageNumber, query.pageSize, i);
    }
    assert dto.transactions == Dtos(t.transactions, page);
  }

  lemma PageElementIsListed<T>(s: seq<T>, pageNumber: int, pageSize: int, i: int)
    requires pageNumber >= 1 && pageSize >= 1
    requires 0 <= i < |Page(s, pageNumber, pageSize)|
    ensures Page(s, pageNumber, pageSize)[i] == s[PageOffset(pageNumber, pageSize) + i]
  {
  }

  lemma PageOfSortedIsSorted(txs: map<Guid, Transaction>, s: seq<Guid>, pageNumber: int, pageSize: int)
    requires NewestFirst(txs, s)
    requires pageNumber >= 1 && pageSize >= 1
    ensures NewestFirst(txs, Page(s, pageNumber, pageSize))
  {
    var p := Page(s, pageNumber, pageSize);
    var k := PageOffset(pageNumber, pageSize);
    forall i, j | 0 <= i < j < |p| ensures Before(txs, p[i], p[j]) {
      PageElementIsListed(s, pageNumber, pageSize, i);
      PageElementIsListed(s, pageNumber, pageSize, j);
    }
    forall i | 0 <= i < |p| ensures p[i] in txs {
      PageElementIsListed(s, pageNumber, pageSize, i);
    }
  }

  /** Page `p` holds the wallet's history at positions (p-1)·s to (p-1)·s+s-1, as far as those
      exist. */
  lemma PageIsSliceOfHistory(t: Tables, userId: Guid, query: GetWalletTransactionsQuery, w: Guid)
    requires UniqueWalletOwners(t.wallets)
    requires query.pageNumber >= 1 && query.pageSize >= 1
    requires w in t.wallets && t.wallets[w].userId == userId
    ensures var h := History(t.transactions, w);
            var k := (query.pageNumber - 1) * query.pageSize;
            GetWalletTransactions(t, Some(userId), query)
            == Ok(TransactionListDto(
                    Dtos(t.transactions, if k < |h| then h[k..Min(k + query.pageSize, |h|)] else []),
                    |h|, query.pageNumber, query.pageSize))
  {
    WalletOfUserIsTheOnlyMatch(t.wallets, userId, w);
  }

  /** Two newest-first lists of the same entries are the same list: the order is fully
      determined by creation time and id. */
  lemma {:induction false} NewestFirstIsUnique(txs: map<Guid, Transaction>, a: seq<Guid>, b: seq<Guid>)
    requires NewestFirst(txs, a) && NewestFirst(txs, b)
    requires forall y :: y in a <==> y in b
    ensures a == b
    decreases |a|
  {
    if a == [] {
      EmptyOrHasHead(b);
    } else {
      assert a[0] in b;
      assert b != [] && b[0] in a;
      forall y ensures y in a[1..] <==> y in b[1..] {
        if y in a[1..] {
          var i :| 1 <= i < |a| && a[i] == y;
          assert Before(txs, a[0], y);
          assert y != b[0];
          assert y in b;
        }
        if y in b[1..] {
          var j :| 1 <= j < |b| && b[j] == y;
          assert Before(txs, b[0], y);
          assert y != a[0];
          assert y in a;
        }
      }
      NewestFirstTail(txs, a);
      NewestFirstTail(txs, b);
      NewestFirstIsUnique(txs, a[1..], b[1..]);
      assert a == [a[0]] + a[1..];
      assert b == [b[0]] + b[1..];
    }
  }

  lemma EmptyOrHasHead<T>(s: seq<T>)
    ensures s == [] || s[0] in s
  {
  }

  lemma NewestFirstTail(txs: map<Guid, Transaction>, s: seq<Guid>)
    requires NewestFirst(txs, s) && s != []
    ensures NewestFirst(txs, s[1..])
  {
    forall i, j | 0 <= i < j < |s[1..]| ensures Before(txs, s[1..][i], s[1..][j]) {
      assert s[1..][i] == s[i + 1] && s[1..][j] == s[j + 1];
    }
  }

  /** The history is the one newest-first listing of the wallet's entries. */
  lemma HistoryIsDetermined(txs: map<Guid, Transaction>, w: Guid, s: seq<Guid>)
    requires NewestFirst(txs, s)
    requires forall y :: y in s <==> y in txs && txs[y].walletId == w
    ensures s == History(txs, w)
  {
    NewestFirstIsUnique(txs, s, History(txs, w));
  }

  /** Pages 1 .. n of `s`, one after another. */
  function Pages<T>(s: seq<T>, pageSize: int, n: nat): seq<T>
    requires pageSize >= 1
  {
    if n == 0 then [] else Pages(s, pageSize, n - 1) + Page(s, n, pageSize)
  }

  /** The first n pages are the first n·size elements, as far as those exist. */
  lemma {:induction false} PagesArePrefix<T>(s: seq<T>, pageSize: int, n: nat)
    requires pageSize >= 1
    ensures Pages(s, pageSize, n) == s[..Min(n * pageSize, |s|)]
  {
    if n > 0 {
      PagesArePrefix(s, pageSize, n - 1);
      var k := (n - 1) * pageSize;
      assert n * pageSize == k + pageSize;
      if k < |s| {
        assert s[..Min(k, |s|)] + s[k..Min(k + pageSize, |s|)] == s[..Min(k + pageSize, |s|)];
      }
    }
  }

  /** Pages 1 .. TotalPages partition the list: together, in order, they are the whole list,
      and every later page is empty. */
  lemma PagesPartition<T>(s: seq<T>, dto: TransactionListDto, p: int)
    requires dto.pageSize >= 1 && dto.totalCount == |s|
    ensures Pages(s, dto.pageSize, TotalPages(dto)) == s
    ensures p > TotalPages(dto) ==> Page(s, p, dto.pageSize) == []
  {
    PagesArePrefix(s, dto.pageSize, TotalPages(dto));
    if p > TotalPages(dto) {
      assert p - 1 >= TotalPages(dto);
      MultiplyMonotone(TotalPages(dto), p - 1, dto.pageSize);
    }
  }

  /** The history of every page a caller can see partitions into the reported pages. */
  lemma ReportedPagesPartitionHistory(t: Tables, userId: Guid, query: GetWalletTransactionsQuery, w: Guid)
    requires UniqueWalletOwners(t.wallets)
    requires query.pageNumber >= 1 && query.pageSize >= 1
    requires w in t.wallets && t.wallets[w].userId == userId
    ensures GetWalletTransactions(t, Some(userId), query).Ok?
    ensures var dto := GetWalletTransactions(t, Some(userId), query).value;
            Pages(History(t.transactions, w), query.pageSize, TotalPages(dto)) == History(t.transactions, w)
  {
    WalletOfUserIsTheOnlyMatch(t.wallets, userId, w);
    var dto := GetWalletTransactions(t, Some(userId), query).value;
    PagesPartition(History(t.transactions, w), dto, query.pageNumber);
  }

  // The skip as written: (PageNumber - 1) * PageSize in 32-bit arithmetic.

  const Int32Max: int := 0x7FFF_FFFF

  predicate IsInt32(x: int) { -0x8000_0000 <= x <= Int32Max }

  /** Unchecked 32-bit arithmetic: the result reduced into the int range. */
  function Wrap32(x: int): (r: int)
    ensures IsInt32(r)
    ensures IsInt32(x) ==> r == x
  {
    (x + 0x8000_0000) % 0x1_0000_0000 - 0x8000_0000
  }

  /** The offset the handler hands to the database, computed in the C# `int` type. */
  function OffsetAsWritten(pageNumber: int, pageSize: int): int {
    Wrap32(Wrap32(pageNumber - 1) * pageSize)
  }

  /** The page the handler as written returns from `s`. PostgreSQL refuses a negative OFFSET,
      so a negative offset fails the query. */
  function PageAsWritten<T>(s: seq<T>, pageNumber: int, pageSize: int): (r: Result<seq<T>>)
    requires pageSize >= 1
    ensures r.Err? <==> OffsetAsWritten(pageNumber, pageSize) < 0
    ensures r.Ok? ==> |r.value| <= pageSize
  {
    var offset := OffsetAsWritten(pageNumber, pageSize);
    if offset < 0 then Err(DbFailure) else Ok(SkipTake(s, offset, pageSize))
  }

  /** Pages past the end are empty on the corrected offset, but not as written: a page number the
      controller accepts makes the 32-bit product wrap around, so page 42,949,674 of size 100
      starts at entry 4 and repeats entries of the first two pages, and page 21,474,838 gets a
      negative offset and fails. */
  lemma OffsetOverflow<T>(s: seq<T>)
    requires |s| == 10
    ensures IsInt32(42_949_674) && IsInt32(21_474_838)
    ensures PageOffset(42_949_674, 100) == 4_294_967_300 && OffsetAsWritten(42_949_674, 100) == 4
    ensures Page(s, 42_949_674, 100) == []
    ensures PageAsWritten(s, 42_949_674, 100) == Ok(s[4..10])
    ensures OffsetAsWritten(21_474_838, 100) < 0 && PageAsWritten(s, 21_474_838, 100).Err?
    ensures Page(s, 21_474_838, 100) == []
  {
  }

  /** Within the range where the product fits, the offset as written is the corrected one. */
  lemma OffsetAsWrittenAgrees(pageNumber: int, pageSize: int)
    requires pageNumber >= 1 && pageSize >= 1
    requires (pageNumber - 1) * pageSize <= Int32Max
    ensures OffsetAsWritten(pageNumber, pageSize) == PageOffset(pageNumber, pageSize)
  {
    if pageNumber > 1 {
      MultiplyMonotone(1, pageSize, pageNumber - 1);
    }
    assert Wrap32(pageNumber - 1) == pageNumber - 1;
  }
}
