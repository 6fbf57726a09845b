/** The page of history GetWalletTransactions returns, and its derived page count. */
module TransactionList {
  import opened Common

  datatype TransactionDto = TransactionDto(
    id: Guid,
    reference: string,
    kind: string,
    amount: int,
    status: string,
    description: Option<string>,
    createdAt: Instant)

  datatype TransactionListDto = TransactionListDto(
    transactions: seq<TransactionDto>,
    totalCount: int,
    pageNumber: int,
    pageSize: int)

  /** TotalPages: the number of pages of `pageSize` entries that hold `totalCount` entries,
      the ceiling of their quotient. The last page is the one that holds the last entry, so the
      pages hold all entries and no page past the last holds any. */
  function TotalPages(dto: TransactionListDto): (pages: int)
    requires dto.totalCount >= 0 && dto.pageSize > 0
    ensures pages >= 0
    ensures pages * dto.pageSize >= dto.totalCount
    ensures dto.totalCount > 0 ==> (pages - 1) * dto.pageSize < dto.totalCount
    ensures dto.totalCount == 0 <==> pages == 0
  {
    CeilingDivision(dto.totalCount, dto.pageSize);
    (dto.totalCount + dto.pageSize - 1) / dto.pageSize
  }

  lemma CeilingDivision(n: int, d: int)
    requires n >= 0 && d > 0
    ensures var q := (n + d - 1) / d;
            && q >= 0 && q * d >= n && (n > 0 ==> (q - 1) * d < n) && (n == 0 <==> q == 0)
  {
    var q := (n + d - 1) / d;
    var r := (n + d - 1) % d;
    assert n + d - 1 == q * d + r && 0 <= r < d;
  }

  /** The ceiling is the only page count with both properties: any count of pages that holds
      every entry, whose last page is not empty, is TotalPages. */
  lemma TotalPagesIsTheCeiling(dto: TransactionListDto, pages: int)
    requires dto.totalCount >= 0 && dto.pageSize > 0 && pages >= 0
    requires pages * dto.pageSize >= dto.totalCount
    requires dto.totalCount > 0 ==> (pages - 1) * dto.pageSize < dto.totalCount
    requires dto.totalCount == 0 ==> pages == 0
    ensures pages == TotalPages(dto)
  {
    var q := TotalPages(dto);
    var d := dto.pageSize;
    if pages < q {
      assert pages <= q - 1;
      MultiplyMonotone(pages, q - 1, d);
    } else if pages > q {
      assert q <= pages - 1;
      MultiplyMonotone(q, pages - 1, d);
    }
  }

  lemma MultiplyMonotone(a: int, b: int, d: int)
    requires a <= b && d > 0
    ensures a * d <= b * d
  {
  }
}
