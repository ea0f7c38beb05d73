/** The pagination helpers: clamping a requested page and page size into a
    query window, and wrapping one page of results with its page count. */
module PaginationUtil {
  import opened Entities

  const DefaultPage := 1
  const DefaultLimit := 10
  const MaxLimit := 100

  function Max(a: int, b: int): int {
    if a >= b then a else b
  }

  function Min(a: int, b: int): int {
    if a <= b then a else b
  }

  /** The query window of one page: skip `offset` records, take `limit`. */
  datatype Window = Window(offset: int, limit: int, page: int)

  /** `paginate(page = 1, limit = 10)`; an absent argument takes its default.
      The page is at least 1 and the page size between 1 and 100, each equal
      to the request when it is already in range. */
  function Paginate(page: Option<int>, limit: Option<int>): (w: Window)
    ensures w.page >= 1
    ensures page.GetOr(DefaultPage) >= 1 ==> w.page == page.GetOr(DefaultPage)
    ensures page.GetOr(DefaultPage) < 1 ==> w.page == 1
    ensures 1 <= w.limit <= MaxLimit
    ensures 1 <= limit.GetOr(DefaultLimit) <= MaxLimit ==> w.limit == limit.GetOr(DefaultLimit)
    ensures limit.GetOr(DefaultLimit) > MaxLimit ==> w.limit == MaxLimit
    ensures limit.GetOr(DefaultLimit) < 1 ==> w.limit == 1
    ensures w.offset >= 0 && w.offset + w.limit == w.page * w.limit
  {
    var pageNum := Max(1, page.GetOr(DefaultPage));
    var limitNum := Max(1, Min(limit.GetOr(DefaultLimit), MaxLimit));
    var offset := (pageNum - 1) * limitNum;
    assert offset >= 0 by { NonNegativeProduct(pageNum - 1, limitNum); }
    Window(offset, limitNum, pageNum)
  }

  lemma NonNegativeProduct(a: int, b: int)
    requires a >= 0 && b >= 0
    ensures a * b >= 0
  {
  }

  /** Feeding the clamped page and size back in yields the same window. */
  lemma PaginateIdempotent(page: Option<int>, limit: Option<int>)
    ensures var w := Paginate(page, limit);
            Paginate(Some(w.page), Some(w.limit)) == w
  {
  }

  /** Consecutive pages tile the records: page `p + 1` starts where page `p`
      ends. */
  lemma PagesAreAdjacent(p: int, limit: Option<int>)
    requires p >= 1
    ensures var w := Paginate(Some(p), limit);
            Paginate(Some(p + 1), limit).offset == w.offset + w.limit
  {
  }

  /** One page of results as the API returns it. `totalPages` is None where
      `Math.ceil(total / limit)` is not a finite number (a zero limit), which
      the JSON response carries as null. */
  datatype PaginatedResponse<T> = PaginatedResponse(
    data: seq<T>,
    total: int,
    page: int,
    limit: int,
    totalPages: Option<int>
  )

  /** `Math.ceil(a / b)` for a non-zero divisor, on exact integers. */
  function CeilDiv(a: int, b: int): (c: int)
    requires b != 0
    ensures b > 0 ==> (c - 1) * b < a <= c * b
    ensures b < 0 ==> c * b <= a < (c - 1) * b
  {
    if b > 0 then -((-a) / b) else -(a / (-b))
  }

  /** `formatResponse(data, total, page, limit)`: everything passed through,
      plus the number of pages `total` records fill at `limit` a page. */
  function FormatResponse<T>(data: seq<T>, total: int, page: int, limit: int): (r: PaginatedResponse<T>)
    ensures r.data == data && r.total == total && r.page == page && r.limit == limit
    ensures r.totalPages.None? <==> limit == 0
    ensures limit > 0 ==> (r.totalPages.value - 1) * limit < total <= r.totalPages.value * limit
    ensures limit < 0 ==> r.totalPages.value * limit <= total < (r.totalPages.value - 1) * limit
    ensures limit != 0 && total == 0 ==> r.totalPages == Some(0)
  {
    PaginatedResponse(data, total, page, limit, if limit == 0 then None else Some(CeilDiv(total, limit)))
  }

  /** With a valid page size, every record index falls on a page between 1
      and `totalPages`, inside that page's window, and the last page is not
      empty. */
  lemma EveryRecordOnAPage<T>(data: seq<T>, total: int, limit: int, k: int)
    requires 1 <= limit <= MaxLimit && 0 <= k < total
    ensures var tp := FormatResponse(data, total, 1, limit).totalPages.value;
            var p := k / limit + 1;
            var w := Paginate(Some(p), Some(limit));
            && 1 <= p <= tp
            && w.offset <= k < w.offset + w.limit
            && Paginate(Some(tp), Some(limit)).offset < total
  {
    var tp := FormatResponse(data, total, 1, limit).totalPages.value;
    assert (tp - 1) * limit < total <= tp * limit;
    PageOfRecord(k, limit, total, tp);
    var p := k / limit + 1;
    assert Paginate(Some(p), Some(limit)).offset == (k / limit) * limit;
    assert Paginate(Some(tp), Some(limit)).offset == (tp - 1) * limit;
  }

  /** Record `k` lies on page `k / limit + 1`, which is one of the `tp` pages
      that `total` records fill. */
  lemma PageOfRecord(k: int, limit: int, total: int, tp: int)
    requires 1 <= limit && 0 <= k < total
    requires (tp - 1) * limit < total <= tp * limit
    ensures 1 <= k / limit + 1 <= tp
    ensures (k / limit) * limit <= k < (k / limit) * limit + limit
  {
    var p := k / limit + 1;
    assert (k / limit) * limit + k % limit == k;
    assert (p - 1) * limit <= k < p * limit;
    ProductCancels(p - 1, tp, limit);
  }

  lemma ProductCancels(a: int, b: int, c: int)
    requires c > 0 && a * c < b * c
    ensures a < b
  {
    if a >= b {
      assert a * c - b * c == (a - b) * c;
      NonNegativeProduct(a - b, c);
    }
  }
}
