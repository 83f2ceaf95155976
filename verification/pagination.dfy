/** The page/limit/offset arithmetic every listing endpoint repeats:
    `page = parseInt(q.page) || 1`, `limit = parseInt(q.limit) || d`,
    `offset = (page - 1) * limit`, `pages = Math.ceil(total / limit)`. */
module Pagination {
  import opened Common

  /** `parseInt(raw) || fallback`. A query value that is absent or not
      numeric parses to NaN (`None`); NaN and 0 are both falsy. */
  function IntOr(raw: Option<int>, fallback: int): int
  {
    match raw
    case Some(v) => if v != 0 then v else fallback
    case None => fallback
  }

  /** `Math.ceil(total / limit)` for a positive limit. */
  function CeilDiv(total: nat, limit: nat): (r: nat)
    requires limit >= 1
    ensures total <= r * limit
    ensures r == 0 || (r - 1) * limit < total
  {
    if total % limit == 0 then total / limit else total / limit + 1
  }

  datatype PageInfo = PageInfo(page: int, limit: int, offset: int, total: nat, pages: nat)

  /** The pagination block of a listing reply. The page and limit are
      interpolated into `LIMIT … OFFSET …`; a negative value there is a SQL
      syntax error, which the handler turns into a 500. */
  function Paginate(rawPage: Option<int>, rawLimit: Option<int>, defaultLimit: int, total: nat): (r: Result<PageInfo>)
    requires defaultLimit >= 1
    ensures r.Ok? <==> IntOr(rawPage, 1) >= 1 && IntOr(rawLimit, defaultLimit) >= 1
    ensures r.Err? ==> r.error == ServerError
    ensures r.Ok? ==> r.value.page == IntOr(rawPage, 1) && r.value.limit == IntOr(rawLimit, defaultLimit)
    ensures r.Ok? ==> r.value.offset >= 0 && r.value.offset == (r.value.page - 1) * r.value.limit
    ensures r.Ok? ==> r.value.total <= r.value.pages * r.value.limit
    ensures r.Ok? ==> (r.value.pages == 0 <==> total == 0)
    ensures r.Ok? && r.value.pages > 0 ==> (r.value.pages - 1) * r.value.limit < total
  {
    var page := IntOr(rawPage, 1);
    var limit := IntOr(rawLimit, defaultLimit);
    if page < 1 || limit < 1 then Err(ServerError)
    else
      var pages := CeilDiv(total, limit);
      Ok(PageInfo(page, limit, (page - 1) * limit, total, pages))
  }

  /** The rows `LIMIT limit OFFSET offset` returns. */
  function PageRows<T>(rows: seq<T>, offset: nat, limit: nat): (r: seq<T>)
    ensures |r| <= limit
    ensures forall k :: 0 <= k < |r| ==> offset + k < |rows| && r[k] == rows[offset + k]
  {
    if offset >= |rows| then []
    else if offset + limit >= |rows| then rows[offset..]
    else rows[offset..offset + limit]
  }

  /** The pages partition the rows: row `i` of `total` sits on page
      `i / limit + 1`, which is one of the `pages` announced. */
  lemma RowOnItsPage<T>(rows: seq<T>, limit: nat, i: nat)
    requires limit >= 1 && i < |rows|
    ensures var p := i / limit + 1;
      && 1 <= p <= CeilDiv(|rows|, limit)
      && (p - 1) * limit <= i < p * limit
      && rows[i] in PageRows(rows, (p - 1) * limit, limit)
  {
    var q := i / limit;
    var p := q + 1;
    var pages := CeilDiv(|rows|, limit);
    DivBounds(i, limit);
    assert p * limit == q * limit + limit;
    assert (p - 1) * limit < pages * limit;
    MulStrict(p - 1, pages, limit);
    var off := (p - 1) * limit;
    var page := PageRows(rows, off, limit);
    assert off + (i - off) == i;
    if off + limit >= |rows| {
      assert page == rows[off..];
      assert page[i - off] == rows[i];
    } else {
      assert page == rows[off..off + limit];
      assert page[i - off] == rows[i];
    }
  }

  lemma DivBounds(i: nat, limit: nat)
    requires limit >= 1
    ensures (i / limit) * limit <= i < (i / limit) * limit + limit
  {
  }

  lemma MulStrict(a: nat, b: nat, c: nat)
    requires a * c < b * c
    ensures a < b
  {
  }
}
