/** The product listing page's state: the filters read from and written
    back to the URL's query string, what changing a filter or the page does
    to them, the query sent to the listing endpoint, and the pagination
    controls (the window of page buttons and the Previous/Next guards). */
module ProductsPage {
  import opened Common
  import opened JsNumbers
  import Pagination
  import ProductRoutes

  /** The page's filter state; `page` is whatever number the URL or a click
      produced. */
  datatype Filters = Filters(search: string, category: string, sortBy: string, sortOrder: string, page: int)

  datatype Key = SearchKey | CategoryKey | SortByKey | SortOrderKey | PageKey

  function KeyName(k: Key): string
  {
    match k
    case SearchKey => "search"
    case CategoryKey => "category"
    case SortByKey => "sortBy"
    case SortOrderKey => "sortOrder"
    case PageKey => "page"
  }

  /** A fingerprint that tells the five names apart. */
  function NameTag(s: string): (nat, char)
  {
    if |s| >= 2 then (|s|, s[1]) else (|s|, ' ')
  }

  lemma KeyNamesDistinct(a: Key, b: Key)
    ensures KeyName(a) == KeyName(b) ==> a == b
  {
    if KeyName(a) == KeyName(b) {
      assert NameTag(KeyName(a)) == NameTag(KeyName(b));
    }
  }

  /** A query string: its name/value pairs in order. */
  type Params = seq<(string, string)>

  /** `params.get(name)`: the first value under `name`, if any. */
  function Get(params: Params, name: string): (r: Option<string>)
    ensures r.None? <==> forall i :: 0 <= i < |params| ==> params[i].0 != name
  {
    if |params| == 0 then None
    else if params[0].0 == name then Some(params[0].1)
    else
      var r := Get(params[1..], name);
      assert forall i :: 1 <= i < |params| ==> params[i] == params[1..][i - 1];
      r
  }

  lemma {:induction false} GetConcat(a: Params, b: Params, name: string)
    ensures Get(a + b, name) == if Get(a, name).Some? then Get(a, name) else Get(b, name)
  {
    if |a| > 0 {
      var ab := a + b;
      assert ab[0] == a[0];
      if a[0].0 != name {
        assert ab[1..] == a[1..] + b;
        GetConcat(a[1..], b, name);
        assert Get(ab, name) == Get(ab[1..], name);
        assert Get(a, name) == Get(a[1..], name);
      }
    } else {
      assert a + b == b;
    }
  }

  /** `params.get(name) || fallback`. */
  function ValueOr(value: Option<string>, fallback: string): (r: string)
    ensures value.Some? && value.value != "" ==> r == value.value
    ensures (value.None? || value.value == "") ==> r == fallback
  {
    match value
    case Some(v) => if v != "" then v else fallback
    case None => fallback
  }

  /** `parseInt(params.get(name))`: an absent value parses to NaN. */
  function ParseParam(value: Option<string>): Option<int>
  {
    match value
    case Some(v) => ParseInt(v)
    case None => None
  }

  /** The filters the page starts from: absent or empty values take the
      defaults, and a page that is absent, non-numeric or zero becomes 1. */
  function InitialFilters(params: Params): (f: Filters)
    ensures f.sortBy != "" && f.sortOrder != "" && f.page != 0
    ensures Get(params, "page").None? ==> f.page == 1
    ensures Get(params, "page").Some? && ParseInt(Get(params, "page").value).None? ==> f.page == 1
  {
    Filters(
      ValueOr(Get(params, KeyName(SearchKey)), ""),
      ValueOr(Get(params, KeyName(CategoryKey)), ""),
      ValueOr(Get(params, KeyName(SortByKey)), "created_at"),
      ValueOr(Get(params, KeyName(SortOrderKey)), "desc"),
      Pagination.IntOr(ParseParam(Get(params, KeyName(PageKey))), 1))
  }

  /** A filter as the URL sync sees it: its key, whether it is written,
      and the text written. */
  datatype Field = Field(key: Key, shown: bool, value: string)

  /** `params.append(key, value)` for every field that is written, in order. */
  function Render(fs: seq<Field>): Params
  {
    if |fs| == 0 then []
    else (if fs[0].shown then [(KeyName(fs[0].key), fs[0].value)] else []) + Render(fs[1..])
  }

  /** The first written field with key `k`. */
  function Lookup(fs: seq<Field>, k: Key): Option<string>
  {
    if |fs| == 0 then None
    else if fs[0].key == k && fs[0].shown then Some(fs[0].value)
    else Lookup(fs[1..], k)
  }

  /** Reading a rendered query string by name finds the field with that key. */
  lemma {:induction false} RenderGet(fs: seq<Field>, k: Key)
    ensures Get(Render(fs), KeyName(k)) == Lookup(fs, k)
  {
    if |fs| > 0 {
      var head: Params := if fs[0].shown then [(KeyName(fs[0].key), fs[0].value)] else [];
      GetConcat(head, Render(fs[1..]), KeyName(k));
      KeyNamesDistinct(fs[0].key, k);
      RenderGet(fs[1..], k);
    }
  }

  function Fields(f: Filters, pageShown: bool): seq<Field>
  {
    [Field(SearchKey, f.search != "", f.search),
     Field(CategoryKey, f.category != "", f.category),
     Field(SortByKey, f.sortBy != "", f.sortBy),
     Field(SortOrderKey, f.sortOrder != "", f.sortOrder),
     Field(PageKey, pageShown, IntToString(f.page))]
  }

  lemma {:induction false} LookupAbsent(fs: seq<Field>, k: Key)
    requires forall j :: 0 <= j < |fs| ==> fs[j].key != k
    ensures Lookup(fs, k).None?
  {
    if |fs| > 0 {
      LookupAbsent(fs[1..], k);
    }
  }

  /** A key carried by one field only is looked up in that field. */
  lemma {:induction false} LookupAt(fs: seq<Field>, i: nat, k: Key)
    requires i < |fs| && fs[i].key == k
    requires forall j :: 0 <= j < |fs| && j != i ==> fs[j].key != k
    ensures Lookup(fs, k) == if fs[i].shown then Some(fs[i].value) else None
  {
    if i == 0 {
      if !fs[0].shown {
        LookupAbsent(fs[1..], k);
      }
    } else {
      LookupAt(fs[1..], i - 1, k);
    }
  }

  /** Each key occurs once among the fields, so looking it up finds its own
      field. */
  lemma LookupFields(f: Filters, pageShown: bool)
    ensures Lookup(Fields(f, pageShown), SearchKey) == if f.search != "" then Some(f.search) else None
    ensures Lookup(Fields(f, pageShown), CategoryKey) == if f.category != "" then Some(f.category) else None
    ensures Lookup(Fields(f, pageShown), SortByKey) == if f.sortBy != "" then Some(f.sortBy) else None
    ensures Lookup(Fields(f, pageShown), SortOrderKey) == if f.sortOrder != "" then Some(f.sortOrder) else None
    ensures Lookup(Fields(f, pageShown), PageKey) == if pageShown then Some(IntToString(f.page)) else None
  {
    var fs := Fields(f, pageShown);
    LookupAt(fs, 0, SearchKey);
    LookupAt(fs, 1, CategoryKey);
    LookupAt(fs, 2, SortByKey);
    LookupAt(fs, 3, SortOrderKey);
    LookupAt(fs, 4, PageKey);
  }

  /** The query string the page writes back to the URL: the filters in
      declaration order, leaving out empty values and page 1 (and page 0,
      which is falsy). */
  function UrlParams(f: Filters): Params
  {
    Render(Fields(f, f.page != 0 && f.page != 1))
  }

  /** The query string of the listing request: every truthy filter,
      page 1 included. */
  function ApiParams(f: Filters): Params
  {
    Render(Fields(f, f.page != 0))
  }

  /** What the URL holds for each filter: a value exactly when it is
      non-empty (for the page: neither 1 nor 0). */
  lemma UrlParamsContent(f: Filters)
    ensures Get(UrlParams(f), "search") == if f.search != "" then Some(f.search) else None
    ensures Get(UrlParams(f), "category") == if f.category != "" then Some(f.category) else None
    ensures Get(UrlParams(f), "sortBy") == if f.sortBy != "" then Some(f.sortBy) else None
    ensures Get(UrlParams(f), "sortOrder") == if f.sortOrder != "" then Some(f.sortOrder) else None
    ensures Get(UrlParams(f), "page") == if f.page != 0 && f.page != 1 then Some(IntToString(f.page)) else None
  {
    var fs := Fields(f, f.page != 0 && f.page != 1);
    LookupFields(f, f.page != 0 && f.page != 1);
    RenderGet(fs, SearchKey);
    RenderGet(fs, CategoryKey);
    RenderGet(fs, SortByKey);
    RenderGet(fs, SortOrderKey);
    RenderGet(fs, PageKey);
  }

  /** Reloading the page from the URL it wrote restores the filters, for
      every state the page can be in (sort fields set, page not 0). */
  lemma UrlRoundTrip(f: Filters)
    requires f.sortBy != "" && f.sortOrder != "" && f.page != 0
    ensures InitialFilters(UrlParams(f)) == f
  {
    UrlParamsContent(f);
    IntToStringRoundTrip(f.page);
  }

  // ---------------------------------------------------------------------------
  // Changes

  datatype FilterKey = Search | Category | SortBy | SortOrder

  /** `handleFilterChange`: one filter takes the new value and the page goes
      back to 1. */
  function FilterChange(f: Filters, key: FilterKey, value: string): (r: Filters)
    ensures r.page == 1
    ensures key == Search ==> r == f.(search := value, page := 1)
    ensures key == Category ==> r == f.(category := value, page := 1)
    ensures key == SortBy ==> r == f.(sortBy := value, page := 1)
    ensures key == SortOrder ==> r == f.(sortOrder := value, page := 1)
  {
    match key
    case Search => f.(search := value, page := 1)
    case Category => f.(category := value, page := 1)
    case SortBy => f.(sortBy := value, page := 1)
    case SortOrder => f.(sortOrder := value, page := 1)
  }

  /** `handlePageChange`: only the page moves. */
  function PageChange(f: Filters, page: int): (r: Filters)
    ensures r.page == page
    ensures r.search == f.search && r.category == f.category && r.sortBy == f.sortBy && r.sortOrder == f.sortOrder
  {
    f.(page := page)
  }

  /** After a filter change the URL carries no page, whatever the page was. */
  lemma FilterChangeDropsPageFromUrl(f: Filters, key: FilterKey, value: string)
    ensures Get(UrlParams(FilterChange(f, key, value)), "page").None?
  {
    UrlParamsContent(FilterChange(f, key, value));
  }

  /** The listing request asks the server for the page shown: for a page of
      at least 1, the handler's page is the page's own, with the default
      limit of 12. */
  lemma ApiPageReachesServer(f: Filters, total: nat)
    requires f.page >= 1
    ensures var p := ParseParam(Get(ApiParams(f), "page"));
      && ProductRoutes.ListPage(p, None, total).Ok?
      && ProductRoutes.ListPage(p, None, total).value.page == f.page
      && ProductRoutes.ListPage(p, None, total).value.limit == 12
  {
    var v := Get(ApiParams(f), "page");
    ApiPageParam(f);
    IntToStringRoundTrip(f.page);
    assert ParseParam(v) == Some(f.page);
    ServerReadsPage(f.page, total);
  }

  /** The server's listing accepts any page from 1 up, twelve per page. */
  lemma ServerReadsPage(page: int, total: nat)
    requires page >= 1
    ensures var r := ProductRoutes.ListPage(Some(page), None, total);
      r.Ok? && r.value.page == page && r.value.limit == 12
  {
  }

  /** The listing request carries every non-zero page, page 1 included. */
  lemma ApiPageParam(f: Filters)
    ensures Get(ApiParams(f), "page") == if f.page != 0 then Some(IntToString(f.page)) else None
  {
    LookupFields(f, f.page != 0);
    RenderGet(Fields(f, f.page != 0), PageKey);
  }

  // ---------------------------------------------------------------------------
  // Pagination controls

  /** The controls are drawn only when there is more than one page. */
  predicate ShowsPagination(pages: int)
  {
    pages > 1
  }

  predicate PrevDisabled(f: Filters)
  {
    f.page <= 1
  }

  predicate NextDisabled(f: Filters, pages: int)
  {
    f.page >= pages
  }

  /** `[lo, lo + 1, …, hi]`. */
  function Range(lo: int, hi: int): (r: seq<int>)
    ensures |r| == if lo <= hi then hi - lo + 1 else 0
    ensures forall i :: 0 <= i < |r| ==> r[i] == lo + i
    decreases hi - lo
  {
    if lo > hi then [] else [lo] + Range(lo + 1, hi)
  }

  /** Whether button `p` is drawn: the first, the last, and the pages
      within two of the current one. */
  function InWindow(pages: int, current: int): int -> bool
  {
    (p: int) => p == 1 || p == pages || (if p >= current then p - current else current - p) <= 2
  }

  function Before(a: int, b: int): bool
  {
    a < b
  }

  /** The page buttons: exactly the pages from 1 to `pages` that are the
      first, the last or within two of the current one, in ascending order. */
  function PageWindow(pages: int, current: int): (r: seq<int>)
    ensures forall i, j :: 0 <= i < j < |r| ==> r[i] < r[j]
    ensures forall p :: p in r <==> 1 <= p <= pages && InWindow(pages, current)(p)
  {
    var all := Range(1, pages);
    var keep := InWindow(pages, current);
    FilterKeepsEvery(all, keep);
    FilterPairwise(all, keep, Before);
    var r := Filter(all, keep);
    assert forall i, j :: 0 <= i < j < |r| ==> Before(r[i], r[j]);
    forall p | 1 <= p <= pages && keep(p)
      ensures p in r
    {
      assert all[p - 1] == p;
    }
    r
  }

  /** A click on a control the page lets through. */
  datatype Click = Prev | Next | Button(p: int)

  function Enabled(f: Filters, pages: int, c: Click): bool
  {
    match c
    case Prev => !PrevDisabled(f)
    case Next => !NextDisabled(f, pages)
    case Button(p) => p in PageWindow(pages, f.page)
  }

  function Clicked(f: Filters, c: Click): Filters
  {
    match c
    case Prev => PageChange(f, f.page - 1)
    case Next => PageChange(f, f.page + 1)
    case Button(p) => PageChange(f, p)
  }

  /** Starting from a page in range, every enabled control lands on a page
      in range and keeps the filters. */
  lemma ClicksStayInRange(f: Filters, pages: int, c: Click)
    requires 1 <= f.page <= pages && Enabled(f, pages, c)
    ensures 1 <= Clicked(f, c).page <= pages
    ensures Clicked(f, c) == f.(page := Clicked(f, c).page)
  {
  }
}
