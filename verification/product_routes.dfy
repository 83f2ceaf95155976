/** The product endpoints: the listing's parameter sanitising (sort
    whitelist, filter clause, pagination, rating annotation), the single
    lookup, and the admin-only create and partial update. */
module ProductRoutes {
  import opened Common
  import opened Store
  import opened SqlText
  import opened JsNumbers
  import Pagination
  import AdminRoutes

  // ---------------------------------------------------------------------------
  // Listing parameters

  datatype SortColumn = ByName | ByPrice | ByCreatedAt
  datatype SortOrder = Ascending | Descending

  function ColumnName(c: SortColumn): string
  {
    match c
    case ByName => "name"
    case ByPrice => "price"
    case ByCreatedAt => "created_at"
  }

  function OrderName(o: SortOrder): string
  {
    match o
    case Ascending => "asc"
    case Descending => "desc"
  }

  /** `sortBy || 'created_at'`, then the column whitelist: a requested
      column is used only when it is one of the three, else `created_at`. */
  function SafeSortBy(raw: string): (c: SortColumn)
    ensures ColumnName(c) == raw || (c == ByCreatedAt && forall k: SortColumn :: ColumnName(k) != raw)
  {
    if raw == "name" then ByName
    else if raw == "price" then ByPrice
    else ByCreatedAt
  }

  /** `sortOrder || 'desc'`, then the direction whitelist. */
  function SafeSortOrder(raw: string): (o: SortOrder)
    ensures OrderName(o) == raw || (o == Descending && forall k: SortOrder :: OrderName(k) != raw)
  {
    if raw == "asc" then Ascending else Descending
  }

  /** Every whitelisted choice survives sanitising unchanged, so the
      whitelist loses nothing a client can legitimately ask for. */
  lemma SortRoundTrip(c: SortColumn, o: SortOrder)
    ensures SafeSortBy(ColumnName(c)) == c
    ensures SafeSortOrder(OrderName(o)) == o
  {
  }

  /** The `ORDER BY` text interpolated into the query: built only from the
      whitelist, so it never carries a placeholder or client text. */
  function OrderBy(sortBy: string, sortOrder: string): (r: string)
    ensures exists c: SortColumn, o: SortOrder :: r == "ORDER BY p." + ColumnName(c) + " " + OrderName(o)
  {
    "ORDER BY p." + ColumnName(SafeSortBy(sortBy)) + " " + OrderName(SafeSortOrder(sortOrder))
  }

  /** A value bound to a placeholder: text, or what `parseInt` made of the
      category (possibly NaN). */
  datatype SqlValue = Text(text: string) | Number(n: int) | NaN

  datatype ProductQuery = ProductQuery(where: string, params: seq<SqlValue>)

  const ActiveCondition: string := "WHERE p.is_active = TRUE"
  const NameOrDescription: string := (" AND (p.name LIKE " + "?") + (" OR p.description LIKE " + "?") + ")"
  const CategoryCondition: string := " AND p.category_id = " + "?"

  function CategoryValue(category: string): SqlValue
  {
    match ParseInt(category)
    case Some(n) => Number(n)
    case None => NaN
  }

  /** The listing's `WHERE` clause: always the active restriction, then a
      two-parameter name/description search and a one-parameter category
      filter, each only when its query value is non-empty. */
  function ListFilter(search: string, category: string): (q: ProductQuery)
    ensures StartsWith(q.where, ActiveCondition)
    ensures |q.params| == (if search != "" then 2 else 0) + (if category != "" then 1 else 0)
    ensures search != "" ==> q.params[0] == Text("%" + search + "%") && q.params[1] == Text("%" + search + "%")
    ensures category != "" ==> q.params[|q.params| - 1] == CategoryValue(category)
  {
    Conditions(ActiveCondition, NameOrDescription, CategoryCondition, search, category)
  }

  /** The clause assembled from its three fragments. */
  function Conditions(active: string, nameOrDescription: string, categoryCondition: string, search: string, category: string): (q: ProductQuery)
    ensures StartsWith(q.where, active)
    ensures |q.params| == (if search != "" then 2 else 0) + (if category != "" then 1 else 0)
    ensures search != "" ==> q.params[0] == Text("%" + search + "%") && q.params[1] == Text("%" + search + "%")
    ensures category != "" ==> q.params[|q.params| - 1] == CategoryValue(category)
  {
    var q1 := if search != "" then
        var term := Text("%" + search + "%");
        ProductQuery(active + nameOrDescription, [term, term])
      else ProductQuery(active, []);
    if category != "" then ProductQuery(q1.where + categoryCondition, q1.params + [CategoryValue(category)])
    else q1
  }

  /** Fragments with zero, two and one placeholders give a clause with one
      placeholder per parameter. */
  lemma ConditionsPlaceholders(active: string, nameOrDescription: string, categoryCondition: string, search: string, category: string)
    requires Placeholders(active) == 0 && Placeholders(nameOrDescription) == 2 && Placeholders(categoryCondition) == 1
    ensures var q := Conditions(active, nameOrDescription, categoryCondition, search, category);
      Placeholders(q.where) == |q.params|
  {
    ThreeParts(active, nameOrDescription, categoryCondition);
  }

  lemma ActiveCount()
    ensures Placeholders(ActiveCondition) == 0
  {
    assert forall i :: 0 <= i < |ActiveCondition| ==> ActiveCondition[i] != '?';
    PlaceholdersNone(ActiveCondition);
  }

  /** The name and description tests carry one placeholder each. */
  lemma LikeCounts()
    ensures Placeholders(" AND (p.name LIKE " + "?") == 1
    ensures Placeholders(" OR p.description LIKE " + "?") == 1
  {
    OneMark(" AND (p.name LIKE ");
    OneMark(" OR p.description LIKE ");
  }

  lemma NameOrDescriptionCount()
    ensures Placeholders(NameOrDescription) == 2
  {
    LikeCounts();
    assert Placeholders(")") == 0;
    ThreeParts(" AND (p.name LIKE " + "?", " OR p.description LIKE " + "?", ")");
  }

  lemma CategoryCount()
    ensures Placeholders(CategoryCondition) == 1
  {
    OneMark(" AND p.category_id = ");
  }

  /** The clause's placeholders and the parameter list always agree, for
      every combination of search and category. */
  lemma ListFilterPlaceholders(search: string, category: string)
    ensures Placeholders(ListFilter(search, category).where) == |ListFilter(search, category).params|
  {
    ActiveCount();
    NameOrDescriptionCount();
    CategoryCount();
    ConditionsPlaceholders(ActiveCondition, NameOrDescription, CategoryCondition, search, category);
  }

  /** The listing's pagination: page 1 and twelve per page by default. */
  function ListPage(rawPage: Option<int>, rawLimit: Option<int>, total: nat): (r: Result<Pagination.PageInfo>)
    ensures rawPage.None? && rawLimit.None? ==> r.Ok? && r.value.page == 1 && r.value.limit == 12 && r.value.offset == 0
    ensures r.Ok? ==> r.value.offset == (r.value.page - 1) * r.value.limit
    ensures r.Ok? ==> r.value.total <= r.value.pages * r.value.limit
  {
    Pagination.Paginate(rawPage, rawLimit, 12, total)
  }

  // ---------------------------------------------------------------------------
  // Rating annotation

  /** The average and count one product carries in a listing reply. */
  datatype Rating = Rating(average: real, count: nat)

  const Unrated: Rating := Rating(0.0, 0)

  function ReviewsOf(reviews: seq<Review>, product: Id): seq<Review>
  {
    Filter(reviews, (r: Review) => r.product == product)
  }

  function ReviewRating(r: Review): int
  {
    r.rating
  }

  /** The rating group of one reviewed product. */
  function GroupOf(reviews: seq<Review>, id: Id): (g: Rating)
    requires |ReviewsOf(reviews, id)| > 0
    ensures g.count == |ReviewsOf(reviews, id)|
    ensures g.average * (g.count as real) == SumOf(ReviewsOf(reviews, id), ReviewRating) as real
  {
    var n := |ReviewsOf(reviews, id)|;
    Rating(SumOf(ReviewsOf(reviews, id), ReviewRating) as real / n as real, n)
  }

  /** The grouped `AVG(rating)`, `COUNT(*)` query over the listed ids:
      a product appears only if it has at least one review. */
  function RatingGroups(reviews: seq<Review>, ids: seq<Id>): (g: map<Id, Rating>)
    ensures forall id :: id in g <==> id in ids && |ReviewsOf(reviews, id)| > 0
    ensures forall id :: id in g ==> g[id] == GroupOf(reviews, id)
  {
    map id | id in ids && |ReviewsOf(reviews, id)| > 0 :: GroupOf(reviews, id)
  }

  /** `ratingsMap[id]?.avg_rating || 0` and the same for the count. */
  function RatingShown(groups: map<Id, Rating>, id: Id): (r: Rating)
    ensures id !in groups ==> r == Unrated
  {
    if id in groups then groups[id] else Unrated
  }

  /** Each listed product shows the count and mean of its own reviews
      (the mean as `GroupOf` states it); a product nobody reviewed shows 0
      and 0. */
  lemma RatingsMatchReviews(reviews: seq<Review>, ids: seq<Id>, id: Id)
    requires id in ids
    ensures RatingShown(RatingGroups(reviews, ids), id).count == |ReviewsOf(reviews, id)|
    ensures |ReviewsOf(reviews, id)| == 0 ==> RatingShown(RatingGroups(reviews, ids), id) == Unrated
    ensures |ReviewsOf(reviews, id)| > 0 ==> RatingShown(RatingGroups(reviews, ids), id) == GroupOf(reviews, id)
  {
  }

  // ---------------------------------------------------------------------------
  // Single lookup

  datatype ProductView = ProductView(id: Id, product: Product, rating: Rating)

  /** `GET /:id`: only an active product is found; its rating fields are
      always reported as zero. */
  function Get(db: Db, id: Id): (r: Result<ProductView>)
    ensures r.Ok? <==> id in db.products && db.products[id].active
    ensures r.Err? ==> r.error == NotFound("Product not found")
    ensures r.Ok? ==> r.value.id == id && r.value.product == db.products[id] && r.value.rating == Unrated
  {
    if id !in db.products || !db.products[id].active then Err(NotFound("Product not found"))
    else Ok(ProductView(id, db.products[id], Unrated))
  }

  // ---------------------------------------------------------------------------
  // Create

  /** The body of `POST /`. A number field that is absent or not numeric is
      `None`; prices are in the smallest currency unit. */
  datatype NewProduct = NewProduct(
    name: string,
    price: Option<int>,
    stock: Option<int>,
    category: Option<int>,
    description: Option<string>,
    imageUrl: Option<string>)

  /** The validator chain: a non-blank name, a price and a stock of at least
      0, a category id of at least 1. */
  predicate ValidNew(req: NewProduct)
  {
    && Trim(req.name) != ""
    && req.price.Some? && req.price.value >= 0
    && req.stock.Some? && req.stock.value >= 0
    && req.category.Some? && req.category.value >= 1
  }

  /** An optional text field after `.trim()` and `|| null`. */
  function NullIfBlank(s: Option<string>): (r: Option<string>)
    ensures r.Some? ==> s.Some? && r.value == Trim(s.value) && r.value != ""
    ensures r.None? ==> s.None? || Trim(s.value) == ""
  {
    match s
    case None => None
    case Some(t) => if Trim(t) == "" then None else Some(Trim(t))
  }

  function NewRow(req: NewProduct): Product
    requires ValidNew(req)
  {
    Product(Trim(req.name), NullIfBlank(req.description), req.price.value, req.stock.value,
      req.category.value, NullIfBlank(req.imageUrl), true)
  }

  /** `POST /`: validation (400), then the admin check (403), then the
      category must exist (400); a created product is active and takes the
      next id. */
  function Create(db: Db, admin: Id, req: NewProduct): (s: Step<Id>)
    ensures s.result.Err? ==> s.db == db
    ensures !ValidNew(req) ==> s.result == Err(Invalid)
    ensures ValidNew(req) && AdminRoutes.AdminAuth(db, admin).Err? ==> s.result == Err(Forbidden("Admin access required"))
    ensures ValidNew(req) && AdminRoutes.AdminAuth(db, admin).Ok? && req.category.value !in db.categories
      ==> s.result == Err(BadRequest("Invalid category"))
    ensures s.result.Ok? <==> ValidNew(req) && AdminRoutes.AdminAuth(db, admin).Ok? && req.category.value in db.categories
    ensures s.result.Ok? ==> s.result.value == db.nextProductId && db.nextProductId in s.db.products
    ensures s.result.Ok? ==>
      s.db == db.(products := db.products[db.nextProductId := s.db.products[db.nextProductId]], nextProductId := db.nextProductId + 1)
    ensures s.result.Ok? ==> var p := s.db.products[s.result.value];
      && p.active && p.name == Trim(req.name) && p.name != ""
      && p.price == req.price.value && p.stock == req.stock.value && p.categoryId == req.category.value
      && p.description == NullIfBlank(req.description) && p.imageUrl == NullIfBlank(req.imageUrl)
  {
    if !ValidNew(req) then Step(Err(Invalid), db)
    else if AdminRoutes.AdminAuth(db, admin).Err? then Step(Err(Forbidden("Admin access required")), db)
    else if req.category.value !in db.categories then Step(Err(BadRequest("Invalid category")), db)
    else
      Step(Ok(db.nextProductId),
        db.(products := db.products[db.nextProductId := NewRow(req)], nextProductId := db.nextProductId + 1))
  }

  ghost predicate ProductIdsBelowCounter(db: Db)
  {
    forall k :: k in db.products ==> k < db.nextProductId
  }

  /** A created product is found by the single lookup, and creating one
      never overwrites an existing product while ids stay below the
      counter. */
  lemma CreateThenGet(db: Db, admin: Id, req: NewProduct)
    requires ProductIdsBelowCounter(db)
    ensures var s := Create(db, admin, req);
      s.result.Ok? ==>
        && Get(s.db, s.result.value).Ok?
        && Get(s.db, s.result.value).value.product == s.db.products[s.result.value]
        && ProductIdsBelowCounter(s.db)
        && (forall k :: k in db.products ==> k in s.db.products && s.db.products[k] == db.products[k])
  {
  }

  // ---------------------------------------------------------------------------
  // Partial update

  /** A body field of `PUT /:id`: left out of the body, or supplied. */
  datatype Field<+T> = Absent | Given(value: T)

  datatype ProductPatch = ProductPatch(
    name: Field<string>,
    description: Field<string>,
    price: Field<Option<int>>,
    stock: Field<Option<int>>,
    category: Field<Option<int>>,
    imageUrl: Field<string>)

  /** The optional validators: each supplied field must pass the same test
      as on create. */
  predicate ValidPatch(u: ProductPatch)
  {
    && (u.name.Given? ==> Trim(u.name.value) != "")
    && (u.price.Given? ==> u.price.value.Some? && u.price.value.value >= 0)
    && (u.stock.Given? ==> u.stock.value.Some? && u.stock.value.value >= 0)
    && (u.category.Given? ==> u.category.value.Some? && u.category.value.value >= 1)
  }

  /** The columns the partial update may set. */
  datatype Column = NameColumn | DescriptionColumn | PriceColumn | StockColumn | CategoryColumn | ImageColumn

  function ColumnText(c: Column): string
  {
    match c
    case NameColumn => "name"
    case DescriptionColumn => "description"
    case PriceColumn => "price"
    case StockColumn => "stock_quantity"
    case CategoryColumn => "category_id"
    case ImageColumn => "image_url"
  }

  predicate Supplied(u: ProductPatch, c: Column)
  {
    match c
    case NameColumn => u.name.Given?
    case DescriptionColumn => u.description.Given?
    case PriceColumn => u.price.Given?
    case StockColumn => u.stock.Given?
    case CategoryColumn => u.category.Given?
    case ImageColumn => u.imageUrl.Given?
  }

  /** The `SET` columns, in the handler's order: one per supplied field. */
  function Columns(u: ProductPatch): (cols: seq<Column>)
    ensures forall c :: c in cols <==> Supplied(u, c)
  {
    Opt(u.name.Given?, NameColumn)
    + Opt(u.description.Given?, DescriptionColumn)
    + Opt(u.price.Given?, PriceColumn)
    + Opt(u.stock.Given?, StockColumn)
    + Opt(u.category.Given?, CategoryColumn)
    + Opt(u.imageUrl.Given?, ImageColumn)
  }

  /** The column `c` when its field is given, else nothing. */
  function Opt(given: bool, c: Column): (r: seq<Column>)
    ensures forall x :: x in r <==> given && x == c
  {
    if given then [c] else []
  }

  /** The column list is empty exactly when the body supplies nothing. */
  lemma ColumnsEmpty(u: ProductPatch)
    ensures |Columns(u)| == 0 <==> u == ProductPatch(Absent, Absent, Absent, Absent, Absent, Absent)
  {
    if |Columns(u)| == 0 {
      assert !Supplied(u, NameColumn) && !Supplied(u, DescriptionColumn) && !Supplied(u, PriceColumn);
      assert !Supplied(u, StockColumn) && !Supplied(u, CategoryColumn) && !Supplied(u, ImageColumn);
    }
  }

  /** The product after the `UPDATE`: a supplied field is written (blank
      description or image becomes null), an absent one is kept. */
  function Patched(p: Product, u: ProductPatch): (r: Product)
    requires ValidPatch(u)
    ensures r.active == p.active
    ensures u.name.Absent? ==> r.name == p.name
    ensures u.description.Absent? ==> r.description == p.description
    ensures u.price.Absent? ==> r.price == p.price
    ensures u.stock.Absent? ==> r.stock == p.stock
    ensures u.category.Absent? ==> r.categoryId == p.categoryId
    ensures u.imageUrl.Absent? ==> r.imageUrl == p.imageUrl
  {
    Product(
      if u.name.Given? then Trim(u.name.value) else p.name,
      if u.description.Given? then NullIfBlank(Some(u.description.value)) else p.description,
      if u.price.Given? then u.price.value.value else p.price,
      if u.stock.Given? then u.stock.value.value else p.stock,
      if u.category.Given? then u.category.value.value else p.categoryId,
      if u.imageUrl.Given? then NullIfBlank(Some(u.imageUrl.value)) else p.imageUrl,
      p.active)
  }

  /** `PUT /:id`: validation (400), admin check (403), the product must
      exist, active or not (404), a supplied category must exist (400), and
      at least one field must be supplied (400). */
  function Update(db: Db, admin: Id, id: Id, u: ProductPatch): (s: Step<string>)
    ensures s.result.Err? ==> s.db == db
    ensures !ValidPatch(u) ==> s.result == Err(Invalid)
    ensures ValidPatch(u) && AdminRoutes.AdminAuth(db, admin).Err? ==> s.result == Err(Forbidden("Admin access required"))
    ensures ValidPatch(u) && AdminRoutes.AdminAuth(db, admin).Ok? && id !in db.products
      ==> s.result == Err(NotFound("Product not found"))
    ensures ValidPatch(u) && AdminRoutes.AdminAuth(db, admin).Ok? && id in db.products
      && u.category.Given? && u.category.value.value !in db.categories
      ==> s.result == Err(BadRequest("Invalid category"))
    ensures s.result == Err(BadRequest("No fields to update")) <==>
      ValidPatch(u) && AdminRoutes.AdminAuth(db, admin).Ok? && id in db.products && |Columns(u)| == 0
    ensures s.result.Ok? <==>
      && ValidPatch(u) && AdminRoutes.AdminAuth(db, admin).Ok? && id in db.products
      && (u.category.Given? ==> u.category.value.value in db.categories)
      && |Columns(u)| > 0
    ensures s.result.Ok? ==> s.db == db.(products := db.products[id := Patched(db.products[id], u)])
  {
    if !ValidPatch(u) then Step(Err(Invalid), db)
    else if AdminRoutes.AdminAuth(db, admin).Err? then Step(Err(Forbidden("Admin access required")), db)
    else if id !in db.products then Step(Err(NotFound("Product not found")), db)
    else if u.category.Given? && u.category.value.value !in db.categories then Step(Err(BadRequest("Invalid category")), db)
    else if |Columns(u)| == 0 then Step(Err(BadRequest("No fields to update")), db)
    else Step(Ok("Product updated successfully"), db.(products := db.products[id := Patched(db.products[id], u)]))
  }

  /** Only listed columns change, the active flag never does, and repeating
      the same update changes nothing further. */
  lemma UpdateChangesOnlyListedColumns(db: Db, admin: Id, id: Id, u: ProductPatch)
    ensures var s := Update(db, admin, id, u);
      s.result.Ok? ==>
        && s.db.products.Keys == db.products.Keys
        && (forall k :: k in db.products && k != id ==> s.db.products[k] == db.products[k])
        && s.db.products[id].active == db.products[id].active
        && (NameColumn !in Columns(u) ==> s.db.products[id].name == db.products[id].name)
        && (PriceColumn !in Columns(u) ==> s.db.products[id].price == db.products[id].price)
        && (StockColumn !in Columns(u) ==> s.db.products[id].stock == db.products[id].stock)
        && (CategoryColumn !in Columns(u) ==> s.db.products[id].categoryId == db.products[id].categoryId)
        && (DescriptionColumn !in Columns(u) ==> s.db.products[id].description == db.products[id].description)
        && (ImageColumn !in Columns(u) ==> s.db.products[id].imageUrl == db.products[id].imageUrl)
    ensures var s := Update(db, admin, id, u);
      s.result.Ok? ==> Update(s.db, admin, id, u).db == s.db
  {
    var s := Update(db, admin, id, u);
    if s.result.Ok? {
      var p := Patched(db.products[id], u);
      assert s.db == db.(products := db.products[id := p]);
      PatchedAgain(db.products[id], u);
      assert s.db.products[id := Patched(s.db.products[id], u)] == s.db.products;
    }
  }

  /** Applying the same patch twice changes nothing the second time. */
  lemma PatchedAgain(p: Product, u: ProductPatch)
    requires ValidPatch(u)
    ensures Patched(Patched(p, u), u) == Patched(p, u)
  {
  }
}
