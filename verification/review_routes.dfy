/** The review endpoints: listing a product's reviews, and creating,
    editing and deleting one's own review. A review may only be written by a
    user who bought the product, and only once per product. */
module ReviewRoutes {
  import opened Common
  import opened Store
  import Pagination
  import OrderRoutes
  import CartRoutes

  /** The body of `POST /` and `PUT /:id` after express-validator has run.
      `None` is a field the client left out. */
  datatype ReviewBody = ReviewBody(
    rating: int,
    title: Option<string>,
    comment: Option<string>,
    images: Option<seq<string>>)

  /** `rating` is an integer in 1..5; `title`, once trimmed, is at most 255
      long as `isLength` measures it. */
  predicate ValidBody(b: ReviewBody)
  {
    1 <= b.rating <= 5 && (b.title.None? || IsLengthCount(Trim(b.title.value)) <= 255)
  }

  /** `isLength` does not count variation selectors, so a title may hold
      more than 255 characters: 255 letters and an emoji-presentation
      selector pass the `max: 255` check. */
  lemma SelectorsNotCountedInTitle(letters: string, rating: int)
    requires |letters| == 255 && forall i :: 0 <= i < |letters| ==> 'a' <= letters[i] <= 'z'
    requires 1 <= rating <= 5
    ensures var title := letters + ['\U{FE0F}'];
      |Trim(title)| == 256 && ValidBody(ReviewBody(rating, Some(title), None, None))
  {
    var title := letters + ['\U{FE0F}'];
    assert title[0] == letters[0] && title[|title| - 1] == '\U{FE0F}';
    assert TrimStart(title) == title;
    assert TrimEnd(title) == title;
    IsLengthAppend(letters, '\U{FE0F}');
  }

  /** `value || null` for a trimmed optional text field: an empty string is
      stored as NULL. */
  function Stored(field: Option<string>): (r: Option<string>)
    ensures r.Some? <==> field.Some? && Trim(field.value) != ""
    ensures r.Some? ==> r.value == Trim(field.value)
  {
    match field
    case None => None
    case Some(t) => if Trim(t) == "" then None else Some(Trim(t))
  }

  /** Order statuses that count as a purchase: delivered, processing or
      shipped. A pending or cancelled order does not. */
  predicate Qualifies(st: OrderStatus)
  {
    st == Delivered || st == Processing || st == Shipped
  }

  predicate PurchaseRow(db: Db, user: Id, product: Id, it: OrderItem)
  {
    it.product == product && it.orderId in db.orders
    && db.orders[it.orderId].user == user && Qualifies(db.orders[it.orderId].status)
  }

  /** The `order_items ⋈ orders` purchase query is non-empty. */
  predicate Purchased(db: Db, user: Id, product: Id)
  {
    exists i :: 0 <= i < |db.items| && PurchaseRow(db, user, product, db.items[i])
  }

  predicate HasReviewed(reviews: seq<Review>, user: Id, product: Id)
  {
    exists i :: 0 <= i < |reviews| && reviews[i].user == user && reviews[i].product == product
  }

  /** `POST /`. The checks run in this order: body validation (400),
      product exists and is active (404), no earlier review by this user
      (400), a qualifying purchase (403). */
  function Create(db: Db, user: Id, productId: int, body: ReviewBody): (s: Step<string>)
    ensures s.result.Err? ==> s.db == db
    ensures productId < 1 || !ValidBody(body) ==> s.result == Err(Invalid)
    ensures productId >= 1 && ValidBody(body) && !CartRoutes.ProductAvailable(db, productId)
      ==> s.result == Err(NotFound("Product not found"))
    ensures productId >= 1 && ValidBody(body) && CartRoutes.ProductAvailable(db, productId) && HasReviewed(db.reviews, user, productId)
      ==> s.result == Err(BadRequest("You have already reviewed this product"))
    ensures productId >= 1 && ValidBody(body) && CartRoutes.ProductAvailable(db, productId) && !HasReviewed(db.reviews, user, productId)
      ==> (s.result.Ok? <==> Purchased(db, user, productId))
    ensures s.result.Err? && s.result.error.Forbidden? ==> s.result.error.message == "You can only review products you have purchased"
    ensures s.result.Ok? ==> productId >= 1 && ValidBody(body) && CartRoutes.ProductAvailable(db, productId)
    ensures s.result.Ok? ==> !HasReviewed(db.reviews, user, productId) && Purchased(db, user, productId)
    ensures s.result.Ok? ==> s.db == db.(reviews := s.db.reviews, nextReviewId := db.nextReviewId + 1)
    ensures s.result.Ok? ==> s.db.reviews == db.reviews + [Review(db.nextReviewId, productId, user, body.rating, Stored(body.title), Stored(body.comment), body.images, true)]
  {
    if productId < 1 || !ValidBody(body) then Step(Err(Invalid), db)
    else if !CartRoutes.ProductAvailable(db, productId) then Step(Err(NotFound("Product not found")), db)
    else if HasReviewed(db.reviews, user, productId) then Step(Err(BadRequest("You have already reviewed this product")), db)
    else if !Purchased(db, user, productId) then Step(Err(Forbidden("You can only review products you have purchased")), db)
    else
      var review := Review(db.nextReviewId, productId, user, body.rating, Stored(body.title), Stored(body.comment), body.images, true);
      Step(Ok("Review added successfully"), db.(reviews := db.reviews + [review], nextReviewId := db.nextReviewId + 1))
  }

  /** The first review with this id owned by `user`. */
  function OwnedReview(reviews: seq<Review>, user: Id, reviewId: Id): (r: Option<nat>)
    ensures r.Some? ==> r.value < |reviews| && reviews[r.value].id == reviewId && reviews[r.value].user == user
    ensures r.None? ==> forall i :: 0 <= i < |reviews| ==> !(reviews[i].id == reviewId && reviews[i].user == user)
  {
    if |reviews| == 0 then None
    else if reviews[0].id == reviewId && reviews[0].user == user then Some(0)
    else match OwnedReview(reviews[1..], user, reviewId)
      case Some(k) => Some(k + 1)
      case None => None
  }

  function Edited(r: Review, reviewId: Id, body: ReviewBody): Review
  {
    if r.id == reviewId then r.(rating := body.rating, title := Stored(body.title), comment := Stored(body.comment), images := body.images)
    else r
  }

  /** `PUT /:id`. The ownership query filters on the caller; the `UPDATE`
      itself matches the id alone. */
  function Update(db: Db, user: Id, reviewId: Id, body: ReviewBody): (s: Step<string>)
    ensures s.result.Err? ==> s.db == db
    ensures !ValidBody(body) ==> s.result == Err(Invalid)
    ensures s.result.Ok? <==> ValidBody(body) && OwnedReview(db.reviews, user, reviewId).Some?
    ensures ValidBody(body) && s.result.Err? ==> s.result == Err(NotFound("Review not found"))
    ensures s.result.Ok? ==> s.db == db.(reviews := s.db.reviews)
    ensures |s.db.reviews| == |db.reviews|
    ensures forall i :: 0 <= i < |db.reviews| ==>
      s.db.reviews[i] == (if s.result.Ok? then Edited(db.reviews[i], reviewId, body) else db.reviews[i])
  {
    if !ValidBody(body) then Step(Err(Invalid), db)
    else if OwnedReview(db.reviews, user, reviewId).None? then Step(Err(NotFound("Review not found")), db)
    else Step(Ok("Review updated successfully"), db.(reviews := MapSeq(db.reviews, (r: Review) => Edited(r, reviewId, body))))
  }

  predicate NotTheOwnedReview(user: Id, reviewId: Id, r: Review)
  {
    !(r.id == reviewId && r.user == user)
  }

  /** `DELETE /:id`: one statement that deletes the caller's review with
      this id; no affected row is a 404. */
  function Delete(db: Db, user: Id, reviewId: Id): (s: Step<string>)
    ensures s.result.Err? <==> OwnedReview(db.reviews, user, reviewId).None?
    ensures s.result.Err? ==> s.db == db && s.result == Err(NotFound("Review not found"))
    ensures s.result.Ok? ==> s.db == db.(reviews := s.db.reviews)
    ensures forall i :: 0 <= i < |s.db.reviews| ==> s.db.reviews[i] in db.reviews && NotTheOwnedReview(user, reviewId, s.db.reviews[i])
    ensures forall i :: 0 <= i < |db.reviews| && NotTheOwnedReview(user, reviewId, db.reviews[i]) ==> db.reviews[i] in s.db.reviews
  {
    if OwnedReview(db.reviews, user, reviewId).None? then Step(Err(NotFound("Review not found")), db)
    else
      var keep := (r: Review) => NotTheOwnedReview(user, reviewId, r);
      FilterKeepsEvery(db.reviews, keep);
      Step(Ok("Review deleted successfully"), db.(reviews := Filter(db.reviews, keep)))
  }

  function ReviewId(r: Review): Id
  {
    r.id
  }

  function ReviewPair(r: Review): (Id, Id)
  {
    (r.user, r.product)
  }

  /** The review table's keys: ids below the counter, ids unique, and at
      most one review per (user, product). */
  ghost predicate ReviewsWellFormed(db: Db)
  {
    && (forall i :: 0 <= i < |db.reviews| ==> db.reviews[i].id < db.nextReviewId)
    && UniqueBy(db.reviews, ReviewId)
    && UniqueBy(db.reviews, ReviewPair)
  }

  /** Creating keeps one review per (user, product) and unique ids. */
  lemma CreatePreservesWellFormed(db: Db, user: Id, productId: int, body: ReviewBody)
    requires ReviewsWellFormed(db)
    ensures ReviewsWellFormed(Create(db, user, productId, body).db)
  {
    var c := Create(db, user, productId, body);
    if c.result.Ok? {
      var r := Review(db.nextReviewId, productId, user, body.rating, Stored(body.title), Stored(body.comment), body.images, true);
      assert c.db.reviews == db.reviews + [r] && c.db.nextReviewId == db.nextReviewId + 1;
      AppendFreshReview(db, c.db, r);
    }
  }

  /** Appending a review under the next id, for a (user, product) pair not
      yet reviewed, keeps the table well-formed. */
  lemma AppendFreshReview(db: Db, after: Db, r: Review)
    requires ReviewsWellFormed(db)
    requires after.reviews == db.reviews + [r] && after.nextReviewId == db.nextReviewId + 1
    requires r.id == db.nextReviewId && !HasReviewed(db.reviews, r.user, r.product)
    ensures ReviewsWellFormed(after)
  {
    forall i | 0 <= i < |db.reviews|
      ensures ReviewPair(db.reviews[i]) != ReviewPair(r)
    {
      assert !(db.reviews[i].user == r.user && db.reviews[i].product == r.product);
    }
    UniqueByAppend(db.reviews, r, ReviewPair);
    UniqueByAppend(db.reviews, r, ReviewId);
  }

  /** Editing and deleting keep one review per (user, product) and unique
      ids: an edit never touches the id, user or product. */
  lemma UpdateDeletePreserveWellFormed(db: Db, user: Id, reviewId: Id, body: ReviewBody)
    requires ReviewsWellFormed(db)
    ensures ReviewsWellFormed(Update(db, user, reviewId, body).db)
    ensures ReviewsWellFormed(Delete(db, user, reviewId).db)
  {
    var u := Update(db, user, reviewId, body);
    if u.result.Ok? {
      var f := (r: Review) => Edited(r, reviewId, body);
      assert u.db.reviews == MapSeq(db.reviews, f);
      UniqueByMapSeq(db.reviews, f, ReviewPair);
      UniqueByMapSeq(db.reviews, f, ReviewId);
    }
    var d := Delete(db, user, reviewId);
    if d.result.Ok? {
      var p := (r: Review) => NotTheOwnedReview(user, reviewId, r);
      assert d.db.reviews == Filter(db.reviews, p);
      UniqueByFilter(db.reviews, ReviewPair, p);
      UniqueByFilter(db.reviews, ReviewId, p);
    }
  }

  /** A second review of the same product by the same user is refused, and
      refused as a duplicate: the first create is what blocks it. */
  lemma CreateOnlyOnce(db: Db, user: Id, productId: int, first: ReviewBody, second: ReviewBody)
    requires Create(db, user, productId, first).result.Ok?
    requires ValidBody(second)
    ensures var after := Create(db, user, productId, first).db;
      Create(after, user, productId, second) == Step(Err(BadRequest("You have already reviewed this product")), after)
  {
    var after := Create(db, user, productId, first).db;
    assert after.reviews[|db.reviews|].user == user && after.reviews[|db.reviews|].product == productId;
    assert HasReviewed(after.reviews, user, productId);
  }

  /** A successful checkout is a qualifying purchase of every product it
      ordered: the order is stored as 'processing'. */
  lemma CommitEnablesReview(db: Db, user: Id, req: OrderRoutes.CreateOrderRequest, orderNumber: string, trackingNumber: string, i: nat)
    requires OrderIdsBelowCounter(db)
    requires OrderRoutes.Commit(db, user, req, orderNumber, trackingNumber, false).result.Ok?
    requires i < |CartRoutes.ActiveLines(db, user)|
    ensures Purchased(OrderRoutes.Commit(db, user, req, orderNumber, trackingNumber, false).db, user, CartRoutes.ActiveLines(db, user)[i].product)
  {
    var s := OrderRoutes.Commit(db, user, req, orderNumber, trackingNumber, false);
    var lines := CartRoutes.ActiveLines(db, user);
    OrderRoutes.CommitSuccess(db, user, req, orderNumber, trackingNumber, false);
    var k := |db.items| + i;
    assert s.db.items[k].orderId == db.nextOrderId;
    assert PurchaseRow(s.db, user, lines[i].product, s.db.items[k]);
  }

  /** An order that is only pending or cancelled does not qualify. */
  lemma UnpaidOrdersDoNotQualify(db: Db, user: Id, productId: int, body: ReviewBody)
    requires productId >= 1 && ValidBody(body) && CartRoutes.ProductAvailable(db, productId)
    requires !HasReviewed(db.reviews, user, productId)
    requires forall k :: k in db.orders && db.orders[k].user == user ==> db.orders[k].status in {Pending, Cancelled}
    ensures Create(db, user, productId, body).result == Err(Forbidden("You can only review products you have purchased"))
  {
  }

  /** `${first_name} ${last_name.charAt(0)}.`: the first name, a space, the
      last name's initial (nothing when the last name is empty) and a dot. */
  function DisplayName(firstName: string, lastName: string): (r: string)
    ensures |r| >= |firstName| + 2
    ensures r[..|firstName|] == firstName
    ensures r[|firstName|] == ' ' && r[|r| - 1] == '.'
    ensures |lastName| > 0 ==> |r| == |firstName| + 3 && r[|firstName| + 1] == lastName[0]
    ensures |lastName| == 0 ==> |r| == |firstName| + 2
  {
    firstName + " " + (if |lastName| > 0 then [lastName[0]] else "") + "."
  }

  function OfProduct(productId: int): Review -> bool
  {
    (rv: Review) => rv.product == productId
  }

  /** The product's reviews, newest first: `ORDER BY created_at DESC`, with
      rows inserted in creation order. */
  function NewestFirst(db: Db, productId: int): (rs: seq<Review>)
    ensures |rs| == |Filter(db.reviews, OfProduct(productId))|
    ensures forall k :: 0 <= k < |rs| ==> rs[k] in db.reviews && rs[k].product == productId
  {
    Reverse(Filter(db.reviews, OfProduct(productId)))
  }

  /** One page of `GET /product/:productId`: the product's reviews, newest
      first, ten to a page by default. The reply is a 500 exactly when the
      page or limit would make the `LIMIT … OFFSET …` text invalid. */
  function ProductReviews(db: Db, productId: int, rawPage: Option<int>, rawLimit: Option<int>): (r: Result<(seq<Review>, Pagination.PageInfo)>)
    ensures r.Err? ==> r.error == ServerError
    ensures r.Ok? <==> Pagination.IntOr(rawPage, 1) >= 1 && Pagination.IntOr(rawLimit, 10) >= 1
    ensures r.Ok? ==> r.value.1.page == Pagination.IntOr(rawPage, 1) && r.value.1.limit == Pagination.IntOr(rawLimit, 10)
    ensures r.Ok? ==> r.value.1.offset == (r.value.1.page - 1) * r.value.1.limit >= 0
    ensures r.Ok? ==> r.value.0 == Pagination.PageRows(NewestFirst(db, productId), r.value.1.offset, r.value.1.limit)
    ensures r.Ok? ==> forall k :: 0 <= k < |r.value.0| ==> r.value.0[k] in db.reviews && r.value.0[k].product == productId
    ensures r.Ok? ==> |r.value.0| <= r.value.1.limit
    ensures r.Ok? ==> r.value.1.total == |Filter(db.reviews, OfProduct(productId))|
  {
    var all := NewestFirst(db, productId);
    match Pagination.Paginate(rawPage, rawLimit, 10, |all|)
    case Err(e) => Err(e)
    case Ok(info) =>
      var page := Pagination.PageRows(all, info.offset, info.limit);
      assert forall k :: 0 <= k < |page| ==> page[k] in all;
      Ok((page, info))
  }

  /** Paging through the reviews reaches every one of them: the `i`-th
      newest review of the product is on page `i / limit + 1`, one of the
      pages the reply announces. */
  lemma ReviewOnItsPage(db: Db, productId: int, limit: nat, i: nat)
    requires limit >= 1 && i < |NewestFirst(db, productId)|
    ensures var r := ProductReviews(db, productId, Some(i / limit + 1), Some(limit));
      && r.Ok? && r.value.1.page <= r.value.1.pages
      && NewestFirst(db, productId)[i] in r.value.0
  {
    Pagination.RowOnItsPage(NewestFirst(db, productId), limit, i);
  }
}
