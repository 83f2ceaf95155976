/** The admin endpoints that change data or build queries: the admin check,
    the order status update, product delete-or-deactivate and the active
    toggle, and the filter and pagination of the order list. Every one of
    them first runs the admin check. */
module AdminRoutes {
  import opened Common
  import opened Store
  import opened SqlText
  import Pagination

  /** `includes` as an explicit search for an occurrence. */
  predicate OccursAt(s: string, sub: string, i: int)
  {
    0 <= i && i + |sub| <= |s| && s[i..i + |sub|] == sub
  }

  /** `Contains` holds exactly when `sub` occurs at some position of `s`. */
  lemma {:induction false} ContainsOccurs(s: string, sub: string)
    ensures Contains(s, sub) <==> exists i :: OccursAt(s, sub, i)
    decreases |s|
  {
    if StartsWith(s, sub) {
      assert OccursAt(s, sub, 0);
    } else if |s| > 0 {
      ContainsOccurs(s[1..], sub);
      if exists i :: OccursAt(s, sub, i) {
        var i :| OccursAt(s, sub, i);
        if i > 0 {
          assert s[1..][i - 1..i - 1 + |sub|] == s[i..i + |sub|];
          assert OccursAt(s[1..], sub, i - 1);
        }
      }
      if exists i :: OccursAt(s[1..], sub, i) {
        var i :| OccursAt(s[1..], sub, i);
        assert s[1..][i..i + |sub|] == s[i + 1..i + 1 + |sub|];
        assert OccursAt(s, sub, i + 1);
      }
    }
  }

  /** `adminAuth`: the caller must exist and have an email containing
      "admin". */
  function AdminAuth(db: Db, user: Id): (r: Result<User>)
    ensures r.Ok? <==> user in db.users && Contains(db.users[user].email, "admin")
    ensures r.Ok? ==> r.value == db.users[user]
    ensures r.Err? ==> r.error == Forbidden("Admin access required")
  {
    if user !in db.users || !Contains(db.users[user].email, "admin") then Err(Forbidden("Admin access required"))
    else Ok(db.users[user])
  }

  /** Admin access is granted exactly to stored users with "admin"
      somewhere in their email. */
  lemma AdminAuthIffAdminEmail(db: Db, user: Id)
    ensures AdminAuth(db, user).Ok? <==> user in db.users && exists i :: OccursAt(db.users[user].email, "admin", i)
  {
    if user in db.users {
      ContainsOccurs(db.users[user].email, "admin");
    }
  }

  /** `PUT /orders/:id/status`. The status must be one of the five names
      (400); the tracking number is overwritten only by a non-empty value;
      an id that matches no order is a 404. Nothing constrains the previous
      status. */
  function UpdateOrderStatus(db: Db, admin: Id, orderId: Id, status: string, trackingNumber: Option<string>): (s: Step<string>)
    ensures s.result.Err? ==> s.db == db
    ensures AdminAuth(db, admin).Err? ==> s.result == Err(Forbidden("Admin access required"))
    ensures AdminAuth(db, admin).Ok? && ParseStatus(status).None? ==> s.result == Err(Invalid)
    ensures AdminAuth(db, admin).Ok? && ParseStatus(status).Some? && orderId !in db.orders ==> s.result == Err(NotFound("Order not found"))
    ensures s.result.Ok? <==> AdminAuth(db, admin).Ok? && ParseStatus(status).Some? && orderId in db.orders
    ensures s.result.Ok? ==> s.db == db.(orders := s.db.orders)
    ensures s.result.Ok? ==> s.db.orders.Keys == db.orders.Keys
    ensures s.result.Ok? ==> forall k :: k in db.orders && k != orderId ==> s.db.orders[k] == db.orders[k]
    ensures s.result.Ok? ==> StatusName(s.db.orders[orderId].status) == status
    ensures s.result.Ok? && (trackingNumber.None? || trackingNumber == Some("")) ==> s.db.orders[orderId] == db.orders[orderId].(status := s.db.orders[orderId].status)
    ensures s.result.Ok? && trackingNumber.Some? && trackingNumber.value != "" ==> s.db.orders[orderId].trackingNumber == trackingNumber.value
  {
    if AdminAuth(db, admin).Err? then Step(Err(Forbidden("Admin access required")), db)
    else match ParseStatus(status)
      case None => Step(Err(Invalid), db)
      case Some(st) =>
        if orderId !in db.orders then Step(Err(NotFound("Order not found")), db)
        else
          var o := db.orders[orderId];
          var tracking := if trackingNumber.Some? && trackingNumber.value != "" then trackingNumber.value else o.trackingNumber;
          Step(Ok("Order status updated successfully"), db.(orders := db.orders[orderId := o.(status := st, trackingNumber := tracking)]))
  }

  /** There is no transition relation: every status can be set from every
      status, and setting the same status twice is setting it once. */
  lemma AnyStatusFromAny(db: Db, admin: Id, orderId: Id, target: OrderStatus)
    requires AdminAuth(db, admin).Ok? && orderId in db.orders
    ensures var s := UpdateOrderStatus(db, admin, orderId, StatusName(target), None);
      s.result.Ok? && s.db.orders[orderId].status == target
    ensures var s := UpdateOrderStatus(db, admin, orderId, StatusName(target), None);
      UpdateOrderStatus(s.db, admin, orderId, StatusName(target), None).db == s.db
  {
    StatusNameRoundTrip(target);
  }

  predicate HasOrderHistory(items: seq<OrderItem>, productId: Id)
  {
    exists i :: 0 <= i < |items| && items[i].product == productId
  }

  /** `DELETE /products/:id`. A product that any order item references is
      only deactivated (and that answer is sent even if the row is gone);
      otherwise the row is deleted, and a missing row is a 404. */
  function DeleteProduct(db: Db, admin: Id, productId: Id): (s: Step<string>)
    ensures s.result.Err? ==> s.db == db
    ensures AdminAuth(db, admin).Err? ==> s.result == Err(Forbidden("Admin access required"))
    ensures s.result.Ok? ==> s.db == db.(products := s.db.products)
    ensures s.result.Ok? && HasOrderHistory(db.items, productId)
      ==> s.result.value == "Product deactivated (has order history)" && s.db.products.Keys == db.products.Keys
    ensures s.result.Ok? && HasOrderHistory(db.items, productId) && productId in db.products
      ==> s.db.products[productId] == db.products[productId].(active := false)
    ensures AdminAuth(db, admin).Ok? && !HasOrderHistory(db.items, productId)
      ==> (s.result.Ok? <==> productId in db.products)
    ensures s.result.Err? && AdminAuth(db, admin).Ok? ==> s.result == Err(NotFound("Product not found"))
    ensures s.result.Ok? && !HasOrderHistory(db.items, productId) ==> s.db.products == db.products - {productId}
    ensures s.result.Ok? ==> forall p :: p in db.products && p != productId ==> p in s.db.products && s.db.products[p] == db.products[p]
  {
    if AdminAuth(db, admin).Err? then Step(Err(Forbidden("Admin access required")), db)
    else if HasOrderHistory(db.items, productId) then
      var products := if productId in db.products then db.products[productId := db.products[productId].(active := false)] else db.products;
      Step(Ok("Product deactivated (has order history)"), db.(products := products))
    else if productId !in db.products then Step(Err(NotFound("Product not found")), db)
    else Step(Ok("Product deleted successfully"), db.(products := db.products - {productId}))
  }

  /** Every order item names a stored product. */
  ghost predicate ItemsReferenceProducts(db: Db)
  {
    forall i :: 0 <= i < |db.items| ==> db.items[i].product in db.products
  }

  /** Delete-or-deactivate never leaves an order item pointing at a
      missing product. */
  lemma DeleteKeepsOrderHistory(db: Db, admin: Id, productId: Id)
    requires ItemsReferenceProducts(db)
    ensures ItemsReferenceProducts(DeleteProduct(db, admin, productId).db)
  {
    var s := DeleteProduct(db, admin, productId);
    if s.result.Ok? && !HasOrderHistory(db.items, productId) {
      forall i | 0 <= i < |db.items|
        ensures db.items[i].product in s.db.products
      {
        assert db.items[i].product != productId;
      }
    }
  }

  /** `PUT /products/:id/toggle`: `is_active = NOT is_active`. */
  function Toggle(db: Db, admin: Id, productId: Id): (s: Step<string>)
    ensures s.result.Err? ==> s.db == db
    ensures s.result.Ok? <==> AdminAuth(db, admin).Ok? && productId in db.products
    ensures AdminAuth(db, admin).Ok? && productId !in db.products ==> s.result == Err(NotFound("Product not found"))
    ensures s.result.Ok? ==> s.db == db.(products := s.db.products) && s.db.products.Keys == db.products.Keys
    ensures s.result.Ok? ==> s.db.products[productId].active == !db.products[productId].active
    ensures s.result.Ok? ==> s.db.products[productId] == db.products[productId].(active := s.db.products[productId].active)
    ensures s.result.Ok? ==> forall p :: p in db.products && p != productId ==> s.db.products[p] == db.products[p]
  {
    if AdminAuth(db, admin).Err? then Step(Err(Forbidden("Admin access required")), db)
    else if productId !in db.products then Step(Err(NotFound("Product not found")), db)
    else
      var p := db.products[productId];
      Step(Ok("Product status updated successfully"), db.(products := db.products[productId := p.(active := !p.active)]))
  }

  /** Toggling twice restores the database. */
  lemma ToggleTwice(db: Db, admin: Id, productId: Id)
    ensures Toggle(Toggle(db, admin, productId).db, admin, productId).db == db
  {
    var s := Toggle(db, admin, productId);
    if s.result.Ok? {
      var t := Toggle(s.db, admin, productId);
      assert t.db.products == db.products;
    }
  }

  // ---------------------------------------------------------------------------
  // The order list query

  const StatusClause: string := " WHERE o.status = " + "?"
  const SearchOrderNumber: string := " (o.order_number LIKE " + "?"
  const SearchEmail: string := " OR u.email LIKE " + "?"
  const SearchFirstName: string := " OR u.first_name LIKE " + "?"
  const SearchLastName: string := " OR u.last_name LIKE " + "?" + ")"
  /** The search condition: one `LIKE ?` per searched column. */
  const SearchCondition: string := SearchOrderNumber + SearchEmail + SearchFirstName + SearchLastName

  datatype Query = Query(where: string, params: seq<string>)

  /** The `WHERE` clause and parameters of `GET /orders`: a status adds one
      placeholder, a search four (the same `%search%` pattern), joined by
      `AND` when both are present. An empty query value is absent. */
  function OrderFilter(status: string, search: string): (q: Query)
    ensures |q.params| == (if status != "" then 1 else 0) + (if search != "" then 4 else 0)
    ensures status != "" ==> q.params[0] == status
    ensures search != "" ==> q.params[|q.params| - 1] == "%" + search + "%"
    ensures q.where == "" <==> status == "" && search == ""
  {
    Conditions(StatusClause, SearchCondition, status, search)
  }

  /** The clause assembled from its two fragments; the status clause must
      be non-empty for an empty clause to mean that no filter is given. */
  function Conditions(statusClause: string, searchCondition: string, status: string, search: string): (q: Query)
    requires statusClause != ""
    ensures |q.params| == (if status != "" then 1 else 0) + (if search != "" then 4 else 0)
    ensures status != "" ==> q.params[0] == status
    ensures search != "" ==> q.params[|q.params| - 1] == "%" + search + "%"
    ensures q.where == "" <==> status == "" && search == ""
  {
    var q1 := if status != "" then Query(statusClause, [status]) else Query("", []);
    if search == "" then q1
    else
      var term := "%" + search + "%";
      Query(q1.where + (if q1.where != "" then " AND" else " WHERE") + searchCondition, q1.params + [term, term, term, term])
  }

  /** Fragments with one and four placeholders give a clause with one
      placeholder per parameter. */
  lemma ConditionsPlaceholders(statusClause: string, searchCondition: string, status: string, search: string)
    requires statusClause != ""
    requires Placeholders(statusClause) == 1 && Placeholders(searchCondition) == 4
    ensures var q := Conditions(statusClause, searchCondition, status, search);
      Placeholders(q.where) == |q.params|
  {
    assert Placeholders(" AND") == 0 && Placeholders(" WHERE") == 0;
    var q1 := if status != "" then Query(statusClause, [status]) else Query("", []);
    if search != "" {
      var joiner := if q1.where != "" then " AND" else " WHERE";
      PlaceholdersConcat(q1.where, joiner);
      PlaceholdersConcat(q1.where + joiner, searchCondition);
    }
  }

  lemma StatusClauseCount()
    ensures Placeholders(StatusClause) == 1
  {
    OneMark(" WHERE o.status = ");
  }

  lemma OrderNumberCount()
    ensures Placeholders(SearchOrderNumber) == 1
  {
    OneMark(" (o.order_number LIKE ");
  }

  lemma EmailCount()
    ensures Placeholders(SearchEmail) == 1
  {
    OneMark(" OR u.email LIKE ");
  }

  lemma FirstNameCount()
    ensures Placeholders(SearchFirstName) == 1
  {
    OneMark(" OR u.first_name LIKE ");
  }

  lemma LastNameCount()
    ensures Placeholders(SearchLastName) == 1
  {
    OneMark(" OR u.last_name LIKE ");
    PlaceholdersNone(")");
    PlaceholdersConcat(" OR u.last_name LIKE " + "?", ")");
  }

  lemma SearchCount()
    ensures Placeholders(SearchCondition) == 4
  {
    OrderNumberCount();
    EmailCount();
    FirstNameCount();
    LastNameCount();
    FourFragments(SearchOrderNumber, SearchEmail, SearchFirstName, SearchLastName);
  }

  /** The clause and its parameter list always agree: as many `?` as
      parameters, whichever filters are present. */
  lemma OrderFilterPlaceholders(status: string, search: string)
    ensures Placeholders(OrderFilter(status, search).where) == |OrderFilter(status, search).params|
  {
    StatusClauseCount();
    SearchCount();
    ConditionsPlaceholders(StatusClause, SearchCondition, status, search);
  }

  /** `GET /orders` pagination: page 1 and twenty per page by default. */
  function OrderListPage(rawPage: Option<int>, rawLimit: Option<int>, total: nat): (r: Result<Pagination.PageInfo>)
    ensures rawPage.None? && rawLimit.None? ==> r.Ok? && r.value.page == 1 && r.value.limit == 20 && r.value.offset == 0
    ensures r.Ok? ==> r.value.offset == (r.value.page - 1) * r.value.limit && r.value.total <= r.value.pages * r.value.limit
  {
    Pagination.Paginate(rawPage, rawLimit, 20, total)
  }
}
