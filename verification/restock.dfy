/** The admin restock dialog: the quantity typed is added to the stock the
    dialog shows, and the sum is sent as the product's new absolute stock
    through the product update endpoint. */
module Restock {
  import opened Common
  import opened Store
  import opened JsNumbers
  import ProductRoutes
  import AdminRoutes

  datatype Submitted = Rejected(message: string) | Send(newStock: int)

  /** `handleSubmit`: the typed quantity must parse to a positive integer,
      else nothing is sent; otherwise the new stock is the shown stock plus
      the quantity. */
  function Submit(shownStock: int, typed: string): (r: Submitted)
    ensures r.Rejected? <==> ParseInt(typed).None? || ParseInt(typed).value <= 0
    ensures r.Rejected? ==> r.message == "Please enter a valid quantity"
    ensures r.Send? ==> r.newStock == shownStock + ParseInt(typed).value && r.newStock > shownStock
  {
    match ParseInt(typed)
    case None => Rejected("Please enter a valid quantity")
    case Some(added) => if added <= 0 then Rejected("Please enter a valid quantity") else Send(shownStock + added)
  }

  /** The body of `PUT /api/products/:id`: only the stock column. */
  function RestockPatch(newStock: int): (u: ProductRoutes.ProductPatch)
    ensures u.stock == ProductRoutes.Given(Some(newStock))
    ensures u.name.Absent? && u.description.Absent? && u.price.Absent? && u.category.Absent? && u.imageUrl.Absent?
  {
    ProductRoutes.ProductPatch(ProductRoutes.Absent, ProductRoutes.Absent, ProductRoutes.Absent,
      ProductRoutes.Given(Some(newStock)), ProductRoutes.Absent, ProductRoutes.Absent)
  }

  /** The "New Stock" preview, drawn while the field is non-empty: the shown
      stock plus what `parseInt` makes of the field (NaN, here `None`, when
      it is not a number). */
  function Preview(shownStock: int, typed: string): (r: Option<Option<int>>)
    ensures r.None? <==> typed == ""
    ensures r.Some? && ParseInt(typed).Some? ==> r.value == Some(shownStock + ParseInt(typed).value)
    ensures r.Some? && ParseInt(typed).None? ==> r.value.None?
  {
    if typed == "" then None
    else match ParseInt(typed)
      case Some(added) => Some(Some(shownStock + added))
      case None => Some(None)
  }

  /** What is sent is what the preview promised. */
  lemma SentMatchesPreview(shownStock: int, typed: string)
    requires Submit(shownStock, typed).Send?
    ensures Preview(shownStock, typed) == Some(Some(Submit(shownStock, typed).newStock))
  {
  }

  /** An accepted restock, sent by an admin for an existing product, sets
      the stock to exactly the shown stock plus the quantity and changes
      nothing else. The stock is absolute: when the stock on the server
      moved since the dialog read it, that movement is overwritten. */
  lemma RestockSetsAbsoluteStock(db: Db, admin: Id, id: Id, shownStock: int, typed: string)
    requires Submit(shownStock, typed).Send? && shownStock >= 0
    requires id in db.products
    requires AdminRoutes.AdminAuth(db, admin).Ok?
    ensures var s := ProductRoutes.Update(db, admin, id, RestockPatch(Submit(shownStock, typed).newStock));
      && s.result.Ok?
      && s.db.products[id] == db.products[id].(stock := shownStock + ParseInt(typed).value)
      && (forall k :: k in db.products && k != id ==> s.db.products[k] == db.products[k])
  {
    var u := RestockPatch(Submit(shownStock, typed).newStock);
    assert ProductRoutes.StockColumn in ProductRoutes.Columns(u);
    ProductRoutes.UpdateChangesOnlyListedColumns(db, admin, id, u);
  }
}
