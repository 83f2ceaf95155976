/** The cart endpoints (`GET /`, `POST /add`, `PUT /update/:id`,
    `DELETE /remove/:id`, `DELETE /clear`) as functions from the database
    and a request to a reply and the database afterwards. */
module CartRoutes {
  import opened Common
  import opened Store

  /** A row the cart view and the order commit see: it belongs to `user` and
      joins an active product. */
  predicate IsActiveLine(db: Db, user: Id, r: CartRow)
  {
    r.user == user && r.product in db.products && db.products[r.product].active
  }

  /** The user's active lines, in cart (insertion) order. */
  function ActiveLines(db: Db, user: Id): (lines: seq<CartRow>)
    ensures forall i :: 0 <= i < |lines| ==> lines[i] in db.cart && IsActiveLine(db, user, lines[i])
    ensures forall i :: 0 <= i < |db.cart| && IsActiveLine(db, user, db.cart[i]) ==> db.cart[i] in lines
  {
    FilterKeepsEvery(db.cart, ActiveLineOf(db, user));
    Filter(db.cart, ActiveLineOf(db, user))
  }

  function ActiveLineOf(db: Db, user: Id): CartRow -> bool
  {
    (r: CartRow) => IsActiveLine(db, user, r)
  }

  /** When the cart holds one row per (user, product), the active lines name
      each product at most once. */
  lemma ActiveLinesUnique(db: Db, user: Id)
    requires UniqueBy(db.cart, RowPair)
    ensures UniqueBy(ActiveLines(db, user), RowPair)
  {
    UniqueByFilter(db.cart, RowPair, ActiveLineOf(db, user));
  }

  /** `quantity * price` of one line, at the product's current price. */
  function LineTotal(db: Db, r: CartRow): int
  {
    if r.product in db.products then r.quantity * db.products[r.product].price else 0
  }

  /** Σ quantity × price over `lines`. */
  function LinesTotal(db: Db, lines: seq<CartRow>): int
  {
    SumOf(lines, (r: CartRow) => LineTotal(db, r))
  }

  /** The total quantity of `product` in `user`'s cart rows. */
  function Qty(cart: seq<CartRow>, user: Id, product: Id): int
  {
    if |cart| == 0 then 0
    else
      var own := if cart[0].user == user && cart[0].product == product then cart[0].quantity else 0;
      own + Qty(cart[1..], user, product)
  }

  lemma {:induction false} QtyAppend(cart: seq<CartRow>, r: CartRow, user: Id, product: Id)
    ensures Qty(cart + [r], user, product)
      == Qty(cart, user, product) + (if r.user == user && r.product == product then r.quantity else 0)
  {
    if |cart| > 0 {
      assert (cart + [r])[1..] == cart[1..] + [r];
      QtyAppend(cart[1..], r, user, product);
    }
  }

  lemma {:induction false} QtyUpdate(cart: seq<CartRow>, i: nat, r: CartRow, user: Id, product: Id)
    requires i < |cart|
    ensures Qty(cart[i := r], user, product)
      == Qty(cart, user, product)
         - (if cart[i].user == user && cart[i].product == product then cart[i].quantity else 0)
         + (if r.user == user && r.product == product then r.quantity else 0)
  {
    if i == 0 {
      assert cart[i := r][1..] == cart[1..];
    } else {
      assert cart[i := r][1..] == cart[1..][i - 1 := r];
      QtyUpdate(cart[1..], i - 1, r, user, product);
    }
  }

  /** With at most one row per (user, product), the total quantity is that
      row's quantity. */
  lemma {:induction false} QtyOfUniqueRow(cart: seq<CartRow>, i: nat)
    requires i < |cart|
    requires UniqueBy(cart, RowPair)
    ensures Qty(cart, cart[i].user, cart[i].product) == cart[i].quantity
  {
    var key := RowPair;
    if i == 0 {
      QtyAbsent(cart[1..], cart[0].user, cart[0].product);
    } else {
      assert key(cart[i]) != key(cart[0]);
      QtyOfUniqueRow(cart[1..], i - 1);
    }
  }

  lemma {:induction false} QtyAbsent(cart: seq<CartRow>, user: Id, product: Id)
    requires forall j :: 0 <= j < |cart| ==> (cart[j].user, cart[j].product) != (user, product)
    ensures Qty(cart, user, product) == 0
  {
    if |cart| > 0 {
      QtyAbsent(cart[1..], user, product);
    }
  }

  // ---------------------------------------------------------------------------
  // GET /

  datatype CartView = CartView(items: seq<CartRow>, total: int, count: nat)

  /** The cart view lists the active lines newest first; its count is the
      number of active lines and its total is Σ quantity × price over them. */
  function View(db: Db, user: Id): (v: CartView)
    ensures v.count == |ActiveLines(db, user)| == |v.items|
    ensures forall i :: 0 <= i < |v.items| ==> v.items[i] == ActiveLines(db, user)[|v.items| - 1 - i]
    ensures v.total == LinesTotal(db, ActiveLines(db, user))
  {
    var lines := ActiveLines(db, user);
    var items := Reverse(lines);
    SumReverse(lines, (r: CartRow) => LineTotal(db, r));
    CartView(items, SumOf(items, (r: CartRow) => LineTotal(db, r)), |items|)
  }

  // ---------------------------------------------------------------------------
  // POST /add

  /** The index of `user`'s first row for `product`. */
  function FindRow(cart: seq<CartRow>, user: Id, product: Id): (r: Option<nat>)
    ensures r.Some? ==> r.value < |cart| && cart[r.value].user == user && cart[r.value].product == product
    ensures r.None? ==> forall j :: 0 <= j < |cart| ==> (cart[j].user, cart[j].product) != (user, product)
  {
    if |cart| == 0 then None
    else if cart[0].user == user && cart[0].product == product then Some(0)
    else match FindRow(cart[1..], user, product)
      case Some(j) => Some(j + 1)
      case None => None
  }

  predicate ProductAvailable(db: Db, productId: int)
  {
    productId >= 1 && productId in db.products && db.products[productId].active
  }

  /** Add `quantity` of a product to the user's cart, merging into an
      existing row. Errors leave the database as it was. */
  function Add(db: Db, user: Id, productId: int, quantity: int): (s: Step<string>)
    ensures s.result.Err? ==> s.db == db
    ensures productId < 1 || quantity < 1 ==> s.result == Err(Invalid)
    ensures productId >= 1 && quantity >= 1 && !ProductAvailable(db, productId)
      ==> s.result == Err(NotFound("Product not found"))
    ensures ProductAvailable(db, productId) && quantity >= 1 && quantity > db.products[productId].stock
      ==> s.result == Err(BadRequest("Insufficient stock"))
    ensures s.result.Ok? ==> ProductAvailable(db, productId) && quantity >= 1
  {
    if productId < 1 || quantity < 1 then Step(Err(Invalid), db)
    else if !ProductAvailable(db, productId) then Step(Err(NotFound("Product not found")), db)
    else
      var product := db.products[productId];
      if quantity > product.stock then Step(Err(BadRequest("Insufficient stock")), db)
      else match FindRow(db.cart, user, productId)
        case Some(i) =>
          var newQuantity := db.cart[i].quantity + quantity;
          if newQuantity > product.stock then Step(Err(BadRequest("Insufficient stock")), db)
          else Step(Ok("Item added to cart"), db.(cart := db.cart[i := db.cart[i].(quantity := newQuantity)]))
        case None =>
          Step(Ok("Item added to cart"),
               db.(cart := db.cart + [CartRow(db.nextCartId, user, productId, quantity)],
                   nextCartId := db.nextCartId + 1))
  }

  /** On a well-formed cart, an add succeeds exactly when the product is
      available, the quantity is positive and the merged quantity stays
      within the stock. A successful add raises the user's quantity of the
      product by exactly `quantity`, changes no other (user, product)
      quantity, and never creates a second row for the pair; an add that
      would pass the stock is refused. */
  lemma AddMerges(db: Db, user: Id, productId: int, quantity: int)
    requires CartWellFormed(db)
    ensures var s := Add(db, user, productId, quantity);
      && CartWellFormed(s.db)
      && (s.result.Ok? <==>
            (ProductAvailable(db, productId) && quantity >= 1
             && Qty(db.cart, user, productId) + quantity <= db.products[productId].stock))
      && (s.result.Ok? ==>
            && Qty(s.db.cart, user, productId) == Qty(db.cart, user, productId) + quantity
            && Qty(s.db.cart, user, productId) <= db.products[productId].stock
            && |db.cart| <= |s.db.cart| <= |db.cart| + 1)
      && (forall u: Id, p: Id {:trigger Qty(s.db.cart, u, p)} :: (u, p) != (user, productId)
            ==> Qty(s.db.cart, u, p) == Qty(db.cart, u, p))
      && (ProductAvailable(db, productId) && quantity >= 1
          && Qty(db.cart, user, productId) + quantity > db.products[productId].stock
          ==> s.result == Err(BadRequest("Insufficient stock")))
  {
    if ProductAvailable(db, productId) && quantity >= 1 {
      match FindRow(db.cart, user, productId)
      case Some(i) => AddToRow(db, user, productId, quantity, i);
      case None => AddNewRow(db, user, productId, quantity);
    } else {
      assert Add(db, user, productId, quantity).db == db;
    }
  }

  /** What `AddMerges` promises of one add. */
  ghost predicate AddOutcome(db: Db, user: Id, productId: int, quantity: int, s: Step<string>)
    requires productId in db.products
  {
    && CartWellFormed(s.db)
    && (s.result.Ok? ==>
          && Qty(s.db.cart, user, productId) == Qty(db.cart, user, productId) + quantity
          && Qty(s.db.cart, user, productId) <= db.products[productId].stock
          && |db.cart| <= |s.db.cart| <= |db.cart| + 1)
    && (forall u: Id, p: Id {:trigger Qty(s.db.cart, u, p)} :: (u, p) != (user, productId)
          ==> Qty(s.db.cart, u, p) == Qty(db.cart, u, p))
    && (Qty(db.cart, user, productId) + quantity > db.products[productId].stock
        ==> s.result == Err(BadRequest("Insufficient stock")))
    && (Qty(db.cart, user, productId) + quantity <= db.products[productId].stock ==> s.result.Ok?)
  }

  /** The add when the user already has a row for the product. */
  lemma AddToRow(db: Db, user: Id, productId: int, quantity: int, i: nat)
    requires CartWellFormed(db) && ProductAvailable(db, productId) && quantity >= 1
    requires FindRow(db.cart, user, productId) == Some(i)
    ensures AddOutcome(db, user, productId, quantity, Add(db, user, productId, quantity))
  {
    var s := Add(db, user, productId, quantity);
    QtyOfUniqueRow(db.cart, i);
    if s.result.Ok? {
      var row := db.cart[i].(quantity := db.cart[i].quantity + quantity);
      assert s.db == db.(cart := db.cart[i := row]);
      MergeInto(db.cart, i, quantity, db.nextCartId);
      assert s.db.cart == db.cart[i := row];
    } else {
      assert s.db == db;
    }
  }

  /** The add when the user has no row for the product yet. */
  lemma AddNewRow(db: Db, user: Id, productId: int, quantity: int)
    requires CartWellFormed(db) && ProductAvailable(db, productId) && quantity >= 1
    requires FindRow(db.cart, user, productId).None?
    ensures AddOutcome(db, user, productId, quantity, Add(db, user, productId, quantity))
  {
    var s := Add(db, user, productId, quantity);
    QtyAbsent(db.cart, user, productId);
    if s.result.Ok? {
      var row := CartRow(db.nextCartId, user, productId, quantity);
      assert s.db == db.(cart := db.cart + [row], nextCartId := db.nextCartId + 1);
      AppendNew(db.cart, row);
    } else {
      assert s.db == db;
    }
  }

  /** Adding to the quantity of row `i` keeps the cart's keys and moves only
      that row's (user, product) total. */
  lemma MergeInto(cart: seq<CartRow>, i: nat, quantity: int, next: Id)
    requires i < |cart| && UniqueBy(cart, RowId) && UniqueBy(cart, RowPair)
    requires forall j :: 0 <= j < |cart| ==> cart[j].id < next
    requires quantity >= 1 && forall j :: 0 <= j < |cart| ==> cart[j].quantity >= 1
    ensures var c := cart[i := cart[i].(quantity := cart[i].quantity + quantity)];
      && (forall j :: 0 <= j < |c| ==> c[j].id < next && c[j].quantity >= 1)
      && UniqueBy(c, RowId) && UniqueBy(c, RowPair)
      && forall u: Id, p: Id {:trigger Qty(c, u, p)} ::
           Qty(c, u, p) == Qty(cart, u, p) + (if (u, p) == (cart[i].user, cart[i].product) then quantity else 0)
  {
    var row := cart[i].(quantity := cart[i].quantity + quantity);
    UniqueByUpdate(cart, i, row, RowId);
    UniqueByUpdate(cart, i, row, RowPair);
    forall u: Id, p: Id
      ensures Qty(cart[i := row], u, p) == Qty(cart, u, p) + (if (u, p) == (cart[i].user, cart[i].product) then quantity else 0)
    {
      QtyUpdate(cart, i, row, u, p);
    }
  }

  /** Appending a row for a (user, product) the cart does not hold, under
      the next id, keeps the cart's keys and adds only to that pair. */
  lemma AppendNew(cart: seq<CartRow>, row: CartRow)
    requires UniqueBy(cart, RowId) && UniqueBy(cart, RowPair)
    requires forall j :: 0 <= j < |cart| ==> cart[j].id < row.id
    requires forall j :: 0 <= j < |cart| ==> (cart[j].user, cart[j].product) != (row.user, row.product)
    requires row.quantity >= 1 && forall j :: 0 <= j < |cart| ==> cart[j].quantity >= 1
    ensures var c := cart + [row];
      && (forall j :: 0 <= j < |c| ==> c[j].id < row.id + 1 && c[j].quantity >= 1)
      && UniqueBy(c, RowId) && UniqueBy(c, RowPair)
      && forall u: Id, p: Id {:trigger Qty(c, u, p)} ::
           Qty(c, u, p) == Qty(cart, u, p) + (if (u, p) == (row.user, row.product) then row.quantity else 0)
  {
    UniqueByAppend(cart, row, RowId);
    UniqueByAppend(cart, row, RowPair);
    forall u: Id, p: Id
      ensures Qty(cart + [row], u, p) == Qty(cart, u, p) + (if (u, p) == (row.user, row.product) then row.quantity else 0)
    {
      QtyAppend(cart, row, u, p);
    }
  }

  // ---------------------------------------------------------------------------
  // PUT /update/:id

  /** The first row `PUT /update/:id` finds: its id and owner match and its
      product still exists (the join does not ask for an active product). */
  function OwnedRow(cart: seq<CartRow>, products: map<Id, Product>, user: Id, rowId: Id): (r: Option<CartRow>)
    ensures r.Some? ==> r.value in cart && r.value.id == rowId && r.value.user == user && r.value.product in products
    ensures r.None? ==> forall i :: 0 <= i < |cart| ==>
      !(cart[i].id == rowId && cart[i].user == user && cart[i].product in products)
  {
    if |cart| == 0 then None
    else if cart[0].id == rowId && cart[0].user == user && cart[0].product in products then Some(cart[0])
    else OwnedRow(cart[1..], products, user, rowId)
  }

  /** `UPDATE cart_items SET quantity = ? WHERE id = ?` */
  function SetQuantity(cart: seq<CartRow>, rowId: Id, quantity: int): seq<CartRow>
  {
    MapSeq(cart, (r: CartRow) => if r.id == rowId then r.(quantity := quantity) else r)
  }

  /** Set the quantity of one of the user's rows. */
  function Update(db: Db, user: Id, rowId: Id, quantity: int): (s: Step<string>)
    ensures s.result.Err? ==> s.db == db
    ensures quantity < 1 ==> s.result == Err(Invalid)
    ensures quantity >= 1 && OwnedRow(db.cart, db.products, user, rowId).None?
      ==> s.result == Err(NotFound("Cart item not found"))
    ensures s.result.Ok? <==>
      && quantity >= 1
      && OwnedRow(db.cart, db.products, user, rowId).Some?
      && quantity <= db.products[OwnedRow(db.cart, db.products, user, rowId).value.product].stock
    ensures s.result.Ok? ==> |s.db.cart| == |db.cart| && forall i :: 0 <= i < |db.cart| ==>
      s.db.cart[i] == (if db.cart[i].id == rowId then db.cart[i].(quantity := quantity) else db.cart[i])
    ensures s.result.Ok? ==> s.db == db.(cart := s.db.cart)
  {
    if quantity < 1 then Step(Err(Invalid), db)
    else match OwnedRow(db.cart, db.products, user, rowId)
      case None => Step(Err(NotFound("Cart item not found")), db)
      case Some(row) =>
        if quantity > db.products[row.product].stock then Step(Err(BadRequest("Insufficient stock")), db)
        else Step(Ok("Cart updated"), db.(cart := SetQuantity(db.cart, rowId, quantity)))
  }

  lemma {:induction false} OwnedRowAfterSet(cart: seq<CartRow>, products: map<Id, Product>, user: Id, rowId: Id, quantity: int)
    ensures var before := OwnedRow(cart, products, user, rowId);
      var after := OwnedRow(SetQuantity(cart, rowId, quantity), products, user, rowId);
      after == (if before.Some? then Some(before.value.(quantity := quantity)) else None)
  {
    if |cart| > 0 {
      assert SetQuantity(cart, rowId, quantity)[1..] == SetQuantity(cart[1..], rowId, quantity);
      OwnedRowAfterSet(cart[1..], products, user, rowId, quantity);
    }
  }

  lemma {:induction false} SetQuantityTwice(cart: seq<CartRow>, rowId: Id, quantity: int)
    ensures SetQuantity(SetQuantity(cart, rowId, quantity), rowId, quantity) == SetQuantity(cart, rowId, quantity)
  {
  }

  /** Update sets rather than increments, so repeating it changes nothing. */
  lemma UpdateIdempotent(db: Db, user: Id, rowId: Id, quantity: int)
    ensures var s := Update(db, user, rowId, quantity);
      Update(s.db, user, rowId, quantity) == s
  {
    var s := Update(db, user, rowId, quantity);
    if s.result.Ok? {
      OwnedRowAfterSet(db.cart, db.products, user, rowId, quantity);
      SetQuantityTwice(db.cart, rowId, quantity);
    }
  }

  // ---------------------------------------------------------------------------
  // DELETE /remove/:id and DELETE /clear

  predicate HasRow(cart: seq<CartRow>, user: Id, rowId: Id)
  {
    exists i :: 0 <= i < |cart| && cart[i].id == rowId && cart[i].user == user
  }

  /** Delete the user's row with this id. */
  function Remove(db: Db, user: Id, rowId: Id): (s: Step<string>)
    ensures s.result.Err? <==> !HasRow(db.cart, user, rowId)
    ensures s.result.Err? ==> s.db == db && s.result == Err(NotFound("Cart item not found"))
    ensures s.result.Ok? ==> s.db == db.(cart := s.db.cart)
    ensures forall i :: 0 <= i < |s.db.cart| ==> s.db.cart[i] in db.cart && !(s.db.cart[i].id == rowId && s.db.cart[i].user == user)
    ensures forall i :: 0 <= i < |db.cart| && !(db.cart[i].id == rowId && db.cart[i].user == user) ==> db.cart[i] in s.db.cart
  {
    if !HasRow(db.cart, user, rowId) then Step(Err(NotFound("Cart item not found")), db)
    else
      var keep := (r: CartRow) => !(r.id == rowId && r.user == user);
      FilterKeepsEvery(db.cart, keep);
      Step(Ok("Item removed from cart"), db.(cart := Filter(db.cart, keep)))
  }

  /** `DELETE FROM cart_items WHERE user_id = ?` */
  function ClearRows(cart: seq<CartRow>, user: Id): (rest: seq<CartRow>)
    ensures forall i :: 0 <= i < |rest| ==> rest[i] in cart && rest[i].user != user
    ensures forall i :: 0 <= i < |cart| && cart[i].user != user ==> cart[i] in rest
  {
    FilterKeepsEvery(cart, NotOwnedBy(user));
    Filter(cart, NotOwnedBy(user))
  }

  function NotOwnedBy(user: Id): CartRow -> bool
  {
    (r: CartRow) => r.user != user
  }

  /** Delete all and only the user's rows; always succeeds. */
  function Clear(db: Db, user: Id): (s: Step<string>)
    ensures s.result.Ok?
    ensures s.db == db.(cart := ClearRows(db.cart, user))
  {
    Step(Ok("Cart cleared"), db.(cart := ClearRows(db.cart, user)))
  }

  lemma ClearIdempotent(db: Db, user: Id)
    ensures Clear(Clear(db, user).db, user) == Clear(db, user)
  {
    FilterIdempotent(db.cart, NotOwnedBy(user));
  }

  /** Update, remove and clear keep the cart's keys well formed. */
  lemma CartMutationsPreserveWellFormed(db: Db, user: Id, rowId: Id, quantity: int)
    requires CartWellFormed(db)
    ensures CartWellFormed(Update(db, user, rowId, quantity).db)
    ensures CartWellFormed(Remove(db, user, rowId).db)
    ensures CartWellFormed(Clear(db, user).db)
  {
    UpdateKeepsWellFormed(db, user, rowId, quantity);
    RemoveKeepsWellFormed(db, user, rowId);
    ClearKeepsWellFormed(db, user);
  }

  lemma UpdateKeepsWellFormed(db: Db, user: Id, rowId: Id, quantity: int)
    requires CartWellFormed(db)
    ensures CartWellFormed(Update(db, user, rowId, quantity).db)
  {
    var f := (r: CartRow) => if r.id == rowId then r.(quantity := quantity) else r;
    UniqueByMapSeq(db.cart, f, RowId);
    UniqueByMapSeq(db.cart, f, RowPair);
  }

  lemma RemoveKeepsWellFormed(db: Db, user: Id, rowId: Id)
    requires CartWellFormed(db)
    ensures CartWellFormed(Remove(db, user, rowId).db)
  {
    var keep := (r: CartRow) => !(r.id == rowId && r.user == user);
    UniqueByFilter(db.cart, RowId, keep);
    UniqueByFilter(db.cart, RowPair, keep);
  }

  lemma ClearKeepsWellFormed(db: Db, user: Id)
    requires CartWellFormed(db)
    ensures CartWellFormed(Clear(db, user).db)
  {
    var other := NotOwnedBy(user);
    UniqueByFilter(db.cart, RowId, other);
    UniqueByFilter(db.cart, RowPair, other);
  }
}
