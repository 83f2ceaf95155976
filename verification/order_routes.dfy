/** `POST /api/orders/create`: the transaction that turns the user's cart
    into an order. Every step runs between `beginTransaction` and `commit`;
    every error path rolls back, so the database after an error is the
    database before the request. */
module OrderRoutes {
  import opened Common
  import opened Store
  import CartRoutes

  datatype CreateOrderRequest = CreateOrderRequest(shipping: Option<AddressJson>, billing: Option<AddressJson>)

  /** The reply body's `order` object. */
  datatype Receipt = Receipt(orderId: Id, orderNumber: string, total: int, status: OrderStatus)

  /** The six shipping fields the handler insists on (non-empty, i.e. truthy). */
  predicate HasRequiredFields(a: AddressJson)
  {
    a.firstName != "" && a.lastName != "" && a.addressLine1 != ""
    && a.city != "" && a.state != "" && a.postalCode != ""
  }

  /** A line that asks for more than the stock the transaction read. */
  predicate IsShort(db: Db, r: CartRow)
  {
    r.product in db.products && r.quantity > db.products[r.product].stock
  }

  /** The index of the first short line, in cart order. */
  function FirstShort(db: Db, lines: seq<CartRow>): (r: Option<nat>)
    ensures r.Some? ==> r.value < |lines| && IsShort(db, lines[r.value])
    ensures r.Some? ==> forall j :: 0 <= j < r.value ==> !IsShort(db, lines[j])
    ensures r.None? ==> forall j :: 0 <= j < |lines| ==> !IsShort(db, lines[j])
  {
    if |lines| == 0 then None
    else if IsShort(db, lines[0]) then Some(0)
    else match FirstShort(db, lines[1..])
      case Some(k) => Some(k + 1)
      case None => None
  }

  predicate AllInStock(db: Db, lines: seq<CartRow>)
  {
    forall i :: 0 <= i < |lines| ==> !IsShort(db, lines[i])
  }

  /** The sum of the quantities of `product` over `lines`. */
  function QtyFor(lines: seq<CartRow>, product: Id): int
  {
    if |lines| == 0 then 0
    else
      var own := if lines[0].product == product then lines[0].quantity else 0;
      own + QtyFor(lines[1..], product)
  }

  /** One `UPDATE products SET stock_quantity = stock_quantity - ? WHERE id = ?`
      per line, in line order. */
  function Decrement(products: map<Id, Product>, lines: seq<CartRow>): map<Id, Product>
  {
    if |lines| == 0 then products
    else
      var p := lines[0].product;
      var next := if p in products then products[p := products[p].(stock := products[p].stock - lines[0].quantity)] else products;
      Decrement(next, lines[1..])
  }

  /** The order item written for one line, with the price read at commit. */
  function ItemOf(db: Db, orderId: Id, r: CartRow): OrderItem
  {
    OrderItem(orderId, r.product, r.quantity, if r.product in db.products then db.products[r.product].price else 0)
  }

  /** The commit. `orderNumber` and `trackingNumber` stand for the fresh
      random values the handler generates; `writeFails` stands for any
      statement after `beginTransaction` throwing, which rolls back and
      answers 500. */
  function Commit(db: Db, user: Id, req: CreateOrderRequest, orderNumber: string, trackingNumber: string, writeFails: bool): (s: Step<Receipt>)
    ensures s.result.Err? ==> s.db == db
    ensures req.shipping.None? ==> s.result == Err(Invalid)
    ensures req.shipping.Some? && !HasRequiredFields(req.shipping.value)
      ==> s.result == Err(BadRequest("Missing required shipping address fields"))
    ensures req.shipping.Some? && HasRequiredFields(req.shipping.value) && |CartRoutes.ActiveLines(db, user)| == 0
      ==> s.result == Err(BadRequest("Cart is empty"))
    ensures s.result.Ok? <==>
      && req.shipping.Some? && HasRequiredFields(req.shipping.value)
      && |CartRoutes.ActiveLines(db, user)| > 0
      && AllInStock(db, CartRoutes.ActiveLines(db, user))
      && !writeFails
    ensures s.result.Ok? ==> s.result.value.status == Pending
    ensures s.result.Ok? ==> s.result.value.total == CartRoutes.LinesTotal(db, CartRoutes.ActiveLines(db, user))
  {
    match req.shipping
    case None => Step(Err(Invalid), db)
    case Some(shipping) =>
      if !HasRequiredFields(shipping) then Step(Err(BadRequest("Missing required shipping address fields")), db)
      else
        var lines := CartRoutes.ActiveLines(db, user);
        if |lines| == 0 then Step(Err(BadRequest("Cart is empty")), db)
        else match FirstShort(db, lines)
          case Some(k) =>
            Step(Err(BadRequest("Insufficient stock for " + db.products[lines[k].product].name)), db)
          case None =>
            if writeFails then Step(Err(ServerError), db)
            else
              var total := CartRoutes.LinesTotal(db, lines);
              Step(Ok(Receipt(db.nextOrderId, orderNumber, total, Pending)), Written(db, user, lines, shipping, req.billing, orderNumber, trackingNumber))
  }

  /** The database the transaction commits: the order row, its items and the
      stock decrements for `lines`, and the deletion of all of the user's
      cart rows. */
  function Written(db: Db, user: Id, lines: seq<CartRow>, shipping: AddressJson, billing: Option<AddressJson>, orderNumber: string, trackingNumber: string): Db
  {
    var orderId := db.nextOrderId;
    var order := Order(user, orderNumber, CartRoutes.LinesTotal(db, lines), shipping, billing, trackingNumber, Processing);
    db.(
      orders := db.orders[orderId := order],
      nextOrderId := orderId + 1,
      items := db.items + MapSeq(lines, (r: CartRow) => ItemOf(db, orderId, r)),
      products := Decrement(db.products, lines),
      cart := CartRoutes.ClearRows(db.cart, user))
  }

  /** A failing stock check names the first short line, in cart order. */
  lemma CommitNamesFirstShort(db: Db, user: Id, req: CreateOrderRequest, orderNumber: string, trackingNumber: string, writeFails: bool, k: nat)
    requires req.shipping.Some? && HasRequiredFields(req.shipping.value)
    requires k < |CartRoutes.ActiveLines(db, user)|
    requires IsShort(db, CartRoutes.ActiveLines(db, user)[k])
    requires forall j :: 0 <= j < k ==> !IsShort(db, CartRoutes.ActiveLines(db, user)[j])
    ensures var s := Commit(db, user, req, orderNumber, trackingNumber, writeFails);
      && s.db == db
      && s.result == Err(BadRequest("Insufficient stock for " + db.products[CartRoutes.ActiveLines(db, user)[k].product].name))
  {
    FirstShortIs(db, CartRoutes.ActiveLines(db, user), k);
  }

  /** A short line with none short before it is the first short line. */
  lemma FirstShortIs(db: Db, lines: seq<CartRow>, k: nat)
    requires k < |lines| && IsShort(db, lines[k])
    requires forall j :: 0 <= j < k ==> !IsShort(db, lines[j])
    ensures FirstShort(db, lines) == Some(k)
  {
  }

  /** A successful commit writes `Written` for the user's active lines. */
  lemma CommitWrites(db: Db, user: Id, req: CreateOrderRequest, orderNumber: string, trackingNumber: string, writeFails: bool)
    requires Commit(db, user, req, orderNumber, trackingNumber, writeFails).result.Ok?
    ensures req.shipping.Some?
    ensures Commit(db, user, req, orderNumber, trackingNumber, writeFails).db
      == Written(db, user, CartRoutes.ActiveLines(db, user), req.shipping.value, req.billing, orderNumber, trackingNumber)
  {
  }

  /** The active lines that passed the stock check each fit in the stock. */
  lemma ActiveLinesFit(db: Db, user: Id)
    requires AllInStock(db, CartRoutes.ActiveLines(db, user))
    ensures var lines := CartRoutes.ActiveLines(db, user);
      forall j :: 0 <= j < |lines| ==>
        lines[j].user == user && lines[j].product in db.products && lines[j].quantity <= db.products[lines[j].product].stock
  {
  }

  /** The stock after the decrements: every product keeps its key and its
      other columns, and loses the quantity the lines ask of it. */
  lemma {:induction false} DecrementEffect(products: map<Id, Product>, lines: seq<CartRow>, p: Id)
    ensures p in Decrement(products, lines) <==> p in products
    ensures p in products ==> Decrement(products, lines)[p] == products[p].(stock := products[p].stock - QtyFor(lines, p))
  {
    if |lines| > 0 {
      var q := lines[0].product;
      var next := if q in products then products[q := products[q].(stock := products[q].stock - lines[0].quantity)] else products;
      DecrementEffect(next, lines[1..], p);
    }
  }

  lemma {:induction false} QtyForAbsent(lines: seq<CartRow>, p: Id)
    requires forall j :: 0 <= j < |lines| ==> lines[j].product != p
    ensures QtyFor(lines, p) == 0
  {
    if |lines| > 0 {
      QtyForAbsent(lines[1..], p);
    }
  }

  /** With one line per product, the quantity asked of a line's product is
      that line's quantity. */
  lemma {:induction false} QtyForOfUniqueLine(lines: seq<CartRow>, user: Id, i: nat)
    requires i < |lines|
    requires forall j :: 0 <= j < |lines| ==> lines[j].user == user
    requires UniqueBy(lines, RowPair)
    ensures QtyFor(lines, lines[i].product) == lines[i].quantity
  {
    var p := lines[i].product;
    if i == 0 {
      forall j | 0 <= j < |lines[1..]|
        ensures lines[1..][j].product != p
      {
        assert RowPair(lines[j + 1]) != RowPair(lines[0]);
      }
      QtyForAbsent(lines[1..], p);
    } else {
      QtyForOfUniqueLine(lines[1..], user, i - 1);
      assert RowPair(lines[i]) != RowPair(lines[0]);
    }
  }

  /** The shape of a successful commit: one new order row stored as
      'processing', one item per considered line carrying its quantity and
      the price read at commit, an order total equal to the sum over its
      items, the user's cart rows deleted as `DELETE /clear` would, and no
      other table touched. */
  lemma CommitSuccess(db: Db, user: Id, req: CreateOrderRequest, orderNumber: string, trackingNumber: string, writeFails: bool)
    requires OrderIdsBelowCounter(db)
    ensures var s := Commit(db, user, req, orderNumber, trackingNumber, writeFails);
      var lines := CartRoutes.ActiveLines(db, user);
      var id := db.nextOrderId;
      s.result.Ok? ==>
        && s.result.value.orderId == id
        && id !in db.orders
        && s.db.orders == db.orders[id := Order(user, orderNumber, s.result.value.total, req.shipping.value, req.billing, trackingNumber, Processing)]
        && s.db.nextOrderId == id + 1
        && OrderIdsBelowCounter(s.db)
        && |s.db.items| == |db.items| + |lines|
        && s.db.items[..|db.items|] == db.items
        && (forall i :: 0 <= i < |lines| ==>
              s.db.items[|db.items| + i] == OrderItem(id, lines[i].product, lines[i].quantity, db.products[lines[i].product].price))
        && s.result.value.total == SumOf(s.db.items[|db.items|..], ItemAmount)
        && s.db.cart == CartRoutes.Clear(db, user).db.cart
        && s.db == db.(orders := s.db.orders, nextOrderId := s.db.nextOrderId, items := s.db.items, products := s.db.products, cart := s.db.cart)
  {
    var s := Commit(db, user, req, orderNumber, trackingNumber, writeFails);
    if s.result.Ok? {
      var lines := CartRoutes.ActiveLines(db, user);
      CommitWrites(db, user, req, orderNumber, trackingNumber, writeFails);
      WrittenItems(db, user, lines, req.shipping.value, req.billing, orderNumber, trackingNumber);
    }
  }

  lemma WrittenItems(db: Db, user: Id, lines: seq<CartRow>, shipping: AddressJson, billing: Option<AddressJson>, orderNumber: string, trackingNumber: string)
    requires forall i :: 0 <= i < |lines| ==> lines[i].product in db.products
    ensures var w := Written(db, user, lines, shipping, billing, orderNumber, trackingNumber);
      && |w.items| == |db.items| + |lines|
      && w.items[..|db.items|] == db.items
      && (forall i :: 0 <= i < |lines| ==>
            w.items[|db.items| + i] == OrderItem(db.nextOrderId, lines[i].product, lines[i].quantity, db.products[lines[i].product].price))
      && CartRoutes.LinesTotal(db, lines) == SumOf(w.items[|db.items|..], ItemAmount)
  {
    var w := Written(db, user, lines, shipping, billing, orderNumber, trackingNumber);
    var f := (r: CartRow) => ItemOf(db, db.nextOrderId, r);
    assert w.items[|db.items|..] == MapSeq(lines, f);
    SumMapSeq(lines, f, ItemAmount, (r: CartRow) => CartRoutes.LineTotal(db, r));
  }

  function ItemAmount(it: OrderItem): int
  {
    it.quantity * it.price
  }

  /** The stock effect of a successful commit when the cart holds one row
      per (user, product): each ordered product loses exactly its line's
      quantity, every other product is untouched, and no stock goes
      negative. */
  lemma CommitStock(db: Db, user: Id, req: CreateOrderRequest, orderNumber: string, trackingNumber: string, writeFails: bool)
    requires UniqueBy(db.cart, RowPair) && StockNonNegative(db)
    ensures var s := Commit(db, user, req, orderNumber, trackingNumber, writeFails);
      var lines := CartRoutes.ActiveLines(db, user);
      s.result.Ok? ==>
        && s.db.products.Keys == db.products.Keys
        && (forall i :: 0 <= i < |lines| ==>
              s.db.products[lines[i].product] == db.products[lines[i].product].(stock := db.products[lines[i].product].stock - lines[i].quantity))
        && (forall p :: p in db.products && (forall i :: 0 <= i < |lines| ==> lines[i].product != p) ==> s.db.products[p] == db.products[p])
        && StockNonNegative(s.db)
  {
    var s := Commit(db, user, req, orderNumber, trackingNumber, writeFails);
    if s.result.Ok? {
      CommitWrites(db, user, req, orderNumber, trackingNumber, writeFails);
      CartRoutes.ActiveLinesUnique(db, user);
      ActiveLinesFit(db, user);
      WrittenStock(db, user, CartRoutes.ActiveLines(db, user), req.shipping.value, req.billing, orderNumber, trackingNumber);
    }
  }

  /** The stock `Written` leaves for lines that name each product once and
      that each fit in the stock. */
  lemma WrittenStock(db: Db, user: Id, lines: seq<CartRow>, shipping: AddressJson, billing: Option<AddressJson>, orderNumber: string, trackingNumber: string)
    requires StockNonNegative(db)
    requires forall j :: 0 <= j < |lines| ==> lines[j].user == user && lines[j].product in db.products
    requires forall j :: 0 <= j < |lines| ==> lines[j].quantity <= db.products[lines[j].product].stock
    requires UniqueBy(lines, RowPair)
    ensures var w := Written(db, user, lines, shipping, billing, orderNumber, trackingNumber);
      && w.products.Keys == db.products.Keys
      && (forall i :: 0 <= i < |lines| ==>
            w.products[lines[i].product] == db.products[lines[i].product].(stock := db.products[lines[i].product].stock - lines[i].quantity))
      && (forall p :: p in db.products && (forall i :: 0 <= i < |lines| ==> lines[i].product != p) ==> w.products[p] == db.products[p])
      && StockNonNegative(w)
  {
    DecrementUniqueLines(db.products, lines, user);
  }

  /** Decrementing for lines that name each product once and that each fit
      in the stock. */
  lemma DecrementUniqueLines(products: map<Id, Product>, lines: seq<CartRow>, user: Id)
    requires forall p :: p in products ==> products[p].stock >= 0
    requires forall j :: 0 <= j < |lines| ==> lines[j].user == user && lines[j].product in products
    requires forall j :: 0 <= j < |lines| ==> lines[j].quantity <= products[lines[j].product].stock
    requires UniqueBy(lines, RowPair)
    ensures var after := Decrement(products, lines);
      && after.Keys == products.Keys
      && (forall i :: 0 <= i < |lines| ==>
            after[lines[i].product] == products[lines[i].product].(stock := products[lines[i].product].stock - lines[i].quantity))
      && (forall p :: p in products && (forall i :: 0 <= i < |lines| ==> lines[i].product != p) ==> after[p] == products[p])
      && (forall p :: p in after ==> after[p].stock >= 0)
  {
    var after := Decrement(products, lines);
    forall p | p in products || p in after
      ensures p in after <==> p in products
    {
      DecrementEffect(products, lines, p);
    }
    forall i | 0 <= i < |lines|
      ensures after[lines[i].product] == products[lines[i].product].(stock := products[lines[i].product].stock - lines[i].quantity)
    {
      DecrementEffect(products, lines, lines[i].product);
      QtyForOfUniqueLine(lines, user, i);
    }
    forall p | p in products && (forall i :: 0 <= i < |lines| ==> lines[i].product != p)
      ensures after[p] == products[p]
    {
      DecrementEffect(products, lines, p);
      QtyForAbsent(lines, p);
    }
    forall p | p in after
      ensures after[p].stock >= 0
    {
      DecrementEffect(products, lines, p);
      if i :| 0 <= i < |lines| && lines[i].product == p {
        QtyForOfUniqueLine(lines, user, i);
      } else {
        QtyForAbsent(lines, p);
      }
    }
  }

  /** Deleting every row of the user keeps the cart well formed, and the new
      order's id stays below the counter. */
  lemma CommitPreservesInvariants(db: Db, user: Id, req: CreateOrderRequest, orderNumber: string, trackingNumber: string, writeFails: bool)
    requires CartWellFormed(db) && OrderIdsBelowCounter(db)
    ensures CartWellFormed(Commit(db, user, req, orderNumber, trackingNumber, writeFails).db)
    ensures OrderIdsBelowCounter(Commit(db, user, req, orderNumber, trackingNumber, writeFails).db)
  {
    CartRoutes.CartMutationsPreserveWellFormed(db, user, 0, 1);
    CommitSuccess(db, user, req, orderNumber, trackingNumber, writeFails);
  }

  /** Why the stock bound needs one row per product: the stock check is per
      line, so two rows of one unit each for a product with one unit in stock
      pass it, and the unconditional decrements leave the stock at -1. */
  lemma DuplicateRowsOversell(db: Db, user: Id, req: CreateOrderRequest, orderNumber: string, trackingNumber: string, p: Id, a: Id, b: Id)
    requires req.shipping.Some? && HasRequiredFields(req.shipping.value)
    requires p in db.products && db.products[p].active && db.products[p].stock == 1
    requires db.cart == [CartRow(a, user, p, 1), CartRow(b, user, p, 1)]
    ensures !CartWellFormed(db)
    ensures var s := Commit(db, user, req, orderNumber, trackingNumber, false);
      s.result.Ok? && p in s.db.products && s.db.products[p].stock == -1
  {
    var lines := CartRoutes.ActiveLines(db, user);
    FilterKeepsAll(db.cart, CartRoutes.ActiveLineOf(db, user));
    assert lines == db.cart;
    assert RowPair(db.cart[1]) == RowPair(db.cart[0]);
    TwoUnitLines(a, b, user, p);
    assert AllInStock(db, lines);
    var s := Commit(db, user, req, orderNumber, trackingNumber, false);
    CommitWrites(db, user, req, orderNumber, trackingNumber, false);
    assert s.db.products == Decrement(db.products, lines);
    DecrementEffect(db.products, lines, p);
  }

  /** Two one-unit lines of one product ask two units of it. */
  lemma TwoUnitLines(a: Id, b: Id, user: Id, p: Id)
    ensures QtyFor([CartRow(a, user, p, 1), CartRow(b, user, p, 1)], p) == 2
  {
    var lines := [CartRow(a, user, p, 1), CartRow(b, user, p, 1)];
    assert lines[1..] == [CartRow(b, user, p, 1)];
    assert lines[1..][1..] == [];
    assert QtyFor(lines[1..][1..], p) == 0;
    assert QtyFor(lines[1..], p) == 1;
  }
}
