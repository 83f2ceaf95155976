/** The server's database, as the route handlers see it: one field per table.
    Tables whose row order matters to a handler (cart rows, order items,
    reviews, saved addresses) are sequences in insertion order; tables looked
    up only by primary key are maps. Every insert takes the next value of an
    auto-increment counter. */
module Store {
  import opened Common

  type Id = nat

  datatype OrderStatus = Pending | Processing | Shipped | Delivered | Cancelled

  function StatusName(s: OrderStatus): string
  {
    match s
    case Pending => "pending"
    case Processing => "processing"
    case Shipped => "shipped"
    case Delivered => "delivered"
    case Cancelled => "cancelled"
  }

  /** The `isIn([...])` whitelist of the status validator. */
  function ParseStatus(s: string): (r: Option<OrderStatus>)
    ensures r.Some? ==> StatusName(r.value) == s
    ensures r.None? ==> forall st: OrderStatus :: StatusName(st) != s
  {
    if s == "pending" then Some(Pending)
    else if s == "processing" then Some(Processing)
    else if s == "shipped" then Some(Shipped)
    else if s == "delivered" then Some(Delivered)
    else if s == "cancelled" then Some(Cancelled)
    else None
  }

  lemma StatusNameRoundTrip(st: OrderStatus)
    ensures ParseStatus(StatusName(st)) == Some(st)
  {
  }

  datatype User = User(email: string, firstName: string, lastName: string)

  /** A product row; `price` is in the smallest currency unit. */
  datatype Product = Product(
    name: string,
    description: Option<string>,
    price: int,
    stock: int,
    categoryId: Id,
    imageUrl: Option<string>,
    active: bool)

  datatype CartRow = CartRow(id: Id, user: Id, product: Id, quantity: int)

  /** An address object as the checkout page posts it and an order stores it
      (as JSON). A field that is absent, null or empty is "" here: the
      handlers only ever test such fields for truthiness. */
  datatype AddressJson = AddressJson(
    firstName: string,
    lastName: string,
    addressLine1: string,
    addressLine2: string,
    city: string,
    state: string,
    postalCode: string,
    country: string)

  datatype Order = Order(
    user: Id,
    orderNumber: string,
    total: int,
    shipping: AddressJson,
    billing: Option<AddressJson>,
    trackingNumber: string,
    status: OrderStatus)

  /** `price` is the unit price read when the order was committed. */
  datatype OrderItem = OrderItem(orderId: Id, product: Id, quantity: int, price: int)

  datatype Review = Review(
    id: Id,
    product: Id,
    user: Id,
    rating: int,
    title: Option<string>,
    comment: Option<string>,
    images: Option<seq<string>>,
    verified: bool)

  datatype AddressKind = ShippingKind | BillingKind

  /** The text columns of a saved address. */
  datatype AddressLines = AddressLines(
    firstName: string,
    lastName: string,
    addressLine1: string,
    addressLine2: Option<string>,
    city: string,
    state: string,
    postalCode: string,
    country: string)

  datatype SavedAddress = SavedAddress(id: Id, user: Id, kind: AddressKind, lines: AddressLines, isDefault: bool)

  datatype Db = Db(
    users: map<Id, User>,
    categories: set<Id>,
    products: map<Id, Product>,
    nextProductId: Id,
    cart: seq<CartRow>,
    nextCartId: Id,
    orders: map<Id, Order>,
    nextOrderId: Id,
    items: seq<OrderItem>,
    reviews: seq<Review>,
    nextReviewId: Id,
    addresses: seq<SavedAddress>,
    nextAddressId: Id)

  /** A handler's reply together with the database it leaves behind. */
  datatype Step<+T> = Step(result: Result<T>, db: Db)

  /** The cart table's shape: ids below the counter, ids unique, at most
      one row per (user, product) — what the add handler's merge keeps —
      and every quantity at least 1, as the add and update handlers
      validate. */
  ghost predicate CartWellFormed(db: Db)
  {
    && (forall i :: 0 <= i < |db.cart| ==> db.cart[i].id < db.nextCartId)
    && UniqueBy(db.cart, RowId)
    && UniqueBy(db.cart, RowPair)
    && (forall i :: 0 <= i < |db.cart| ==> db.cart[i].quantity >= 1)
  }

  function RowId(r: CartRow): Id
  {
    r.id
  }

  function RowPair(r: CartRow): (Id, Id)
  {
    (r.user, r.product)
  }

  /** Every stored order id is below the auto-increment counter. */
  ghost predicate OrderIdsBelowCounter(db: Db)
  {
    forall k :: k in db.orders ==> k < db.nextOrderId
  }

  ghost predicate StockNonNegative(db: Db)
  {
    forall p :: p in db.products ==> db.products[p].stock >= 0
  }
}
