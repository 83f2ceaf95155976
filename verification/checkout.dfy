/** The checkout page's logic: which saved address prefills the form, the
    client-side required-field check, how the shipping and billing address
    objects are assembled from the form, and what a submission does to the
    server, the order confirmation and the local cart. */
module Checkout {
  import opened Common
  import opened Store
  import opened CartContext
  import OrderRoutes
  import ServiceWorker

  /** The form's fields; an untouched or missing field is "". */
  datatype Form = Form(
    firstName: string,
    lastName: string,
    email: string,
    phone: string,
    shippingAddress1: string,
    shippingAddress2: string,
    shippingCity: string,
    shippingState: string,
    shippingPostal: string,
    shippingCountry: string,
    sameAsBilling: bool,
    billingFirstName: string,
    billingLastName: string,
    billingAddress1: string,
    billingAddress2: string,
    billingCity: string,
    billingState: string,
    billingPostal: string,
    billingCountry: string)

  /** The signed-in user's profile fields; a missing one is "". */
  datatype Profile = Profile(firstName: string, lastName: string, email: string, phone: string)

  const DefaultCountry: string := "United States"

  /** JavaScript's `a || b` on strings. */
  function Or(a: string, b: string): (r: string)
    ensures r == (if a != "" then a else b)
    ensures r == "" <==> a == "" && b == ""
  {
    if a != "" then a else b
  }

  // ---------------------------------------------------------------------------
  // Prefill

  function IsShipping(a: SavedAddress): bool
  {
    a.kind == ShippingKind
  }

  function IsDefaultShipping(a: SavedAddress): bool
  {
    a.kind == ShippingKind && a.isDefault
  }

  /** The position `addresses.find(p)` stops at. */
  function FindIndex(addresses: seq<SavedAddress>, p: SavedAddress -> bool): (r: Option<nat>)
    ensures r.Some? ==> r.value < |addresses| && p(addresses[r.value])
    ensures r.Some? ==> forall j :: 0 <= j < r.value ==> !p(addresses[j])
    ensures r.None? ==> forall j :: 0 <= j < |addresses| ==> !p(addresses[j])
  {
    if |addresses| == 0 then None
    else if p(addresses[0]) then Some(0)
    else match FindIndex(addresses[1..], p)
      case Some(k) => Some(k + 1)
      case None => None
  }

  /** The address the form is filled from: the first default shipping
      address, else the first shipping address. */
  function PrefillSource(addresses: seq<SavedAddress>): (r: Option<SavedAddress>)
    ensures r.Some? ==> r.value in addresses && r.value.kind == ShippingKind
    ensures r.None? <==> forall i :: 0 <= i < |addresses| ==> addresses[i].kind != ShippingKind
    ensures (exists i :: 0 <= i < |addresses| && IsDefaultShipping(addresses[i])) ==> r.Some? && r.value.isDefault
    ensures (forall i :: 0 <= i < |addresses| ==> !IsDefaultShipping(addresses[i])) && r.Some? ==>
      exists i :: 0 <= i < |addresses| && addresses[i] == r.value && forall j :: 0 <= j < i ==> !IsShipping(addresses[j])
  {
    match FindIndex(addresses, IsDefaultShipping)
    case Some(k) => Some(addresses[k])
    case None =>
      match FindIndex(addresses, IsShipping)
      case Some(k) => Some(addresses[k])
      case None => None
  }

  /** The form a saved address fills in; the billing side is left empty
      apart from its country. */
  function FormFromAddress(a: SavedAddress, user: Profile): Form
  {
    var l := a.lines;
    Form(l.firstName, l.lastName, user.email, user.phone,
         l.addressLine1, (match l.addressLine2 case Some(s) => s case None => ""), l.city, l.state, l.postalCode, l.country,
         true, "", "", "", "", "", "", "", DefaultCountry)
  }

  /** The form the profile alone fills in. */
  function FormFromProfile(user: Profile): Form
  {
    Form(user.firstName, user.lastName, user.email, user.phone,
         "", "", "", "", "", DefaultCountry,
         true, "", "", "", "", "", "", "", DefaultCountry)
  }

  /** The prefill effect: nothing happens until the addresses have loaded, a
      user is known and sign-in is settled; then the form is reset from the
      chosen saved address, or from the profile when there is none. */
  function Prefill(addresses: Option<seq<SavedAddress>>, user: Option<Profile>, authLoading: bool): (r: Option<Form>)
    ensures r.Some? <==> addresses.Some? && user.Some? && !authLoading
    ensures r.Some? && PrefillSource(addresses.value).Some? ==>
      r.value == FormFromAddress(PrefillSource(addresses.value).value, user.value)
    ensures r.Some? && PrefillSource(addresses.value).None? ==> r.value == FormFromProfile(user.value)
    ensures r.Some? ==> r.value.sameAsBilling && r.value.billingCountry == DefaultCountry && r.value.email == user.value.email
  {
    if addresses.None? || user.None? || authLoading then None
    else match PrefillSource(addresses.value)
      case Some(a) => Some(FormFromAddress(a, user.value))
      case None => Some(FormFromProfile(user.value))
  }

  // ---------------------------------------------------------------------------
  // Submission

  /** The six fields `onSubmit` insists on before anything is sent. */
  predicate RequiredFilled(f: Form)
  {
    f.firstName != "" && f.lastName != "" && f.shippingAddress1 != ""
    && f.shippingCity != "" && f.shippingState != "" && f.shippingPostal != ""
  }

  /** The shipping address object posted with the order. */
  function ShippingOf(f: Form): (a: AddressJson)
    ensures a.firstName == f.firstName && a.lastName == f.lastName && a.addressLine1 == f.shippingAddress1
    ensures a.city == f.shippingCity && a.state == f.shippingState && a.postalCode == f.shippingPostal
    ensures a.addressLine2 == f.shippingAddress2
    ensures a.country == (if f.shippingCountry != "" then f.shippingCountry else DefaultCountry) && a.country != ""
  {
    AddressJson(f.firstName, f.lastName, f.shippingAddress1, Or(f.shippingAddress2, ""),
                f.shippingCity, f.shippingState, f.shippingPostal, Or(f.shippingCountry, DefaultCountry))
  }

  /** The billing address object: `null` when billing is the same as
      shipping; otherwise every field is the billing entry when one was
      typed and the shipping entry when not. */
  function BillingOf(f: Form): (b: Option<AddressJson>)
    ensures b.None? <==> f.sameAsBilling
    ensures b.Some? ==>
      && b.value.firstName == Or(f.billingFirstName, f.firstName)
      && b.value.lastName == Or(f.billingLastName, f.lastName)
      && b.value.addressLine1 == Or(f.billingAddress1, f.shippingAddress1)
      && b.value.addressLine2 == Or(f.billingAddress2, f.shippingAddress2)
      && b.value.city == Or(f.billingCity, f.shippingCity)
      && b.value.state == Or(f.billingState, f.shippingState)
      && b.value.postalCode == Or(f.billingPostal, f.shippingPostal)
      && b.value.country == Or(f.billingCountry, Or(f.shippingCountry, DefaultCountry))
  {
    if f.sameAsBilling then None
    else Some(AddressJson(
      Or(f.billingFirstName, f.firstName),
      Or(f.billingLastName, f.lastName),
      Or(f.billingAddress1, f.shippingAddress1),
      Or(f.billingAddress2, Or(f.shippingAddress2, "")),
      Or(f.billingCity, f.shippingCity),
      Or(f.billingState, f.shippingState),
      Or(f.billingPostal, f.shippingPostal),
      Or(f.billingCountry, Or(f.shippingCountry, DefaultCountry))))
  }

  predicate NoBillingEntries(f: Form)
  {
    f.billingFirstName == "" && f.billingLastName == "" && f.billingAddress1 == "" && f.billingAddress2 == ""
    && f.billingCity == "" && f.billingState == "" && f.billingPostal == "" && f.billingCountry == ""
  }

  /** A separate billing address left blank is the shipping address. */
  lemma BlankBillingIsShipping(f: Form)
    requires !f.sameAsBilling && NoBillingEntries(f)
    ensures BillingOf(f) == Some(ShippingOf(f))
  {
  }

  /** The client's check and the server's are the same test, so a form the
      page accepts is never refused by the order handler for missing
      fields, and one it refuses would have been. */
  lemma ClientCheckMatchesServer(f: Form)
    ensures RequiredFilled(f) <==> OrderRoutes.HasRequiredFields(ShippingOf(f))
    ensures BillingOf(f).Some? && RequiredFilled(f) ==> OrderRoutes.HasRequiredFields(BillingOf(f).value)
  {
  }

  /** How a submission ended. */
  datatype Submitted =
    | Incomplete
    | Placed(orderNumber: string)
    | Failed(message: string)

  /** The messages of the HTTP client used by the page: a reply with an
      error status, and a request that got no reply. */
  function StatusFailure(code: nat): string
  {
    "Request failed with status code " + NatToString(code)
  }

  const NetworkError: string := "Network Error"

  /** `error.response?.data?.message || error.message || 'Failed to place order'`;
      the client's own message is never empty, so the fallback is not reached. */
  function CheckoutFailure(e: Option<HttpError>): (m: string)
    ensures m != ""
    ensures e.None? ==> m == NetworkError
    ensures e.Some? && ServerMessage(e.value).Some? && ServerMessage(e.value).value != "" ==> m == ServerMessage(e.value).value
  {
    match e
    case None => NetworkError
    case Some(err) =>
      (match ServerMessage(err)
       case Some(m) => if m != "" then m else StatusFailure(Code(err))
       case None => StatusFailure(Code(err)))
  }

  /** `onSubmit`: an incomplete form is refused on the page; otherwise the
      order is posted, and only when the server accepts it is the
      confirmation shown and the cart cleared (through the cart context's
      clear); any failure leaves everything as it was. A post the server
      never answers fails with the service worker's offline message when
      the worker controls the page, and with the HTTP client's own message
      otherwise; a signed-out page's post is refused by the authentication
      middleware. The order and tracking numbers and the transaction's
      write outcome are parameters. */
  function Submit(w: World, env: Env, f: Form, orderNumber: string, trackingNumber: string, writeFails: bool): (r: (Submitted, World))
    ensures !RequiredFilled(f) ==> r == (Incomplete, w)
    ensures RequiredFilled(f) && !env.reachable && env.controlled ==> r == (Failed(ServiceWorker.OfflineMessage), w)
    ensures RequiredFilled(f) && !env.reachable && !env.controlled ==> r == (Failed(NetworkError), w)
    ensures RequiredFilled(f) && env.reachable && !env.authenticated ==> r == (Failed(Refusal(env.token).message), w)
    ensures r.0.Failed? ==> r.1 == w
    ensures r.0.Placed? ==> r.0.orderNumber == orderNumber
  {
    if !RequiredFilled(f) then (Incomplete, w)
    else if !env.reachable then (Failed(UnreachableMessage(env, CheckoutFailure(None))), w)
    else if !env.authenticated then (Failed(CheckoutFailure(Some(Refusal(env.token)))), w)
    else
      var step := OrderRoutes.Commit(w.server, env.user, OrderRoutes.CreateOrderRequest(Some(ShippingOf(f)), BillingOf(f)),
                                     orderNumber, trackingNumber, writeFails);
      match step.result
      case Err(e) => (Failed(CheckoutFailure(Some(e))), w)
      case Ok(receipt) => (Placed(receipt.orderNumber), ClearCartAction(w.(server := step.db), env).after)
  }

  /** A submission is placed exactly when the form is complete, the page is
      signed in, the server is reached and the order transaction succeeds; then the order is on
      the server with the addresses the form describes, and, online, the
      page's cart is back to empty. */
  lemma SubmitPlacesOrder(w: World, env: Env, f: Form, orderNumber: string, trackingNumber: string, writeFails: bool)
    requires OrderIdsBelowCounter(w.server)
    ensures var req := OrderRoutes.CreateOrderRequest(Some(ShippingOf(f)), BillingOf(f));
      Submit(w, env, f, orderNumber, trackingNumber, writeFails).0.Placed? <==>
        RequiredFilled(f) && env.authenticated && env.reachable && OrderRoutes.Commit(w.server, env.user, req, orderNumber, trackingNumber, writeFails).result.Ok?
    ensures var r := Submit(w, env, f, orderNumber, trackingNumber, writeFails);
      r.0.Placed? && env.online ==> r.1.state == InitialState
    ensures var r := Submit(w, env, f, orderNumber, trackingNumber, writeFails);
      r.0.Placed? ==>
        && w.server.nextOrderId in r.1.server.orders
        && r.1.server.orders[w.server.nextOrderId].shipping == ShippingOf(f)
        && r.1.server.orders[w.server.nextOrderId].billing == BillingOf(f)
  {
    var req := OrderRoutes.CreateOrderRequest(Some(ShippingOf(f)), BillingOf(f));
    var step := OrderRoutes.Commit(w.server, env.user, req, orderNumber, trackingNumber, writeFails);
    ClientCheckMatchesServer(f);
    if RequiredFilled(f) && env.authenticated && env.reachable && step.result.Ok? {
      OrderRoutes.CommitSuccess(w.server, env.user, req, orderNumber, trackingNumber, writeFails);
    }
  }
}
