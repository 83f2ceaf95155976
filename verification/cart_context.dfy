/** The client's cart context: the reducer behind the cart badge and page,
    and the four cart actions, which call the cart API when the browser is
    online and append a replayable request to the offline queue when it is
    not. The server side of an online call is the cart route model; the
    browser's environment (sign-in, connectivity, whether IndexedDB and
    background sync work) is a parameter. */
module CartContext {
  import opened Common
  import opened Store
  import opened OfflineQueue
  import opened JsNumbers
  import CartRoutes
  import ServiceWorker
  import AuthMiddleware

  datatype CartState = CartState(items: seq<CartRow>, total: int, count: nat, loading: bool)

  const InitialState: CartState := CartState([], 0, 0, false)

  /** The reducer's actions; `Other` stands for any unrecognised type. */
  datatype Action = SetLoading(flag: bool) | SetCart(view: CartRoutes.CartView) | ClearCart | Other(name: string)

  /** `cartReducer`. */
  function Reduce(state: CartState, action: Action): (r: CartState)
    ensures action.SetLoading? ==> r == state.(loading := action.flag)
    ensures action.SetCart? ==>
      && r.items == action.view.items && r.total == action.view.total && r.count == action.view.count
      && !r.loading
    ensures action.ClearCart? ==> r == InitialState
    ensures action.Other? ==> r == state
  {
    match action
    case SetLoading(flag) => state.(loading := flag)
    case SetCart(view) => CartState(view.items, view.total, view.count, false)
    case ClearCart => InitialState
    case Other(_) => state
  }

  /** Clearing forgets everything, so it absorbs whatever came before. */
  lemma ClearAbsorbs(state: CartState, action: Action)
    ensures Reduce(Reduce(state, action), ClearCart) == Reduce(state, ClearCart)
  {
  }

  /** Showing a cart view is idempotent and forgets the previous cart. */
  lemma SetCartForgets(a: CartState, b: CartState, view: CartRoutes.CartView)
    ensures Reduce(a, SetCart(view)) == Reduce(b, SetCart(view))
    ensures Reduce(Reduce(a, SetCart(view)), SetCart(view)) == Reduce(a, SetCart(view))
  {
  }

  // ---------------------------------------------------------------------------
  // The browser and the server

  /** What the actions depend on besides the cart: whether a user is signed
      in, as whom and with which token (the text `null` when nobody is
      signed in, as the template string renders it); whether the browser believes it is
      online; whether the server can be reached; whether the service worker
      controls the page, so that every `/api/` request goes through its
      network-first strategy; whether opening the IndexedDB store and adding
      to it succeed; and whether the browser offers background sync. */
  datatype Env = Env(
    authenticated: bool,
    user: Id,
    token: string,
    online: bool,
    reachable: bool,
    controlled: bool,
    queueWorks: bool,
    syncSupported: bool)

  /** Everything an action can change: the context's state, the offline
      queue, the server database, the sync tags registered so far, and the
      cart view the service worker holds in its API cache under
      `/api/cart`. That entry is keyed by the URL alone, so it is shared by
      whoever signs in on the browser. */
  datatype World = World(state: CartState, queue: Queue, server: Db, syncTags: seq<string>,
                         cachedCart: Option<CartRoutes.CartView>)

  /** What an action resolves to: `{ success, message }`. */
  datatype Outcome = Outcome(success: bool, message: Option<string>)

  /** An action's outcome, the world afterwards, and whether it called the
      cart API. */
  datatype Called = Called(outcome: Outcome, after: World, apiCalled: bool)

  /** `error.response?.data?.message`: the message the server's reply
      carries, if any. A validation 400 carries an `errors` array instead. */
  function ServerMessage(e: HttpError): Option<string>
  {
    match e
    case Invalid => None
    case BadRequest(m) => Some(m)
    case Unauthorized(m) => Some(m)
    case Forbidden(m) => Some(m)
    case NotFound(m) => Some(m)
    case ServerError => Some("Server error")
  }

  /** The authentication middleware's answer to a request from a
      signed-out page, which sends `Bearer ` and whatever token the page
      holds (the text `null`, say, or nothing). The header value is
      normalised on the way, so the server always finds a non-empty token,
      which does not verify: the 401 always says the token is not valid and
      never that it is missing. */
  function Refusal(token: string): (e: HttpError)
    ensures e == Unauthorized(AuthMiddleware.BadTokenMessage)
    ensures e == AuthMiddleware.Refusal(Some(AuthMiddleware.Normalize(Bearer(token))))
  {
    AuthMiddleware.BearerHeaderPresentsToken(token);
    AuthMiddleware.Refusal(Some(AuthMiddleware.Normalize(Bearer(token))))
  }

  /** `error.response?.data?.message || fallback`: an absent or empty
      message gives the fallback. */
  function FailureMessage(e: Option<HttpError>, fallback: string): (m: string)
    ensures m == fallback || (e.Some? && ServerMessage(e.value) == Some(m) && m != "")
  {
    match e
    case Some(err) =>
      (match ServerMessage(err)
       case Some(m) => if m != "" then m else fallback
       case None => fallback)
    case None => fallback
  }

  // ---------------------------------------------------------------------------
  // The offline queue

  const JsonContentType: string := "application/json"

  function Bearer(token: string): (h: string)
    ensures |h| == 7 + |token| && h[7..] == token
  {
    "Bearer " + token
  }

  function AddBody(productId: int, quantity: int): string
  {
    "{\"productId\":" + IntToString(productId) + ",\"quantity\":" + IntToString(quantity) + "}"
  }

  function UpdateBody(quantity: int): string
  {
    "{\"quantity\":" + IntToString(quantity) + "}"
  }

  const AddUrl: string := "/api/cart/add"
  const UpdatePrefix: string := "/api/cart/update/"
  const RemovePrefix: string := "/api/cart/remove/"
  const ClearUrl: string := "/api/cart/clear"

  /** `queueCartOperation`: when the store opens and accepts the record, the
      request is appended with the JSON content type and the bearer token,
      and the cart sync is registered if the browser supports it; any
      failure is logged and swallowed, leaving the world as it was. */
  function QueueOperation(w: World, env: Env, verb: HttpMethod, url: string, body: Option<string>): (r: World)
    ensures r.state == w.state && r.server == w.server
    ensures !env.queueWorks ==> r == w
    ensures env.queueWorks ==> r.queue == Enqueue(w.queue, verb, url, JsonContentType, Bearer(env.token), body)
    ensures env.queueWorks ==> r.syncTags == w.syncTags + (if env.syncSupported then [SyncTag] else [])
  {
    if !env.queueWorks then w
    else w.(queue := Enqueue(w.queue, verb, url, JsonContentType, Bearer(env.token), body),
            syncTags := w.syncTags + (if env.syncSupported then [SyncTag] else []))
  }

  /** The offline branch shared by the four actions: queue, report success. */
  function Offline(w: World, env: Env, verb: HttpMethod, url: string, body: Option<string>): Called
  {
    Called(Outcome(true, None), QueueOperation(w, env, verb, url, body), false)
  }

  // ---------------------------------------------------------------------------
  // Online calls

  /** `loadCart`: `loading` is raised, then the view the server returns
      replaces the cart, and the service worker, when it controls the page,
      stores that reply in its API cache. If the server cannot be reached,
      the worker answers from that cache, so the last view it stored is
      shown; with no entry (or no worker) the request fails, `loading` is
      lowered and the cart is kept. */
  function LoadCart(w: World, env: Env): (r: World)
    ensures r.queue == w.queue && r.server == w.server && r.syncTags == w.syncTags
    ensures env.reachable ==> r.state == Reduce(w.state, SetCart(CartRoutes.View(w.server, env.user)))
    ensures env.reachable && env.controlled ==> r.cachedCart == Some(CartRoutes.View(w.server, env.user))
    ensures !(env.reachable && env.controlled) ==> r.cachedCart == w.cachedCart
    ensures !env.reachable && env.controlled && w.cachedCart.Some? ==> r.state == Reduce(w.state, SetCart(w.cachedCart.value))
    ensures !env.reachable && !(env.controlled && w.cachedCart.Some?) ==> r.state == w.state.(loading := false)
  {
    var raised := Reduce(w.state, SetLoading(true));
    if env.reachable then
      var view := CartRoutes.View(w.server, env.user);
      w.(state := Reduce(raised, SetCart(view)), cachedCart := if env.controlled then Some(view) else w.cachedCart)
    else if env.controlled && w.cachedCart.Some? then w.(state := Reduce(raised, SetCart(w.cachedCart.value)))
    else w.(state := Reduce(raised, SetLoading(false)))
  }

  /** The online branch of add, update and remove: the server handles the
      request; on success the cart is reloaded, on failure the world is left
      as it was and the server's message (or the fallback) is reported. */
  function Online(w: World, env: Env, step: Step<string>, fallback: string): (c: Called)
    requires env.reachable
    ensures c.apiCalled
    ensures c.outcome.success <==> step.result.Ok?
    ensures step.result.Ok? ==> c.after == LoadCart(w.(server := step.db), env) && c.outcome.message.None?
    ensures step.result.Err? ==> c.after == w && c.outcome.message == Some(FailureMessage(Some(step.result.error), fallback))
  {
    match step.result
    case Ok(_) => Called(Outcome(true, None), LoadCart(w.(server := step.db), env), true)
    case Err(e) => Called(Outcome(false, Some(FailureMessage(Some(e), fallback))), w, true)
  }

  /** The message the page reports for a request the server never
      answered. Under the service worker a write is answered by the
      worker's 503 offline reply, whose message the page shows; without the
      worker the HTTP client gets no reply and the fallback is shown. */
  function UnreachableMessage(env: Env, fallback: string): (m: string)
    ensures env.controlled ==> m == ServiceWorker.OfflineMessage
    ensures !env.controlled ==> m == fallback
  {
    if env.controlled then ServiceWorker.OfflineMessage else fallback
  }

  /** A write whose request never reached the server: nothing changes. */
  function Unreachable(w: World, env: Env, fallback: string): (c: Called)
    ensures c.after == w && c.apiCalled && !c.outcome.success
    ensures c.outcome.message == Some(UnreachableMessage(env, fallback))
  {
    Called(Outcome(false, Some(UnreachableMessage(env, fallback))), w, true)
  }

  /** The server's side of a write from a page that may be signed out: the
      route itself when signed in, otherwise the middleware's 401 and no
      change. */
  function Authorized(w: World, env: Env, route: Step<string>): (s: Step<string>)
    ensures env.authenticated ==> s == route
    ensures !env.authenticated ==> s == Step(Err(Refusal(env.token)), w.server)
  {
    if env.authenticated then route else Step(Err(Refusal(env.token)), w.server)
  }

  // ---------------------------------------------------------------------------
  // The four actions

  function AddToCart(w: World, env: Env, productId: int, quantity: int): (c: Called)
    ensures !env.authenticated ==> c == Called(Outcome(false, None), w, false)
    ensures env.authenticated && !env.online ==> c == Offline(w, env, Post, AddUrl, Some(AddBody(productId, quantity)))
    ensures env.authenticated && env.online && !env.reachable ==>
      c.after == w && !c.outcome.success && c.outcome.message == Some(UnreachableMessage(env, "Failed to add item to cart"))
    ensures env.authenticated && env.online && env.reachable ==>
      c == Online(w, env, CartRoutes.Add(w.server, env.user, productId, quantity), "Failed to add item to cart")
  {
    if !env.authenticated then Called(Outcome(false, None), w, false)
    else if !env.online then Offline(w, env, Post, AddUrl, Some(AddBody(productId, quantity)))
    else if !env.reachable then Unreachable(w, env, "Failed to add item to cart")
    else Online(w, env, CartRoutes.Add(w.server, env.user, productId, quantity), "Failed to add item to cart")
  }

  function UpdateCartItem(w: World, env: Env, rowId: Id, quantity: int): (c: Called)
    ensures !env.online ==> c == Offline(w, env, Put, UpdatePrefix + NatToString(rowId), Some(UpdateBody(quantity)))
    ensures env.online && !env.reachable ==>
      c.after == w && !c.outcome.success && c.outcome.message == Some(UnreachableMessage(env, "Failed to update cart"))
    ensures env.online && env.reachable && env.authenticated ==>
      c == Online(w, env, CartRoutes.Update(w.server, env.user, rowId, quantity), "Failed to update cart")
    ensures env.online && env.reachable && !env.authenticated ==>
      c.after == w && !c.outcome.success && c.outcome.message == Some(Refusal(env.token).message)
  {
    if !env.online then Offline(w, env, Put, UpdatePrefix + NatToString(rowId), Some(UpdateBody(quantity)))
    else if !env.reachable then Unreachable(w, env, "Failed to update cart")
    else Online(w, env, Authorized(w, env, CartRoutes.Update(w.server, env.user, rowId, quantity)), "Failed to update cart")
  }

  function RemoveFromCart(w: World, env: Env, rowId: Id): (c: Called)
    ensures !env.online ==> c == Offline(w, env, Delete, RemovePrefix + NatToString(rowId), None)
    ensures env.online && !env.reachable ==>
      c.after == w && !c.outcome.success && c.outcome.message == Some(UnreachableMessage(env, "Failed to remove item"))
    ensures env.online && env.reachable && env.authenticated ==>
      c == Online(w, env, CartRoutes.Remove(w.server, env.user, rowId), "Failed to remove item")
    ensures env.online && env.reachable && !env.authenticated ==>
      c.after == w && !c.outcome.success && c.outcome.message == Some(Refusal(env.token).message)
  {
    if !env.online then Offline(w, env, Delete, RemovePrefix + NatToString(rowId), None)
    else if !env.reachable then Unreachable(w, env, "Failed to remove item")
    else Online(w, env, Authorized(w, env, CartRoutes.Remove(w.server, env.user, rowId)), "Failed to remove item")
  }

  /** Unlike the others, a successful online clear does not reload: it
      resets the local cart to the initial state. */
  function ClearCartAction(w: World, env: Env): (c: Called)
    ensures !env.online ==> c == Offline(w, env, Delete, ClearUrl, None)
    ensures env.online && env.reachable && env.authenticated ==> c.apiCalled && c.outcome.success
    ensures env.online && env.reachable && env.authenticated ==>
      c.after == w.(server := CartRoutes.Clear(w.server, env.user).db, state := InitialState)
    ensures env.online && env.reachable && !env.authenticated ==>
      c.after == w && c.apiCalled && !c.outcome.success && c.outcome.message == Some(Refusal(env.token).message)
    ensures env.online && !env.reachable ==> c.after == w && !c.outcome.success
    ensures env.online && !env.reachable ==> c.outcome.message == Some(UnreachableMessage(env, "Failed to clear cart"))
  {
    if !env.online then Offline(w, env, Delete, ClearUrl, None)
    else if !env.reachable then Unreachable(w, env, "Failed to clear cart")
    else
      var step := Authorized(w, env, CartRoutes.Clear(w.server, env.user));
      match step.result
      case Ok(_) => Called(Outcome(true, None), w.(server := step.db, state := Reduce(w.state, ClearCart)), true)
      case Err(e) => Called(Outcome(false, Some(FailureMessage(Some(e), "Failed to clear cart"))), w, true)
  }

  /** The effect run when sign-in changes: a signed-in user with a token
      loads the cart, anyone else sees the initial state. */
  function AuthChanged(w: World, env: Env): (r: World)
    ensures !(env.authenticated && env.token != "") ==> r == w.(state := InitialState)
    ensures env.authenticated && env.token != "" ==> r == LoadCart(w, env)
  {
    if env.authenticated && env.token != "" then LoadCart(w, env) else w.(state := Reduce(w.state, ClearCart))
  }

  // ---------------------------------------------------------------------------
  // Properties

  /** The four actions, with their arguments. */
  datatype CartCall = AddCall(productId: int, quantity: int) | UpdateCall(rowId: Id, quantity: int) | RemoveCall(rowId: Id) | ClearCall

  function Perform(w: World, env: Env, call: CartCall): Called
  {
    match call
    case AddCall(p, q) => AddToCart(w, env, p, q)
    case UpdateCall(id, q) => UpdateCartItem(w, env, id, q)
    case RemoveCall(id) => RemoveFromCart(w, env, id)
    case ClearCall => ClearCartAction(w, env)
  }

  /** The request each action replays later: its method, URL and body. */
  function QueuedRequest(call: CartCall): (HttpMethod, string, Option<string>)
  {
    match call
    case AddCall(p, q) => (Post, AddUrl, Some(AddBody(p, q)))
    case UpdateCall(id, q) => (Put, UpdatePrefix + NatToString(id), Some(UpdateBody(q)))
    case RemoveCall(id) => (Delete, RemovePrefix + NatToString(id), None)
    case ClearCall => (Delete, ClearUrl, None)
  }

  /** Offline, an action calls no API, leaves the cart and the server
      alone, reports success, and — when the store works — appends exactly
      one record: the action's request with the JSON content type and the
      current bearer token, under the next key. Only adding asks for a
      signed-in user; an update, removal or clear is queued signed out
      too, with whatever token there is. */
  lemma OfflineQueuesOne(w: World, env: Env, call: CartCall)
    requires !env.online && (call.AddCall? ==> env.authenticated)
    ensures var c := Perform(w, env, call);
      && !c.apiCalled && c.outcome.success
      && c.after.state == w.state && c.after.server == w.server
    ensures var c := Perform(w, env, call);
      env.queueWorks ==>
        && |c.after.queue.ops| == |w.queue.ops| + 1
        && c.after.queue.ops[..|w.queue.ops|] == w.queue.ops
        && c.after.queue.ops[|w.queue.ops|] == QueuedOp(w.queue.nextKey, QueuedRequest(call).0, QueuedRequest(call).1,
             JsonContentType, Bearer(env.token), QueuedRequest(call).2)
    ensures var c := Perform(w, env, call);
      !env.queueWorks ==> c.after == w
  {
  }

  /** Signed out, adding to the cart is refused without a request and
      without queueing, online or not. */
  lemma SignedOutAddDoesNothing(w: World, env: Env, productId: int, quantity: int)
    requires !env.authenticated
    ensures var c := AddToCart(w, env, productId, quantity);
      !c.outcome.success && !c.apiCalled && c.after == w
  {
  }

  /** Every action keeps the queue's keys increasing, so records are
      replayed in the order the actions queued them. */
  lemma ActionsKeepKeyOrder(w: World, env: Env, call: CartCall)
    requires KeysIncreasing(w.queue)
    ensures KeysIncreasing(Perform(w, env, call).after.queue)
  {
    var (verb, url, body) := QueuedRequest(call);
    EnqueueKeepsKeyOrder(w.queue, verb, url, JsonContentType, Bearer(env.token), body);
  }

  /** An offline action that queues registers the sync tag the service
      worker listens for, once. */
  lemma OfflineRegistersSync(w: World, env: Env, call: CartCall)
    requires !env.online && (call.AddCall? ==> env.authenticated) && env.queueWorks && env.syncSupported
    ensures Perform(w, env, call).after.syncTags == w.syncTags + [SyncTag]
  {
  }

  /** A failed online action leaves every part of the world as it was. */
  lemma OnlineFailureChangesNothing(w: World, env: Env, call: CartCall)
    requires env.online
    ensures !Perform(w, env, call).outcome.success ==> Perform(w, env, call).after == w
  {
  }

  /** A successful online add, update or remove leaves the context showing
      exactly the server's view of the user's cart afterwards. */
  lemma OnlineSuccessShowsServerCart(w: World, env: Env, call: CartCall)
    requires env.online && env.reachable && !call.ClearCall?
    requires Perform(w, env, call).outcome.success
    ensures var after := Perform(w, env, call).after;
      var view := CartRoutes.View(after.server, env.user);
      after.state == CartState(view.items, view.total, view.count, false)
  {
  }

  /** The fallback message each action reports when it has nothing better. */
  function Fallback(call: CartCall): string
  {
    match call
    case AddCall(_, _) => "Failed to add item to cart"
    case UpdateCall(_, _) => "Failed to update cart"
    case RemoveCall(_) => "Failed to remove item"
    case ClearCall => "Failed to clear cart"
  }

  /** Online but signed out, no write changes anything: adding is refused on
      the page, and an update, removal or clear reaches the server only to be
      refused by the authentication middleware as carrying an invalid token,
      which the page reports. */
  lemma SignedOutWriteRefused(w: World, env: Env, call: CartCall)
    requires env.online && env.reachable && !env.authenticated
    ensures var c := Perform(w, env, call);
      c.after == w && !c.outcome.success
    ensures var c := Perform(w, env, call);
      call.AddCall? ==> !c.apiCalled && c.outcome.message.None?
    ensures var c := Perform(w, env, call);
      !call.AddCall? ==> c.apiCalled && c.outcome.message == Some(AuthMiddleware.BadTokenMessage)
  {
  }

  /** Online with the server out of reach, a write changes nothing and
      reports the service worker's offline message when the worker controls
      the page, and the action's own fallback otherwise. */
  lemma UnreachableWriteReported(w: World, env: Env, call: CartCall)
    requires env.online && !env.reachable && (call.AddCall? ==> env.authenticated)
    ensures var c := Perform(w, env, call);
      c.after == w && c.apiCalled && !c.outcome.success
    ensures var c := Perform(w, env, call);
      env.controlled ==> c.outcome.message == Some(ServiceWorker.OfflineMessage)
    ensures var c := Perform(w, env, call);
      !env.controlled ==> c.outcome.message == Some(Fallback(call))
  {
  }

  /** The network as the service worker sees it when the server is out of
      reach. */
  function Down(req: ServiceWorker.Request): ServiceWorker.Fetched
  {
    ServiceWorker.NetworkFailure
  }

  /** The worker's side of an unreachable write: an `/api/` request that is
      not a GET takes the network-first strategy, matches no cached entry
      (a cache never answers a non-GET request) and is answered with the
      503 offline body, the reply whose message `UnreachableMessage`
      reports. */
  lemma WorkerAnswersUnreachableWrite(st: ServiceWorker.Storage, req: ServiceWorker.Request)
    requires ServiceWorker.Classify(req) == ServiceWorker.ApiRoute && req.verb != Get
    ensures var h := ServiceWorker.HandleFetch(st, req, Down);
      h.Some? && h.value.response == ServiceWorker.Response(503, ServiceWorker.OfflineJson)
  {
  }

  /** The worker's side of an unreachable load: a GET to `/api/` is answered
      from the API cache when it holds the URL, and with the 503 offline body
      otherwise; `LoadCart` shows the cached view in the first case and only
      lowers `loading` in the second. */
  lemma WorkerAnswersUnreachableRead(st: ServiceWorker.Storage, req: ServiceWorker.Request)
    requires ServiceWorker.Classify(req) == ServiceWorker.ApiRoute && req.verb == Get
    ensures var h := ServiceWorker.HandleFetch(st, req, Down);
      var cached := ServiceWorker.Lookup(ServiceWorker.Open(st, ServiceWorker.ApiCacheName), ServiceWorker.ApiCacheName, req.url);
      && h.Some?
      && (cached.Some? ==> h.value.response == cached.value)
      && (cached.None? ==> h.value.response == ServiceWorker.Response(503, ServiceWorker.OfflineJson))
  {
  }

  /** The cached cart is keyed by the URL alone. When one user's cart was
      loaded under the worker, and after signing out another user signs in
      while the server is out of reach, the page shows the first user's
      cart as it was then. */
  lemma CachedCartCrossesUsers(w: World, a: Env, out: Env, b: Env)
    requires a.authenticated && a.token != "" && a.reachable && a.controlled
    requires !out.authenticated
    requires b.authenticated && b.token != "" && !b.reachable && b.controlled
    ensures var shown := AuthChanged(AuthChanged(AuthChanged(w, a), out), b).state;
      var view := CartRoutes.View(w.server, a.user);
      shown.items == view.items && shown.total == view.total && shown.count == view.count && !shown.loading
  {
  }

  /** The row id in a queued update or remove URL reads back as that id. */
  lemma QueuedUrlNamesRow(rowId: Id)
    ensures var url := UpdatePrefix + NatToString(rowId);
      url[..|UpdatePrefix|] == UpdatePrefix && ParseInt(url[|UpdatePrefix|..]) == Some(rowId)
    ensures var url := RemovePrefix + NatToString(rowId);
      url[..|RemovePrefix|] == RemovePrefix && ParseInt(url[|RemovePrefix|..]) == Some(rowId)
  {
    var a := UpdatePrefix + NatToString(rowId);
    var b := RemovePrefix + NatToString(rowId);
    assert a[|UpdatePrefix|..] == NatToString(rowId);
    assert b[|RemovePrefix|..] == NatToString(rowId);
    ParseIntRoundTrip(rowId);
  }
}
