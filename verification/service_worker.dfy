/** The service worker's request handling: which strategy a request gets,
    the cache-first image strategy, the network-first API strategy, the
    cache-then-network shell strategy with its navigation fallbacks, the
    install-time precache and the activation purge.

    Cache storage is a sequence of named caches in creation order (the
    order `caches.match` searches them); a cache maps a request URL to a
    response. The network is an oracle from request to response or failure. */
module ServiceWorker {
  import opened Common
  import opened OfflineQueue

  const CacheName: string := "pwa-ecommerce-v3"
  const ApiCacheName: string := "pwa-ecommerce-api-v3"
  const ImageCacheName: string := "pwa-ecommerce-images-v3"

  /** The application shell precached at install time. */
  const ShellUrls: seq<string> := ["/", "/index.html", "/manifest.json", "/offline.html",
    "/icon-192.svg", "/icon-512.svg", "/static/css/main.css", "/static/js/main.js"]

  /** `url` is the cache key; `path` is its pathname. */
  datatype Request = Request(url: string, protocol: string, path: string, destination: string, verb: HttpMethod, navigate: bool)

  /** The same-origin GET the fallbacks issue for a shell URL. */
  function GetRequest(url: string): Request
  {
    Request(url, "https:", url, "", Get, false)
  }

  /** `OfflineJson` is the API strategy's JSON body
      `{ message: OfflineMessage, offline: true }`. */
  datatype Body = Payload(content: string) | ImagePlaceholder | OfflineJson | OfflineText | NetworkErrorText

  const OfflineMessage: string := "Offline - No cached data available"

  datatype Response = Response(status: int, body: Body)

  predicate IsOk(r: Response)
  {
    200 <= r.status <= 299
  }

  datatype Fetched = Responded(response: Response) | NetworkFailure

  datatype Cache = Cache(name: string, entries: map<string, Response>)

  datatype Storage = Storage(caches: seq<Cache>)

  // ---------------------------------------------------------------------------
  // Cache storage

  /** The position of the cache with this name, if any. */
  function Find(caches: seq<Cache>, name: string): (r: Option<nat>)
    ensures r.Some? ==> r.value < |caches| && caches[r.value].name == name
    ensures r.Some? ==> forall k :: 0 <= k < r.value ==> caches[k].name != name
    ensures r.None? ==> forall k :: 0 <= k < |caches| ==> caches[k].name != name
  {
    if |caches| == 0 then None
    else if caches[0].name == name then Some(0)
    else match Find(caches[1..], name)
      case Some(k) => Some(k + 1)
      case None => None
  }

  /** `caches.open(name)`: an existing cache is reused, a missing one is
      created empty after the others. */
  function Open(st: Storage, name: string): (r: Storage)
    ensures Find(r.caches, name).Some?
    ensures Find(st.caches, name).Some? ==> r == st
    ensures Find(st.caches, name).None? ==> r.caches == st.caches + [Cache(name, map[])]
  {
    if Find(st.caches, name).Some? then st
    else
      var r := Storage(st.caches + [Cache(name, map[])]);
      assert r.caches[|st.caches|].name == name;
      assert Find(r.caches, name).Some?;
      r
  }

  /** The entry for `url` in the named cache. */
  function Lookup(st: Storage, name: string, url: string): Option<Response>
  {
    match Find(st.caches, name)
    case None => None
    case Some(k) => if url in st.caches[k].entries then Some(st.caches[k].entries[url]) else None
  }

  /** `cache.match(request)` on one cache: only GET requests match. */
  function MatchIn(st: Storage, name: string, req: Request): (r: Option<Response>)
    ensures req.verb != Get ==> r.None?
    ensures req.verb == Get ==> r == Lookup(st, name, req.url)
  {
    if req.verb != Get then None else Lookup(st, name, req.url)
  }

  /** The first cache, in creation order, holding `url`. */
  function FirstHolding(caches: seq<Cache>, url: string): (r: Option<Response>)
    ensures r.Some? <==> exists k :: 0 <= k < |caches| && url in caches[k].entries
  {
    if |caches| == 0 then None
    else if url in caches[0].entries then Some(caches[0].entries[url])
    else
      var rest := FirstHolding(caches[1..], url);
      assert forall k :: 1 <= k < |caches| ==> caches[k] == caches[1..][k - 1];
      rest
  }

  /** `caches.match(request)` across all caches. */
  function MatchAny(st: Storage, req: Request): (r: Option<Response>)
    ensures req.verb != Get ==> r.None?
  {
    if req.verb != Get then None else FirstHolding(st.caches, req.url)
  }

  /** `cache.put(request, response)` into the named cache (openedSt first).
      The Cache API rejects a non-GET request, and nothing is stored. */
  function PutIn(st: Storage, name: string, req: Request, resp: Response): (r: Storage)
    ensures req.verb == Get ==> Lookup(r, name, req.url) == Some(resp)
    ensures forall n, u :: (n != name || u != req.url || req.verb != Get) ==> Lookup(r, n, u) == Lookup(Open(st, name), n, u)
    ensures |r.caches| == |Open(st, name).caches|
    ensures forall k :: 0 <= k < |r.caches| ==> r.caches[k].name == Open(st, name).caches[k].name
  {
    var openedSt := Open(st, name);
    if req.verb != Get then openedSt
    else
      var k := Find(openedSt.caches, name).value;
      var c := openedSt.caches[k];
      var r := Storage(openedSt.caches[k := c.(entries := c.entries[req.url := resp])]);
      assert forall j :: 0 <= j < |r.caches| ==> r.caches[j].name == openedSt.caches[j].name;
      FindSameNames(openedSt.caches, r.caches, name);
      forall n | true
        ensures Find(r.caches, n) == Find(openedSt.caches, n)
      {
        FindSameNames(openedSt.caches, r.caches, n);
      }
      r
  }

  /** `Find` only looks at names. */
  lemma {:induction false} FindSameNames(a: seq<Cache>, b: seq<Cache>, name: string)
    requires |a| == |b|
    requires forall j :: 0 <= j < |a| ==> a[j].name == b[j].name
    ensures Find(a, name) == Find(b, name)
  {
    if |a| > 0 {
      FindSameNames(a[1..], b[1..], name);
    }
  }

  // ---------------------------------------------------------------------------
  // Classification

  /** The extension test `/\.(jpg|jpeg|png|gif|svg|webp)$/i`. */
  predicate ImagePath(path: string)
  {
    var p := ToLower(path);
    EndsWith(p, ".jpg") || EndsWith(p, ".jpeg") || EndsWith(p, ".png")
    || EndsWith(p, ".gif") || EndsWith(p, ".svg") || EndsWith(p, ".webp")
  }

  predicate IsImageRequest(req: Request)
  {
    req.destination == "image" || ImagePath(req.path)
  }

  datatype Route = Bypass | ImageRoute | ApiRoute | NavigationRoute | ShellRoute

  /** The `fetch` listener's tests, in order: non-HTTP requests are not
      intercepted; then images; then `/api/`; then the rest, split by
      navigation mode. */
  function Classify(req: Request): (r: Route)
    ensures r == Bypass <==> !StartsWith(req.protocol, "http")
    ensures r == ImageRoute <==> StartsWith(req.protocol, "http") && IsImageRequest(req)
    ensures r == ApiRoute <==> StartsWith(req.protocol, "http") && !IsImageRequest(req) && StartsWith(req.path, "/api/")
    ensures r == NavigationRoute <==>
      StartsWith(req.protocol, "http") && !IsImageRequest(req) && !StartsWith(req.path, "/api/") && req.navigate
  {
    if !StartsWith(req.protocol, "http") then Bypass
    else if IsImageRequest(req) then ImageRoute
    else if StartsWith(req.path, "/api/") then ApiRoute
    else if req.navigate then NavigationRoute
    else ShellRoute
  }

  /** The image test comes first: an API path with an image extension takes
      the image strategy. */
  lemma ImageBeforeApi(req: Request)
    requires StartsWith(req.protocol, "http") && StartsWith(req.path, "/api/") && EndsWith(req.path, ".png")
    ensures Classify(req) == ImageRoute
  {
    var p := ToLower(req.path);
    var tail := req.path[|req.path| - 4..];
    assert tail == ".png";
    assert p[|p| - 4..] == ".png" by {
      forall k | 0 <= k < 4
        ensures p[|p| - 4 + k] == tail[k]
      {
        assert LowerChar(tail[k]) == tail[k];
      }
    }
  }

  // ---------------------------------------------------------------------------
  // Strategies

  /** A handled request: the response, the storage afterwards, and the
      requests sent to the network on the way, in order. */
  datatype Handled = Handled(response: Response, storage: Storage, sent: seq<Request>)

  /** Cache-first: a hit is returned without touching the network; a miss
      is fetched, stored when the status is 200, and returned; a failed
      fetch yields the placeholder picture. */
  function ImageStrategy(st: Storage, req: Request, net: Request -> Fetched): (h: Handled)
    ensures MatchIn(Open(st, ImageCacheName), ImageCacheName, req).Some? ==>
      h == Handled(MatchIn(Open(st, ImageCacheName), ImageCacheName, req).value, Open(st, ImageCacheName), [])
    ensures MatchIn(Open(st, ImageCacheName), ImageCacheName, req).None? ==> h.sent == [req]
    ensures MatchIn(Open(st, ImageCacheName), ImageCacheName, req).None? && net(req).NetworkFailure? ==>
      h.response == Response(200, ImagePlaceholder) && h.storage == Open(st, ImageCacheName)
    ensures MatchIn(Open(st, ImageCacheName), ImageCacheName, req).None? && net(req).Responded? ==>
      && h.response == net(req).response
      && h.storage == (if net(req).response.status == 200 then PutIn(st, ImageCacheName, req, net(req).response)
                       else Open(st, ImageCacheName))
  {
    var openedSt := Open(st, ImageCacheName);
    match MatchIn(openedSt, ImageCacheName, req)
    case Some(hit) => Handled(hit, openedSt, [])
    case None =>
      match net(req)
      case Responded(resp) =>
        Handled(resp, if resp.status == 200 then PutIn(openedSt, ImageCacheName, req, resp) else openedSt, [req])
      case NetworkFailure => Handled(Response(200, ImagePlaceholder), openedSt, [req])
  }

  /** Network-first: a response is always returned and is stored only for a
      GET with status 200; on failure the cached copy is served, else a 503
      JSON body flagged offline. */
  function ApiStrategy(st: Storage, req: Request, net: Request -> Fetched): (h: Handled)
    ensures h.sent == [req]
    ensures net(req).Responded? ==> h.response == net(req).response
    ensures net(req).Responded? && req.verb == Get && net(req).response.status == 200 ==>
      h.storage == PutIn(st, ApiCacheName, req, net(req).response)
    ensures net(req).Responded? && !(req.verb == Get && net(req).response.status == 200) ==> h.storage == Open(st, ApiCacheName)
    ensures net(req).NetworkFailure? ==> h.storage == Open(st, ApiCacheName)
    ensures net(req).NetworkFailure? && MatchIn(Open(st, ApiCacheName), ApiCacheName, req).Some? ==>
      h.response == MatchIn(Open(st, ApiCacheName), ApiCacheName, req).value
    ensures net(req).NetworkFailure? && MatchIn(Open(st, ApiCacheName), ApiCacheName, req).None? ==>
      h.response == Response(503, OfflineJson)
  {
    var openedSt := Open(st, ApiCacheName);
    match net(req)
    case Responded(resp) =>
      Handled(resp, if req.verb == Get && resp.status == 200 then PutIn(openedSt, ApiCacheName, req, resp) else openedSt, [req])
    case NetworkFailure =>
      match MatchIn(openedSt, ApiCacheName, req)
      case Some(cached) => Handled(cached, openedSt, [req])
      case None => Handled(Response(503, OfflineJson), openedSt, [req])
  }

  /** A navigation that missed every cache: cached `/`, else the network's
      `/` (whatever its status), else cached `/offline.html`, else a 503
      text response. Nothing is stored. */
  function NavigationFallback(st: Storage, net: Request -> Fetched): (h: Handled)
    ensures h.storage == st
    ensures MatchAny(st, GetRequest("/")).Some? ==> h.response == MatchAny(st, GetRequest("/")).value && h.sent == []
    ensures MatchAny(st, GetRequest("/")).None? ==> h.sent == [GetRequest("/")]
    ensures MatchAny(st, GetRequest("/")).None? && net(GetRequest("/")).Responded? ==> h.response == net(GetRequest("/")).response
    ensures MatchAny(st, GetRequest("/")).None? && net(GetRequest("/")).NetworkFailure? ==>
      h.response == (match MatchAny(st, GetRequest("/offline.html"))
                     case Some(page) => page
                     case None => Response(503, OfflineText))
  {
    match MatchAny(st, GetRequest("/"))
    case Some(index) => Handled(index, st, [])
    case None =>
      match net(GetRequest("/"))
      case Responded(resp) => Handled(resp, st, [GetRequest("/")])
      case NetworkFailure =>
        match MatchAny(st, GetRequest("/offline.html"))
        case Some(page) => Handled(page, st, [GetRequest("/")])
        case None => Handled(Response(503, OfflineText), st, [GetRequest("/")])
  }

  /** The shell strategy: any cached copy first; a navigation miss takes the
      fallback chain; any other miss is fetched, a 200 is stored in the shell
      cache, and a failure becomes a 408. */
  function ShellStrategy(st: Storage, req: Request, net: Request -> Fetched): (h: Handled)
    ensures MatchAny(st, req).Some? ==> h == Handled(MatchAny(st, req).value, st, [])
    ensures MatchAny(st, req).None? && req.navigate ==> h == NavigationFallback(st, net)
    ensures MatchAny(st, req).None? && !req.navigate ==> h.sent == [req]
    ensures MatchAny(st, req).None? && !req.navigate && net(req).NetworkFailure? ==>
      h.response == Response(408, NetworkErrorText) && h.storage == st
    ensures MatchAny(st, req).None? && !req.navigate && net(req).Responded? ==>
      && h.response == net(req).response
      && h.storage == (if net(req).response.status == 200 then PutIn(st, CacheName, req, net(req).response) else st)
  {
    match MatchAny(st, req)
    case Some(hit) => Handled(hit, st, [])
    case None =>
      if req.navigate then NavigationFallback(st, net)
      else
        match net(req)
        case Responded(resp) => Handled(resp, if resp.status == 200 then PutIn(st, CacheName, req, resp) else st, [req])
        case NetworkFailure => Handled(Response(408, NetworkErrorText), st, [req])
  }

  /** The `fetch` listener: `None` when the request is left to the browser. */
  function HandleFetch(st: Storage, req: Request, net: Request -> Fetched): (r: Option<Handled>)
    ensures r.None? <==> Classify(req) == Bypass
    ensures Classify(req) == ImageRoute ==> r == Some(ImageStrategy(st, req, net))
    ensures Classify(req) == ApiRoute ==> r == Some(ApiStrategy(st, req, net))
    ensures Classify(req) == NavigationRoute || Classify(req) == ShellRoute ==> r == Some(ShellStrategy(st, req, net))
  {
    match Classify(req)
    case Bypass => None
    case ImageRoute => Some(ImageStrategy(st, req, net))
    case ApiRoute => Some(ApiStrategy(st, req, net))
    case NavigationRoute => Some(ShellStrategy(st, req, net))
    case ShellRoute => Some(ShellStrategy(st, req, net))
  }

  /** What a handled request may write: at most one entry, keyed by the
      request's own URL, holding the 200 response the network gave to a GET;
      every other entry of every cache is as before (caches may only be
      created). */
  ghost predicate WritesOnlyOkGet(before: Storage, after: Storage, req: Request, net: Request -> Fetched)
  {
    forall n, u :: Lookup(after, n, u) != Lookup(before, n, u) ==>
      && u == req.url && req.verb == Get && net(req).Responded?
      && net(req).response.status == 200 && Lookup(after, n, u) == Some(net(req).response)
  }

  lemma OpenKeepsEntries(st: Storage, name: string)
    ensures forall n, u :: Lookup(Open(st, name), n, u) == Lookup(st, n, u)
  {
    if Find(st.caches, name).None? {
      var r := Open(st, name);
      forall n, u
        ensures Lookup(r, n, u) == Lookup(st, n, u)
      {
        FindAppend(st.caches, Cache(name, map[]), n);
      }
    }
  }

  /** Appending a cache does not move the caches already there. */
  lemma {:induction false} FindAppend(caches: seq<Cache>, c: Cache, name: string)
    ensures Find(caches, name).Some? ==> Find(caches + [c], name) == Find(caches, name)
    ensures Find(caches, name).None? && c.name == name ==> Find(caches + [c], name) == Some(|caches|)
    ensures Find(caches, name).None? && c.name != name ==> Find(caches + [c], name).None?
  {
    if |caches| > 0 {
      assert (caches + [c])[1..] == caches[1..] + [c];
      FindAppend(caches[1..], c, name);
    }
  }

  /** Whatever the route and whatever the network does, the cache writes of
      one handled request are only 200 responses to GETs, stored under the
      request's URL; a bypassed request is not handled at all. */
  lemma FetchWritesOnlyOkGets(st: Storage, req: Request, net: Request -> Fetched)
    ensures var h := HandleFetch(st, req, net);
      h.Some? ==> WritesOnlyOkGet(st, h.value.storage, req, net)
  {
    match Classify(req)
    case Bypass =>
    case ImageRoute => ImageWrites(st, req, net);
    case ApiRoute => ApiWrites(st, req, net);
    case NavigationRoute => ShellWrites(st, req, net);
    case ShellRoute => ShellWrites(st, req, net);
  }

  lemma ImageWrites(st: Storage, req: Request, net: Request -> Fetched)
    ensures WritesOnlyOkGet(st, ImageStrategy(st, req, net).storage, req, net)
  {
    OpenKeepsEntries(st, ImageCacheName);
    OpenKeepsEntries(Open(st, ImageCacheName), ImageCacheName);
  }

  lemma ApiWrites(st: Storage, req: Request, net: Request -> Fetched)
    ensures WritesOnlyOkGet(st, ApiStrategy(st, req, net).storage, req, net)
  {
    OpenKeepsEntries(st, ApiCacheName);
    OpenKeepsEntries(Open(st, ApiCacheName), ApiCacheName);
  }

  lemma ShellWrites(st: Storage, req: Request, net: Request -> Fetched)
    ensures WritesOnlyOkGet(st, ShellStrategy(st, req, net).storage, req, net)
  {
    OpenKeepsEntries(st, CacheName);
  }

  // ---------------------------------------------------------------------------
  // Install and activate

  /** `cache.add(url)` succeeds when the fetch responds with an ok status. */
  predicate AddSucceeds(net: Request -> Fetched, url: string)
  {
    net(GetRequest(url)).Responded? && IsOk(net(GetRequest(url)).response)
  }

  /** The install handler: each URL is added on its own and a failing one is
      only logged, so installation always completes. Afterwards every URL
      whose fetch succeeded is in the shell cache with its response, and
      every other entry is as it was. */
  method Install(st: Storage, urls: seq<string>, net: Request -> Fetched) returns (r: Storage)
    ensures Find(r.caches, CacheName).Some?
    ensures forall u :: u in urls && AddSucceeds(net, u) ==> Lookup(r, CacheName, u) == Some(net(GetRequest(u)).response)
    ensures forall n, u :: (n != CacheName || u !in urls || !AddSucceeds(net, u)) ==> Lookup(r, n, u) == Lookup(st, n, u)
  {
    OpenKeepsEntries(st, CacheName);
    r := Open(st, CacheName);
    var i := 0;
    while i < |urls|
      invariant 0 <= i <= |urls|
      invariant InstalledSoFar(st, r, urls[..i], net)
    {
      var url := urls[i];
      AddOne(st, r, urls[..i], url, net);
      if AddSucceeds(net, url) {
        r := PutIn(r, CacheName, GetRequest(url), net(GetRequest(url)).response);
      }
      assert urls[..i + 1] == urls[..i] + [url];
      i := i + 1;
    }
    assert urls[..i] == urls;
  }

  /** The install loop's state after adding the URLs in `done`. */
  ghost predicate InstalledSoFar(st: Storage, r: Storage, done: seq<string>, net: Request -> Fetched)
  {
    && Find(r.caches, CacheName).Some?
    && (forall u :: u in done && AddSucceeds(net, u) ==> Lookup(r, CacheName, u) == Some(net(GetRequest(u)).response))
    && (forall n, u :: (n != CacheName || u !in done || !AddSucceeds(net, u)) ==> Lookup(r, n, u) == Lookup(st, n, u))
  }

  /** One `cache.add` of the install loop. */
  lemma AddOne(st: Storage, r: Storage, done: seq<string>, url: string, net: Request -> Fetched)
    requires InstalledSoFar(st, r, done, net)
    ensures InstalledSoFar(st, if AddSucceeds(net, url) then PutIn(r, CacheName, GetRequest(url), net(GetRequest(url)).response) else r, done + [url], net)
  {
    if AddSucceeds(net, url) {
      assert Open(r, CacheName) == r;
    }
  }

  const CurrentCaches: set<string> := {CacheName, ApiCacheName, ImageCacheName}

  function Names(st: Storage): set<string>
  {
    set k | 0 <= k < |st.caches| :: st.caches[k].name
  }

  predicate IsCurrent(c: Cache)
  {
    c.name in CurrentCaches
  }

  /** The activate handler: every cache whose name is not current is
      deleted; the survivors keep their contents and order. */
  function Activate(st: Storage): (r: Storage)
    ensures Names(r) == Names(st) * CurrentCaches
    ensures forall k :: 0 <= k < |r.caches| ==> r.caches[k] in st.caches
  {
    var r := Storage(Filter(st.caches, IsCurrent));
    FilterKeepsEvery(st.caches, IsCurrent);
    assert forall k :: 0 <= k < |r.caches| ==> r.caches[k].name in Names(st);
    assert forall n :: n in Names(st) && n in CurrentCaches ==> n in Names(r);
    r
  }
}
