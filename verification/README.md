# PWA storefront core, modelled in Dafny

This project models the core of a progressive-web-app storefront:

- an Express/MySQL server with routes for the cart, orders, reviews, saved addresses, administration and the product catalogue;
- the client's service worker, which holds the request cache, the install/activate life cycle and the background sync meant to drain the offline cart queue;
- the React cart context;
- the checkout, product-listing, order-detail and restock screens, as far as they compute something.

Every route is a pure transition on an in-memory database (`Store.Db`): it takes a request and returns `Step(result, db)`. `result` is the JSON reply, or an `HttpError` carrying the status and message the route sends. `db` is the database after the route's writes. A route that answers with an error leaves the database as it found it, as the source's early returns and the order route's rollback do.

The browser side is modelled the same way:

- The network is a function from request to reply or failure.
- The offline queue is a sequence keyed by an auto-increment counter.
- The cache storage is a sequence of named caches.
- A UI action is a transition on the context state, the queue and the server.

Modules:

- `Common`: `Option`/`Result`, HTTP errors, sequence filtering and sums, JavaScript's `trim()` over its white-space class, and the length validator.js's `isLength` measures.
- `Store`: rows and tables.
- `Pagination`: the page/limit arithmetic shared by every listing.
- `SqlText`: counting `?` placeholders.
- `JsNumbers`: JavaScript's `parseInt` and number-to-string.
- `AuthMiddleware`: how the authentication middleware reads the bearer token and which 401 it sends when the token identifies no one.
- Server routes, one module per route file: `CartRoutes`, `OrderRoutes`, `ReviewRoutes`, `UserRoutes`, `AdminRoutes`, `ProductRoutes`.
- Browser: `OfflineQueue` (the IndexedDB queue and its drain), `ServiceWorker` (`sw.js`), `CartContext`, `Checkout`, `ProductsPage`, `OrderDetail`, `Restock`.

## Model

| member | source | states |
|---|---|---|
| Store.ParseStatus | server/routes/admin.js:147 | exactly the five status names are accepted; an accepted name is the status's own name and any other string names no status |
| Store.StatusNameRoundTrip | server/routes/admin.js:147 | every order status is accepted back under its own name |
| Pagination.CeilDiv | server/routes/products.js:102 | the page count covers all rows and its last page is not empty |
| Pagination.Paginate | server/routes/products.js:11-13 | 0 and NaN fall back to page 1 and the default limit. The reply is an error (500) exactly when page or limit ends up below 1. The offset skips the earlier pages. The page count covers the total and is 0 exactly when there are no rows |
| Pagination.PageRows | server/routes/products.js:52 | a page holds at most `limit` rows, each the row `offset + k` of the full listing |
| Pagination.RowOnItsPage | server/routes/products.js:11-13 | every row of a listing appears on exactly the page `i / limit + 1`, and that page is within the page count |
| CartRoutes.ActiveLines | server/routes/cart.js:11-23 | the lines shown are exactly the user's cart rows whose product is still active |
| CartRoutes.ActiveLinesUnique | server/routes/cart.js:69-92 | when the cart holds one row per (user, product), a product appears at most once among a user's lines |
| CartRoutes.View | server/routes/cart.js:9-36 | the reply lists the active lines newest first; `count` is their number and `total` the sum of quantity times price |
| CartRoutes.FindRow | server/routes/cart.js:69-72 | finds the user's row for the product when there is one, and otherwise proves there is none |
| CartRoutes.Add | server/routes/cart.js:39-99 | bad ids or quantities are rejected; a missing or inactive product is 404; a quantity above the stock is refused with "Insufficient stock" whatever the cart holds; a success needs an available product and a positive quantity; every failure leaves the tables unchanged |
| CartRoutes.AddMerges | server/routes/cart.js:39-92 | on a well-formed cart the add succeeds exactly when the product is available, the quantity is positive and the merged quantity stays within the stock; the cart stays well-formed, every quantity at least 1 included. A successful add raises the user's quantity of that product by exactly the amount added, never past the stock, adding at most one row and touching no other (user, product) pair; it fails with "Insufficient stock" exactly when the merged quantity would exceed the stock |
| CartRoutes.OwnedRow | server/routes/cart.js:116-125 | finds the row with that id belonging to the user, or proves none exists |
| CartRoutes.Update | server/routes/cart.js:102-141 | succeeds exactly for a positive quantity on the user's own row within the product's stock; then only that row's quantity changes, and a 404 or 400 otherwise leaves the tables unchanged |
| CartRoutes.UpdateIdempotent | server/routes/cart.js:131-134 | repeating a quantity update gives the same reply and the same tables |
| CartRoutes.Remove | server/routes/cart.js:144-162 | fails with 404 exactly when the user owns no row with that id; otherwise removes exactly the user's rows with that id and keeps every other row |
| CartRoutes.ClearRows | server/routes/cart.js:167 | keeps exactly the rows of other users |
| CartRoutes.Clear | server/routes/cart.js:165-173 | always succeeds, and changes only the cart table |
| CartRoutes.ClearIdempotent | server/routes/cart.js:165-173 | clearing twice is clearing once |
| CartRoutes.CartMutationsPreserveWellFormed | server/routes/cart.js:102-173 | update, remove and clear keep row ids unique, keep (user, product) pairs unique and keep ids below the counter |
| OrderRoutes.FirstShort | server/routes/orders.js:74-81 | finds the first cart line whose quantity exceeds its product's stock, or proves every line fits |
| OrderRoutes.Commit | server/routes/orders.js:23-142 | the checks come in the route's order: missing address, missing required fields, empty cart, short stock. The commit succeeds exactly when all pass and the write does not fail. Any failure rolls back to the unchanged database. A success replies "pending" with the cart's total |
| OrderRoutes.CommitNamesFirstShort | server/routes/orders.js:74-81 | a short line rejects the order naming the first short product, with nothing written |
| OrderRoutes.CommitSuccess | server/routes/orders.js:88-124 | a commit stores the order under a fresh id with status "processing". It appends one item per line, at the price at commit time, whose amounts sum to the total, and it clears the user's whole cart. Nothing else changes |
| OrderRoutes.WrittenItems | server/routes/orders.js:107-113 | the item rows written are the cart lines in order, and their amounts add up to the cart total |
| OrderRoutes.DecrementEffect | server/routes/orders.js:114-118 | the stock decrement keeps the product set and lowers each product by the quantity ordered across the lines |
| OrderRoutes.CommitStock | server/routes/orders.js:107-119 | when the cart holds one row per (user, product), each ordered product loses exactly its line's quantity, every other product is untouched, and no stock goes negative |
| OrderRoutes.DecrementUniqueLines | server/routes/orders.js:114-118 | with one line per product and each line within its stock, the decrement leaves every stock non-negative |
| OrderRoutes.CommitPreservesInvariants | server/routes/orders.js:23-142 | a commit keeps the cart well-formed and every order id below the id counter |
| OrderRoutes.DuplicateRowsOversell | server/routes/orders.js:74-81 | the decrement is unconditional: a cart holding two rows of a product with stock 1 commits and leaves the stock at -1, so the non-negative stock rests on the cart's one-row-per-product shape |
| ReviewRoutes.Stored | server/routes/reviews.js:120 | a title or comment is stored trimmed of JavaScript white space when something is left, and as null otherwise |
| ReviewRoutes.Create | server/routes/reviews.js:66-129 | the checks come in the route's order: validation (a rating in 1..5, and a trimmed title of at most 255 as `isLength` counts, variation selectors not counted), product active (404), already reviewed (400), purchased (403). A review is added exactly when all pass, as a verified purchase with the next id; every failure writes nothing |
| ReviewRoutes.OwnedReview | server/routes/reviews.js:148-155 | finds the user's review with that id, or proves none exists |
| ReviewRoutes.Update | server/routes/reviews.js:132-171 | succeeds exactly for a valid body (a rating in 1..5, and a trimmed title of at most 255 as `isLength` counts, variation selectors not counted) on the user's own review; only that review's rating, title, comment and images change |
| ReviewRoutes.Delete | server/routes/reviews.js:174-192 | fails with 404 exactly when the user owns no review with that id; otherwise removes exactly that review |
| ReviewRoutes.CreatePreservesWellFormed | server/routes/reviews.js:91-122 | adding reviews keeps ids unique and at most one review per user and product |
| ReviewRoutes.UpdateDeletePreserveWellFormed | server/routes/reviews.js:132-192 | editing and deleting keep ids unique and one review per user and product |
| ReviewRoutes.CreateOnlyOnce | server/routes/reviews.js:91-99 | after a successful review, any further valid review of the same product by the same user is refused with "already reviewed" and writes nothing |
| ReviewRoutes.CommitEnablesReview | server/routes/reviews.js:102-114 | every product of a committed order counts as purchased for review, since the order is stored as processing |
| ReviewRoutes.UnpaidOrdersDoNotQualify | server/routes/reviews.js:102-114 | a user whose orders are all pending or cancelled is refused with 403 |
| ReviewRoutes.DisplayName | server/routes/reviews.js:49 | the display name is the first name, a space, the last name's initial if any, and a full stop |
| ReviewRoutes.ProductReviews | server/routes/reviews.js:9-33 | the reply is an error (500) exactly when page or limit ends up below 1. Otherwise the page holds the rows `offset` to `offset + limit` of the product's reviews newest first, and the total counts all of them |
| ReviewRoutes.ReviewOnItsPage | server/routes/reviews.js:12-26 | every review of the product appears on page `i / limit + 1` of its listing, and that page is within the page count |
| UserRoutes.ParseKind | server/routes/users.js:65 | only "shipping" and "billing" are address types |
| UserRoutes.Clean | server/routes/users.js:66-72 | fields are trimmed of JavaScript white space; validated fields are then non-empty, and a second line with nothing left is stored as null |
| UserRoutes.Undefault | server/routes/users.js:88-91 | clears the default flag of exactly the user's addresses of that type and changes nothing else |
| UserRoutes.Add | server/routes/users.js:63-112 | succeeds exactly for a known type and required fields that each keep, after JavaScript trimming, a character `isLength` counts (not a variation selector), appending one row with the next id; a failure writes nothing |
| UserRoutes.AddDefaultRule | server/routes/users.js:86-102 | a new default address becomes the only default of its type for that user and leaves other users' and types' rows alone; a non-default add leaves every existing row untouched |
| UserRoutes.EditRow | server/routes/users.js:148-165 | the edited row takes the new fields; every other row keeps its key and can only lose its default flag |
| UserRoutes.Update | server/routes/users.js:115-172 | succeeds exactly for valid fields (each keeps, after JavaScript trimming, a character that is not a variation selector) on the user's own address. The edited row takes the new fields and keeps its type. Other rows change at most by losing their default flag. A 404 writes nothing |
| UserRoutes.FirstOwned | server/routes/users.js:139-146 | locates the user's address with that id |
| UserRoutes.Delete | server/routes/users.js:175-193 | fails with 404 exactly when the user owns no address with that id; otherwise removes exactly that address |
| UserRoutes.AddPreservesWellFormed | server/routes/users.js:86-102 | adding keeps ids unique and at most one default per user and type |
| UserRoutes.AppendKeepsWellFormed | server/routes/users.js:94-102 | appending a fresh row after unsetting that user's and type's defaults keeps ids unique and defaults single |
| UserRoutes.UpdatePreservesWellFormed | server/routes/users.js:148-165 | editing keeps ids unique and at most one default per user and type |
| UserRoutes.DeletePreservesWellFormed | server/routes/users.js:179-182 | deleting keeps ids unique and at most one default per user and type |
| Common.TrimStart | server/routes/reviews.js:120 | the result is a suffix of the input that does not start with white space |
| Common.TrimStartCutsSpace | server/routes/reviews.js:120 | what `TrimStart` cuts off is all white space, so exactly the leading run is removed |
| Common.TrimEnd | server/routes/reviews.js:120 | the result is a prefix of the input that does not end with white space |
| Common.TrimEndCutsSpace | server/routes/reviews.js:120 | what `TrimEnd` cuts off is all white space, so exactly the trailing run is removed |
| Common.Trim | server/routes/reviews.js:120 | JavaScript's white space, Unicode spaces and line terminators included, is cut from both ends, so neither end of the result is white space |
| Common.TrimIdempotent | server/routes/users.js:66-72 | trimming a trimmed value changes nothing |
| Common.IsLengthCountsNonSelectors | server/routes/users.js:66-72 | the `isLength` measure of a string is the number of its characters that are not variation selectors |
| Common.IsLengthZero | server/routes/users.js:66-72 | the measure is 0 exactly when every character is a variation selector |
| Common.IsLengthAppend | server/routes/reviews.js:70 | appending a variation selector leaves the measure unchanged, and any other character adds one |
| UserRoutes.FilledIff | server/routes/users.js:66-72 | a required field passes `trim().isLength({ min: 1 })` exactly when its trimmed value holds a character other than a variation selector |
| ReviewRoutes.SelectorsNotCountedInTitle | server/routes/reviews.js:70 | a title of 255 letters and U+FE0F, 256 characters long, still passes `isLength({ max: 255 })` |
| UserRoutes.Defaults | server/routes/users.js:50 | the first block of the listing holds only the user's default addresses |
| UserRoutes.Others | server/routes/users.js:50 | the second block holds only the user's other addresses |
| UserRoutes.List | server/routes/users.js:46-60 | the listing holds only the user's addresses, defaults before the rest |
| UserRoutes.ListNewestFirst | server/routes/users.js:50 | within each block the newest address comes first: of two listed rows with the same default flag, the one listed later sits earlier in the table |
| UserRoutes.ListComplete | server/routes/users.js:49-52 | every address of the user appears in the listing |
| AdminRoutes.ContainsOccurs | server/routes/admin.js:17 | `includes` holds exactly when the text occurs at some position |
| AdminRoutes.AdminAuth | server/routes/admin.js:9-27 | admits exactly a known user whose e-mail contains "admin", and otherwise answers 403 "Admin access required" |
| AdminRoutes.AdminAuthIffAdminEmail | server/routes/admin.js:17 | admission is the presence of "admin" somewhere in the e-mail |
| AdminRoutes.UpdateOrderStatus | server/routes/admin.js:144-180 | succeeds exactly for an admin, a known status name and an existing order. Only that order changes: its status is set, and the tracking number is replaced only when a non-empty one is given |
| AdminRoutes.AnyStatusFromAny | server/routes/admin.js:144-180 | any order can be moved to any status from any status, and repeating the move changes nothing |
| AdminRoutes.DeleteProduct | server/routes/admin.js:329-363 | a product with order history is only deactivated, whether or not it exists. Without history an existing product is deleted, and a missing one gets 404. No other product changes |
| AdminRoutes.DeleteKeepsOrderHistory | server/routes/admin.js:333-346 | deletion never removes a product that an order item refers to |
| AdminRoutes.Toggle | server/routes/admin.js:366-384 | succeeds exactly for an admin and an existing product, and flips only that product's active flag |
| AdminRoutes.ToggleTwice | server/routes/admin.js:366-384 | toggling twice restores the database |
| AdminRoutes.OrderFilter | server/routes/admin.js:93-105 | the status adds one parameter, the search four copies of the pattern, and the WHERE clause is empty exactly when neither is given |
| AdminRoutes.OrderFilterPlaceholders | server/routes/admin.js:93-105 | the WHERE clause has exactly one `?` per parameter pushed |
| AdminRoutes.OrderListPage | server/routes/admin.js:87-91 | the admin order listing defaults to page 1 of 20 |
| ProductRoutes.SafeSortBy | server/routes/products.js:36-39 | a known column name is kept; anything else becomes created_at |
| ProductRoutes.SafeSortOrder | server/routes/products.js:37-40 | "asc" and "desc" are kept; anything else becomes desc |
| ProductRoutes.SortRoundTrip | server/routes/products.js:36-40 | every column and direction survives the whitelist |
| ProductRoutes.OrderBy | server/routes/products.js:51 | the ORDER BY clause always names a whitelisted column and direction, whatever the query string holds |
| ProductRoutes.ListFilter | server/routes/products.js:19-33 | the active-only condition always comes first; a search adds its pattern twice, and a category adds what `parseInt` reads from it (a `0x` value in hexadecimal, NaN when nothing is read) |
| ProductRoutes.ListFilterPlaceholders | server/routes/products.js:19-33 | the WHERE clause has exactly one `?` per parameter pushed |
| ProductRoutes.ListPage | server/routes/products.js:11-13 | the product listing defaults to page 1 of 12 |
| ProductRoutes.GroupOf | server/routes/products.js:73-81 | a product's rating count is its number of reviews, and count times average is the sum of their ratings |
| ProductRoutes.RatingGroups | server/routes/products.js:67-89 | a rating group exists exactly for the listed products that have reviews |
| ProductRoutes.RatingsMatchReviews | server/routes/products.js:91-97 | each listed product shows its review count and average, and a product without reviews shows 0 and 0 |
| ProductRoutes.Get | server/routes/products.js:112-142 | an active product is returned with ratings 0 and 0; anything else is 404 |
| ProductRoutes.NullIfBlank | server/routes/products.js:215 | a description or image URL is stored trimmed of JavaScript white space when something is left, and as null otherwise |
| ProductRoutes.Create | server/routes/products.js:174-225 | the checks come in the route's order: validation, admin (403), category (400). On success an active product with the name trimmed of JavaScript white space and the given price, stock and category is added under the next id; every failure writes nothing |
| ProductRoutes.CreateThenGet | server/routes/products.js:212-219 | a created product is found by the single-product route, and no existing product changes |
| ProductRoutes.Columns | server/routes/products.js:279-305 | the SET list holds exactly the columns present in the body |
| ProductRoutes.ColumnsEmpty | server/routes/products.js:307-309 | the SET list is empty exactly when the body names no column |
| ProductRoutes.Patched | server/routes/products.js:282-305 | every column absent from the body keeps its value, and the active flag is never touched |
| ProductRoutes.Update | server/routes/products.js:228-324 | the checks come in the route's order: validation, admin, product exists, category, at least one column. On success only that product is patched; every failure writes nothing |
| ProductRoutes.UpdateChangesOnlyListedColumns | server/routes/products.js:279-317 | an update changes only the listed columns of the one product, and repeating it changes nothing more |
| SqlText.PlaceholdersConcat | server/routes/admin.js:102 | the `?` count of concatenated SQL is the sum of the parts' counts |
| JsNumbers.ParseIntNeedsDigit | client/src/components/RestockModal.js:33 | a number is read only when the text holds a digit, and never when its first non-white-space character is neither a digit nor a sign |
| JsNumbers.ParseTrimmed | client/src/components/RestockModal.js:33 | after the white space and an optional sign, a number is read exactly when a decimal digit follows, or, after a `0x`/`0X` prefix, a hexadecimal digit |
| JsNumbers.ParseHexDigits | client/src/components/RestockModal.js:33 | `0x` and a run of hexadecimal digits reads as their hexadecimal value |
| JsNumbers.HexPrefixAlone | client/src/components/RestockModal.js:33 | a `0x`/`0X` prefix with no hexadecimal digit after it reads as NaN, not 0 |
| JsNumbers.ParseIntRoundTrip | client/src/pages/Products.js:16 | `parseInt` reads back every non-negative number the page writes |
| JsNumbers.IntToStringRoundTrip | client/src/pages/Products.js:16 | `parseInt` reads back every integer written in decimal, negative ones included |
| OfflineQueue.Enqueue | client/src/contexts/CartContext.js:140-157 | a queued operation is appended under the next auto-increment key, and the earlier operations stay as they were |
| OfflineQueue.EnqueueKeepsKeyOrder | client/src/contexts/CartContext.js:157 | queued keys stay strictly increasing and below the next key |
| OfflineQueue.Drain | client/public/sw.js:207-223 | the replay loop over the stored records as intended: every queued operation is sent once, in key order, and exactly the undelivered ones remain queued, still in order |
| OfflineQueue.DrainKeepsKeyOrder | client/public/sw.js:215-220 | what remains after the intended drain is still in increasing key order |
| OfflineQueue.OnSync | client/public/sw.js:193-227 | the sync handler as intended, with the records read: only the "cart-sync" tag drains, and only when the database opens; an empty queue sends nothing, so draining it again is a no-op |
| OfflineQueue.SyncAsWritten | client/public/sw.js:200-227 | as written, every sync sends nothing and leaves the queue as it is: the loop runs over the awaited `IDBRequest`, throws, and the error is only logged |
| OfflineQueue.SyncAsWrittenKeepsDeliverable | client/public/sw.js:205-207 | a queued record the server would accept stays queued and unsent after the sync as written, while the intended drain removes it |
| ServiceWorker.Find | client/public/sw.js:23 | finds the first cache with that name, or proves none exists |
| ServiceWorker.Open | client/public/sw.js:53 | opening a cache creates it empty when missing and otherwise changes nothing |
| ServiceWorker.MatchIn | client/public/sw.js:54 | only GET requests are ever answered from a cache |
| ServiceWorker.FirstHolding | client/public/sw.js:112 | a cached answer exists exactly when some cache holds the URL |
| ServiceWorker.MatchAny | client/public/sw.js:112 | a request other than GET never matches |
| ServiceWorker.PutIn | client/public/sw.js:60 | storing a GET reply makes it the cached answer for that URL and changes no other entry; other requests store nothing |
| ServiceWorker.Classify | client/public/sw.js:46-77 | requests other than http(s) are left to the browser; images (by destination or extension) come before API paths, and API paths before navigations |
| ServiceWorker.ImageBeforeApi | client/public/sw.js:51-77 | an image under /api/ is served by the image strategy, not the API one |
| ServiceWorker.ImageStrategy | client/public/sw.js:53-70 | cache first. On a miss the network is asked, and only a 200 reply is cached. A failure is answered with the placeholder image |
| ServiceWorker.ApiStrategy | client/public/sw.js:79-104 | network first, caching only 200 replies to GET. When the network fails the cached reply is served, or a 503 offline body when there is none |
| ServiceWorker.NavigationFallback | client/public/sw.js:121-136 | a navigation miss serves the cached shell, else the network's "/", else the offline page, else a 503; nothing is cached |
| ServiceWorker.ShellStrategy | client/public/sw.js:111-163 | cache first across all caches. A miss on a non-navigation request goes to the network and caches 200 replies. A network failure answers 408 |
| ServiceWorker.HandleFetch | client/public/sw.js:41-166 | each request class is handled by its own strategy, and non-http requests are not handled |
| ServiceWorker.OpenKeepsEntries | client/public/sw.js:53 | opening a cache never changes what any cache answers |
| ServiceWorker.FindAppend | client/public/sw.js:23 | creating a missing cache at the end does not move existing ones |
| ServiceWorker.FetchWritesOnlyOkGets | client/public/sw.js:41-166 | a fetch changes the cache only by storing a 200 reply to a GET under its own URL |
| ServiceWorker.Install | client/public/sw.js:18-38 | the shell cache exists afterwards, every shell URL that loaded is cached with its reply, and a URL that failed leaves the cache as it was |
| ServiceWorker.Activate | client/public/sw.js:169-183 | exactly the caches not named by the current version are deleted; the survivors are unchanged |
| CartContext.Reduce | client/src/contexts/CartContext.js:15-32 | SET_LOADING sets only the flag, SET_CART shows the server's cart and ends loading, CLEAR_CART resets, and any other action changes nothing |
| CartContext.ClearAbsorbs | client/src/contexts/CartContext.js:27-28 | clearing erases the effect of whatever came before |
| CartContext.SetCartForgets | client/src/contexts/CartContext.js:19-26 | showing a cart forgets the previous cart and is idempotent |
| CartContext.FailureMessage | client/src/contexts/CartContext.js:77 | the server's non-empty message is shown, and otherwise the action's own fallback |
| CartContext.Bearer | client/src/contexts/CartContext.js:151 | the authorization header carries the token after "Bearer " |
| CartContext.QueueOperation | client/src/contexts/CartContext.js:140-166 | when the store works the request is queued with JSON type and the bearer token, and a sync is registered where supported. Otherwise nothing changes. The cart and server are never touched |
| CartContext.LoadCart | client/src/contexts/CartContext.js:47-56 | a reachable server's cart view replaces the state, and the service worker caches it. When the server is out of reach, the worker's cached view is shown; without one (or without the worker) only loading ends |
| CartContext.Online | client/src/contexts/CartContext.js:70-80 | an action succeeds exactly when the server accepts it. Success reloads the cart from the new server state. Failure keeps everything and reports the message |
| CartContext.AddToCart | client/src/contexts/CartContext.js:58-81 | a signed-out add does nothing. An offline add is queued as POST /api/cart/add, and an online add goes to the route. An unanswered add changes nothing and reports the worker's offline message, or the fallback without the worker |
| CartContext.UpdateCartItem | client/src/contexts/CartContext.js:83-99 | offline updates are queued as PUT to the row's URL. Online, signed-in updates go to the route, and signed-out ones get the middleware's 401 message and change nothing. An unanswered update reports the worker's offline message or the fallback |
| CartContext.RemoveFromCart | client/src/contexts/CartContext.js:101-118 | offline removals are queued as DELETE to the row's URL. Online, signed-in removals go to the route, and signed-out ones get the middleware's 401 message and change nothing. An unanswered removal reports the worker's offline message or the fallback |
| CartContext.ClearCartAction | client/src/contexts/CartContext.js:120-137 | an offline clear is queued. An online signed-in clear empties the user's server cart and the local state without reloading. A signed-out one gets the middleware's 401 message. An unanswered one changes nothing and reports the worker's offline message or the fallback |
| AuthMiddleware.IndexFrom | server/middleware/auth.js:6 | the first position at or after the start where the pattern occurs, or none when it occurs nowhere after it |
| AuthMiddleware.RemoveFirst | server/middleware/auth.js:6 | `replace` with a string pattern removes the first occurrence: a leading match is cut off, and a string without the pattern is returned unchanged |
| AuthMiddleware.Normalize | server/middleware/auth.js:6 | the header value as the server receives it has no HTTP white space at either end |
| AuthMiddleware.Refusal | server/middleware/auth.js:4-36 | a request whose token identifies no user gets a 401: "No token, authorization denied" exactly when the header is absent or presents an empty token, and "Token is not valid" otherwise |
| AuthMiddleware.BearerHeaderPresentsToken | server/middleware/auth.js:6-9 | a normalised header made of `Bearer ` and any token never presents an empty token, so the "No token" branch is not taken |
| CartContext.Refusal | server/middleware/auth.js:4-36 | a signed-out page's request, sent with `Bearer ` and any token, is refused with a 401 that always says "Token is not valid", as the middleware answers the normalised header |
| CartContext.SignedOutWriteRefused | server/middleware/auth.js:6-21 | online but signed out, no cart write changes anything. Adding calls no API; an update, removal or clear is refused with "Token is not valid" |
| CartContext.UnreachableWriteReported | client/public/sw.js:88-102 | a write the server never answers changes nothing. It reports the worker's "Offline - No cached data available" when the worker controls the page, and the action's fallback otherwise |
| CartContext.WorkerAnswersUnreachableWrite | client/public/sw.js:77-104 | the service worker answers an unanswered non-GET `/api/` request with the 503 offline body, whatever its caches hold |
| CartContext.WorkerAnswersUnreachableRead | client/public/sw.js:88-102 | the service worker answers an unanswered GET to `/api/` from the API cache when it holds the URL, and with the 503 offline body otherwise |
| CartContext.CachedCartCrossesUsers | client/public/sw.js:79-93 | the cached `/api/cart` reply is keyed by URL alone: after one user's load under the worker and a sign-out, another user signing in while the server is out of reach sees the first user's cart |
| CartContext.AuthChanged | client/src/contexts/CartContext.js:39-45 | signing in with a token loads the cart; otherwise the cart state is reset |
| CartContext.OfflineQueuesOne | client/src/contexts/CartContext.js:58-137 | offline, an add by a signed-in user and every update, remove or clear, signed in or not, report success without calling the server and queue exactly one request at the end of the queue |
| CartContext.SignedOutAddDoesNothing | client/src/contexts/CartContext.js:59-62 | a signed-out add fails without calling the server or changing anything |
| CartContext.ActionsKeepKeyOrder | client/src/contexts/CartContext.js:140-157 | no cart action breaks the queue's key order |
| CartContext.OfflineRegistersSync | client/src/contexts/CartContext.js:160-163 | an offline action that queues registers exactly one "cart-sync", the tag the service worker listens for, where sync is supported |
| CartContext.OnlineFailureChangesNothing | client/src/contexts/CartContext.js:76-79 | a failed online action leaves the state, queue and server unchanged |
| CartContext.OnlineSuccessShowsServerCart | client/src/contexts/CartContext.js:72-75 | after a successful online add, update or remove the state shows exactly the server's new cart |
| CartContext.QueuedUrlNamesRow | client/src/contexts/CartContext.js:86-104 | a queued update or removal URL names the right cart row |
| Checkout.Or | client/src/pages/Checkout.js:132-139 | `a \|\| b` on strings: the first when non-empty, empty only when both are |
| Checkout.FindIndex | client/src/pages/Checkout.js:50-52 | finds the first address satisfying the test, or proves none does |
| Checkout.PrefillSource | client/src/pages/Checkout.js:50-52 | the form is filled from a default shipping address when there is one, else from the first shipping address, else from none |
| Checkout.Prefill | client/src/pages/Checkout.js:48-82 | once addresses, user and auth have loaded, the form is filled from the chosen address or the profile, with billing the same as shipping |
| Checkout.ShippingOf | client/src/pages/Checkout.js:120-129 | the shipping object carries the form's shipping fields, with the country defaulting to United States |
| Checkout.BillingOf | client/src/pages/Checkout.js:131-140 | billing is null exactly when the box is ticked; otherwise each field falls back to its shipping value |
| Checkout.BlankBillingIsShipping | client/src/pages/Checkout.js:131-140 | a separate but blank billing address equals the shipping one |
| Checkout.ClientCheckMatchesServer | client/src/pages/Checkout.js:111 | the page's required-field check passes exactly when the server's does on the shipping address sent, and a billing address then passes too |
| Checkout.CheckoutFailure | client/src/pages/Checkout.js:156 | the toast shows the server's message when there is one, else the client's, and is never empty |
| Checkout.Submit | client/src/pages/Checkout.js:106-161 | an incomplete form sends nothing. An unanswered post fails with the service worker's offline message, or with "Network Error" without the worker. A signed-out post fails with the middleware's 401 message, and a failure changes nothing |
| Checkout.SubmitPlacesOrder | client/src/pages/Checkout.js:144-151 | an order is placed exactly when the form is complete, the page is signed in, the server is reached and the commit succeeds. The stored order carries the shipping and billing objects built from the form. Online, the cart is emptied |
| ProductsPage.KeyNamesDistinct | client/src/pages/Products.js:11-17 | the five filter names are distinct |
| ProductsPage.Get | client/src/pages/Products.js:12 | `params.get` finds nothing exactly when no pair has that name |
| ProductsPage.GetConcat | client/src/pages/Products.js:38-42 | a name is found in the first part of a query string before the second |
| ProductsPage.ValueOr | client/src/pages/Products.js:12-15 | an absent or empty value takes the default |
| ProductsPage.InitialFilters | client/src/pages/Products.js:11-17 | sort fields are never empty, the page is never 0, and a missing page or one `parseInt` cannot read (hexadecimal `0x` values are read) is 1 |
| ProductsPage.RenderGet | client/src/pages/Products.js:38-42 | reading the written query string by name finds the field of that name |
| ProductsPage.LookupFields | client/src/pages/Products.js:38-42 | each filter is found under its own name, exactly when it is written |
| ProductsPage.UrlParamsContent | client/src/pages/Products.js:36-44 | the URL holds each non-empty filter and the page unless it is 1 |
| ProductsPage.UrlRoundTrip | client/src/pages/Products.js:11-44 | reloading from the URL the page wrote restores the filters |
| ProductsPage.FilterChange | client/src/pages/Products.js:46-52 | a filter change sets that one filter and returns to page 1 |
| ProductsPage.PageChange | client/src/pages/Products.js:54-57 | a page change moves only the page |
| ProductsPage.FilterChangeDropsPageFromUrl | client/src/pages/Products.js:39-51 | after a filter change the URL carries no page |
| ProductsPage.ApiPageReachesServer | client/src/pages/Products.js:27-31 | the listing request makes the server paginate at the page shown, 12 per page |
| ProductsPage.ApiPageParam | client/src/pages/Products.js:28-30 | the listing request carries every non-zero page, page 1 included |
| ProductsPage.Range | client/src/pages/Products.js:222 | the buttons are drawn from the pages 1 to `pages` in order |
| ProductsPage.PageWindow | client/src/pages/Products.js:222-227 | the buttons drawn are, in increasing order, exactly the first and last pages and those within two of the current one |
| ProductsPage.ClicksStayInRange | client/src/pages/Products.js:214-246 | from a page in range, every enabled control lands on a page in range and changes only the page |
| OrderDetail.Events | client/src/pages/OrderDetail.js:91-122 | the five milestones in order, each completed according to the status |
| OrderDetail.FirstCompleted | client/src/pages/OrderDetail.js:124 | `findIndex` gives the first completed event, or -1 when none is |
| OrderDetail.CompletionIsPrefix | client/src/pages/OrderDetail.js:91-122 | a completed milestone has every earlier one completed |
| OrderDetail.CompletedCountExact | client/src/pages/OrderDetail.js:91-122 | one, two, three or five milestones are completed, by status |
| OrderDetail.TrackingEventsArePrefix | client/src/pages/OrderDetail.js:124 | the timeline drawn is a prefix of the milestones: five when delivered, three when shipped, two otherwise |
| OrderDetail.CanReview | client/src/pages/OrderDetail.js:335 | review controls appear exactly on delivered orders |
| OrderDetail.ReviewableMeansFullyTracked | client/src/pages/OrderDetail.js:124-335 | when reviews may be written the whole timeline is drawn and completed |
| Restock.Submit | client/src/components/RestockModal.js:30-41 | a non-numeric or non-positive quantity is refused with "Please enter a valid quantity"; otherwise the new stock is the shown stock plus the quantity |
| Restock.RestockPatch | client/src/components/RestockModal.js:12-15 | the restock request sets only the stock column |
| Restock.Preview | client/src/components/RestockModal.js:183-195 | the preview is drawn only for a non-empty field and shows the shown stock plus what `parseInt` reads |
| Restock.SentMatchesPreview | client/src/components/RestockModal.js:39-40 | what is sent is the stock the preview displayed |
| Restock.RestockSetsAbsoluteStock | client/src/components/RestockModal.js:39-40 | an accepted restock sets the product's stock to exactly the shown stock plus the quantity and changes nothing else, so a stock change on the server since the dialog opened is overwritten |

## Behaviour that follows the code

Where the system's written description and its code disagree, the model follows the code:

- **Order status.** The order route stores a new order with status `processing`, but its reply says `pending` (`OrderRoutes.Commit`, `OrderRoutes.CommitSuccess`).
- **Status changes.** They are not restricted to a forward path: an admin can set any status from any status (`AdminRoutes.AnyStatusFromAny`).
- **Stock decrement.** It is unconditional (`stock = stock - ?`), not a conditional update. Stock stays non-negative only because the stock check runs first and the cart holds one row per product (`OrderRoutes.CommitStock`, `OrderRoutes.DuplicateRowsOversell`).
- **Who changes stock.** Besides order commit and restock, admin product create and update set it too. Restock is itself an absolute update through the product update route.
- **Verified purchase for reviews.** It needs an order in `processing`, `shipped` or `delivered`. An order that is `pending` does not count either, not only a cancelled one.
- **Single-product route.** It always reports ratings 0 and 0.
- **Deleting a product with order history.** The reply is "deactivated" whether or not the product row exists.
- **Navigation offline.** A navigation that misses every cache never reaches the network-failure branch of the general fetch handler (`sw.js` lines 149-157): the navigation branch above it has already returned. That branch is therefore unreachable and is not modelled.

## Left out

- The `timestamp: Date.now()` field of a queued record: it is clock input and nothing reads it back, so `OfflineQueue.QueuedOp` has no such field.
- Authentication (JWT checking, bcrypt, registration and login): a route's caller is a user id given as a parameter. On the client, a signed-out page's cart write or order post gets the middleware's 401 and message (`CartContext.Refusal`). A signed-in page's token is assumed valid. The header value is normalised as `setRequestHeader` does: leading and trailing tab, line feed, carriage return and space are removed.
- Floating-point money, `toFixed`, GST and currency formatting: prices and totals are integers, and rounding is not modelled.
- Order and tracking number generation (time and randomness): the numbers are parameters of `OrderRoutes.Commit`.
- Concurrency, transaction isolation, row locks and lock timeouts: each route is one atomic step. A failing write inside the order transaction is the `writeFails` parameter.
- SQL `LIKE` matching and `ORDER BY` row ordering in listings, apart from the newest-first order of the cart, the product's reviews and the saved addresses: listings are modelled by their filters and pagination. The database engine is not part of this model.
- CartRoutes.View, ReviewRoutes.NewestFirst, UserRoutes.ListNewestFirst: `ORDER BY created_at DESC` is modelled as reverse insertion order. Rows created within the same second tie on `created_at`, and MySQL may return tied rows in any order, so the model assumes ties are broken newest first.
- Foreign-key cascades and `affectedRows` subtleties: a row is found or not found.
- The order listing and single-order routes, the featured list, categories, the dashboard, statistics, admin user and product listings, and the admin clear, populate and test-data endpoints: they only read or seed data.
- The review listing's rating distribution and the "my reviews" route: aggregate reads.
- The Cache API, IndexedDB and `fetch` internals: the network is a deterministic function from request to reply. The cache is a map from URL to reply, and the queue store either works or fails as a whole.
- The unreachable second navigation fallback in `sw.js` (lines 149-157), as explained above.
- React rendering, toasts, react-query caching and the empty-cart checkout screen: only what the screens compute is modelled.
- The HTTP client module `client/src/services/api.js` is not part of this model: requests are assumed to go to the `/api` base with `Bearer ` and the page's token, signed in or not. Its failure messages are taken to be "Request failed with status code N" and "Network Error". "Network Error" is seen only when the service worker does not control the page. Under the worker, an unanswered request gets the worker's reply instead: a cached GET or the 503 offline body.
- Whether the service worker controls the page is the `controlled` parameter. The API cache's `/api/cart` entry is modelled as the cart view of the last load the worker saw succeed (`World.cachedCart`). Other GET replies the cache holds are not modelled on the client side.
- ReviewRoutes.DisplayName: the initial is the last name's first character, a whole code point. JavaScript's `charAt(0)` returns one UTF-16 code unit, so for a last name starting outside the Basic Multilingual Plane the page gets a lone high surrogate. A Dafny `char` is a Unicode scalar value and cannot hold one.
- Strings are sequences of Unicode scalar values, not of UTF-16 code units. The length checks do not depend on this: `Common.IsLengthCount` counts code points as `isLength` does, and discounts U+FE0E and U+FE0F as it does.
- ReviewRoutes.Create: the `images` value is stored as given and its shape is not checked, because the model does not serialise JSON.
- ProductRoutes.GroupOf: the average is stated through count times average instead of as a float, because floating point is left out.
- Pagination.Paginate: a limit or page so large that MySQL rejects it is not modelled as an error.
- JsNumbers.ParseInt: the value read is an unbounded integer; JavaScript's result is a double, which rounds digit runs beyond 2^53 and turns very long ones into `Infinity`, because floating point is left out.
- CartContext.LoadCart: the loading flag is raised and lowered within one step, so the intermediate loading state is not observable.

## Findings

| source | as written | input that shows it | evidently intended | confidence | as-written member | corrected member |
|---|---|---|---|---|---|---|
| client/public/sw.js:202-207 | `openDB()` is the file's raw IndexedDB helper, so `store.getAll()` returns an `IDBRequest`; `await` yields that request, the `for…of` over it throws a TypeError, and the outer `catch` (lines 224-226) only logs it | any queued cart operation the server would accept, on a `cart-sync` event | replay every stored record in key order and delete each one the server accepts | high, not executed | OfflineQueue.SyncAsWritten, OfflineQueue.SyncAsWrittenKeepsDeliverable | OfflineQueue.OnSync |
