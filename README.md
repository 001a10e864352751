# Tenant isolation in Project-Invento, modelled in Dafny

Project-Invento is a multi-tenant inventory vault for pharmaceutical companies.
This project models the part of it that keeps one company's stock records away from
another company, and proves properties of that model.

- **Backend.** The authentication middleware takes the bearer token from the
  `authorization` header and has it verified (the JWT check is an oracle). It then
  binds the verified claims and their `companyId` to the request. The inventory
  controller lists only the rows of that tenant and stamps new rows with it. The router
  puts the middleware in front of both controller actions.
- **Client request set-up.** The Gemini client's `getBaseUrl` and the interceptor that
  adds `Authorization: Bearer <token>` are modelled. So is the Pharminto client's
  `API_BASE`. The bearer header the client builds is proved to round-trip through the
  middleware's token extraction.
- **In-memory vault.** The React component of the Gemini client is a `Vault` object,
  with one method per event handler: login lookup, add, delete, audit log and logout.
  Company scoping and the name search are pure functions over its state.

The JavaScript library behaviour the code relies on is written out in Dafny:
`split`, `indexOf`/`includes`/`endsWith`, `replace` with a string pattern, `toLowerCase`,
`parseInt`, `Array.prototype.filter` and `find`.

Two behaviours of the middleware are worth knowing:
- A token that fails verification (bad signature or expired) is answered 403. Only a
  missing or empty token is answered 401.
- Verified claims without `companyId` are admitted, and `req.tenantId` is then
  undefined. `AuthMiddleware.UnboundTenantAdmitted` states this.

Files: `base.dfy` (Option, filter), `strings.dfy` (JavaScript string functions),
`json.dfy`, `product_store.dfy` (the `Product` table), `http.dfy` (Express request and
response), `auth_middleware.dfy`, `inventory_controller.dfy`, `inventory_routes.dfy`,
`gemini_api.dfy`, `pharminto_api.dfy`, `vault.dfy`.

## Model

| member | source | states |
|---|---|---|
| JsStrings.Split | Gemini/backend/middleware/auth.middleware.js:11 | `split(' ')` gives at least one piece, no piece contains a space, and there are two or more pieces exactly when the text has a space |
| JsStrings.JoinSplit | Gemini/backend/middleware/auth.middleware.js:11 | joining the pieces with the separator gives the original text back |
| JsStrings.SplitJoin | Gemini/backend/middleware/auth.middleware.js:11 | splitting a join of space-free pieces gives those pieces back |
| JsStrings.IndexOf | Gemini/frontend/src/services/api.js:15 | the index found is the first occurrence of the pattern; none is found exactly when the pattern occurs nowhere |
| JsStrings.ReplaceFirst | Gemini/frontend/src/services/api.js:15 | `replace` with a string pattern leaves a text without the pattern unchanged, and otherwise changes the length by the difference between replacement and pattern |
| JsStrings.ReplaceAtFirst | Gemini/frontend/src/services/api.js:15 | the occurrence replaced is the first one, and the text before and after it is kept |
| JsStrings.LaterOccurrenceSurvives | Gemini/frontend/src/services/api.js:15 | a later occurrence that does not overlap the first one is still there after the replacement |
| JsStrings.EndsWithContains | Pharminto/frontend/src/services/api.js:3 | a hostname that ends with a suffix also includes it |
| JsStrings.ToLower | Gemini/frontend/src/app.jsx:249 | `toLowerCase` keeps the length and leaves no capital letter; each character is kept or is a capital replaced by its small letter |
| JsStrings.ToLowerIgnoresCase | Gemini/frontend/src/app.jsx:249 | two strings that differ only in the case of their letters lowercase to the same string |
| JsStrings.ToLowerIdempotent | Gemini/frontend/src/app.jsx:249 | lowercasing twice is lowercasing once |
| JsStrings.TrimStart | Gemini/frontend/src/app.jsx:114 | `parseInt` skips exactly the leading white space and no more |
| JsStrings.ParseDecimal | Gemini/frontend/src/app.jsx:114 | `parseInt` of a decimal numeral is that number when the text after it is empty or does not start with a digit, nor, after a lone `0`, with `x`/`X` |
| JsStrings.ParseNegativeDecimal | Gemini/frontend/src/app.jsx:114 | `parseInt` of `-` and a decimal numeral is the negated number |
| ProductStore.OwnedByExact | Gemini/backend/controllers/inventoryController.js:12-14 | `findAll` with `where: { companyId }` returns exactly the tenant's rows, each as often as it is stored |
| ProductStore.OwnedByDisjoint | Gemini/backend/controllers/inventoryController.js:12-14 | two different tenants' query results share no row |
| ProductStore.OwnedByAppend | Gemini/backend/controllers/inventoryController.js:12-14 | inserting a row of tenant t adds it at the end of t's query result and changes no other tenant's result |
| ProductStore.ProductTable.FindAll | Gemini/backend/controllers/inventoryController.js:12-14 | the rows found are the tenant's rows, in table order, and the table is only read |
| ProductStore.ProductTable.Create | Gemini/backend/controllers/inventoryController.js:25-31 | an accepted insert appends exactly the new row and returns it; a refused insert changes nothing |
| Http.Response.Status | Gemini/backend/controllers/inventoryController.js:33 | `res.status(code)` sets the code and sends nothing |
| Http.Response.SendJson | Gemini/backend/controllers/inventoryController.js:15 | `res.json(body)` sends the body with the status already set, 200 unless changed |
| AuthMiddleware.Authenticate | Gemini/backend/middleware/auth.middleware.js:9-29 | exactly one of 401, 403 or `next()`. `next()` is called exactly when the token verifies; then `req.user` is the claims, `req.tenantId` is their `companyId`, and nothing is sent. On a rejection `req.user` and `req.tenantId` are untouched |
| AuthMiddleware.TokenIsSecondPiece | Gemini/backend/middleware/auth.middleware.js:11 | the token is the second space-separated piece; the scheme word is never checked and later pieces are ignored |
| AuthMiddleware.MissingTokenCases | Gemini/backend/middleware/auth.middleware.js:10-15 | a 401 happens exactly when the header is absent, has no space, or has an empty second piece |
| AuthMiddleware.AdmittedIffVerified | Gemini/backend/middleware/auth.middleware.js:17-25 | a request is admitted with claims c exactly when its token is truthy and verifies to c |
| AuthMiddleware.DecidedByAuthorizationOnly | Gemini/backend/middleware/auth.middleware.js:10 | requests with the same `authorization` header get the same verdict, whatever else they carry |
| AuthMiddleware.UnboundTenantAdmitted | Gemini/backend/middleware/auth.middleware.js:23-25 | a truthy token that verifies to claims without `companyId` is admitted with those claims, and the tenant is undefined |
| AuthMiddleware.UnboundTenantReachesNext | Gemini/backend/middleware/auth.middleware.js:18-25 | for such a token the middleware calls `next()`, sends nothing, binds the claims as `req.user` and leaves `req.tenantId` undefined |
| InventoryController.GetInventory | Gemini/backend/controllers/inventoryController.js:8-19 | the list is exactly the bound tenant's rows, with the status left as it was (200 on a fresh response); a failed query answers 500 with its message |
| InventoryController.AddProduct | Gemini/backend/controllers/inventoryController.js:21-37 | a created row is answered 201 and appended to the table; a refused insert is answered 400 and leaves the table unchanged |
| InventoryController.ListedAreExactlyTenants | Gemini/backend/controllers/inventoryController.js:12-15 | a listed row has the tenant's id, and each tenant row is listed as often as it is stored |
| InventoryController.ListsOfTenantsDisjoint | Gemini/backend/controllers/inventoryController.js:10-15 | two tenants' lists share no row |
| InventoryController.DraftIgnoresOtherFields | Gemini/backend/controllers/inventoryController.js:23-31 | the row to insert depends only on name, sku, stock and priceUSD of the body, plus the bound tenant |
| InventoryController.CreateIgnoresBodyTenant | Gemini/backend/controllers/inventoryController.js:30 | a `companyId` in the body is ignored; the created row has the bound tenant |
| InventoryController.CreateEffect | Gemini/backend/controllers/inventoryController.js:25-36 | if the insert succeeds, the reply is 201 with the new row, the table grows by that row only, and only the creating tenant's list changes. If it is refused, the reply is 400 with the fixed message and the table is unchanged |
| InventoryController.SameSkuForTwoTenants | Gemini/backend/controllers/inventoryController.js:25-33 | two companies storing the same SKU each get their row, and each lists only its own |
| InventoryRoutes.FindRoute | Gemini/backend/routes/inventory.routes.js:12-13 | the route chosen matches the verb and path; none is chosen exactly when no route matches |
| InventoryRoutes.EveryRouteAuthenticatesFirst | Gemini/backend/routes/inventory.routes.js:12-13 | every route runs the middleware first and then one controller action |
| InventoryRoutes.ExposedRoutes | Gemini/backend/routes/inventory.routes.js:11-15 | a route is found exactly for `GET`/`HEAD /` and `POST /add`, so no other request reaches a controller |
| InventoryRoutes.UnroutedNotFound | Gemini/backend/routes/inventory.routes.js:12-15 | a request no route matches runs no stage: whatever its headers, body, the table and the collaborators, it gets the router's 404 and the table is untouched |
| InventoryRoutes.RejectionsFromCredentialsOnly | Gemini/backend/middleware/auth.middleware.js:11-28 | on a routed request the reply is 401 exactly when the token is missing or empty, and 403 exactly when the verifier refuses it. Each comes with its fixed message and leaves the table untouched |
| InventoryRoutes.ServeList | Gemini/backend/routes/inventory.routes.js:12 | `GET /` gives the middleware's rejection, or the list of the verified tenant |
| InventoryRoutes.ServeCreate | Gemini/backend/routes/inventory.routes.js:13 | `POST /add` gives the middleware's rejection with the table untouched, or a create for the verified tenant |
| InventoryRoutes.ServedRecordsBelongToVerifiedTenant | Gemini/backend/routes/inventory.routes.js:4-13 | every row a request is shown or creates belongs to the tenant of its verified claims. A request that is not admitted changes nothing and gets 401, 403 or 404 |
| InventoryRoutes.TenantFromAuthorizationOnly | Gemini/backend/routes/inventory.routes.js:12-13 | requests that agree on `authorization` and on the four product fields are served alike, whatever their other headers, query or body `companyId` |
| InventoryRoutes.NoCredentialNoList | Gemini/backend/routes/inventory.routes.js:11-13 | a routed request without credentials gets 401 and never a list |
| InventoryRoutes.Dispatch | Gemini/backend/routes/inventory.routes.js:12-13 | running the middleware and then the action on the request and response objects gives the reply and table that `Serve` defines |
| GeminiApi.BaseUrl | Gemini/frontend/src/services/api.js:4-21 | the base URL always ends with `/api` |
| GeminiApi.LocalHostsUseLocalBackend | Gemini/frontend/src/services/api.js:8-10 | `localhost` and `127.0.0.1` give `http://localhost:5000/api`, ahead of the Codespaces check |
| GeminiApi.CodespacesPortRewritten | Gemini/frontend/src/services/api.js:13-17 | a hostname ending in `app.github.dev` gives protocol, `//`, the hostname with its first `-3000` turned into `-5000`, and `/api` |
| GeminiApi.CodespacesWithoutPort | Gemini/frontend/src/services/api.js:15 | a Codespaces hostname without `-3000` is used unchanged |
| GeminiApi.OtherHostsRelative | Gemini/frontend/src/services/api.js:20 | every other hostname gives `/api` |
| GeminiApi.InterceptorSetsOnlyAuthorization | Gemini/frontend/src/services/api.js:33-37 | only `Authorization` changes. It is set exactly when the stored token is truthy, and then to `Bearer ` followed by the token |
| GeminiApi.Intercept | Gemini/frontend/src/services/api.js:31-38 | the same config object is returned, with its headers updated as above |
| GeminiApi.BearerRoundTrip | Gemini/frontend/src/services/api.js:35 | the middleware extracts exactly the stored token (non-empty, without spaces) from the header the interceptor builds |
| GeminiApi.SpacedTokenTruncated | Gemini/frontend/src/services/api.js:35 | a stored token that contains a space reaches the server as its first word only |
| GeminiApi.InterceptedRequestDecidedByToken | Gemini/frontend/src/services/api.js:33-37 | an intercepted request whose stored token is non-empty and without spaces is admitted by the middleware exactly when that token verifies, and then with its claims |
| PharmintoApi.ApiBase | Pharminto/frontend/src/services/api.js:3-10 | the base always ends with `/api` |
| PharmintoApi.ElsewhereLocal | Pharminto/frontend/src/services/api.js:10 | a hostname without `app.github.dev` gives `http://localhost:5000/api` |
| PharmintoApi.CodespacesPortRewritten | Pharminto/frontend/src/services/api.js:5-9 | a hostname that contains `app.github.dev` gets its first `-3000` turned into `-5000` |
| PharmintoApi.CodespacesWithoutPort | Pharminto/frontend/src/services/api.js:6-9 | a Codespaces hostname without `-3000` is used unchanged |
| PharmintoApi.ClientsCompared | Pharminto/frontend/src/services/api.js:3-10 | the two clients agree on local hostnames and on hostnames that end in `app.github.dev`. A hostname that only contains the suffix goes to that host in Pharminto but to `/api` in Gemini |
| Vault.FindUser | Gemini/frontend/src/app.jsx:91 | an account is found exactly when some mock user matches both email and password, and the one found matches |
| Vault.FindUserFirst | Gemini/frontend/src/app.jsx:91 | the account found is the first matching entry |
| Vault.LoginCredentials | Gemini/frontend/src/app.jsx:91-95 | login succeeds exactly for the two mock accounts with `password123`, and sets that account's company from the mock table |
| Vault.CompanyItemsExact | Gemini/frontend/src/app.jsx:62-64 | the company view is exactly the items with the current company's id, each as often as stored; with no company it is empty |
| Vault.CompanyViewsDisjoint | Gemini/frontend/src/app.jsx:62-64 | two companies' views share no item |
| Vault.AddExtendsCompanyView | Gemini/frontend/src/app.jsx:110-119 | a new item carries the company's id, comes last in that company's view, and leaves other companies' views unchanged |
| Vault.StockOfDecimal | Gemini/frontend/src/app.jsx:114 | the decimal numeral of a whole number becomes the stock |
| Vault.StockOfExponentTruncated | Gemini/frontend/src/app.jsx:114 | the number field accepts `1e3`, and `parseInt` stores it as 1, not 1000 |
| Vault.StockOfNegative | Gemini/frontend/src/app.jsx:114 | a typed negative number keeps its sign |
| Vault.StockOfEmpty | Gemini/frontend/src/app.jsx:114 | an empty stock field gives 0 |
| Vault.DeleteExact | Gemini/frontend/src/app.jsx:266 | delete removes exactly the items with the clicked id and keeps each other item as often as it was stored |
| Vault.DeleteWithinCompanyView | Gemini/frontend/src/app.jsx:266 | a delete changes a company's view only by removing that id, and does not change the view of a company without that id |
| Vault.SearchMembership | Gemini/frontend/src/app.jsx:249 | a row is shown exactly when it is in the company view and its lowercased name contains the lowercased term |
| Vault.VisibleRowsOneFilter | Gemini/frontend/src/app.jsx:249 | the rows shown are one filter over the whole inventory by the company test and the name test together |
| Vault.EmptySearchShowsAll | Gemini/frontend/src/app.jsx:249 | an empty term shows every item of the company view |
| Vault.SearchIgnoresTermCase | Gemini/frontend/src/app.jsx:249 | the letter case of the term makes no difference |
| Vault.InitialCompanyViews | Gemini/frontend/src/app.jsx:56-64 | in the seeded inventory HealthCorp India sees items 1 and 2 and BioPharma Global sees item 3 |
| Vault.Vault.constructor | Gemini/frontend/src/app.jsx:32-68 | the initial state: the login view, no user or company, no logs, the seeded inventory, an empty form and an empty search |
| Vault.Vault.AddAuditLog | Gemini/frontend/src/app.jsx:71-81 | the new entry names the current user and goes first, the older entries follow unchanged, and nothing else changes |
| Vault.Vault.HandleAuthAsWritten | Gemini/frontend/src/app.jsx:83-103 | the handler throws exactly when there was no user before. A match still sets user and company. The log entry names the previous user. The dashboard invariant `Vault.Vault.Valid` is kept |
| Vault.Vault.HandleAuth | Gemini/frontend/src/app.jsx:83-103 | a match sets user, company and the dashboard view and logs that account's login. A failure leaves view, user and company unchanged and logs the attempt. The dashboard invariant `Vault.Vault.Valid` is kept |
| Vault.Vault.HandleAddProduct | Gemini/frontend/src/app.jsx:105-123 | called from the dashboard, where a user and a company are always set (`Vault.Vault.Valid`), exactly one item is appended, with the company's id and the parsed stock, and its creation is logged. The form is closed and emptied; the dashboard invariant is kept |
| Vault.Vault.DeleteItem | Gemini/frontend/src/app.jsx:265-268 | called from the dashboard, the items with the clicked id are removed, the others stay in order, and the purge is logged; the dashboard invariant is kept |
| Vault.Vault.SetSearchTerm | Gemini/frontend/src/app.jsx:230 | only the search term changes |
| Vault.Vault.Logout | Gemini/frontend/src/app.jsx:191 | only the view changes, back to login; user and company are kept. The dashboard invariant `Vault.Vault.Valid` is kept |
| Vault.FirstLoginAsWritten | Gemini/frontend/src/app.jsx:75 | as written, a fresh session's valid login throws: no dashboard, loading stays on, nothing is logged |
| Vault.ReloginAsWritten | Gemini/frontend/src/app.jsx:75 | as written, the second company's login after a logout is logged under the first user's address |
| Vault.FirstLoginCorrected | Gemini/frontend/src/app.jsx:83-103 | corrected, a fresh session's valid login opens the dashboard and logs that login |
| Vault.ReloginCorrected | Gemini/frontend/src/app.jsx:83-103 | corrected, each login is logged under the address of the account signing in |

## Left out

- JWT signature and expiry checking is an arbitrary verifier function. The same holds for the process-wide secret and its fail-fast check at startup.
- The database: a query that fails is a boolean input, and the answer to an insert is an input. The SKU constraint is not modelled, nor is how Sequelize treats an `undefined` where-value (the model matches it as a value like any other).
- Express and server start-up (CORS, JSON parsing, mounting, `listen`) and both `server.js` files are left out. The model has no HTTP header-name folding: the backend reads the lower-case `authorization`, while the client's `Authorization` is assumed to arrive lower-cased.
- A `HEAD` request to `/` runs the list action, and the model's reply carries the product list. Node sends no body in a `HEAD` answer, so `InventoryRoutes.ServedRecordsBelongToVerifiedTenant` also covers a body the client never sees.
- Request methods the router does not name get the router's 404 in the model. Express's automatic `OPTIONS` answer (200 with an `Allow` header) and the CORS preflight answer (Gemini/backend/server.js:27-31, 204 before the router) are not modelled.
- ProductStore.ProductTable.FindAll: returns the tenant's rows in insertion order. `findAll` passes no `order`, so the order the database returns is unspecified. `ProductStore.OwnedByExact` states the order-free part on multisets. The "in table order" and "at the end" parts of `FindAll`, `ProductStore.OwnedByAppend` and `InventoryController.CreateEffect` depend on this choice.
- The interceptor's error handler (`Promise.reject`) and axios itself are left out. So are `localStorage`, where the stored token is an input.
- Money is left out: `EX_RATE`, `parseFloat` of the price, currency formatting and the asset total. `Vault.Vault.HandleAddProduct` takes the converted price as an input.
- `Date.now`, `toISOString`, `Math.random` and the one-second delay are inputs or left out. So are the clock, `alert`, the active tab and all JSX.
- JsStrings.ToLower: lowercases ASCII letters only. JavaScript's `toLowerCase` folds all of Unicode.
- JsStrings.ParseInt: models an exact unbounded integer. JavaScript's `parseInt` rounds large values to a double and returns `-0` for `"-0"` (which `|| 0` turns into 0 anyway).
- JsStrings.ReplaceFirst: does not model the `$` substitution patterns of `replace`. No replacement string used here contains `$`.
- React's batching of state updates and its re-renders are not modelled: each handler runs to completion on one state. In `Vault.Vault.HandleAuthAsWritten` the updates made before the throw stay applied.
- The UI-only pages (`Login.js`, `Dashboard.js`, `App.js`) are not part of this model.

## Findings

| source | as written | input that shows it | evidently intended | confidence | as-written member | corrected member |
|---|---|---|---|---|---|---|
| Gemini/frontend/src/app.jsx:75 | `handleAuth` logs through `addAuditLog`, which reads `user.email` from the render the handler belongs to. When no one has signed in yet, that `user` is `null` (line 34), so the call throws a TypeError. By then user and company are set, but the dashboard is not opened and `isLoading` stays true. A failed first attempt throws too, before the alert | a fresh session signing in with owner@pharminto.com / password123 | the login is logged under the signing-in account, and the dashboard opens on the first attempt | not executed | Vault.FirstLoginAsWritten | Vault.FirstLoginCorrected |
| Gemini/frontend/src/app.jsx:96 | the same stale `user` means that, once someone has signed in, later logins and failed attempts are logged under the previous user's address | owner@pharminto.com signs in (twice, because of the throw above) and signs out, then admin@biopharma.com / password123 signs in: the entry names owner@pharminto.com | each login entry names the account signing in, and a failed attempt names the attempted address | not executed | Vault.ReloginAsWritten | Vault.ReloginCorrected |
