# Buyer-Seller API: a verified model of its decision and fold logic

The repository is a small Express/PostgreSQL marketplace backend: users
register, sellers publish a catalog, buyers browse sellers and place
orders. Most of it is plumbing. This project models the part that makes
decisions, in Dafny, as pure functions over immutable values:

- the **auth middleware** (`authenticateUser`, `authorizeUser`): it takes the
  token from the `Authorization` header, decides 401 / 403 / `next()`, and
  requires an exact role match;
- **registration** (`registerUser`, `createUser`): the truthiness gate on the
  three inputs, the password hashed before it is stored, and the
  classification of the insert outcome by `rowCount` and by constraint name;
- the **helper results** (`retrieveAllSellers`, `retrieveSellerCatalog`,
  `createOrderBySellerId`): the result objects built from a query outcome;
- the two **row-grouping folds** (`getSellerCatalogBySellerId`,
  `getAllOrdersForSeller`): flat join rows become nested JSON through a
  `Map` kept in insertion order;
- the handlers that wrap them, and the **middleware chains** of the seller
  and buyer routers.

Collaborators the core cannot see are inputs or oracles. A database query
is represented by its outcome, `Ok(rowCount, rows)` or `Err(DbError(constraint, …))`.
`bcrypt.hash` is represented by the value it produced, since its output is
salted. `jwt.verify` is a function from a token to `Decoded(payload)`,
`VerifyError` or `Raised`. `fetchOrdersBySellerId` and
`createCatalogForProducts` are represented by what they resolve with, or by
what they throw. The catalog, order, orders and create-catalog handlers
each return a `Run(call, body)`:
- `call` holds the values the handler bound into its query or passed to its
  helper;
- `body` is the JSON it answered with.

Two handlers are shaped differently:
- `GetAllSellers` answers with its body alone, because its helper takes no
  arguments;
- `RegisterUser` returns a `Registration`: the hash request and the stored
  values, next to the status and the body.

JavaScript values are the `Js.JsValue` datatype. `Js.Truthy` gives
JavaScript truthiness. An `Option` is used wherever a property may be
`undefined`.

Layout: `js.dfy` (runtime values), `strings.dfy` (`split`, `includes`),
`db.dfy` (query outcomes, row shapes), `grouping.dfy` (the generic fold and
its theory), `http.dfy` (requests, handler runs), then one file per source
file: `user_module.dfy`, `helper_module.dfy`, `auth_user.dfy`,
`user_controller.dfy`, `buyer_controller.dfy`, `seller_controller.dfy`.
`routes.dfy` holds the router chains.

Three behaviours of the code are easy to mistake, and the model keeps them
as written:
- registration answers HTTP 200 on every path that does not throw. An
  invalid input and a duplicate name are both 200 with `success: false`;
  the code never answers 201, 400 or 409;
- the buyer router installs no authentication (see Findings);
- `createOrder` takes the buyer id from `req.user.userId`, not from the body.

## Model

| member | source | states |
|---|---|---|
| Strings.Split | middlewares/authUser.js:4 | `split(' ')` always yields at least one piece, no piece contains the separator, joining the pieces restores the string, and there is one piece exactly when the separator is absent |
| Strings.SplitJoin | middlewares/authUser.js:4 | splitting joined pieces gives back the pieces when none contains the separator (split is a left inverse of join) |
| Strings.IncludesIffOccurs | modules/userModule.js:29 | `includes` holds exactly when the substring occurs at some position |
| AuthUser.ExtractToken | middlewares/authUser.js:4 | a missing header gives `undefined`; otherwise a token exists exactly when the header contains a space, and the token never contains a space |
| AuthUser.ExtractTokenIsSecondWord | middlewares/authUser.js:4 | the extracted token is exactly the run of characters after the header's first space, for every header (both directions) |
| AuthUser.SchemeNeverChecked | middlewares/authUser.js:4 | for any scheme word, `<scheme> <token>` yields the token: the scheme is never checked |
| AuthUser.NoTokenShapes | middlewares/authUser.js:4-12 | a header that is a single space-free word, or that is a space-free scheme followed by two spaces and then anything (empty second piece), is refused with 401 "Access denied. No token provided." whatever the verifier says |
| AuthUser.AuthenticateUser | middlewares/authUser.js:2-29 | no token gives 401; a verification error gives 403 "Access Denied"; a decoded payload becomes `req.user`, nothing else in the request changes, and `next()` is called once; a raise caught by the empty outer catch leaves the request unanswered and does not call `next()` |
| AuthUser.AuthorizeUser | middlewares/authUser.js:31-41 | `next()` with the same request exactly when `req.user.userType` strictly equals the required role; otherwise 403 with the forbidden message; a missing `req.user` throws |
| AuthUser.NoRoleHierarchy | middlewares/authUser.js:33-39 | a user admitted for one role is refused with 403 for every other role |
| UserModule.CreateUser | modules/userModule.js:3-45 | success exactly when the insert resolves with `rowCount === 1`, and then the id is `rows[0].user_id`; any resolved insert says "Query Successful"; every failure carries id -1; a constraint containing `userinfo_user_name_key` gives "Username already exists", any other constraint "Internal Server Error"; an error without a constraint makes the call throw |
| UserModule.DuplicateDetectedBySubstring | modules/userModule.js:29-35 | any constraint name that contains the key, with anything before or after it, is classified as a duplicate user name |
| HelperModule.CreateUser | modules/helperModule.js:3-45 | the duplicate in the helper module classifies every insert outcome exactly as the user-module copy does |
| HelperModule.RetrieveAllSellers | modules/helperModule.js:47-74 | success exactly when the query resolves, and then `data` is the rows unchanged and `count` the row count; the error result has no `data` and no `count` and carries id -1, "Internal Server Error" and the error |
| HelperModule.RetrieveSellerCatalog | modules/helperModule.js:76-115 | the seller id is the one value bound to the lookup; on success the rows and count come back unchanged, on failure there is no `data` or `count` and the error result carries id -1 and the error |
| HelperModule.CreateOrderBySellerId | modules/helperModule.js:118-146 | success exactly when `rowCount === 1`; the message is "Order Successful" exactly on success, "Unable to place order" for another row count, and "Internal Server Error" with id -1 and the error when the insert throws |
| UserController.RegisterUser | controllers/userController.js:4-32 | hashing and storing happen only if name, password and type are all truthy; otherwise the answer is `success: false`, id -1, "Invalid Inputs"; the password is hashed with cost 10; the insert gets name, hash and type in that order, never the raw password; success and id come from the store; the message is "Registration Successful" exactly on success; every failure carries id -1; a throw from hashing or the store gives 500 "Internal Server Error" |
| UserController.DuplicateNameRegistration | controllers/userController.js:8-17 | registering a taken name answers `success: false`, id -1, "Registration Unsuccessful" with status 200 |
| UserController.AnyRoleAccepted | controllers/userController.js:8 | any non-empty user type passes the gate; the type is not restricted to buyer or seller |
| Grouping.GroupRowsLoop | controllers/buyerController.js:49-70 | the `forEach` loop over the rows computes the fold and yields a grouping of all the rows |
| Grouping.AddPreserves | controllers/sellerController.js:27-43 | one callback step (create the group on a new key, then append the row's item) keeps the groups a grouping of the rows seen so far |
| Grouping.GroupRowsRepresents | controllers/sellerController.js:24-51 | the fold yields one group per distinct key, in order of first appearance; each group keeps its first row's header and holds all its rows' items, in row order |
| Grouping.FirstKeysDistinct | controllers/sellerController.js:28-36 | no key gets two groups |
| Grouping.FirstKeysContents | controllers/buyerController.js:53-59 | a key has a group exactly when some row carries it |
| Grouping.FirstHeaderIsFirstEntry | controllers/buyerController.js:53-59 | a group's header is the header of the key's first row; later rows never replace it |
| Grouping.FirstKeysOfPrefix | controllers/sellerController.js:26-36 | the groups created by the first n rows are a prefix of all the groups |
| Grouping.FirstAppearanceOrder | controllers/sellerController.js:26-51 | if one group comes before another, the first row of the first group's key comes before the first row of the other's |
| Grouping.FirstKeysCount | controllers/sellerController.js:50-51 | the number of groups is the number of distinct keys |
| Grouping.GroupRowsTotal | controllers/sellerController.js:38-43 | the groups hold as many items as there are rows that contribute one |
| Grouping.FirstGroupOfFirstEntry | controllers/buyerController.js:72-75 | with at least one row, the first group belongs to the first row's key and carries the first row's header |
| BuyerController.GetAllSellers | controllers/buyerController.js:14-31 | the sellers helper's `success`, `count` and `data` are passed through unchanged |
| BuyerController.GetSellerCatalogBySellerId | controllers/buyerController.js:44-90 | the lookup is bound to the `seller_id` route parameter; a failed lookup has no `data`, so the handler answers with the TypeError; otherwise it answers `success: true` and no seller exactly when there are no rows |
| BuyerController.CatalogItemsAreSellerProducts | controllers/buyerController.js:61-69 | the fold's products for a seller are exactly that seller's rows with a truthy `product_id`, in row order, each holding that row's id, name and price |
| BuyerController.CatalogIsFirstSeller | controllers/buyerController.js:72-81 | zero rows give no seller (no `count`, no seller fields); otherwise the answer is the first row's seller and name, that seller's products, and `count` equal to their number |
| BuyerController.SellerWithoutProducts | controllers/buyerController.js:53-73 | a seller whose only row has no product is answered with an empty list and `count` 0 |
| BuyerController.CreateOrder | controllers/buyerController.js:103-124 | the insert gets the buyer from `req.user.userId` and the seller from the route, never from the body; without `req.user` the handler answers with a TypeError and makes no insert; with it, the answer's `success`, `message` and `error` are exactly the order helper's for the insert outcome, so `success` holds exactly on one inserted row |
| SellerController.GetAllOrdersForSeller | controllers/sellerController.js:15-61 | the fetch is for `req.user.userId` only; a throw or a missing `data` becomes `{success: false, error}`; otherwise `status` and `success` are forwarded, the orders are the grouping of the fetched rows, and `totalOrders` equals their number |
| SellerController.OrdersAnswer | controllers/sellerController.js:21-51 | for fetched rows the handler answers one order per distinct order id, `totalOrders` is the number of distinct ids, each order lists its id's product lines in row order, and the lines across all orders number exactly the rows |
| SellerController.OneOrderPerId | controllers/sellerController.js:26-51 | the grouped order ids are pairwise distinct, are exactly the ids in the rows, and the number of orders is the number of distinct ids |
| SellerController.OrdersInFirstAppearanceOrder | controllers/sellerController.js:26-51 | orders come out in the order in which their ids first appear in the rows |
| SellerController.BuyerFromFirstRow | controllers/sellerController.js:28-36 | an order's `buyer_id`, `buyer_name` and creation time come from the first row with its id |
| SellerController.OrderProductsInRowOrder | controllers/sellerController.js:38-43 | an order lists one product line per row with its id, in row order, with no filtering |
| SellerController.ProductCountIsRowCount | controllers/sellerController.js:38-43 | the product lines across all orders number exactly the rows |
| SellerController.CreateProductsCatalog | controllers/sellerController.js:74-97 | the catalog helper gets `req.user.userId` and `req.body.products`; its `status`, `success` and `message` are forwarded unchanged; a throw, or a missing `req.user`, becomes `{success: false, error}` |
| Routes.SellerGuardAdmits | routes/sellerRoutes.js:8-12 | the seller chain passes a request on exactly when its token verifies to a payload whose type is exactly "seller"; the handler then sees that payload as `req.user` |
| Routes.BuyerTokenRefused | routes/sellerRoutes.js:8 | a verified buyer token is refused on the seller orders route with 403, and the handler does not run |
| Routes.OrdersForTokenUser | controllers/sellerController.js:19-22 | on the orders route the fetch is for the token's user id; changing the request's body or route parameters changes nothing |
| Routes.CatalogForTokenUser | controllers/sellerController.js:78-88 | on the create-catalog route the helper gets the token's user id and the body's products, and its answer is forwarded |
| Routes.BuyerOrderAlwaysFails | routes/buyerRoutes.js:12-13 | as wired, with no middleware to set `req.user`, placing an order always answers with a TypeError and never reaches the insert |
| Routes.GuardedOrderUsesTokenBuyer | controllers/buyerController.js:105-108 | behind `authenticateUser, authorizeUser('buyer')` an order reaches the handler exactly for a verified buyer token; the insert then gets the token's buyer id and the route's seller id, and succeeds exactly on one inserted row |

## Findings

| source | as written | input that shows it | evidently intended | confidence | as-written member | corrected member |
|---|---|---|---|---|---|---|
| routes/buyerRoutes.js:12-13 | `create-order` is routed straight to `createOrder`, which reads `req.user.userId`, and nothing on the buyer router sets `req.user` | any `POST /api/buyer/create-order/:seller_id`, with or without a valid buyer token: the read throws and the answer is `{success: false, error}` | the route runs `authenticateUser, authorizeUser('buyer')` first, as the seller routes do, so that a verified buyer can place an order | high (not executed) | Routes.BuyerOrderAlwaysFails | Routes.GuardedOrderUsesTokenBuyer |

## Left out

- SQL text, query semantics, the LEFT JOINs, the catalog subselect and the connection pool (config/dbConfig.js is not part of this model). Every query is represented by its outcome.
- bcrypt and jsonwebtoken internals: hashing cost, salts, signatures, secrets and expiry. The hash is an input value and verification is an oracle.
- `createCatalogForProducts` and `fetchOrdersBySellerId`: controllers/sellerController.js:1 imports them from modules/helperModule.js, which does not define them. The catalog transaction and the order query are therefore not modelled; only what the handlers do with their results is.
- `validateUser` (login) and `getAllUsers`: routes/authRoutes.js:2-3 imports them from controllers/userController.js and modules/helperModule.js, which do not define them. The login flow is not modelled.
- Express wiring in app.js: body parsing, router mounting, the 404 fallback and `listen`. The route files are modelled only for their middleware chains. So a throw from `authorizeUser` is not modelled beyond `Throws(TypeError)`; Express's default error handler deals with it.
- `order_time`: it is formatted with `Date.toLocaleTimeString`, which depends on the locale and the clock. Each order keeps the first row's raw `created_at` instead.
- `product_price` and the other column values are opaque `JsValue`s; no arithmetic is done on them.
- async/await sequencing and console logging.
- JSON serialisation: properties whose value is `undefined` are dropped. The `status` that handlers copy from helper results is always `undefined`, because no helper sets one, so it is left out of those bodies. Thrown error objects are kept as `Exception` values rather than serialised.
- Numbers are integers: NaN and fractions are not modelled in truthiness or in `rowCount`.
- Synchronous throws from the verification step: the verifier oracle's `Raised` outcome stands for one, and the model does not decide whether the library can actually throw there.
