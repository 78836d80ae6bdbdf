/** The middleware chains of routes/sellerRoutes.js and routes/buyerRoutes.js:
    seller routes run `authenticateUser`, then `authorizeUser('seller')`,
    then the handler; buyer routes run the handler alone. */
module Routes {
  import opened Js
  import opened Http
  import opened AuthUser
  import opened Db
  import BuyerController
  import SellerController

  /** Either a middleware stopped the request, or the handler ran. */
  datatype RouteResult<B> = Stopped(result: MiddlewareResult) | Handled(run: Run<B>)

  /** `authenticateUser, authorizeUser(role)`: the second runs only if the
      first called `next()`. */
  function RoleGuard(role: string, req: Request, verify: string -> Verification): MiddlewareResult
  {
    match AuthenticateUser(req, verify)
    case Next(authenticated) => AuthorizeUser(role, authenticated)
    case stop => stop
  }

  /** The chain in front of every seller handler. */
  function SellerGuard(req: Request, verify: string -> Verification): MiddlewareResult
  {
    RoleGuard("seller", req, verify)
  }

  /** `GET /orders`. */
  function SellerOrdersRoute(req: Request, verify: string -> Verification, fetched: Completion<SellerController.FetchResult>)
    : RouteResult<SellerController.OrdersBody>
  {
    match SellerGuard(req, verify)
    case Next(admitted) => Handled(SellerController.GetAllOrdersForSeller(admitted, fetched))
    case stop => Stopped(stop)
  }

  /** `POST /create-catalog`. */
  function SellerCreateCatalogRoute(req: Request, verify: string -> Verification, created: Completion<SellerController.CatalogCreation>)
    : RouteResult<SellerController.CreateCatalogBody>
  {
    match SellerGuard(req, verify)
    case Next(admitted) => Handled(SellerController.CreateProductsCatalog(admitted, created))
    case stop => Stopped(stop)
  }

  /** `POST /create-order/:seller_id` as routes/buyerRoutes.js wires it: no
      middleware. */
  function BuyerCreateOrderRoute(req: Request, outcome: DbOutcome<()>): Run<BuyerController.OrderBody>
  {
    BuyerController.CreateOrder(req, outcome)
  }

  /** The seller chain passes a request on exactly when it carries a token
      that verifies to a payload whose type is exactly `"seller"`, and then
      the handler sees that payload as `req.user` and nothing else changed. */
  lemma SellerGuardAdmits(req: Request, verify: string -> Verification)
    ensures SellerGuard(req, verify).Next? <==>
      && HasToken(req)
      && verify(ExtractToken(req.authorization).value).Decoded?
      && verify(ExtractToken(req.authorization).value).payload.userType == Str("seller")
    ensures SellerGuard(req, verify).Next? ==>
      SellerGuard(req, verify).req == req.(user := Some(verify(ExtractToken(req.authorization).value).payload))
  {
  }

  /** A valid buyer token is refused on seller routes with 403, and the
      handler does not run. */
  lemma BuyerTokenRefused(scheme: string, token: string, req: Request, verify: string -> Verification, fetched: Completion<SellerController.FetchResult>)
    requires ' ' !in scheme && ' ' !in token && token != ""
    requires req.authorization == Some(scheme + " " + token)
    requires verify(token).Decoded? && verify(token).payload.userType == Str("buyer")
    ensures SellerOrdersRoute(req, verify, fetched) == Stopped(Respond(403, Forbidden(ForbiddenMessage)))
  {
    SchemeNeverChecked(scheme, token);
  }

  /** The orders are fetched for the user id in the verified token; the
      request's body and route parameters play no part in the outcome. */
  lemma OrdersForTokenUser(req: Request, verify: string -> Verification, fetched: Completion<SellerController.FetchResult>,
                           body: map<string, JsValue>, params: map<string, string>)
    ensures SellerOrdersRoute(req, verify, fetched).Handled? ==>
      SellerOrdersRoute(req, verify, fetched).run.call
        == Some([verify(ExtractToken(req.authorization).value).payload.userId])
    ensures SellerOrdersRoute(req.(body := body, params := params), verify, fetched)
         == SellerOrdersRoute(req, verify, fetched)
  {
  }

  /** The catalog is created for the user id in the verified token, with the
      products from the body; the helper's answer is forwarded as is. */
  lemma CatalogForTokenUser(req: Request, verify: string -> Verification, created: Completion<SellerController.CatalogCreation>)
    requires SellerCreateCatalogRoute(req, verify, created).Handled?
    ensures SellerCreateCatalogRoute(req, verify, created).run.call
         == Some([verify(ExtractToken(req.authorization).value).payload.userId, Get(req.body, "products")])
    ensures created.Normal? ==>
      SellerCreateCatalogRoute(req, verify, created).run.body
        == SellerController.CatalogReply(created.value.status, created.value.success, created.value.message)
  {
  }

  /** The buyer router installs no authentication, so nothing sets
      `req.user`: placing an order always fails with a TypeError and the
      order insert is never attempted. */
  lemma BuyerOrderAlwaysFails(req: Request, outcome: DbOutcome<()>)
    requires Incoming(req)
    ensures BuyerCreateOrderRoute(req, outcome) == Run(None, BuyerController.OrderFailed(TypeError))
  {
  }

  /** `POST /create-order/:seller_id` with the chain the handler evidently
      expects in front of it: `authenticateUser, authorizeUser('buyer')`. */
  function GuardedCreateOrderRoute(req: Request, verify: string -> Verification, outcome: DbOutcome<()>)
    : RouteResult<BuyerController.OrderBody>
  {
    match RoleGuard("buyer", req, verify)
    case Next(admitted) => Handled(BuyerController.CreateOrder(admitted, outcome))
    case stop => Stopped(stop)
  }

  /** With the guard in place, a verified buyer's order reaches the insert
      with the buyer id from the token and the seller id from the route, and
      its outcome decides the answer; every other request is stopped before
      the handler. */
  lemma GuardedOrderUsesTokenBuyer(req: Request, verify: string -> Verification, outcome: DbOutcome<()>)
    ensures GuardedCreateOrderRoute(req, verify, outcome).Handled? <==>
      && HasToken(req)
      && verify(ExtractToken(req.authorization).value).Decoded?
      && verify(ExtractToken(req.authorization).value).payload.userType == Str("buyer")
    ensures GuardedCreateOrderRoute(req, verify, outcome).Handled? ==>
      var run := GuardedCreateOrderRoute(req, verify, outcome).run;
      && run.call == Some([verify(ExtractToken(req.authorization).value).payload.userId, Param(req, "seller_id")])
      && run.body.OrderReply?
      && (run.body.success <==> outcome.Ok? && outcome.rowCount == 1)
  {
  }
}
