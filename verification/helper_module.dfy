/** modules/helperModule.js: a second copy of `createUser`, the two read
    queries the buyer handlers use, and the order insert. Each function
    catches every query failure and resolves with a result object; the
    model gives those objects their optional properties as `Option`s
    (`None` is a property the object does not have). */
module HelperModule {
  import opened Js
  import opened Strings
  import opened Db
  import UserModule

  /** The second copy of `createUser`, written out as the file has it. It
      classifies every insert outcome exactly as the copy in
      modules/userModule.js does. */
  function CreateUser(outcome: DbOutcome<UserRow>): (r: Completion<UserModule.UserResult>)
    ensures r == UserModule.CreateUser(outcome)
  {
    match outcome
    case Ok(rowCount, rows) =>
      if rowCount == 1 then
        Normal(UserModule.UserResult(true, if |rows| > 0 then Num(rows[0].userId) else Undefined,
          "Query Successful", UserModule.NoneText))
      else
        Normal(UserModule.UserResult(false, Num(-1), "Query Successful", UserModule.NoneText))
    case Err(e) =>
      match e.constraint
      case None => Threw(TypeError)
      case Some(c) =>
        if Includes(c, "userinfo_user_name_key") then
          Normal(UserModule.UserResult(false, Num(-1), "Username already exists", UserModule.NestedError(e.errorProp)))
        else
          Normal(UserModule.UserResult(false, Num(-1), "Internal Server Error", UserModule.WholeError(e)))
  }

  /** The object a read helper resolves with. */
  datatype Retrieval<R> = Retrieval(
    success: bool,
    data: Option<seq<R>>,
    count: Option<int>,
    userId: Option<int>,
    message: Option<string>,
    error: Option<DbError>)

  /** The shape both read helpers share. */
  function WrapRows<R>(outcome: DbOutcome<R>): Retrieval<R>
  {
    match outcome
    case Ok(rowCount, rows) => Retrieval(true, Some(rows), Some(rowCount), None, None, None)
    case Err(e) => Retrieval(false, None, None, Some(-1), Some("Internal Server Error"), Some(e))
  }

  /** `retrieveAllSellers`: the rows and row count unchanged on success; on
      failure an error result with no `data` and no `count`. */
  function RetrieveAllSellers(outcome: DbOutcome<SellerRow>): (r: Retrieval<SellerRow>)
    ensures r.success <==> outcome.Ok?
    ensures r.data.Some? <==> r.success
    ensures outcome.Ok? ==> r.data == Some(outcome.rows) && r.count == Some(outcome.rowCount)
    ensures outcome.Ok? ==> r.userId.None? && r.message.None? && r.error.None?
    ensures outcome.Err? ==>
      r.count.None? && r.userId == Some(-1) && r.message == Some("Internal Server Error") && r.error == Some(outcome.error)
  {
    WrapRows(outcome)
  }

  /** A parameterised lookup: the values bound to its placeholders and the
      wrapped result. */
  datatype Lookup<R> = Lookup(values: seq<JsValue>, result: Retrieval<R>)

  /** `retrieveSellerCatalog(sellerId)`: the seller id is the only value bound
      (to `$1`), and the rows and row count come back unchanged on success;
      on failure an error result with no `data` and no `count`. */
  function RetrieveSellerCatalog(sellerId: JsValue, outcome: DbOutcome<CatalogRow>): (r: Lookup<CatalogRow>)
    ensures r.values == [sellerId]
    ensures r.result.success <==> outcome.Ok?
    ensures r.result.data.Some? <==> outcome.Ok?
    ensures outcome.Ok? ==> r.result.data == Some(outcome.rows) && r.result.count == Some(outcome.rowCount)
    ensures outcome.Err? ==>
      r.result.count.None? && r.result.userId == Some(-1) && r.result.error == Some(outcome.error)
  {
    Lookup([sellerId], WrapRows(outcome))
  }

  /** The object `createOrderBySellerId` resolves with. */
  datatype OrderResult = OrderResult(success: bool, message: string, userId: Option<int>, error: Option<DbError>)

  const OrderSuccessful: string := "Order Successful"
  const UnableToPlaceOrder: string := "Unable to place order"

  /** The values bound to `$1, $2` of the order insert: buyer, then seller. */
  function OrderInsertValues(userId: JsValue, sellerId: JsValue): seq<JsValue>
  {
    [userId, sellerId]
  }

  /** `createOrderBySellerId`: success exactly when one row was inserted. */
  function CreateOrderBySellerId(outcome: DbOutcome<()>): (r: OrderResult)
    ensures r.success <==> outcome.Ok? && outcome.rowCount == 1
    ensures r.message == OrderSuccessful <==> r.success
    ensures outcome.Ok? && outcome.rowCount != 1 ==> r.message == UnableToPlaceOrder
    ensures outcome.Ok? ==> r.userId.None? && r.error.None?
    ensures outcome.Err? ==>
      r.message == "Internal Server Error" && r.userId == Some(-1) && r.error == Some(outcome.error)
  {
    match outcome
    case Ok(rowCount, _) =>
      OrderResult(rowCount == 1, if rowCount == 1 then OrderSuccessful else UnableToPlaceOrder, None, None)
    case Err(e) =>
      OrderResult(false, "Internal Server Error", Some(-1), Some(e))
  }
}
