/** controllers/buyerController.js: the seller listing, a seller's catalog
    folded from its LEFT JOIN rows, and order placement. */
module BuyerController {
  import opened Js
  import opened Db
  import opened Http
  import opened Grouping
  import opened HelperModule

  // ---------------------------------------------------------------------
  // getAllSellers
  // ---------------------------------------------------------------------

  /** The JSON of `getAllSellers`; the helper's result has no `status`, so
      that property is always left out of the response. */
  datatype SellersBody = SellersBody(success: bool, count: Option<int>, data: Option<seq<SellerRow>>)

  /** `getAllSellers`: the helper's result passed through. */
  function GetAllSellers(outcome: DbOutcome<SellerRow>): (r: SellersBody)
    ensures r.success <==> outcome.Ok?
    ensures outcome.Ok? ==> r.data == Some(outcome.rows) && r.count == Some(outcome.rowCount)
    ensures outcome.Err? ==> r.data.None? && r.count.None?
  {
    var result := RetrieveAllSellers(outcome);
    SellersBody(result.success, result.count, result.data)
  }

  // ---------------------------------------------------------------------
  // getSellerCatalogBySellerId
  // ---------------------------------------------------------------------

  datatype Product = Product(productId: JsValue, productName: JsValue, productPrice: JsValue)

  /** The row's product, which the fold keeps only when `item.product_id` is truthy. */
  function RowProduct(row: CatalogRow): Product
  {
    Product(row.productId, row.productName, row.productPrice)
  }

  /** A catalog row as the fold sees it: keyed by seller id, opening a group
      with the seller's name, contributing its product when it has one. */
  function CatalogEntry(row: CatalogRow): Entry<int, JsValue, Product>
  {
    Entry(row.sellerId, row.sellerName, if Truthy(row.productId) then Some(RowProduct(row)) else None)
  }

  function CatalogEntries(rows: seq<CatalogRow>): seq<Entry<int, JsValue, Product>>
  {
    seq(|rows|, i requires 0 <= i < |rows| => CatalogEntry(rows[i]))
  }

  /** `{ count: first?.products.length, ...first }`: with no group, the
      object is empty; otherwise it is the first group with its product
      count. */
  datatype CatalogView =
    | NoSeller
    | SellerCatalog(count: nat, sellerId: int, sellerName: JsValue, products: seq<Product>)

  function FirstGroupView(groups: seq<Group<int, JsValue, Product>>): CatalogView
  {
    if |groups| == 0 then NoSeller
    else SellerCatalog(|groups[0].items|, groups[0].key, groups[0].header, groups[0].items)
  }

  datatype CatalogBody = CatalogListed(success: bool, data: CatalogView) | CatalogFailed(exc: Exception)

  /** `getSellerCatalogBySellerId`: look the seller up, fold the rows, answer
      with the first group. A failed lookup has no `data`, so `forEach`
      throws and the handler answers with the error. */
  function GetSellerCatalogBySellerId(req: Request, outcome: DbOutcome<CatalogRow>): (r: Run<CatalogBody>)
    ensures r.call == Some([Param(req, "seller_id")])
    ensures r.body.CatalogFailed? <==> outcome.Err?
    ensures outcome.Err? ==> r.body == CatalogFailed(TypeError)
    ensures outcome.Ok? ==> r.body.success && (r.body.data.NoSeller? <==> |outcome.rows| == 0)
  {
    var lookup := RetrieveSellerCatalog(Param(req, "seller_id"), outcome);
    var result := lookup.result;
    var call := Some(lookup.values);
    match result.data
    case None => Run(call, CatalogFailed(TypeError))
    case Some(rows) => Run(call, CatalogListed(result.success, FirstGroupView(GroupRows(CatalogEntries(rows)))))
  }

  /** The products of seller `id`, read straight off the rows: every row of
      that seller whose product id is truthy, in row order. */
  function SellerProducts(rows: seq<CatalogRow>, id: int): seq<Product>
  {
    if |rows| == 0 then []
    else
      var last := rows[|rows| - 1];
      SellerProducts(rows[..|rows| - 1], id) + (if last.sellerId == id && Truthy(last.productId) then [RowProduct(last)] else [])
  }

  lemma {:induction false} CatalogItemsAreSellerProducts(rows: seq<CatalogRow>, id: int)
    ensures ItemsFor(CatalogEntries(rows), id) == SellerProducts(rows, id)
  {
    if |rows| > 0 {
      var init := rows[..|rows| - 1];
      assert CatalogEntries(rows)[..|rows| - 1] == CatalogEntries(init);
      CatalogItemsAreSellerProducts(init, id);
    }
  }

  /** The catalog answer is the first row's seller, with that seller's name
      from the first row and exactly the seller's rows that carry a product,
      in row order; `count` is their number. No rows, no seller. */
  lemma CatalogIsFirstSeller(req: Request, outcome: DbOutcome<CatalogRow>)
    requires outcome.Ok?
    ensures |outcome.rows| == 0 ==> GetSellerCatalogBySellerId(req, outcome).body == CatalogListed(true, NoSeller)
    ensures |outcome.rows| > 0 ==>
      var row := outcome.rows[0];
      var products := SellerProducts(outcome.rows, row.sellerId);
      GetSellerCatalogBySellerId(req, outcome).body
        == CatalogListed(true, SellerCatalog(|products|, row.sellerId, row.sellerName, products))
  {
    var rows := outcome.rows;
    if |rows| > 0 {
      var es := CatalogEntries(rows);
      FirstGroupOfFirstEntry(es);
      CatalogItemsAreSellerProducts(rows, rows[0].sellerId);
    }
  }

  /** A seller whose only row carries no product (the LEFT JOIN found none)
      is answered with an empty product list and a count of 0. */
  lemma SellerWithoutProducts(req: Request, row: CatalogRow)
    requires !Truthy(row.productId)
    ensures GetSellerCatalogBySellerId(req, Ok(1, [row])).body
         == CatalogListed(true, SellerCatalog(0, row.sellerId, row.sellerName, []))
  {
    CatalogIsFirstSeller(req, Ok(1, [row]));
    assert [row][..0] == [];
  }

  // ---------------------------------------------------------------------
  // createOrder
  // ---------------------------------------------------------------------

  datatype OrderBody =
    | OrderReply(success: bool, message: string, error: Option<DbError>)
    | OrderFailed(exc: Exception)

  /** `createOrder`: the buyer is `req.user.userId` and the seller the route
      parameter; nothing is read from the body. Without `req.user` the read
      throws before the insert is attempted. */
  function CreateOrder(req: Request, outcome: DbOutcome<()>): (r: Run<OrderBody>)
    ensures req.user.None? ==> r == Run(None, OrderFailed(TypeError))
    ensures req.user.Some? ==> r.call == Some([req.user.value.userId, Param(req, "seller_id")])
    ensures req.user.Some? ==> r.body.OrderReply?
    ensures r.body.OrderReply? ==> (r.body.success <==> outcome.Ok? && outcome.rowCount == 1)
    ensures r.body.OrderReply? ==> (r.body.message == OrderSuccessful <==> r.body.success)
    ensures r.body.OrderReply? ==> (r.body.error.Some? <==> outcome.Err?)
    ensures req.user.Some? ==>
      var result := CreateOrderBySellerId(outcome);
      r.body == OrderReply(result.success, result.message, result.error)
  {
    var sellerId := Param(req, "seller_id");
    match req.user
    case None => Run(None, OrderFailed(TypeError))
    case Some(user) =>
      var result := CreateOrderBySellerId(outcome);
      Run(Some(OrderInsertValues(user.userId, sellerId)), OrderReply(result.success, result.message, result.error))
  }
}
