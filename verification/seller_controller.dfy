/** controllers/sellerController.js: the seller's orders folded from flat
    order rows, and catalog creation. Both take the seller from the
    authenticated `req.user`. `fetchOrdersBySellerId` and
    `createCatalogForProducts` are imported but not part of this model; what
    they resolve with (or throw) is an input. */
module SellerController {
  import opened Js
  import opened Db
  import opened Http
  import opened Grouping

  // ---------------------------------------------------------------------
  // getAllOrdersForSeller
  // ---------------------------------------------------------------------

  datatype ProductLine = ProductLine(productName: JsValue, productPrice: JsValue)

  /** The fields an order takes from the first row it sees: the buyer, and
      the creation time from which the handler formats `order_time`. */
  datatype Buyer = Buyer(buyerId: JsValue, buyerName: JsValue, createdAt: JsValue)

  datatype Order = Order(orderId: int, buyer: Buyer, products: seq<ProductLine>)

  /** What `fetchOrdersBySellerId` resolves with, as far as the handler reads it. */
  datatype FetchResult = FetchResult(status: JsValue, success: JsValue, data: Option<seq<OrderRow>>)

  datatype OrdersBody =
    | OrdersListed(status: JsValue, success: JsValue, totalOrders: nat, orders: seq<Order>)
    | OrdersFailed(exc: Exception)

  function RowLine(row: OrderRow): ProductLine
  {
    ProductLine(row.productName, row.productPrice)
  }

  function RowBuyer(row: OrderRow): Buyer
  {
    Buyer(row.userId, row.buyerName, row.createdAt)
  }

  /** An order row as the fold sees it: keyed by order id, opening a group
      with the buyer, and always contributing its product line. */
  function OrderEntry(row: OrderRow): Entry<int, Buyer, ProductLine>
  {
    Entry(row.orderId, RowBuyer(row), Some(RowLine(row)))
  }

  function OrderEntries(rows: seq<OrderRow>): seq<Entry<int, Buyer, ProductLine>>
  {
    seq(|rows|, i requires 0 <= i < |rows| => OrderEntry(rows[i]))
  }

  function ToOrder(g: Group<int, Buyer, ProductLine>): Order
  {
    Order(g.key, g.header, g.items)
  }

  /** `Array.from(resultMap.values())`: the groups as orders, in map order. */
  function ToOrders(gs: seq<Group<int, Buyer, ProductLine>>): seq<Order>
  {
    seq(|gs|, i requires 0 <= i < |gs| => ToOrder(gs[i]))
  }

  /** The `forEach` over the rows and `Array.from(resultMap.values())`. */
  function GroupOrders(rows: seq<OrderRow>): seq<Order>
  {
    ToOrders(GroupRows(OrderEntries(rows)))
  }

  /** `getAllOrdersForSeller`: fetch the orders of the seller in `req.user`,
      group them by order, and answer with the orders and their number. */
  function GetAllOrdersForSeller(req: Request, fetched: Completion<FetchResult>): (r: Run<OrdersBody>)
    ensures req.user.None? ==> r == Run(None, OrdersFailed(TypeError))
    ensures req.user.Some? ==> r.call == Some([req.user.value.userId])
    ensures req.user.Some? && fetched.Threw? ==> r.body == OrdersFailed(fetched.exc)
    ensures req.user.Some? && fetched.Normal? ==> (r.body.OrdersListed? <==> fetched.value.data.Some?)
    ensures req.user.Some? && fetched.Normal? && fetched.value.data.None? ==> r.body == OrdersFailed(TypeError)
    ensures r.body.OrdersListed? ==>
      && r.body.status == fetched.value.status
      && r.body.success == fetched.value.success
      && r.body.totalOrders == |r.body.orders|
    ensures r.body.OrdersListed? ==>
      fetched.Normal? && fetched.value.data.Some? && r.body.orders == GroupOrders(fetched.value.data.value)
  {
    match req.user
    case None => Run(None, OrdersFailed(TypeError))
    case Some(user) =>
      var call := Some([user.userId]);
      match fetched
      case Threw(e) => Run(call, OrdersFailed(e))
      case Normal(result) =>
        match result.data
        case None => Run(call, OrdersFailed(TypeError))
        case Some(rows) =>
          var orders := GroupOrders(rows);
          Run(call, OrdersListed(result.status, result.success, |orders|, orders))
  }

  /** The set of order ids among the rows. */
  function OrderIds(rows: seq<OrderRow>): set<int>
  {
    set i | 0 <= i < |rows| :: rows[i].orderId
  }

  /** The product lines of order `id`, read straight off the rows, in row order. */
  function LinesOf(rows: seq<OrderRow>, id: int): seq<ProductLine>
  {
    if |rows| == 0 then []
    else
      var last := rows[|rows| - 1];
      LinesOf(rows[..|rows| - 1], id) + (if last.orderId == id then [RowLine(last)] else [])
  }

  function TotalLines(orders: seq<Order>): nat
  {
    if |orders| == 0 then 0
    else TotalLines(orders[..|orders| - 1]) + |orders[|orders| - 1].products|
  }

  lemma EntriesPrefix(rows: seq<OrderRow>, n: nat)
    requires n <= |rows|
    ensures OrderEntries(rows)[..n] == OrderEntries(rows[..n])
  {
  }

  lemma {:induction false} OrderItemsAreLines(rows: seq<OrderRow>, id: int)
    ensures ItemsFor(OrderEntries(rows), id) == LinesOf(rows, id)
  {
    if |rows| > 0 {
      var init := rows[..|rows| - 1];
      EntriesPrefix(rows, |rows| - 1);
      OrderItemsAreLines(init, id);
    }
  }

  lemma OrderIdsAreKeys(rows: seq<OrderRow>)
    ensures OrderIds(rows) == KeySet(OrderEntries(rows))
  {
    var es := OrderEntries(rows);
    forall k | k in OrderIds(rows) ensures k in KeySet(es) {
      var i :| 0 <= i < |rows| && rows[i].orderId == k;
      assert es[i].key == k;
    }
    forall k | k in KeySet(es) ensures k in OrderIds(rows) {
      var i :| 0 <= i < |es| && es[i].key == k;
      assert rows[i].orderId == k;
    }
  }

  /** One order per distinct order id: the ids are pairwise different, they
      are exactly the ids in the rows, and `totalOrders` is their number. */
  lemma OneOrderPerId(rows: seq<OrderRow>)
    ensures forall i, j :: 0 <= i < j < |GroupOrders(rows)| ==> GroupOrders(rows)[i].orderId != GroupOrders(rows)[j].orderId
    ensures forall k :: k in OrderIds(rows) <==> exists i :: 0 <= i < |GroupOrders(rows)| && GroupOrders(rows)[i].orderId == k
    ensures |GroupOrders(rows)| == |OrderIds(rows)|
  {
    var es := OrderEntries(rows);
    var gs := GroupRows(es);
    var orders := GroupOrders(rows);
    GroupRowsRepresents(es);
    FirstKeysDistinct(es);
    FirstKeysCount(es);
    OrderIdsAreKeys(rows);
    assert forall i :: 0 <= i < |orders| ==> orders[i].orderId == FirstKeys(es)[i];
    forall k ensures k in OrderIds(rows) <==> exists i :: 0 <= i < |orders| && orders[i].orderId == k {
      FirstKeysContents(es, k);
      if k in OrderIds(rows) {
        var i :| 0 <= i < |FirstKeys(es)| && FirstKeys(es)[i] == k;
        assert orders[i].orderId == k;
      }
    }
  }

  /** Orders appear in the order of their ids' first rows. */
  lemma OrdersInFirstAppearanceOrder(rows: seq<OrderRow>, a: nat, b: nat, i: nat, j: nat)
    requires a < b < |GroupOrders(rows)|
    requires i < |rows| && rows[i].orderId == GroupOrders(rows)[a].orderId
    requires forall m :: 0 <= m < i ==> rows[m].orderId != rows[i].orderId
    requires j < |rows| && rows[j].orderId == GroupOrders(rows)[b].orderId
    requires forall m :: 0 <= m < j ==> rows[m].orderId != rows[j].orderId
    ensures i < j
  {
    var es := OrderEntries(rows);
    GroupRowsRepresents(es);
    assert Keys(GroupRows(es))[a] == GroupOrders(rows)[a].orderId;
    assert Keys(GroupRows(es))[b] == GroupOrders(rows)[b].orderId;
    FirstAppearanceOrder(es, a, b, i, j);
  }

  /** An order's buyer (and creation time) come from the first row with its
      id; later rows with the same id change nothing. */
  lemma BuyerFromFirstRow(rows: seq<OrderRow>, j: nat, i: nat)
    requires j < |rows|
    requires forall m :: 0 <= m < j ==> rows[m].orderId != rows[j].orderId
    requires i < |GroupOrders(rows)| && GroupOrders(rows)[i].orderId == rows[j].orderId
    ensures GroupOrders(rows)[i].buyer == RowBuyer(rows[j])
  {
    var es := OrderEntries(rows);
    GroupRowsRepresents(es);
    assert IsFirst(es, j);
    FirstHeaderIsFirstEntry(es, j);
  }

  /** Each order lists one product line per row with its id, in row order,
      with no rows skipped. */
  lemma OrderProductsInRowOrder(rows: seq<OrderRow>, i: nat)
    requires i < |GroupOrders(rows)|
    ensures GroupOrders(rows)[i].products == LinesOf(rows, GroupOrders(rows)[i].orderId)
  {
    var es := OrderEntries(rows);
    GroupRowsRepresents(es);
    OrderItemsAreLines(rows, GroupOrders(rows)[i].orderId);
  }

  lemma {:induction false} TotalLinesIsTotalItems(gs: seq<Group<int, Buyer, ProductLine>>)
    ensures TotalLines(ToOrders(gs)) == TotalItems(gs)
  {
    if |gs| > 0 {
      var init := gs[..|gs| - 1];
      TotalLinesIsTotalItems(init);
      assert ToOrders(gs)[..|gs| - 1] == ToOrders(init);
    }
  }

  lemma {:induction false} EveryRowCarriesAnItem(rows: seq<OrderRow>)
    ensures CountItems(OrderEntries(rows)) == |rows|
  {
    if |rows| > 0 {
      EntriesPrefix(rows, |rows| - 1);
      EveryRowCarriesAnItem(rows[..|rows| - 1]);
    }
  }

  /** No row is filtered out: the orders hold as many product lines as there
      are rows. */
  lemma ProductCountIsRowCount(rows: seq<OrderRow>)
    ensures TotalLines(GroupOrders(rows)) == |rows|
  {
    var es := OrderEntries(rows);
    var gs := GroupRows(es);
    GroupRowsTotal(es);
    EveryRowCarriesAnItem(rows);
    TotalLinesIsTotalItems(gs);
  }

  /** The handler's answer for fetched rows: one order per distinct order id,
      `totalOrders` the number of distinct ids, each order carrying its id's
      product lines in row order, and every row's line somewhere. */
  lemma OrdersAnswer(req: Request, result: FetchResult, rows: seq<OrderRow>)
    requires req.user.Some? && result.data == Some(rows)
    ensures
      var body := GetAllOrdersForSeller(req, Normal(result)).body;
      && body.OrdersListed?
      && body.totalOrders == |OrderIds(rows)|
      && (forall i, j :: 0 <= i < j < |body.orders| ==> body.orders[i].orderId != body.orders[j].orderId)
      && (forall k :: k in OrderIds(rows) <==> exists i :: 0 <= i < |body.orders| && body.orders[i].orderId == k)
      && (forall i :: 0 <= i < |body.orders| ==> body.orders[i].products == LinesOf(rows, body.orders[i].orderId))
      && TotalLines(body.orders) == |rows|
  {
    OneOrderPerId(rows);
    ProductCountIsRowCount(rows);
    forall i | 0 <= i < |GroupOrders(rows)|
      ensures GroupOrders(rows)[i].products == LinesOf(rows, GroupOrders(rows)[i].orderId)
    {
      OrderProductsInRowOrder(rows, i);
    }
  }

  // ---------------------------------------------------------------------
  // createProductsCatalog
  // ---------------------------------------------------------------------

  /** What `createCatalogForProducts` resolves with, as far as the handler reads it. */
  datatype CatalogCreation = CatalogCreation(status: JsValue, success: JsValue, message: JsValue)

  datatype CreateCatalogBody =
    | CatalogReply(status: JsValue, success: JsValue, message: JsValue)
    | CreateCatalogFailed(exc: Exception)

  /** `createProductsCatalog`: hand `req.body.products` and the seller in
      `req.user` to the catalog helper and forward its answer. */
  function CreateProductsCatalog(req: Request, created: Completion<CatalogCreation>): (r: Run<CreateCatalogBody>)
    ensures req.user.None? ==> r == Run(None, CreateCatalogFailed(TypeError))
    ensures req.user.Some? ==> r.call == Some([req.user.value.userId, Get(req.body, "products")])
    ensures req.user.Some? && created.Normal? ==>
      r.body == CatalogReply(created.value.status, created.value.success, created.value.message)
    ensures req.user.Some? && created.Threw? ==> r.body == CreateCatalogFailed(created.exc)
  {
    var products := Get(req.body, "products");
    match req.user
    case None => Run(None, CreateCatalogFailed(TypeError))
    case Some(user) =>
      var call := Some([user.userId, products]);
      match created
      case Threw(e) => Run(call, CreateCatalogFailed(e))
      case Normal(result) => Run(call, CatalogReply(result.status, result.success, result.message))
  }
}
