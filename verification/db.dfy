/** The database as the handlers see it: the outcome of one `pool.query`
    call, taken as an input. The SQL text and its semantics are not modelled. */
module Db {
  import opened Js

  /** A query either resolves with `{ rowCount, rows }` or rejects with the
      driver's error object. */
  datatype DbOutcome<+R> = Ok(rowCount: int, rows: seq<R>) | Err(error: DbError)

  /** A row of `INSERT INTO UserInfo ... RETURNING user_id`. */
  datatype UserRow = UserRow(userId: int)

  /** A row of the seller listing: `user_id, user_name`. */
  datatype SellerRow = SellerRow(userId: int, userName: JsValue)

  /** A row of the catalog lookup: the seller LEFT JOINed with catalog and
      products, so the product columns are `null` when the seller has none. */
  datatype CatalogRow = CatalogRow(
    sellerId: int,
    sellerName: JsValue,
    productId: JsValue,
    productName: JsValue,
    productPrice: JsValue)

  /** A row of the seller's order listing: one ordered product with its order
      and buyer. */
  datatype OrderRow = OrderRow(
    orderId: int,
    userId: JsValue,
    buyerName: JsValue,
    productName: JsValue,
    productPrice: JsValue,
    createdAt: JsValue)
}
