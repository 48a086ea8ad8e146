/**
 * InventoryCursorAdapter.bindView: each list row gets its item address, and its
 * sell button lowers the quantity by one, but only while it is positive.
 */
module CursorAdapter {
  import opened Wrappers
  import opened Uris
  import opened Contract
  import opened Provider
  import opened Resolver
  import opened Screens

  /** The row's address: CONTENT_URI with the row's _id appended as one path segment. */
  function RowUri(productId: int): (u: Uri)
    ensures u.scheme == ContentUri.scheme && u.authority == ContentUri.authority
    ensures u.path == ContentUri.path + [IntToString(productId)]
    ensures Resolve(u) == if productId >= 0 then ProductId(productId) else NoMatch
  {
    ItemUriResolves(productId);
    WithAppendedPath(ContentUri, IntToString(productId))
  }

  /**
   * The sell button, for the quantity the row displays: with q > 0, exactly one
   * update of the row's address with the single key Quantity = q - 1 and the
   * "sold" message; otherwise no request and the "not enough inventory" message.
   */
  function Sell(productId: int, quantity: int): (r: Reaction)
    ensures r.request.Some? <==> quantity > 0
    ensures r.request.Some? ==>
      && r.request.value.UpdateReq?
      && r.request.value.uri == RowUri(productId)
      && Size(r.request.value.values) == 1
      && r.request.value.values.quantity == Put(quantity - 1)
      && r.notice == Some(Sold)
    ensures r.request.None? ==> r.notice == Some(NotEnoughInventory)
  {
    if quantity > 0 then
      Reaction(Some(UpdateReq(RowUri(productId), QuantityValues(quantity - 1))), Some(Sold))
    else
      Reaction(None, Some(NotEnoughInventory))
  }

  /** Selling never stores a negative quantity, whatever quantity the row displayed. */
  lemma SellKeepsStock(t: Table, productId: int, quantity: int, newId: int, insertFails: bool)
    requires StockNonNegative(t)
    ensures var r := Sell(productId, quantity);
            r.request.Some? ==> StockNonNegative(Written(t, r.request.value, newId, insertFails))
  {
    var r := Sell(productId, quantity);
    if r.request.Some? {
      WrittenKeepsStock(t, r.request.value, newId, insertFails);
    }
  }

  /**
   * Selling a row with a positive quantity touches only that row, although the
   * request carries no selection: the item address's override scopes it, and
   * the row ends up with quantity q - 1 and its other columns unchanged.
   */
  lemma SellTouchesOnlyItsRow(t: Table, productId: nat, quantity: int, newId: int, insertFails: bool)
    requires quantity > 0
    ensures var t' := Written(t, Sell(productId, quantity).request.value, newId, insertFails);
            && t'.Keys == t.Keys
            && (forall id :: id in t && id != productId ==> t'[id] == t[id])
            && (productId in t ==> t'[productId] == t[productId].(quantity := Some(quantity - 1)))
  {
    var u := RowUri(productId);
    ItemUpdateWritesOneRow(t, u, QuantityValues(quantity - 1), newId, insertFails);
  }
}
