/**
 * ViewActivity: the product detail screen. Its plus, minus, save and delete
 * handlers each issue at most one resolver call on the screen's address.
 */
module ViewActivity {
  import opened Wrappers
  import opened Uris
  import opened Contract
  import opened Provider
  import opened Resolver
  import opened Screens

  /**
   * The plus button: one update of the screen's address with the single key
   * Quantity = q + 1, with no upper bound. The buttons are only wired once the
   * screen's product has loaded, so there is always an address.
   */
  function Plus(current: Uri, quantity: int): (req: Request)
    ensures req.UpdateReq? && req.uri == current
    ensures Size(req.values) == 1 && req.values.quantity == Put(quantity + 1)
  {
    UpdateReq(current, QuantityValues(quantity + 1))
  }

  /** The minus button: Quantity = q - 1 only while q > 0; otherwise no request and the "sold out" message. */
  function Minus(current: Uri, quantity: int): (r: Reaction)
    ensures r.request.Some? <==> quantity > 0
    ensures r.request.Some? ==>
      && r.request.value.UpdateReq?
      && r.request.value.uri == current
      && Size(r.request.value.values) == 1
      && r.request.value.values.quantity == Put(quantity - 1)
      && r.notice == None
    ensures r.request.None? ==> r.notice == Some(SoldOut)
  {
    if quantity > 0 then Reaction(Some(UpdateReq(current, QuantityValues(quantity - 1))), None)
    else Reaction(None, Some(SoldOut))
  }

  /** Minus never stores a negative quantity, whatever quantity the screen displayed. */
  lemma MinusKeepsStock(t: Table, current: Uri, quantity: int, newId: int, insertFails: bool)
    requires StockNonNegative(t)
    ensures var r := Minus(current, quantity);
            r.request.Some? ==> StockNonNegative(Written(t, r.request.value, newId, insertFails))
  {
    var r := Minus(current, quantity);
    if r.request.Some? {
      WrittenKeepsStock(t, r.request.value, newId, insertFails);
    }
  }

  /** Plus of a displayed quantity that is not negative keeps every stored quantity non-negative. */
  lemma PlusKeepsStock(t: Table, current: Uri, quantity: int, newId: int, insertFails: bool)
    requires StockNonNegative(t) && quantity >= 0
    ensures StockNonNegative(Written(t, Plus(current, quantity), newId, insertFails))
  {
    WrittenKeepsStock(t, Plus(current, quantity), newId, insertFails);
  }

  /**
   * saveProduct: nothing is sent only when there is no address and all five
   * inputs are empty. Otherwise the full five-key payload is inserted on
   * CONTENT_URI (no address) or updated on the address with a null selection.
   */
  function SaveRequest(current: Option<Uri>, f: Form): (req: Option<Request>)
    ensures req.None? <==> current.None? && f.AllEmpty()
    ensures req.Some? ==> !req.value.DeleteReq? && req.value.values == FormValues(f)
    ensures req.Some? && current.None? ==> req.value == InsertReq(ContentUri, FormValues(f))
    ensures req.Some? && current.Some? ==> req.value == UpdateReq(current.value, FormValues(f))
  {
    if current.None? && f.name == "" && f.price.None? && f.quantity.None?
       && f.supplierName == "" && f.supplierPhone.None?
    then None
    else
      var values := FormValues(f);
      if current.None? then Some(InsertReq(ContentUri, values))
      else Some(UpdateReq(current.value, values))
  }

  /** deleteProduct: a delete of the address, with a null selection, only when there is one. */
  function DeleteRequest(current: Option<Uri>): (req: Option<Request>)
    ensures req.Some? <==> current.Some?
    ensures req.Some? ==> req.value == DeleteReq(current.value)
  {
    if current.Some? then Some(DeleteReq(current.value)) else None
  }

  /** deleteProduct's message: failure exactly when no row was deleted. */
  function DeleteNotice(rowsDeleted: nat): (n: Notice)
    ensures n == DeleteProductFailed <==> rowsDeleted == 0
    ensures n in {DeleteProductFailed, DeleteProductSucceeded}
  {
    if rowsDeleted == 0 then DeleteProductFailed else DeleteProductSucceeded
  }

  /** Deleting the screen's item address removes that one row and no other. */
  lemma DeleteRemovesOnlyItsRow(t: Table, current: Uri, newId: int, insertFails: bool)
    requires Resolve(current).ProductId?
    ensures Written(t, DeleteRequest(Some(current)).value, newId, insertFails) == t - {Resolve(current).id}
  {
    ItemAddressOverridesSelection(t, Resolve(current).id, Everything, NoValues);
  }

  /**
   * The screen's unsaved-changes flag. Its touch listener is never attached to
   * a view, so nothing in the screen ever sets the flag.
   */
  class Screen {
    var changed: bool

    constructor ()
      ensures !changed
    {
      changed := false;
    }

    /** The home button: leave at once unless the flag is set, else ask to discard first. */
    method Home() returns (nav: Navigation)
      ensures nav == LeaveOrConfirm(changed, NavigateUp)
    {
      nav := LeaveOrConfirm(changed, NavigateUp);
    }
  }
}
