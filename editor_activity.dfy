/**
 * EditorActivity: the add/edit form. saveProduct's guard and its insert-or-
 * update choice, and the back/home rule driven by the touched-fields flag.
 */
module EditorActivity {
  import opened Wrappers
  import opened Uris
  import opened Contract
  import opened Provider
  import opened Resolver
  import opened Screens

  /**
   * saveProduct's guard as written. Java's && binds tighter than ||, so only
   * the empty-name test depends on whether there is an address.
   */
  predicate SaveBlocked(current: Option<Uri>, f: Form)
  {
    (current.None? && f.name == "") || f.price.None? || f.quantity.None? || f.supplierName == "" || f.supplierPhone.None?
  }

  /**
   * saveProduct: a save goes ahead exactly when price, quantity, supplier and
   * phone are all filled in and, for a new product, the name too; otherwise the
   * "empty fields" message and no request. When it goes ahead, the five-key
   * payload is inserted on CONTENT_URI or updated on the address.
   */
  function SaveRequest(current: Option<Uri>, f: Form): (r: Reaction)
    ensures r.request.Some? <==>
      && (current.Some? || f.name != "")
      && f.price.Some? && f.quantity.Some? && f.supplierName != "" && f.supplierPhone.Some?
    ensures r.request.None? ==> r.notice == Some(EmptyFields)
    ensures r.request.Some? ==> r.notice == None && !r.request.value.DeleteReq? && r.request.value.values == FormValues(f)
    ensures r.request.Some? && current.None? ==> r.request.value == InsertReq(ContentUri, FormValues(f))
    ensures r.request.Some? && current.Some? ==> r.request.value == UpdateReq(current.value, FormValues(f))
  {
    if SaveBlocked(current, f) then Reaction(None, Some(EmptyFields))
    else
      var values := FormValues(f);
      if current.None? then Reaction(Some(InsertReq(ContentUri, values)), None)
      else Reaction(Some(UpdateReq(current.value, values)), None)
  }

  /** The editor closes after a save only when it worked: an address came back, or a row was counted. */
  function SaveFinishes(resp: Response): (finishes: bool)
    ensures finishes <==> (resp.Inserted? && resp.newUri.Some?) || (resp.Counted? && resp.rows != 0)
    ensures finishes <==> SaveNotice(resp) in {InsertProductSucceeded, UpdateProductSucceeded}
  {
    Succeeded(resp)
  }

  /**
   * Editing an existing product with an empty name but the other four inputs
   * filled still sends the update, the provider raises no name warning for the
   * empty text, and the stored name becomes empty.
   */
  lemma EmptyNameStillUpdates(t: Table, current: Uri, f: Form, newId: int, insertFails: bool)
    requires Resolve(current).ProductId? && Resolve(current).id in t
    requires f.name == "" && f.price.Some? && f.quantity.Some? && f.supplierName != "" && f.supplierPhone.Some?
    ensures SaveRequest(Some(current), f).request == Some(UpdateReq(current, FormValues(f)))
    ensures RequiresName !in UpdateDiagnostics(FormValues(f))
    ensures Written(t, UpdateReq(current, FormValues(f)), newId, insertFails)[Resolve(current).id].name == Some("")
  {
    ItemUpdateWritesOneRow(t, current, FormValues(f), newId, insertFails);
  }

  /**
   * Validation only warns: an edit that types a negative quantity is stored as
   * typed. The quantity warning is raised when the number fits in an int; one
   * below the int range reads back as null from getAsInteger and draws none.
   */
  lemma NegativeQuantityIsStoredWithWarning(t: Table, current: Uri, f: Form, newId: int, insertFails: bool)
    requires Resolve(current).ProductId? && Resolve(current).id in t
    requires !SaveBlocked(Some(current), f) && Negative(f.quantity)
    ensures SaveRequest(Some(current), f).request == Some(UpdateReq(current, FormValues(f)))
    ensures RequiresValidQuantity in UpdateDiagnostics(FormValues(f)) <==> IsJavaInt(f.quantity.value)
    ensures Written(t, UpdateReq(current, FormValues(f)), newId, insertFails)[Resolve(current).id].quantity == f.quantity
    ensures !StockNonNegative(Written(t, UpdateReq(current, FormValues(f)), newId, insertFails))
  {
    ItemUpdateWritesOneRow(t, current, FormValues(f), newId, insertFails);
  }

  /**
   * A phone number too long for an int, such as a ten-digit one, reads back as
   * null from getAsInteger: saving it draws the phone warning, on insert and on
   * update alike, and the number is stored all the same.
   */
  lemma LongPhoneIsStoredWithWarning(current: Option<Uri>, f: Form)
    requires !SaveBlocked(current, f) && !IsJavaInt(f.supplierPhone.value)
    ensures RequiresValidPhone in Validate(FormValues(f))
    ensures RequiresValidPhone in UpdateDiagnostics(FormValues(f))
    ensures NewRow(FormValues(f)).supplierPhone == f.supplierPhone
    ensures forall row: Product :: Patch(row, FormValues(f)).supplierPhone == f.supplierPhone
  {
  }

  /** The touched-fields flag: false until any of the five inputs is touched, then true for good. */
  class Screen {
    var changed: bool

    constructor ()
      ensures !changed
    {
      changed := false;
    }

    /** The touch listener on each input. */
    method Touch()
      modifies this
      ensures changed
    {
      changed := true;
    }

    /** The back button: finish at once while untouched, else ask to discard first. */
    method Back() returns (nav: Navigation)
      ensures nav == LeaveOrConfirm(changed, Finish)
    {
      nav := LeaveOrConfirm(changed, Finish);
    }

    /** The home button: navigate up at once while untouched, else ask to discard first. */
    method Home() returns (nav: Navigation)
      ensures nav == LeaveOrConfirm(changed, NavigateUp)
    {
      nav := LeaveOrConfirm(changed, NavigateUp);
    }
  }
}
