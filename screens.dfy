/**
 * What the screens' handlers produce besides their one resolver call: the
 * message they show, where back/home navigation goes, and the form payload
 * the two save handlers build.
 */
module Screens {
  import opened Wrappers
  import opened Uris
  import opened Provider
  import opened Resolver

  /** The toast messages the handlers choose between. */
  datatype Notice =
    | Sold
    | NotEnoughInventory
    | SoldOut
    | EmptyFields
    | InsertProductFailed
    | InsertProductSucceeded
    | UpdateProductFailed
    | UpdateProductSucceeded
    | DeleteProductFailed
    | DeleteProductSucceeded

  /** A handler's effect: at most one request, and at most one message shown at once. */
  datatype Reaction = Reaction(request: Option<Request>, notice: Option<Notice>)

  /** How a screen is left: finish() or NavUtils.navigateUpFromSameTask. */
  datatype Exit = Finish | NavigateUp

  /** Leave at once, or first ask the user to discard the changes (then leave the same way). */
  datatype Navigation = Leave(exit: Exit) | ConfirmDiscard(after: Exit)

  /**
   * The rule behind every back and home handler of the two screens: leave the
   * requested way at once while nothing has changed, otherwise show the
   * unsaved-changes dialog, whose "discard" leaves that same way.
   */
  function LeaveOrConfirm(changed: bool, exit: Exit): (nav: Navigation)
    ensures nav.Leave? <==> !changed
    ensures nav.Leave? ==> nav.exit == exit
    ensures nav.ConfirmDiscard? ==> nav.after == exit
  {
    if changed then ConfirmDiscard(exit) else Leave(exit)
  }

  /**
   * The five trimmed inputs of a product form. The text columns are kept as
   * text; a numeric input is its value, or None when its text is empty.
   */
  datatype Form = Form(
    name: string,
    price: Option<int>,
    quantity: Option<int>,
    supplierName: string,
    supplierPhone: Option<int>)
  {
    predicate AllEmpty()
    {
      name == "" && price.None? && quantity.None? && supplierName == "" && supplierPhone.None?
    }
  }

  /**
   * The payload both save handlers put: all five keys. An empty numeric text
   * reaches the provider as null (getAsInteger of "" is null).
   */
  function NumberSlot(x: Option<int>): Slot<int>
  {
    if x.Some? then Put(x.value) else Null
  }

  function FormValues(f: Form): (v: Values)
    ensures Size(v) == 5
    ensures v.name == Put(f.name) && v.supplierName == Put(f.supplierName)
    ensures v.price.Get() == f.price && v.quantity.Get() == f.quantity && v.supplierPhone.Get() == f.supplierPhone
  {
    Values(Put(f.name), NumberSlot(f.price), NumberSlot(f.quantity), Put(f.supplierName), NumberSlot(f.supplierPhone))
  }

  /** A payload with only the quantity key, as the sell, plus and minus handlers put. */
  function QuantityValues(q: int): (v: Values)
    ensures Size(v) == 1 && v.quantity == Put(q)
  {
    Values(Unset, Unset, Put(q), Unset, Unset)
  }

  /** The message both save handlers show for the provider's answer. */
  function SaveNotice(r: Response): (n: Notice)
    ensures r.Inserted? ==> n == if r.newUri.Some? then InsertProductSucceeded else InsertProductFailed
    ensures r.Counted? ==> n == if r.rows != 0 then UpdateProductSucceeded else UpdateProductFailed
    ensures n in {InsertProductSucceeded, UpdateProductSucceeded} <==> Succeeded(r)
  {
    match r
    case Inserted(u) => if u == None then InsertProductFailed else InsertProductSucceeded
    case Counted(n) => if n == 0 then UpdateProductFailed else UpdateProductSucceeded
  }
}
