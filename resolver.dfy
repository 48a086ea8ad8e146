/**
 * The calls the screens make through getContentResolver(). Every screen handler
 * issues at most one of them, always with a null selection, and routes it to
 * the inventory provider. Written and Reply give, as functions of the table,
 * what the provider's methods do with such a call.
 */
module Resolver {
  import opened Wrappers
  import opened Uris
  import opened Contract
  import opened Provider

  /** insert, update or delete, each with a null selection. */
  datatype Request =
    | InsertReq(uri: Uri, values: Values)
    | UpdateReq(uri: Uri, values: Values)
    | DeleteReq(uri: Uri)

  /** What the call returns: the new item address (or null), or a row count. */
  datatype Response = Inserted(newUri: Option<Uri>) | Counted(rows: nat)

  /** A call that changed the store: insert gave an address, or update/delete counted a row. */
  predicate Succeeded(r: Response)
  {
    match r
    case Inserted(u) => u.Some?
    case Counted(n) => n != 0
  }

  /** The table after the provider has handled a request; newId is the id a successful insert gets. */
  function Written(t: Table, req: Request, newId: int, insertFails: bool): Table
  {
    match req
    case InsertReq(u, v) =>
      if Resolve(u) == Products && !insertFails && Size(v) != 0 then t[newId := NewRow(v)] else t
    case UpdateReq(u, v) =>
      if Resolve(u) == NoMatch || Size(v) == 0 then t else Patched(t, Effective(Resolve(u), Everything), v)
    case DeleteReq(u) =>
      if Resolve(u) == NoMatch then t else Without(t, Effective(Resolve(u), Everything))
  }

  /** What the provider answers to a request. */
  function Reply(t: Table, req: Request, newId: int, insertFails: bool): Result<Response, Failure>
  {
    match req
    case InsertReq(u, v) =>
      if Resolve(u) != Products then Err(IllegalArgument)
      else if insertFails || Size(v) == 0 then Ok(Inserted(None))
      else Ok(Inserted(Some(WithAppendedId(u, newId))))
    case UpdateReq(u, v) =>
      if Resolve(u) == NoMatch then Err(IllegalArgument)
      else if Size(v) == 0 then Ok(Counted(0))
      else Ok(Counted(|Matching(t, Effective(Resolve(u), Everything))|))
    case DeleteReq(u) =>
      if Resolve(u) == NoMatch then Err(IllegalArgument)
      else Ok(Counted(|Matching(t, Effective(Resolve(u), Everything))|))
  }

  /** The warnings the provider raises for a request: insert's checks, or update's when the name key is present. */
  function Warnings(req: Request): seq<Diagnostic>
  {
    match req
    case InsertReq(u, v) => if Resolve(u) == Products then Validate(v) else []
    case UpdateReq(u, v) => if Resolve(u) != NoMatch then UpdateDiagnostics(v) else []
    case DeleteReq(_) => []
  }

  /** A request whose payload, if any, holds no negative quantity. */
  predicate NoNegativeQuantity(req: Request)
  {
    !req.DeleteReq? ==> !Negative(req.values.quantity.Get())
  }

  /** A request whose payload holds no negative quantity keeps every stored quantity non-negative. */
  lemma WrittenKeepsStock(t: Table, req: Request, newId: int, insertFails: bool)
    requires StockNonNegative(t)
    requires NoNegativeQuantity(req)
    ensures StockNonNegative(Written(t, req, newId, insertFails))
  {
    match req
    case InsertReq(u, v) =>
    case UpdateReq(u, v) =>
      if Resolve(u) != NoMatch && Size(v) != 0 {
        UpdateKeepsStock(t, Effective(Resolve(u), Everything), v);
      }
    case DeleteReq(u) =>
  }

  /**
   * An update sent to an item address writes only that row: every other row
   * and the set of ids stay as they were.
   */
  lemma {:induction false} ItemUpdateWritesOneRow(t: Table, u: Uri, v: Values, newId: int, insertFails: bool)
    requires Resolve(u).ProductId?
    ensures var k := Resolve(u).id;
            var t' := Written(t, UpdateReq(u, v), newId, insertFails);
            && t'.Keys == t.Keys
            && (forall id :: id in t && id != k ==> t'[id] == t[id])
            && (k in t ==> t'[k] == Patch(t[k], v))
  {
    var k := Resolve(u).id;
    ItemAddressOverridesSelection(t, k, Everything, v);
  }

  /**
   * The content resolver's routing of a request to the provider: the provider
   * method the request names, with a null selection.
   */
  method Perform(p: InventoryProvider, req: Request, insertFails: bool)
      returns (r: Result<Response, Failure>, diagnostics: seq<Diagnostic>)
    requires p.Valid()
    modifies p
    ensures p.Valid()
    ensures r == Reply(old(p.table), req, old(p.nextId), insertFails)
    ensures diagnostics == Warnings(req)
    ensures p.table == Written(old(p.table), req, old(p.nextId), insertFails)
    ensures p.nextId == if req.InsertReq? && r.Ok? && Succeeded(r.value) then old(p.nextId) + 1 else old(p.nextId)
    ensures p.notified == old(p.notified) + if r.Ok? && Succeeded(r.value) then [req.uri] else []
  {
    match req
    case InsertReq(u, v) =>
      var a;
      a, diagnostics := p.Insert(u, v, insertFails);
      r := if a.Ok? then Ok(Inserted(a.value)) else Err(a.error);
    case UpdateReq(u, v) =>
      var n;
      n, diagnostics := p.Update(u, v, Everything);
      r := if n.Ok? then Ok(Counted(n.value)) else Err(n.error);
    case DeleteReq(u) =>
      var n := p.Delete(u, Everything);
      diagnostics := [];
      r := if n.Ok? then Ok(Counted(n.value)) else Err(n.error);
  }
}
