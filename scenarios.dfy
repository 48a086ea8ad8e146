/**
 * Clients of the model: a provider driven through the screens' requests,
 * checked by what the specifications alone let a caller conclude.
 */
module Scenarios {
  import opened Wrappers
  import opened Uris
  import opened Contract
  import opened Provider
  import opened Resolver
  import opened Screens
  import CursorAdapter
  import ViewActivity
  import EditorActivity

  const Widget: Form := Form("Widget", Some(10), Some(5), "Acme", Some(5551234))
  const StoredWidget: Product := Product(Some("Widget"), Some(10), Some(5), Some("Acme"), Some(5551234))

  /** Saving a new widget in the editor inserts it as product 1, with no warning. */
  method InsertWidget() returns (p: InventoryProvider, warnings: seq<Diagnostic>)
    ensures fresh(p)
    ensures p.Valid() && p.table == map[1 := StoredWidget] && p.nextId == 2
    ensures p.notified == [ContentUri]
    ensures warnings == []
  {
    p := new InventoryProvider();
    ContentUriResolves();
    var save := EditorActivity.SaveRequest(None, Widget);
    assert save.request == Some(InsertReq(ContentUri, FormValues(Widget)));
    var r;
    r, warnings := Perform(p, save.request.value, false);
    assert r == Ok(Inserted(Some(WithAppendedId(ContentUri, 1))));
  }

  /**
   * The address a successful insert returns, queried straight away with any
   * selection, yields exactly the row stored from the fields supplied.
   */
  method InsertThenQuery(p: InventoryProvider, uri: Uri, v: Values, selection: Where)
      returns (newUri: Uri, rows: Table)
    requires p.Valid() && Resolve(uri) == Products && Size(v) != 0
    modifies p
    ensures p.Valid()
    ensures Resolve(newUri) == ProductId(old(p.nextId))
    ensures rows == map[old(p.nextId) := NewRow(v)]
  {
    var r, _ := p.Insert(uri, v, false);
    newUri := r.value.value;
    var id := old(p.nextId);
    ResolveClassifies(uri);
    ResolveClassifies(newUri);
    IntToStringDigits(id);
    assert newUri.path == [PathProducts, IntToString(id)];
    var q := p.Query(newUri, selection);
    ItemAddressOverridesSelection(p.table, id, selection, NoValues);
    rows := q.value.rows;
  }

  /** Querying product 1 returns exactly the fields supplied, even with a selection that picks nothing. */
  method ReadWidgetBack(p: InventoryProvider) returns (q: Result<Cursor, Failure>)
    requires p.Valid() && p.table == map[1 := StoredWidget]
    ensures q == Ok(Cursor(map[1 := StoredWidget], WithAppendedId(ContentUri, 1)))
  {
    var item := WithAppendedId(ContentUri, 1);
    ItemUriResolves(1);
    var nothing := Filter((id, row) => false);
    q := p.Query(item, nothing);
    ItemAddressOverridesSelection(p.table, 1, nothing, NoValues);
  }

  /** Selling one widget from the list stores quantity 4 and leaves the other columns as they were. */
  method SellWidget(p: InventoryProvider)
    requires p.Valid() && p.table == map[1 := StoredWidget]
    modifies p
    ensures p.Valid() && p.table == map[1 := StoredWidget.(quantity := Some(4))]
  {
    var sell := CursorAdapter.Sell(1, 5);
    CursorAdapter.SellTouchesOnlyItsRow(p.table, 1, 5, p.nextId, false);
    var r, _ := Perform(p, sell.request.value, false);
    assert p.table.Keys == {1};
  }

  /** Deleting product 999, which does not exist, counts 0 rows and notifies no one. */
  method DeleteMissing(p: InventoryProvider)
    requires p.Valid() && 999 !in p.table
    modifies p
    ensures p.Valid() && p.table == old(p.table) && p.notified == old(p.notified)
  {
    ItemUriResolves(999);
    var gone := p.Delete(WithAppendedId(ContentUri, 999), Everything);
    ItemAddressOverridesSelection(p.table, 999, Everything, NoValues);
    assert gone == Ok(0);
  }

  /** Inserting on an item address is refused and writes nothing. */
  method InsertOnItem(p: InventoryProvider)
    requires p.Valid()
    modifies p
    ensures p.table == old(p.table)
  {
    ItemUriResolves(5);
    var wrong, _ := p.Insert(WithAppendedId(ContentUri, 5), FormValues(Widget), false);
    assert wrong == Err(IllegalArgument);
  }

  /** The walk-through: insert, read back, sell, delete a missing product, insert on an item address. */
  method WidgetLifecycle()
  {
    var p, _ := InsertWidget();
    var _ := ReadWidgetBack(p);
    SellWidget(p);
    DeleteMissing(p);
    InsertOnItem(p);
  }

  /** Two inserts, then a query of the collection with no selection, returns both rows. */
  method TwoInsertsThenList(a: Values, b: Values) returns (all: Result<Cursor, Failure>)
    requires Size(a) != 0 && Size(b) != 0
    ensures all == Ok(Cursor(map[1 := NewRow(a), 2 := NewRow(b)], ContentUri))
  {
    var p := new InventoryProvider();
    ContentUriResolves();
    var r1, _ := p.Insert(ContentUri, a, false);
    var r2, _ := p.Insert(ContentUri, b, false);
    all := p.Query(ContentUri, Everything);
    CollectionKeepsSelection(p.table, Everything, 1);
  }

  /** An insert with no values is refused by the backend: null, no row, no notification. */
  method InsertNothing(p: InventoryProvider) returns (r: Result<Option<Uri>, Failure>)
    requires p.Valid()
    modifies p
    ensures r == Ok(None)
    ensures p.Valid() && p.table == old(p.table) && p.notified == old(p.notified)
  {
    ContentUriResolves();
    var warnings;
    r, warnings := p.Insert(ContentUri, NoValues, false);
  }

  /** Whatever the displayed quantity, a sell keeps every stored quantity non-negative. */
  method SellOnce(p: InventoryProvider, productId: int, quantity: int, insertFails: bool)
    requires p.Valid() && StockNonNegative(p.table)
    modifies p
    ensures p.Valid() && StockNonNegative(p.table)
  {
    var reaction := CursorAdapter.Sell(productId, quantity);
    if reaction.request.Some? {
      CursorAdapter.SellKeepsStock(p.table, productId, quantity, p.nextId, insertFails);
      var _, _ := Perform(p, reaction.request.value, insertFails);
    }
  }

  /** Back leaves the editor at once until a field is touched; after that it asks first. */
  method EditorNavigation()
  {
    var e := new EditorActivity.Screen();
    var nav := e.Back();
    assert nav == Leave(Finish);
    e.Touch();
    nav := e.Back();
    assert nav == ConfirmDiscard(Finish);
    nav := e.Home();
    assert nav == ConfirmDiscard(NavigateUp);

    var v := new ViewActivity.Screen();
    nav := v.Home();
    assert nav == Leave(NavigateUp);
  }
}
