/**
 * InventoryProvider: the content provider that mediates every read and write
 * of the products table. The SQLite table is a map from _id to row; the
 * provider's own decisions (address resolution, selection override, warning-only
 * validation, the empty-update shortcut, when to notify) are modelled as the
 * Java code makes them.
 */
module Provider {
  import opened Wrappers
  import opened Uris
  import opened Contract

  // ---------------------------------------------------------------------------
  // Address resolution (sUriMatcher)
  // ---------------------------------------------------------------------------

  /** UriMatcher.NO_MATCH and the provider's two match codes. */
  const NoMatchCode: int := -1
  const ProductsCode: int := 100
  const ProductIdCode: int := 101

  /** One addURI registration: an authority, a path pattern and the code it yields. */
  datatype Route = Route(authority: string, pattern: seq<string>, code: int)

  /** The routes the static initializer registers, in order. */
  const Routes: seq<Route> := [
    Route(ContentAuthority, [PathProducts], ProductsCode),
    Route(ContentAuthority, [PathProducts, "#"], ProductIdCode)
  ]

  /** A pattern segment `#` stands for any number; any other text must match literally. */
  predicate SegmentMatches(pattern: string, segment: string)
  {
    if pattern == "#" then IsDigits(segment) else pattern == segment
  }

  predicate RouteMatches(r: Route, u: Uri)
  {
    && r.authority == u.authority
    && |r.pattern| == |u.path|
    && forall k :: 0 <= k < |u.path| ==> SegmentMatches(r.pattern[k], u.path[k])
  }

  /**
   * The code of the first route the address fits, NO_MATCH if none. UriMatcher
   * itself walks the path one segment at a time and never backtracks, which can
   * differ from a first-fit scan for route sets in general; for the provider's
   * two routes the results agree, which is all MatchCodeOfRoutes relies on.
   */
  function MatchCode(routes: seq<Route>, u: Uri): int
  {
    if routes == [] then NoMatchCode
    else if RouteMatches(routes[0], u) then routes[0].code
    else MatchCode(routes[1..], u)
  }

  /** What an address names: the whole collection, one product, or nothing the provider knows. */
  datatype UriMatch = Products | ProductId(id: nat) | NoMatch

  predicate IsCollectionShape(u: Uri)
  {
    u.authority == ContentAuthority && u.path == [PathProducts]
  }

  predicate IsItemShape(u: Uri)
  {
    u.authority == ContentAuthority && |u.path| == 2 && u.path[0] == PathProducts && IsDigits(u.path[1])
  }

  lemma MatchCodeOfRoutes(u: Uri)
    ensures MatchCode(Routes, u) == ProductsCode <==> IsCollectionShape(u)
    ensures MatchCode(Routes, u) == ProductIdCode <==> IsItemShape(u)
    ensures MatchCode(Routes, u) in {ProductsCode, ProductIdCode, NoMatchCode}
  {
    var rest := Routes[1..];
    assert rest == [Routes[1]] && rest[1..] == [];
    assert MatchCode(rest, u) == if RouteMatches(Routes[1], u) then ProductIdCode else NoMatchCode;
    assert PathProducts != "#";
    assert RouteMatches(Routes[0], u) <==> IsCollectionShape(u) by {
      if RouteMatches(Routes[0], u) {
        assert SegmentMatches(PathProducts, u.path[0]);
      }
    }
    assert RouteMatches(Routes[1], u) <==> IsItemShape(u) by {
      if RouteMatches(Routes[1], u) {
        assert SegmentMatches(PathProducts, u.path[0]);
        assert SegmentMatches("#", u.path[1]);
      }
      if IsItemShape(u) {
        forall k | 0 <= k < |u.path|
          ensures SegmentMatches(Routes[1].pattern[k], u.path[k])
        {
          if k == 1 {
            assert Routes[1].pattern[1] == "#";
          }
        }
      }
    }
  }

  /** The match code turned into a kind, with the item id read by ContentUris.parseId. */
  function Resolve(u: Uri): UriMatch
  {
    MatchCodeOfRoutes(u);
    var code := MatchCode(Routes, u);
    if code == ProductsCode then Products
    else if code == ProductIdCode then ProductId(ParseId(u))
    else NoMatch
  }

  /**
   * Resolution is a total classification: products is the collection,
   * products/<digits> the item with that number, anything else no match.
   */
  lemma ResolveClassifies(u: Uri)
    ensures Resolve(u) == Products <==> IsCollectionShape(u)
    ensures Resolve(u).ProductId? <==> IsItemShape(u)
    ensures Resolve(u).ProductId? ==> Resolve(u).id == DigitsValue(u.path[1])
    ensures Resolve(u) == NoMatch <==> !IsCollectionShape(u) && !IsItemShape(u)
  {
    MatchCodeOfRoutes(u);
  }

  /** CONTENT_URI names the collection. */
  lemma ContentUriResolves()
    ensures Resolve(ContentUri) == Products
  {
    ResolveClassifies(ContentUri);
  }

  /** CONTENT_URI with an id appended names that item, provided the id has no minus sign. */
  lemma ItemUriResolves(id: int)
    ensures Resolve(WithAppendedId(ContentUri, id)) == if id >= 0 then ProductId(id) else NoMatch
  {
    var u := WithAppendedId(ContentUri, id);
    ResolveClassifies(u);
    IntToStringDigits(id);
    assert u.path == [PathProducts, IntToString(id)];
  }

  // ---------------------------------------------------------------------------
  // getType
  // ---------------------------------------------------------------------------

  /** The exceptions the provider throws for addresses it does not serve. */
  datatype Failure = IllegalArgument | IllegalState

  /** getType: the list descriptor for the collection, the item descriptor for an item, otherwise IllegalStateException. */
  function GetType(u: Uri): (r: Result<string, Failure>)
    ensures r == Ok(ContentListType) <==> IsCollectionShape(u)
    ensures r == Ok(ContentItemType) <==> IsItemShape(u)
    ensures r == Err(IllegalState) <==> !IsCollectionShape(u) && !IsItemShape(u)
  {
    ResolveClassifies(u);
    TypeDescriptorsDistinct();
    match Resolve(u)
    case Products => Ok(ContentListType)
    case ProductId(_) => Ok(ContentItemType)
    case NoMatch => Err(IllegalState)
  }

  // ---------------------------------------------------------------------------
  // Rows and ContentValues
  // ---------------------------------------------------------------------------

  /** A row of the products table apart from its _id; every column may hold NULL. */
  datatype Product = Product(
    name: Option<string>,
    price: Option<int>,
    quantity: Option<int>,
    supplierName: Option<string>,
    supplierPhone: Option<int>)

  /** One key of a ContentValues bag: not put at all, put as null, or put with a value. */
  datatype Slot<T> = Unset | Null | Put(value: T) {
    /** containsKey */
    predicate Present()
    {
      !Unset?
    }

    /** getAsString, and the value SQLite stores for the key: null unless a value was put. */
    function Get(): Option<T>
    {
      if Put? then Some(value) else None
    }
  }

  /** The range of a Java int. */
  const IntMin: int := -0x8000_0000
  const IntMax: int := 0x7fff_ffff

  predicate IsJavaInt(x: int)
  {
    IntMin <= x <= IntMax
  }

  /**
   * getAsInteger: the number put, or null when nothing or null was put, or when
   * the number put does not fit in an int (Integer.valueOf of its text fails).
   */
  function AsInteger(s: Slot<int>): (r: Option<int>)
    ensures r.Some? <==> s.Put? && IsJavaInt(s.value)
    ensures r.Some? ==> r.value == s.value
  {
    if s.Put? && IsJavaInt(s.value) then Some(s.value) else None
  }

  /** The ContentValues a caller hands to insert or update, one slot per writable column. */
  datatype Values = Values(
    name: Slot<string>,
    price: Slot<int>,
    quantity: Slot<int>,
    supplierName: Slot<string>,
    supplierPhone: Slot<int>)

  const NoValues: Values := Values(Unset, Unset, Unset, Unset, Unset)

  function Count(b: bool): nat
  {
    if b then 1 else 0
  }

  /** ContentValues.size: how many keys were put. */
  function Size(v: Values): (n: nat)
    ensures n <= 5
    ensures n == 0 <==> v == NoValues
  {
    Count(v.name.Present()) + Count(v.price.Present()) + Count(v.quantity.Present())
      + Count(v.supplierName.Present()) + Count(v.supplierPhone.Present())
  }

  /** The row a successful insert stores: the values put, NULL in every other column. */
  function NewRow(v: Values): Product
  {
    Product(v.name.Get(), v.price.Get(), v.quantity.Get(), v.supplierName.Get(), v.supplierPhone.Get())
  }

  function Overwrite<T>(current: Option<T>, s: Slot<T>): Option<T>
  {
    if s.Present() then s.Get() else current
  }

  /** A row after an update writes v: every key present is replaced, every other column kept. */
  function Patch(p: Product, v: Values): Product
  {
    Product(
      Overwrite(p.name, v.name),
      Overwrite(p.price, v.price),
      Overwrite(p.quantity, v.quantity),
      Overwrite(p.supplierName, v.supplierName),
      Overwrite(p.supplierPhone, v.supplierPhone))
  }

  /** A payload that writes every column replaces the row outright; writing again changes nothing. */
  lemma PatchProperties(p: Product, v: Values)
    ensures v == NoValues ==> Patch(p, v) == p
    ensures Size(v) == 5 ==> Patch(p, v) == NewRow(v)
    ensures Patch(Patch(p, v), v) == Patch(p, v)
  {
  }

  // ---------------------------------------------------------------------------
  // Validation: warnings only
  // ---------------------------------------------------------------------------

  /** The provider's warning toasts, in the order the checks run. */
  datatype Diagnostic =
    | RequiresName
    | RequiresValidPrice
    | RequiresValidQuantity
    | RequiresSupplier
    | RequiresValidPhone

  predicate Negative(x: Option<int>)
  {
    x.Some? && x.value < 0
  }

  function When(b: bool, d: Diagnostic): seq<Diagnostic>
  {
    if b then [d] else []
  }

  /**
   * The checks of insertProduct: a null name, supplier or phone, or a negative
   * price or quantity, each yields its warning. Zero is an acceptable price and
   * quantity, and an absent price or quantity is not complained about.
   */
  function Validate(v: Values): (d: seq<Diagnostic>)
    ensures RequiresName in d <==> v.name.Get() == None
    ensures RequiresValidPrice in d <==> Negative(AsInteger(v.price))
    ensures RequiresValidQuantity in d <==> Negative(AsInteger(v.quantity))
    ensures RequiresSupplier in d <==> v.supplierName.Get() == None
    ensures RequiresValidPhone in d <==> AsInteger(v.supplierPhone) == None
    ensures |d| <= 5
  {
    When(v.name.Get() == None, RequiresName)
      + When(Negative(AsInteger(v.price)), RequiresValidPrice)
      + When(Negative(AsInteger(v.quantity)), RequiresValidQuantity)
      + When(v.supplierName.Get() == None, RequiresSupplier)
      + When(AsInteger(v.supplierPhone) == None, RequiresValidPhone)
  }

  /** With name, supplier and an int-sized phone put, and no negative number, insert raises no warning. */
  lemma ValidateAcceptsComplete(v: Values)
    requires v.name.Put? && v.supplierName.Put? && v.supplierPhone.Put? && IsJavaInt(v.supplierPhone.value)
    requires !Negative(v.price.Get()) && !Negative(v.quantity.Get())
    ensures Validate(v) == []
  {
  }

  /**
   * The checks of updateProduct: the same warnings as insert, but only when the
   * name key is present; a payload without it is not checked at all.
   */
  function UpdateDiagnostics(v: Values): (d: seq<Diagnostic>)
    ensures !v.name.Present() ==> d == []
    ensures RequiresName in d <==> v.name == Null
    ensures RequiresValidPrice in d <==> v.name.Present() && Negative(AsInteger(v.price))
    ensures RequiresValidQuantity in d <==> v.name.Present() && Negative(AsInteger(v.quantity))
    ensures RequiresSupplier in d <==> v.name.Present() && v.supplierName.Get() == None
    ensures RequiresValidPhone in d <==> v.name.Present() && AsInteger(v.supplierPhone) == None
  {
    if v.name.Present() then Validate(v) else []
  }

  // ---------------------------------------------------------------------------
  // Selections and the backend (SQLiteDatabase) on a map
  // ---------------------------------------------------------------------------

  /**
   * A selection with its arguments: none (every row), the provider's own
   * `_id=?` with one id, or a caller's clause, opaque here, as a predicate on a
   * row's id and columns.
   */
  datatype Where = Everything | IdEquals(key: int) | Filter(holds: (int, Product) -> bool)

  predicate Holds(w: Where, id: int, p: Product)
  {
    match w
    case Everything => true
    case IdEquals(k) => id == k
    case Filter(f) => f(id, p)
  }

  /** The selection the provider passes on: an item address replaces the caller's by `_id=?` with its id. */
  function Effective(m: UriMatch, w: Where): Where
  {
    if m.ProductId? then IdEquals(m.id) else w
  }

  type Table = map<int, Product>

  /** The ids of the rows a selection picks. */
  function Matching(t: Table, w: Where): set<int>
  {
    set id | id in t && Holds(w, id, t[id])
  }

  /** SQLiteDatabase.query: the rows a selection picks. */
  function Select(t: Table, w: Where): Table
  {
    map id | id in t && Holds(w, id, t[id]) :: t[id]
  }

  /** SQLiteDatabase.update: the rows a selection picks, patched with v. */
  function Patched(t: Table, w: Where, v: Values): Table
  {
    map id | id in t :: if Holds(w, id, t[id]) then Patch(t[id], v) else t[id]
  }

  /** SQLiteDatabase.delete: the rows a selection does not pick. */
  function Without(t: Table, w: Where): Table
  {
    map id | id in t && !Holds(w, id, t[id]) :: t[id]
  }

  /**
   * An item address acts on exactly the row with its id, whatever selection the
   * caller passed: query finds at most that row, update patches only it, delete
   * removes only it.
   */
  lemma {:induction false} ItemAddressOverridesSelection(t: Table, k: nat, w: Where, v: Values)
    ensures Matching(t, Effective(ProductId(k), w)) == if k in t then {k} else {}
    ensures Select(t, Effective(ProductId(k), w)) == if k in t then map[k := t[k]] else map[]
    ensures Patched(t, Effective(ProductId(k), w), v) == if k in t then t[k := Patch(t[k], v)] else t
    ensures Without(t, Effective(ProductId(k), w)) == t - {k}
  {
    var e := Effective(ProductId(k), w);
    assert e == IdEquals(k);
    if k in t {
      assert Select(t, e) == map[k := t[k]];
      assert Patched(t, e, v) == t[k := Patch(t[k], v)];
    } else {
      assert Select(t, e) == map[];
      assert Patched(t, e, v) == t;
    }
    assert Without(t, e) == t - {k};
  }

  /** The collection address passes the caller's selection on unchanged; no selection at all picks every row. */
  lemma CollectionKeepsSelection(t: Table, w: Where, id: int)
    requires id in t
    ensures id in Matching(t, Effective(Products, w)) <==> Holds(w, id, t[id])
    ensures Matching(t, Effective(Products, Everything)) == t.Keys
    ensures Select(t, Effective(Products, Everything)) == t
    ensures Without(t, Effective(Products, Everything)) == map[]
  {
  }

  /** update keeps every id and every row it does not pick; delete removes exactly the rows counted. */
  lemma {:induction false} BackendCounts(t: Table, w: Where, v: Values)
    ensures Patched(t, w, v).Keys == t.Keys
    ensures forall id :: id in t && id !in Matching(t, w) ==> Patched(t, w, v)[id] == t[id]
    ensures forall id :: id in Matching(t, w) ==> Patched(t, w, v)[id] == Patch(t[id], v)
    ensures Without(t, w).Keys == t.Keys - Matching(t, w)
    ensures |Without(t, w)| == |t| - |Matching(t, w)|
  {
    var kept := Without(t, w).Keys;
    var gone := Matching(t, w);
    assert kept == t.Keys - gone;
    assert kept !! gone && kept + gone == t.Keys;
    assert |kept + gone| == |kept| + |gone|;
    assert |Without(t, w)| == |kept|;
  }

  /** Quantity is never stored negative. */
  ghost predicate StockNonNegative(t: Table)
  {
    forall id :: id in t ==> !Negative(t[id].quantity)
  }

  /** An update whose payload carries no negative quantity cannot make any stored quantity negative. */
  lemma UpdateKeepsStock(t: Table, w: Where, v: Values)
    requires StockNonNegative(t)
    requires !Negative(v.quantity.Get())
    ensures StockNonNegative(Patched(t, w, v))
  {
  }

  // ---------------------------------------------------------------------------
  // The provider
  // ---------------------------------------------------------------------------

  /** What query returns: the rows and the address the cursor is registered to observe. */
  datatype Cursor = Cursor(rows: Table, notificationUri: Uri)

  class InventoryProvider {
    /** The products table, by _id. */
    var table: Table
    /** The _id SQLite assigns to the next inserted row. */
    var nextId: int
    /** The addresses passed to notifyChange, oldest first. */
    var notified: seq<Uri>

    ghost predicate Valid()
      reads this
    {
      nextId > 0 && forall id :: id in table ==> 0 < id < nextId
    }

    /**
     * The state over a freshly created database: no rows, no id handed out, no
     * notification. onCreate only opens the helper over whatever database is
     * on the device, so every method is specified for any Valid() state.
     */
    constructor ()
      ensures Valid()
      ensures table == map[] && nextId == 1 && notified == []
    {
      table := map[];
      nextId := 1;
      notified := [];
    }

    /**
     * query: an unknown address throws; otherwise the rows the effective
     * selection picks, in a cursor that observes the queried address.
     */
    method Query(uri: Uri, selection: Where) returns (r: Result<Cursor, Failure>)
      ensures r.Err? <==> Resolve(uri) == NoMatch
      ensures r.Err? ==> r.error == IllegalArgument
      ensures r.Ok? ==> r.value.notificationUri == uri
      ensures r.Ok? ==> r.value.rows == Select(table, Effective(Resolve(uri), selection))
      ensures r.Ok? ==> forall id :: id in r.value.rows ==> id in table && r.value.rows[id] == table[id]
      ensures r.Ok? && Resolve(uri).ProductId? ==> r.value.rows.Keys <= {Resolve(uri).id}
    {
      var kind := Resolve(uri);
      var cursor: Cursor;
      match kind {
        case Products =>
          cursor := Cursor(Select(table, selection), uri);
        case ProductId(id) =>
          var where := IdEquals(ParseIdOf(uri));
          cursor := Cursor(Select(table, where), uri);
          ItemAddressOverridesSelection(table, id, selection, NoValues);
        case NoMatch =>
          return Err(IllegalArgument);
      }
      r := Ok(cursor);
    }

    /**
     * insert, with insertProduct: only the collection address is accepted. The
     * warnings are computed but never stop the write. The backend refuses an
     * empty payload, since insertProduct passes no nullColumnHack, and may refuse
     * any other row (insert returned -1): that yields null and no notification; otherwise the new
     * row gets the next id, the collection address is notified once, and that
     * address with the new id appended is returned.
     */
    method Insert(uri: Uri, values: Values, backendFails: bool)
        returns (r: Result<Option<Uri>, Failure>, diagnostics: seq<Diagnostic>)
      requires Valid()
      modifies this
      ensures Valid()
      ensures Resolve(uri) != Products ==>
        && r == Err(IllegalArgument) && diagnostics == []
        && table == old(table) && nextId == old(nextId) && notified == old(notified)
      ensures Resolve(uri) == Products ==> diagnostics == Validate(values)
      ensures Resolve(uri) == Products && (backendFails || Size(values) == 0) ==>
        && r == Ok(None)
        && table == old(table) && nextId == old(nextId) && notified == old(notified)
      ensures Resolve(uri) == Products && !backendFails && Size(values) != 0 ==>
        && r == Ok(Some(WithAppendedId(uri, old(nextId))))
        && old(nextId) !in old(table)
        && table == old(table)[old(nextId) := NewRow(values)]
        && nextId == old(nextId) + 1
        && notified == old(notified) + [uri]
    {
      if Resolve(uri) != Products {
        return Err(IllegalArgument), [];
      }
      diagnostics := Validate(values);
      if backendFails || Size(values) == 0 {
        return Ok(None), diagnostics;
      }
      var id := nextId;
      table := table[id := NewRow(values)];
      nextId := nextId + 1;
      notified := notified + [uri];
      r := Ok(Some(WithAppendedId(uri, id)));
    }

    /**
     * update, with updateProduct: an unknown address throws. Otherwise the
     * warnings are computed (only when the name key is present); an empty
     * payload returns 0 without writing; else the picked rows are patched, their
     * number is returned, and the address is notified if and only if it is not 0.
     */
    method Update(uri: Uri, values: Values, selection: Where)
        returns (r: Result<nat, Failure>, diagnostics: seq<Diagnostic>)
      requires Valid()
      modifies this
      ensures Valid() && nextId == old(nextId)
      ensures Resolve(uri) == NoMatch ==>
        r == Err(IllegalArgument) && diagnostics == [] && table == old(table) && notified == old(notified)
      ensures Resolve(uri) != NoMatch ==> diagnostics == UpdateDiagnostics(values)
      ensures Resolve(uri) != NoMatch && Size(values) == 0 ==>
        r == Ok(0) && table == old(table) && notified == old(notified)
      ensures Resolve(uri) != NoMatch && Size(values) != 0 ==>
        var w := Effective(Resolve(uri), selection);
        var n := |Matching(old(table), w)|;
        && r == Ok(n)
        && table == Patched(old(table), w, values)
        && notified == old(notified) + (if n != 0 then [uri] else [])
    {
      var where: Where;
      match Resolve(uri) {
        case Products =>
          where := selection;
        case ProductId(_) =>
          where := IdEquals(ParseIdOf(uri));
        case NoMatch =>
          return Err(IllegalArgument), [];
      }
      diagnostics := UpdateDiagnostics(values);
      if Size(values) == 0 {
        return Ok(0), diagnostics;
      }
      var rowsUpdated := |Matching(table, where)|;
      BackendCounts(table, where, values);
      table := Patched(table, where, values);
      if rowsUpdated != 0 {
        notified := notified + [uri];
      }
      r := Ok(rowsUpdated);
    }

    /**
     * delete: an unknown address throws. Otherwise the picked rows are removed,
     * their number is returned, and the address is notified if and only if it
     * is not 0.
     */
    method Delete(uri: Uri, selection: Where) returns (r: Result<nat, Failure>)
      requires Valid()
      modifies this
      ensures Valid() && nextId == old(nextId)
      ensures Resolve(uri) == NoMatch ==>
        r == Err(IllegalArgument) && table == old(table) && notified == old(notified)
      ensures Resolve(uri) != NoMatch ==>
        var w := Effective(Resolve(uri), selection);
        var n := |Matching(old(table), w)|;
        && r == Ok(n)
        && table == Without(old(table), w)
        && |table| == |old(table)| - n
        && notified == old(notified) + (if n != 0 then [uri] else [])
    {
      var where: Where;
      match Resolve(uri) {
        case Products =>
          where := selection;
        case ProductId(_) =>
          where := IdEquals(ParseIdOf(uri));
        case NoMatch =>
          return Err(IllegalArgument);
      }
      var rowsDeleted := |Matching(table, where)|;
      BackendCounts(table, where, NoValues);
      table := Without(table, where);
      if rowsDeleted != 0 {
        notified := notified + [uri];
      }
      r := Ok(rowsDeleted);
    }
  }

  /** ContentUris.parseId on an address the matcher has recognised as an item. */
  function ParseIdOf(u: Uri): (id: nat)
    requires Resolve(u).ProductId?
    ensures id == Resolve(u).id
  {
    ResolveClassifies(u);
    ParseId(u)
  }
}
