# InventoryApp data-access layer in Dafny

A model of the data-access core of an Android inventory application and of the
small decision rules its screens apply before calling it.

- **Addressing** (`Uris`, `Contract`, first part of `Provider`). The content
  authority `com.example.android.inventoryapp` and the collection address
  `content://com.example.android.inventoryapp/products` are defined here. So
  are the two type descriptors and the table and column names. The provider's
  `UriMatcher` is a route table: `products` gives code 100, `products/#` gives
  code 101, and anything else gives `NO_MATCH`. Resolution turns an address
  into `Products`, `ProductId(id)` or `NoMatch`.
- **Store mediator** (`Provider.InventoryProvider`). A class over the products
  table (`map<int, Product>`), the next row id, and a log of the addresses
  passed to `notifyChange`. `Query`, `Insert`, `Update` and `Delete` follow the
  Java methods branch for branch:
  - an item address replaces the caller's selection by `_id = id`;
  - insert is accepted only on the collection address;
  - a refused backend insert returns null and notifies no one. An empty
    payload is always refused, because `insertProduct` passes no
    `nullColumnHack`;
  - an empty update returns 0 without writing;
  - update and delete notify exactly when their count is not 0;
  - validation only warns. Its diagnostics are returned as an extra output and
    never stop the write.

  `GetType` is a function of the address. The backend (SQLite) is modelled as
  functions on the map. `Select`, `Patched` and `Without` give what query,
  update and delete do with a selection.
- **Caller-side rules** (`CursorAdapter`, `ViewActivity`, `EditorActivity`,
  with shared types in `Screens` and `Resolver`). Each handler is a pure
  function that returns the single request it issues (or none) and the message
  it shows:
  - sell and minus lower the quantity by one, and only when it is positive;
  - plus raises it by one;
  - each screen decides between insert and update in its own way when saving;
  - delete is issued only when there is an address.

  `Resolver.Written` and `Resolver.Reply` give, as functions of the
  table, what the provider does with such a request. `Resolver.Perform` routes a
  request to the provider's methods and is proved to match them. On top of this,
  the sell and minus paths are proved never to store a negative quantity, for
  any displayed quantity. The plus path is proved to do the same when the
  displayed quantity is not negative, with Java's `int` wrap-around left out.
  The editor's dirty flag is a small class (`EditorActivity.Screen`).
- **Clients** (`Scenarios`). A walk-through driven through the class contracts
  alone: insert a widget, read it back by its item address, sell one, delete a
  missing product, and insert on an item address.

Decisions where the code and its design description differ (the code is followed):

- Insert's checks test for null only. An empty name or supplier text passes
  without a warning.
- Update runs the checks only when the name key is present. It then runs all of
  insert's checks, including the supplier and phone ones, whether or not those
  keys are in the payload. A quantity-only update is never checked.
- Notification goes to exactly the address the caller used. No ancestor address
  is notified.
- `#` accepts any non-empty run of digits, so `products/0` and `products/007`
  are item addresses. The matcher looks at the authority and path segments only,
  never at the scheme.
- For the open design question, the legacy warn-but-write behaviour is kept.

## Model

| member | source | states |
|---|---|---|
| Contract.Columns | app/src/main/java/com/example/android/inventoryapp/data/InventoryContract.java:34-46 | six column names, `_id` first, pairwise distinct |
| Contract.ContentUriShape | app/src/main/java/com/example/android/inventoryapp/data/InventoryContract.java:13-31 | the collection address has scheme `content`, the app's authority and the single segment `products` |
| Contract.TypeDescriptorsDistinct | app/src/main/java/com/example/android/inventoryapp/data/InventoryContract.java:22-29 | both descriptors end in `/authority/products`; their base types differ, so the descriptors differ |
| Uris.DecimalRoundTrip | app/src/main/java/com/example/android/inventoryapp/InventoryCursorAdapter.java:35-36 | reading back the decimal spelling of a natural number gives that number |
| Uris.IntToStringDigits | app/src/main/java/com/example/android/inventoryapp/InventoryCursorAdapter.java:36 | `Integer.toString(i)` is a run of digits iff `i >= 0`, and then it reads back as `i` |
| Uris.ParseAppendedId | app/src/main/java/com/example/android/inventoryapp/data/InventoryProvider.java:65-67 | `parseId` undoes `withAppendedId` for every non-negative id |
| Provider.MatchCodeOfRoutes | app/src/main/java/com/example/android/inventoryapp/data/InventoryProvider.java:19-39 | the registered routes give 100 exactly for `authority/products` and 101 exactly for `authority/products/<digits>`, and `NO_MATCH` otherwise |
| Provider.ResolveClassifies | app/src/main/java/com/example/android/inventoryapp/data/InventoryProvider.java:26-39 | total classification: collection iff `products`, item iff `products/<digits>` (with the digits' value as id), no match iff neither |
| Provider.ContentUriResolves | app/src/main/java/com/example/android/inventoryapp/data/InventoryProvider.java:34-36 | `CONTENT_URI` resolves to the collection |
| Provider.ItemUriResolves | app/src/main/java/com/example/android/inventoryapp/data/InventoryProvider.java:37-39 | `CONTENT_URI` with `id` appended resolves to item `id` when `id >= 0`, and to no match when the id is negative |
| Uris.WithAppendedPath | app/src/main/java/com/example/android/inventoryapp/InventoryCursorAdapter.java:36 | definition: the same address with one more path segment; `Uris.ParseAppendedId` and `CursorAdapter.RowUri` state its properties |
| Uris.IntToString | app/src/main/java/com/example/android/inventoryapp/InventoryCursorAdapter.java:36 | definition of `Integer.toString`; `Uris.IntToStringDigits` and `Uris.DecimalRoundTrip` state its properties |
| Uris.WithAppendedId | app/src/main/java/com/example/android/inventoryapp/data/InventoryProvider.java:143 | definition of `ContentUris.withAppendedId`; `Uris.ParseAppendedId` and `Provider.ItemUriResolves` state its properties |
| Uris.ParseId | app/src/main/java/com/example/android/inventoryapp/data/InventoryProvider.java:67 | definition of `ContentUris.parseId` on a digit segment; `Uris.ParseAppendedId` states it inverts `withAppendedId` |
| Provider.MatchCode | app/src/main/java/com/example/android/inventoryapp/data/InventoryProvider.java:26-39 | a first-fit scan over the routes. It agrees with `UriMatcher.match`'s segment-by-segment walk for the two registered routes, and `Provider.MatchCodeOfRoutes` states what it returns for them |
| Provider.Resolve | app/src/main/java/com/example/android/inventoryapp/data/InventoryProvider.java:59-73 | definition of the switch on the match code with `parseId`; `Provider.ResolveClassifies`, `Provider.ContentUriResolves` and `Provider.ItemUriResolves` state its properties |
| Provider.NewRow | app/src/main/java/com/example/android/inventoryapp/data/InventoryProvider.java:133 | definition of the inserted row; `Provider.PatchProperties` and `Scenarios.InsertThenQuery` state its properties |
| Provider.Patch | app/src/main/java/com/example/android/inventoryapp/data/InventoryProvider.java:227-228 | definition of one row's update; `Provider.PatchProperties` states its properties |
| Provider.Effective | app/src/main/java/com/example/android/inventoryapp/data/InventoryProvider.java:65-67 | definition of the selection passed on: `_id=?` with the item's id replaces the caller's; `Provider.ItemAddressOverridesSelection` and `Provider.CollectionKeepsSelection` state its properties |
| Provider.ParseIdOf | app/src/main/java/com/example/android/inventoryapp/data/InventoryProvider.java:67 | `parseId` of an address the matcher recognised as an item is that item's id |
| Provider.Select | app/src/main/java/com/example/android/inventoryapp/data/InventoryProvider.java:62-69 | definition of the backend query; `Provider.ItemAddressOverridesSelection` and `Provider.CollectionKeepsSelection` state its properties |
| Provider.Patched | app/src/main/java/com/example/android/inventoryapp/data/InventoryProvider.java:227-228 | definition of the backend update; `Provider.BackendCounts`, `Provider.ItemAddressOverridesSelection` and `Provider.UpdateKeepsStock` state its properties |
| Provider.Without | app/src/main/java/com/example/android/inventoryapp/data/InventoryProvider.java:159-165 | definition of the backend delete; `Provider.BackendCounts`, `Provider.ItemAddressOverridesSelection` and `Provider.CollectionKeepsSelection` state its properties |
| Resolver.Written | app/src/main/java/com/example/android/inventoryapp/data/InventoryProvider.java:93-233 | definition of the table after a null-selection request; `Resolver.Perform`, `Resolver.WrittenKeepsStock` and `Resolver.ItemUpdateWritesOneRow` state its properties |
| Resolver.Reply | app/src/main/java/com/example/android/inventoryapp/data/InventoryProvider.java:93-233 | definition of the provider's answer to a request; `Resolver.Perform` states the class methods return it |
| Resolver.Warnings | app/src/main/java/com/example/android/inventoryapp/data/InventoryProvider.java:104-217 | definition of the warnings a request draws; `Resolver.Perform` states the class methods raise them, and `Provider.Validate` and `Provider.UpdateDiagnostics` give their content |
| EditorActivity.SaveBlocked | app/src/main/java/com/example/android/inventoryapp/EditorActivity.java:82-87 | definition of the guard as Java's precedence parses it; `EditorActivity.SaveRequest` states its meaning and `EditorActivity.EmptyNameStillUpdates` its effect |
| Provider.GetType | app/src/main/java/com/example/android/inventoryapp/data/InventoryProvider.java:79-90 | list descriptor iff collection shape, item descriptor iff item shape, `IllegalStateException` otherwise |
| Provider.Size | app/src/main/java/com/example/android/inventoryapp/data/InventoryProvider.java:220-222 | `values.size()` is at most 5 and is 0 exactly for the empty payload |
| Provider.PatchProperties | app/src/main/java/com/example/android/inventoryapp/data/InventoryProvider.java:227-228 | writing no keys keeps a row; writing all five replaces it by the new-row image; writing twice equals writing once |
| Provider.AsInteger | app/src/main/java/com/example/android/inventoryapp/data/InventoryProvider.java:111 | `getAsInteger` yields the number put when it fits in an `int`, and null when nothing or null was put or the number is out of `int` range |
| Provider.Validate | app/src/main/java/com/example/android/inventoryapp/data/InventoryProvider.java:104-129 | there is one warning per failed check: null name, negative price, negative quantity, null supplier, null phone, with the numbers read through `getAsInteger`. Each warning is present iff its condition holds, so 0 and absent prices and quantities pass, and a phone outside the `int` range warns |
| Provider.ValidateAcceptsComplete | app/src/main/java/com/example/android/inventoryapp/data/InventoryProvider.java:106-129 | a payload with name, supplier and an `int`-sized phone set and no negative number gets no warning |
| Provider.UpdateDiagnostics | app/src/main/java/com/example/android/inventoryapp/data/InventoryProvider.java:192-217 | update warns only when the name key is present, and then exactly as insert does |
| Provider.ItemAddressOverridesSelection | app/src/main/java/com/example/android/inventoryapp/data/InventoryProvider.java:65-70 | for an item address, whatever the caller's selection: query finds at most row `id`, update patches only it, delete removes only it |
| Provider.CollectionKeepsSelection | app/src/main/java/com/example/android/inventoryapp/data/InventoryProvider.java:60-64 | the collection address uses the caller's selection verbatim; a null selection picks, and returns, every row |
| Provider.BackendCounts | app/src/main/java/com/example/android/inventoryapp/data/InventoryProvider.java:157-174 | update keeps all ids and every unpicked row; delete leaves exactly the unpicked rows, so the table shrinks by the count |
| Provider.UpdateKeepsStock | app/src/main/java/com/example/android/inventoryapp/data/InventoryProvider.java:227-228 | an update whose payload has no negative quantity keeps every stored quantity non-negative |
| Provider.InventoryProvider.constructor | app/src/main/java/com/example/android/inventoryapp/data/InventoryProvider.java:45-49 | the state over a freshly created database: an empty table, first id 1, no notifications. The methods are specified for any valid state, as `onCreate` only opens the existing database |
| Provider.InventoryProvider.Query | app/src/main/java/com/example/android/inventoryapp/data/InventoryProvider.java:52-76 | throws iff the address is unknown. Otherwise it returns exactly the rows the effective selection picks, unchanged from the table and at most row `id` for an item, in a cursor observing the queried address |
| Provider.InventoryProvider.Insert | app/src/main/java/com/example/android/inventoryapp/data/InventoryProvider.java:93-144 | any non-collection address throws with no write. A collection insert always returns the insert warnings. If the payload is empty, or the backend refuses the row, it returns null, writes nothing and notifies no one. Otherwise the new row gets the fresh id, the collection is notified once, and that address plus the id is returned |
| Provider.InventoryProvider.Update | app/src/main/java/com/example/android/inventoryapp/data/InventoryProvider.java:177-234 | an unknown address throws with no write. An empty payload returns 0, writes nothing and notifies no one. Otherwise the picked rows are patched, their count is returned, and the address is notified iff the count is not 0. The warnings come from update's checks |
| Provider.InventoryProvider.Delete | app/src/main/java/com/example/android/inventoryapp/data/InventoryProvider.java:147-175 | an unknown address throws with no write. Otherwise exactly the picked rows are removed, their count is returned, and the address is notified iff the count is not 0 |
| Resolver.WrittenKeepsStock | app/src/main/java/com/example/android/inventoryapp/data/InventoryProvider.java:192-233 | no request whose payload lacks a negative quantity can make a stored quantity negative |
| Resolver.ItemUpdateWritesOneRow | app/src/main/java/com/example/android/inventoryapp/data/InventoryProvider.java:177-190 | an update with a null selection on an item address changes only that row and keeps every id |
| Resolver.Perform | app/src/main/java/com/example/android/inventoryapp/data/InventoryProvider.java:93-190 | routing a request to the provider answers `Reply`, warns `Warnings`, leaves `Written`, and notifies the address iff the call succeeded |
| Screens.FormValues | app/src/main/java/com/example/android/inventoryapp/EditorActivity.java:92-97 | the save payload has all five keys, carrying the form's inputs |
| Screens.QuantityValues | app/src/main/java/com/example/android/inventoryapp/InventoryCursorAdapter.java:59-60 | the quantity payload has the single key `Quantity` |
| Screens.SaveNotice | app/src/main/java/com/example/android/inventoryapp/EditorActivity.java:99-121 | failure is reported for a null insert result or an update count of 0, success otherwise |
| CursorAdapter.RowUri | app/src/main/java/com/example/android/inventoryapp/InventoryCursorAdapter.java:35-36 | the row address is `CONTENT_URI` plus the `_id` as one segment. It resolves to that item, or to no match for a negative id |
| CursorAdapter.Sell | app/src/main/java/com/example/android/inventoryapp/InventoryCursorAdapter.java:53-67 | a request is issued iff q > 0. It is exactly one update of the row's address with the only key `Quantity = q - 1`, and the "sold" message is shown; otherwise "not enough inventory" is shown |
| CursorAdapter.SellKeepsStock | app/src/main/java/com/example/android/inventoryapp/InventoryCursorAdapter.java:56-64 | whatever quantity is displayed, selling never stores a negative quantity |
| CursorAdapter.SellTouchesOnlyItsRow | app/src/main/java/com/example/android/inventoryapp/InventoryCursorAdapter.java:56-61 | the null-selection sell changes only its own row, to quantity q - 1 with the other columns kept |
| ViewActivity.Plus | app/src/main/java/com/example/android/inventoryapp/ViewActivity.java:125-135 | one update of the screen's address with the only key `Quantity = q + 1`, with no upper bound |
| ViewActivity.Minus | app/src/main/java/com/example/android/inventoryapp/ViewActivity.java:137-151 | `Quantity = q - 1` is sent iff q > 0; otherwise there is no request and "sold out" is shown |
| ViewActivity.MinusKeepsStock | app/src/main/java/com/example/android/inventoryapp/ViewActivity.java:140-149 | whatever quantity is displayed, minus never stores a negative quantity |
| ViewActivity.PlusKeepsStock | app/src/main/java/com/example/android/inventoryapp/ViewActivity.java:125-135 | plus of a non-negative displayed quantity keeps every stored quantity non-negative |
| ViewActivity.SaveRequest | app/src/main/java/com/example/android/inventoryapp/ViewActivity.java:199-239 | nothing is sent iff there is no address and all five inputs are empty. Otherwise the five-key payload is inserted on `CONTENT_URI` when there is no address, or updated on the address |
| ViewActivity.DeleteRequest | app/src/main/java/com/example/android/inventoryapp/ViewActivity.java:288-300 | a delete of the address is issued iff there is an address |
| ViewActivity.DeleteNotice | app/src/main/java/com/example/android/inventoryapp/ViewActivity.java:290-298 | failure is reported iff the deleted count is 0 |
| ViewActivity.DeleteRemovesOnlyItsRow | app/src/main/java/com/example/android/inventoryapp/ViewActivity.java:289-290 | deleting the screen's item address removes exactly that row |
| ViewActivity.Screen.constructor | app/src/main/java/com/example/android/inventoryapp/ViewActivity.java:36 | the unsaved-changes flag starts false |
| ViewActivity.Screen.Home | app/src/main/java/com/example/android/inventoryapp/ViewActivity.java:181-194 | home navigates up at once iff the flag is clear, and otherwise asks to discard first |
| EditorActivity.SaveRequest | app/src/main/java/com/example/android/inventoryapp/EditorActivity.java:75-121 | a request goes out iff price, quantity, supplier and phone are filled in, plus the name when there is no address. Otherwise "empty fields" is shown. The five-key payload is inserted on `CONTENT_URI` or updated on the address |
| EditorActivity.SaveFinishes | app/src/main/java/com/example/android/inventoryapp/EditorActivity.java:99-121 | the editor closes iff the insert returned an address or the update counted a row, the same outcomes reported as success |
| EditorActivity.EmptyNameStillUpdates | app/src/main/java/com/example/android/inventoryapp/EditorActivity.java:82-87 | for an existing product, an empty name with the other four filled still updates. No name warning is raised, and the stored name becomes empty |
| EditorActivity.NegativeQuantityIsStoredWithWarning | app/src/main/java/com/example/android/inventoryapp/EditorActivity.java:82-112 | a typed negative quantity is stored as typed, so the editor path can break the non-negative stock invariant. The quantity warning is raised iff the number fits in an `int` |
| EditorActivity.LongPhoneIsStoredWithWarning | app/src/main/java/com/example/android/inventoryapp/EditorActivity.java:92-121 | a saved phone number outside the `int` range, such as a ten-digit one, draws the phone warning on insert and on update, and is stored all the same |
| EditorActivity.Screen.constructor | app/src/main/java/com/example/android/inventoryapp/EditorActivity.java:37 | the touched flag starts false |
| EditorActivity.Screen.Touch | app/src/main/java/com/example/android/inventoryapp/EditorActivity.java:39-45 | touching an input sets the flag |
| Screens.LeaveOrConfirm | app/src/main/java/com/example/android/inventoryapp/EditorActivity.java:145-164 | leave the requested way iff nothing changed, otherwise ask to discard and then leave that same way |
| EditorActivity.Screen.Back | app/src/main/java/com/example/android/inventoryapp/EditorActivity.java:145-164 | back finishes at once iff no input was touched, and otherwise asks to discard first |
| EditorActivity.Screen.Home | app/src/main/java/com/example/android/inventoryapp/EditorActivity.java:178-191 | home navigates up at once iff no input was touched, and otherwise asks to discard first |
| Scenarios.InsertWidget | app/src/main/java/com/example/android/inventoryapp/data/InventoryProvider.java:104-143 | saving a new widget from the editor stores it as row 1 with no warning, and notifies the collection |
| Scenarios.InsertThenQuery | app/src/main/java/com/example/android/inventoryapp/data/InventoryProvider.java:53-143 | for any non-empty payload and any selection, the address a successful insert returns resolves to the new id. Querying it straight away yields exactly the row stored from the fields supplied |
| Scenarios.SellWidget | app/src/main/java/com/example/android/inventoryapp/InventoryCursorAdapter.java:56-62 | selling from the list stores quantity 4 for a row that held 5, with the other columns kept |
| Scenarios.DeleteMissing | app/src/main/java/com/example/android/inventoryapp/data/InventoryProvider.java:147-175 | deleting a product that does not exist writes nothing and notifies no one |
| Scenarios.ReadWidgetBack | app/src/main/java/com/example/android/inventoryapp/data/InventoryProvider.java:65-75 | querying product 1 by its item address, with a selection that picks nothing, returns exactly the stored widget, in a cursor observing that address |
| Scenarios.TwoInsertsThenList | app/src/main/java/com/example/android/inventoryapp/data/InventoryProvider.java:61-64 | two non-empty inserts into a fresh store, then a collection query with no selection, return both rows under ids 1 and 2 |
| Scenarios.InsertNothing | app/src/main/java/com/example/android/inventoryapp/data/InventoryProvider.java:133-139 | an insert with no values returns null, writes nothing and notifies no one |
| Scenarios.InsertOnItem | app/src/main/java/com/example/android/inventoryapp/data/InventoryProvider.java:93-101 | an insert on an item address writes nothing |
| Scenarios.SellOnce | app/src/main/java/com/example/android/inventoryapp/InventoryCursorAdapter.java:56-64 | a sell routed through the provider keeps the non-negative stock invariant of the class's table |

## Left out

- Android UI and lifecycle are not modelled: activities, loaders, menus, the
  dial intent, the "edit" menu's navigation, and the `finish()` calls. Toasts
  appear only as `Notice` values. The confirmation dialogs appear only as the
  `ConfirmDiscard` outcome. The delete confirmation that precedes
  `deleteProduct` is not modelled, because it is a dialog.
- `MainActivity.java` is not part of this model. It is list and navigation
  wiring, and its item-address construction is the one `CursorAdapter.RowUri`
  describes.
- SQLite internals are not modelled beyond a map:
  - projections and sort orders are not modelled, and a cursor is an unordered
    map of rows;
  - a caller's SQL selection with its arguments is an opaque predicate;
  - the schema is not modelled, because `InventoryDbHelper` is not part of this
    model. Backend refusals of a non-empty insert are therefore the
    `backendFails` parameter. The refusal of an empty insert is modelled;
  - row ids come from a counter that starts at 1.
- `ContentValues` type coercion is modelled only in part. The screens' numeric
  inputs are typed values of unbounded size, and an empty numeric text is the
  null that `getAsInteger` reads for it. `getAsInteger` also reads null for a
  number outside the `int` range. A ten-digit phone such as 5551234567
  therefore draws the phone warning (`Provider.AsInteger`,
  `EditorActivity.LongPhoneIsStoredWithWarning`). The stored value is still the
  number, as SQLite's integer column keeps it. Non-numeric text is not
  modelled, nor are `Integer.parseInt` failures in the handlers and an `_id`
  key in a payload.
- Observer delivery is not modelled: `notifyChange` is appended to a log, and
  `setNotificationUri` is the cursor's `notificationUri`.
- Concurrency between callers is not modelled: the model is sequential.
- `Uri` details beyond authority and path segments are not modelled: query
  strings, fragments and percent-encoding.
- An exception thrown by the provider becomes an `Err` result. The crash it
  would cause in a screen is not modelled.
- ViewActivity.Plus: the model stores q + 1 as an unbounded integer and does not model
  Java's `int` wrap-around at 2^31 - 1.
- Uris.ParseId: the digits are read as an unbounded integer. `Long.parseLong`
  throws `NumberFormatException` on any value above 9223372036854775807,
  such as `9999999999999999999`, and accepts longer text with leading zeros.
  On such an item address, Java's query, update and delete throw, where the
  model answers `Ok` for the row with that (absent) id.
- CursorAdapter.RowUri: the row's `_id` is read with `cursor.getInt`, which
  keeps only the low 32 bits of SQLite's 64-bit row id. For an `_id` of 2^31 or
  more, the sell button addresses another row or none. `CursorAdapter.RowUri`
  and `CursorAdapter.Sell` take the already-truncated `int` as given.
- ViewActivity.Screen: the model has no touch operation, because the screen
  never attaches its touch listener to a view, so its flag stays false.
