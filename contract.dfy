/**
 * InventoryContract: the authority, the collection address, the two type
 * descriptors and the table and column names shared by the provider and the
 * screens.
 */
module Contract {
  import opened Uris

  const ContentAuthority: string := "com.example.android.inventoryapp"
  const BaseContentUri: Uri := Uri("content", ContentAuthority, [])
  const PathProducts: string := "products"

  /** ContentResolver.CURSOR_DIR_BASE_TYPE and CURSOR_ITEM_BASE_TYPE. */
  const CursorDirBaseType: string := "vnd.android.cursor.dir"
  const CursorItemBaseType: string := "vnd.android.cursor.item"

  const ContentListType: string := CursorDirBaseType + "/" + ContentAuthority + "/" + PathProducts
  const ContentItemType: string := CursorItemBaseType + "/" + ContentAuthority + "/" + PathProducts

  /** The collection address: content://com.example.android.inventoryapp/products. */
  const ContentUri: Uri := WithAppendedPath(BaseContentUri, PathProducts)

  const TableName: string := "products"
  const ColumnId: string := "_id"
  const ColumnProductName: string := "Product_Name"
  const ColumnPrice: string := "Price"
  const ColumnQuantity: string := "Quantity"
  const ColumnSupplierName: string := "Supplier_Name"
  const ColumnSupplierPhone: string := "Supplier_Phone_Number"

  /** The six columns of the products table, in declaration order. */
  function Columns(): (cs: seq<string>)
    ensures |cs| == 6 && cs[0] == ColumnId
    ensures forall i, j :: 0 <= i < j < |cs| ==> cs[i] != cs[j]
  {
    [ColumnId, ColumnProductName, ColumnPrice, ColumnQuantity, ColumnSupplierName, ColumnSupplierPhone]
  }

  /** The collection address has scheme content, the app's authority and the single segment products. */
  lemma ContentUriShape()
    ensures ContentUri.scheme == "content"
    ensures ContentUri.authority == ContentAuthority
    ensures ContentUri.path == [PathProducts]
  {
  }

  /** Both descriptors end in /authority/products, and their different base types keep them apart. */
  lemma TypeDescriptorsDistinct()
    ensures var suffix := "/" + ContentAuthority + "/" + PathProducts;
            && ContentListType == CursorDirBaseType + suffix
            && ContentItemType == CursorItemBaseType + suffix
    ensures ContentListType != ContentItemType
  {
    assert ContentListType[19] != ContentItemType[19];
  }
}
