/**
 Row resolution: turning the loaded table and the four column choices into
 one `PrintItem` per data row (the body of `refreshTable`).

 The item, price and SKU columns must all be chosen, and there must be at
 least one data row; otherwise the item list is left as it was, modelled
 as `None`. A column is found by exact comparison with the header names
 and the last equal header wins; a column that is not found, or a row too
 short to reach it, yields "". The quantity cell is kept verbatim unless
 it is missing or empty, in which case it is "1".
 */
module Resolver {
  import opened Wrappers

  datatype PrintItem = PrintItem(name: string, price: string, sku: string, qty: string)

  /** Column positions; -1 means not found. */
  datatype Columns = Columns(item: int, price: int, sku: int, qty: int)

  /** Position of the last header that is one of `names`, or -1 if there is none. */
  function LastIndexIn(headers: seq<string>, names: set<string>): (idx: int)
    ensures -1 <= idx < |headers|
    ensures idx == -1 <==> forall i :: 0 <= i < |headers| ==> headers[i] !in names
    ensures idx >= 0 ==> headers[idx] in names
    ensures idx >= 0 ==> forall j :: idx < j < |headers| ==> headers[j] !in names
  {
    if |headers| == 0 then -1
    else if headers[|headers| - 1] in names then |headers| - 1
    else LastIndexIn(headers[..|headers| - 1], names)
  }

  /** The column a selection names: the last header equal to it, or -1. */
  function ColumnIndex(headers: seq<string>, selection: string): int {
    LastIndexIn(headers, {selection})
  }

  /**
   The header scan of `refreshTable`: one pass over the headers that
   overwrites a column's index at every equal header.
   */
  method FindColumns(headers: seq<string>, itemSel: string, priceSel: string, skuSel: string, qtySel: string)
    returns (cols: Columns)
    ensures cols.item == ColumnIndex(headers, itemSel)
    ensures cols.price == ColumnIndex(headers, priceSel)
    ensures cols.sku == ColumnIndex(headers, skuSel)
    ensures cols.qty == ColumnIndex(headers, qtySel)
  {
    var itemIdx, priceIdx, skuIdx, qtyIdx := -1, -1, -1, -1;
    for i := 0 to |headers|
      invariant itemIdx == ColumnIndex(headers[..i], itemSel)
      invariant priceIdx == ColumnIndex(headers[..i], priceSel)
      invariant skuIdx == ColumnIndex(headers[..i], skuSel)
      invariant qtyIdx == ColumnIndex(headers[..i], qtySel)
    {
      assert headers[..i + 1][..i] == headers[..i];
      var h := headers[i];
      if h == itemSel { itemIdx := i; }
      if h == priceSel { priceIdx := i; }
      if h == skuSel { skuIdx := i; }
      if h == qtySel { qtyIdx := i; }
    }
    assert headers[..|headers|] == headers;
    cols := Columns(itemIdx, priceIdx, skuIdx, qtyIdx);
  }

  /** Bounds-checked cell access: "" for an index that is -1 or past the row's end. */
  function SafeGet(row: seq<string>, idx: int): (cell: string)
    ensures 0 <= idx < |row| ==> cell == row[idx]
    ensures !(0 <= idx < |row|) ==> cell == ""
  {
    if idx >= 0 && idx < |row| then row[idx] else ""
  }

  /**
   The quantity of a row: the cell verbatim when it exists and is not
   empty, and "1" otherwise. It is never empty.
   */
  function QtyCell(row: seq<string>, qtyIdx: int): (q: string)
    requires qtyIdx >= -1
    ensures q != ""
    ensures 0 <= qtyIdx < |row| && row[qtyIdx] != "" ==> q == row[qtyIdx]
    ensures !(0 <= qtyIdx < |row| && row[qtyIdx] != "") ==> q == "1"
  {
    if qtyIdx != -1 && qtyIdx < |row| then
      var val := row[qtyIdx];
      if val == "" then "1" else val
    else "1"
  }

  /**
   One row's item: each of name, price and SKU is the cell at its column,
   or "" when the row does not reach it; the quantity is never empty.
   */
  function ResolveRow(row: seq<string>, cols: Columns): (item: PrintItem)
    requires cols.qty >= -1
    ensures item.name == "" || item.name in row
    ensures item.price == "" || item.price in row
    ensures item.sku == "" || item.sku in row
    ensures 0 <= cols.item < |row| ==> item.name == row[cols.item]
    ensures 0 <= cols.price < |row| ==> item.price == row[cols.price]
    ensures 0 <= cols.sku < |row| ==> item.sku == row[cols.sku]
    ensures item.qty != "" && (item.qty == "1" || item.qty in row)
  {
    PrintItem(SafeGet(row, cols.item), SafeGet(row, cols.price), SafeGet(row, cols.sku), QtyCell(row, cols.qty))
  }

  /**
   `refreshTable`: `None` (the items stay as they were) when there is no
   data row or one of the three required selections is empty; otherwise
   one item per row, in row order, each field read from the column its
   selection names.
   */
  function Resolve(headers: seq<string>, rows: seq<seq<string>>,
                   itemSel: string, priceSel: string, skuSel: string, qtySel: string)
    : (r: Option<seq<PrintItem>>)
    ensures r.None? <==> |rows| == 0 || itemSel == "" || priceSel == "" || skuSel == ""
    ensures r.Some? ==> |r.value| == |rows|
    ensures r.Some? ==> forall i :: 0 <= i < |rows| ==>
              && r.value[i].name == SafeGet(rows[i], ColumnIndex(headers, itemSel))
              && r.value[i].price == SafeGet(rows[i], ColumnIndex(headers, priceSel))
              && r.value[i].sku == SafeGet(rows[i], ColumnIndex(headers, skuSel))
              && r.value[i].qty == QtyCell(rows[i], ColumnIndex(headers, qtySel))
  {
    if |rows| == 0 then None
    else if itemSel == "" || priceSel == "" || skuSel == "" then None
    else
      var cols := Columns(ColumnIndex(headers, itemSel), ColumnIndex(headers, priceSel),
                          ColumnIndex(headers, skuSel), ColumnIndex(headers, qtySel));
      Some(seq(|rows|, i requires 0 <= i < |rows| => ResolveRow(rows[i], cols)))
  }

  /** A selection no header equals reads "" from every row; an unmatched quantity column reads "1". */
  lemma UnmatchedSelection(headers: seq<string>, rows: seq<seq<string>>,
                           itemSel: string, priceSel: string, skuSel: string, qtySel: string)
    requires Resolve(headers, rows, itemSel, priceSel, skuSel, qtySel).Some?
    ensures var items := Resolve(headers, rows, itemSel, priceSel, skuSel, qtySel).value;
            && (itemSel !in headers ==> forall i :: 0 <= i < |items| ==> items[i].name == "")
            && (skuSel !in headers ==> forall i :: 0 <= i < |items| ==> items[i].sku == "")
            && (qtySel !in headers ==> forall i :: 0 <= i < |items| ==> items[i].qty == "1")
  {
  }

  /** With a repeated header, the column read is the last one. */
  lemma LastHeaderWins()
    ensures ColumnIndex(["SKU", "Name", "SKU"], "SKU") == 2
    ensures Resolve(["SKU", "Name", "SKU"], [["a", "b", "c"]], "Name", "Name", "SKU", "").value[0].sku == "c"
  {
  }

  /**
   The scenario of a three-column sheet with no quantity column: the
   quantity selection is the "(Default to 1)" entry, which no header
   equals, so the quantity is "1".
   */
  lemma WidgetScenario()
    ensures Resolve(["Item Name", "Price", "SKU"], [["Widget", "9.99", "123456"]],
                    "Item Name", "Price", "SKU", "(Default to 1)")
            == Some([PrintItem("Widget", "9.99", "123456", "1")])
  {
    var headers := ["Item Name", "Price", "SKU"];
    var rows := [["Widget", "9.99", "123456"]];
    SheetColumns(headers);
    assert ColumnIndex(headers, "(Default to 1)") == -1;
    var items := Resolve(headers, rows, "Item Name", "Price", "SKU", "(Default to 1)").value;
    assert items[0] == PrintItem("Widget", "9.99", "123456", "1");
    assert items == [items[0]];
  }

  /** A short row yields "" for the cells it lacks and does not fail. */
  lemma RaggedRow()
    ensures Resolve(["Item Name", "Price", "SKU"], [["Widget"]], "Item Name", "Price", "SKU", "")
            == Some([PrintItem("Widget", "", "", "1")])
  {
    var headers := ["Item Name", "Price", "SKU"];
    SheetColumns(headers);
    var items := Resolve(headers, [["Widget"]], "Item Name", "Price", "SKU", "").value;
    assert items[0] == PrintItem("Widget", "", "", "1");
    assert items == [items[0]];
  }

  lemma SheetColumns(headers: seq<string>)
    requires headers == ["Item Name", "Price", "SKU"]
    ensures ColumnIndex(headers, "Item Name") == 0
    ensures ColumnIndex(headers, "Price") == 1
    ensures ColumnIndex(headers, "SKU") == 2
  {
    assert |headers[1]| != |"Item Name"| && |headers[2]| != |"Item Name"|;
    ColumnAt(headers, "Item Name", 0);
    assert |headers[2]| != |"Price"|;
    ColumnAt(headers, "Price", 1);
    ColumnAt(headers, "SKU", 2);
  }

  /** A selection is read from position `k` when `k` holds it and no later header does. */
  lemma ColumnAt(headers: seq<string>, selection: string, k: int)
    requires 0 <= k < |headers| && headers[k] == selection
    requires forall j :: k < j < |headers| ==> headers[j] != selection
    ensures ColumnIndex(headers, selection) == k
  {
  }

  /** Quantity cells are not parsed here: " 3" and "abc" are kept, "" becomes "1". */
  lemma QtyKeptVerbatim()
    ensures QtyCell([" 3"], 0) == " 3"
    ensures QtyCell(["abc"], 0) == "abc"
    ensures QtyCell([""], 0) == "1"
    ensures QtyCell(["5"], 1) == "1"
  {
  }
}
