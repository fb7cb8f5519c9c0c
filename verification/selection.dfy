/**
 The defaults the window picks on its own: which printer is selected after
 the printer list is loaded, which columns are selected after a CSV file is
 opened, and which template is used at start-up.
 */
module Selection {
  import opened Wrappers
  import opened Strings
  import opened Template
  import opened Resolver

  /**
   A printer name that looks like a Zebra label printer: it holds
   "ZDesigner" or "Zebra". A name without a 'Z' never does; a name that
   starts with either word always does.
   */
  predicate IsZebra(name: string)
    ensures IsZebra(name) ==> 'Z' in name
    ensures HasPrefix(name, "ZDesigner") || HasPrefix(name, "Zebra") ==> IsZebra(name)
  {
    ContainedCharsOccur(name, "ZDesigner", 'Z');
    ContainedCharsOccur(name, "Zebra", 'Z');
    Contains(name, "ZDesigner") || Contains(name, "Zebra")
  }

  /** Position of the first Zebra printer, or -1 if there is none. */
  function FirstZebra(printers: seq<string>): (idx: int)
    ensures -1 <= idx < |printers|
    ensures idx == -1 <==> forall i :: 0 <= i < |printers| ==> !IsZebra(printers[i])
    ensures idx >= 0 ==> IsZebra(printers[idx]) && forall j :: 0 <= j < idx ==> !IsZebra(printers[j])
  {
    if |printers| == 0 then -1
    else if IsZebra(printers[0]) then 0
    else
      var rest := FirstZebra(printers[1..]);
      if rest == -1 then -1 else rest + 1
  }

  /**
   The printer selected after the list is loaded: `None` (the selection is
   left as it was) when there is no printer; otherwise the first Zebra
   printer, or the first printer when no name looks like a Zebra one.
   */
  method PreferredPrinter(printers: seq<string>) returns (chosen: Option<string>)
    ensures chosen.None? <==> |printers| == 0
    ensures chosen.Some? && FirstZebra(printers) >= 0 ==> chosen.value == printers[FirstZebra(printers)]
    ensures chosen.Some? && FirstZebra(printers) == -1 ==> chosen.value == printers[0]
  {
    if |printers| == 0 {
      return None;
    }
    chosen := Some(printers[0]);
    for i := 0 to |printers|
      invariant forall j :: 0 <= j < i ==> !IsZebra(printers[j])
      invariant chosen == Some(printers[0])
    {
      if IsZebra(printers[i]) {
        chosen := Some(printers[i]);
        return;
      }
    }
  }

  /** A Zebra printer is preferred even when it is listed after another printer. */
  lemma ZebraPreferred(other: string, model: string)
    requires 'Z' !in other
    ensures FirstZebra([other, "ZDesigner" + model]) == 1
    ensures FirstZebra([other, other]) == -1
  {
    assert ("ZDesigner" + model)[..|"ZDesigner"|] == "ZDesigner";
    assert [other, "ZDesigner" + model][1..] == ["ZDesigner" + model];
    assert [other, other][1..] == [other];
  }

  /** The four column selections: item, price, SKU and quantity. */
  datatype Selections = Selections(item: string, price: string, sku: string, qty: string)

  /** The quantity option that stands for "no quantity column". */
  const DefaultQty: string := "(Default to 1)"

  const ItemNames: set<string> := {"Item Name", "item_name"}
  const PriceNames: set<string> := {"Price", "price"}
  const SkuNames: set<string> := {"SKU", "sku_id"}
  const QtyNames: set<string> := {"Stock", "Quantity", "qty"}

  /** The last header among `names`, or `otherwise` when no header is. */
  function Picked(headers: seq<string>, names: set<string>, otherwise: string): (s: string)
    ensures LastIndexIn(headers, names) == -1 ==> s == otherwise
    ensures LastIndexIn(headers, names) >= 0 ==> s == headers[LastIndexIn(headers, names)] && s in names
  {
    var k := LastIndexIn(headers, names);
    if k == -1 then otherwise else headers[k]
  }

  /**
   The column auto-selection after a CSV file is opened: the quantity
   selection is reset to the default option, then every header, in order,
   overwrites the selection whose known names include it. A selection no
   header names keeps its previous value (the quantity one its reset value).
   */
  method AutoSelect(headers: seq<string>, previous: Selections) returns (sel: Selections)
    ensures sel.item == Picked(headers, ItemNames, previous.item)
    ensures sel.price == Picked(headers, PriceNames, previous.price)
    ensures sel.sku == Picked(headers, SkuNames, previous.sku)
    ensures sel.qty == Picked(headers, QtyNames, DefaultQty)
  {
    sel := previous.(qty := DefaultQty);
    for i := 0 to |headers|
      invariant sel.item == Picked(headers[..i], ItemNames, previous.item)
      invariant sel.price == Picked(headers[..i], PriceNames, previous.price)
      invariant sel.sku == Picked(headers[..i], SkuNames, previous.sku)
      invariant sel.qty == Picked(headers[..i], QtyNames, DefaultQty)
    {
      var h := headers[i];
      PickedStep(headers, i, ItemNames, previous.item);
      PickedStep(headers, i, PriceNames, previous.price);
      PickedStep(headers, i, SkuNames, previous.sku);
      PickedStep(headers, i, QtyNames, DefaultQty);
      if h in ItemNames { sel := sel.(item := h); }
      if h in PriceNames { sel := sel.(price := h); }
      if h in SkuNames { sel := sel.(sku := h); }
      if h in QtyNames { sel := sel.(qty := h); }
    }
    assert headers[..|headers|] == headers;
  }

  /** One more header: it is picked if it is among the names, else the pick so far stands. */
  lemma PickedStep(headers: seq<string>, i: nat, names: set<string>, otherwise: string)
    requires i < |headers|
    ensures Picked(headers[..i + 1], names, otherwise)
            == if headers[i] in names then headers[i] else Picked(headers[..i], names, otherwise)
  {
    assert headers[..i + 1][..i] == headers[..i];
  }

  /**
   A header chosen by auto-selection is read from the very column it was
   chosen at: the last header among the known names.
   */
  lemma {:induction false} AutoSelectedColumn(headers: seq<string>, names: set<string>, otherwise: string)
    requires LastIndexIn(headers, names) >= 0
    ensures ColumnIndex(headers, Picked(headers, names, otherwise)) == LastIndexIn(headers, names)
  {
    var k := LastIndexIn(headers, names);
    var h := headers[k];
    assert forall j :: k < j < |headers| ==> headers[j] != h;
    ColumnAt(headers, h, k);
  }

  /** With no known header, the quantity stays on the default option, which reads as "1". */
  lemma DefaultQtyReadsOne(headers: seq<string>, rows: seq<seq<string>>, itemSel: string, priceSel: string, skuSel: string)
    requires DefaultQty !in headers
    requires Resolve(headers, rows, itemSel, priceSel, skuSel, DefaultQty).Some?
    ensures forall i :: 0 <= i < |rows| ==> Resolve(headers, rows, itemSel, priceSel, skuSel, DefaultQty).value[i].qty == "1"
  {
    UnmatchedSelection(headers, rows, itemSel, priceSel, skuSel, DefaultQty);
  }

  /** The byte order mark U+FEFF. */
  const Bom: char := '\U{FEFF}'

  /**
   The template file's contents with one leading byte order mark removed:
   a string that starts with the mark is the result with the mark put back;
   any other string is returned unchanged.
   */
  function StripBom(s: string): (t: string)
    ensures HasPrefix(s, [Bom]) ==> s == [Bom] + t
    ensures !HasPrefix(s, [Bom]) ==> t == s
  {
    if HasPrefix(s, [Bom]) then s[1..] else s
  }

  /**
   The template used at start-up: the file's contents without a leading
   byte order mark when the file could be read (`Some`), and the built-in
   error template when it could not (`None`).
   */
  function LoadTemplate(file: Option<string>): (t: string)
    ensures file.None? ==> t == FallbackTemplate
    ensures file.Some? && HasPrefix(file.value, [Bom]) ==> file.value == [Bom] + t
    ensures file.Some? && !HasPrefix(file.value, [Bom]) ==> t == file.value
  {
    match file
    case None => FallbackTemplate
    case Some(s) => StripBom(s)
  }

  /** Only one mark is removed: a second one stays part of the template. */
  lemma StripBomOnce(s: string)
    ensures StripBom([Bom] + s) == s
    ensures StripBom([Bom, Bom] + s) == [Bom] + s
  {
    assert ([Bom] + s)[..1] == [Bom];
    assert ([Bom, Bom] + s)[..1] == [Bom];
    assert ([Bom, Bom] + s)[1..] == [Bom] + s;
  }
}
