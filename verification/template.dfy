/**
 Rendering of a label template: `ProcessTemplate`.

 The caller supplies field values by name. Two more values are derived from
 the raw `sku_id`: `by`, the barcode module width ("1" for an SKU longer
 than 12 code points, else "2"), and `barcode_x`, the left offset that
 centres the estimated barcode on a 384-dot label. Every caller value is
 sanitised and written over the derived ones, and then each key's
 placeholder `{{key}}` is replaced throughout the document.

 Go visits the keys of a map in an unspecified order, and each replacement
 works on the output of the previous one. The visiting order is therefore
 an explicit parameter here: a sequence holding every key exactly once.
 */
module Template {
  import opened Strings
  import opened Strconv
  import opened Code128
  import opened Zpl

  const SkuThreshold: int := 12
  const NormalBy: string := "2"
  const LongBy: string := "1"
  /** Label width in dots: 48 mm at 8 dots per mm. */
  const LabelWidth: int := 384

  /** Go's map index: the value stored under `key`, or "" when there is none. */
  function Lookup(m: map<string, string>, key: string): string {
    if key in m then m[key] else ""
  }

  /** The `by` value derived from the raw SKU's length in code points. */
  function ByFor(sku: string): string {
    if |sku| > SkuThreshold then LongBy else NormalBy
  }

  /** The module width in dots that a `by` value stands for. */
  function ModuleWidthFor(byValue: string): int {
    if byValue == LongBy then 1 else 2
  }

  /** Estimated width of the SKU's barcode at the module width chosen for it. */
  function BarcodeWidth(sku: string): int {
    EstimateCode128Width(sku, ModuleWidthFor(ByFor(sku)))
  }

  /** Go's `/` on integers, which truncates toward zero. */
  function TruncDiv(a: int, b: int): int
    requires b > 0
  {
    if a >= 0 then a / b else -((-a) / b)
  }

  /**
   The centring offset `(384 - width) / 2`, clamped at 0. When the barcode
   fits, the space left of it equals the space right of it, or falls one
   dot short; when it does not fit, it starts at the left edge.
   */
  function BarcodeX(sku: string): (x: int)
    ensures x >= 0
    ensures BarcodeWidth(sku) <= LabelWidth ==>
              2 * x <= LabelWidth - BarcodeWidth(sku) <= 2 * x + 1
    ensures BarcodeWidth(sku) > LabelWidth ==> x == 0
  {
    var xPos := TruncDiv(LabelWidth - BarcodeWidth(sku), 2);
    if xPos < 0 then 0 else xPos
  }

  /** The values derived from the raw SKU: the module width and the centring offset. */
  function Derived(sku: string): (d: map<string, string>)
    ensures d.Keys == {"by", "barcode_x"}
    ensures d["by"] == ByFor(sku) && d["barcode_x"] == FormatNat(BarcodeX(sku))
  {
    map["by" := ByFor(sku), "barcode_x" := FormatNat(BarcodeX(sku))]
  }

  /**
   The map the placeholders are filled from: the derived `by` and
   `barcode_x`, overwritten by every caller entry after sanitising it.
   */
  function FinalReplacements(replacements: map<string, string>): (f: map<string, string>)
    ensures f.Keys == FinalKeys(replacements)
    ensures forall k :: k in replacements ==> f[k] == SanitizeZPL(replacements[k])
    ensures "by" !in replacements ==> f["by"] == ByFor(Lookup(replacements, "sku_id"))
    ensures "barcode_x" !in replacements ==>
              f["barcode_x"] == FormatNat(BarcodeX(Lookup(replacements, "sku_id")))
  {
    var derived := Derived(Lookup(replacements, "sku_id"));
    map k | k in derived.Keys + replacements.Keys ::
      if k in replacements then SanitizeZPL(replacements[k]) else derived[k]
  }

  /** The keys of the final map: the caller's keys and the two derived ones. */
  function FinalKeys(replacements: map<string, string>): set<string> {
    replacements.Keys + {"by", "barcode_x"}
  }

  /** `order` lists every key of `keys` exactly once: one run of Go's `range` over a map. */
  predicate IsKeyOrder(order: seq<string>, keys: set<string>) {
    && (forall i, j :: 0 <= i < j < |order| ==> order[i] != order[j])
    && (set k | k in order) == keys
  }

  function Placeholder(key: string): string {
    "{{" + key + "}}"
  }

  /** The replacement loop: each key in turn, on the result of the previous step. */
  function Substitute(s: string, values: map<string, string>, order: seq<string>): (r: string)
    requires forall k :: k in order ==> k in values
    ensures (forall k :: k in order ==> !Contains(s, Placeholder(k))) ==> r == s
    decreases |order|
  {
    if |order| == 0 then s
    else Substitute(ReplaceAll(s, Placeholder(order[0]), values[order[0]]), values, order[1..])
  }

  /**
   `ProcessTemplate(template, replacements)` when Go's map visits the final
   keys in `order`. A template without `{{` (the empty one among them) comes
   back unchanged; a template free of ZPL markers and line breaks yields a
   document free of them too, because every value written into it is
   sanitised or is a decimal numeral.
   */
  function ProcessTemplate(template: string, replacements: map<string, string>, order: seq<string>): (r: string)
    requires IsKeyOrder(order, FinalKeys(replacements))
    ensures !Contains(template, "{{") ==> r == template
    ensures NoMarkers(template) ==> NoMarkers(r)
  {
    var values := FinalReplacements(replacements);
    SubstituteWithoutBraces(template, values, order);
    FinalValuesHaveNoMarkers(replacements);
    SubstituteKeepsMarkersOut(template, values, order);
    Substitute(template, values, order)
  }

  /** A placeholder can only occur where `{{` does. */
  lemma PlaceholderNeedsBraces(s: string, key: string)
    ensures Contains(s, Placeholder(key)) ==> Contains(s, "{{")
  {
    assert Placeholder(key) == "{{" + (key + "}}");
    ContainsOfLonger(s, "{{", key + "}}");
  }

  /** No replacement step touches a string without `{{`. */
  lemma {:induction false} SubstituteWithoutBraces(s: string, values: map<string, string>, order: seq<string>)
    requires forall k :: k in order ==> k in values
    ensures !Contains(s, "{{") ==> Substitute(s, values, order) == s
    decreases |order|
  {
    if |order| > 0 {
      PlaceholderNeedsBraces(s, order[0]);
      SubstituteWithoutBraces(s, values, order[1..]);
    }
  }

  /** No replacement step introduces a code point that neither the text nor any value holds. */
  lemma {:induction false} SubstituteKeepsCharOut(s: string, values: map<string, string>, order: seq<string>, c: char)
    requires forall k :: k in order ==> k in values
    requires c !in s
    requires forall k :: k in order ==> c !in values[k]
    ensures c !in Substitute(s, values, order)
    decreases |order|
  {
    if |order| > 0 {
      SubstituteKeepsCharOut(ReplaceAll(s, Placeholder(order[0]), values[order[0]]), values, order[1..], c);
    }
  }

  lemma SubstituteKeepsMarkersOut(s: string, values: map<string, string>, order: seq<string>)
    requires forall k :: k in order ==> k in values
    requires forall k :: k in order ==> NoMarkers(values[k])
    ensures NoMarkers(s) ==> NoMarkers(Substitute(s, values, order))
  {
    if NoMarkers(s) {
      SubstituteKeepsCharOut(s, values, order, '^');
      SubstituteKeepsCharOut(s, values, order, '~');
      SubstituteKeepsCharOut(s, values, order, '\n');
      SubstituteKeepsCharOut(s, values, order, '\r');
    }
  }

  lemma DigitsHaveNoMarkers(s: string)
    requires AllDigits(s)
    ensures NoMarkers(s)
  {
  }

  /** Every value in the final map is free of markers and line breaks. */
  lemma FinalValuesHaveNoMarkers(replacements: map<string, string>)
    ensures forall k :: k in FinalReplacements(replacements) ==> NoMarkers(FinalReplacements(replacements)[k])
  {
    forall k | k in FinalReplacements(replacements)
      ensures NoMarkers(FinalReplacements(replacements)[k])
    {
      FinalValueHasNoMarkers(replacements, k);
    }
  }

  lemma FinalValueHasNoMarkers(replacements: map<string, string>, k: string)
    requires k in FinalReplacements(replacements)
    ensures NoMarkers(FinalReplacements(replacements)[k])
  {
    if k in replacements {
      CallerValueHasNoMarkers(replacements, k);
    } else if k == "by" {
      ByValueHasNoMarkers(replacements);
    } else {
      OffsetHasNoMarkers(replacements);
    }
  }

  lemma CallerValueHasNoMarkers(replacements: map<string, string>, k: string)
    requires k in replacements
    ensures NoMarkers(FinalReplacements(replacements)[k])
  {
  }

  lemma ByValueHasNoMarkers(replacements: map<string, string>)
    requires "by" !in replacements
    ensures NoMarkers(FinalReplacements(replacements)["by"])
  {
    ByValuesHaveNoMarkers();
  }

  lemma ByValuesHaveNoMarkers()
    ensures NoMarkers(LongBy) && NoMarkers(NormalBy)
  {
  }

  lemma OffsetHasNoMarkers(replacements: map<string, string>)
    requires "barcode_x" !in replacements
    ensures NoMarkers(FinalReplacements(replacements)["barcode_x"])
  {
    DigitsHaveNoMarkers(FormatNat(BarcodeX(Lookup(replacements, "sku_id"))));
  }

  /**
   Only one key's placeholder occurs, and once it is replaced no `{{` is
   left: then the visiting order does not matter.
   */
  lemma {:induction false} SubstituteSinglePlaceholder(
    s: string, values: map<string, string>, order: seq<string>, key: string)
    requires forall k :: k in order ==> k in values
    requires key in order
    requires forall k :: k in order && k != key ==> !Contains(s, Placeholder(k))
    requires !Contains(ReplaceAll(s, Placeholder(key), values[key]), "{{")
    ensures Substitute(s, values, order) == ReplaceAll(s, Placeholder(key), values[key])
    decreases |order|
  {
    if order[0] == key {
      SubstituteWithoutBraces(ReplaceAll(s, Placeholder(key), values[key]), values, order[1..]);
    } else {
      assert key in order[1..];
      SubstituteSinglePlaceholder(s, values, order[1..], key);
    }
  }

  /**
   A placeholder repeated between brace-free pieces is replaced at every
   occurrence, whatever the order, provided no other key's placeholder
   occurs and the value brings no brace.
   */
  lemma SubstituteRepeatedPlaceholder(
    pieces: seq<string>, values: map<string, string>, order: seq<string>, key: string)
    requires forall k :: k in order ==> k in values
    requires key in order
    requires forall i :: 0 <= i < |pieces| ==> '{' !in pieces[i]
    requires '{' !in values[key]
    requires forall k :: k in order && k != key ==> !Contains(Join(pieces, Placeholder(key)), Placeholder(k))
    ensures Substitute(Join(pieces, Placeholder(key)), values, order) == Join(pieces, values[key])
  {
    var s := Join(pieces, Placeholder(key));
    assert Placeholder(key)[0] == '{';
    ReplaceJoin(pieces, Placeholder(key), values[key]);
    JoinKeepsCharOut(pieces, values[key], '{');
    ContainedCharsOccur(Join(pieces, values[key]), "{{", '{');
    SubstituteSinglePlaceholder(s, values, order, key);
  }

  /**
   Tokens of unknown keys pass through: a template holding no placeholder
   of a final key renders to itself, `{{…}}` text of other names included.
   */
  lemma ProcessTemplateKeepsUnknownTokens(template: string, replacements: map<string, string>, order: seq<string>)
    requires IsKeyOrder(order, FinalKeys(replacements))
    requires forall k :: k in FinalKeys(replacements) ==> !Contains(template, Placeholder(k))
    ensures ProcessTemplate(template, replacements, order) == template
  {
    assert forall k :: k in order ==> k in FinalKeys(replacements);
  }

  /**
   A caller's placeholder repeated in the template is replaced at every
   occurrence by the sanitised value, for every key order.
   */
  lemma ProcessTemplateRepeatedToken(
    pieces: seq<string>, replacements: map<string, string>, order: seq<string>, key: string)
    requires IsKeyOrder(order, FinalKeys(replacements))
    requires key in replacements && '{' !in replacements[key]
    requires forall i :: 0 <= i < |pieces| ==> '{' !in pieces[i]
    requires forall k :: k in FinalKeys(replacements) && k != key ==> !Contains(Join(pieces, Placeholder(key)), Placeholder(k))
    ensures ProcessTemplate(Join(pieces, Placeholder(key)), replacements, order)
            == Join(pieces, SanitizeZPL(replacements[key]))
  {
    var values := FinalReplacements(replacements);
    assert forall k :: k in order ==> k in FinalKeys(replacements);
    assert key in order;
    SanitizeKeepsCharOut(replacements[key], '{');
    SubstituteRepeatedPlaceholder(pieces, values, order, key);
  }

  /**
   `by` follows the raw SKU's length in code points unless the caller sets
   it; the module width used for the centring estimate is the one `by`
   names.
   */
  lemma ByRule(replacements: map<string, string>)
    ensures var sku := Lookup(replacements, "sku_id");
            && ("by" !in replacements ==>
                  (FinalReplacements(replacements)["by"] == "1" <==> |sku| > 12)
                  && (FinalReplacements(replacements)["by"] == "2" <==> |sku| <= 12))
            && (ByFor(sku) == "1" ==> BarcodeWidth(sku) == EstimateCode128Width(sku, 1))
            && (ByFor(sku) == "2" ==> BarcodeWidth(sku) == EstimateCode128Width(sku, 2))
  {
  }

  /** A 12-code-point SKU still gets "2"; the 13th code point switches to "1". */
  lemma ByThreshold()
    ensures ByFor("ABCDEFGHIJKL") == "2"
    ensures ByFor("ABCDEFGHIJKLM") == "1"
  {
  }

  /**
   The length is taken before sanitising: a 12-code-point SKU with a caret
   in front gets "1", although its sanitised value would get "2".
   */
  lemma ByCountsRawSku(sku: string)
    requires NoMarkers(sku) && |sku| == 12
    requires !Unicode.IsSpace(sku[0]) && !Unicode.IsSpace(sku[11])
    ensures ByFor("^" + sku) == "1"
    ensures SanitizeZPL("^" + sku) == sku && ByFor(SanitizeZPL("^" + sku)) == "2"
  {
    SanitizeDropsLeadingCaret(sku);
  }

  lemma SanitizeDropsLeadingCaret(s: string)
    requires NoMarkers(s) && |s| > 0 && !Unicode.IsSpace(s[0]) && !Unicode.IsSpace(s[|s| - 1])
    ensures SanitizeZPL("^" + s) == s
  {
    var t := "^" + s;
    SanitizeIsTrimmedClean(t);
    assert t[0] == '^' && t[1..] == s;
    CleanOfClean(s);
    assert Clean(t) == s;
    Strings.TrimSpaceOfTrimmed(s);
  }

  /** A value set by the caller for `by` or `barcode_x` wins over the derived one. */
  lemma CallerOverridesDerived(replacements: map<string, string>)
    ensures "by" in replacements ==>
              FinalReplacements(replacements)["by"] == SanitizeZPL(replacements["by"])
    ensures "barcode_x" in replacements ==>
              FinalReplacements(replacements)["barcode_x"] == SanitizeZPL(replacements["barcode_x"])
  {
  }

  /** Go's truncating `/` and Dafny's flooring `/` agree once the offset is clamped at 0. */
  lemma BarcodeXFloor(sku: string)
    ensures BarcodeX(sku) == if (LabelWidth - BarcodeWidth(sku)) / 2 < 0 then 0 else (LabelWidth - BarcodeWidth(sku)) / 2
  {
  }

  /** The fallback template used when the template file cannot be read. */
  const FallbackTemplate: string := "^XA^FDError Loading Template^FS^XZ"

  /** The fallback template has no placeholder, so every rendering of it is the template itself. */
  lemma FallbackRendersUnchanged(replacements: map<string, string>, order: seq<string>)
    requires IsKeyOrder(order, FinalKeys(replacements))
    ensures ProcessTemplate(FallbackTemplate, replacements, order) == FallbackTemplate
  {
    FallbackHasNoBraces();
  }

  lemma FallbackHasNoBraces()
    ensures !Contains(FallbackTemplate, "{{")
  {
    assert '{' !in FallbackTemplate;
    ContainedCharsOccur(FallbackTemplate, "{{", '{');
  }
}
