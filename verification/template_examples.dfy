/**
 Two renderings worked through the model.

 The repository's centring test: the template `^FT{{barcode_x}},112^BCN`
 rendered with the SKU "123456" becomes `^FT124,112^BCN` whatever order
 the keys are visited in. "123456" is six digits, so `by` is "2" and the
 barcode packs into three symbols: (35 + 33) * 2 = 136 dots, leaving
 (384 - 136) / 2 = 124 dots on each side.

 Rescanning: a value that holds another key's placeholder is expanded when
 that key is visited later, and left alone when it was visited earlier, so
 the rendered document depends on the map's visiting order.
 */
module TemplateExamples {
  import opened Strings
  import opened Strconv
  import opened Code128
  import opened Zpl
  import opened Template

  const CenteringTemplate: string := "^FT{{barcode_x}},112^BCN"
  const Rendered: string := "^FT124,112^BCN"

  function SkuOnly(): map<string, string> {
    map["sku_id" := "123456"]
  }

  lemma CenteringTest(order: seq<string>)
    requires IsKeyOrder(order, {"sku_id", "by", "barcode_x"})
    ensures ProcessTemplate(CenteringTemplate, SkuOnly(), order) == Rendered
  {
    var values := FinalReplacements(SkuOnly());
    OffsetOfSample();
    SampleKeys();
    OnlyOffsetPlaceholder(order, values.Keys);
    OffsetReplaced();
    RenderedHasNoBraces();
    SubstituteSinglePlaceholder(CenteringTemplate, values, order, "barcode_x");
  }

  lemma SampleWidth()
    ensures BarcodeWidth("123456") == 136
  {
    assert ByFor("123456") == "2";
    assert AllDigits("123456");
  }

  lemma SampleOffset()
    ensures BarcodeX("123456") == 124
    ensures FormatNat(124) == "124"
  {
    SampleWidth();
  }

  lemma OffsetOfSample()
    ensures "barcode_x" in FinalReplacements(SkuOnly())
    ensures FinalReplacements(SkuOnly())["barcode_x"] == "124"
  {
    assert "barcode_x" != "sku_id";
    assert Template.Lookup(SkuOnly(), "sku_id") == "123456";
    SampleOffset();
  }

  lemma OnlyOffsetPlaceholder(order: seq<string>, keys: set<string>)
    requires IsKeyOrder(order, keys) && keys == {"sku_id", "by", "barcode_x"}
    ensures "barcode_x" in order
    ensures forall k :: k in order && k != "barcode_x" ==> !Contains(CenteringTemplate, Placeholder(k))
  {
    OrderHoldsKey(order, keys, "barcode_x");
    forall k | k in order && k != "barcode_x"
      ensures !Contains(CenteringTemplate, Placeholder(k))
    {
      OrderHoldsKey(order, keys, k);
      OtherPlaceholderAbsent(k);
    }
  }

  lemma OtherPlaceholderAbsent(k: string)
    requires k in {"sku_id", "by", "barcode_x"} && k != "barcode_x"
    ensures !Contains(CenteringTemplate, Placeholder(k))
  {
    assert k[1] in "ky";
    PlaceholderAbsent(CenteringTemplate, k, 1);
  }

  lemma SampleKeys()
    ensures FinalReplacements(SkuOnly()).Keys == {"sku_id", "by", "barcode_x"}
  {
    assert SkuOnly().Keys == {"sku_id"};
    KeysWithDerived(SkuOnly(), {"sku_id"});
  }

  /** The final keys of a map are its own keys and the two derived ones. */
  lemma KeysWithDerived(m: map<string, string>, keys: set<string>)
    requires m.Keys == keys
    ensures FinalReplacements(m).Keys == keys + {"by", "barcode_x"}
  {
  }

  lemma OrderHoldsKey(order: seq<string>, keys: set<string>, k: string)
    requires IsKeyOrder(order, keys)
    ensures k in order <==> k in keys
  {
    assert k in order <==> k in (set x | x in order);
  }

  /** A key with a letter the text lacks has no placeholder in it. */
  lemma PlaceholderAbsent(text: string, key: string, i: nat)
    requires i < |key| && key[i] !in text
    ensures !Contains(text, Placeholder(key))
  {
    assert Placeholder(key)[i + 2] == key[i];
    ContainedCharsOccur(text, Placeholder(key), key[i]);
  }

  lemma OffsetReplaced()
    ensures ReplaceAll(CenteringTemplate, Placeholder("barcode_x"), "124") == Rendered
  {
    var p := Placeholder("barcode_x");
    TemplatePieces();
    ReplaceSkipsPrefix("^FT", p + ",112^BCN", p, "124");
    ReplaceAtFront(",112^BCN", p, "124");
    ContainedCharsOccur(",112^BCN", p, '{');
    RenderedPieces();
  }

  lemma TemplatePieces()
    ensures CenteringTemplate == "^FT" + (Placeholder("barcode_x") + ",112^BCN")
    ensures Placeholder("barcode_x")[0] == '{' && '{' !in "^FT" && '{' !in ",112^BCN"
  {
  }

  lemma RenderedPieces()
    ensures "^FT" + ("124" + ",112^BCN") == Rendered
  {
  }

  lemma RenderedHasNoBraces()
    ensures !Contains(Rendered, "{{")
  {
    assert '{' !in Rendered;
    ContainedCharsOccur(Rendered, "{{", '{');
  }

  const NameTemplate: string := "{{item_name}}"

  /** A caller whose item name is itself a placeholder. */
  function NestedValues(): map<string, string> {
    map["item_name" := "{{price}}", "price" := "9"]
  }

  const NameFirst: seq<string> := ["item_name", "price", "by", "barcode_x"]
  const PriceFirst: seq<string> := ["price", "item_name", "by", "barcode_x"]

  /**
   Visiting `item_name` before `price` expands the placeholder the name
   brought in; visiting `price` first leaves it in the document.
   */
  lemma RenderingDependsOnOrder()
    ensures IsKeyOrder(NameFirst, FinalReplacements(NestedValues()).Keys)
    ensures IsKeyOrder(PriceFirst, FinalReplacements(NestedValues()).Keys)
    ensures ProcessTemplate(NameTemplate, NestedValues(), NameFirst) == "9"
    ensures ProcessTemplate(NameTemplate, NestedValues(), PriceFirst) == "{{price}}"
  {
    var values := FinalReplacements(NestedValues());
    NestedKeys();
    NestedOrders(values.Keys);
    NestedSanitised();
    NameFirstSteps(values);
    PriceFirstSteps(values);
  }

  lemma NestedKeys()
    ensures FinalReplacements(NestedValues()).Keys == {"item_name", "price", "by", "barcode_x"}
  {
    assert NestedValues().Keys == {"item_name", "price"};
    KeysWithDerived(NestedValues(), {"item_name", "price"});
  }

  lemma NestedOrders(keys: set<string>)
    requires keys == {"item_name", "price", "by", "barcode_x"}
    ensures IsKeyOrder(NameFirst, keys) && IsKeyOrder(PriceFirst, keys)
  {
    assert (set k | k in NameFirst) == keys;
    assert (set k | k in PriceFirst) == keys;
  }

  lemma NestedSanitised()
    ensures FinalReplacements(NestedValues())["item_name"] == "{{price}}"
    ensures FinalReplacements(NestedValues())["price"] == "9"
  {
    SanitisedName();
    SanitisedPrice();
    assert "item_name" in NestedValues() && "price" in NestedValues();
  }

  lemma SanitisedName()
    ensures SanitizeZPL("{{price}}") == "{{price}}"
  {
    CleanLiterals();
    SanitizeKeepsCleanValue("{{price}}");
  }

  lemma SanitisedPrice()
    ensures SanitizeZPL("9") == "9"
  {
    CleanLiterals();
    SanitizeKeepsCleanValue("9");
  }

  lemma PlaceholderSpelling()
    ensures Placeholder("item_name") == NameTemplate
    ensures Placeholder("price") == "{{price}}"
  {
  }

  lemma CleanLiterals()
    ensures NoMarkers("{{price}}") && NoMarkers("9")
    ensures !Unicode.IsSpace('{') && !Unicode.IsSpace('}') && !Unicode.IsSpace('9')
  {
  }

  lemma NameFirstSteps(values: map<string, string>)
    requires values.Keys == {"item_name", "price", "by", "barcode_x"}
    requires values["item_name"] == "{{price}}" && values["price"] == "9"
    ensures Substitute(NameTemplate, values, NameFirst) == "9"
  {
    ReplaceWhole(Placeholder("item_name"), "{{price}}");
    ReplaceWhole(Placeholder("price"), "9");
    PlaceholderSpelling();
    NoBracesInDigit();
    SubstituteWithoutBraces("9", values, ["by", "barcode_x"]);
    assert NameFirst[1..] == ["price", "by", "barcode_x"];
    assert NameFirst[1..][1..] == ["by", "barcode_x"];
  }

  lemma PriceFirstSteps(values: map<string, string>)
    requires values.Keys == {"item_name", "price", "by", "barcode_x"}
    requires values["item_name"] == "{{price}}" && values["price"] == "9"
    ensures Substitute(NameTemplate, values, PriceFirst) == "{{price}}"
  {
    PriceAbsentFromName();
    ReplaceWhole(Placeholder("item_name"), "{{price}}");
    PlaceholderSpelling();
    DerivedAbsentFromPrice();
    assert PriceFirst[1..] == ["item_name", "by", "barcode_x"];
    assert PriceFirst[1..][1..] == ["by", "barcode_x"];
    assert PriceFirst[1..][1..][1..] == ["barcode_x"];
  }

  /** A text that is exactly the pattern becomes exactly the replacement. */
  lemma ReplaceWhole(pattern: string, replacement: string)
    requires |pattern| > 0
    ensures ReplaceAll(pattern, pattern, replacement) == replacement
  {
    assert pattern + "" == pattern;
    ReplaceAtFront("", pattern, replacement);
    assert replacement + "" == replacement;
  }

  lemma NoBracesInDigit()
    ensures !Contains("9", "{{")
  {
    ContainedCharsOccur("9", "{{", '{');
  }

  lemma PriceAbsentFromName()
    ensures !Contains(NameTemplate, Placeholder("price"))
  {
    assert 'p' !in NameTemplate;
    PlaceholderAbsent(NameTemplate, "price", 0);
  }

  lemma DerivedAbsentFromPrice()
    ensures !Contains("{{price}}", Placeholder("by"))
    ensures !Contains("{{price}}", Placeholder("barcode_x"))
  {
    var t := "{{price}}";
    assert 'y' !in t && 'x' !in t;
    PlaceholderAbsent(t, "by", 1);
    PlaceholderAbsent(t, "barcode_x", 8);
  }

  /** A placeholder written twice in the template. */
  const TwiceTemplate: string := "{{price}} / {{price}}"

  function PriceOnly(): map<string, string> {
    map["price" := "9"]
  }

  /** Both copies of a repeated placeholder are replaced, in every key order. */
  lemma RepeatedTokenTest(order: seq<string>)
    requires IsKeyOrder(order, {"price", "by", "barcode_x"})
    ensures ProcessTemplate(TwiceTemplate, PriceOnly(), order) == "9 / 9"
  {
    var pieces := ["", " / ", ""];
    PriceOnlyKeys();
    TwicePieces(pieces);
    TwiceBraceFree(pieces);
    TwiceOtherKeysAbsent(pieces, FinalKeys(PriceOnly()));
    SanitisedPrice();
    ProcessTemplateRepeatedToken(pieces, PriceOnly(), order, "price");
  }

  lemma PriceOnlyKeys()
    ensures FinalKeys(PriceOnly()) == {"price", "by", "barcode_x"}
    ensures "price" in PriceOnly() && PriceOnly()["price"] == "9"
  {
    assert PriceOnly().Keys == {"price"};
  }

  lemma TwicePieces(pieces: seq<string>)
    requires pieces == ["", " / ", ""]
    ensures Join(pieces, Placeholder("price")) == TwiceTemplate
    ensures Join(pieces, "9") == "9 / 9"
  {
    var p := Placeholder("price");
    PlaceholderSpelling();
    assert pieces[1..][1..] == [""];
    assert Join(pieces[1..], p) == " / " + p + "";
    assert Join(pieces[1..], "9") == " / " + "9" + "";
  }

  /** The pieces hold no brace. */
  lemma TwiceBraceFree(pieces: seq<string>)
    requires pieces == ["", " / ", ""]
    ensures forall i :: 0 <= i < |pieces| ==> '{' !in pieces[i]
  {
    forall i | 0 <= i < |pieces|
      ensures '{' !in pieces[i]
    {
      assert pieces[i] == "" || pieces[i] == " / ";
    }
  }

  /** Neither derived key's placeholder occurs in the template. */
  lemma TwiceOtherKeysAbsent(pieces: seq<string>, keys: set<string>)
    requires pieces == ["", " / ", ""] && keys == {"price", "by", "barcode_x"}
    ensures forall k :: k in keys && k != "price" ==> !Contains(Join(pieces, Placeholder("price")), Placeholder(k))
  {
    TwicePieces(pieces);
    DerivedAbsentFromTwice();
    DerivedKeysOnly(keys);
  }

  lemma DerivedKeysOnly(keys: set<string>)
    requires keys == {"price", "by", "barcode_x"}
    ensures forall k :: k in keys && k != "price" ==> k == "by" || k == "barcode_x"
  {
  }

  lemma DerivedAbsentFromTwice()
    ensures !Contains(TwiceTemplate, Placeholder("by"))
    ensures !Contains(TwiceTemplate, Placeholder("barcode_x"))
  {
    var t := TwiceTemplate;
    assert 'y' !in t && 'x' !in t;
    PlaceholderAbsent(t, "by", 1);
    PlaceholderAbsent(t, "barcode_x", 8);
  }
}
