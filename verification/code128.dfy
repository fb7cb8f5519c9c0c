/**
 The Code 128 width heuristic used to centre the barcode on the label.

 A Code 128 symbol spends 35 modules on its start (11), check (11) and stop
 (13) characters. The estimate packs two digits per 11-module character
 when the content is an all-digit string of at least two bytes (code set C),
 and otherwise spends 11 modules per byte of the content (code set B).
 */
module Code128 {
  import opened Unicode
  import opened Strconv

  const OverheadModules: int := 35
  const ModulesPerSymbol: int := 11

  /**
   Estimated width in dots of `content` printed with bars `moduleWidth`
   dots wide. The length Go measures is the UTF-8 byte length, so a
   non-ASCII code point is charged as 2, 3 or 4 symbols; the empty string
   has no data symbols.
   */
  function EstimateCode128Width(content: string, moduleWidth: int): (w: int)
    ensures AllDigits(content) && |content| >= 2 ==>
              w == (OverheadModules + ModulesPerSymbol * ((|content| + 1) / 2)) * moduleWidth
    ensures !(AllDigits(content) && |content| >= 2) ==>
              w == (OverheadModules + ModulesPerSymbol * Utf8Len(content)) * moduleWidth
  {
    var isNumeric := AllDigits(content);
    var byteLen := Utf8Len(content);
    var dataModules :=
      if isNumeric && byteLen >= 2 then ((byteLen + 1) / 2) * ModulesPerSymbol
      else byteLen * ModulesPerSymbol;
    (OverheadModules + dataModules) * moduleWidth
  }

  /** Even-length digit strings pack exactly two digits per symbol. */
  lemma WidthOfEvenDigits(content: string, moduleWidth: int)
    requires AllDigits(content) && |content| >= 2 && |content| % 2 == 0
    ensures EstimateCode128Width(content, moduleWidth)
            == (OverheadModules + ModulesPerSymbol * (|content| / 2)) * moduleWidth
  {
  }

  /** Odd-length digit strings are charged one extra symbol for the last digit. */
  lemma WidthOfOddDigits(content: string, moduleWidth: int)
    requires AllDigits(content) && |content| >= 3 && |content| % 2 == 1
    ensures EstimateCode128Width(content, moduleWidth)
            == (OverheadModules + ModulesPerSymbol * (|content| / 2 + 1)) * moduleWidth
  {
  }

  /**
   Digit packing never makes the estimate wider than one symbol per
   character would, and makes it strictly narrower from two digits on.
   */
  lemma DigitPackingNarrows(content: string, moduleWidth: int)
    requires AllDigits(content) && moduleWidth > 0
    ensures EstimateCode128Width(content, moduleWidth)
            <= (OverheadModules + ModulesPerSymbol * |content|) * moduleWidth
    ensures |content| >= 2 ==>
              EstimateCode128Width(content, moduleWidth)
              < (OverheadModules + ModulesPerSymbol * |content|) * moduleWidth
  {
    assert forall i :: 0 <= i < |content| ==> IsAscii(content[i]);
    if |content| >= 2 {
      var n := |content|;
      assert (n + 1) / 2 < n;
      assert ModulesPerSymbol * ((n + 1) / 2) < ModulesPerSymbol * n;
      MultiplyStrict(OverheadModules + ModulesPerSymbol * ((n + 1) / 2),
                     OverheadModules + ModulesPerSymbol * n, moduleWidth);
    }
  }

  lemma MultiplyStrict(a: int, b: int, m: int)
    requires a < b && m > 0
    ensures a * m < b * m
  {
  }

  /** Every estimate is at least the fixed overhead; the empty string is exactly that. */
  lemma WidthCoversOverhead(content: string, moduleWidth: int)
    requires moduleWidth > 0
    ensures EstimateCode128Width(content, moduleWidth) >= OverheadModules * moduleWidth
    ensures EstimateCode128Width("", moduleWidth) == OverheadModules * moduleWidth
  {
  }

  /** The cases exercised by the repository's width test, at module width 2. */
  lemma WidthTestVectors()
    ensures EstimateCode128Width("12", 2) == 92
    ensures EstimateCode128Width("123456", 2) == 136
    ensures EstimateCode128Width("AB", 2) == 114
    ensures EstimateCode128Width("A1", 2) == 114
  {
    assert !IsDigit("AB"[0]);
    assert !IsDigit("A1"[0]);
  }

  /**
   A lone digit is not packed; an accented letter is charged as the two
   bytes it occupies in UTF-8.
   */
  lemma WidthOddCases()
    ensures EstimateCode128Width("7", 1) == 46
    ensures EstimateCode128Width("\U{E9}", 1) == 57
    ensures EstimateCode128Width("\U{E9}", 2) == 114
  {
    assert !IsDigit("\U{E9}"[0]);
    assert Utf8Len("\U{E9}") == 2;
  }
}
