/**
 A template read as a sequence of segments: literal text and placeholders
 `{{key}}`. Rendering fills the placeholders of the final keys with their
 values and keeps everything else, whatever order the keys are visited in,
 as long as the text holds no `{`, no key holds a brace and no final value
 holds a `{`. Under those conditions no replacement can reach into another
 placeholder or into text a previous replacement wrote.
 */
module Segments {
  import opened Strings
  import opened Strconv
  import opened Zpl
  import opened Template
  import opened Resolver
  import opened Dispatch

  datatype Seg = Text(t: string) | Hole(key: string)

  function ShowSeg(g: Seg): string {
    match g
    case Text(t) => t
    case Hole(k) => Placeholder(k)
  }

  /** The template text the segments spell. */
  function Show(segs: seq<Seg>): string
    decreases |segs|
  {
    if |segs| == 0 then "" else ShowSeg(segs[0]) + Show(segs[1..])
  }

  /** A key without braces. */
  predicate PlainKey(k: string) {
    '{' !in k && '}' !in k
  }

  predicate WellFormedSeg(g: Seg) {
    match g
    case Text(t) => '{' !in t
    case Hole(k) => PlainKey(k)
  }

  /** Text segments hold no `{` and placeholder keys no brace. */
  predicate WellFormed(segs: seq<Seg>) {
    forall i :: 0 <= i < |segs| ==> WellFormedSeg(segs[i])
  }

  /** A placeholder of one of `keys` becomes its value; every other segment stays. */
  function FillSeg(g: Seg, values: map<string, string>, keys: set<string>): Seg
    requires forall k :: k in keys ==> k in values
  {
    if g.Hole? && g.key in keys then Text(values[g.key]) else g
  }

  function Fill(segs: seq<Seg>, values: map<string, string>, keys: set<string>): (r: seq<Seg>)
    requires forall k :: k in keys ==> k in values
    ensures |r| == |segs|
    ensures forall i :: 0 <= i < |segs| ==> r[i] == FillSeg(segs[i], values, keys)
    decreases |segs|
  {
    if |segs| == 0 then [] else [FillSeg(segs[0], values, keys)] + Fill(segs[1..], values, keys)
  }

  /** `Show` of a sequence is its first segment followed by the rest. */
  lemma ShowCons(g: Seg, rest: seq<Seg>)
    ensures Show([g] + rest) == ShowSeg(g) + Show(rest)
  {
    assert ([g] + rest)[1..] == rest;
  }

  /** Two strings that differ at a position within the pattern do not share it as a prefix. */
  lemma DifferAt(s: string, p: string, idx: int)
    requires 0 <= idx < |p| && idx < |s| && s[idx] != p[idx]
    ensures !HasPrefix(s, p)
  {
    if |p| <= |s| {
      assert s[..|p|][idx] == s[idx];
    }
  }

  /** Another key's placeholder cannot start where this one does. */
  lemma PlaceholderNotPrefix(j: string, key: string, b: string)
    requires PlainKey(j) && PlainKey(key) && j != key
    ensures !HasPrefix(Placeholder(j) + b, Placeholder(key))
  {
    var s := Placeholder(j) + b;
    var p := Placeholder(key);
    var m, n := |key|, |j|;
    if m < n {
      assert s[2 + m] == j[m];
      DifferAt(s, p, 2 + m);
    } else if m > n {
      assert p[2 + n] == key[n];
      DifferAt(s, p, 2 + n);
    } else {
      assert s[..|p|][2..2 + m] == s[2..2 + m] == j;
      assert p[2..2 + m] == key;
      assert s[..|p|] != p;
    }
  }

  /** Where the pattern does not start, its first character is copied and the scan moves on. */
  lemma ReplaceCopiesFirst(s: string, p: string, v: string)
    requires |s| > 0 && |p| > 0 && !HasPrefix(s, p)
    ensures ReplaceAll(s, p, v) == [s[0]] + ReplaceAll(s[1..], p, v)
  {
  }

  /** A placeholder is two opening braces followed by its key and two closing ones. */
  lemma PlaceholderParts(j: string)
    ensures Placeholder(j) == ['{'] + (['{'] + (j + "}}"))
  {
  }

  /** After the first `{` of a placeholder, no brace-free pattern key matches until the placeholder ends. */
  lemma InnerSkip(j: string, key: string, b: string, v: string)
    requires PlainKey(j)
    ensures ReplaceAll(['{'] + (j + "}}") + b, Placeholder(key), v)
            == ['{'] + (j + "}}") + ReplaceAll(b, Placeholder(key), v)
  {
    var m := j + "}}";
    var p := Placeholder(key);
    PlaceholderHead(key);
    assert '{' !in m;
    ConsParts('{', m, b);
    DifferAt(['{'] + m + b, p, 1);
    ReplaceSkipsPrefix(m, b, p, v);
    SkipOne(['{'] + m, '{', m, b, p, v);
  }

  lemma PlaceholderHead(key: string)
    ensures |Placeholder(key)| >= 2 && Placeholder(key)[0] == '{' && Placeholder(key)[1] == '{'
  {
  }

  /** Another key's placeholder is copied unchanged and the scan resumes after it. */
  lemma HoleSkip(j: string, key: string, b: string, v: string)
    requires PlainKey(j) && PlainKey(key) && j != key
    ensures ReplaceAll(Placeholder(j) + b, Placeholder(key), v)
            == Placeholder(j) + ReplaceAll(b, Placeholder(key), v)
  {
    PlaceholderParts(j);
    PlaceholderNotPrefix(j, key, b);
    InnerSkip(j, key, b, v);
    SkipOne(Placeholder(j), '{', ['{'] + (j + "}}"), b, Placeholder(key), v);
  }

  /**
   A piece whose first character the pattern does not start at, and whose
   remainder the scan passes over, is copied whole.
   */
  lemma SkipOne(h: string, c: char, m: string, b: string, p: string, v: string)
    requires h == [c] + m
    requires |p| > 0 && !HasPrefix(h + b, p)
    requires ReplaceAll(m + b, p, v) == m + ReplaceAll(b, p, v)
    ensures ReplaceAll(h + b, p, v) == h + ReplaceAll(b, p, v)
  {
    var u := ReplaceAll(b, p, v);
    ConsParts(c, m, b);
    ReplaceCopiesFirst(h + b, p, v);
    ConsParts(c, m, u);
  }

  lemma ConsParts(c: char, m: string, b: string)
    ensures ([c] + m + b)[0] == c && ([c] + m + b)[1..] == m + b
    ensures [c] + (m + b) == [c] + m + b
    ensures |m| > 0 ==> ([c] + m + b)[1] == m[0]
  {
    assert ([c] + m + b)[1..] == m + b;
  }

  /** One replacement step fills exactly the placeholders of its key. */
  lemma {:induction false} ReplaceStep(segs: seq<Seg>, values: map<string, string>, key: string)
    requires WellFormed(segs) && PlainKey(key) && key in values
    ensures ReplaceAll(Show(segs), Placeholder(key), values[key]) == Show(Fill(segs, values, {key}))
    decreases |segs|
  {
    var p := Placeholder(key);
    var v := values[key];
    if |segs| == 0 {
      assert !HasPrefix("", p);
    } else {
      var rest := Show(segs[1..]);
      assert WellFormedSeg(segs[0]);
      assert WellFormed(segs[1..]) by {
        forall i | 0 <= i < |segs[1..]| ensures WellFormedSeg(segs[1..][i]) {
          assert segs[1..][i] == segs[i + 1];
        }
      }
      ReplaceStep(segs[1..], values, key);
      var filled := Fill(segs, values, {key});
      assert filled == [FillSeg(segs[0], values, {key})] + Fill(segs[1..], values, {key});
      ShowCons(FillSeg(segs[0], values, {key}), Fill(segs[1..], values, {key}));
      match segs[0]
      case Text(t) =>
        ReplaceSkipsPrefix(t, rest, p, v);
      case Hole(k) =>
        if k == key {
          ReplaceAtFront(rest, p, v);
        } else {
          HoleSkip(k, key, rest, v);
        }
    }
  }

  /** Filling one key and then others is filling them all at once. */
  lemma FillThenFill(segs: seq<Seg>, values: map<string, string>, key: string, keys: set<string>)
    requires key in values && forall k :: k in keys ==> k in values
    ensures Fill(Fill(segs, values, {key}), values, keys) == Fill(segs, values, {key} + keys)
  {
  }

  /** Filling with a brace-free value keeps the segments well formed. */
  lemma FillKeepsWellFormed(segs: seq<Seg>, values: map<string, string>, key: string)
    requires WellFormed(segs) && key in values && '{' !in values[key]
    ensures WellFormed(Fill(segs, values, {key}))
  {
    var r := Fill(segs, values, {key});
    forall i | 0 <= i < |r| ensures WellFormedSeg(r[i]) {
      assert WellFormedSeg(segs[i]);
    }
  }

  lemma FillNothing(segs: seq<Seg>, values: map<string, string>)
    ensures Fill(segs, values, {}) == segs
  {
  }

  /**
   The replacement loop, for any visiting order, fills the placeholders of
   the visited keys and leaves every other segment as it was.
   */
  lemma {:induction false} SubstituteFills(segs: seq<Seg>, values: map<string, string>, order: seq<string>)
    requires WellFormed(segs)
    requires forall k :: k in order ==> k in values && PlainKey(k) && '{' !in values[k]
    ensures Substitute(Show(segs), values, order) == Show(Fill(segs, values, set k | k in order))
    decreases |order|
  {
    if |order| == 0 {
      assert (set k | k in order) == {};
      FillNothing(segs, values);
    } else {
      var key := order[0];
      var rest := set k | k in order[1..];
      ReplaceStep(segs, values, key);
      FillKeepsWellFormed(segs, values, key);
      SubstituteFills(Fill(segs, values, {key}), values, order[1..]);
      FillThenFill(segs, values, key, rest);
      assert (set k | k in order) == {key} + rest;
    }
  }

  /** No value of the final map holds a `{` when no caller value does. */
  lemma FinalValuesBraceFree(replacements: map<string, string>)
    requires forall k :: k in replacements ==> '{' !in replacements[k]
    ensures forall k :: k in FinalKeys(replacements) ==> '{' !in FinalReplacements(replacements)[k]
  {
    var f := FinalReplacements(replacements);
    forall k | k in FinalKeys(replacements) ensures '{' !in f[k] {
      if k in replacements {
        SanitizeKeepsCharOut(replacements[k], '{');
      } else if k == "by" {
        assert f[k] == LongBy || f[k] == NormalBy;
      } else {
        var x := FormatNat(BarcodeX(Lookup(replacements, "sku_id")));
        assert f[k] == x && AllDigits(x);
      }
    }
  }

  /**
   `ProcessTemplate` fills every placeholder of a final key with that key's
   final value and keeps all other text, placeholders of unknown keys
   included, for every visiting order; each filled placeholder holds no
   ZPL marker or line break.
   */
  lemma ProcessTemplateFills(segs: seq<Seg>, replacements: map<string, string>, order: seq<string>)
    requires IsKeyOrder(order, FinalKeys(replacements))
    requires WellFormed(segs)
    requires forall k :: k in FinalKeys(replacements) ==> PlainKey(k)
    requires forall k :: k in replacements ==> '{' !in replacements[k]
    ensures ProcessTemplate(Show(segs), replacements, order)
            == Show(Fill(segs, FinalReplacements(replacements), FinalKeys(replacements)))
    ensures forall i :: 0 <= i < |segs| && segs[i].Hole? && segs[i].key in FinalKeys(replacements) ==>
              var g := Fill(segs, FinalReplacements(replacements), FinalKeys(replacements))[i];
              g.Text? && NoMarkers(g.t)
  {
    var values := FinalReplacements(replacements);
    FinalValuesBraceFree(replacements);
    FinalValuesHaveNoMarkers(replacements);
    assert (set k | k in order) == FinalKeys(replacements);
    SubstituteFills(segs, values, order);
  }

  /** None of the keys a label render uses holds a brace. */
  lemma RenderKeysArePlain()
    ensures forall k :: k in RenderKeys ==> PlainKey(k)
  {
    assert PlainKey("item_name") && PlainKey("price") && PlainKey("sku_id");
    assert PlainKey("by") && PlainKey("barcode_x");
  }

  /**
   The label for an item fills each `{{item_name}}`, `{{price}}`,
   `{{sku_id}}`, `{{by}}` and `{{barcode_x}}` of the template with its final
   value and keeps the rest of the template, for every visiting order.
   */
  lemma RenderFills(segs: seq<Seg>, item: PrintItem, order: seq<string>)
    requires IsKeyOrder(order, RenderKeys)
    requires WellFormed(segs)
    requires '{' !in item.name && '{' !in item.price && '{' !in item.sku
    ensures Render(Show(segs), item, order)
            == Show(Fill(segs, FinalReplacements(Replacements(item)), RenderKeys))
  {
    var r := Replacements(item);
    RenderFinalKeys(item);
    ReplacementsBraceFree(item);
    ProcessTemplateFills(segs, r, order);
  }

  lemma RenderFinalKeys(item: PrintItem)
    ensures FinalKeys(Replacements(item)) == RenderKeys
    ensures forall k :: k in FinalKeys(Replacements(item)) ==> PlainKey(k)
  {
    RenderKeysOf(item);
    RenderKeysArePlain();
  }

  lemma ReplacementsBraceFree(item: PrintItem)
    requires '{' !in item.name && '{' !in item.price && '{' !in item.sku
    ensures forall k :: k in Replacements(item) ==> '{' !in Replacements(item)[k]
  {
  }
}
