/**
 Sanitising of field values before they are written into a ZPL document.

 In ZPL a caret (`^`) starts a format command and a tilde (`~`) a control
 command, and a line break ends a record. A field value is stripped of both
 markers, its line breaks become spaces, and the surrounding white space
 is trimmed, so that no value can open a command of its own.
 */
module Zpl {
  import opened Unicode
  import opened Strings

  /** `s` holds neither ZPL marker and no line break. */
  predicate NoMarkers(s: string) {
    '^' !in s && '~' !in s && '\n' !in s && '\r' !in s
  }

  /** What one code point of a value becomes: markers vanish, line breaks become spaces. */
  function CleanChar(c: char): string {
    if c == '^' || c == '~' then []
    else if c == '\n' || c == '\r' then [' ']
    else [c]
  }

  /** A single-pass reference for the four replacements: `CleanChar` applied to each code point. */
  function Clean(s: string): string {
    if |s| == 0 then [] else CleanChar(s[0]) + Clean(s[1..])
  }

  /**
   `SanitizeZPL`: deletes every `^`, then every `~`, turns every LF and then
   every CR into a space, and trims white space at both ends. The result
   holds no marker or line break and neither starts nor ends with white
   space.
   */
  function SanitizeZPL(input: string): (r: string)
    ensures NoMarkers(r)
    ensures |r| > 0 ==> !IsSpace(r[0]) && !IsSpace(r[|r| - 1])
  {
    var noCarets := ReplaceAll(input, "^", "");
    var noTildes := ReplaceAll(noCarets, "~", "");
    var noLineFeeds := ReplaceAll(noTildes, "\n", " ");
    var noReturns := ReplaceAll(noLineFeeds, "\r", " ");
    ReplacementsAreClean(input);
    CleanHasNoMarkers(input);
    TrimSpaceKeepsChars(noReturns, '^');
    TrimSpaceKeepsChars(noReturns, '~');
    TrimSpaceKeepsChars(noReturns, '\n');
    TrimSpaceKeepsChars(noReturns, '\r');
    TrimSpace(noReturns)
  }

  /** Sanitising adds no code point except the space that stands for a line break. */
  lemma SanitizeKeepsCharOut(input: string, c: char)
    requires c !in input && c != ' '
    ensures c !in SanitizeZPL(input)
  {
    var noCarets := ReplaceAll(input, "^", "");
    var noTildes := ReplaceAll(noCarets, "~", "");
    var noLineFeeds := ReplaceAll(noTildes, "\n", " ");
    var noReturns := ReplaceAll(noLineFeeds, "\r", " ");
    TrimSpaceKeepsChars(noReturns, c);
  }

  /** The four sequential replacements compute `Clean`. */
  lemma ReplacementsAreClean(s: string)
    ensures ReplaceAll(ReplaceAll(ReplaceAll(ReplaceAll(s, "^", ""), "~", ""), "\n", " "), "\r", " ")
            == Clean(s)
  {
    ReplaceCharByEmpty(s, '^');
    ReplaceCharByEmpty(RemoveChar(s, '^'), '~');
    ReplaceCharByChar(RemoveChar(RemoveChar(s, '^'), '~'), '\n', ' ');
    ReplaceCharByChar(MapChar(RemoveChar(RemoveChar(s, '^'), '~'), '\n', ' '), '\r', ' ');
    CharStepsAreClean(s);
  }

  lemma {:induction false} CharStepsAreClean(s: string)
    ensures MapChar(MapChar(RemoveChar(RemoveChar(s, '^'), '~'), '\n', ' '), '\r', ' ') == Clean(s)
    decreases |s|
  {
    if |s| > 0 {
      CharStepsAreClean(s[1..]);
      var t := RemoveChar(RemoveChar(s[1..], '^'), '~');
      if s[0] != '^' && s[0] != '~' {
        var u := RemoveChar(s[1..], '^');
        assert RemoveChar(s, '^') == [s[0]] + u;
        assert ([s[0]] + u)[1..] == u;
        assert RemoveChar(RemoveChar(s, '^'), '~') == [s[0]] + t;
        assert ([s[0]] + t)[1..] == t;
        var m := MapChar(t, '\n', ' ');
        var c := if s[0] == '\n' then ' ' else s[0];
        assert MapChar([s[0]] + t, '\n', ' ') == [c] + m;
        assert ([c] + m)[1..] == m;
      } else if s[0] == '^' {
        assert RemoveChar(s, '^') == RemoveChar(s[1..], '^');
      } else {
        var u := RemoveChar(s[1..], '^');
        assert RemoveChar(s, '^') == [s[0]] + u;
        assert ([s[0]] + u)[1..] == u;
        assert RemoveChar(RemoveChar(s, '^'), '~') == t;
      }
    }
  }

  lemma {:induction false} CleanHasNoMarkers(s: string)
    ensures NoMarkers(Clean(s))
    decreases |s|
  {
    if |s| > 0 {
      CleanHasNoMarkers(s[1..]);
    }
  }

  /** A string with no marker is its own `Clean`. */
  lemma {:induction false} CleanOfClean(s: string)
    requires NoMarkers(s)
    ensures Clean(s) == s
    decreases |s|
  {
    if |s| > 0 {
      var t := s[1..];
      assert s == [s[0]] + t;
      assert NoMarkers(t);
      CleanOfClean(t);
      assert CleanChar(s[0]) == [s[0]];
    }
  }

  /** `SanitizeZPL` is trimming applied to the single-pass `Clean`. */
  lemma SanitizeIsTrimmedClean(s: string)
    ensures SanitizeZPL(s) == TrimSpace(Clean(s))
  {
    ReplacementsAreClean(s);
  }

  /** A value that is already clean and trimmed passes through unchanged. */
  lemma SanitizeKeepsCleanValue(s: string)
    requires NoMarkers(s)
    requires |s| > 0 ==> !IsSpace(s[0]) && !IsSpace(s[|s| - 1])
    ensures SanitizeZPL(s) == s
  {
    SanitizeIsTrimmedClean(s);
    CleanOfClean(s);
    TrimSpaceOfTrimmed(s);
  }

  /** Sanitising twice is sanitising once. */
  lemma SanitizeIdempotent(s: string)
    ensures SanitizeZPL(SanitizeZPL(s)) == SanitizeZPL(s)
  {
    SanitizeKeepsCleanValue(SanitizeZPL(s));
  }
}
