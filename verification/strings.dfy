/**
 The part of Go's `strings` package the label pipeline uses: `HasPrefix`,
 `Contains`, `ReplaceAll` and `TrimSpace`, on strings taken as sequences
 of code points.
 */
module Strings {
  import opened Unicode

  /** `strings.HasPrefix`: `s` is `prefix` followed by the rest of `s`. */
  predicate HasPrefix(s: string, prefix: string)
    ensures HasPrefix(s, prefix) <==> |prefix| <= |s| && s == prefix + s[|prefix|..]
  {
    |prefix| <= |s| && s[..|prefix|] == prefix
  }

  /** `strings.Contains`: `substr` occurs at some position of `s`. */
  predicate Contains(s: string, substr: string)
    decreases |s|
  {
    HasPrefix(s, substr) || (|s| > 0 && Contains(s[1..], substr))
  }

  /** `substr` occurs in `s` starting at position `i`. */
  predicate OccursAt(s: string, substr: string, i: int) {
    0 <= i <= |s| - |substr| && s[i..i + |substr|] == substr
  }

  /** `Contains` holds exactly when `substr` occurs at some position of `s`. */
  lemma {:induction false} ContainsIsOccurrence(s: string, substr: string)
    ensures Contains(s, substr) <==> exists i :: OccursAt(s, substr, i)
    decreases |s|
  {
    if |s| == 0 {
      if |substr| == 0 {
        assert OccursAt(s, substr, 0);
      }
    } else {
      ContainsIsOccurrence(s[1..], substr);
      if HasPrefix(s, substr) {
        assert OccursAt(s, substr, 0);
      } else if Contains(s[1..], substr) {
        var j :| OccursAt(s[1..], substr, j);
        OccursShift(s, substr, j);
      }
      if exists i :: OccursAt(s, substr, i) {
        var i :| OccursAt(s, substr, i);
        if i > 0 {
          OccursShift(s, substr, i - 1);
        }
      }
    }
  }

  /** An occurrence in the tail of `s` is an occurrence in `s` one position later. */
  lemma OccursShift(s: string, substr: string, j: nat)
    requires |s| > 0
    ensures OccursAt(s[1..], substr, j) <==> OccursAt(s, substr, j + 1)
  {
    if 0 <= j <= |s| - 1 - |substr| {
      assert s[1..][j..j + |substr|] == s[j + 1..j + 1 + |substr|];
    }
  }

  /**
   The empty-pattern case of `strings.ReplaceAll`: the empty pattern
   matches before every code point and at the end.
   */
  function InsertAround(s: string, replacement: string): (r: string)
    ensures |r| == |s| + (|s| + 1) * |replacement|
    ensures forall c :: c in r ==> c in s || c in replacement
  {
    if |s| == 0 then replacement
    else
      var rest := InsertAround(s[1..], replacement);
      assert forall c :: c in s[1..] ==> c in s;
      replacement + [s[0]] + rest
  }

  /**
   `strings.ReplaceAll(s, pattern, replacement)`: a left-to-right scan that
   replaces every non-overlapping occurrence of `pattern`. Text produced by
   a replacement is never scanned again within the same call.
   */
  function ReplaceAll(s: string, pattern: string, replacement: string): (r: string)
    ensures |pattern| > 0 && !Contains(s, pattern) ==> r == s
    ensures forall c :: c in r ==> c in s || c in replacement
    decreases |s|
  {
    if |pattern| == 0 then InsertAround(s, replacement)
    else if HasPrefix(s, pattern) then
      var rest := ReplaceAll(s[|pattern|..], pattern, replacement);
      assert forall c :: c in s[|pattern|..] ==> c in s;
      replacement + rest
    else if |s| == 0 then s
    else
      var rest := ReplaceAll(s[1..], pattern, replacement);
      assert forall c :: c in s[1..] ==> c in s;
      [s[0]] + rest
  }

  /** Every occurrence of `c` removed. */
  function RemoveChar(s: string, c: char): (r: string)
  {
    if |s| == 0 then [] else (if s[0] == c then [] else [s[0]]) + RemoveChar(s[1..], c)
  }

  /** Every occurrence of `c` replaced by `d`. */
  function MapChar(s: string, c: char, d: char): (r: string)
  {
    if |s| == 0 then [] else [if s[0] == c then d else s[0]] + MapChar(s[1..], c, d)
  }

  /** Replacing a one-character pattern by nothing deletes that character. */
  lemma {:induction false} ReplaceCharByEmpty(s: string, c: char)
    ensures ReplaceAll(s, [c], "") == RemoveChar(s, c)
    decreases |s|
  {
    if |s| > 0 {
      ReplaceCharByEmpty(s[1..], c);
    }
  }

  /** Replacing a one-character pattern by one character maps that character. */
  lemma {:induction false} ReplaceCharByChar(s: string, c: char, d: char)
    ensures ReplaceAll(s, [c], [d]) == MapChar(s, c, d)
    decreases |s|
  {
    if |s| > 0 {
      ReplaceCharByChar(s[1..], c, d);
    }
  }

  /**
   Replacing a pattern by itself gives back the input, for the empty
   pattern too; this is why Go may return early when the two are equal.
   */
  lemma {:induction false} ReplaceBySelf(s: string, pattern: string)
    ensures ReplaceAll(s, pattern, pattern) == s
    decreases |s|
  {
    if |pattern| == 0 {
      InsertAroundNothing(s);
    } else if HasPrefix(s, pattern) {
      ReplaceBySelf(s[|pattern|..], pattern);
      assert s == s[..|pattern|] + s[|pattern|..];
    } else if |s| > 0 {
      ReplaceBySelf(s[1..], pattern);
    }
  }

  lemma {:induction false} InsertAroundNothing(s: string)
    ensures InsertAround(s, "") == s
    decreases |s|
  {
    if |s| > 0 {
      InsertAroundNothing(s[1..]);
    }
  }

  /**
   A prefix holding no copy of the pattern's first character cannot start
   a match, so the scan copies it unchanged.
   */
  lemma {:induction false} ReplaceSkipsPrefix(a: string, b: string, pattern: string, replacement: string)
    requires |pattern| > 0 && pattern[0] !in a
    ensures ReplaceAll(a + b, pattern, replacement) == a + ReplaceAll(b, pattern, replacement)
    decreases |a|
  {
    if |a| > 0 {
      assert (a + b)[0] == a[0];
      assert !HasPrefix(a + b, pattern);
      assert (a + b)[1..] == a[1..] + b;
      assert ReplaceAll(a + b, pattern, replacement) == [a[0]] + ReplaceAll(a[1..] + b, pattern, replacement);
      ReplaceSkipsPrefix(a[1..], b, pattern, replacement);
      assert a == [a[0]] + a[1..];
    } else {
      assert a + b == b;
    }
  }

  /** A match of the whole pattern at the front is replaced. */
  lemma ReplaceAtFront(b: string, pattern: string, replacement: string)
    requires |pattern| > 0
    ensures ReplaceAll(pattern + b, pattern, replacement) == replacement + ReplaceAll(b, pattern, replacement)
  {
    assert (pattern + b)[..|pattern|] == pattern;
    assert (pattern + b)[|pattern|..] == b;
  }

  /** The parts in order with `sep` between each two, as `strings.Join` builds them. */
  function Join(parts: seq<string>, sep: string): string
    decreases |parts|
  {
    if |parts| == 0 then ""
    else if |parts| == 1 then parts[0]
    else parts[0] + sep + Join(parts[1..], sep)
  }

  /** A code point in neither the parts nor the separator is not in the joined text. */
  lemma {:induction false} JoinKeepsCharOut(parts: seq<string>, sep: string, c: char)
    requires forall i :: 0 <= i < |parts| ==> c !in parts[i]
    requires c !in sep
    ensures c !in Join(parts, sep)
    decreases |parts|
  {
    if |parts| > 1 {
      JoinKeepsCharOut(parts[1..], sep, c);
    }
  }

  /**
   Every occurrence of the pattern is replaced, and nothing else changes:
   text made of pieces that hold no copy of the pattern's first code point,
   with the pattern between each two, becomes the same pieces with the
   replacement between each two.
   */
  lemma {:induction false} ReplaceJoin(parts: seq<string>, pattern: string, replacement: string)
    requires |pattern| > 0
    requires forall i :: 0 <= i < |parts| ==> pattern[0] !in parts[i]
    ensures ReplaceAll(Join(parts, pattern), pattern, replacement) == Join(parts, replacement)
    decreases |parts|
  {
    if |parts| == 1 {
      ReplaceSkipsPrefix(parts[0], "", pattern, replacement);
      assert parts[0] + "" == parts[0];
    } else if |parts| > 1 {
      ReplaceAfterPiece(parts[0], Join(parts[1..], pattern), pattern, replacement);
      ReplaceJoin(parts[1..], pattern, replacement);
    }
  }

  /** A piece without the pattern's first code point, then the pattern: the piece is kept and the pattern replaced. */
  lemma ReplaceAfterPiece(piece: string, rest: string, pattern: string, replacement: string)
    requires |pattern| > 0 && pattern[0] !in piece
    ensures ReplaceAll(piece + pattern + rest, pattern, replacement)
            == piece + replacement + ReplaceAll(rest, pattern, replacement)
  {
    assert piece + pattern + rest == piece + (pattern + rest);
    ReplaceSkipsPrefix(piece, pattern + rest, pattern, replacement);
    ReplaceAtFront(rest, pattern, replacement);
  }

  /** A string that contains `p + q` contains `p`. */
  lemma {:induction false} ContainsOfLonger(s: string, p: string, q: string)
    ensures Contains(s, p + q) ==> Contains(s, p)
    decreases |s|
  {
    if Contains(s, p + q) {
      if HasPrefix(s, p + q) {
        assert s[..|p|] == (p + q)[..|p|] == p;
      } else {
        ContainsOfLonger(s[1..], p, q);
      }
    }
  }

  /** Every code point of a pattern that `s` contains occurs in `s`. */
  lemma {:induction false} ContainedCharsOccur(s: string, pattern: string, c: char)
    ensures Contains(s, pattern) && c in pattern ==> c in s
    decreases |s|
  {
    if Contains(s, pattern) && c in pattern {
      if HasPrefix(s, pattern) {
        assert c in s[..|pattern|];
      } else {
        ContainedCharsOccur(s[1..], pattern, c);
        assert forall x :: x in s[1..] ==> x in s;
      }
    }
  }

  /** Number of leading white-space code points of `s`. */
  function SpanSpace(s: string): (n: nat)
    ensures n <= |s|
    ensures forall i :: 0 <= i < n ==> IsSpace(s[i])
    ensures n < |s| ==> !IsSpace(s[n])
    decreases |s|
  {
    if |s| > 0 && IsSpace(s[0]) then
      var rest := SpanSpace(s[1..]);
      assert forall i :: 1 <= i < 1 + rest ==> s[i] == s[1..][i - 1];
      1 + rest
    else 0
  }

  /** `strings.TrimRightFunc(s, unicode.IsSpace)`. */
  function TrimRightSpace(s: string): (r: string)
    ensures |r| <= |s| && r == s[..|r|]
    ensures forall i :: |r| <= i < |s| ==> IsSpace(s[i])
    ensures |r| > 0 ==> !IsSpace(r[|r| - 1])
    decreases |s|
  {
    if |s| > 0 && IsSpace(s[|s| - 1]) then TrimRightSpace(s[..|s| - 1]) else s
  }

  /**
   `strings.TrimSpace`: `s` with its longest all-space prefix and suffix
   removed. The result is the slice of `s` starting after the leading
   spaces; what follows it in `s` is all space; it neither starts nor ends
   with a space.
   */
  function TrimSpace(s: string): (r: string)
    ensures SpanSpace(s) + |r| <= |s|
    ensures r == s[SpanSpace(s)..SpanSpace(s) + |r|]
    ensures forall i :: SpanSpace(s) + |r| <= i < |s| ==> IsSpace(s[i])
    ensures |r| > 0 ==> !IsSpace(r[0]) && !IsSpace(r[|r| - 1])
  {
    TrimRightSpace(s[SpanSpace(s)..])
  }

  /** Trimming leaves a string that neither starts nor ends with a space unchanged. */
  lemma TrimSpaceOfTrimmed(s: string)
    requires |s| > 0 ==> !IsSpace(s[0]) && !IsSpace(s[|s| - 1])
    ensures TrimSpace(s) == s
  {
    var r := TrimSpace(s);
    if |s| > 0 {
      assert SpanSpace(s) == 0;
    }
  }

  /** `strings.TrimSpace` is idempotent. */
  lemma TrimSpaceIdempotent(s: string)
    ensures TrimSpace(TrimSpace(s)) == TrimSpace(s)
  {
    TrimSpaceOfTrimmed(TrimSpace(s));
  }

  /** Trimming introduces no code point: every one kept comes from `s`. */
  lemma TrimSpaceKeepsChars(s: string, c: char)
    ensures c in TrimSpace(s) ==> c in s
  {
    var r := TrimSpace(s);
    if c in r {
      var k := SpanSpace(s);
      var i :| 0 <= i < |r| && r[i] == c;
      assert s[k + i] == c;
    }
  }
}
