/**
 Code-point level facts the label pipeline relies on: the UTF-8 byte length
 that Go's `len` reports for a string, and the white-space class used by
 Go's `unicode.IsSpace` (and so by `strings.TrimSpace`).

 A Go string is modelled as the sequence of code points it decodes to; the
 strings handled here are assumed to be valid UTF-8.
 */
module Unicode {

  predicate IsAscii(c: char) {
    (c as int) < 0x80
  }

  /** Number of bytes UTF-8 uses for one code point (RFC 3629, section 3). */
  function RuneLen(c: char): (n: nat)
    ensures 1 <= n <= 4
    ensures n == 1 <==> IsAscii(c)
  {
    if (c as int) < 0x80 then 1
    else if (c as int) < 0x800 then 2
    else if (c as int) < 0x1_0000 then 3
    else 4
  }

  /** Go's `len(s)`: the byte length of the UTF-8 encoding of `s`. */
  function Utf8Len(s: string): (n: nat)
    ensures |s| <= n <= 4 * |s|
    ensures n == |s| <==> forall i :: 0 <= i < |s| ==> IsAscii(s[i])
  {
    if |s| == 0 then 0
    else
      var rest := Utf8Len(s[1..]);
      assert forall i :: 1 <= i < |s| ==> s[i] == s[1..][i - 1];
      RuneLen(s[0]) + rest
  }

  /**
   Go's `unicode.IsSpace`: the Latin-1 spaces `\t \n \v \f \r`, space,
   U+0085 and U+00A0, and beyond Latin-1 the code points with the Unicode
   White_Space property (category Zs, U+2028 of Zl and U+2029 of Zp).
   In ASCII these are the space and the controls from tab to carriage return.
   */
  predicate IsSpace(c: char)
    ensures c < '\U{80}' ==> (IsSpace(c) <==> c == ' ' || '\t' <= c <= '\r')
  {
    || c == '\t' || c == '\n' || c == '\U{0B}' || c == '\U{0C}' || c == '\r'
    || c == ' ' || c == '\U{85}' || c == '\U{A0}'
    || c == '\U{1680}'
    || ('\U{2000}' <= c <= '\U{200A}')
    || c == '\U{2028}' || c == '\U{2029}'
    || c == '\U{202F}' || c == '\U{205F}' || c == '\U{3000}'
  }
}
