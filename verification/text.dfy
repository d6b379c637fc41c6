/** Text primitives the matchers rely on: Go's `strings.ToLower`, `strings.Contains`
    and the UTF-8 byte length `len(s)` of a string, over strings of code points. */
module Text {

  /** The upper-case letters whose lower case lies in Basic Latin or in the
      Latin-1 Supplement: A-Z, U+00C0-U+00DE except the multiplication sign
      U+00D7, and U+0178 (the upper case of U+00FF). */
  predicate IsUpper(c: char) {
    'A' <= c <= 'Z' || ('\U{00C0}' <= c <= '\U{00DE}' && c != '\U{00D7}') || c == '\U{0178}'
  }

  /** Lower-cases one code point as Go's `unicode.ToLower` does for the letters
      above; every other code point is its own lower case in this model. */
  function LowerRune(c: char): (r: char)
    ensures !IsUpper(r)
    ensures !IsUpper(c) ==> r == c
    ensures 'A' <= c <= 'Z' ==> r as int == c as int + 32 && 'a' <= r <= 'z'
    ensures '\U{00C0}' <= c <= '\U{00DE}' && c != '\U{00D7}' ==> r as int == c as int + 32
    ensures c == '\U{0178}' ==> r == '\U{00FF}'
  {
    if c == '\U{0178}' then '\U{00FF}'
    else if IsUpper(c) then (c as int + 32) as char
    else c
  }

  /** The upper case of the letters `LowerRune` produces: the inverse table. */
  function UpperRune(c: char): char {
    if c == '\U{00FF}' then '\U{0178}'
    else if 'a' <= c <= 'z' || ('\U{00E0}' <= c <= '\U{00FE}' && c != '\U{00F7}') then (c as int - 32) as char
    else c
  }

  /** Lower-casing loses no upper-case letter: upper-casing gives it back, so
      two different letters never share a lower case. */
  lemma LowerRuneRoundTrip(c: char)
    requires IsUpper(c)
    ensures UpperRune(LowerRune(c)) == c
  {
  }

  /** `strings.ToLower`: maps every rune to its own lower case, so the rune
      count never changes. */
  function Lower(s: string): (r: string)
    ensures |r| == |s|
    ensures forall i :: 0 <= i < |s| ==> r[i] == LowerRune(s[i])
    ensures forall i :: 0 <= i < |r| ==> !IsUpper(r[i])
    ensures forall i :: 0 <= i < |s| && !IsUpper(s[i]) ==> r[i] == s[i]
  {
    seq(|s|, i requires 0 <= i < |s| => LowerRune(s[i]))
  }

  /** Lower-casing is idempotent: lowered text is already normalised. */
  lemma LowerIdempotent(s: string)
    ensures Lower(Lower(s)) == Lower(s)
  {
  }

  /** `strings.Contains(s, w)`: w occurs in s as a contiguous run. The empty
      string occurs in every string. */
  predicate Contains(s: string, w: string) {
    exists i | 0 <= i <= |s| - |w| :: OccursAt(s, w, i)
  }

  /** w occurs in s starting at index i. */
  predicate OccursAt(s: string, w: string, i: int) {
    0 <= i <= |s| - |w| && s[i..i + |w|] == w
  }

  /** A string cannot contain a word that uses a code point the string lacks. */
  lemma MissingRuneRulesOutContains(s: string, w: string, k: int)
    requires 0 <= k < |w| && w[k] !in s
    ensures !Contains(s, w)
  {
  }

  /** Number of bytes of the UTF-8 encoding of one code point. */
  function RuneLen(c: char): (n: nat)
    ensures 1 <= n <= 4
    ensures n == 1 <==> (c as int) < 0x80
  {
    if (c as int) < 0x80 then 1
    else if (c as int) < 0x800 then 2
    else if (c as int) < 0x1_0000 then 3
    else 4
  }

  /** Go's `len(s)` on a string: its UTF-8 byte length. */
  function ByteLen(s: string): (n: nat)
    ensures |s| <= n <= 4 * |s|
    ensures n == 0 <==> |s| == 0
  {
    if |s| == 0 then 0 else RuneLen(s[0]) + ByteLen(s[1..])
  }

  /** On ASCII text the byte length and the rune count agree. */
  lemma {:induction false} AsciiByteLen(s: string)
    requires forall i :: 0 <= i < |s| ==> (s[i] as int) < 0x80
    ensures ByteLen(s) == |s|
  {
    if |s| > 0 {
      assert forall i :: 0 <= i < |s[1..]| ==> s[1..][i] == s[i + 1];
      AsciiByteLen(s[1..]);
    }
  }
}
