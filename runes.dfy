/** Output text as a sequence of Unicode code points, with the two places
    where Go substitutes U+FFFD: `string(int)` of a value that is not a Unicode
    scalar value, and `utf8.DecodeRuneInString` of the empty string. */
module Runes {

  /** U+FFFD, Go's `utf8.RuneError`. */
  const Replacement: int := 0xFFFD

  /** A Unicode scalar value: a code point that is not a surrogate. */
  predicate IsScalar(r: int)
  {
    0 <= r < 0xD800 || 0xDFFF < r <= 0x10FFFF
  }

  /** Well-formed text: every element is a scalar value. */
  predicate IsText(s: seq<int>)
  {
    forall i :: 0 <= i < |s| ==> IsScalar(s[i])
  }

  /** Go's `string(v)` for an integer `v`, as one code point. */
  function RuneOf(v: int): (r: int)
    ensures IsScalar(r)
    ensures IsScalar(v) ==> r == v
    ensures !IsScalar(v) ==> r == Replacement
  {
    if IsScalar(v) then v else Replacement
  }

  /** The first code point of `s`, or U+FFFD when `s` is empty. */
  function FirstRune(s: seq<int>): (r: int)
    ensures IsText(s) ==> IsScalar(r)
    ensures |s| > 0 ==> r == s[0]
    ensures |s| == 0 ==> r == Replacement
  {
    if |s| == 0 then Replacement else s[0]
  }

  /** `concatWithFirstRune(s, t)`: `s` followed by the first code point of `t`. */
  function ConcatWithFirstRune(s: seq<int>, t: seq<int>): (r: seq<int>)
    ensures |r| == |s| + 1 && r[..|s|] == s
    ensures r[|s|] == FirstRune(t)
    ensures IsText(s) && IsText(t) ==> IsText(r)
  {
    s + [FirstRune(t)]
  }
}
