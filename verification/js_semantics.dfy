/**
 * The few pieces of JavaScript built-in behaviour the modelled components
 * rely on, written out so that Dafny's own operators are never silently
 * substituted for them: `Array.prototype.slice`, the truncating `%`
 * operator, and the white-space class used by `String.prototype.trim` and
 * by `\s` in regular expressions.
 */
module JsSemantics {

  /** Resolves a relative `slice` bound: negative counts from the end, then clamps to [0, len]. */
  function SliceBound(i: int, len: nat): (k: nat)
    ensures k <= len
    ensures 0 <= i <= len ==> k == i
    ensures i > len ==> k == len
    ensures i < 0 ==> k == if len + i < 0 then 0 else len + i
  {
    if i < 0 then (if len + i < 0 then 0 else len + i)
    else if i < len then i else len
  }

  /** `s.slice(start, end)`. */
  function Slice<T>(s: seq<T>, start: int, end: int): (r: seq<T>)
    ensures 0 <= start <= end <= |s| ==> r == s[start..end]
    ensures |r| <= |s|
  {
    var k := SliceBound(start, |s|);
    var e := SliceBound(end, |s|);
    if k < e then s[k..e] else []
  }

  /**
   * `a % n` for a positive divisor. JavaScript truncates toward zero, so the
   * result takes the sign of `a` and is odd-symmetric; it agrees with Dafny's
   * Euclidean `%` exactly on non-negative `a`.
   */
  function JsRem(a: int, n: int): (r: int)
    requires n > 0
    ensures a >= 0 ==> 0 <= r < n
    ensures a < 0 ==> -n < r <= 0
  {
    if a >= 0 then a % n else -((-a) % n)
  }

  /** The characters JavaScript's `trim()` removes and `\s` matches (WhiteSpace and LineTerminator). */
  predicate IsWhitespace(c: char)
  {
    || c == '\t' || c == '\n' || c == '\U{000B}' || c == '\U{000C}' || c == '\r' || c == ' '
    || c == '\U{00A0}' || c == '\U{1680}'
    || ('\U{2000}' <= c <= '\U{200A}')
    || c == '\U{2028}' || c == '\U{2029}' || c == '\U{202F}' || c == '\U{205F}'
    || c == '\U{3000}' || c == '\U{FEFF}'
  }

  /** JavaScript truthiness of a string: every string except "" is truthy. */
  predicate TruthyString(s: string)
  {
    s != ""
  }
}
