/**
 * The few JavaScript built-ins the dashboard's logic leans on, stated over
 * unbounded integers, reals and sequences.
 */
module Js {

  /** A number as `parseFloat` can produce it: NaN, a finite value or an infinity. */
  datatype Number = NaN | Finite(value: real) | PosInfinity | NegInfinity

  /**
   * JavaScript's `a < b` on numbers: false whenever either side is NaN, the
   * usual order on finite values, and the infinities below and above every
   * other number.
   */
  function Less(a: Number, b: Number): (r: bool)
    ensures a.NaN? || b.NaN? ==> !r
    ensures a.Finite? && b.Finite? ==> (r <==> a.value < b.value)
    ensures a.NegInfinity? ==> (r <==> !b.NaN? && !b.NegInfinity?)
    ensures b.PosInfinity? ==> (r <==> !a.NaN? && !a.PosInfinity?)
    ensures r ==> !a.PosInfinity? && !b.NegInfinity?
  {
    match (a, b)
    case (NaN, _) => false
    case (_, NaN) => false
    case (Finite(x), Finite(y)) => x < y
    case (NegInfinity, _) => b != NegInfinity
    case (_, PosInfinity) => a != PosInfinity
    case _ => false
  }

  /** `isNaN(v)` */
  predicate IsNaN(v: Number) { v.NaN? }

  /** The characters `String.prototype.trim` removes (white space and line terminators). */
  predicate IsWhitespace(c: char)
  {
    var n := c as int;
    || (0x09 <= n <= 0x0D)
    || n == 0x20 || n == 0xA0 || n == 0x1680
    || (0x2000 <= n <= 0x200A)
    || n == 0x2028 || n == 0x2029 || n == 0x202F || n == 0x205F
    || n == 0x3000 || n == 0xFEFF
  }

  /** Drops leading white space: the result is the suffix that starts at the first non-blank character. */
  function TrimStart(s: string): (r: string)
    ensures |r| <= |s| && r == s[|s| - |r|..]
    ensures forall i :: 0 <= i < |s| - |r| ==> IsWhitespace(s[i])
    ensures |r| > 0 ==> !IsWhitespace(r[0])
  {
    if |s| > 0 && IsWhitespace(s[0]) then TrimStart(s[1..]) else s
  }

  /** Drops trailing white space: the result is the prefix that ends at the last non-blank character. */
  function TrimEnd(s: string): (r: string)
    ensures |r| <= |s| && r == s[..|r|]
    ensures forall i :: |r| <= i < |s| ==> IsWhitespace(s[i])
    ensures |r| > 0 ==> !IsWhitespace(r[|r| - 1])
  {
    if |s| > 0 && IsWhitespace(s[|s| - 1]) then TrimEnd(s[..|s| - 1]) else s
  }

  /**
   * `s.trim()`: the part of `s` between its leading and its trailing white
   * space, which neither starts nor ends with white space.
   */
  function Trim(s: string): (r: string)
    ensures exists k :: TrimmedAt(s, r, k)
  {
    var t := TrimStart(s);
    var r := TrimEnd(t);
    TrimmedInfix(s, t, r);
    r
  }

  /**
   * `r` sits in `s` at offset k, with only white space before and after it,
   * and neither starts nor ends with white space itself. At most one `r`
   * fits this for a given `s`.
   */
  ghost predicate TrimmedAt(s: string, r: string, k: int)
  {
    && 0 <= k && k + |r| <= |s| && r == s[k..k + |r|]
    && (forall i :: 0 <= i < k ==> IsWhitespace(s[i]))
    && (forall i :: k + |r| <= i < |s| ==> IsWhitespace(s[i]))
    && (|r| > 0 ==> !IsWhitespace(r[0]) && !IsWhitespace(r[|r| - 1]))
  }

  /**
   * What TrimStart and TrimEnd promise, put together: a blank-free-ended
   * prefix r of the suffix t that follows the leading white space of s sits in
   * s between white space on both sides.
   */
  lemma TrimmedInfix(s: string, t: string, r: string)
    requires |t| <= |s| && t == s[|s| - |t|..]
    requires forall i :: 0 <= i < |s| - |t| ==> IsWhitespace(s[i])
    requires |t| > 0 ==> !IsWhitespace(t[0])
    requires |r| <= |t| && r == t[..|r|]
    requires forall i :: |r| <= i < |t| ==> IsWhitespace(t[i])
    requires |r| > 0 ==> !IsWhitespace(r[|r| - 1])
    ensures TrimmedAt(s, r, |s| - |t|)
  {
    var k := |s| - |t|;
    forall i | k + |r| <= i < |s|
      ensures IsWhitespace(s[i])
    {
      assert s[i] == t[i - k];
    }
    if |r| > 0 {
      assert r[0] == t[0];
    }
  }

  /** Of two numbers neither of which is NaN, at most one is below the other, and `<` is transitive. */
  lemma LessIsStrictOrder(a: Number, b: Number, c: Number)
    ensures !(Less(a, b) && Less(b, a))
    ensures Less(a, b) && Less(b, c) ==> Less(a, c)
    ensures !a.NaN? && !b.NaN? && a != b ==> Less(a, b) || Less(b, a)
  {
  }

  /** A string trims to the empty string exactly when every character of it is white space. */
  lemma TrimEmptyIffBlank(s: string)
    ensures Trim(s) == "" <==> forall i :: 0 <= i < |s| ==> IsWhitespace(s[i])
  {
    var t := TrimStart(s);
    if Trim(s) == "" {
      // the suffix left by TrimStart starts with a non-blank character, so it is empty
      assert |t| == 0;
    } else {
      var k := |s| - |t|;
      assert !IsWhitespace(t[0]) && t[0] == s[k];
    }
  }

  function Min(a: int, b: int): int { if a <= b then a else b }

  function Max(a: int, b: int): int { if a >= b then a else b }

  /** `Math.ceil(a / b)` for a non-negative numerator: the least integer whose multiple of b reaches a. */
  function CeilDiv(a: nat, b: nat): (q: nat)
    requires b > 0
    ensures q * b >= a
    ensures q == 0 || (q - 1) * b < a
  {
    if a == 0 then 0 else (a - 1) / b + 1
  }

  /** `s.slice(start, end)` for non-negative arguments: both bounds are clamped to the length, and a start at or past the end gives the empty sequence. */
  function Slice<T>(s: seq<T>, start: nat, end: nat): (r: seq<T>)
    ensures |r| == Max(0, Min(end, |s|) - Min(start, |s|))
    ensures |r| > 0 ==> start + |r| <= |s|
    ensures forall i :: 0 <= i < |r| ==> r[i] == s[start + i]
  {
    var a := Min(start, |s|);
    var b := Min(end, |s|);
    if a < b then s[a..b] else []
  }
}
