/**
 * Shared vocabulary of the model: optional values, the trade direction,
 * decimal.js results that may be non-finite, and small arithmetic and
 * string helpers used by several source files.
 */
module Common {

  /** `null`/`undefined` versus a present value. */
  datatype Option<T> = None | Some(value: T)

  /**
   * The `tradeType` string. The source compares it with the long and the
   * short constant; any other string takes whichever branch does not test
   * for it, so it is kept as its own case.
   */
  datatype TradeType = Long | Short | OtherType(name: string)

  /**
   * A decimal.js value: every finite value is an exact real; division by
   * zero gives a signed infinity, or NaN for 0/0.
   */
  datatype Ext = Fin(r: real) | PosInf | NegInf | NaN

  /** decimal.js `a.div(b)`, exact when `b` is not zero. */
  function DecimalDiv(a: real, b: real): (q: Ext)
    ensures b != 0.0 ==> q == Fin(a / b)
    ensures b == 0.0 ==> (q.Fin? == false) && (q == NaN <==> a == 0.0)
  {
    if b != 0.0 then Fin(a / b)
    else if a > 0.0 then PosInf
    else if a < 0.0 then NegInf
    else NaN
  }

  function Abs(x: real): real
  {
    if x < 0.0 then -x else x
  }

  function Max(a: real, b: real): real
  {
    if a < b then b else a
  }

  function Min(a: real, b: real): real
  {
    if a < b then a else b
  }

  /** Left-to-right sum, the shape of `reduce((sum, x) => sum.plus(x), 0)`. */
  function Sum(s: seq<real>): real
  {
    if s == [] then 0.0 else Sum(s[..|s| - 1]) + s[|s| - 1]
  }

  lemma {:induction false} SumAppend(s: seq<real>, t: seq<real>)
    ensures Sum(s + t) == Sum(s) + Sum(t)
  {
    if t == [] {
      assert s + t == s;
    } else {
      var u := t[..|t| - 1];
      assert (s + t)[..|s + t| - 1] == s + u;
      SumAppend(s, u);
    }
  }

  /** ROUND_HALF_UP to zero decimal places: ties go away from zero. */
  function RoundHalfUp(x: real): (n: int)
    ensures (n as real) - 0.5 <= x <= (n as real) + 0.5
    ensures x == (x.Floor as real) ==> n == x.Floor
  {
    if x >= 0.0 then (x + 0.5).Floor else -((-x + 0.5).Floor)
  }

  predicate IsInteger(x: real)
  {
    x == (x.Floor as real)
  }

  function DigitChar(d: nat): char
    requires d < 10
  {
    "0123456789"[d]
  }

  /** `${n}` for a non-negative integer: decimal digits, no leading zeros. */
  function NatToString(n: nat): (s: string)
    ensures |s| >= 1
    ensures forall i :: 0 <= i < |s| ==> '0' <= s[i] <= '9'
    ensures |s| > 1 ==> s[0] != '0'
  {
    if n < 10 then [DigitChar(n)] else NatToString(n / 10) + [DigitChar(n % 10)]
  }

  /**
   * The characters `String.prototype.trim` removes: ECMAScript WhiteSpace
   * and LineTerminator code points.
   */
  predicate IsJsSpace(c: char)
  {
    c == ' ' || c == '\t' || c == '\n' || c == '\r' || c == '\U{B}' || c == '\U{C}'
    || c == '\U{A0}' || c == '\U{1680}' || ('\U{2000}' <= c <= '\U{200A}')
    || c == '\U{2028}' || c == '\U{2029}' || c == '\U{202F}' || c == '\U{205F}'
    || c == '\U{3000}' || c == '\U{FEFF}'
  }

  /** `s.trim()`. */
  function Trim(s: string): (t: string)
    ensures |t| <= |s|
    ensures t == [] <==> forall i :: 0 <= i < |s| ==> IsJsSpace(s[i])
    ensures t != [] ==> !IsJsSpace(t[0]) && !IsJsSpace(t[|t| - 1])
  {
    TrimEnd(TrimStart(s))
  }

  function TrimStart(s: string): (t: string)
    ensures |t| <= |s| && t == s[|s| - |t|..]
    ensures t != [] ==> !IsJsSpace(t[0])
    ensures t == [] <==> forall i :: 0 <= i < |s| ==> IsJsSpace(s[i])
  {
    if s != [] && IsJsSpace(s[0]) then TrimStart(s[1..]) else s
  }

  function TrimEnd(s: string): (t: string)
    ensures |t| <= |s| && t == s[..|t|]
    ensures t != [] ==> !IsJsSpace(t[|t| - 1])
    ensures t == [] <==> forall i :: 0 <= i < |s| ==> IsJsSpace(s[i])
  {
    if s != [] && IsJsSpace(s[|s| - 1]) then TrimEnd(s[..|s| - 1]) else s
  }

  /** `s.startsWith(p)`. */
  predicate StartsWith(s: string, p: string)
  {
    |p| <= |s| && s[..|p|] == p
  }

  /** `s.indexOf(c)`: the first position holding `c`, or -1. */
  function IndexOf(s: string, c: char): (i: int)
    ensures -1 <= i < |s|
    ensures i == -1 <==> c !in s
    ensures i >= 0 ==> s[i] == c && c !in s[..i]
  {
    if s == [] then -1
    else if s[0] == c then 0
    else
      var j := IndexOf(s[1..], c);
      assert s[1..][..if j < 0 then 0 else j] == s[1..1 + if j < 0 then 0 else j];
      if j < 0 then -1 else j + 1
  }

  /** `s.replace(a, b)` with a one-character string pattern: only the first occurrence is replaced. */
  function ReplaceFirst(s: string, a: char, b: char): (t: string)
    ensures |t| == |s|
    ensures a !in s ==> t == s
    ensures a in s ==> t[IndexOf(s, a)] == b
    ensures forall j :: 0 <= j < |s| && j != IndexOf(s, a) ==> t[j] == s[j]
  {
    var i := IndexOf(s, a);
    if i < 0 then s else s[..i] + [b] + s[i + 1..]
  }
}
