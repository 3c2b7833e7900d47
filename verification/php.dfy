/**
 * The handful of PHP built-ins and value conversions the query builder
 * relies on, stated over Dafny strings (`seq<char>`).
 */
module Php {

  /** A PHP scalar: what a bound parameter, an array element or a `where` value can be. */
  datatype Scalar = Null | Bool(b: bool) | Int(i: int) | Str(s: string)

  /** `str_repeat(t, n)` for a count PHP accepts (a negative count throws a ValueError). */
  function StrRepeat(t: string, n: nat): (r: string)
    ensures |r| == n * |t|
  {
    if n == 0 then "" else t + StrRepeat(t, n - 1)
  }

  /** `implode(sep, parts)`: the parts in order with `sep` between neighbours. */
  function Implode(sep: string, parts: seq<string>): string
  {
    if |parts| == 0 then ""
    else if |parts| == 1 then parts[0]
    else parts[0] + sep + Implode(sep, parts[1..])
  }

  /** A character found in neither the separator nor any part is not in the imploded string. */
  lemma {:induction false} ImplodeAvoids(c: char, sep: string, parts: seq<string>)
    requires c !in sep
    requires forall i :: 0 <= i < |parts| ==> c !in parts[i]
    ensures c !in Implode(sep, parts)
  {
    if |parts| > 1 {
      ImplodeAvoids(c, sep, parts[1..]);
    }
  }

  /** Number of occurrences of the character `c` in `s`. */
  function Occurrences(c: char, s: string): nat
  {
    if |s| == 0 then 0 else (if s[0] == c then 1 else 0) + Occurrences(c, s[1..])
  }

  lemma {:induction false} OccurrencesAppend(c: char, a: string, b: string)
    ensures Occurrences(c, a + b) == Occurrences(c, a) + Occurrences(c, b)
  {
    if |a| == 0 {
      assert a + b == b;
    } else {
      assert (a + b)[1..] == a[1..] + b;
      OccurrencesAppend(c, a[1..], b);
    }
  }

  lemma {:induction false} OccurrencesAbsent(c: char, s: string)
    requires c !in s
    ensures Occurrences(c, s) == 0
  {
    if |s| > 0 {
      assert forall k :: 0 <= k < |s| - 1 ==> s[1..][k] == s[k + 1];
      OccurrencesAbsent(c, s[1..]);
    }
  }

  /** The decimal digit for `d`. */
  function DigitChar(d: nat): (ch: char)
    requires d < 10
    ensures '0' <= ch <= '9'
  {
    "0123456789"[d]
  }

  /** The decimal notation of a natural number, most significant digit first, no leading zeros. */
  function NatDigits(n: nat): (r: string)
    ensures |r| >= 1
    ensures forall k :: 0 <= k < |r| ==> '0' <= r[k] <= '9'
    decreases n
  {
    if n < 10 then [DigitChar(n)] else NatDigits(n / 10) + [DigitChar(n % 10)]
  }

  /** PHP's decimal rendering of an integer, with a leading `-` when negative. */
  function Decimal(i: int): string
  {
    if i < 0 then "-" + NatDigits(-i) else NatDigits(i)
  }

  /** The string PHP's `.` operator makes of a scalar: null and false become "", true becomes "1". */
  function ToText(v: Scalar): string
  {
    match v
    case Null => ""
    case Bool(b) => if b then "1" else ""
    case Int(i) => Decimal(i)
    case Str(s) => s
  }
}
