/** Small shared vocabulary: an optional value, integer/real helpers and
    decimal rendering of integers as JavaScript's String(n) produces it. */
module Common {

  datatype Option<+T> = None | Some(value: T)

  /** JavaScript's Math.round: nearest integer, halves rounded towards +infinity. */
  function JsRound(x: real): (r: int)
    ensures x - 0.5 < r as real <= x + 0.5
  {
    (x + 0.5).Floor
  }

  /** Math.max(lo, Math.min(hi, v)) */
  function ClampInt(v: int, lo: int, hi: int): (r: int)
    requires lo <= hi
    ensures lo <= r <= hi
    ensures lo <= v <= hi ==> r == v
  {
    if v < lo then lo else if v > hi then hi else v
  }

  function MaxReal(a: real, b: real): real { if a >= b then a else b }

  function AbsReal(x: real): real { if x < 0.0 then -x else x }

  predicate IsDigit(c: char) { '0' <= c <= '9' }

  function DigitChar(d: int): char
    requires 0 <= d < 10
  {
    "0123456789"[d]
  }

  /** Decimal digits of a natural number, most significant first, no leading zeros. */
  function NatToString(n: nat): (s: string)
    ensures |s| >= 1
    ensures forall i :: 0 <= i < |s| ==> IsDigit(s[i])
    decreases n
  {
    if n < 10 then [DigitChar(n)] else NatToString(n / 10) + [DigitChar(n % 10)]
  }

  /** String(n) for an integer n. */
  function IntToString(n: int): string
  {
    if n < 0 then "-" + NatToString(-n) else NatToString(n)
  }

  /** Value of a string of decimal digits (the inverse of NatToString). */
  function DigitsValue(s: string): int
    decreases |s|
  {
    if s == [] then 0 else DigitsValue(s[..|s| - 1]) * 10 + (s[|s| - 1] as int - '0' as int)
  }

  /** Inverse of IntToString. */
  function ParseInt(s: string): int
  {
    if |s| > 0 && s[0] == '-' then -DigitsValue(s[1..]) else DigitsValue(s)
  }

  lemma {:induction false} NatToStringRoundTrip(n: nat)
    ensures DigitsValue(NatToString(n)) == n
    decreases n
  {
    var s := NatToString(n);
    if n < 10 {
      assert s == [DigitChar(n)];
      assert s[..|s| - 1] == [];
    } else {
      NatToStringRoundTrip(n / 10);
      assert s[..|s| - 1] == NatToString(n / 10);
    }
  }

  lemma IntToStringRoundTrip(n: int)
    ensures ParseInt(IntToString(n)) == n
  {
    if n < 0 {
      var digits := NatToString(-n);
      NatToStringRoundTrip(-n);
      var t := "-" + digits;
      assert t == IntToString(n);
      assert t[0] == '-' && t[1..] == digits;
      assert ParseInt(t) == -DigitsValue(digits);
    } else {
      var digits := NatToString(n);
      NatToStringRoundTrip(n);
      assert IsDigit(digits[0]);
      assert ParseInt(digits) == DigitsValue(digits);
    }
  }

  /** A buffer of bytes, as a Uint8ClampedArray holds them. */
  predicate IsBytes(d: seq<int>)
  {
    forall i :: 0 <= i < |d| ==> 0 <= d[i] <= 255
  }

  /** Elements pairwise distinct. */
  predicate NoDup<T(==)>(s: seq<T>)
  {
    forall i, j :: 0 <= i < j < |s| ==> s[i] != s[j]
  }
}
