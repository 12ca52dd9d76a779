/** Decimal numerals: Go's strconv.Itoa, strconv.Atoi and the verb %d. */
module Decimal {
  import opened ByteText

  const INT64_MIN: int := -0x8000_0000_0000_0000
  const INT64_MAX: int := 0x7fff_ffff_ffff_ffff

  predicate IsInt64(n: int)
  {
    INT64_MIN <= n <= INT64_MAX
  }

  predicate IsDigit(c: char)
  {
    '0' <= c <= '9'
  }

  predicate AllDigits(s: Text)
  {
    forall i :: 0 <= i < |s| ==> IsDigit(s[i])
  }

  function Digit(d: nat): (c: char)
    requires d < 10
    ensures IsDigit(c)
  {
    (('0' as int) + d) as char
  }

  function DigitValue(c: char): (d: nat)
    requires IsDigit(c)
    ensures d < 10
  {
    (c as int) - ('0' as int)
  }

  function Digits(n: nat): (s: Text)
    ensures s != [] && AllDigits(s)
  {
    if n < 10 then [Digit(n)] else Digits(n / 10) + [Digit(n % 10)]
  }

  function Itoa(n: int): (s: Text)
    ensures s != []
  {
    if n < 0 then "-" + Digits(-n) else Digits(n)
  }

  /** Positional value of a digit string, leading zeros allowed. */
  function Magnitude(s: Text): (n: int)
    requires AllDigits(s)
    ensures n >= 0
  {
    if s == [] then 0 else 10 * Magnitude(s[..|s| - 1]) + DigitValue(s[|s| - 1])
  }

  /** Atoi rejects the empty numeral, stray bytes and values outside int64. */
  function Atoi(s: Text): (r: Option<int>)
    ensures r.Some? ==> IsInt64(r.value)
  {
    var negative := s != [] && s[0] == '-';
    var digits := if negative then s[1..] else s;
    if digits == [] || !AllDigits(digits) then None else
    var n := if negative then -Magnitude(digits) else Magnitude(digits);
    if IsInt64(n) then Some(n) else None
  }

  lemma {:induction false} MagnitudeOfDigits(n: nat)
    ensures Magnitude(Digits(n)) == n
  {
    if n >= 10 {
      var s := Digits(n);
      assert s[..|s| - 1] == Digits(n / 10);
      MagnitudeOfDigits(n / 10);
    }
  }

  /** Printing then parsing is the identity exactly on the int64 range. */
  lemma AtoiOfItoa(n: int)
    ensures Atoi(Itoa(n)) == if IsInt64(n) then Some(n) else None
  {
    MagnitudeOfDigits(if n < 0 then -n else n);
    var s := Itoa(n);
    if n < 0 {
      assert s[1..] == Digits(-n);
    } else {
      assert IsDigit(s[0]);
    }
  }

  /** Numerals are unique. */
  lemma DigitsInjective(m: nat, n: nat)
    requires Digits(m) == Digits(n)
    ensures m == n
  {
    MagnitudeOfDigits(m);
    MagnitudeOfDigits(n);
  }
}
