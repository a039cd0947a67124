/** Owner ids in the identity header: which texts name which owner. */
module OwnerIds {
  import opened Stores
  import opened MaxAge
  import opened Response

  function Digit(d: nat): char
    requires d < 10
  {
    '0' + d as char
  }

  /** How a number is written, without leading zeros. */
  function Decimal(n: nat): string {
    if n < 10 then [Digit(n)] else Decimal(n / 10) + [Digit(n % 10)]
  }

  function Zeros(k: nat): string { seq(k, _ => '0') }

  predicate AllDigits(s: string) { forall c <- s :: IsDigit(c) }

  lemma NumeralSnoc(s: string, d: nat)
    requires AllDigits(s) && d < 10
    ensures AllDigits(s + [Digit(d)]) && Numeral(s + [Digit(d)]) == Numeral(s) * 10 + d
  {
    var t := s + [Digit(d)];
    assert t[..|t| - 1] == s && t[|t| - 1] == Digit(d);
  }

  lemma {:induction false} ZerosAreZero(k: nat)
    ensures AllDigits(Zeros(k)) && Numeral(Zeros(k)) == 0
  {
    if k > 0 {
      ZerosAreZero(k - 1);
      NumeralSnoc(Zeros(k - 1), 0);
      assert Zeros(k) == Zeros(k - 1) + [Digit(0)];
    }
  }

  lemma {:induction false} DecimalReads(k: nat, n: nat)
    ensures AllDigits(Zeros(k) + Decimal(n)) && Numeral(Zeros(k) + Decimal(n)) == n
  {
    if n < 10 {
      ZerosAreZero(k);
      NumeralSnoc(Zeros(k), n);
    } else {
      DecimalReads(k, n / 10);
      NumeralSnoc(Zeros(k) + Decimal(n / 10), n % 10);
      assert Zeros(k) + Decimal(n) == Zeros(k) + Decimal(n / 10) + [Digit(n % 10)];
    }
  }

  /** A numeral of a positive number is its decimal form behind zeros. */
  lemma {:induction false} NumeralIsDecimal(s: string) returns (k: nat)
    requires AllDigits(s) && Numeral(s) > 0
    ensures s == Zeros(k) + Decimal(Numeral(s))
  {
    var front, c := s[..|s| - 1], s[|s| - 1];
    assert s == front + [c] && c in s && forall x <- front :: x in s;
    var d: nat := c as int - '0' as int;
    assert Digit(d) == c;
    NumeralSnoc(front, d);
    if Numeral(front) == 0 {
      NumeralIsZero(front);
      k := |front|;
      assert forall i :: 0 <= i < k ==> front[i] in front;
      assert front == Zeros(k);
    } else {
      k := NumeralIsDecimal(front);
      assert Numeral(s) / 10 == Numeral(front) && Numeral(s) % 10 == d;
    }
  }

  /** A Max-Age value denotes the number it writes, below zero behind a minus sign. */
  lemma AgeReads(k: nat, n: nat)
    ensures var s := Zeros(k) + Decimal(n);
            Denotes(s).Some? && Denotes(s).value == n && Denotes("-" + s).Some? && Denotes("-" + s).value + n == 0
  {
    StartsWithDigit(k, n);
    DecimalReads(k, n);
    DigitsDenote(Zeros(k) + Decimal(n));
  }

  lemma DigitsDenote(d: string)
    requires d != "" && AllDigits(d)
    ensures Denotes(d).Some? && Denotes(d).value == Numeral(d) && Denotes("-" + d).Some? && Denotes("-" + d).value + Numeral(d) == 0
  {
    assert d[0] in d && IsDigit(d[0]);
    assert ("-" + d)[1..] == d;
  }

  /** The text is the number, with any zeros and at most a plus sign in front. */
  ghost predicate Writes(s: string, n: nat) {
    exists k: nat :: s == Zeros(k) + Decimal(n) || s == "+" + (Zeros(k) + Decimal(n))
  }

  lemma StartsWithDigit(k: nat, n: nat)
    ensures var s := Zeros(k) + Decimal(n); s != "" && IsDigit(s[0])
  {
    DecimalReads(k, n);
    assert Decimal(n) != "";
    var s := Zeros(k) + Decimal(n);
    assert s[0] in s;
  }

  lemma WrittenNames(s: string, n: nat)
    requires 0 < n <= INT64_MAX && Writes(s, n)
    ensures ParseOwner(s) == Some(n)
  {
    var k: nat :| s == Zeros(k) + Decimal(n) || s == "+" + (Zeros(k) + Decimal(n));
    StartsWithDigit(k, n);
    DecimalReads(k, n);
    DigitsName(Zeros(k) + Decimal(n));
  }

  lemma DigitsName(d: string)
    requires d != "" && AllDigits(d) && 0 < Numeral(d) <= INT64_MAX
    ensures ParseOwner(d) == ParseOwner("+" + d) == Some(Numeral(d))
  {
    assert d[0] in d && IsDigit(d[0]);
    assert ("+" + d)[1..] == d;
  }

  lemma NamedIsWritten(s: string, n: nat)
    requires ParseOwner(s) == Some(n)
    ensures 0 < n <= INT64_MAX && Writes(s, n)
  {
    var digits := if s[0] == '+' then s[1..] else s;
    var k := NumeralIsDecimal(digits);
    assert s == digits || s == "+" + digits;
  }

  /** A header names an owner exactly if it writes a positive 64-bit number, and then that
      one; anything else names nobody. */
  lemma NamesOwnerIff(s: string, n: nat)
    ensures ParseOwner(s) == Some(n) <==> 0 < n <= INT64_MAX && Writes(s, n)
    ensures ParseOwner(s).Some? ==> ParseOwner(s).value > 0
  {
    if 0 < n <= INT64_MAX && Writes(s, n) { WrittenNames(s, n); }
    if ParseOwner(s) == Some(n) { NamedIsWritten(s, n); }
  }
}
