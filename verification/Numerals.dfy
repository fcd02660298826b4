/** Numbers written out in decimal digits, and read back by the calculator. */
module Numerals {
  import opened ParseTree
  import opened Expressions
  import opened Calculator

  const DIGITS := "0123456789"

  /** `n` in decimal notation. */
  function Numeral(n: nat): (s: Digits) {
    if n < 10 then [DIGITS[n]] else Numeral(n / 10) + [DIGITS[n % 10]]
  }

  /** The ten digits stand for the numbers 0 to 9. */
  lemma DigitStandsFor(d: nat)
    requires d < 10
    ensures IsDigit(DIGITS[d]) && DigitValue(DIGITS[d]) == d as real
  {}

  /** No other character is a digit. */
  lemma OnlyDigits(c: char)
    ensures IsDigit(c) <==> c in DIGITS
  {
    if IsDigit(c) {
      assert DIGITS[c as int - '0' as int] == c;
    }
  }

  lemma {:induction false} ShiftTen(v: real, n: nat)
    ensures Shift(v, n + 1) == 10.0 * Shift(v, n)
    decreases n
  {
    if n > 0 {
      ShiftTen(10.0 * v, n - 1);
    }
  }

  /** One more digit makes ten times the number and the digit. */
  lemma {:induction false} DecimalSnoc(s: string, c: char)
    ensures Decimal(s + [c]) == 10.0 * Decimal(s) + DigitValue(c)
    decreases |s|
  {
    if s == "" {
      assert s + [c] == [c] && [c][1..] == "";
    } else {
      assert (s + [c])[1..] == s[1..] + [c];
      DecimalSnoc(s[1..], c);
      ShiftTen(DigitValue(s[0]), |s| - 1);
    }
  }

  /** Reading a written number gives it back. */
  lemma {:induction false} NumeralRoundTrip(n: nat)
    ensures Decimal(Numeral(n)) == n as real
    decreases n
  {
    if n < 10 {
      DigitStandsFor(n);
      assert "" + [DIGITS[n]] == [DIGITS[n]];
      DecimalSnoc("", DIGITS[n]);
    } else {
      NumeralRoundTrip(n / 10);
      NextDigit(Numeral(n / 10), n / 10, n % 10);
    }
  }

  lemma NextDigit(s: string, n: nat, d: nat)
    requires Decimal(s) == n as real && d < 10
    ensures Decimal(s + [DIGITS[d]]) == (10 * n + d) as real
  {
    DecimalSnoc(s, DIGITS[d]);
    DigitStandsFor(d);
  }

  function Written(n: nat): Product {
    Only(Num(Numeral(n)))
  }

  lemma WrittenMeans(math: Math, n: nat)
    ensures CompleteProduct(Written(n)) && ShowProduct(Written(n)) == Numeral(n)
    ensures ValueProduct(math, Written(n)) == Real(n as real)
  {
    var a := Num(Numeral(n));
    assert CompleteAtom(a) && ShowAtom(a) == Numeral(n) && ValueAtom(math, a) == Real(Decimal(Numeral(n)));
    NumeralRoundTrip(n);
  }

  /** Whatever either mode answers to a number is that number. */
  lemma NumeralAnswer(math: Math, n: nat, r: Val)
    requires Means(math, Numeral(n), r)
    ensures r == Real(n as real)
  {
    WrittenMeans(math, n);
    var e := Single(Written(n));
    assert CompleteExpr(e) && ShowExpr(e) == Numeral(n) && ValueExpr(math, e) == Real(n as real);
  }

  /** And to `a-b-c` the difference taken from the left. */
  lemma DifferenceAnswer(math: Math, a: nat, b: nat, c: nat, input: string, r: Val)
    requires input == Numeral(a) + ['-'] + Numeral(b) + ['-'] + Numeral(c) && Means(math, input, r)
    ensures r == Real((a as real - b as real) - c as real)
  {
    WrittenMeans(math, a);
    WrittenMeans(math, b);
    WrittenMeans(math, c);
    var one := Single(Written(a));
    var two := Sum(one, false, Written(b));
    var three := Sum(two, false, Written(c));
    assert CompleteExpr(one) && ShowExpr(one) == Numeral(a) && ValueExpr(math, one) == Real(a as real);
    assert CompleteExpr(two) && ShowExpr(two) == Numeral(a) + ['-'] + Numeral(b);
    assert ValueExpr(math, two) == Real(a as real - b as real);
    assert CompleteExpr(three) && ShowExpr(three) == input;
  }
}
