/** The text of a billing unit: a positive rational in lowest terms, "n" or "n/d", of at most 80
    characters. The check accepts exactly the texts that printing such a rational gives. */
module UnitText {

  predicate Numeral(s: string) { s != "" && s[0] != '0' && forall i :: 0 <= i < |s| ==> '0' <= s[i] <= '9' }

  function ValueOf(s: string): nat
    requires forall i :: 0 <= i < |s| ==> '0' <= s[i] <= '9'
  {
    if s == "" then 0 else 10 * ValueOf(s[..|s| - 1]) + (s[|s| - 1] as int - '0' as int)
  }

  function Gcd(a: nat, b: nat): nat
    decreases b
  {
    if b == 0 then a else Gcd(b, a % b)
  }

  predicate LowestTerms(n: string, d: string) {
    Numeral(n) && Numeral(d) && ValueOf(d) > 1 && Gcd(ValueOf(n), ValueOf(d)) == 1
  }

  predicate SplitsAt(s: string, i: nat) { i < |s| && s[i] == '/' && LowestTerms(s[..i], s[i + 1..]) }

  predicate ValidUnit(s: string) { |s| <= 80 && (Numeral(s) || exists i :: 0 <= i < |s| && SplitsAt(s, i)) }

  // Printing.

  function Digit(k: nat): char
    requires k < 10
  {
    k as char + '0'
  }

  /** A positive number in decimal. */
  function Decimal(n: nat): string { if n == 0 then "" else Decimal(n / 10) + [Digit(n % 10)] }

  function RatText(n: nat, d: nat): string { if d == 1 then Decimal(n) else Decimal(n) + "/" + Decimal(d) }

  ghost predicate Divides(k: nat, n: nat) { k > 0 && exists m: nat :: n == k * m }

  /** No number above 1 divides both. */
  ghost predicate Coprime(n: nat, d: nat) { forall k: nat :: Divides(k, n) && Divides(k, d) ==> k == 1 }

  lemma {:induction false} DecimalIsNumeral(n: nat)
    requires n > 0
    ensures Numeral(Decimal(n)) && ValueOf(Decimal(n)) == n
    decreases n
  {
    if n >= 10 {
      DecimalIsNumeral(n / 10);
      assert Decimal(n)[..|Decimal(n)| - 1] == Decimal(n / 10);
    } else {
      assert Decimal(n) == [Digit(n)];
      assert Decimal(n)[..0] == "";
    }
  }

  lemma DecimalStep(v: nat, k: nat)
    requires k < 10 && 10 * v + k > 0
    ensures Decimal(10 * v + k) == Decimal(v) + [Digit(k)]
  {
  }

  lemma {:induction false} NumeralIsDecimal(s: string)
    requires Numeral(s)
    ensures ValueOf(s) > 0 && Decimal(ValueOf(s)) == s
    decreases |s|
  {
    var n := |s| - 1;
    var v, k := ValueOf(s[..n]), s[n] as int - '0' as int;
    if n > 0 { NumeralIsDecimal(s[..n]); }
    DecimalStep(v, k);
    assert s == s[..n] + [s[n]];
  }

  // The greatest common divisor.

  lemma DividesDifference(k: nat, a: nat, b: nat)
    requires b > 0 && Divides(k, b)
    ensures Divides(k, a) <==> Divides(k, a % b)
  {
    var m: nat :| b == k * m;
    var q := a / b;
    assert a == b * q + a % b;
    assert b * q == k * (m * q);
    if Divides(k, a) {
      var x: nat :| a == k * x;
      assert a % b == k * (x - m * q);
      MultipleOf(k, x - m * q, a % b);
    }
    if Divides(k, a % b) {
      var y: nat :| a % b == k * y;
      assert a == k * (m * q + y);
    }
  }

  lemma Below(k: nat, x: int)
    ensures k > 0 && x < 0 ==> k * x < 0
    ensures k > 1 && x > 0 ==> k * x > 1
  {
  }

  lemma MultipleOf(k: nat, x: int, n: nat)
    requires k > 0 && n == k * x
    ensures x >= 0 && Divides(k, n)
  {
    Below(k, x);
    var m: nat := x;
    assert n == k * m;
  }

  lemma {:induction false} GcdDivides(a: nat, b: nat)
    requires a > 0 || b > 0
    ensures Gcd(a, b) > 0 && Divides(Gcd(a, b), a) && Divides(Gcd(a, b), b)
    ensures forall k: nat :: Divides(k, a) && Divides(k, b) ==> Divides(k, Gcd(a, b))
    decreases b
  {
    if b == 0 {
      assert a == a * 1 && 0 == a * 0;
    } else {
      GcdDivides(b, a % b);
      DividesDifference(Gcd(a, b), a, b);
      forall k: nat | Divides(k, a) && Divides(k, b) ensures Divides(k, Gcd(a, b)) { DividesDifference(k, a, b); }
    }
  }

  lemma GcdIsOneIff(a: nat, b: nat)
    requires a > 0 || b > 0
    ensures Gcd(a, b) == 1 <==> Coprime(a, b)
  {
    GcdDivides(a, b);
    if Gcd(a, b) == 1 {
      forall k: nat | Divides(k, a) && Divides(k, b) ensures k == 1 {
        assert Divides(k, 1);
        var m: nat :| 1 == k * m;
        Below(k, m);
      }
    }
  }

  // Both directions.

  ghost predicate Prints(n: nat, d: nat, s: string) { n > 0 && d > 0 && Coprime(n, d) && RatText(n, d) == s }

  lemma WholePrints(s: string)
    requires Numeral(s)
    ensures Prints(ValueOf(s), 1, s)
  {
    NumeralIsDecimal(s);
    GcdIsOneIff(ValueOf(s), 1);
  }

  lemma FractionPrints(n: string, d: string, s: string)
    requires LowestTerms(n, d) && s == n + "/" + d
    ensures Prints(ValueOf(n), ValueOf(d), s)
  {
    NumeralIsDecimal(n);
    NumeralIsDecimal(d);
    GcdIsOneIff(ValueOf(n), ValueOf(d));
  }

  lemma SplitPrints(s: string, i: nat)
    requires SplitsAt(s, i)
    ensures Prints(ValueOf(s[..i]), ValueOf(s[i + 1..]), s)
  {
    assert s == s[..i] + "/" + s[i + 1..];
    FractionPrints(s[..i], s[i + 1..], s);
  }

  lemma PrintedTerms(n: nat, d: nat, s: string)
    requires Prints(n, d, s)
    ensures Numeral(Decimal(n)) && (d != 1 ==> LowestTerms(Decimal(n), Decimal(d)))
    ensures s == if d == 1 then Decimal(n) else Decimal(n) + "/" + Decimal(d)
  {
    DecimalIsNumeral(n);
    DecimalIsNumeral(d);
    GcdIsOneIff(n, d);
  }

  lemma FractionSplits(n: string, d: string, s: string)
    requires LowestTerms(n, d) && s == n + "/" + d
    ensures SplitsAt(s, |n|)
  {
    assert s[..|n|] == n && s[|n| + 1..] == d;
  }

  lemma PrintedIsValid(n: nat, d: nat, s: string)
    requires Prints(n, d, s) && |s| <= 80
    ensures ValidUnit(s)
  {
    PrintedTerms(n, d, s);
    if d != 1 { FractionSplits(Decimal(n), Decimal(d), s); }
  }

  /** A text is a valid unit exactly when it is how some positive rational in lowest terms is printed,
      and not too long. */
  lemma ValidUnitIff(s: string)
    ensures ValidUnit(s) <==> |s| <= 80 && exists n: nat, d: nat :: Prints(n, d, s)
  {
    if ValidUnit(s) {
      if Numeral(s) {
        WholePrints(s);
      } else {
        var i :| 0 <= i < |s| && SplitsAt(s, i);
        SplitPrints(s, i);
      }
    }
    if |s| <= 80 && exists n: nat, d: nat :: Prints(n, d, s) {
      var n: nat, d: nat :| Prints(n, d, s);
      PrintedIsValid(n, d, s);
    }
  }
}
