/** Charge units to micro-USD and back-office corrections, on exact rationals, rounded half up and
    kept inside int64. */
module Money {

  import opened Basics

  const MICRO := 1_000_000

  /** A rational number with a positive denominator. */
  datatype Rat = Rat(num: int, den: int)

  predicate Positive(r: Rat) { r.num > 0 && r.den > 0 }

  predicate InInt64(x: int) { MIN_INT64 <= x <= MAX_INT64 }

  /** q is n/d rounded to the nearest integer, halves upwards; written without division. */
  predicate Nearest(q: int, n: int, d: int) { 2 * n - d < 2 * (q * d) <= 2 * n + d }

  function Rounded(n: int, d: int): (r: Result<int>)
    requires d > 0
    ensures r.Ok? ==> 0 <= r.value <= MAX_INT64 && Nearest(r.value, n, d)
  {
    if n < 0 then Err
    else
      var quotient, remainder := n / d, n % d;
      assert quotient * d + remainder == n;
      var q := if 2 * remainder >= d then quotient + 1 else quotient;
      assert (quotient + 1) * d == quotient * d + d;
      if q <= MAX_INT64 then Ok(q) else Err
  }

  function UnitsToMicro(units: int, unit: Rat): Result<int> {
    if units < 0 || !Positive(unit) then Err else Rounded(units * (MICRO * unit.den), unit.num)
  }

  function SignedUnitsToMicro(units: int, unit: Rat): Result<int> {
    if units >= 0 then UnitsToMicro(units, unit)
    else if units == MIN_INT64 then Err
    else
      var r := UnitsToMicro(-units, unit);
      if r.Ok? then Ok(-r.value) else Err
  }

  lemma RatioPositive(paid: Rat, credit: Rat)
    requires Positive(paid) && Positive(credit)
    ensures paid.num * credit.den > 0 && paid.den * credit.num > 0
  {
  }

  function Corrected(cost: int, paid: Rat, credit: Rat): Result<int> {
    if cost < 0 || !Positive(paid) || !Positive(credit) then Err
    else
      RatioPositive(paid, credit);
      Rounded(cost * (paid.num * credit.den), paid.den * credit.num)
  }

  function Subtract(value: int, subtract: int): (r: Result<int>)
    ensures r.Ok? ==> r.value == value - subtract
    ensures InInt64(value) ==> (r.Ok? <==> subtract >= 0 && InInt64(value - subtract))
  {
    if subtract < 0 || value < MIN_INT64 + subtract then Err else Ok(value - subtract)
  }

  lemma Distribute(x: int, y: int, z: int)
    ensures (x + y) * z == x * z + y * z
  {
  }

  lemma Gap(p: int, q: int, d: int)
    requires p < q && d > 0
    ensures q * d >= p * d + d
  {
    Distribute(p + 1, q - p - 1, d);
    Distribute(p, 1, d);
  }

  /** Rounding has one answer, and fails exactly for a negative value or one that rounds past int64. */
  lemma NearestIsUnique(p: int, q: int, n: int, d: int)
    requires d > 0 && Nearest(p, n, d) && Nearest(q, n, d)
    ensures p == q
  {
    if p < q { Gap(p, q, d); } else if q < p { Gap(q, p, d); }
  }

  lemma RoundedIffRepresentable(n: int, d: int, q: int)
    requires d > 0 && Nearest(q, n, d)
    ensures Rounded(n, d) == Ok(q) <==> n >= 0 && q <= MAX_INT64
  {
    if n >= 0 {
      var quotient, remainder := n / d, n % d;
      assert quotient * d + remainder == n;
      var p := if 2 * remainder >= d then quotient + 1 else quotient;
      assert (quotient + 1) * d == quotient * d + d;
      NearestIsUnique(p, q, n, d);
    }
  }

  /** Signed conversion is odd wherever int64 has both signs. */
  lemma SignedIsOdd(units: int, unit: Rat)
    requires InInt64(units) && units != MIN_INT64
    ensures SignedUnitsToMicro(-units, unit).Ok? <==> SignedUnitsToMicro(units, unit).Ok?
    ensures SignedUnitsToMicro(units, unit).Ok? ==>
      SignedUnitsToMicro(-units, unit).value == -SignedUnitsToMicro(units, unit).value
  {
    if units == 0 && Positive(unit) {
      var zero := Rounded(0 * (MICRO * unit.den), unit.num);
      if zero.Ok? { NearestIsUnique(zero.value, 0, 0, unit.num); }
    }
  }

  function Abs(x: int): int { if x < 0 then -x else x }

  /** A larger number of units never costs less. */
  lemma MoreUnitsCostMore(a: int, b: int, unit: Rat)
    requires a <= b && SignedUnitsToMicro(a, unit).Ok? && SignedUnitsToMicro(b, unit).Ok?
    ensures SignedUnitsToMicro(a, unit).value <= SignedUnitsToMicro(b, unit).value
  {
    var x, y := SignedUnitsToMicro(a, unit).value, SignedUnitsToMicro(b, unit).value;
    var k, d := MICRO * unit.den, unit.num;
    if 0 <= a || b < 0 {
      assert (b - a) * k >= 0;
      assert (b - a) * k == b * k - a * k;
      if 0 <= a { RoundedIsMonotone(a * k, b * k, d, x, y); } else {
        assert -b * k == -(b * k) && -a * k == -(a * k);
        RoundedIsMonotone(-b * k, -a * k, d, -y, -x);
      }
    }
  }

  lemma RoundedIsMonotone(m: int, n: int, d: int, p: int, q: int)
    requires d > 0 && m <= n && Nearest(p, m, d) && Nearest(q, n, d)
    ensures p <= q
  {
    if q < p { Gap(q, p, d); }
  }

  // The error of a split.

  function Sum(xs: seq<int>): int { if xs == [] then 0 else Sum(xs[..|xs| - 1]) + xs[|xs| - 1] }

  /** costs[i] is the published cost of the charge units parts[i]. */
  predicate Published(parts: seq<int>, costs: seq<int>, unit: Rat) {
    |parts| == |costs| && forall i :: 0 <= i < |parts| ==> UnitsToMicro(parts[i], unit) == Ok(costs[i])
  }

  /** However an hour's units are split over n channels, the published costs add up to within n/2
      micro-USD of the exact cost of the hour. */
  lemma {:induction false} SplitErrorBound(parts: seq<int>, costs: seq<int>, unit: Rat)
    requires Published(parts, costs, unit) && Positive(unit)
    ensures 2 * Abs(Sum(costs) * unit.num - Sum(parts) * (MICRO * unit.den)) <= |parts| * unit.num
    decreases |parts|
  {
    if parts != [] {
      var n := |parts| - 1;
      SplitErrorBound(parts[..n], costs[..n], unit);
      assert Nearest(costs[n], parts[n] * (MICRO * unit.den), unit.num);
      Distribute(Sum(costs[..n]), costs[n], unit.num);
      Distribute(Sum(parts[..n]), parts[n], MICRO * unit.den);
      Distribute(n, 1, unit.num);
    }
  }

  lemma Scale(f: int, x: int, y: int, bound: int)
    requires f > 0 && -bound <= x - y <= bound
    ensures -(bound * f) <= x * f - y * f <= bound * f
  {
    Distribute(x - y, y, f);
    if x - y < bound { Gap(x - y, bound, f); }
    if -bound < x - y { Gap(-bound, x - y, f); }
  }

  /** Each corrected cost is within 1/2 + paid/(2*credit) of exact, although it corrects an already
      rounded cost. */
  lemma CorrectedErrorBound(units: int, unit: Rat, paid: Rat, credit: Rat)
    requires UnitsToMicro(units, unit).Ok? && Corrected(UnitsToMicro(units, unit).value, paid, credit).Ok?
    ensures var corrected := Corrected(UnitsToMicro(units, unit).value, paid, credit).value;
      var p, q := paid.num * credit.den, paid.den * credit.num;
      2 * Abs(corrected * q * unit.num - units * (MICRO * unit.den) * p) <= q * unit.num + unit.num * p
  {
    var cost := UnitsToMicro(units, unit).value;
    RatioPositive(paid, credit);
    Combine(Corrected(cost, paid, credit).value, cost, units * (MICRO * unit.den), unit.num,
        paid.num * credit.den, paid.den * credit.num);
  }

  lemma Combine(corrected: int, cost: int, exact: int, u: int, p: int, q: int)
    requires u > 0 && p > 0 && q > 0 && Nearest(corrected, cost * p, q) && Nearest(cost, exact, u)
    ensures 2 * Abs(corrected * q * u - exact * p) <= q * u + u * p
  {
    Twice(corrected * q, cost * p, q, u);
    Twice(cost * u, exact, u, p);
    Swap(cost, p, u);
    Chain(corrected * q * u, cost * p * u, exact * p, q * u, u * p);
  }

  lemma Swap(x: int, y: int, z: int)
    ensures x * y * z == x * z * y
  {
  }

  lemma Chain(a: int, b: int, c: int, m: int, n: int)
    requires -m <= 2 * a - 2 * b <= m && -n <= 2 * b - 2 * c <= n
    ensures 2 * Abs(a - c) <= m + n
  {
  }

  lemma Twice(x: int, y: int, bound: int, f: int)
    requires f > 0 && -bound <= 2 * x - 2 * y <= bound
    ensures -(bound * f) <= 2 * (x * f) - 2 * (y * f) <= bound * f
  {
    Scale(f, 2 * x, 2 * y, bound);
  }
}
