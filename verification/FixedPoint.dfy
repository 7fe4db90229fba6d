/** Integer fixed-point arithmetic: products are floored by one division. */
module FixedPoint {
  import opened Totals

  lemma PositiveFactor(d: int, x: int)
    requires d > 0 && d * x > 0
    ensures x > 0
  {
  }

  /** A common positive factor cancels from a strict comparison. */
  lemma CancelLess(d: int, a: int, b: int)
    requires d > 0 && d * a < d * b
    ensures a < b
  {
    assert d * (b - a) == d * b - d * a;
    PositiveFactor(d, b - a);
  }

  lemma Multiple(d: int, x: int)
    requires d > 0
    ensures d * x % d == 0
  {
    var q, r := d * x / d, d * x % d;
    assert d * (x - q) == r;
    if x - q >= 1 { Scaled(d, 1, x - q); }
    if x - q <= -1 { Scaled(d, x - q, -1); }
  }

  lemma Scaled(k: int, a: int, b: int)
    requires k >= 0 && a <= b
    ensures k * a <= k * b
  {
  }

  lemma AtLeastOne(m: int, x: int)
    requires m >= 1 && x >= 0
    ensures m * x >= x
  {
    Scaled(x, 1, m);
  }

  lemma PositiveProduct(a: int, b: int)
    requires a >= 0 && b > 0
    ensures a * b == 0 ==> a == 0
  {
    if a >= 1 { AtLeastOne(a, b); }
  }

  lemma SameProduct(d: int, a: int, b: int)
    requires d > 0 && d * a == d * b
    ensures a == b
  {
    if a < b { Scaled(d, a + 1, b); } else if b < a { Scaled(d, b + 1, a); }
  }

  lemma DivisionMonotone(a: int, b: int, d: int)
    requires d > 0 && a <= b
    ensures a / d <= b / d
  {
    if b / d + 1 <= a / d { Scaled(d, b / d + 1, a / d); }
  }

  // ---- the operators of the rank and of the valuation core ----------------

  const S: int := 1_000_000_000_000_000_000

  /** Division rounding toward minus infinity. */
  function FloorDiv(a: int, b: int): int
    requires b != 0
  {
    if b > 0 then a / b else (-a) / (-b)
  }

  function FpMul(a: int, b: int): int { a * b / S }

  function FpDiv(a: int, b: int): int
    requires b != 0
  {
    FloorDiv(a * S, b)
  }

  lemma FpMulBounds(a: int, b: int)
    ensures S * FpMul(a, b) <= a * b < S * FpMul(a, b) + S
  {
  }

  lemma FpMulZero(a: int, b: int)
    requires a == 0 || b == 0
    ensures FpMul(a, b) == 0
  {
    assert a * b == 0;
  }

  lemma FpMulNonNegative(a: int, b: int)
    requires a >= 0 && b >= 0
    ensures FpMul(a, b) >= 0
  {
    Scaled(a, 0, b);
  }

  /** Multiplying by at most one shrinks. */
  lemma FpMulShrinks(a: int, b: int)
    requires a >= 0 && 0 <= b <= S
    ensures 0 <= FpMul(a, b) <= a
  {
    FpMulNonNegative(a, b);
    Scaled(a, b, S);
    FpMulBounds(a, b);
    CancelLess(S, FpMul(a, b), a + 1);
  }

  /** An amount divided in proportion, every part floored. */
  function Portions(parts: seq<int>, whole: int, amount: int): seq<int>
    requires whole > 0
  {
    seq(|parts|, i requires 0 <= i < |parts| => parts[i] * amount / whole)
  }

  /** Floored portions never add up to more than the amount. */
  lemma PortionsAtMost(parts: seq<int>, whole: int, amount: int)
    requires whole > 0 && amount >= 0 && Sum(parts) <= whole
    ensures Sum(Portions(parts, whole, amount)) <= amount
  {
    var portions := Portions(parts, whole, amount);
    forall i | 0 <= i < |parts| ensures whole * portions[i] <= amount * parts[i] + 0 * parts[i] {
      FloorTimes(parts[i] * amount, whole);
    }
    SumDominated(portions, parts, parts, whole, amount, 0);
    Scaled(amount, Sum(parts), whole);
    AtMostArithmetic(whole, amount, Sum(portions));
  }

  lemma AtMostArithmetic(whole: int, amount: int, sum: int)
    requires whole > 0 && whole * sum <= amount * whole
    ensures sum <= amount
  {
    assert whole * (amount + 1) == amount * whole + whole;
    CancelLess(whole, sum, amount + 1);
  }

  /** When the parts are the whole, truncation loses less than one unit a part. */
  lemma PortionsAlmost(parts: seq<int>, whole: int, amount: int)
    requires whole > 0 && Sum(parts) == whole
    ensures amount - |parts| < Sum(Portions(parts, whole, amount))
  {
    var portions := Portions(parts, whole, amount);
    var ones := seq(|parts|, _ => 1);
    SumConstant(ones, 1);
    forall i | 0 <= i < |parts| ensures amount * parts[i] <= whole * portions[i] + (whole - 1) * ones[i] {
      FloorTimes(parts[i] * amount, whole);
    }
    SumDominated(parts, portions, ones, amount, whole, whole - 1);
    AlmostArithmetic(|parts|, whole, amount, Sum(portions));
  }

  lemma AlmostArithmetic(n: nat, whole: int, amount: int, sum: int)
    requires whole > 0 && amount * whole <= whole * sum + (whole - 1) * n && n > 0
    ensures amount - n < sum
  {
    assert (whole - 1) * n == n * whole - n;
    assert whole * (amount - n) == amount * whole - n * whole;
    CancelLess(whole, amount - n, sum);
  }

  function Ratios(parts: seq<int>, whole: int): seq<int>
    requires whole > 0
  {
    Portions(parts, whole, S)
  }

  /** Floored fractions of one whole add up to at most one. */
  lemma RatiosAtMostOne(parts: seq<int>, whole: int)
    requires whole > 0 && Sum(parts) <= whole
    ensures Sum(Ratios(parts, whole)) <= S
  {
    PortionsAtMost(parts, whole, S);
  }

  lemma FloorTimes(a: int, d: int)
    requires d > 0
    ensures d * (a / d) <= a < d * (a / d) + d
  {
  }

  function Products(amount: int, ratios: seq<int>): seq<int> {
    seq(|ratios|, i requires 0 <= i < |ratios| => FpMul(amount, ratios[i]))
  }

  /** Floored parts of an amount never exceed it, whatever is lost to truncation. */
  lemma SplitAtMost(amount: int, ratios: seq<int>)
    requires amount >= 0 && Sum(ratios) <= S
    ensures Sum(Products(amount, ratios)) <= amount
  {
    var parts := Products(amount, ratios);
    var scaled := seq(|ratios|, i requires 0 <= i < |ratios| => S * parts[i]);
    var exact := seq(|ratios|, i requires 0 <= i < |ratios| => amount * ratios[i]);
    SumScale(parts, S, scaled);
    SumScale(ratios, amount, exact);
    forall i | 0 <= i < |ratios| ensures scaled[i] <= exact[i] { FpMulBounds(amount, ratios[i]); }
    SumMonotone(scaled, exact);
    Scaled(amount, Sum(ratios), S);
    assert S * Sum(parts) <= S * amount;
  }

  lemma RatiosAlmostOne(parts: seq<int>, whole: int)
    requires whole > 0 && Sum(parts) == whole
    ensures S - |parts| < Sum(Ratios(parts, whole)) <= S
  {
    PortionsAtMost(parts, whole, S);
    PortionsAlmost(parts, whole, S);
  }
}
