/** `java.math.BigDecimal` as far as the domain uses it: an unscaled integer and a
    non-negative scale, scale-sensitive structural equality (`equals`), comparison
    by value (`compareTo`), exact `add`/`subtract`/`multiply`, and `divide`/`setScale`
    with `RoundingMode.HALF_UP` (to the nearest, ties away from zero). */
module Decimals {

  function Pow10(n: nat): (r: nat)
    ensures r >= 1
  {
    if n == 0 then 1 else 10 * Pow10(n - 1)
  }

  lemma {:induction false} Pow10Add(a: nat, b: nat)
    ensures Pow10(a + b) == Pow10(a) * Pow10(b)
    decreases a
  {
    if a > 0 {
      Pow10Add(a - 1, b);
      assert Pow10(a + b) == 10 * Pow10(a - 1 + b);
    }
  }

  /** The number `unscaled × 10^-scale`; `Decimal(5, 1)` is 0.5, and it differs from
      `Decimal(50, 2)` under `equals` although both compare equal. */
  datatype Decimal = Decimal(unscaled: int, scale: nat)

  /** `BigDecimal.ZERO`, scale 0. */
  const Zero: Decimal := Decimal(0, 0)

  /** `BigDecimal.valueOf(long)` and `new BigDecimal("<integer>")`: scale 0. */
  function OfInt(n: int): (r: Decimal)
    ensures r.scale == 0 && r.unscaled == n
  {
    Decimal(n, 0)
  }

  function Max(a: nat, b: nat): nat {
    if a >= b then a else b
  }

  function Sign(x: int): int {
    if x < 0 then -1 else if x == 0 then 0 else 1
  }

  lemma MulMono(x: int, y: int, p: int)
    requires x <= y && p >= 0
    ensures x * p <= y * p
  {
  }

  lemma MulAssoc(x: int, y: int, z: int)
    ensures x * (y * z) == (x * y) * z
  {
  }

  lemma MulDist(a: int, b: int, e: int)
    ensures (a - b) * e == a * e - b * e
  {
  }

  lemma DivBounds(x: int, y: int)
    requires y > 0
    ensures y * (x / y) <= x < y * (x / y) + y
  {
  }

  /** The value of `a` counted in units of 10^-s (exact, since s is at least a's scale). */
  function Units(a: Decimal, s: nat): int
    requires s >= a.scale
  {
    a.unscaled * Pow10(s - a.scale)
  }

  /** The value of `a` minus the value of `b`, both multiplied by 10^(a.scale + b.scale):
      its sign is the order of the two values. */
  function CrossDiff(a: Decimal, b: Decimal): int {
    a.unscaled * Pow10(b.scale) - b.unscaled * Pow10(a.scale)
  }

  lemma SignScale(x: int, p: int)
    requires p > 0
    ensures Sign(x * p) == Sign(x)
  {
    if x > 0 {
      MulMono(1, x, p);
    } else if x < 0 {
      MulMono(x, -1, p);
    }
  }

  /** Comparing at the larger of the two scales is comparing the values. */
  lemma AlignedSign(a: Decimal, b: Decimal)
    ensures var m := Max(a.scale, b.scale);
      Sign(Units(a, m) - Units(b, m)) == Sign(CrossDiff(a, b))
  {
    var m := Max(a.scale, b.scale);
    var k: nat := a.scale + b.scale - m;
    Pow10Add(m - a.scale, k);
    Pow10Add(m - b.scale, k);
    assert m - a.scale + k == b.scale && m - b.scale + k == a.scale;
    var ua, ub, pk := Pow10(m - a.scale), Pow10(m - b.scale), Pow10(k);
    MulAssoc(a.unscaled, ua, pk);
    MulAssoc(b.unscaled, ub, pk);
    MulDist(Units(a, m), Units(b, m), pk);
    SignScale(Units(a, m) - Units(b, m), Pow10(k));
  }

  /** `BigDecimal.compareTo`: -1, 0 or 1 as the value of `a` is below, equal to or
      above the value of `b`, whatever their scales. */
  function CompareTo(a: Decimal, b: Decimal): (r: int)
    ensures -1 <= r <= 1
    ensures r == Sign(CrossDiff(a, b))
  {
    var m := Max(a.scale, b.scale);
    AlignedSign(a, b);
    Sign(Units(a, m) - Units(b, m))
  }

  /** `a.compareTo(new BigDecimal(n)) >= 0`: the value of `a` is at least the integer `n`. */
  function AtLeast(a: Decimal, n: int): (r: bool)
    ensures r <==> a.unscaled >= n * Pow10(a.scale)
  {
    assert Pow10(0) == 1;
    CompareTo(a, OfInt(n)) >= 0
  }

  /** `a.compareTo(new BigDecimal(n)) <= 0`: the value of `a` is at most the integer `n`. */
  function AtMost(a: Decimal, n: int): (r: bool)
    ensures r <==> a.unscaled <= n * Pow10(a.scale)
  {
    assert Pow10(0) == 1;
    CompareTo(a, OfInt(n)) <= 0
  }

  /** A value at least `n` stays at least `n` when it grows. */
  lemma AtLeastMonotone(a: Decimal, b: Decimal, n: int)
    requires CompareTo(a, b) <= 0 && AtLeast(a, n)
    ensures AtLeast(b, n)
  {
    var pa, pb := Pow10(a.scale), Pow10(b.scale);
    assert CrossDiff(a, b) <= 0;
    CrossMonotone(a.unscaled, b.unscaled, n, pa, pb);
  }

  /** The integer core of `AtLeastMonotone`: from x/pa <= y/pb and x/pa >= n follows
      y/pb >= n. */
  lemma CrossMonotone(x: int, y: int, n: int, pa: int, pb: int)
    requires pa > 0 && pb > 0 && x * pb <= y * pa && x >= n * pa
    ensures y >= n * pb
  {
    MulMono(n * pa, x, pb);
    ProductSwap(n, pa, pb);
    if y < n * pb {
      MulMono(y + 1, n * pb, pa);
      MulAddOne(y, pa);
      ProductSwap(n, pb, pa);
      assert false;
    }
  }

  lemma MulAddOne(y: int, p: int)
    ensures (y + 1) * p == y * p + p
  {
  }

  lemma Distrib(x: int, y: int, p: int)
    ensures (x + y) * p == x * p + y * p
  {
  }

  lemma CompareAntisymmetric(a: Decimal, b: Decimal)
    ensures CompareTo(a, b) == -CompareTo(b, a)
  {
  }

  lemma CompareReflexive(a: Decimal)
    ensures CompareTo(a, a) == 0
  {
  }

  lemma ProductSwap(u: int, x: int, y: int)
    ensures (u * x) * y == u * (y * x)
  {
  }

  /** Appending zeros to the unscaled value (raising the scale) keeps the value. */
  lemma CompareRescaled(a: Decimal, k: nat)
    ensures CompareTo(Decimal(a.unscaled * Pow10(k), a.scale + k), a) == 0
  {
    var b := Decimal(a.unscaled * Pow10(k), a.scale + k);
    Pow10Add(a.scale, k);
    ProductSwap(a.unscaled, Pow10(k), Pow10(a.scale));
    assert CrossDiff(b, a) == 0;
  }

  /** Structural equality (`BigDecimal.equals`) implies equal values; the converse
      fails across scales. */
  lemma EqualsImpliesCompareZero(a: Decimal, b: Decimal)
    requires a == b
    ensures CompareTo(a, b) == 0
  {
  }

  lemma EqualsIsScaleSensitive()
    ensures CompareTo(Decimal(0, 2), Zero) == 0 && Decimal(0, 2) != Zero
  {
  }

  /** `BigDecimal.add`: the sum at the larger scale. Its value is the sum of the
      values, stated over the common denominator 10^a.scale · 10^b.scale. */
  function Add(a: Decimal, b: Decimal): (r: Decimal)
    ensures r.scale == Max(a.scale, b.scale)
    ensures r.unscaled * Pow10(a.scale) * Pow10(b.scale)
         == (a.unscaled * Pow10(b.scale) + b.unscaled * Pow10(a.scale)) * Pow10(r.scale)
  {
    var m := Max(a.scale, b.scale);
    Pow10Add(m - a.scale, a.scale);
    Pow10Add(m - b.scale, b.scale);
    ScaledSum(a.unscaled, b.unscaled, Pow10(a.scale), Pow10(b.scale),
              Pow10(m - a.scale), Pow10(m - b.scale), Pow10(m));
    Decimal(Units(a, m) + Units(b, m), m)
  }

  /** Two fractions brought to a common denominator `pm` add as they do over `pa · pb`. */
  lemma ScaledSum(u: int, v: int, pa: int, pb: int, qa: int, qb: int, pm: int)
    requires qa * pa == pm && qb * pb == pm
    ensures (u * qa + v * qb) * pa * pb == (u * pb + v * pa) * pm
  {
    calc {
      (u * qa + v * qb) * pa * pb;
      u * (qa * pa) * pb + v * (qb * pb) * pa;
      u * pm * pb + v * pm * pa;
      (u * pb + v * pa) * pm;
    }
  }

  /** Adding two integers at scale 0 is integer addition. */
  lemma AddIntegers(x: int, y: int)
    ensures Add(OfInt(x), OfInt(y)) == OfInt(x + y)
  {
    assert Pow10(0) == 1;
  }

  function Negate(a: Decimal): (r: Decimal)
    ensures r.scale == a.scale && r.unscaled == -a.unscaled
  {
    Decimal(-a.unscaled, a.scale)
  }

  /** `BigDecimal.subtract`: the difference at the larger scale. */
  function Subtract(a: Decimal, b: Decimal): (r: Decimal)
    ensures r.scale == Max(a.scale, b.scale)
    ensures r.unscaled * Pow10(a.scale) * Pow10(b.scale)
         == (a.unscaled * Pow10(b.scale) - b.unscaled * Pow10(a.scale)) * Pow10(r.scale)
  {
    NegateTimes(b.unscaled, Pow10(a.scale));
    Add(a, Negate(b))
  }

  lemma NegateTimes(x: int, p: int)
    ensures (-x) * p == -(x * p)
  {
  }

  /** `BigDecimal.multiply`: exact, the scales add. */
  function Multiply(a: Decimal, b: Decimal): (r: Decimal)
    ensures r.scale == a.scale + b.scale
    ensures r.unscaled * (Pow10(a.scale) * Pow10(b.scale)) == (a.unscaled * b.unscaled) * Pow10(r.scale)
  {
    Pow10Add(a.scale, b.scale);
    Decimal(a.unscaled * b.unscaled, a.scale + b.scale)
  }

  /** `BigDecimal.abs`: same scale, non-negative, the value or its negation. */
  function Abs(a: Decimal): (r: Decimal)
    ensures r.scale == a.scale && r.unscaled >= 0
    ensures r.unscaled == a.unscaled || r.unscaled == -a.unscaled
  {
    if a.unscaled < 0 then Negate(a) else a
  }

  lemma AddCommutes(a: Decimal, b: Decimal)
    ensures Add(a, b) == Add(b, a)
  {
  }

  lemma {:induction false} UnitsRescale(a: Decimal, s: nat, t: nat)
    requires a.scale <= s <= t
    ensures Units(a, t) == Units(a, s) * Pow10(t - s)
  {
    Pow10Add(s - a.scale, t - s);
    assert t - a.scale == (s - a.scale) + (t - s);
  }

  lemma AddAssociates(a: Decimal, b: Decimal, c: Decimal)
    ensures Add(Add(a, b), c) == Add(a, Add(b, c))
  {
    var ab, bc := Add(a, b), Add(b, c);
    var m := Max(Max(a.scale, b.scale), c.scale);
    assert m == Max(a.scale, Max(b.scale, c.scale));
    AddUnits(a, b, m);
    AddUnits(b, c, m);
    assert Add(ab, c).unscaled == Units(ab, m) + Units(c, m);
    assert Add(a, bc).unscaled == Units(a, m) + Units(bc, m);
  }

  /** A sum counted in units of a scale at least its own is the sum of the counts. */
  lemma AddUnits(a: Decimal, b: Decimal, m: nat)
    requires m >= Max(a.scale, b.scale)
    ensures Units(Add(a, b), m) == Units(a, m) + Units(b, m)
  {
    var s := Max(a.scale, b.scale);
    UnitsRescale(a, s, m);
    UnitsRescale(b, s, m);
    Distrib(Units(a, s), Units(b, s), Pow10(m - s));
  }

  /** Adding zero changes nothing, not even the scale. */
  lemma AddZero(a: Decimal)
    ensures Add(Zero, a) == a
  {
  }

  /** The sum compares to `a` as `b` compares to zero. */
  lemma AddCompare(a: Decimal, b: Decimal)
    ensures CompareTo(Add(a, b), a) == CompareTo(b, Zero)
  {
    var r := Add(a, b);
    var m := r.scale;
    AlignedSign(r, a);
    assert Max(r.scale, a.scale) == m;
    assert Sign(Units(r, m) - Units(a, m)) == Sign(Units(b, m));
    SignScale(b.unscaled, Pow10(m - b.scale));
  }

  /** The difference is negative, zero or positive as `a` is below, equal to or above `b`. */
  lemma SubtractSign(a: Decimal, b: Decimal)
    ensures Sign(Subtract(a, b).unscaled) == CompareTo(a, b)
  {
    var m := Max(a.scale, b.scale);
    AlignedSign(a, b);
  }

  lemma MultiplyCommutes(a: Decimal, b: Decimal)
    ensures Multiply(a, b) == Multiply(b, a)
  {
  }

  /** The product's sign is the product of the signs. */
  lemma MultiplySign(a: Decimal, b: Decimal)
    ensures Sign(Multiply(a, b).unscaled) == Sign(a.unscaled) * Sign(b.unscaled)
  {
    var x, y := a.unscaled, b.unscaled;
    if x > 0 && y > 0 { assert x * y >= y; }
    else if x < 0 && y < 0 { assert (-x) * (-y) >= -y; }
    else if x > 0 && y < 0 { assert x * (-y) >= -y; }
    else if x < 0 && y > 0 { assert (-x) * y >= y; }
  }

  /** `r` is `n / d` rounded HALF_UP: the remainder is at most half the divisor, and a
      tie goes away from zero. (Stated for the divisor made positive.) */
  ghost predicate RoundsHalfUp(n: int, d: int, r: int)
    requires d != 0
  {
    var m := if d > 0 then n else -n;
    var e := if d > 0 then d else -d;
    if m >= 0 then -e <= 2 * (m - r * e) < e
    else -e < 2 * (m - r * e) <= e
  }

  /** Integer division rounded HALF_UP, the rounding of `divide(_, scale, HALF_UP)`
      and `setScale(scale, HALF_UP)`. */
  function RoundHalfUpDiv(n: int, d: int): (r: int)
    requires d != 0
    ensures RoundsHalfUp(n, d, r)
    ensures (n >= 0) == (d > 0) || n == 0 ==> r >= 0
    ensures (n > 0) == (d < 0) && n != 0 ==> r <= 0
    decreases if d < 0 then 1 else 0
  {
    if d < 0 then RoundHalfUpDiv(-n, -d)
    else if n >= 0 then
      HalfUpQuotient(n, d);
      (2 * n + d) / (2 * d)
    else
      HalfUpQuotient(-n, d);
      NegateProduct((2 * -n + d) / (2 * d), d);
      -((2 * -n + d) / (2 * d))
  }

  /** The quotient `(2n + d) / 2d` of a non-negative `n` is `n / d` rounded to the
      nearest, ties up. */
  lemma HalfUpQuotient(n: int, d: int)
    requires n >= 0 && d > 0
    ensures var q := (2 * n + d) / (2 * d); q >= 0 && -d <= 2 * (n - q * d) < d
  {
    var q := (2 * n + d) / (2 * d);
    DivBounds(2 * n + d, 2 * d);
    DoubleProduct(d, q);
  }

  lemma DoubleProduct(d: int, q: int)
    ensures (2 * d) * q == 2 * (q * d)
  {
  }

  lemma NegateProduct(q: int, d: int)
    ensures (-q) * d == -(q * d)
  {
  }

  /** HALF_UP rounding is a function: at most one integer meets `RoundsHalfUp`. */
  lemma RoundingUnique(n: int, d: int, r1: int, r2: int)
    requires d != 0 && RoundsHalfUp(n, d, r1) && RoundsHalfUp(n, d, r2)
    ensures r1 == r2
  {
    var e := if d > 0 then d else -d;
    if r1 < r2 {
      MulMono(1, r2 - r1, e);
      MulDist(r2, r1, e);
    } else if r2 < r1 {
      MulMono(1, r1 - r2, e);
      MulDist(r1, r2, e);
    }
  }

  /** An exact quotient is not rounded. */
  lemma RoundExact(k: int, d: int)
    requires d != 0
    ensures RoundHalfUpDiv(k * d, d) == k
  {
    assert k * -d == -(k * d);
    assert RoundsHalfUp(k * d, d, k);
    RoundingUnique(k * d, d, k, RoundHalfUpDiv(k * d, d));
  }

  /** Multiplying a rounding bound by a positive factor. */
  lemma ScaledBound(m: int, e: int, re: int, c: int)
    requires c > 0 && e > 0
    requires m >= 0 ==> -e <= 2 * (m - re) < e
    requires m < 0 ==> -e < 2 * (m - re) <= e
    ensures c * m >= 0 ==> -(c * e) <= 2 * (c * m - c * re) < c * e
    ensures c * m < 0 ==> -(c * e) < 2 * (c * m - c * re) <= c * e
  {
    var x := 2 * (m - re);
    ScaleDifference(c, m, re);
    NegateProduct(e, c);
    MulAddOne(x, c);
    MulAddOne(-e, c);
    if m >= 0 {
      MulMono(0, m, c);
      MulMono(-e, x, c);
      MulMono(x + 1, e, c);
    } else {
      MulMono(m, -1, c);
      MulMono(-e + 1, x, c);
      MulMono(x, e, c);
    }
    assert c * e == e * c && c * m == m * c && c * x == x * c;
  }

  lemma ScaleDifference(c: int, m: int, re: int)
    ensures 2 * (c * m - c * re) == (2 * (m - re)) * c
  {
  }

  /** Scaling numerator and divisor by the same positive factor does not change the rounding. */
  lemma RoundScaled(n: int, d: int, c: int)
    requires d != 0 && c > 0
    ensures RoundHalfUpDiv(c * n, c * d) == RoundHalfUpDiv(n, d)
  {
    var r := RoundHalfUpDiv(n, d);
    var m := if d > 0 then n else -n;
    var e := if d > 0 then d else -d;
    assert RoundsHalfUp(n, d, r);
    ScaledBound(m, e, r * e, c);
    ScaledSigns(n, d, c);
    MulAssoc(r, c, e);
    ProductSwap(r, e, c);
    assert r * (c * e) == c * (r * e);
    assert RoundsHalfUp(c * n, c * d, r);
    RoundingUnique(c * n, c * d, r, RoundHalfUpDiv(c * n, c * d));
  }

  /** A positive factor keeps the divisor's sign, and with it the normalisation
      `RoundsHalfUp` applies. */
  lemma ScaledSigns(n: int, d: int, c: int)
    requires d != 0 && c > 0
    ensures (c * d > 0) == (d > 0)
    ensures (if c * d > 0 then c * n else -(c * n)) == c * (if d > 0 then n else -n)
    ensures (if c * d > 0 then c * d else -(c * d)) == c * (if d > 0 then d else -d)
  {
    if d > 0 { MulMono(1, d, c); } else { MulMono(d, -1, c); }
  }

  /** A quotient at most `k` rounds to at most `k`. */
  lemma RoundAtMost(n: int, d: int, k: int)
    requires d > 0 && n <= k * d
    ensures RoundHalfUpDiv(n, d) <= k
  {
    var r := RoundHalfUpDiv(n, d);
    assert -d <= 2 * (n - r * d);
    if r > k {
      MulMono(k + 1, r, d);
      assert false;
    }
  }

  /** `a.divide(b, scale, HALF_UP)`: a / b rounded HALF_UP to `scale` decimal places. */
  function DivideToScale(a: Decimal, b: Decimal, scale: nat): (r: Decimal)
    requires b.unscaled != 0
    ensures r.scale == scale
    ensures RoundsHalfUp(a.unscaled * Pow10(b.scale + scale), b.unscaled * Pow10(a.scale), r.unscaled)
  {
    Decimal(RoundHalfUpDiv(a.unscaled * Pow10(b.scale + scale), b.unscaled * Pow10(a.scale)), scale)
  }

  /** `a.setScale(scale, HALF_UP)`: a rounded HALF_UP to `scale` decimal places. */
  function SetScale(a: Decimal, scale: nat): (r: Decimal)
    ensures r.scale == scale
    ensures RoundsHalfUp(a.unscaled * Pow10(scale), Pow10(a.scale), r.unscaled)
  {
    Decimal(RoundHalfUpDiv(a.unscaled * Pow10(scale), Pow10(a.scale)), scale)
  }

  /** Raising the scale is exact: it appends zeros and keeps the value. */
  lemma SetScaleUp(a: Decimal, scale: nat)
    requires scale >= a.scale
    ensures SetScale(a, scale).unscaled == Units(a, scale)
  {
    Pow10Add(scale - a.scale, a.scale);
    assert a.unscaled * Pow10(scale) == Units(a, scale) * Pow10(a.scale);
    RoundExact(Units(a, scale), Pow10(a.scale));
  }

  /** Setting a value to the scale it already has is the identity. */
  lemma SetScaleSame(a: Decimal)
    ensures SetScale(a, a.scale) == a
  {
    SetScaleUp(a, a.scale);
  }

  /** `setScale` agrees with dividing by one. */
  lemma SetScaleIsDivideByOne(a: Decimal, scale: nat)
    ensures SetScale(a, scale) == DivideToScale(a, OfInt(1), scale)
  {
  }
}
