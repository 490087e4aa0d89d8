/** `Money`: a won amount held as a BigDecimal always set to scale 2 with HALF_UP
    rounding, so every value is an integer number of cents (hundredths). */
module Monies {
  import opened Wrappers
  import opened Errors
  import opened Decimals

  datatype Money = Money(cents: int) {

    /** `amount()`: the scale-2 BigDecimal. */
    function Amount(): Decimal {
      Decimal(cents, 2)
    }

    /** Every comparison of `Money` is `BigDecimal.compareTo` on the amounts;
        at a common scale of 2 it is the order of the cents. */
    function CompareTo(other: Money): (r: int)
      ensures r == Sign(cents - other.cents)
    {
      assert CrossDiff(Amount(), other.Amount()) == (cents - other.cents) * 100 by {
        assert Pow10(2) == 100;
      }
      SignScale(cents - other.cents, 100);
      Decimals.CompareTo(Amount(), other.Amount())
    }

    function IsGreaterThan(other: Money): (r: bool)
      ensures r <==> cents > other.cents
    {
      CompareTo(other) > 0
    }

    function IsLessThan(other: Money): (r: bool)
      ensures r <==> cents < other.cents
    {
      CompareTo(other) < 0
    }

    function IsGreaterThanOrEqual(other: Money): (r: bool)
      ensures r <==> cents >= other.cents
    {
      CompareTo(other) >= 0
    }

    function IsLessThanOrEqual(other: Money): (r: bool)
      ensures r <==> cents <= other.cents
    {
      CompareTo(other) <= 0
    }

    /** `amount.compareTo(BigDecimal.ZERO)`, behind every sign predicate: the sign of the cents. */
    function CompareToZero(): (r: int)
      ensures r == Sign(cents)
    {
      assert Pow10(0) == 1;
      assert CrossDiff(Amount(), Decimals.Zero) == cents;
      Decimals.CompareTo(Amount(), Decimals.Zero)
    }

    function IsZero(): (r: bool)
      ensures r <==> cents == 0
    {
      CompareToZero() == 0
    }

    function IsPositive(): (r: bool)
      ensures r <==> cents > 0
    {
      CompareToZero() > 0
    }

    function IsNegative(): (r: bool)
      ensures r <==> cents < 0
    {
      CompareToZero() < 0
    }

    function IsNegativeOrZero(): (r: bool)
      ensures r <==> cents <= 0
    {
      CompareToZero() <= 0
    }

    /** `equals`: `BigDecimal.equals` on the amounts, which compares unscaled value
        and scale. */
    function Equals(other: Money): (r: bool)
      ensures r <==> cents == other.cents
    {
      Amount() == other.Amount()
    }

    /** `add`: exact, since both amounts have scale 2. */
    function Add(other: Money): (r: Money)
      ensures r.cents == cents + other.cents
    {
      SetScaleSame(Decimals.Add(Amount(), other.Amount()));
      Normalize(Decimals.Add(Amount(), other.Amount()))
    }

    /** `subtract`: exact, since both amounts have scale 2. */
    function Subtract(other: Money): (r: Money)
      ensures r.cents == cents - other.cents
    {
      SetScaleSame(Decimals.Subtract(Amount(), other.Amount()));
      Normalize(Decimals.Subtract(Amount(), other.Amount()))
    }

    /** `multiply`: the exact product, rounded HALF_UP to the cent. */
    function Multiply(multiplier: Decimal): (r: Money)
      ensures RoundsHalfUp(cents * multiplier.unscaled, Pow10(multiplier.scale), r.cents)
    {
      var p := Decimals.Multiply(Amount(), multiplier);
      Pow10Add(2, multiplier.scale);
      assert Pow10(2) == 100;
      assert p.unscaled * Pow10(2) == 100 * (cents * multiplier.unscaled);
      RoundScaled(cents * multiplier.unscaled, Pow10(multiplier.scale), 100);
      Normalize(p)
    }

    /** `divide(BigDecimal)`: the quotient rounded HALF_UP to the cent; a zero divisor
        throws `ArithmeticException` ("Division undefined" for 0/0). */
    function Divide(divisor: Decimal): (r: Result<Money, Error>)
      ensures r.Err? <==> divisor.unscaled == 0
      ensures r.Err? ==> r.error.Arithmetic?
      ensures r.Ok? ==> RoundsHalfUp(cents * Pow10(divisor.scale), divisor.unscaled, r.value.cents)
    {
      if divisor.unscaled == 0 then
        Err(Arithmetic(if cents == 0 then "Division undefined" else "Division by zero"))
      else
        var q := DivideToScale(Amount(), divisor, 2);
        SetScaleSame(q);
        CentsQuotient(cents, divisor);
        Ok(Normalize(q))
    }

    /** `divide(int)`: `divide(BigDecimal.valueOf(divisor))`. */
    function DivideInt(divisor: int): (r: Result<Money, Error>)
      ensures r.Err? <==> divisor == 0
      ensures r.Ok? ==> RoundsHalfUp(cents, divisor, r.value.cents)
    {
      Divide(OfInt(divisor))
    }
  }

  /** Dividing a scale-2 amount to scale 2 rounds the quotient of the cents. */
  lemma CentsQuotient(cents: int, divisor: Decimal)
    requires divisor.unscaled != 0
    ensures DivideToScale(Decimal(cents, 2), divisor, 2).unscaled
         == RoundHalfUpDiv(cents * Pow10(divisor.scale), divisor.unscaled)
  {
    var x := cents * Pow10(divisor.scale);
    Pow10Add(divisor.scale, 2);
    assert Pow10(2) == 100;
    assert cents * Pow10(divisor.scale + 2) == 100 * x;
    assert divisor.unscaled * Pow10(2) == 100 * divisor.unscaled;
    RoundScaled(x, divisor.unscaled, 100);
  }

  /** The private constructor on a non-null amount: `amount.setScale(2, HALF_UP)`. */
  function Normalize(amount: Decimal): (r: Money)
    ensures RoundsHalfUp(amount.unscaled * 100, Pow10(amount.scale), r.cents)
  {
    assert Pow10(2) == 100;
    Money(SetScale(amount, 2).unscaled)
  }

  /** `Money.of(BigDecimal)`: a null amount is rejected; anything else is rounded
      HALF_UP to the cent. */
  function Of(amount: Option<Decimal>): (r: Result<Money, Error>)
    ensures r.Err? <==> amount.None?
    ensures r.Err? ==> r.error.IllegalArgument?
    ensures r.Ok? ==> RoundsHalfUp(amount.value.unscaled * 100, Pow10(amount.value.scale), r.value.cents)
  {
    match amount
    case None => Err(IllegalArgument("금액은 null일 수 없습니다"))
    case Some(a) => Ok(Normalize(a))
  }

  /** `Money.of(long)`: exactly `amount` won. */
  function OfLong(amount: int): (r: Money)
    ensures r.cents == 100 * amount
  {
    assert Pow10(2) == 100;
    RoundExact(amount, 1);
    SetScaleUp(OfInt(amount), 2);
    Normalize(OfInt(amount))
  }

  /** `Money.zero()` and `Money.ZERO`. */
  function ZeroMoney(): (r: Money)
    ensures r.IsZero() && r.cents == 0
  {
    Normalize(Decimals.Zero)
  }

  /** A scale-2 amount reads back unchanged: `of(m.amount())` is `m`. */
  lemma OfAmount(m: Money)
    ensures Of(Some(m.Amount())) == Ok(m)
  {
    SetScaleSame(m.Amount());
  }

  /** Exactly one of negative, zero and positive holds, and `isNegativeOrZero` is
      negative or zero. */
  lemma SignTrichotomy(m: Money)
    ensures m.IsNegative() || m.IsZero() || m.IsPositive()
    ensures !(m.IsNegative() && m.IsZero()) && !(m.IsZero() && m.IsPositive()) && !(m.IsNegative() && m.IsPositive())
    ensures m.IsNegativeOrZero() <==> m.IsNegative() || m.IsZero()
  {
    var n, z, p, nz := m.IsNegative(), m.IsZero(), m.IsPositive(), m.IsNegativeOrZero();
    assert n == (m.cents < 0) && z == (m.cents == 0) && p == (m.cents > 0) && nz == (m.cents <= 0);
  }

  /** `isLessThan` and `isGreaterThan` are converses, and the strict and non-strict
      forms differ exactly on equal amounts. */
  lemma ComparisonsAgree(a: Money, b: Money)
    ensures a.IsLessThan(b) <==> b.IsGreaterThan(a)
    ensures a.IsGreaterThanOrEqual(b) <==> a.IsGreaterThan(b) || a.Equals(b)
    ensures a.IsLessThanOrEqual(b) <==> !a.IsGreaterThan(b)
  {
    var lt, gt, ge, le, eq := a.IsLessThan(b), a.IsGreaterThan(b), a.IsGreaterThanOrEqual(b), a.IsLessThanOrEqual(b), a.Equals(b);
    assert lt == (a.cents < b.cents) && b.IsGreaterThan(a) == lt && gt == (a.cents > b.cents);
    assert ge == (a.cents >= b.cents) && le == (a.cents <= b.cents) && eq == (a == b);
  }

  /** Because every amount has scale 2, `equals` is equality of values. */
  lemma EqualsIsValueEquality(a: Money, b: Money)
    ensures a.Equals(b) <==> a.CompareTo(b) == 0
    ensures a.Equals(b) <==> a == b
  {
  }

  /** Adding and then subtracting the same amount is the identity. */
  lemma AddSubtractInverse(a: Money, b: Money)
    ensures a.Add(b).Subtract(b) == a
  {
  }
}
