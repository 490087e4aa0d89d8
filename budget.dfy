/** The budget aggregate: a planned amount for one category and period, the
    spending recorded against it, and the derived usage and limit checks. */
module Budgets {
  import opened Wrappers
  import opened Errors
  import opened Decimals
  import opened Categories

  /** `BudgetPeriod`; its end-date arithmetic is not modelled, the end date is given. */
  datatype BudgetPeriod = WeeklyBudget | MonthlyBudget

  class Budget {
    const userId: int
    const category: Category
    const period: BudgetPeriod
    const startDate: int
    const endDate: int
    const plannedAmount: Decimal
    var spentAmount: Decimal
    const createdAt: int
    var lastUpdated: int

    /** What the constructor and `addSpending` keep: a positive plan and a spending
        total that is not negative. */
    ghost predicate Valid()
      reads this
    {
      plannedAmount.unscaled > 0 && spentAmount.unscaled >= 0
    }

    /** The constructor once the planned amount has passed validation. */
    constructor (userId: int, category: Category, period: BudgetPeriod, startDate: int,
                 endDate: int, plannedAmount: Decimal, now: int)
      requires plannedAmount.unscaled > 0
      ensures Valid()
      ensures this.userId == userId && this.category == category && this.period == period
      ensures this.startDate == startDate && this.endDate == endDate
      ensures this.plannedAmount == plannedAmount && spentAmount == Zero
      ensures createdAt == now && lastUpdated == now
    {
      this.userId := userId;
      this.category := category;
      this.period := period;
      this.startDate := startDate;
      this.endDate := endDate;
      this.plannedAmount := plannedAmount;
      this.spentAmount := Zero;
      this.createdAt := now;
      this.lastUpdated := now;
    }

    /** `addSpending`: a negative amount is rejected and changes nothing; otherwise it
        is added to the spending total, which therefore never decreases. */
    method AddSpending(amount: Decimal, now: int) returns (r: Outcome<Error>)
      requires Valid()
      modifies this
      ensures Valid()
      ensures amount.unscaled < 0 ==> r.Fail? && r.error.IllegalArgument?
      ensures amount.unscaled < 0 ==> spentAmount == old(spentAmount) && lastUpdated == old(lastUpdated)
      ensures amount.unscaled >= 0 ==> r.Pass? && spentAmount == Add(old(spentAmount), amount)
      ensures amount.unscaled >= 0 ==> lastUpdated == now
      ensures CompareTo(spentAmount, old(spentAmount)) >= 0
    {
      if CompareTo(amount, Zero) < 0 {
        CompareReflexive(spentAmount);
        return Fail(IllegalArgument("지출 금액은 음수가 될 수 없습니다"));
      }
      AddCompare(spentAmount, amount);
      var m := Max(spentAmount.scale, amount.scale);
      MulMono(0, spentAmount.unscaled, Pow10(m - spentAmount.scale));
      MulMono(0, amount.unscaled, Pow10(m - amount.scale));
      spentAmount := Add(spentAmount, amount);
      lastUpdated := now;
      return Pass;
    }

    /** `getRemainingAmount`: planned minus spent; negative exactly when over budget. */
    function GetRemainingAmount(): (r: Decimal)
      reads this
      ensures r.scale == Max(plannedAmount.scale, spentAmount.scale)
      ensures CompareTo(Add(r, spentAmount), plannedAmount) == 0
      ensures Sign(r.unscaled) == CompareTo(plannedAmount, spentAmount)
      ensures r.unscaled < 0 <==> IsOverBudget()
    {
      SubtractSign(plannedAmount, spentAmount);
      CompareAntisymmetric(plannedAmount, spentAmount);
      Subtract(plannedAmount, spentAmount)
    }

    /** `getUsagePercentage`: spent / planned rounded HALF_UP to 4 places, times 100
        (so a percentage with 2 decimals at scale 4). A plan equal to `BigDecimal.ZERO`
        yields zero; the constructor rules it out. */
    function GetUsagePercentage(): (r: Decimal)
      requires Valid()
      reads this
      ensures r.scale == 4 && r.unscaled % 100 == 0
      ensures RoundsHalfUp(spentAmount.unscaled * Pow10(plannedAmount.scale + 4),
                           plannedAmount.unscaled * Pow10(spentAmount.scale), r.unscaled / 100)
    {
      if plannedAmount == Zero then Zero
      else Multiply(DivideToScale(spentAmount, plannedAmount, 4), OfInt(100))
    }

    /** `isOverBudget`: more spent than planned, by value. */
    function IsOverBudget(): (r: bool)
      reads this
      ensures r <==> spentAmount.unscaled * Pow10(plannedAmount.scale)
                     > plannedAmount.unscaled * Pow10(spentAmount.scale)
    {
      CompareTo(spentAmount, plannedAmount) > 0
    }

    /** `isNearBudgetLimit`: usage of at least 80% without being over budget. */
    function IsNearBudgetLimit(): (r: bool)
      requires Valid()
      reads this
      ensures r ==> !IsOverBudget() && AtLeast(GetUsagePercentage(), 80)
    {
      AtLeast(GetUsagePercentage(), 80) && !IsOverBudget()
    }
  }

  /** `new Budget(...)`: a planned amount that is not above zero is rejected. */
  method New(userId: int, category: Category, period: BudgetPeriod, startDate: int,
             endDate: int, plannedAmount: Decimal, now: int)
    returns (r: Result<Budget, Error>)
    ensures r.Err? <==> plannedAmount.unscaled <= 0
    ensures r.Err? ==> r.error.IllegalArgument?
    ensures r.Ok? ==> fresh(r.value) && r.value.Valid() && r.value.spentAmount == Zero
    ensures r.Ok? ==> r.value.plannedAmount == plannedAmount && r.value.endDate == endDate
  {
    if CompareTo(plannedAmount, Zero) <= 0 {
      return Err(IllegalArgument("예산 금액은 0보다 커야 합니다"));
    }
    var b := new Budget(userId, category, period, startDate, endDate, plannedAmount, now);
    return Ok(b);
  }

  /** Within budget, the usage percentage is at most 100; near the limit it is
      between 80 and 100. */
  lemma {:induction false} UsageWithinBudget(b: Budget)
    requires b.Valid() && !b.IsOverBudget()
    ensures AtMost(b.GetUsagePercentage(), 100)
    ensures b.IsNearBudgetLimit() ==> AtLeast(b.GetUsagePercentage(), 80)
  {
    var s, p := b.spentAmount, b.plannedAmount;
    var n := s.unscaled * Pow10(p.scale + 4);
    var d := p.unscaled * Pow10(s.scale);
    Pow10Add(p.scale, 4);
    MulAssoc(s.unscaled, Pow10(p.scale), Pow10(4));
    assert s.unscaled * Pow10(p.scale) <= d;
    MulMono(s.unscaled * Pow10(p.scale), d, Pow10(4));
    assert Pow10(4) == 10000;
    assert n <= 10000 * d;
    MulMono(1, p.unscaled, Pow10(s.scale));
    RoundAtMost(n, d, 10000);
  }
}
