/** The specifications over transactions. A candidate is `None` for a `null`
    transaction, which no leaf specification accepts. */
module TransactionSpecs {
  import opened Wrappers
  import opened Errors
  import opened Decimals
  import opened Monies
  import opened DateRanges
  import opened Categories
  import opened Transactions
  import opened Specifications

  type Candidate = Option<TransactionView>
  type TransactionSpec = Spec<Candidate>

  /** `HighAmountTransactionSpec`: the amount, rounded to cents by `Money.of`, is at
      least the threshold; a `null` threshold is rejected. */
  function HighAmount(threshold: Option<Money>): (r: Result<TransactionSpec, Error>)
    ensures r.Err? <==> threshold.None?
    ensures r.Err? ==> r.error.IllegalArgument?
    ensures r.Ok? ==> forall t: Candidate :: r.value.IsSatisfiedBy(t) <==>
      t.Some? && Normalize(t.value.amount).cents >= threshold.value.cents
  {
    if threshold.None? then Err(IllegalArgument("임계값은 필수입니다"))
    else
      var limit := threshold.value;
      Ok(Leaf((t: Candidate) => t.Some? && Normalize(t.value.amount).IsGreaterThanOrEqual(limit)))
  }

  /** `over100K`, `over500K`, `over1M`: thresholds of 100,000, 500,000 and 1,000,000. */
  function OverAmount(amount: int): (r: TransactionSpec)
    requires amount in {100000, 500000, 1000000}
    ensures forall t: Candidate :: r.IsSatisfiedBy(t) <==>
      t.Some? && Normalize(t.value.amount).cents >= 100 * amount
  {
    HighAmount(Some(OfLong(amount))).value
  }

  /** `CategoryTransactionSpec`: the transaction's category is the given one; a `null`
      category is rejected. */
  function CategoryIs(category: Option<Category>): (r: Result<TransactionSpec, Error>)
    ensures r.Err? <==> category.None?
    ensures r.Err? ==> r.error.IllegalArgument?
    ensures r.Ok? ==> forall t: Candidate :: r.value.IsSatisfiedBy(t) <==>
      t.Some? && t.value.category == category.value
  {
    if category.None? then Err(IllegalArgument("카테고리는 필수입니다"))
    else
      var c := category.value;
      Ok(Leaf((t: Candidate) => t.Some? && c == t.value.category))
  }

  /** The factories `food`, `transportation`, `shopping`, `entertainment`, `utilities`. */
  function CategoryFactory(category: Category): (r: TransactionSpec)
    requires category in {Food, Transportation, Shopping, Entertainment, Utilities}
    ensures forall t: Candidate :: r.IsSatisfiedBy(t) <==> t.Some? && t.value.category == category
  {
    CategoryIs(Some(category)).value
  }

  /** `DateRangeTransactionSpec`: the transaction's date lies in the range (both ends
      included); a `null` range is rejected. */
  function InDateRange(range: Option<DateRange>): (r: Result<TransactionSpec, Error>)
    ensures r.Err? <==> range.None?
    ensures r.Err? ==> r.error.IllegalArgument?
    ensures r.Ok? ==> forall t: Candidate :: r.value.IsSatisfiedBy(t) <==>
      t.Some? && range.value.start <= t.value.date.instant <= range.value.end
  {
    if range.None? then Err(IllegalArgument("날짜 범위는 필수입니다"))
    else
      var d := range.value;
      Ok(Leaf((t: Candidate) => t.Some? && d.Contains(t.value.date.instant)))
  }

  /** `WeekdayTransactionSpec`: the transaction's day of week is one of the target days;
      a `null` or empty day set is rejected. The set is a value, so the defensive copy
      the constructor takes is implicit: nothing the caller does later can change it. */
  function OnDays(days: Option<set<DayOfWeek>>): (r: Result<TransactionSpec, Error>)
    ensures r.Err? <==> days.None? || days.value == {}
    ensures r.Err? ==> r.error.IllegalArgument?
    ensures r.Ok? ==> forall t: Candidate :: r.value.IsSatisfiedBy(t) <==>
      t.Some? && t.value.date.dayOfWeek in days.value
  {
    if days.None? || days.value == {} then Err(IllegalArgument("대상 요일은 최소 하나 이상 필요합니다"))
    else
      var ds := days.value;
      Ok(Leaf((t: Candidate) => t.Some? && t.value.date.dayOfWeek in ds))
  }

  /** `weekdays()`: Monday to Friday. */
  function Weekdays(): (r: TransactionSpec)
    ensures forall t: Candidate :: r.IsSatisfiedBy(t) <==> t.Some? && t.value.date.dayOfWeek <= 5
  {
    OnDays(Some({1, 2, 3, 4, 5})).value
  }

  /** `weekends()`: Saturday and Sunday. */
  function Weekends(): (r: TransactionSpec)
    ensures forall t: Candidate :: r.IsSatisfiedBy(t) <==> t.Some? && t.value.date.dayOfWeek >= 6
  {
    OnDays(Some({6, 7})).value
  }

  /** Every transaction is either a weekday or a weekend one, never both. */
  lemma WeekdaysWeekendsPartition(t: TransactionView)
    ensures Weekdays().IsSatisfiedBy(Some(t)) != Weekends().IsSatisfiedBy(Some(t))
    ensures !Weekdays().IsSatisfiedBy(None) && !Weekends().IsSatisfiedBy(None)
  {
  }

  /** `ExpenseTransactionSpec.instance()`: one shared, stateless specification that
      accepts expense transactions. */
  const ExpenseInstance: TransactionSpec := Leaf((t: Candidate) => t.Some? && t.value.txType == Expense)

  /** For a transaction the expense specification is the negation of "is income". */
  lemma ExpenseIsNotIncome(t: TransactionView)
    ensures ExpenseInstance.IsSatisfiedBy(Some(t)) <==> t.txType != Income
    ensures !ExpenseInstance.IsSatisfiedBy(None)
  {
  }

  /** A range accepts transactions dated exactly at its start or its end. */
  lemma DateRangeIncludesEndpoints(d: DateRange, t: TransactionView)
    requires d.Valid()
    ensures InDateRange(Some(d)).value.IsSatisfiedBy(Some(t.(date := t.date.(instant := d.start))))
    ensures InDateRange(Some(d)).value.IsSatisfiedBy(Some(t.(date := t.date.(instant := d.end))))
  {
  }

  function View(amount: int, category: Category): TransactionView {
    TransactionView(OfInt(amount), TransactionDate(0, 1, 12), Expense, category)
  }

  /** The specification scenarios of the integration test: 50,000 is below and 150,000
      above a 100,000 threshold; a 120,000 food expense satisfies "over 100,000 and
      food", "shopping or food" and "not shopping". */
  lemma IntegrationScenarios()
    ensures !HighAmount(Some(OfLong(100000))).value.IsSatisfiedBy(Some(View(50000, Food)))
    ensures HighAmount(Some(OfLong(100000))).value.IsSatisfiedBy(Some(View(150000, Shopping)))
    ensures CategoryIs(Some(Food)).value.IsSatisfiedBy(Some(View(50000, Food)))
    ensures !CategoryIs(Some(Food)).value.IsSatisfiedBy(Some(View(150000, Shopping)))
    ensures HighAmount(Some(OfLong(100000))).value.And(CategoryIs(Some(Food)).value)
              .IsSatisfiedBy(Some(View(120000, Food)))
    ensures CategoryIs(Some(Shopping)).value.Or(CategoryIs(Some(Food)).value)
              .IsSatisfiedBy(Some(View(120000, Food)))
    ensures CategoryIs(Some(Shopping)).value.Not().IsSatisfiedBy(Some(View(120000, Food)))
  {
    forall n: int ensures Normalize(OfInt(n)).cents == 100 * n {
      NormalizeInteger(n);
    }
  }

  /** An integer amount becomes that many hundred cents. */
  lemma NormalizeInteger(n: int)
    ensures Normalize(OfInt(n)).cents == 100 * n
  {
    assert Pow10(0) == 1;
    RoundExact(100 * n, 1);
  }
}
