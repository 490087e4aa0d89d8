/** The regular-spending-pattern specification over a list of transactions: enough
    occurrences, evenly spaced in time, with amounts close to their average. */
module RegularSpending {
  import opened Wrappers
  import opened Errors
  import opened Decimals
  import opened Sorting
  import opened Transactions

  /** `BigDecimal.valueOf(0.1)`, the default amount tolerance. */
  const DefaultAmountTolerance: Decimal := Decimal(1, 1)

  /** The validated settings. `intervalTolerance` is a `Duration` in seconds; the
      amount tolerance is the decimal that `BigDecimal.valueOf` makes of the `double`. */
  datatype RegularSpendingPatternSpec = RegularSpendingPatternSpec(
    minimumOccurrences: int, intervalTolerance: int, amountTolerance: Decimal)
  {
    ghost predicate Valid() {
      minimumOccurrences >= 2 && intervalTolerance >= 0
      && 0 <= amountTolerance.unscaled <= Pow10(amountTolerance.scale)
    }
  }

  /** The three-argument constructor: fewer than two occurrences, a `null` or negative
      interval tolerance, or an amount tolerance outside [0, 1] is rejected. */
  function New(minimumOccurrences: int, intervalTolerance: Option<int>, amountTolerance: Decimal)
    : (r: Result<RegularSpendingPatternSpec, Error>)
    ensures r.Ok? <==> minimumOccurrences >= 2 && intervalTolerance.Some? && intervalTolerance.value >= 0
                       && AtLeast(amountTolerance, 0) && AtMost(amountTolerance, 1)
    ensures r.Ok? ==> r.value.Valid() && r.value.minimumOccurrences == minimumOccurrences
                      && r.value.intervalTolerance == intervalTolerance.value
                      && r.value.amountTolerance == amountTolerance
    ensures r.Err? ==> r.error.IllegalArgument?
  {
    if minimumOccurrences < 2 then Err(IllegalArgument("최소 발생 횟수는 2 이상이어야 합니다"))
    else if intervalTolerance.None? || intervalTolerance.value < 0 then
      Err(IllegalArgument("간격 허용 오차는 양수여야 합니다"))
    else if CompareTo(amountTolerance, Zero) < 0 || CompareTo(amountTolerance, OfInt(1)) > 0 then
      Err(IllegalArgument("금액 허용 오차는 0~1 사이여야 합니다"))
    else Ok(RegularSpendingPatternSpec(minimumOccurrences, intervalTolerance.value, amountTolerance))
  }

  /** The two-argument constructor: a 10% amount tolerance. */
  function NewWithDefaultTolerance(minimumOccurrences: int, intervalTolerance: Option<int>)
    : (r: Result<RegularSpendingPatternSpec, Error>)
    ensures r.Ok? <==> minimumOccurrences >= 2 && intervalTolerance.Some? && intervalTolerance.value >= 0
    ensures r.Ok? ==> r.value.amountTolerance == DefaultAmountTolerance
  {
    New(minimumOccurrences, intervalTolerance, DefaultAmountTolerance)
  }

  /** The sort key: the transaction date. */
  function Date(t: TransactionView): int {
    t.date.instant
  }

  /** `Duration.between` the dates of transactions `i` and `i + 1`. */
  function Interval(s: seq<TransactionView>, i: int): int
    requires 0 <= i < |s| - 1
  {
    s[i + 1].date.instant - s[i].date.instant
  }

  function Distance(a: int, b: int): int {
    if a >= b then a - b else b - a
  }

  /** `hasConsistentIntervals`: at least two transactions, and every interval after the
      first differs from the first by at most the tolerance. */
  predicate ConsistentIntervals(s: seq<TransactionView>, tolerance: int) {
    |s| >= 2 && forall i :: 1 <= i < |s| - 1 ==> Distance(Interval(s, i), Interval(s, 0)) <= tolerance
  }

  /** The `reduce(BigDecimal.ZERO, BigDecimal::add)` of the amounts, left to right. */
  function Sum(s: seq<TransactionView>): (r: Decimal)
    decreases |s|
  {
    if s == [] then Zero else Add(Sum(s[..|s| - 1]), s[|s| - 1].amount)
  }

  /** The sum divided by the count, HALF_UP at the sum's scale. */
  function Average(s: seq<TransactionView>): (r: Decimal)
    requires s != []
    ensures r.scale == Sum(s).scale
  {
    DivideToScale(Sum(s), OfInt(|s|), Sum(s).scale)
  }

  /** `|amount − average| ≤ average × tolerance`, compared by value. */
  predicate CloseTo(amount: Decimal, average: Decimal, tolerance: Decimal) {
    CompareTo(Abs(Subtract(amount, average)), Multiply(average, tolerance)) <= 0
  }

  /** `hasSimilarAmounts`: a non-empty list whose every amount is close to the average. */
  predicate SimilarAmounts(s: seq<TransactionView>, tolerance: Decimal) {
    s != [] && forall i :: 0 <= i < |s| ==> CloseTo(s[i].amount, Average(s), tolerance)
  }

  /** `isSatisfiedBy`: a non-`null` list with at least `minimumOccurrences` entries
      which, sorted by date (stably), has consistent intervals and similar amounts. */
  predicate Satisfies(spec: RegularSpendingPatternSpec, transactions: Option<seq<TransactionView>>) {
    transactions.Some? && |transactions.value| >= spec.minimumOccurrences
    && var sorted := SortBy(transactions.value, Date);
    ConsistentIntervals(sorted, spec.intervalTolerance)
    && SimilarAmounts(sorted, spec.amountTolerance)
  }

  /** The interval scan of `hasConsistentIntervals`, leaving at the first interval
      outside the tolerance. */
  method HasConsistentIntervals(s: seq<TransactionView>, tolerance: int) returns (r: bool)
    ensures r == ConsistentIntervals(s, tolerance)
  {
    if |s| < 2 {
      return false;
    }
    var expected := s[1].date.instant - s[0].date.instant;
    var i := 1;
    while i < |s| - 1
      invariant 1 <= i <= |s| - 1 || (|s| == 2 && i == 1)
      invariant expected == Interval(s, 0)
      invariant forall k :: 1 <= k < i && k < |s| - 1 ==> Distance(Interval(s, k), expected) <= tolerance
    {
      var actual := s[i + 1].date.instant - s[i].date.instant;
      var difference := if actual - expected < 0 then expected - actual else actual - expected;
      if difference > tolerance {
        assert Distance(Interval(s, i), Interval(s, 0)) > tolerance;
        return false;
      }
      i := i + 1;
    }
    return true;
  }

  /** The amount scan of `hasSimilarAmounts`, leaving at the first amount outside the
      tolerance. */
  method HasSimilarAmounts(s: seq<TransactionView>, tolerancePercentage: Decimal) returns (r: bool)
    ensures r == SimilarAmounts(s, tolerancePercentage)
  {
    if s == [] {
      return false;
    }
    var average := Average(s);
    var tolerance := Multiply(average, tolerancePercentage);
    for i := 0 to |s|
      invariant forall k :: 0 <= k < i ==> CloseTo(s[k].amount, average, tolerancePercentage)
    {
      var difference := Abs(Subtract(s[i].amount, average));
      if CompareTo(difference, tolerance) > 0 {
        return false;
      }
    }
    return true;
  }

  /** `isSatisfiedBy`, step by step as the source does it. */
  method IsSatisfiedBy(spec: RegularSpendingPatternSpec, transactions: Option<seq<TransactionView>>)
    returns (r: bool)
    ensures r == Satisfies(spec, transactions)
    ensures transactions.None? || |transactions.value| < spec.minimumOccurrences ==> !r
  {
    if transactions.None? || |transactions.value| < spec.minimumOccurrences {
      return false;
    }
    var sorted := SortBy(transactions.value, Date);
    var intervals := HasConsistentIntervals(sorted, spec.intervalTolerance);
    if !intervals {
      return false;
    }
    var amounts := HasSimilarAmounts(sorted, spec.amountTolerance);
    if !amounts {
      return false;
    }
    return true;
  }

  /** `calculatePatternStrength` up to its floating-point part: zero whenever the
      specification is not satisfied, otherwise the weighted consistency score, which
      is an input here. */
  method CalculatePatternStrength(spec: RegularSpendingPatternSpec,
                                  transactions: Option<seq<TransactionView>>, weightedScore: real)
    returns (r: real)
    ensures !Satisfies(spec, transactions) ==> r == 0.0
    ensures Satisfies(spec, transactions) ==> r == weightedScore
  {
    var satisfied := IsSatisfiedBy(spec, transactions);
    if !satisfied {
      return 0.0;
    }
    return weightedScore;
  }

  /** Splitting off any one element: the sum is the sum of the rest plus that element. */
  lemma {:induction false} SumRemove(b: seq<TransactionView>, j: int)
    requires 0 <= j < |b|
    ensures Sum(b) == Add(Sum(RemoveAt(b, j)), b[j].amount)
    decreases |b|
  {
    var n := |b| - 1;
    if j == n {
      assert RemoveAt(b, j) == b[..n];
    } else {
      var init, y := b[..n], b[n];
      SumRemove(init, j);
      var rest := RemoveAt(init, j);
      assert RemoveAt(b, j) == rest + [y];
      assert (rest + [y])[..|rest|] == rest;
      calc {
        Sum(b);
        Add(Sum(init), y.amount);
        Add(Add(Sum(rest), b[j].amount), y.amount);
        { AddAssociates(Sum(rest), b[j].amount, y.amount);
          AddCommutes(b[j].amount, y.amount);
          AddAssociates(Sum(rest), y.amount, b[j].amount); }
        Add(Add(Sum(rest), y.amount), b[j].amount);
        Add(Sum(rest + [y]), b[j].amount);
      }
    }
  }

  /** The sum does not depend on the order of the amounts. */
  lemma {:induction false} SumPermutation(a: seq<TransactionView>, b: seq<TransactionView>)
    requires multiset(a) == multiset(b)
    ensures Sum(a) == Sum(b)
    decreases |a|
  {
    assert |a| == |multiset(a)| == |b|;
    if a != [] {
      var n := |a| - 1;
      assert a[n] in multiset(b);
      var j :| 0 <= j < |b| && b[j] == a[n];
      DropMatching(a, b, j);
      SumPermutation(a[..n], RemoveAt(b, j));
      SumRemove(b, j);
    }
  }

  /** The intervals read only the sequence of dates. */
  lemma IntervalsFromKeys(a: seq<TransactionView>, b: seq<TransactionView>, tolerance: int)
    requires Keys(a, Date) == Keys(b, Date)
    ensures ConsistentIntervals(a, tolerance) == ConsistentIntervals(b, tolerance)
  {
    assert |a| == |Keys(a, Date)| == |b|;
    forall i | 0 <= i < |a| - 1 ensures Interval(a, i) == Interval(b, i) {
      assert Keys(a, Date)[i] == Keys(b, Date)[i] && Keys(a, Date)[i + 1] == Keys(b, Date)[i + 1];
    }
  }

  /** The amount check reads only the multiset of transactions. */
  lemma AmountsFromMultiset(a: seq<TransactionView>, b: seq<TransactionView>, tolerance: Decimal)
    requires multiset(a) == multiset(b)
    ensures SimilarAmounts(a, tolerance) == SimilarAmounts(b, tolerance)
  {
    assert |a| == |multiset(a)| == |b|;
    if a != [] {
      SumPermutation(a, b);
      var avg := Average(a);
      assert avg == Average(b);
      if SimilarAmounts(a, tolerance) {
        forall i | 0 <= i < |b| ensures CloseTo(b[i].amount, avg, tolerance) {
          assert b[i] in multiset(a);
          var k :| 0 <= k < |a| && a[k] == b[i];
        }
      }
      if SimilarAmounts(b, tolerance) {
        forall i | 0 <= i < |a| ensures CloseTo(a[i].amount, avg, tolerance) {
          assert a[i] in multiset(b);
          var k :| 0 <= k < |b| && b[k] == a[i];
        }
      }
    }
  }

  /** The verdict does not depend on the order of the input list. */
  lemma OrderIndependent(spec: RegularSpendingPatternSpec, a: seq<TransactionView>, b: seq<TransactionView>)
    requires multiset(a) == multiset(b)
    ensures Satisfies(spec, Some(a)) == Satisfies(spec, Some(b))
  {
    assert |a| == |multiset(a)| == |b|;
    var sa, sb := SortBy(a, Date), SortBy(b, Date);
    SortedKeysUnique(sa, sb, Date);
    IntervalsFromKeys(sa, sb, spec.intervalTolerance);
    AmountsFromMultiset(sa, sb, spec.amountTolerance);
  }

  /** A weekly expense of the given amount in week `week`. */
  function WeeklyExpense(amount: int, week: int): TransactionView {
    TransactionView(OfInt(amount), TransactionDate(week * 604800, 1, 12), Expense, Categories.Food)
  }

  /** Four weekly payments of 45,000, 47,000, 46,000 and 48,000. */
  function WeeklyPayments(): seq<TransactionView> {
    [WeeklyExpense(45000, 0), WeeklyExpense(47000, 1),
     WeeklyExpense(46000, 2), WeeklyExpense(48000, 3)]
  }

  lemma SumAppend(s: seq<TransactionView>, x: TransactionView)
    ensures Sum(s + [x]) == Add(Sum(s), x.amount)
  {
    assert (s + [x])[..|s|] == s;
  }

  /** Four whole amounts add up as integers. */
  lemma SumOfFour(s: seq<TransactionView>, w: int, x: int, y: int, z: int)
    requires |s| == 4
    requires s[0].amount == OfInt(w) && s[1].amount == OfInt(x)
    requires s[2].amount == OfInt(y) && s[3].amount == OfInt(z)
    ensures Sum(s) == OfInt(w + x + y + z)
  {
    SumAppend([], s[0]);
    AddIntegers(0, w);
    assert [] + [s[0]] == s[..1];
    SumAppend(s[..1], s[1]);
    AddIntegers(w, x);
    assert s[..1] + [s[1]] == s[..2];
    SumAppend(s[..2], s[2]);
    AddIntegers(w + x, y);
    assert s[..2] + [s[2]] == s[..3];
    SumAppend(s[..3], s[3]);
    AddIntegers(w + x + y, z);
    assert s[..3] + [s[3]] == s;
  }

  lemma WeeklyPaymentsAverage(s: seq<TransactionView>)
    requires s == WeeklyPayments()
    ensures Average(s) == OfInt(46500)
  {
    SumOfFour(s, 45000, 47000, 46000, 48000);
    assert Pow10(0) == 1;
    RoundExact(46500, 4);
  }

  /** For whole amounts, the default tolerance allows a deviation of a tenth of the
      average. */
  lemma CloseWithinTenPercent(x: int, average: int)
    ensures CloseTo(OfInt(x), OfInt(average), DefaultAmountTolerance) <==> 10 * Distance(x, average) <= average
  {
    assert Pow10(0) == 1 && Pow10(1) == 10;
    var difference := Subtract(OfInt(x), OfInt(average));
    assert difference == OfInt(x - average);
    assert Abs(difference) == OfInt(Distance(x, average));
    var tolerance := Multiply(OfInt(average), DefaultAmountTolerance);
    assert tolerance == Decimal(average, 1);
    assert CrossDiff(OfInt(Distance(x, average)), tolerance) == 10 * Distance(x, average) - average;
  }

  lemma WeeklyPaymentsSimilar(s: seq<TransactionView>)
    requires s == WeeklyPayments()
    ensures SimilarAmounts(s, DefaultAmountTolerance)
  {
    WeeklyPaymentsAverage(s);
    var average := Average(s);
    assert s[0].amount == OfInt(45000) && s[1].amount == OfInt(47000);
    assert s[2].amount == OfInt(46000) && s[3].amount == OfInt(48000);
    CloseWithinTenPercent(45000, 46500);
    CloseWithinTenPercent(47000, 46500);
    CloseWithinTenPercent(46000, 46500);
    CloseWithinTenPercent(48000, 46500);
    forall i | 0 <= i < |s| ensures CloseTo(s[i].amount, average, DefaultAmountTolerance) {
      assert i == 0 || i == 1 || i == 2 || i == 3;
    }
  }

  lemma WeeklyPaymentsSorted(s: seq<TransactionView>)
    requires s == WeeklyPayments()
    ensures SortBy(s, Date) == s
  {
    assert SortedBy(s, Date);
    SortBySorted(s, Date);
  }

  lemma WeeklyPaymentsIntervals(s: seq<TransactionView>)
    requires s == WeeklyPayments()
    ensures ConsistentIntervals(s, 2 * 86400)
  {
    assert Interval(s, 0) == Interval(s, 1) == Interval(s, 2) == 604800;
  }

  /** With at least three occurrences, two days of interval tolerance and the default
      10%, the four weekly payments form a regular pattern: the average is 46,500, the
      allowed deviation 4,650.0, and the largest deviation 1,500. */
  lemma WeeklyPaymentsAreRegular(s: seq<TransactionView>)
    requires s == WeeklyPayments()
    ensures NewWithDefaultTolerance(3, Some(2 * 86400)).Ok?
    ensures Satisfies(NewWithDefaultTolerance(3, Some(2 * 86400)).value, Some(s))
  {
    WeeklyPaymentsSorted(s);
    WeeklyPaymentsIntervals(s);
    WeeklyPaymentsSimilar(s);
  }
}
