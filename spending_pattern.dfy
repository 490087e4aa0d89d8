/** The spending-pattern aggregate: a recurring spending behaviour recognised from
    at least three occurrences, with a confidence score between 0 and 1. */
module SpendingPatterns {
  import opened Wrappers
  import opened Errors
  import opened Decimals
  import opened Int32s
  import opened Categories
  import opened PatternTypes

  /** The least number of occurrences that makes a pattern. */
  const MinimumOccurrences: int := 3

  /** `compareTo(ZERO) >= 0 && compareTo(ONE) <= 0`. */
  function IsUnitInterval(score: Decimal): (r: bool)
    ensures r <==> 0 <= score.unscaled <= Pow10(score.scale)
  {
    AtLeast(score, 0) && AtMost(score, 1)
  }

  class SpendingPattern {
    const userId: int
    const category: Category
    const patternType: PatternType
    var averageAmount: Decimal
    var minAmount: Decimal
    var maxAmount: Decimal
    var confidenceScore: Decimal
    /** An `Integer`: 32 bits. */
    var occurrenceCount: Int32
    const createdAt: int
    var lastUpdated: int

    /** The constructor once both checks have passed. */
    constructor (userId: int, category: Category, patternType: PatternType,
                 averageAmount: Decimal, minAmount: Decimal, maxAmount: Decimal,
                 confidenceScore: Decimal, occurrenceCount: Int32, now: int)
      requires occurrenceCount >= MinimumOccurrences && IsUnitInterval(confidenceScore)
      ensures this.userId == userId && this.category == category && this.patternType == patternType
      ensures this.averageAmount == averageAmount && this.minAmount == minAmount
      ensures this.maxAmount == maxAmount && this.confidenceScore == confidenceScore
      ensures this.occurrenceCount == occurrenceCount
      ensures createdAt == now && lastUpdated == now
    {
      this.userId := userId;
      this.category := category;
      this.patternType := patternType;
      this.averageAmount := averageAmount;
      this.minAmount := minAmount;
      this.maxAmount := maxAmount;
      this.confidenceScore := confidenceScore;
      this.occurrenceCount := occurrenceCount;
      this.createdAt := now;
      this.lastUpdated := now;
    }

    /** `updatePattern`: overwrites the three amounts and the score; the score's range
        is not checked again. */
    method UpdatePattern(newAverageAmount: Decimal, newMinAmount: Decimal,
                         newMaxAmount: Decimal, newConfidenceScore: Decimal, now: int)
      modifies this
      ensures averageAmount == newAverageAmount && minAmount == newMinAmount
      ensures maxAmount == newMaxAmount && confidenceScore == newConfidenceScore
      ensures occurrenceCount == old(occurrenceCount) && lastUpdated == now
    {
      averageAmount := newAverageAmount;
      minAmount := newMinAmount;
      maxAmount := newMaxAmount;
      confidenceScore := newConfidenceScore;
      lastUpdated := now;
    }

    /** `incrementOccurrence`: `occurrenceCount++` on 32 bits, so one more occurrence
        unless the count is already `Integer.MAX_VALUE`, where it wraps around. */
    method IncrementOccurrence(now: int)
      modifies this
      ensures occurrenceCount == Increment(old(occurrenceCount))
      ensures old(occurrenceCount) < MAX ==> occurrenceCount == old(occurrenceCount) + 1
      ensures MinimumOccurrences <= old(occurrenceCount) < MAX ==> occurrenceCount >= MinimumOccurrences
      ensures confidenceScore == old(confidenceScore) && lastUpdated == now
      ensures averageAmount == old(averageAmount) && minAmount == old(minAmount)
      ensures maxAmount == old(maxAmount)
    {
      occurrenceCount := Increment(occurrenceCount);
      lastUpdated := now;
    }

    /** `isHighConfidence`: a score of at least 0.8. */
    function IsHighConfidence(): (r: bool)
      reads this
      ensures r <==> 10 * confidenceScore.unscaled >= 8 * Pow10(confidenceScore.scale)
    {
      assert Pow10(1) == 10;
      CompareTo(confidenceScore, Decimal(8, 1)) >= 0
    }

    /** `isStablePattern`: at least five occurrences and high confidence. */
    function IsStablePattern(): (r: bool)
      reads this
      ensures r ==> IsHighConfidence() && occurrenceCount > MinimumOccurrences
    {
      occurrenceCount >= 5 && IsHighConfidence()
    }
  }

  /** `new SpendingPattern(...)`: fewer than three occurrences, or a confidence score
      outside [0, 1], is rejected (in that order); a `null` count or score fails when
      it is unboxed or compared. */
  method New(userId: int, category: Category, patternType: PatternType,
             averageAmount: Decimal, minAmount: Decimal, maxAmount: Decimal,
             confidenceScore: Option<Decimal>, occurrenceCount: Option<Int32>, now: int)
    returns (r: Result<SpendingPattern, Error>)
    ensures r.Ok? <==> occurrenceCount.Some? && occurrenceCount.value >= 3
                       && confidenceScore.Some? && IsUnitInterval(confidenceScore.value)
    ensures occurrenceCount.None? ==> r == Err(NullReference("occurrenceCount"))
    ensures occurrenceCount.Some? && occurrenceCount.value < 3 ==> r.Err? && r.error.IllegalArgument?
    ensures r.Ok? ==> fresh(r.value) && r.value.occurrenceCount == occurrenceCount.value
    ensures r.Ok? ==> r.value.confidenceScore == confidenceScore.value
  {
    if occurrenceCount.None? {
      return Err(NullReference("occurrenceCount"));
    }
    if occurrenceCount.value < MinimumOccurrences {
      return Err(IllegalArgument("패턴으로 인정받으려면 최소 3회 이상 반복되어야 합니다"));
    }
    if confidenceScore.None? {
      return Err(NullReference("confidenceScore"));
    }
    if CompareTo(confidenceScore.value, Zero) < 0 || CompareTo(confidenceScore.value, OfInt(1)) > 0 {
      return Err(IllegalArgument("신뢰도는 0.0과 1.0 사이여야 합니다"));
    }
    var p := new SpendingPattern(userId, category, patternType, averageAmount, minAmount,
                                 maxAmount, confidenceScore.value, occurrenceCount.value, now);
    return Ok(p);
  }

  /** A stable pattern stays stable when an occurrence is added, short of the 32-bit
      limit. */
  method StableAfterIncrement(p: SpendingPattern, now: int) returns (stable: bool)
    requires p.IsStablePattern() && p.occurrenceCount < MAX
    modifies p
    ensures stable
  {
    p.IncrementOccurrence(now);
    stable := p.IsStablePattern();
  }
}
