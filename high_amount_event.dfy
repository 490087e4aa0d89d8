/** The high-amount-transaction event: its risk level ordering and the two
    decisions it carries (alerting and extra security verification). */
module HighAmountEvents {
  import opened Wrappers
  import opened Decimals
  import opened Categories

  datatype RiskLevel = Low | Medium | High | Critical {

    /** `getLevel`: 1 to 4 from `LOW` to `CRITICAL`. */
    function Level(): (r: int)
      ensures 1 <= r <= 4
      ensures this == Low <==> r == 1
      ensures this == Critical <==> r == 4
    {
      match this
      case Low => 1
      case Medium => 2
      case High => 3
      case Critical => 4
    }

    /** `isHigherThan`: a strictly greater level. */
    function IsHigherThan(other: RiskLevel): (r: bool)
      ensures r <==> ((this == Critical && other != Critical)
                   || (this == High && (other == Medium || other == Low))
                   || (this == Medium && other == Low))
    {
      Level() > other.Level()
    }
  }

  /** `isHigherThan` is a strict total order on the four levels. */
  lemma RiskLevelOrder(a: RiskLevel, b: RiskLevel, c: RiskLevel)
    ensures !a.IsHigherThan(a)
    ensures a.IsHigherThan(b) && b.IsHigherThan(c) ==> a.IsHigherThan(c)
    ensures a != b ==> a.IsHigherThan(b) != b.IsHigherThan(a)
  {
  }

  /** The event record. `occurredOn` and `eventId` come from the clock and a random
      UUID in the source and are plain fields here. */
  datatype HighAmountTransactionDetected = HighAmountTransactionDetected(
    eventId: string,
    occurredOn: int,
    transactionId: Option<int>,
    userId: int,
    amount: Decimal,
    category: Category,
    riskLevel: RiskLevel,
    detectionReason: string,
    userAverageAmount: Decimal)
  {
    /** `requiresImmediateAlert`: `HIGH` or `CRITICAL`. */
    function RequiresImmediateAlert(): (r: bool)
      ensures r <==> riskLevel.IsHigherThan(Medium)
    {
      riskLevel == High || riskLevel == Critical
    }

    /** `requiresSecurityVerification`: `CRITICAL`, or an amount of at least 1,000,000
        by value (whatever its scale). */
    function RequiresSecurityVerification(): (r: bool)
      ensures r <==> riskLevel == Critical || amount.unscaled >= 1000000 * Pow10(amount.scale)
    {
      riskLevel == Critical || AtLeast(amount, 1000000)
    }
  }

  /** A `CRITICAL` event always asks for both an alert and a security verification. */
  lemma CriticalRequiresBoth(e: HighAmountTransactionDetected)
    requires e.riskLevel == Critical
    ensures e.RequiresImmediateAlert() && e.RequiresSecurityVerification()
  {
  }
}
