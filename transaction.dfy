/** The transaction aggregate: amount validation on creation, the high-amount and
    risk-level rules, re-categorisation, and the domain events it raises into its
    `AggregateRoot` buffer. */
module Transactions {
  import opened Wrappers
  import opened Errors
  import opened Decimals
  import opened Categories
  import opened HighAmountEvents
  import opened RecategorizedEvents
  import opened AggregateRoots

  datatype TransactionType = Income | Expense

  /** `DayOfWeek.getValue()`: 1 = Monday … 7 = Sunday. */
  type DayOfWeek = d: int | 1 <= d <= 7 witness 1

  /** `LocalDateTime.getHour()`. */
  type Hour = h: int | 0 <= h <= 23 witness 0

  /** `transactionDate`: an instant on the timeline, with the calendar day of week and
      hour of day that `java.time` derives from it. */
  datatype TransactionDate = TransactionDate(instant: int, dayOfWeek: DayOfWeek, hour: Hour)

  /** The creation event, a pure data carrier. */
  datatype TransactionCreated = TransactionCreated(
    eventId: string,
    occurredOn: int,
    transactionId: Option<int>,
    userId: int,
    amount: Decimal,
    txType: TransactionType,
    category: Category,
    transactionDate: TransactionDate,
    description: string)

  /** The events a transaction raises. */
  datatype TransactionEvent =
    | Created(created: TransactionCreated)
    | HighAmountDetected(detected: HighAmountTransactionDetected)
    | Recategorized(recategorized: TransactionRecategorized)

  /** What the transaction specifications read of a transaction. */
  datatype TransactionView = TransactionView(
    amount: Decimal, date: TransactionDate, txType: TransactionType, category: Category)

  const HighAmountReason: string := "금액 기준 고액 거래 감지"

  /** `isHighAmountTransaction`: at least 500,000 by value. */
  function IsHighAmountTransaction(amount: Decimal): (r: bool)
    ensures r <==> amount.unscaled >= 500000 * Pow10(amount.scale)
  {
    AtLeast(amount, 500000)
  }

  /** `calculateRiskLevel`: `CRITICAL` from 2,000,000, `HIGH` from 1,000,000, `MEDIUM`
      from 500,000, `LOW` below; the category plays no part. */
  function CalculateRiskLevel(amount: Decimal, category: Category): (r: RiskLevel)
    ensures r == Critical <==> amount.unscaled >= 2000000 * Pow10(amount.scale)
    ensures r == Low <==> !IsHighAmountTransaction(amount)
    ensures IsHighAmountTransaction(amount) ==> r.IsHigherThan(Low)
    ensures r == High <==> 1000000 * Pow10(amount.scale) <= amount.unscaled < 2000000 * Pow10(amount.scale)
  {
    if AtLeast(amount, 2000000) then Critical
    else if AtLeast(amount, 1000000) then High
    else if AtLeast(amount, 500000) then Medium
    else Low
  }

  /** A larger amount never gets a lower risk level. */
  lemma RiskLevelMonotone(a: Decimal, b: Decimal, ca: Category, cb: Category)
    requires CompareTo(a, b) <= 0
    ensures !CalculateRiskLevel(a, ca).IsHigherThan(CalculateRiskLevel(b, cb))
  {
    if AtLeast(a, 2000000) { AtLeastMonotone(a, b, 2000000); }
    if AtLeast(a, 1000000) { AtLeastMonotone(a, b, 1000000); }
    if AtLeast(a, 500000) { AtLeastMonotone(a, b, 500000); }
  }

  /** The events the constructor raises, in order: the creation event, then a
      high-amount event when the amount is at least 500,000. */
  function CreationEvents(userId: int, amount: Decimal, date: TransactionDate,
                          description: string, txType: TransactionType, category: Category,
                          now: int, createdEventId: string, alertEventId: string)
    : (r: seq<TransactionEvent>)
    ensures |r| == if IsHighAmountTransaction(amount) then 2 else 1
    ensures r[0].Created? && r[0].created.amount == amount && r[0].created.category == category
    ensures |r| == 2 ==> r[1].HighAmountDetected? && r[1].detected.amount == amount
                         && r[1].detected.riskLevel.IsHigherThan(Low)
  {
    var created := TransactionCreated(createdEventId, now, None, userId, amount, txType,
                                      category, date, description);
    if IsHighAmountTransaction(amount) then
      [Created(created),
       HighAmountDetected(HighAmountTransactionDetected(
         alertEventId, now, None, userId, amount, category,
         CalculateRiskLevel(amount, category), HighAmountReason, Zero))]
    else
      [Created(created)]
  }

  /** A new buffer into which `events` have been raised one by one, in order. */
  method RaiseAll(events: seq<TransactionEvent>) returns (root: AggregateRoot<TransactionEvent>)
    ensures fresh(root) && root.domainEvents == events
  {
    root := new AggregateRoot<TransactionEvent>();
    var i := 0;
    while i < |events|
      invariant 0 <= i <= |events| && root.domainEvents == events[..i]
    {
      var _ := root.Raise(Some(events[i]));
      assert events[..i + 1] == events[..i] + [events[i]];
      i := i + 1;
    }
    assert events[..i] == events;
  }

  class Transaction {
    /** The database identity; unassigned (`null`) while the object is being built. */
    var id: Option<int>
    const userId: int
    const amount: Decimal
    const transactionDate: TransactionDate
    const description: string
    const txType: TransactionType
    var category: Category
    const createdAt: int
    /** The inherited domain-event buffer. */
    const events: AggregateRoot<TransactionEvent>

    /** The constructor once the amount has passed validation. */
    constructor (userId: int, amount: Decimal, date: TransactionDate, description: string,
                 txType: TransactionType, category: Category,
                 now: int, createdEventId: string, alertEventId: string)
      requires amount != Zero
      ensures this.userId == userId && this.amount == amount && transactionDate == date
      ensures this.description == description && this.txType == txType
      ensures this.category == category && createdAt == now && id == None
      ensures fresh(events)
      ensures events.domainEvents == CreationEvents(userId, amount, date, description, txType,
                                                    category, now, createdEventId, alertEventId)
    {
      var root := RaiseAll(CreationEvents(userId, amount, date, description, txType, category,
                                          now, createdEventId, alertEventId));
      this.id := None;
      this.userId := userId;
      this.amount := amount;
      this.transactionDate := date;
      this.description := description;
      this.txType := txType;
      this.category := category;
      this.createdAt := now;
      this.events := root;
    }

    /** `isExpense`. */
    function IsExpense(): (r: bool)
      ensures r <==> !IsIncome()
    {
      txType == Expense
    }

    /** `isIncome`. */
    function IsIncome(): (r: bool)
      ensures r <==> txType != Expense
    {
      txType == Income
    }

    /** `isWeekendTransaction`: Saturday or Sunday. */
    function IsWeekendTransaction(): (r: bool)
      ensures r <==> transactionDate.dayOfWeek in {6, 7}
    {
      transactionDate.dayOfWeek == 6 || transactionDate.dayOfWeek == 7
    }

    /** `isLateNightTransaction`: from 22:00 to 05:59. */
    function IsLateNightTransaction(): (r: bool)
      ensures r <==> !(6 <= transactionDate.hour <= 21)
    {
      transactionDate.hour >= 22 || transactionDate.hour <= 5
    }

    /** `isLargerThan`: strictly greater by value. */
    function IsLargerThan(threshold: Decimal): (r: bool)
      ensures r <==> amount.unscaled * Pow10(threshold.scale) > threshold.unscaled * Pow10(amount.scale)
      ensures r ==> CompareTo(threshold, amount) < 0
    {
      CompareTo(amount, threshold) > 0
    }

    /** `categorize`: a `null` category is rejected; otherwise the category is set, and a
        recategorised event is raised exactly when the category changed. */
    method Categorize(newCategory: Option<Category>, eventId: string, now: int)
      returns (r: Outcome<Error>)
      modifies this, events
      ensures newCategory.None? ==> r.Fail? && r.error.IllegalArgument?
      ensures newCategory.None? ==> category == old(category) && events.domainEvents == old(events.domainEvents)
      ensures newCategory.Some? ==> r.Pass? && category == newCategory.value
      ensures newCategory.Some? ==> (events.domainEvents == old(events.domainEvents) +
        (if old(category) != newCategory.value
         then [Recategorized(RecategorizedEvents.New(eventId, now, id, userId, old(category),
                                                     newCategory.value, amount, Some(DefaultReason)))]
         else []))
      ensures id == old(id)
    {
      if newCategory.None? {
        return Fail(IllegalArgument("카테고리는 필수입니다"));
      }
      var previousCategory := category;
      category := newCategory.value;
      if previousCategory != newCategory.value {
        var e := RecategorizedEvents.New(eventId, now, id, userId, previousCategory,
                                         newCategory.value, amount, Some(DefaultReason));
        var _ := events.Raise(Some(Recategorized(e)));
      }
      return Pass;
    }

    /** The fields the specifications read. */
    function View(): (r: TransactionView)
      reads this
      ensures r.amount == amount && r.date == transactionDate
      ensures r.txType == txType && r.category == category
    {
      TransactionView(amount, transactionDate, txType, category)
    }
  }

  /** `new Transaction(...)`: a `null` amount, or one `equals` to `BigDecimal.ZERO`
      (value 0 at scale 0), is rejected. The check is scale-sensitive, so `0.00` and
      negative amounts pass. */
  method New(userId: int, amount: Option<Decimal>, date: TransactionDate, description: string,
             txType: TransactionType, category: Category,
             now: int, createdEventId: string, alertEventId: string)
    returns (r: Result<Transaction, Error>)
    ensures r.Err? <==> amount.None? || amount.value == Zero
    ensures r.Err? ==> r.error.IllegalArgument?
    ensures r.Ok? ==> fresh(r.value) && fresh(r.value.events)
    ensures r.Ok? ==> r.value.amount == amount.value && r.value.category == category
    ensures r.Ok? ==> (r.value.events.domainEvents ==
      CreationEvents(userId, amount.value, date, description, txType, category,
                     now, createdEventId, alertEventId))
  {
    if amount.None? || amount.value == Zero {
      return Err(IllegalArgument("거래 금액은 0이 될 수 없습니다"));
    }
    var t := new Transaction(userId, amount.value, date, description, txType, category,
                             now, createdEventId, alertEventId);
    return Ok(t);
  }

  /** The zero check is on `equals`: `0` is rejected while `0.00` and a negative
      amount are accepted, each with only the creation event. */
  method ZeroCheckIsScaleSensitive(date: TransactionDate)
    returns (zeroRejected: bool, zeroCentsAccepted: bool, negativeAccepted: bool)
    ensures zeroRejected && zeroCentsAccepted && negativeAccepted
  {
    var zero := New(1, Some(Zero), date, "", Expense, Food, 0, "a", "b");
    var zeroCents := New(1, Some(Decimal(0, 2)), date, "", Expense, Food, 0, "a", "b");
    var negative := New(1, Some(Decimal(-100, 0)), date, "", Income, Salary, 0, "a", "b");
    zeroRejected := zero.Err?;
    zeroCentsAccepted := zeroCents.Ok? && |zeroCents.value.events.domainEvents| == 1;
    negativeAccepted := negative.Ok? && |negative.value.events.domainEvents| == 1;
  }
}
