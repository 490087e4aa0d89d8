/** The transaction-recategorised event: the reason default and the two
    predicates consumers use to decide whether to recompute patterns. */
module RecategorizedEvents {
  import opened Wrappers
  import opened Decimals
  import opened Categories

  /** The reason recorded when none is given. */
  const DefaultReason: string := "사용자 수동 재분류"

  datatype TransactionRecategorized = TransactionRecategorized(
    eventId: string,
    occurredOn: int,
    transactionId: Option<int>,
    userId: int,
    previousCategory: Category,
    newCategory: Category,
    amount: Decimal,
    reason: string)
  {
    /** `isCategoryActuallyChanged`. */
    function IsCategoryActuallyChanged(): (r: bool)
      ensures r <==> previousCategory != newCategory
    {
      !(previousCategory == newCategory)
    }

    /** `affectsSpendingPattern`: a real change that touches an expense category. */
    function AffectsSpendingPattern(): (r: bool)
      ensures r ==> IsCategoryActuallyChanged()
      ensures r <==> (previousCategory != newCategory
                   && (previousCategory.IsIncomeCategory() ==> newCategory.IsExpenseCategory()))
    {
      IsCategoryActuallyChanged()
        && (previousCategory.IsExpenseCategory() || newCategory.IsExpenseCategory())
    }
  }

  /** The convenience constructor: a `null` reason becomes the default reason, any
      other reason is kept. */
  function New(eventId: string, occurredOn: int, transactionId: Option<int>, userId: int,
               previousCategory: Category, newCategory: Category, amount: Decimal,
               reason: Option<string>): (r: TransactionRecategorized)
    ensures reason.None? ==> r.reason == DefaultReason
    ensures reason.Some? ==> r.reason == reason.value
    ensures r.previousCategory == previousCategory && r.newCategory == newCategory
    ensures r.amount == amount && r.userId == userId && r.transactionId == transactionId
  {
    TransactionRecategorized(eventId, occurredOn, transactionId, userId,
      previousCategory, newCategory, amount,
      if reason.Some? then reason.value else DefaultReason)
  }

  /** Moving between two income categories changes nothing for spending patterns;
      moving into or out of an expense category does. */
  lemma IncomeOnlyChangesDoNotAffect(e: TransactionRecategorized)
    requires e.previousCategory.IsIncomeCategory() && e.newCategory.IsIncomeCategory()
    ensures !e.AffectsSpendingPattern()
  {
  }
}
