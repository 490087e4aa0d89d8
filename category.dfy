/** The transaction category enum and its expense/income classification. */
module Categories {

  datatype Category =
    | Food | Transportation | Shopping | Utilities | Entertainment | Healthcare
    | Education | Housing
    | Salary | Bonus | Investment | OtherIncome
    | Other
  {
    /** `ordinal()`: the position in declaration order. */
    function Ordinal(): (r: nat)
      ensures r < 13
    {
      match this
      case Food => 0 case Transportation => 1 case Shopping => 2 case Utilities => 3
      case Entertainment => 4 case Healthcare => 5 case Education => 6 case Housing => 7
      case Salary => 8 case Bonus => 9 case Investment => 10 case OtherIncome => 11
      case Other => 12
    }

    /** `isExpenseCategory`: the eight spending categories and `OTHER`. */
    function IsExpenseCategory(): (r: bool)
      ensures r <==> this in ExpenseCategories()
    {
      match this
      case Food | Transportation | Shopping | Utilities | Entertainment
        | Healthcare | Education | Housing | Other => true
      case _ => false
    }

    /** `isIncomeCategory`: the four income categories. */
    function IsIncomeCategory(): (r: bool)
      ensures r <==> !IsExpenseCategory()
      ensures r <==> this in IncomeCategories()
    {
      match this
      case Salary | Bonus | Investment | OtherIncome => true
      case _ => false
    }
  }

  /** Every constant of the enum, in declaration order (`Category.values()`). */
  function AllCategories(): (r: seq<Category>)
    ensures forall c: Category :: c in r
    ensures |r| == 13
  {
    var r := [Food, Transportation, Shopping, Utilities, Entertainment, Healthcare,
              Education, Housing, Salary, Bonus, Investment, OtherIncome, Other];
    assert forall c: Category :: c in r by {
      forall c: Category ensures c in r {
        assert r[c.Ordinal()] == c;
      }
    }
    r
  }

  /** The categories `isExpenseCategory` accepts: nine of them, `OTHER` among them. */
  function ExpenseCategories(): (r: set<Category>)
    ensures |r| == 9 && Other in r
  {
    {Food, Transportation, Shopping, Utilities, Entertainment, Healthcare,
     Education, Housing, Other}
  }

  /** The categories `isIncomeCategory` accepts: exactly four. */
  function IncomeCategories(): (r: set<Category>)
    ensures |r| == 4 && OtherIncome in r
  {
    {Salary, Bonus, Investment, OtherIncome}
  }

  /** The expense and income categories split the enum between them. */
  lemma ClassificationPartition(c: Category)
    ensures c in ExpenseCategories() <==> c !in IncomeCategories()
    ensures c.IsExpenseCategory() != c.IsIncomeCategory()
  {
  }
}
