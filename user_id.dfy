/** The user identifier value object: a positive `Long`. */
module UserIds {
  import opened Wrappers
  import opened Errors

  type PositiveId = v: int | v > 0 witness 1

  /** A user identifier; its value is positive by construction. */
  datatype UserId = UserId(value: PositiveId) {

    /** `value()`: the number the identifier was built from. */
    function Value(): (r: int)
      ensures r > 0
    {
      value
    }

    /** `equals`: false for `null`, otherwise equality of the values. */
    function Equals(other: Option<UserId>): (r: bool)
      ensures r ==> other.Some? && other.value.Value() == Value()
    {
      other.Some? && other.value.value == value
    }
  }

  /** `new UserId(value)`: a `null` or non-positive value is rejected. */
  function New(value: Option<int>): (r: Result<UserId, Error>)
    ensures r.Ok? <==> value.Some? && value.value > 0
    ensures r.Ok? ==> r.value.Value() == value.value
    ensures r.Err? ==> r.error.IllegalArgument?
  {
    if value.None? || value.value <= 0 then Err(IllegalArgument("사용자 ID는 양수여야 합니다"))
    else Ok(UserId(value.value))
  }

  /** `UserId.of(value)`: the same validation and result as the constructor. */
  function Of(value: Option<int>): (r: Result<UserId, Error>)
    ensures r == New(value)
  {
    New(value)
  }

  /** Building an identifier from the value of another gives back the same identifier. */
  lemma OfValue(u: UserId)
    ensures Of(Some(u.Value())) == Ok(u)
  {
  }

  /** `equals` is exactly value equality, reflexive and symmetric. */
  lemma EqualsIsValueEquality(a: UserId, b: UserId)
    ensures a.Equals(Some(b)) <==> a == b
    ensures a.Equals(Some(a))
    ensures a.Equals(Some(b)) <==> b.Equals(Some(a))
    ensures !a.Equals(None)
  {
  }
}
