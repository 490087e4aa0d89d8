/** The date-range value object: a closed interval of instants. Instants are
    integers (`LocalDateTime` ordered as a timeline). */
module DateRanges {
  import opened Wrappers
  import opened Errors

  /** A range from `start` to `end`, both included. */
  datatype DateRange = DateRange(start: int, end: int) {

    /** The constructor's invariant: the start is not after the end. */
    ghost predicate Valid() {
      start <= end
    }

    /** `contains`: neither before the start nor after the end. */
    function Contains(t: int): (r: bool)
      ensures r <==> start <= t && t <= end
    {
      !(t < start) && !(t > end)
    }

    /** `overlaps`: neither range ends before the other starts. */
    function Overlaps(other: DateRange): (r: bool)
      ensures r <==> other.start <= end && start <= other.end
    {
      !(end < other.start) && !(other.end < start)
    }

    /** `equals`: false for `null`, otherwise both endpoints equal. */
    function Equals(other: Option<DateRange>): (r: bool)
      ensures r ==> other.Some? && other.value.start == start && other.value.end == end
    {
      other.Some? && other.value.start == start && other.value.end == end
    }
  }

  /** `DateRange.of(start, end)`: a `null` endpoint or a start after the end is rejected. */
  function Of(start: Option<int>, end: Option<int>): (r: Result<DateRange, Error>)
    ensures r.Ok? <==> start.Some? && end.Some? && start.value <= end.value
    ensures r.Ok? ==> r.value.Valid() && r.value.start == start.value && r.value.end == end.value
    ensures r.Err? ==> r.error.IllegalArgument?
  {
    if start.None? || end.None? then Err(IllegalArgument("시작일과 종료일은 필수입니다"))
    else if start.value > end.value then Err(IllegalArgument("시작일은 종료일보다 이전이어야 합니다"))
    else Ok(DateRange(start.value, end.value))
  }

  /** A valid range contains both its endpoints. */
  lemma ContainsEndpoints(d: DateRange)
    requires d.Valid()
    ensures d.Contains(d.start) && d.Contains(d.end)
  {
  }

  /** Two valid ranges overlap exactly when some instant lies in both; overlapping is
      symmetric and reflexive. */
  lemma OverlapsIffCommonInstant(a: DateRange, b: DateRange)
    requires a.Valid() && b.Valid()
    ensures a.Overlaps(b) <==> exists t :: a.Contains(t) && b.Contains(t)
    ensures a.Overlaps(b) <==> b.Overlaps(a)
    ensures a.Overlaps(a)
  {
    if a.Overlaps(b) {
      var t := if a.start <= b.start then b.start else a.start;
      assert a.Contains(t) && b.Contains(t);
    }
  }

  /** `equals` is exactly equality of the two endpoints. */
  lemma EqualsIsValueEquality(a: DateRange, b: DateRange)
    ensures a.Equals(Some(b)) <==> a == b
    ensures !a.Equals(None)
  {
  }
}
