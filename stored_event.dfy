/** `StoredEvent`: a domain event with the metadata the store gives it. */
module StoredEvents {
  import opened Wrappers
  import opened Errors
  import opened Text
  import opened DomainEvents

  const BlankAggregateId: string := "애그리게이트 ID는 필수입니다"
  const BlankEventType: string := "이벤트 타입은 필수입니다"
  const MissingDomainEvent: string := "도메인 이벤트는 필수입니다"
  const NegativeVersion: string := "버전은 0 이상이어야 합니다"

  datatype StoredEvent = StoredEvent(
    globalSequence: int,
    aggregateId: string,
    version: int,
    eventType: string,
    domainEvent: DomainEvent,
    timestamp: int)
  {
    /** `isEventType(c)`, with the class given by its simple name. */
    function IsEventType(simpleName: string): (r: bool)
      ensures r <==> eventType == simpleName
    {
      eventType == simpleName
    }

    function BelongsToAggregate(id: string): (r: bool)
      ensures r <==> aggregateId == id
    {
      aggregateId == id
    }

    function IsAfterVersion(v: int): (r: bool)
      ensures r <==> version > v
    {
      version > v
    }
  }

  /** The compact constructor: the checks run in source order, the first failing one
      decides the error, and a `null` timestamp becomes `now`. */
  function New(globalSequence: int, aggregateId: string, version: int, eventType: string,
               domainEvent: Option<DomainEvent>, timestamp: Option<int>, now: int)
    : (r: Result<StoredEvent, Error>)
    ensures r.Ok? <==> !IsBlank(aggregateId) && !IsBlank(eventType) && domainEvent.Some? && version >= 0
    ensures IsBlank(aggregateId) ==> r == Err(IllegalArgument(BlankAggregateId))
    ensures !IsBlank(aggregateId) && IsBlank(eventType) ==> r == Err(IllegalArgument(BlankEventType))
    ensures r.Err? ==> r.error.IllegalArgument?
    ensures r.Ok? ==> (r.value.globalSequence == globalSequence && r.value.aggregateId == aggregateId
                       && r.value.version == version && r.value.eventType == eventType
                       && r.value.domainEvent == domainEvent.value)
    ensures r.Ok? ==> r.value.timestamp == (if timestamp.Some? then timestamp.value else now)
  {
    if IsBlank(aggregateId) then Err(IllegalArgument(BlankAggregateId))
    else if IsBlank(eventType) then Err(IllegalArgument(BlankEventType))
    else if domainEvent.None? then Err(IllegalArgument(MissingDomainEvent))
    else if version < 0 then Err(IllegalArgument(NegativeVersion))
    else Ok(StoredEvent(globalSequence, aggregateId, version, eventType, domainEvent.value,
                        if timestamp.Some? then timestamp.value else now))
  }
}
