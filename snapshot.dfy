/** `Snapshot`: an aggregate's state at a version, with its creation time. */
module Snapshots {
  import opened Wrappers
  import opened Errors
  import opened Text

  const BlankAggregateId: string := "애그리게이트 ID는 필수입니다"
  const MissingData: string := "스냅샷 데이터는 필수입니다"
  const NegativeVersion: string := "버전은 0 이상이어야 합니다"
  const MissingCreatedAt: string := "생성 시간은 필수입니다"

  datatype Snapshot<D> = Snapshot(aggregateId: string, data: D, version: int, createdAt: int)

  /** The compact constructor: the checks run in source order and the first failing
      one decides the error. */
  function New<D>(aggregateId: string, data: Option<D>, version: int, createdAt: Option<int>)
    : (r: Result<Snapshot<D>, Error>)
    ensures r.Ok? <==> !IsBlank(aggregateId) && data.Some? && version >= 0 && createdAt.Some?
    ensures IsBlank(aggregateId) ==> r == Err(IllegalArgument(BlankAggregateId))
    ensures !IsBlank(aggregateId) && data.None? ==> r == Err(IllegalArgument(MissingData))
    ensures !IsBlank(aggregateId) && data.Some? && version < 0 ==> r == Err(IllegalArgument(NegativeVersion))
    ensures r.Err? ==> r.error.IllegalArgument?
    ensures r.Ok? ==> r.value == Snapshot(aggregateId, data.value, version, createdAt.value)
  {
    if IsBlank(aggregateId) then Err(IllegalArgument(BlankAggregateId))
    else if data.None? then Err(IllegalArgument(MissingData))
    else if version < 0 then Err(IllegalArgument(NegativeVersion))
    else if createdAt.None? then Err(IllegalArgument(MissingCreatedAt))
    else Ok(Snapshot(aggregateId, data.value, version, createdAt.value))
  }

  /** `Snapshot.of`: created now, with the id, data and version unchanged. */
  function Of<D>(aggregateId: string, data: Option<D>, version: int, now: int)
    : (r: Result<Snapshot<D>, Error>)
    ensures r.Ok? <==> !IsBlank(aggregateId) && data.Some? && version >= 0
    ensures r.Ok? ==> (r.value.aggregateId == aggregateId && r.value.data == data.value
                       && r.value.version == version && r.value.createdAt == now)
  {
    New(aggregateId, data, version, Some(now))
  }
}
