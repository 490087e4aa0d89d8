/** The domain-event buffer that aggregates inherit: events are collected when
    they are raised and handed out (then cleared) by whoever publishes them. */
module AggregateRoots {
  import opened Wrappers
  import opened Errors

  class AggregateRoot<E> {
    /** The raised and not yet cleared events, oldest first. */
    var domainEvents: seq<E>

    constructor ()
      ensures domainEvents == []
    {
      domainEvents := [];
    }

    /** `raise`: a `null` event is rejected; otherwise it goes at the end of the buffer. */
    method Raise(event: Option<E>) returns (r: Outcome<Error>)
      modifies this
      ensures event.None? ==> r.Fail? && r.error.IllegalArgument? && domainEvents == old(domainEvents)
      ensures event.Some? ==> r.Pass? && domainEvents == old(domainEvents) + [event.value]
    {
      if event.None? {
        return Fail(IllegalArgument("도메인 이벤트는 null일 수 없습니다"));
      }
      domainEvents := domainEvents + [event.value];
      return Pass;
    }

    /** `getDomainEvents`: a read-only view of the buffer, in raise order. */
    function GetDomainEvents(): (r: seq<E>)
      reads this
      ensures |r| == GetUnpublishedEventCount()
      ensures forall i :: 0 <= i < |r| ==> r[i] == domainEvents[i]
    {
      domainEvents
    }

    /** `clearDomainEvents`: the buffer is left empty. */
    method ClearDomainEvents()
      modifies this
      ensures domainEvents == []
    {
      domainEvents := [];
    }

    /** `hasUnpublishedEvents`: some event is buffered. */
    function HasUnpublishedEvents(): (r: bool)
      reads this
      ensures r <==> GetUnpublishedEventCount() > 0
    {
      domainEvents != []
    }

    /** `getUnpublishedEventCount`: the number of buffered events. */
    function GetUnpublishedEventCount(): (r: nat)
      reads this
      ensures r == |domainEvents|
    {
      |domainEvents|
    }
  }
}
