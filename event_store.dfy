/** The in-memory event store: one event stream per aggregate plus a global log,
    appended to under optimistic concurrency control. */
module EventStores {
  import opened Wrappers
  import opened Errors
  import opened Text
  import opened Sorting
  import opened Sequences
  import opened DomainEvents
  import opened StoredEvents

  const BlankId: string := "Aggregate ID는 필수입니다"
  const MissingTimeRange: string := "시작 시간과 종료 시간은 필수입니다"
  const InvertedTimeRange: string := "시작 시간이 종료 시간보다 늦을 수 없습니다"

  /** The stored events an append of `events` makes to a stream holding `current`
      events, after global sequence number `lastSequence`: the k-th event (from 0)
      gets version `current + k + 1` and sequence number `lastSequence + k + 1`, and its
      own occurrence time as timestamp. */
  function Stamped(id: string, events: seq<DomainEvent>, current: int, lastSequence: int)
    : (r: seq<StoredEvent>)
    ensures |r| == |events|
    ensures forall k :: 0 <= k < |r| ==>
      r[k] == StoredEvent(lastSequence + k + 1, id, current + k + 1, events[k].SimpleName(),
                          events[k], events[k].occurredOn)
  {
    seq(|events|, k requires 0 <= k < |events| =>
      StoredEvent(lastSequence + k + 1, id, current + k + 1, events[k].SimpleName(),
                  events[k], events[k].occurredOn))
  }

  /** The position of the first event whose class has a blank simple name, or the
      length when there is none. */
  function FirstUnnamed(events: seq<DomainEvent>): (r: nat)
    ensures r <= |events|
    ensures forall k :: 0 <= k < r ==> !IsBlank(events[k].SimpleName())
    ensures r < |events| ==> IsBlank(events[r].SimpleName())
  {
    if events == [] then 0
    else if IsBlank(events[0].SimpleName()) then 0
    else 1 + FirstUnnamed(events[1..])
  }

  /** `FirstUnnamed` is the first position with a blank name. */
  lemma {:induction false} FirstUnnamedAt(events: seq<DomainEvent>, i: nat)
    requires i <= |events|
    requires forall k :: 0 <= k < i ==> !IsBlank(events[k].SimpleName())
    requires i < |events| ==> IsBlank(events[i].SimpleName())
    ensures FirstUnnamed(events) == i
  {
    if i > 0 {
      FirstUnnamedAt(events[1..], i - 1);
    }
  }

  /** A prefix of named events extended by one more named event. */
  lemma NamedPrefix(events: seq<DomainEvent>, i: nat)
    requires i < |events| && !IsBlank(events[i].SimpleName())
    requires forall k :: 0 <= k < i ==> !IsBlank(events[k].SimpleName())
    ensures forall k :: 0 <= k < i + 1 ==> !IsBlank(events[k].SimpleName())
  {
  }

  /** Version `k + 1` at position `k`, all of aggregate `id`. */
  ghost predicate Gapless(s: seq<StoredEvent>, id: string) {
    forall k :: 0 <= k < |s| ==> s[k].version == k + 1 && s[k].aggregateId == id
  }

  function Payloads(s: seq<StoredEvent>): (r: seq<DomainEvent>)
    ensures |r| == |s|
    ensures forall k :: 0 <= k < |s| ==> r[k] == s[k].domainEvent
  {
    seq(|s|, k requires 0 <= k < |s| => s[k].domainEvent)
  }

  function Sequence(e: StoredEvent): int {
    e.globalSequence
  }

  function Timestamp(e: StoredEvent): int {
    e.timestamp
  }

  /** The test `getEventsForAggregate` filters with. */
  function AfterVersion(v: int): StoredEvent -> bool {
    (e: StoredEvent) => e.IsAfterVersion(v)
  }

  /** The position from which a gapless stream holds versions above `v`. */
  function Cut(v: int, n: nat): (r: nat)
    ensures r <= n
  {
    if v < 0 then 0 else if v > n then n else v
  }

  /** A gapless stream filtered to versions above `v` is its suffix from `Cut(v)`. */
  lemma {:induction false} AfterVersionIsSuffix(s: seq<StoredEvent>, v: int, offset: int)
    requires forall k :: 0 <= k < |s| ==> s[k].version == offset + k + 1
    ensures Filter(s, AfterVersion(v)) == s[Cut(v - offset, |s|)..]
  {
    if s != [] {
      TailVersions(s, offset);
      AfterVersionIsSuffix(s[1..], v, offset + 1);
      FilterHead(s, v);
      SuffixStep(s, v, offset, Filter(s, AfterVersion(v)), Filter(s[1..], AfterVersion(v)));
    }
  }

  /** The step of `AfterVersionIsSuffix`, on the filtered sequences `kept` (of the
      whole stream) and `rest` (of its tail): the head is kept exactly when the cut
      is at the start, and otherwise the cut moves one place into the tail. */
  lemma SuffixStep(s: seq<StoredEvent>, v: int, offset: int, kept: seq<StoredEvent>, rest: seq<StoredEvent>)
    requires s != [] && s[0].version == offset + 1
    requires kept == (if s[0].version > v then [s[0]] else []) + rest
    requires rest == s[1..][Cut(v - (offset + 1), |s| - 1)..]
    ensures kept == s[Cut(v - offset, |s|)..]
  {
    CutStep(v - offset, |s|);
    if s[0].version > v {
      assert s == [s[0]] + s[1..];
    } else {
      SuffixOfTail(s, Cut(v - offset, |s|));
    }
  }

  /** The cut of a stream is at its start for a version below its first, and
      otherwise one more than the cut of its tail. */
  lemma CutStep(x: int, n: nat)
    requires n >= 1
    ensures x < 1 ==> Cut(x, n) == 0 && Cut(x - 1, n - 1) == 0
    ensures x >= 1 ==> Cut(x, n) == 1 + Cut(x - 1, n - 1)
  {
  }

  /** A suffix of a sequence is the matching suffix of its tail. */
  lemma SuffixOfTail(s: seq<StoredEvent>, c: int)
    requires 1 <= c <= |s|
    ensures s[c..] == s[1..][c - 1..]
  {
  }

  /** The tail of a stream numbered from `offset + 1` is numbered from `offset + 2`. */
  lemma TailVersions(s: seq<StoredEvent>, offset: int)
    requires s != [] && forall k :: 0 <= k < |s| ==> s[k].version == offset + k + 1
    ensures forall k :: 0 <= k < |s[1..]| ==> s[1..][k].version == (offset + 1) + k + 1
  {
    forall k | 0 <= k < |s[1..]|
      ensures s[1..][k].version == (offset + 1) + k + 1
    {
      assert s[1..][k] == s[k + 1];
    }
  }

  /** One step of the version filter: the head is kept exactly when it is above `v`. */
  lemma FilterHead(s: seq<StoredEvent>, v: int)
    requires s != []
    ensures Filter(s, AfterVersion(v)) ==
      (if s[0].version > v then [s[0]] else []) + Filter(s[1..], AfterVersion(v))
  {
  }

  /** The gapless form of `AfterVersionIsSuffix`. */
  lemma GaplessSuffix(s: seq<StoredEvent>, id: string, v: int)
    requires Gapless(s, id)
    ensures var c := Cut(v, |s|);
      Filter(s, AfterVersion(v)) == s[c..]
      && forall k :: c <= k < |s| ==> s[k].version == k + 1 && s[k].version > v
  {
    AfterVersionIsSuffix(s, v, 0);
  }

  /** Re-putting a key's own value with nothing appended changes nothing. */
  lemma UpdateSame(m: map<string, seq<StoredEvent>>, k: string, v: seq<StoredEvent>)
    requires k in m && m[k] == v
    ensures m[k := v + []] == m
  {
    assert v + [] == v;
  }

  /** A second update of a key overrides the first. */
  lemma UpdateTwice(m: map<string, seq<StoredEvent>>, k: string, a: seq<StoredEvent>, b: seq<StoredEvent>)
    ensures m[k := a][k := b] == m[k := b]
  {
  }

  /** Appending one more event to an updated key is one update with the longer value. */
  lemma UpdateAppend(m: map<string, seq<StoredEvent>>, k: string, v: seq<StoredEvent>,
                     appended: seq<StoredEvent>, e: StoredEvent)
    ensures m[k := v + appended][k := m[k := v + appended][k] + [e]] == m[k := v + (appended + [e])]
    ensures m[k := v + appended][k] + [e] == v + (appended + [e])
  {
    assert (v + appended) + [e] == v + (appended + [e]);
  }

  /** Stamping one more event extends the stamped prefix by that event. */
  lemma StampedNext(id: string, events: seq<DomainEvent>, i: nat, current: int, lastSequence: int)
    requires i < |events|
    ensures Stamped(id, events[..i + 1], current, lastSequence)
      == Stamped(id, events[..i], current, lastSequence)
         + [StoredEvent(lastSequence + i + 1, id, current + i + 1, events[i].SimpleName(),
                        events[i], events[i].occurredOn)]
  {
    var a := Stamped(id, events[..i + 1], current, lastSequence);
    var b := Stamped(id, events[..i], current, lastSequence);
    assert |a| == |b| + 1;
    forall k | 0 <= k < |a|
      ensures a[k] == (b + [StoredEvent(lastSequence + i + 1, id, current + i + 1, events[i].SimpleName(),
                                        events[i], events[i].occurredOn)])[k]
    {
      assert events[..i + 1][k] == events[k];
    }
  }

  /** The log's events stamped within `[from, to]`, by timestamp; equal timestamps
      keep their storage order. */
  function WithinByTime(log: seq<StoredEvent>, from: int, to: int): (r: seq<StoredEvent>)
    ensures SortedBy(r, Timestamp)
    ensures multiset(r) == multiset(Filter(log, Within(from, to)))
    ensures forall e :: e in r <==> e in log && from <= e.timestamp <= to
  {
    var kept := Filter(log, Within(from, to));
    SortByMembers(kept, Timestamp);
    SortBy(kept, Timestamp)
  }

  /** The time query's sort is stable: the events sharing a timestamp come out in
      the order they were stored. */
  lemma WithinByTimeStable(log: seq<StoredEvent>, from: int, to: int, t: int)
    ensures Filter(WithinByTime(log, from, to), KeyIs(Timestamp, t))
         == Filter(Filter(log, Within(from, to)), KeyIs(Timestamp, t))
  {
    SortByStable(Filter(log, Within(from, to)), Timestamp, t);
  }

  class InMemoryEventStore {
    /** Events per aggregate id, in version order. */
    var streams: map<string, seq<StoredEvent>>
    /** Every stored event, in the order stored. */
    var globalEventLog: seq<StoredEvent>
    /** The last global sequence number handed out. */
    var globalSequence: int

    ghost predicate Valid()
      reads this
    {
      ValidState(streams, globalEventLog, globalSequence)
    }

    constructor ()
      ensures Valid()
      ensures streams == map[] && globalEventLog == [] && globalSequence == 0
    {
      streams := map[];
      globalEventLog := [];
      globalSequence := 0;
    }

    /** `getOrDefault(aggregateId, emptyList())`. */
    function Stream(id: string): (r: seq<StoredEvent>)
      reads this
      ensures id !in streams ==> r == []
    {
      if id in streams then streams[id] else []
    }

    /** `saveEvents` as written. A blank id is rejected and an empty list does
        nothing, before any version check. The stream is created if absent; then a
        stream of the wrong length is a conflict and nothing is appended. Otherwise
        the events are stored one at a time; an event whose class has a blank simple
        name fails the `StoredEvent` check after its sequence number is taken, and
        the events before it stay stored. */
    method SaveEvents(aggregateId: string, events: seq<DomainEvent>, expectedVersion: int)
      returns (r: Outcome<Error>)
      requires Valid()
      modifies this
      ensures Valid()
      ensures IsBlank(aggregateId) ==> (r == Fail(IllegalArgument(BlankId))
        && streams == old(streams) && globalEventLog == old(globalEventLog)
        && globalSequence == old(globalSequence))
      ensures !IsBlank(aggregateId) && events == [] ==> (r == Pass
        && streams == old(streams) && globalEventLog == old(globalEventLog)
        && globalSequence == old(globalSequence))
      ensures !IsBlank(aggregateId) && events != [] && |old(Stream(aggregateId))| != expectedVersion ==>
        (r == Fail(Concurrency(aggregateId, expectedVersion, |old(Stream(aggregateId))|))
         && streams == old(streams)[aggregateId := old(Stream(aggregateId))]
         && globalEventLog == old(globalEventLog) && globalSequence == old(globalSequence))
      ensures !IsBlank(aggregateId) && events != [] && |old(Stream(aggregateId))| == expectedVersion ==>
        var n := FirstUnnamed(events);
        var appended := Stamped(aggregateId, events[..n], expectedVersion, old(globalSequence));
        (r == (if n == |events| then Pass else Fail(IllegalArgument(BlankEventType))))
        && streams == old(streams)[aggregateId := old(Stream(aggregateId)) + appended]
        && globalEventLog == old(globalEventLog) + appended
        && globalSequence == old(globalSequence) + n + (if n == |events| then 0 else 1)
    {
      if IsBlank(aggregateId) {
        return Fail(IllegalArgument(BlankId));
      }
      if events == [] {
        return Pass;
      }
      var stream := Stream(aggregateId);
      streams := streams[aggregateId := stream];
      if |stream| != expectedVersion {
        return Fail(Concurrency(aggregateId, expectedVersion, |stream|));
      }
      AppendPrefixKeepsValid(old(streams), globalEventLog, globalSequence, aggregateId, stream, events);
      r := StoreInOrder(aggregateId, events);
    }

    /** `saveEvents` as its all-or-nothing contract intends: the same checks, plus an
        up-front check that every event's class has a name, so that a failing call
        stores no event and takes no sequence number. */
    method SaveEventsAtomic(aggregateId: string, events: seq<DomainEvent>, expectedVersion: int)
      returns (r: Outcome<Error>)
      requires Valid()
      modifies this
      ensures Valid()
      ensures r.Fail? ==> globalEventLog == old(globalEventLog) && globalSequence == old(globalSequence)
      ensures r.Fail? ==> streams == old(streams) || streams == old(streams)[aggregateId := old(Stream(aggregateId))]
      ensures IsBlank(aggregateId) ==> r == Fail(IllegalArgument(BlankId))
      ensures !IsBlank(aggregateId) && events == [] ==> r == Pass && streams == old(streams)
      ensures !IsBlank(aggregateId) && events != [] && |old(Stream(aggregateId))| != expectedVersion ==>
        r == Fail(Concurrency(aggregateId, expectedVersion, |old(Stream(aggregateId))|))
      ensures !IsBlank(aggregateId) && events != [] && |old(Stream(aggregateId))| == expectedVersion ==>
        (r.Pass? <==> forall k :: 0 <= k < |events| ==> !IsBlank(events[k].SimpleName()))
      ensures r.Pass? ==>
        var appended := Stamped(aggregateId, events, expectedVersion, old(globalSequence));
        streams == (if events == [] then old(streams) else old(streams)[aggregateId := old(Stream(aggregateId)) + appended])
        && globalEventLog == old(globalEventLog) + appended
        && globalSequence == old(globalSequence) + |events|
    {
      if IsBlank(aggregateId) {
        return Fail(IllegalArgument(BlankId));
      }
      if events == [] {
        assert Stamped(aggregateId, events, expectedVersion, globalSequence) == [];
        return Pass;
      }
      var stream := Stream(aggregateId);
      streams := streams[aggregateId := stream];
      if |stream| != expectedVersion {
        return Fail(Concurrency(aggregateId, expectedVersion, |stream|));
      }
      if FirstUnnamed(events) < |events| {
        return Fail(IllegalArgument(BlankEventType));
      }
      AppendPrefixKeepsValid(old(streams), globalEventLog, globalSequence, aggregateId, stream, events);
      assert events[..|events|] == events;
      r := StoreInOrder(aggregateId, events);
    }

    /** The loop of `saveEvents`: each event is stamped with the next version and the
        next sequence number and appended to both indexes, until one fails the
        `StoredEvent` check. */
    method StoreInOrder(aggregateId: string, events: seq<DomainEvent>) returns (r: Outcome<Error>)
      requires !IsBlank(aggregateId) && aggregateId in streams
      modifies this
      ensures var n := FirstUnnamed(events);
        var appended := Stamped(aggregateId, events[..n], |old(streams[aggregateId])|, old(globalSequence));
        (r == (if n == |events| then Pass else Fail(IllegalArgument(BlankEventType))))
        && streams == old(streams)[aggregateId := old(streams[aggregateId]) + appended]
        && globalEventLog == old(globalEventLog) + appended
        && globalSequence == old(globalSequence) + n + (if n == |events| then 0 else 1)
    {
      ghost var streams0, log0, sequence0 := streams, globalEventLog, globalSequence;
      var stream := streams[aggregateId];
      ghost var appended: seq<StoredEvent> := [];
      var i := 0;
      UpdateSame(streams0, aggregateId, stream);
      while i < |events|
        invariant 0 <= i <= |events|
        invariant forall k :: 0 <= k < i ==> !IsBlank(events[k].SimpleName())
        invariant appended == Stamped(aggregateId, events[..i], |stream|, sequence0)
        invariant streams == streams0[aggregateId := stream + appended]
        invariant globalEventLog == log0 + appended
        invariant globalSequence == sequence0 + i
      {
        r := StoreOne(aggregateId, events[i]);
        if r.Fail? {
          FirstUnnamedAt(events, i);
          return;
        }
        NamedPrefix(events, i);
        StampedNext(aggregateId, events, i, |stream|, sequence0);
        ghost var stored := StoredEvent(sequence0 + i + 1, aggregateId, |stream| + i + 1,
                                        events[i].SimpleName(), events[i], events[i].occurredOn);
        UpdateAppend(streams0, aggregateId, stream, appended, stored);
        appended := appended + [stored];
        i := i + 1;
      }
      FirstUnnamedAt(events, i);
      assert events[..i] == events;
      return Pass;
    }

    /** One pass of the `saveEvents` loop: the next version and the next sequence
        number are taken, and the stored event is appended to both indexes unless the
        `StoredEvent` check rejects its blank type name. */
    method StoreOne(aggregateId: string, event: DomainEvent) returns (r: Outcome<Error>)
      requires !IsBlank(aggregateId) && aggregateId in streams
      modifies this
      ensures globalSequence == old(globalSequence) + 1
      ensures r.Fail? <==> IsBlank(event.SimpleName())
      ensures r.Fail? ==>
        r == Fail(IllegalArgument(BlankEventType)) && streams == old(streams) && globalEventLog == old(globalEventLog)
      ensures r.Pass? ==>
        var stored := StoredEvent(old(globalSequence) + 1, aggregateId, |old(streams[aggregateId])| + 1,
                                  event.SimpleName(), event, event.occurredOn);
        streams == old(streams)[aggregateId := old(streams[aggregateId]) + [stored]]
        && globalEventLog == old(globalEventLog) + [stored]
    {
      var newVersion := |streams[aggregateId]| + 1;
      globalSequence := globalSequence + 1;
      var stored := StoredEvents.New(globalSequence, aggregateId, newVersion, event.SimpleName(),
                                     Some(event), Some(event.occurredOn), event.occurredOn);
      if stored.Err? {
        return Fail(stored.error);
      }
      streams := streams[aggregateId := streams[aggregateId] + [stored.value]];
      globalEventLog := globalEventLog + [stored.value];
      return Pass;
    }

    /** `getEventsForAggregate(aggregateId, fromVersion)`: the payloads of the
        aggregate's stored events with a version above `fromVersion`, in stream order. */
    function EventsForAggregateFrom(aggregateId: string, fromVersion: int): (r: seq<DomainEvent>)
      reads this
      ensures IsBlank(aggregateId) || aggregateId !in streams ==> r == []
      ensures |r| <= |Stream(aggregateId)|
    {
      if IsBlank(aggregateId) then []
      else Payloads(Filter(Stream(aggregateId), AfterVersion(fromVersion)))
    }

    /** `getEventsForAggregate(aggregateId)`: the one-argument overload delegates with
        version 0. */
    function EventsForAggregate(aggregateId: string): (r: seq<DomainEvent>)
      reads this
      ensures IsBlank(aggregateId) || aggregateId !in streams ==> r == []
    {
      EventsForAggregateFrom(aggregateId, 0)
    }

    /** Since versions are gapless, the events above `fromVersion` are the stream from
        position `fromVersion` on (all of it for a negative version, none once past
        the end), and event k of the answer has version `fromVersion + k + 1`. */
    lemma EventsAfterVersion(aggregateId: string, fromVersion: int)
      requires Valid() && !IsBlank(aggregateId)
      ensures var s := Stream(aggregateId); var c := Cut(fromVersion, |s|);
        EventsForAggregateFrom(aggregateId, fromVersion) == Payloads(s[c..])
        && |EventsForAggregateFrom(aggregateId, fromVersion)| == |s| - c
        && forall k :: c <= k < |s| ==> s[k].version == k + 1 && s[k].version > fromVersion
    {
      var s := Stream(aggregateId);
      assert Gapless(s, aggregateId);
      GaplessSuffix(s, aggregateId, fromVersion);
    }

    /** The one-argument overload returns the whole stream's payloads. */
    lemma WholeStream(aggregateId: string)
      requires Valid() && !IsBlank(aggregateId)
      ensures EventsForAggregate(aggregateId) == Payloads(Stream(aggregateId))
    {
      EventsAfterVersion(aggregateId, 0);
      assert Stream(aggregateId)[0..] == Stream(aggregateId);
    }

    /** `getAllEvents`: every stored event's payload, by global sequence number. */
    function AllEvents(): (r: seq<DomainEvent>)
      reads this
      ensures |r| == |globalEventLog|
      ensures multiset(r) == multiset(Payloads(SortBy(globalEventLog, Sequence)))
    {
      Payloads(SortBy(globalEventLog, Sequence))
    }

    /** The log is already in sequence order, so the sort in `getAllEvents` keeps it. */
    lemma AllEventsInStorageOrder()
      requires Valid()
      ensures AllEvents() == Payloads(globalEventLog)
    {
      SortBySorted(globalEventLog, Sequence);
    }

    /** `getEventsByType`: the payloads of the given kind, by global sequence number;
        a `null` kind gives nothing. */
    function EventsByType(kind: Option<string>): (r: seq<DomainEvent>)
      reads this
      ensures kind.None? ==> r == []
      ensures |r| <= |globalEventLog|
    {
      if kind.None? then []
      else Payloads(SortBy(Filter(globalEventLog, OfKind(kind.value)), Sequence))
    }

    /** Under the invariant, `getEventsByType` lists exactly the log's events of that
        kind in storage order, and each of them is of that kind. */
    lemma EventsByTypeInStorageOrder(kind: string)
      requires Valid()
      ensures EventsByType(Some(kind)) == Payloads(Filter(globalEventLog, OfKind(kind)))
      ensures forall k :: 0 <= k < |EventsByType(Some(kind))| ==> EventsByType(Some(kind))[k].SimpleName() == kind
    {
      var kept := Filter(globalEventLog, OfKind(kind));
      FilterIncreasing(globalEventLog, OfKind(kind), Sequence);
      SortBySorted(kept, Sequence);
      forall k | 0 <= k < |kept| ensures kept[k].domainEvent.SimpleName() == kind {
        assert OfKind(kind)(kept[k]);
      }
    }

    /** `getEventsByTimeRange`: both bounds are required and must be in order; the
        range includes both ends. */
    function EventsByTimeRange(from: Option<int>, to: Option<int>): (r: Result<seq<DomainEvent>, Error>)
      reads this
      ensures r.Err? <==> from.None? || to.None? || from.value > to.value
      ensures from.None? || to.None? ==> r == Err(IllegalArgument(MissingTimeRange))
      ensures from.Some? && to.Some? && from.value > to.value ==> r == Err(IllegalArgument(InvertedTimeRange))
      ensures r.Ok? ==> r.value == Payloads(WithinByTime(globalEventLog, from.value, to.value))
    {
      if from.None? || to.None? then Err(IllegalArgument(MissingTimeRange))
      else if from.value > to.value then Err(IllegalArgument(InvertedTimeRange))
      else Ok(Payloads(WithinByTime(globalEventLog, from.value, to.value)))
    }

    /** `getCurrentVersion`: 0 for a blank id, else the stream's length. */
    function CurrentVersion(aggregateId: string): (r: nat)
      reads this
      ensures IsBlank(aggregateId) || aggregateId !in streams ==> r == 0
    {
      if IsBlank(aggregateId) then 0 else |Stream(aggregateId)|
    }

    /** The current version is the version of the stream's last event, and no event
        has a larger one. */
    lemma CurrentVersionIsLastVersion(aggregateId: string)
      requires Valid() && !IsBlank(aggregateId)
      ensures CurrentVersion(aggregateId) > 0 ==>
        Stream(aggregateId)[CurrentVersion(aggregateId) - 1].version == CurrentVersion(aggregateId)
      ensures forall e :: e in Stream(aggregateId) ==> 1 <= e.version <= CurrentVersion(aggregateId)
    {
    }

    /** `getTotalEventCount`. */
    function TotalEventCount(): (r: nat)
      reads this
      ensures r == |globalEventLog|
    {
      |globalEventLog|
    }

    /** Sequence numbers are never reused: the log holds at most as many events as
        sequence numbers were handed out. */
    lemma TotalEventCountAtMostSequence()
      requires Valid()
      ensures TotalEventCount() <= globalSequence
    {
      if globalEventLog != [] {
        IncreasingFromOne(globalEventLog, |globalEventLog| - 1);
      }
    }

    /** `clear`: both indexes emptied and the sequence reset. */
    method Clear()
      modifies this
      ensures Valid()
      ensures streams == map[] && globalEventLog == [] && globalSequence == 0
    {
      streams := map[];
      globalEventLog := [];
      globalSequence := 0;
    }

    /** `clearAggregate`: a blank id does nothing; otherwise the aggregate's stream is
        removed and `removeAll` drops the events equal to one of its events from the
        log, which under the invariant are exactly the aggregate's events. */
    method ClearAggregate(aggregateId: string)
      requires Valid()
      modifies this
      ensures Valid()
      ensures IsBlank(aggregateId) ==> streams == old(streams) && globalEventLog == old(globalEventLog)
      ensures !IsBlank(aggregateId) ==>
        (streams == old(streams) - {aggregateId}
         && globalEventLog == Filter(old(globalEventLog), OtherAggregate(aggregateId)))
      ensures globalSequence == old(globalSequence)
    {
      if IsBlank(aggregateId) {
        return;
      }
      ClearKeepsValid(streams, globalEventLog, globalSequence, aggregateId);
      if aggregateId in streams {
        var removed := streams[aggregateId];
        streams := streams - {aggregateId};
        globalEventLog := Filter(globalEventLog, NotAmong(removed));
      }
    }
  }

  /** The test `getEventsByType` applies, on the event's kind tag. */
  function OfKind(kind: string): StoredEvent -> bool {
    (e: StoredEvent) => e.domainEvent.SimpleName() == kind
  }

  /** The test `getEventsByTimeRange` applies: neither before `from` nor after `to`. */
  function Within(from: int, to: int): StoredEvent -> bool {
    (e: StoredEvent) => from <= e.timestamp <= to
  }

  /** The test `removeAll(removed)` keeps: equal to no removed event. */
  function NotAmong(removed: seq<StoredEvent>): StoredEvent -> bool {
    (e: StoredEvent) => e !in removed
  }

  /** Events of another aggregate than `id`. */
  function OtherAggregate(id: string): StoredEvent -> bool {
    (e: StoredEvent) => e.aggregateId != id
  }

  /** Positive, strictly increasing sequence numbers are at least their position + 1. */
  lemma {:induction false} IncreasingFromOne(log: seq<StoredEvent>, i: nat)
    requires i < |log|
    requires forall j | 0 <= j < |log| :: 0 < log[j].globalSequence
    requires forall j, k | 0 <= j < k < |log| :: log[j].globalSequence < log[k].globalSequence
    ensures log[i].globalSequence >= i + 1
  {
    if i > 0 {
      IncreasingFromOne(log, i - 1);
    }
  }

  /** Under the invariant, the events `removeAll` drops are exactly those of the
      aggregate. */
  lemma RemoveAllIsOtherAggregates(streams: map<string, seq<StoredEvent>>, log: seq<StoredEvent>,
                                   sequence: int, id: string)
    requires ValidState(streams, log, sequence) && id in streams
    ensures Filter(log, NotAmong(streams[id])) == Filter(log, OtherAggregate(id))
  {
    forall e | e in log ensures NotAmong(streams[id])(e) == OtherAggregate(id)(e) {
      if e in streams[id] {
        var k :| 0 <= k < |streams[id]| && streams[id][k] == e;
      }
    }
    FilterAgree(log, NotAmong(streams[id]), OtherAggregate(id));
  }

  /** An aggregate without a stream has no event in the log. */
  lemma NoEventsOfAbsentAggregate(streams: map<string, seq<StoredEvent>>, log: seq<StoredEvent>,
                                  sequence: int, id: string)
    requires ValidState(streams, log, sequence) && id !in streams
    ensures Filter(log, OtherAggregate(id)) == log
  {
    FilterAll(log, OtherAggregate(id));
  }

  /** What `clearAggregate` leaves, whether or not the aggregate has a stream. */
  lemma ClearKeepsValid(streams: map<string, seq<StoredEvent>>, log: seq<StoredEvent>,
                        sequence: int, id: string)
    requires ValidState(streams, log, sequence)
    ensures ValidState(streams - {id}, Filter(log, OtherAggregate(id)), sequence)
    ensures id in streams ==> Filter(log, NotAmong(streams[id])) == Filter(log, OtherAggregate(id))
    ensures id !in streams ==> Filter(log, OtherAggregate(id)) == log && streams - {id} == streams
  {
    RemovalKeepsValid(streams, log, sequence, id);
    if id in streams {
      RemoveAllIsOtherAggregates(streams, log, sequence, id);
    } else {
      NoEventsOfAbsentAggregate(streams, log, sequence, id);
    }
  }

  /** Removing an aggregate's stream and its events from the log keeps the invariant. */
  lemma RemovalKeepsValid(streams: map<string, seq<StoredEvent>>, log: seq<StoredEvent>,
                          sequence: int, id: string)
    requires ValidState(streams, log, sequence)
    ensures ValidState(streams - {id}, Filter(log, OtherAggregate(id)), sequence)
  {
    var log' := Filter(log, OtherAggregate(id));
    FilterIncreasing(log, OtherAggregate(id), Sequence);
    forall i | 0 <= i < |log'| ensures 0 < log'[i].globalSequence <= sequence {
      assert log'[i] in log;
      var j :| 0 <= j < |log| && log[j] == log'[i];
    }
    forall id', e | id' in streams - {id} && e in (streams - {id})[id'] ensures e in log' {
      var k :| 0 <= k < |streams[id']| && streams[id'][k] == e;
    }
  }

  /** The store's invariant: streams are keyed by non-blank ids and gapless;
      sequence numbers in the log are positive, increasing and handed out already;
      and the log holds exactly the events of the streams. */
  ghost predicate ValidState(streams: map<string, seq<StoredEvent>>, log: seq<StoredEvent>, sequence: int) {
    sequence >= 0
    && (forall id | id in streams :: !IsBlank(id) && Gapless(streams[id], id))
    && (forall i | 0 <= i < |log| :: 0 < log[i].globalSequence <= sequence)
    && (forall i, j | 0 <= i < j < |log| :: log[i].globalSequence < log[j].globalSequence)
    && (forall id, e | id in streams && e in streams[id] :: e in log)
    && (forall e | e in log :: e.aggregateId in streams && e in streams[e.aggregateId])
  }

  /** What the loop of `saveEvents` leaves: the stream, first made present, then
      extended by the stamped events before the first unnamed one, and the sequence
      advanced past them and, on a failure, past the rejected event too. */
  lemma AppendPrefixKeepsValid(streams: map<string, seq<StoredEvent>>, log: seq<StoredEvent>, sequence: int,
                               id: string, stream: seq<StoredEvent>, events: seq<DomainEvent>)
    requires ValidState(streams, log, sequence) && !IsBlank(id)
    requires stream == (if id in streams then streams[id] else [])
    ensures var n := FirstUnnamed(events);
      var appended := Stamped(id, events[..n], |stream|, sequence);
      streams[id := stream][id := stream + appended] == streams[id := stream + appended]
      && ValidState(streams[id := stream + appended], log + appended,
                    sequence + n + (if n == |events| then 0 else 1))
  {
    var n := FirstUnnamed(events);
    UpdateTwice(streams, id, stream, stream + Stamped(id, events[..n], |stream|, sequence));
    AppendKeepsValid(streams, log, sequence, id, stream, events[..n],
                     sequence + n + (if n == |events| then 0 else 1));
  }

  /** Appending stamped events at the end of a stream keeps the invariant. */
  lemma AppendKeepsValid(streams: map<string, seq<StoredEvent>>, log: seq<StoredEvent>, sequence: int,
                         id: string, stream: seq<StoredEvent>, events: seq<DomainEvent>, newSequence: int)
    requires ValidState(streams, log, sequence) && !IsBlank(id)
    requires stream == (if id in streams then streams[id] else [])
    requires newSequence >= sequence + |events|
    ensures var appended := Stamped(id, events, |stream|, sequence);
            ValidState(streams[id := stream + appended], log + appended, newSequence)
  {
    var appended := Stamped(id, events, |stream|, sequence);
    AppendGapless(stream, appended, id);
    AppendSequences(log, appended, sequence, newSequence);
    AppendMembership(streams, log, id, stream, appended, streams[id := stream + appended]);
  }

  lemma AppendGapless(stream: seq<StoredEvent>, appended: seq<StoredEvent>, id: string)
    requires Gapless(stream, id)
    requires forall k :: 0 <= k < |appended| ==> appended[k].version == |stream| + k + 1 && appended[k].aggregateId == id
    ensures Gapless(stream + appended, id)
  {
  }

  lemma AppendSequences(log: seq<StoredEvent>, appended: seq<StoredEvent>, sequence: int, newSequence: int)
    requires forall i | 0 <= i < |log| :: 0 < log[i].globalSequence <= sequence
    requires forall i, j | 0 <= i < j < |log| :: log[i].globalSequence < log[j].globalSequence
    requires forall k :: 0 <= k < |appended| ==> appended[k].globalSequence == sequence + k + 1
    requires newSequence >= sequence + |appended| && sequence >= 0
    ensures forall i | 0 <= i < |log + appended| :: 0 < (log + appended)[i].globalSequence <= newSequence
    ensures forall i, j | 0 <= i < j < |log + appended| ::
              (log + appended)[i].globalSequence < (log + appended)[j].globalSequence
  {
  }

  lemma AppendMembership(streams: map<string, seq<StoredEvent>>, log: seq<StoredEvent>,
                         id: string, stream: seq<StoredEvent>, appended: seq<StoredEvent>,
                         streams': map<string, seq<StoredEvent>>)
    requires stream == (if id in streams then streams[id] else [])
    requires streams' == streams[id := stream + appended]
    requires forall id', e | id' in streams && e in streams[id'] :: e in log
    requires forall e | e in log :: e.aggregateId in streams && e in streams[e.aggregateId]
    requires forall e | e in appended :: e.aggregateId == id
    ensures forall id', e | id' in streams' && e in streams'[id'] :: e in log + appended
    ensures forall e | e in log + appended :: e.aggregateId in streams' && e in streams'[e.aggregateId]
  {
    forall id', e | id' in streams' && e in streams'[id'] ensures e in log + appended {
      if id' != id || e !in appended {
        assert e in streams[id'];
      }
    }
    forall e | e in log + appended ensures e.aggregateId in streams' && e in streams'[e.aggregateId] {
      if e in log && e.aggregateId == id {
        assert e in stream;
      }
    }
  }

  /** Two events for one aggregate, the second of an anonymous class. */
  function MixedBatch(): (r: seq<DomainEvent>)
    ensures |r| == 2 && !IsBlank(r[0].SimpleName()) && IsBlank(r[1].SimpleName())
  {
    var r := [Foreign("e-1", 0, "BudgetExceededEvent"), Foreign("e-2", 0, "")];
    assert r[0].SimpleName()[0] == 'B';
    r
  }

  /** As written, saving the mixed batch to a new stream fails, yet leaves its first
      event stored at version 1. */
  method PartialWriteWitness() returns (r: Outcome<Error>, version: nat, count: nat)
    ensures r == Fail(IllegalArgument(BlankEventType))
    ensures version == 1 && count == 1
  {
    var store := new InMemoryEventStore();
    assert "account-1"[0] == 'a';
    FirstUnnamedAt(MixedBatch(), 1);
    r := store.SaveEvents("account-1", MixedBatch(), 0);
    version := store.CurrentVersion("account-1");
    count := store.TotalEventCount();
  }

  /** With the up-front check, the same call fails and stores nothing. */
  method AtomicWriteWitness() returns (r: Outcome<Error>, version: nat, count: nat)
    ensures r.Fail? && version == 0 && count == 0
  {
    var store := new InMemoryEventStore();
    assert "account-1"[0] == 'a';
    r := store.SaveEventsAtomic("account-1", MixedBatch(), 0);
    version := store.CurrentVersion("account-1");
    count := store.TotalEventCount();
  }
}
