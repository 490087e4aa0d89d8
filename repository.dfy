/** The event-sourced account repository: accounts are loaded by replaying their
    stored events (from the latest snapshot on), and saved by appending their
    uncommitted events under the optimistic version check, with a snapshot taken
    now and then. */
module AccountRepositories {
  import opened Wrappers
  import opened Errors
  import opened Text
  import opened Sequences
  import opened UserIds
  import opened DomainEvents
  import opened StoredEvents
  import opened Snapshots
  import opened EventStores
  import opened SnapshotStores
  import opened Accounts
  import opened Monies

  /** `SNAPSHOT_THRESHOLD`: the number of events after which a new snapshot is due. */
  const SnapshotThreshold: int := 50
  const NullAccount: string := "계좌는 null일 수 없습니다"
  const RemovalReason: string := "계좌 삭제 요청"

  /** What `findById` replays: the state it starts from (the snapshot's, or that of
      a new account), the version the snapshot was taken at (0 without one), and the
      events stored after that version. */
  datatype LoadPlan = LoadPlan(start: AccountState, fromVersion: int, tail: seq<DomainEvent>)

  /** Carrying out a load plan: no account without one, the exception the replay
      stopped at, or the view at the snapshot's version plus the events applied. */
  function Resumed(accountId: string, plan: Option<LoadPlan>): Result<Option<AccountView>, Error> {
    match plan
    case None => Ok(None)
    case Some(p) => Viewed(accountId, p.fromVersion, Replay(p.start, p.tail))
  }

  /** The outcome of a replay begun at `fromVersion`: its exception, or the view. */
  function Viewed(accountId: string, fromVersion: int, replayed: Replayed): Result<Option<AccountView>, Error> {
    if replayed.error.Some? then Err(replayed.error.value)
    else Ok(Some(AccountView(accountId, replayed.state, fromVersion + replayed.applied)))
  }

  /** A replay begun at `fromVersion` that, shifted by it, is a full replay of `n`
      events (clean exactly when all `n` apply) is viewed as that full replay. */
  lemma ShiftedView(accountId: string, fromVersion: nat, replayed: Replayed, full: Replayed, n: nat)
    requires Shift(replayed, fromVersion) == full
    requires full.error.None? <==> full.applied == n
    ensures Viewed(accountId, fromVersion, replayed) ==
      if full.error.Some? then Err(full.error.value) else Ok(Some(AccountView(accountId, full.state, n)))
  {
  }

  /** What a loaded account holds: its id, its state and its version. */
  datatype AccountView = AccountView(id: string, state: AccountState, version: int)

  /** The account object holds the view, with nothing pending. */
  predicate Shows(account: Account, view: AccountView)
    reads account
  {
    account.id == view.id && account.State() == view.state && account.version == view.version &&
    account.uncommittedEvents == []
  }

  /** The filter of `findAllActive` (`activeOnly`), or none (`findByUserId`). */
  predicate Kept(view: AccountView, activeOnly: bool) {
    !activeOnly || view.state.status == Some(Active)
  }

  /** The snapshot policy of `considerCreatingSnapshot`: none yet, or the current
      version at least `SNAPSHOT_THRESHOLD` past the latest one. */
  predicate SnapshotDue(latest: Option<Snapshot<AccountSnapshot>>, currentVersion: int) {
    latest.None? || currentVersion - latest.value.version >= SnapshotThreshold
  }

  /** The test `findByIdAtTime` filters with: not after `pointInTime`. */
  function OccurredBy(pointInTime: int): DomainEvent -> bool {
    (e: DomainEvent) => e.occurredOn <= pointInTime
  }

  /** Some event of `events` opens the account `id` for a user equal to `userId`. */
  predicate OpenedBy(events: seq<DomainEvent>, id: string, userId: Option<UserId>) {
    exists e :: e in events && e.AccountOpened? && e.accountId == id && e.owner.Equals(userId)
  }

  /** Accounts whose views were gathered from the owner's opened ids, one per view and
      in order, were opened by that owner. */
  lemma OpenedByOwner(events: seq<DomainEvent>, userId: Option<UserId>, views: seq<AccountView>, accounts: seq<Account>)
    requires forall v :: v in views ==> v.id in OpenedIds(events, Some(userId))
    requires |accounts| == |views| && forall k :: 0 <= k < |accounts| ==> accounts[k].id == views[k].id
    ensures forall k :: 0 <= k < |accounts| ==> OpenedBy(events, accounts[k].id, userId)
  {
    forall k | 0 <= k < |accounts|
      ensures OpenedBy(events, accounts[k].id, userId)
    {
      assert views[k] in views;
      assert accounts[k].id in OpenedIds(events, Some(userId));
    }
  }

  /** The ids of the accounts opened in `events`, in order; with `owner` given, only
      those whose opening event names an equal user. */
  function OpenedIds(events: seq<DomainEvent>, owner: Option<Option<UserId>>): (r: seq<string>)
    ensures |r| <= |events|
    ensures forall id :: id in r <==> exists e :: e in events && e.AccountOpened? && e.accountId == id
                                                 && (owner.Some? ==> e.owner.Equals(owner.value))
  {
    if events == [] then []
    else
      var e := events[0];
      var rest := OpenedIds(events[1..], owner);
      assert forall x :: x in events[1..] ==> x in events;
      assert forall x :: x in events ==> x == e || x in events[1..];
      if e.AccountOpened? && (owner.Some? ==> e.owner.Equals(owner.value)) then [e.accountId] + rest
      else rest
  }

  /** Resuming a replay from a state that replaying the first `v` events reached
      gives the same outcome as replaying everything. */
  lemma ResumeFromSnapshot(h: seq<DomainEvent>, v: nat, st: AccountState)
    requires v <= |h|
    requires Replay(Unopened, h[..v]) == Replayed(st, v, None)
    ensures Replay(Unopened, h) == Shift(Replay(st, h[v..]), v)
  {
    ReplayConcat(Unopened, h[..v], h[v..]);
    assert h[..v] + h[v..] == h;
  }

  lemma PayloadsAppend(s: seq<StoredEvent>, t: seq<StoredEvent>)
    ensures Payloads(s + t) == Payloads(s) + Payloads(t)
  {
  }

  lemma PayloadsSlices(s: seq<StoredEvent>, v: nat)
    requires v <= |s|
    ensures Payloads(s[v..]) == Payloads(s)[v..]
    ensures Payloads(s[..v]) == Payloads(s)[..v]
  {
  }

  /** The payloads of a stamped append are the appended events. */
  lemma PayloadsStamped(id: string, events: seq<DomainEvent>, current: int, lastSequence: int)
    ensures Payloads(Stamped(id, events, current, lastSequence)) == events
  {
  }

  /** Every event of a replay that did not stop is one of the account's four kinds,
      whose class names are not blank. */
  lemma {:induction false} ReplayedEventsNamed(s: AccountState, h: seq<DomainEvent>)
    requires Replay(s, h).error.None?
    ensures FirstUnnamed(h) == |h|
    decreases |h|
  {
    if h != [] {
      var next := Evolve(s, h[0]).value;
      assert Replay(s, h) == Shift(Replay(next, h[1..]), 1);
      ReplayedEventsNamed(next, h[1..]);
      assert h[0].SimpleName()[0] != ' ' && h[0].SimpleName()[0] > ' ';
    }
  }

  /** A replay that ran through `a + b` ran through `a`. */
  lemma {:induction false} ReplayPrefixClean(s: AccountState, a: seq<DomainEvent>, b: seq<DomainEvent>)
    requires Replay(s, a + b).error.None?
    ensures Replay(s, a).error.None?
    decreases |a|
  {
    if a != [] {
      assert (a + b)[0] == a[0];
      assert (a + b)[1..] == a[1..] + b;
      ReplayPrefixClean(Evolve(s, a[0]).value, a[1..], b);
    }
  }

  /** Events that replay cleanly after a stored history all have class names, so
      appending them cannot fail the `StoredEvent` check. */
  lemma SyncedEventsNamed(stored: seq<DomainEvent>, pending: seq<DomainEvent>)
    requires Replay(Unopened, stored + pending).error.None?
    ensures FirstUnnamed(pending) == |pending|
  {
    ReplayPrefixClean(Unopened, stored, pending);
    ReplayConcat(Unopened, stored, pending);
    ReplayedEventsNamed(Replay(Unopened, stored).state, pending);
  }

  /** A due snapshot is never trimmed away at once unless something at least as new
      is kept: after the save, some kept snapshot is at least as new as it. */
  lemma SavedOrNewerKept(existing: seq<Snapshot<AccountSnapshot>>, s: Snapshot<AccountSnapshot>)
    ensures exists y :: y in Trimmed(Merged(existing, s), DefaultKeepCount) && y.version >= s.version
  {
    var m := Merged(existing, s);
    var r := Trimmed(m, DefaultKeepCount);
    MergedMembers(existing, s);
    SaveKeepsHighest(existing, s);
    assert |r| >= 1;
    if s !in r {
      assert r[0] in r;
    }
  }

  /** Saving a snapshot newer than every stored one keeps it, and every other kept
      snapshot is older. */
  lemma NewestKept(existing: seq<Snapshot<AccountSnapshot>>, s: Snapshot<AccountSnapshot>)
    requires forall x :: x in existing ==> x.version <= s.version
    ensures s in Trimmed(Merged(existing, s), DefaultKeepCount)
    ensures forall y :: y in Trimmed(Merged(existing, s), DefaultKeepCount) ==> y == s || y.version < s.version
  {
    SaveKeepsHighest(existing, s);
    SavedOrNewerKept(existing, s);
  }

  /** A prefix of a stream keeps its payload prefixes when more is appended. */
  lemma PrefixPayloads(stream: seq<StoredEvent>, appended: seq<StoredEvent>, v: nat)
    requires v <= |stream|
    ensures Payloads(stream + appended)[..v] == Payloads(stream)[..v]
  {
    PayloadsAppend(stream, appended);
    assert (Payloads(stream) + Payloads(appended))[..v] == Payloads(stream)[..v];
  }

  /** A snapshot agrees with a stream: it was taken at a version within the stream,
      and replaying the stream up to that version reaches the snapshot's state. */
  ghost predicate Agrees(latest: Option<Snapshot<AccountSnapshot>>, stream: seq<StoredEvent>) {
    latest.Some? ==>
      0 <= latest.value.version <= |stream| &&
      Replay(Unopened, Payloads(stream)[..latest.value.version])
        == Replayed(latest.value.data.State(), latest.value.version, None)
  }

  /** An account (its version, state and pending events) is in step with a stream: it
      expects the stream's length, and replaying the stream and then its pending
      events reproduces its state. */
  ghost predicate Synced(version: int, state: AccountState, pending: seq<DomainEvent>, stream: seq<StoredEvent>) {
    version == |stream| &&
    Replay(Unopened, Payloads(stream) + pending) == Replayed(state, |stream| + |pending|, None)
  }

  /** Committing the pending events of an account in step with its stream: they all
      have class names, the account with nothing pending is in step with the longer
      stream, and a snapshot that agreed with the stream still agrees. */
  lemma CommitKeepsSync(id: string, current: seq<StoredEvent>, pending: seq<DomainEvent>, lastSequence: int,
                        state: AccountState, latest: Option<Snapshot<AccountSnapshot>>)
    requires Synced(|current|, state, pending, current) && Agrees(latest, current)
    ensures FirstUnnamed(pending) == |pending|
    ensures Synced(|current| + |pending|, state, [], current + Stamped(id, pending, |current|, lastSequence))
    ensures Agrees(latest, current + Stamped(id, pending, |current|, lastSequence))
  {
    SyncedEventsNamed(Payloads(current), pending);
    SyncedAfterAppend(id, current, pending, lastSequence, state);
    AgreesAfterAppend(latest, current, Stamped(id, pending, |current|, lastSequence));
  }

  lemma SyncedAfterAppend(id: string, current: seq<StoredEvent>, pending: seq<DomainEvent>, lastSequence: int,
                          state: AccountState)
    requires Synced(|current|, state, pending, current)
    ensures Synced(|current| + |pending|, state, [], current + Stamped(id, pending, |current|, lastSequence))
  {
    var appended := Stamped(id, pending, |current|, lastSequence);
    PayloadsAppend(current, appended);
    PayloadsStamped(id, pending, |current|, lastSequence);
    assert Payloads(current + appended) + [] == Payloads(current) + pending;
  }

  lemma AgreesAfterAppend(latest: Option<Snapshot<AccountSnapshot>>, current: seq<StoredEvent>,
                          appended: seq<StoredEvent>)
    requires Agrees(latest, current)
    ensures Agrees(latest, current + appended)
  {
    if latest.Some? {
      PrefixPayloads(current, appended, latest.value.version);
    }
  }

  /** After a due snapshot is saved, the latest kept one is at least as new; and when
      every stored snapshot was at most as new, the latest is the saved one. */
  lemma SavedSnapshotIsLatest(existing: seq<Snapshot<AccountSnapshot>>, s: Snapshot<AccountSnapshot>)
    ensures Trimmed(Merged(existing, s), DefaultKeepCount) != []
    ensures MaxByVersion(Trimmed(Merged(existing, s), DefaultKeepCount)).version >= s.version
    ensures (forall x :: x in existing ==> x.version <= s.version) ==>
      MaxByVersion(Trimmed(Merged(existing, s), DefaultKeepCount)) == s
  {
    SavedOrNewerKept(existing, s);
    if forall x :: x in existing ==> x.version <= s.version {
      NewestKept(existing, s);
    }
  }

  /** A snapshot of an account in step with its stream, with nothing pending, taken
      at the account's version, agrees with the stream. */
  lemma CurrentSnapshotAgrees(s: Snapshot<AccountSnapshot>, stream: seq<StoredEvent>, state: AccountState)
    requires Synced(s.version, state, [], stream) && s.data.State() == state
    ensures Agrees(Some(s), stream)
  {
    assert Payloads(stream) + [] == Payloads(stream);
    assert Payloads(stream)[..|stream|] == Payloads(stream);
  }

  /** The loads of `findByUserId` and `findAllActive` gathered in order: the first
      exception ends it all, ids without an account are skipped, and the views that
      pass the filter are kept. */
  function Collect(loads: seq<Result<Option<AccountView>, Error>>, activeOnly: bool)
    : (r: Result<seq<AccountView>, Error>)
    ensures r.Ok? ==> |r.value| <= |loads|
  {
    if loads == [] then Ok([])
    else
      match Collect(loads[..|loads| - 1], activeOnly)
      case Err(e) => Err(e)
      case Ok(views) =>
        match loads[|loads| - 1]
        case Err(e) => Err(e)
        case Ok(None) => Ok(views)
        case Ok(Some(v)) => if Kept(v, activeOnly) then Ok(views + [v]) else Ok(views)
  }

  /** Gathering succeeds exactly when every load does. */
  lemma {:induction false} CollectOk(loads: seq<Result<Option<AccountView>, Error>>, activeOnly: bool)
    ensures Collect(loads, activeOnly).Ok? <==> forall k :: 0 <= k < |loads| ==> loads[k].Ok?
  {
    if loads != [] {
      var init := loads[..|loads| - 1];
      CollectOk(init, activeOnly);
      assert forall k :: 0 <= k < |init| ==> init[k] == loads[k];
    }
  }

  /** Every gathered view is a load's account and passes the filter. */
  lemma {:induction false} CollectSound(loads: seq<Result<Option<AccountView>, Error>>, activeOnly: bool)
    requires Collect(loads, activeOnly).Ok?
    ensures forall v :: v in Collect(loads, activeOnly).value ==> Ok(Some(v)) in loads && Kept(v, activeOnly)
  {
    if loads != [] {
      var init := loads[..|loads| - 1];
      CollectSound(init, activeOnly);
      assert forall x :: x in init ==> x in loads;
    }
  }

  /** Every load's account that passes the filter is gathered. */
  lemma {:induction false} CollectComplete(loads: seq<Result<Option<AccountView>, Error>>, activeOnly: bool)
    requires Collect(loads, activeOnly).Ok?
    ensures forall k :: (0 <= k < |loads| && loads[k].Ok? && loads[k].value.Some? &&
                         Kept(loads[k].value.value, activeOnly)) ==>
                          loads[k].value.value in Collect(loads, activeOnly).value
  {
    if loads != [] {
      var init := loads[..|loads| - 1];
      CollectComplete(init, activeOnly);
      assert forall k :: 0 <= k < |init| ==> init[k] == loads[k];
    }
  }

  /** Gathering one more load. */
  lemma CollectStep(loads: seq<Result<Option<AccountView>, Error>>, i: nat, activeOnly: bool)
    requires i < |loads|
    ensures Collect(loads[..i], activeOnly).Err? ==> Collect(loads[..i + 1], activeOnly) == Collect(loads[..i], activeOnly)
    ensures Collect(loads[..i], activeOnly).Ok? && loads[i].Err? ==> Collect(loads[..i + 1], activeOnly) == Err(loads[i].error)
    ensures Collect(loads[..i], activeOnly).Ok? && loads[i].Ok? ==>
      Collect(loads[..i + 1], activeOnly) ==
        if loads[i].value.Some? && Kept(loads[i].value.value, activeOnly)
        then Ok(Collect(loads[..i], activeOnly).value + [loads[i].value.value])
        else Collect(loads[..i], activeOnly)
  {
    assert loads[..i + 1][..i] == loads[..i];
  }

  /** Once a prefix of the loads fails, gathering them all fails with the same
      exception. */
  lemma {:induction false} CollectFirstError(loads: seq<Result<Option<AccountView>, Error>>, i: nat, activeOnly: bool)
    requires i <= |loads| && Collect(loads[..i], activeOnly).Err?
    ensures Collect(loads, activeOnly) == Collect(loads[..i], activeOnly)
    decreases |loads|
  {
    if i == |loads| {
      assert loads[..i] == loads;
    } else {
      var init := loads[..|loads| - 1];
      assert init[..i] == loads[..i];
      CollectFirstError(init, i, activeOnly);
    }
  }

  /** Closing an account in step with a stream keeps it in step, with the closing
      event pending. */
  lemma CloseKeepsSync(version: int, state: AccountState, pending: seq<DomainEvent>, stream: seq<StoredEvent>,
                       closed: DomainEvent)
    requires Synced(version, state, pending, stream) && closed.AccountClosed?
    ensures Synced(version, state.(status := Some(Closed)), pending + [closed], stream)
    ensures FirstUnnamed(pending + [closed]) == |pending + [closed]|
  {
    ReplayAppend(Unopened, Payloads(stream) + pending, closed);
    assert Payloads(stream) + pending + [closed] == Payloads(stream) + (pending + [closed]);
    SyncedEventsNamed(Payloads(stream), pending + [closed]);
  }

  class EventSourcedAccountRepository {
    const eventStore: InMemoryEventStore
    const snapshotStore: InMemorySnapshotStore<AccountSnapshot>

    ghost predicate Valid()
      reads eventStore, snapshotStore
    {
      eventStore.Valid() && snapshotStore.Valid()
    }

    constructor (eventStore: InMemoryEventStore, snapshotStore: InMemorySnapshotStore<AccountSnapshot>)
      ensures this.eventStore == eventStore && this.snapshotStore == snapshotStore
    {
      this.eventStore := eventStore;
      this.snapshotStore := snapshotStore;
    }

    /** The replay `findById` performs, or none when it returns empty without one:
        for a blank id, and when there is neither a snapshot nor an event. */
    function Plan(accountId: string): (r: Option<LoadPlan>)
      reads eventStore, snapshotStore
      ensures r.None? <==>
        (IsBlank(accountId) ||
         (snapshotStore.GetSnapshot(accountId).None? && eventStore.EventsForAggregateFrom(accountId, 0) == []))
      ensures r.Some? && snapshotStore.GetSnapshot(accountId).None? ==>
        r.value == LoadPlan(Unopened, 0, eventStore.EventsForAggregate(accountId))
      ensures r.Some? && snapshotStore.GetSnapshot(accountId).Some? ==>
        var snapshot := snapshotStore.GetSnapshot(accountId).value;
        r.value == LoadPlan(snapshot.data.State(), snapshot.version,
                            eventStore.EventsForAggregateFrom(accountId, snapshot.version))
    {
      if IsBlank(accountId) then None
      else
        var snapshot := snapshotStore.GetSnapshot(accountId);
        var fromVersion := if snapshot.Some? then snapshot.value.version else 0;
        var tail := eventStore.EventsForAggregateFrom(accountId, fromVersion);
        if tail == [] && snapshot.None? then None
        else Some(LoadPlan(if snapshot.Some? then snapshot.value.data.State() else Unopened,
                           fromVersion, tail))
    }

    /** `findById` returns empty exactly for a blank id and for an aggregate with
        neither a snapshot nor a stored event. */
    lemma NothingStored(accountId: string)
      requires Valid()
      ensures Plan(accountId).None? <==>
        (IsBlank(accountId) || (snapshotStore.Existing(accountId) == [] && eventStore.Stream(accountId) == []))
    {
      if !IsBlank(accountId) {
        eventStore.WholeStream(accountId);
      }
    }

    /** The latest snapshot, if any, holds the state that replaying the stream up to
        its version gives. */
    ghost predicate SnapshotAgrees(accountId: string)
      reads eventStore, snapshotStore
    {
      Agrees(snapshotStore.GetSnapshot(accountId), eventStore.Stream(accountId))
    }

    /** Snapshot and replay agree: resuming from an agreeing snapshot, with the
        snapshot's version added back, is replaying the account's whole history. The
        as-written load leaves out that version. */
    lemma ResumedLoadIsFullReplay(accountId: string)
      requires Valid() && Plan(accountId).Some? && SnapshotAgrees(accountId)
      ensures var plan := Plan(accountId).value;
        Shift(Replay(plan.start, plan.tail), plan.fromVersion) == Replay(Unopened, GetAccountHistory(accountId))
    {
      var stream := eventStore.Stream(accountId);
      eventStore.WholeStream(accountId);
      var latest := snapshotStore.GetSnapshot(accountId);
      if latest.Some? {
        var v := latest.value.version;
        eventStore.EventsAfterVersion(accountId, v);
        PayloadsSlices(stream, v);
        ResumeFromSnapshot(Payloads(stream), v, latest.value.data.State());
      }
    }

    /** `findById` as written: the snapshot's fields are restored but its version is
        not, so the loaded version counts only the replayed tail; an event that throws
        during the replay propagates. */
    method FindById(accountId: string) returns (r: Result<Option<Account>, Error>)
      ensures Plan(accountId).None? ==> r == Ok(None)
      ensures Plan(accountId).Some? ==>
        var replayed := Replay(Plan(accountId).value.start, Plan(accountId).value.tail);
        (replayed.error.Some? ==> r == Err(replayed.error.value)) &&
        (replayed.error.None? ==>
          r.Ok? && r.value.Some? && fresh(r.value.value) && r.value.value.id == accountId &&
          r.value.value.State() == replayed.state && r.value.value.version == replayed.applied &&
          r.value.value.uncommittedEvents == [])
    {
      if IsBlank(accountId) {
        return Ok(None);
      }
      var snapshot := snapshotStore.GetSnapshot(accountId);
      var account := new Account.Restore(accountId);
      var fromVersion := 0;
      if snapshot.Some? {
        var _ := account.LoadFromSnapshot(Some(snapshot.value.data), snapshot.value.version);
        fromVersion := snapshot.value.version;
      }
      var events := eventStore.EventsForAggregateFrom(accountId, fromVersion);
      if events == [] && snapshot.None? {
        return Ok(None);
      }
      var loaded := account.LoadFromHistory(Some(events));
      if loaded.Fail? {
        return Err(loaded.error);
      }
      return Ok(Some(account));
    }

    /** `findById` with the snapshot's version restored as well: the loaded version
        is the snapshot's plus the replayed tail. */
    /** `findById` as written resumes from the latest snapshot but counts only the
        events after it: on an account the snapshot agrees with, the replay is clean
        and stops the snapshot's version short of the stream, while the corrected
        load reaches the stream's length. */
    lemma FindByIdVersionLags(accountId: string)
      requires Valid() && SnapshotAgrees(accountId) && snapshotStore.GetSnapshot(accountId).Some?
      requires Load(accountId).Ok? && Load(accountId).value.Some?
      ensures Plan(accountId).Some?
      ensures var plan := Plan(accountId).value;
        var replayed := Replay(plan.start, plan.tail);
        replayed.error.None? &&
        replayed.applied == GetEventCount(accountId) - snapshotStore.GetSnapshot(accountId).value.version &&
        Load(accountId).value.value.version == GetEventCount(accountId)
    {
      ResumedLoadIsFullReplay(accountId);
      LoadIsFullReplay(accountId);
    }

    method FindByIdCorrected(accountId: string) returns (r: Result<Option<Account>, Error>)
      ensures Load(accountId).Err? ==> r == Err(Load(accountId).error)
      ensures Load(accountId) == Ok(None) ==> r == Ok(None)
      ensures Load(accountId).Ok? && Load(accountId).value.Some? ==>
        r.Ok? && r.value.Some? && fresh(r.value.value) && Shows(r.value.value, Load(accountId).value.value)
    {
      if IsBlank(accountId) {
        return Ok(None);
      }
      var snapshot := snapshotStore.GetSnapshot(accountId);
      var account := new Account.Restore(accountId);
      var fromVersion := 0;
      if snapshot.Some? {
        var _ := account.LoadFromSnapshotWithVersion(Some(snapshot.value.data), snapshot.value.version);
        fromVersion := snapshot.value.version;
      }
      var events := eventStore.EventsForAggregateFrom(accountId, fromVersion);
      if events == [] && snapshot.None? {
        return Ok(None);
      }
      var loaded := account.LoadFromHistory(Some(events));
      if loaded.Fail? {
        return Err(loaded.error);
      }
      return Ok(Some(account));
    }

    /** The load of `findById` on values, with the snapshot's version restored: no
        account, the exception the replay stopped at, or the account's view. */
    function Load(accountId: string): (r: Result<Option<AccountView>, Error>)
      reads eventStore, snapshotStore
      ensures r.Ok? && r.value.Some? ==> r.value.value.id == accountId
    {
      Resumed(accountId, Plan(accountId))
    }

    /** With an agreeing snapshot, loading an account is replaying its whole history
        from scratch: the same exception, or the same state at the history's length. */
    lemma LoadIsFullReplay(accountId: string)
      requires Valid() && Plan(accountId).Some? && SnapshotAgrees(accountId)
      ensures var history := GetAccountHistory(accountId);
        var full := Replay(Unopened, history);
        Load(accountId) ==
          if full.error.Some? then Err(full.error.value)
          else Ok(Some(AccountView(accountId, full.state, |history|)))
    {
      ResumedLoadIsFullReplay(accountId);
      var plan := Plan(accountId).value;
      var history := GetAccountHistory(accountId);
      ShiftedView(accountId, plan.fromVersion, Replay(plan.start, plan.tail), Replay(Unopened, history), |history|);
    }

    /** The load of each id, in order. */
    function Loads(ids: seq<string>): (r: seq<Result<Option<AccountView>, Error>>)
      reads eventStore, snapshotStore
      ensures |r| == |ids| && forall k :: 0 <= k < |ids| ==> r[k] == Load(ids[k])
    {
      if ids == [] then [] else Loads(ids[..|ids| - 1]) + [Load(ids[|ids| - 1])]
    }

    /** The stream pipeline shared by `findByUserId` and `findAllActive`: `findById`
        (with the snapshot's version restored) on each id in turn, empty results
        dropped, the filter applied. */
    method LoadEach(ids: seq<string>, activeOnly: bool, ghost loads: seq<Result<Option<AccountView>, Error>>)
      returns (r: Result<seq<Account>, Error>)
      requires loads == Loads(ids)
      ensures var gathered := Collect(loads, activeOnly);
        (r.Err? <==> gathered.Err?) &&
        (r.Err? ==> r.error == gathered.error) &&
        (r.Ok? ==> |r.value| == |gathered.value| &&
                   forall k :: 0 <= k < |r.value| ==> Shows(r.value[k], gathered.value[k]))
    {
      var accounts: seq<Account> := [];
      ghost var views: seq<AccountView> := [];
      var i := 0;
      while i < |ids|
        invariant 0 <= i <= |ids|
        invariant unchanged(eventStore, snapshotStore)
        invariant Collect(loads[..i], activeOnly) == Ok(views)
        invariant |accounts| == |views|
        invariant forall k :: 0 <= k < |accounts| ==> Shows(accounts[k], views[k])
      {
        var next;
        ghost var nextViews;
        next, nextViews := GatherOne(ids[i], activeOnly, loads[i], accounts, views);
        CollectStep(loads, i, activeOnly);
        if next.Err? {
          CollectFirstError(loads, i + 1, activeOnly);
          return Err(next.error);
        }
        accounts, views := next.value, nextViews;
        i := i + 1;
      }
      assert loads[..i] == loads;
      return Ok(accounts);
    }

    /** One step of the pipeline: the account of one id, whose load is already
        known, added to those gathered so far when it exists and passes the filter. */
    method GatherOne(accountId: string, activeOnly: bool, ghost expected: Result<Option<AccountView>, Error>,
                     accounts: seq<Account>, ghost views: seq<AccountView>)
      returns (r: Result<seq<Account>, Error>, ghost views': seq<AccountView>)
      requires expected == Load(accountId) && |accounts| == |views|
      requires forall k :: 0 <= k < |accounts| ==> Shows(accounts[k], views[k])
      ensures expected.Err? ==> r == Err(expected.error)
      ensures expected.Ok? ==>
        r.Ok? && |r.value| == |views'| &&
        views' == (if expected.value.Some? && Kept(expected.value.value, activeOnly)
                   then views + [expected.value.value] else views) &&
        r.value[..|accounts|] == accounts &&
        forall k :: 0 <= k < |r.value| ==> Shows(r.value[k], views'[k])
    {
      var found := FindExpected(accountId, expected);
      if found.Err? {
        return Err(found.error), views;
      }
      r, views' := Ok(accounts), views;
      if found.value.Some? {
        var account := found.value.value;
        ghost var view := expected.value.value;
        if !activeOnly || account.status == Some(Active) {
          r, views' := Ok(accounts + [account]), views + [view];
        }
      }
    }

    /** `findById` (with the snapshot's version restored) on an id whose load is
        already known. */
    method FindExpected(accountId: string, ghost expected: Result<Option<AccountView>, Error>)
      returns (r: Result<Option<Account>, Error>)
      requires expected == Load(accountId)
      ensures expected.Err? ==> r == Err(expected.error)
      ensures expected == Ok(None) ==> r == Ok(None)
      ensures expected.Ok? && expected.value.Some? ==>
        r.Ok? && r.value.Some? && fresh(r.value.value) && Shows(r.value.value, expected.value.value)
    {
      r := FindByIdCorrected(accountId);
    }

    /** Every gathered account has one of the ids and passes the filter. */
    lemma GatheredIds(ids: seq<string>, activeOnly: bool)
      requires Collect(Loads(ids), activeOnly).Ok?
      ensures forall v :: v in Collect(Loads(ids), activeOnly).value ==> v.id in ids && Kept(v, activeOnly)
    {
      var loads := Loads(ids);
      CollectSound(loads, activeOnly);
      forall v | v in Collect(loads, activeOnly).value
        ensures v.id in ids
      {
        var k :| 0 <= k < |loads| && loads[k] == Ok(Some(v));
        assert Load(ids[k]) == Ok(Some(v));
      }
    }

    /** `findByUserId`: the accounts whose opening event names an equal user, in the
        order of the global log. */
    method FindByUserId(userId: Option<UserId>) returns (r: Result<seq<Account>, Error>)
      ensures var ids := OpenedIds(eventStore.AllEvents(), Some(userId));
        (r.Err? <==> Collect(Loads(ids), false).Err?) &&
        (r.Err? ==> r.error == Collect(Loads(ids), false).error) &&
        (r.Ok? ==> |r.value| == |Collect(Loads(ids), false).value| &&
                   forall k :: 0 <= k < |r.value| ==>
                     Shows(r.value[k], Collect(Loads(ids), false).value[k]))
      ensures r.Ok? ==> forall k :: 0 <= k < |r.value| ==> OpenedBy(eventStore.AllEvents(), r.value[k].id, userId)
    {
      var ids := OpenedIds(eventStore.AllEvents(), Some(userId));
      ghost var loads := Loads(ids);
      r := LoadEach(ids, false, loads);
      assert unchanged(eventStore, snapshotStore);
      if r.Ok? {
        GatheredOpenedBy(userId, ids, r.value);
      }
    }

    /** The accounts `findByUserId` gathers were all opened by the given user. */
    lemma GatheredOpenedBy(userId: Option<UserId>, ids: seq<string>, accounts: seq<Account>)
      requires ids == OpenedIds(eventStore.AllEvents(), Some(userId))
      requires Collect(Loads(ids), false).Ok?
      requires |accounts| == |Collect(Loads(ids), false).value|
      requires forall k :: 0 <= k < |accounts| ==> Shows(accounts[k], Collect(Loads(ids), false).value[k])
      ensures forall k :: 0 <= k < |accounts| ==> OpenedBy(eventStore.AllEvents(), accounts[k].id, userId)
    {
      GatheredIds(ids, false);
      OpenedByOwner(eventStore.AllEvents(), userId, Collect(Loads(ids), false).value, accounts);
    }

    /** `findAllActive`: the opened accounts whose status is ACTIVE, in the order of
        the global log. */
    method FindAllActive() returns (r: Result<seq<Account>, Error>)
      ensures var ids := OpenedIds(eventStore.AllEvents(), None);
        (r.Err? <==> Collect(Loads(ids), true).Err?) &&
        (r.Err? ==> r.error == Collect(Loads(ids), true).error) &&
        (r.Ok? ==> |r.value| == |Collect(Loads(ids), true).value| &&
                   forall k :: 0 <= k < |r.value| ==>
                     Shows(r.value[k], Collect(Loads(ids), true).value[k]))
      ensures r.Ok? ==> forall k :: 0 <= k < |r.value| ==> r.value[k].status == Some(Active)
    {
      var ids := OpenedIds(eventStore.AllEvents(), None);
      ghost var loads := Loads(ids);
      r := LoadEach(ids, true, loads);
      assert Loads(ids) == loads;
      if r.Ok? {
        var views := Collect(loads, true).value;
        GatheredIds(ids, true);
        forall k | 0 <= k < |r.value|
          ensures r.value[k].status == Some(Active)
        {
          assert views[k] in views && Shows(r.value[k], views[k]);
        }
      }
    }

    /** The account and its stream agree: the account expects the stream's length,
        and replaying the stream followed by its pending events reproduces its state. */
    ghost predicate InSync(account: Account)
      reads eventStore, account
    {
      Synced(account.version, account.State(), account.uncommittedEvents, eventStore.Stream(account.id))
    }

    /** The event store after `saveEvents` of `pending` at `expected`, given its
        streams, log and sequence before the call (for an aggregate that is not blank
        and a batch that is not empty). On a version conflict only the entry that
        `computeIfAbsent` makes is added. Otherwise the events before the first
        unnamed one are stamped and appended to this aggregate's stream and to the
        global log, each taking one sequence number, and a failing unnamed event
        takes one more. Every other aggregate's stream is as it was. */
    ghost predicate StoreAfterSave(streams0: map<string, seq<StoredEvent>>, log0: seq<StoredEvent>,
                                   sequence0: int, id: string, pending: seq<DomainEvent>, expected: int)
      reads eventStore
    {
      var current := if id in streams0 then streams0[id] else [];
      var n := FirstUnnamed(pending);
      var appended := Stamped(id, pending[..n], expected, sequence0);
      if |current| != expected then
        eventStore.streams == streams0[id := current] &&
        eventStore.globalEventLog == log0 && eventStore.globalSequence == sequence0
      else
        eventStore.streams == streams0[id := current + appended] &&
        eventStore.globalEventLog == log0 + appended &&
        eventStore.globalSequence == sequence0 + n + (if n == |pending| then 0 else 1)
    }

    /** The snapshot store after the snapshot policy of a successful `save`, given
        its contents, this aggregate's list and its latest snapshot before: when a
        snapshot is due, `taken` is merged into this aggregate's list and the list is
        trimmed to the newest ones; otherwise nothing changes. Other aggregates'
        snapshots are never touched. */
    ghost predicate SnapshotsAfterSave(snapshots0: map<string, seq<Snapshot<AccountSnapshot>>>,
                                       existing0: seq<Snapshot<AccountSnapshot>>,
                                       latest0: Option<Snapshot<AccountSnapshot>>,
                                       id: string, taken: Snapshot<AccountSnapshot>)
      reads snapshotStore
    {
      if SnapshotDue(latest0, taken.version) then
        snapshotStore.snapshots == snapshots0[id := Trimmed(Merged(existing0, taken), DefaultKeepCount)]
      else
        snapshotStore.snapshots == snapshots0
    }

    /** `save`: `null` is rejected, an account with nothing pending is left alone,
        and otherwise its events are appended and committed (see `Commit`). */
    method Save(account: Account?, now: int) returns (r: Outcome<Error>)
      requires Valid()
      requires account != null ==> !IsBlank(account.id)
      modifies eventStore, snapshotStore, account
      ensures Valid()
      ensures account == null ==> r == Fail(IllegalArgument(NullAccount)) && unchanged(eventStore, snapshotStore)
      ensures account != null && old(account.uncommittedEvents) == [] ==>
        r == Pass && unchanged(eventStore, snapshotStore, account)
      ensures account != null && old(account.uncommittedEvents) != [] ==>
        var id, pending, expected := account.id, old(account.uncommittedEvents), old(account.version);
        var current := old(eventStore.Stream(id));
        (|current| != expected ==>
          r == Fail(ConflictOnSave(Concurrency(id, expected, |current|))) &&
          unchanged(account) && unchanged(snapshotStore)) &&
        (|current| == expected && FirstUnnamed(pending) < |pending| ==>
          r == Fail(IllegalArgument(BlankEventType)) && unchanged(account) && unchanged(snapshotStore)) &&
        (|current| == expected && FirstUnnamed(pending) == |pending| ==>
          r == Pass &&
          eventStore.Stream(id) == current + Stamped(id, pending, expected, old(eventStore.globalSequence)) &&
          account.version == expected + |pending| && account.uncommittedEvents == [] &&
          account.State() == old(account.State()) &&
          (SnapshotDue(old(snapshotStore.GetSnapshot(id)), account.version) && account.version >= 0 ==>
             snapshotStore.GetSnapshot(id) == Some(Snapshot(id, account.CreateSnapshot(), account.version, now))) &&
          SnapshotsAfterSave(old(snapshotStore.snapshots), old(snapshotStore.Existing(id)),
                             old(snapshotStore.GetSnapshot(id)), id,
                             Snapshot(id, account.CreateSnapshot(), account.version, now)))
      ensures account != null && old(account.uncommittedEvents) != [] ==>
        StoreAfterSave(old(eventStore.streams), old(eventStore.globalEventLog), old(eventStore.globalSequence),
                       account.id, old(account.uncommittedEvents), old(account.version))
      ensures account != null && old(InSync(account) && SnapshotAgrees(account.id)) ==>
        r == Pass && InSync(account) && SnapshotAgrees(account.id) && account.uncommittedEvents == []
    {
      if account == null {
        return Fail(IllegalArgument(NullAccount));
      }
      if !account.HasUncommittedEvents() {
        return Pass;
      }
      r := Commit(account, now);
    }

    /** The `try` block of `save`: the append at the account's expected version, whose
        `ConcurrencyException` is rethrown as an `IllegalStateException`; then the
        commit and the snapshot policy. An account in sync with its stream always
        saves, and stays in sync with its snapshots agreeing. */
    method Commit(account: Account, now: int) returns (r: Outcome<Error>)
      requires Valid() && !IsBlank(account.id) && account.uncommittedEvents != []
      modifies eventStore, snapshotStore, account
      ensures Valid()
      ensures var id, pending, expected := account.id, old(account.uncommittedEvents), old(account.version);
        var current := old(eventStore.Stream(id));
        (|current| != expected ==>
          r == Fail(ConflictOnSave(Concurrency(id, expected, |current|))) &&
          unchanged(account) && unchanged(snapshotStore)) &&
        (|current| == expected && FirstUnnamed(pending) < |pending| ==>
          r == Fail(IllegalArgument(BlankEventType)) && unchanged(account) && unchanged(snapshotStore)) &&
        (|current| == expected && FirstUnnamed(pending) == |pending| ==>
          r == Pass &&
          eventStore.Stream(id) == current + Stamped(id, pending, expected, old(eventStore.globalSequence)) &&
          account.version == expected + |pending| && account.uncommittedEvents == [] &&
          account.State() == old(account.State()) &&
          (SnapshotDue(old(snapshotStore.GetSnapshot(id)), account.version) && account.version >= 0 ==>
             snapshotStore.GetSnapshot(id) == Some(Snapshot(id, account.CreateSnapshot(), account.version, now))) &&
          SnapshotsAfterSave(old(snapshotStore.snapshots), old(snapshotStore.Existing(id)),
                             old(snapshotStore.GetSnapshot(id)), id,
                             Snapshot(id, account.CreateSnapshot(), account.version, now)))
      ensures StoreAfterSave(old(eventStore.streams), old(eventStore.globalEventLog), old(eventStore.globalSequence),
                             account.id, old(account.uncommittedEvents), old(account.version))
      ensures old(InSync(account) && SnapshotAgrees(account.id)) ==>
        r == Pass && InSync(account) && SnapshotAgrees(account.id) && account.uncommittedEvents == []
    {
      r := AppendPending(account);
      if r.Fail? {
        return;
      }
      r := ConsiderCreatingSnapshot(account, now);
    }

    /** The append and commit of `save`: the account's events go to the store at its
        expected version, a concurrency failure is rethrown wrapped, and on success
        the account's events are marked committed. An account in sync with its
        stream always appends, and stays in sync with its snapshot agreeing. */
    method AppendPending(account: Account) returns (r: Outcome<Error>)
      requires Valid() && !IsBlank(account.id) && account.uncommittedEvents != []
      modifies eventStore, account
      ensures Valid()
      ensures var id, pending, expected := account.id, old(account.uncommittedEvents), old(account.version);
        var current := old(eventStore.Stream(id));
        (|current| != expected ==>
          r == Fail(ConflictOnSave(Concurrency(id, expected, |current|))) && unchanged(account)) &&
        (|current| == expected && FirstUnnamed(pending) < |pending| ==>
          r == Fail(IllegalArgument(BlankEventType)) && unchanged(account)) &&
        (|current| == expected && FirstUnnamed(pending) == |pending| ==>
          r == Pass &&
          eventStore.Stream(id) == current + Stamped(id, pending, expected, old(eventStore.globalSequence)) &&
          account.version == expected + |pending| && account.uncommittedEvents == [] &&
          account.State() == old(account.State()))
      ensures StoreAfterSave(old(eventStore.streams), old(eventStore.globalEventLog), old(eventStore.globalSequence),
                             account.id, old(account.uncommittedEvents), old(account.version))
      ensures old(InSync(account) && SnapshotAgrees(account.id)) ==>
        r == Pass && InSync(account) && SnapshotAgrees(account.id) && account.uncommittedEvents == []
    {
      r := AppendToStore(account);
      if r.Pass? {
        label stored:
        account.MarkEventsAsCommitted();
        assert unchanged@stored(eventStore, snapshotStore);
      }
    }

    /** Step 1 of `save`: `saveEvents` of the account's pending events at its expected
        version, with a `ConcurrencyException` rethrown as an `IllegalStateException`.
        The account itself is not changed; an account in sync with its stream always
        appends, and its pending events then replay onto the stored stream. */
    method AppendToStore(account: Account) returns (r: Outcome<Error>)
      requires Valid() && !IsBlank(account.id) && account.uncommittedEvents != []
      modifies eventStore
      ensures Valid()
      ensures var id, pending, expected := account.id, account.uncommittedEvents, account.version;
        var current := old(eventStore.Stream(id));
        (|current| != expected ==> r == Fail(ConflictOnSave(Concurrency(id, expected, |current|)))) &&
        (|current| == expected && FirstUnnamed(pending) < |pending| ==> r == Fail(IllegalArgument(BlankEventType))) &&
        (|current| == expected && FirstUnnamed(pending) == |pending| ==>
          r == Pass && eventStore.Stream(id) == current + Stamped(id, pending, expected, old(eventStore.globalSequence)))
      ensures StoreAfterSave(old(eventStore.streams), old(eventStore.globalEventLog), old(eventStore.globalSequence),
                             account.id, account.uncommittedEvents, account.version)
      ensures old(InSync(account) && SnapshotAgrees(account.id)) ==>
        r == Pass && SnapshotAgrees(account.id) &&
        Synced(account.version + |account.uncommittedEvents|, account.State(), [], eventStore.Stream(account.id))
    {
      if InSync(account) && SnapshotAgrees(account.id) {
        CommitKeepsSync(account.id, eventStore.Stream(account.id), account.uncommittedEvents,
                        eventStore.globalSequence, account.State(), snapshotStore.GetSnapshot(account.id));
      }
      var events := account.GetUncommittedEvents();
      var expected := account.ExpectedVersion();
      r := eventStore.SaveEvents(account.id, events, expected);
      if r.Fail? && r.error.Concurrency? {
        r := Fail(ConflictOnSave(r.error));
      }
      if r.Pass? {
        assert events[..FirstUnnamed(events)] == events;
      }
    }

    /** `considerCreatingSnapshot`: a snapshot of the account at its current version
        is saved when none exists or the latest is at least `SNAPSHOT_THRESHOLD`
        versions old. Afterwards the latest snapshot is less than the threshold
        behind, and a committed, in-sync account leaves its latest snapshot agreeing
        with the stream. */
    method ConsiderCreatingSnapshot(account: Account, now: int) returns (r: Outcome<Error>)
      requires snapshotStore.Valid() && !IsBlank(account.id)
      modifies snapshotStore
      ensures snapshotStore.Valid()
      ensures !SnapshotDue(old(snapshotStore.GetSnapshot(account.id)), account.version) ==>
        r == Pass && snapshotStore.snapshots == old(snapshotStore.snapshots)
      ensures SnapshotDue(old(snapshotStore.GetSnapshot(account.id)), account.version) && account.version < 0 ==>
        r == Fail(IllegalArgument(Snapshots.NegativeVersion)) && snapshotStore.snapshots == old(snapshotStore.snapshots)
      ensures SnapshotDue(old(snapshotStore.GetSnapshot(account.id)), account.version) && account.version >= 0 ==>
        r == Pass &&
        snapshotStore.snapshots == old(snapshotStore.snapshots)[account.id :=
          Trimmed(Merged(old(snapshotStore.Existing(account.id)),
                         Snapshot(account.id, account.CreateSnapshot(), account.version, now)),
                  DefaultKeepCount)]
      ensures account.version >= 0 ==>
        snapshotStore.GetSnapshot(account.id).Some? &&
        account.version - snapshotStore.GetSnapshot(account.id).value.version < SnapshotThreshold
      ensures SnapshotDue(old(snapshotStore.GetSnapshot(account.id)), account.version) && account.version >= 0 ==>
        snapshotStore.GetSnapshot(account.id) ==
          Some(Snapshot(account.id, account.CreateSnapshot(), account.version, now))
      ensures old(SnapshotAgrees(account.id) && InSync(account)) && account.uncommittedEvents == [] ==>
        SnapshotAgrees(account.id)
    {
      var currentVersion := account.version;
      var existingSnapshot := snapshotStore.GetSnapshot(account.id);
      if !SnapshotDue(existingSnapshot, currentVersion) {
        return Pass;
      }
      ghost var stream := eventStore.Stream(account.id);
      ghost var synced := SnapshotAgrees(account.id) && InSync(account) && account.uncommittedEvents == [];
      assert snapshotStore as object != account && snapshotStore as object != eventStore;
      r := TakeSnapshot(account, now);
      assert unchanged(account) && unchanged(eventStore);
      if synced {
        CurrentSnapshotAgrees(Snapshot(account.id, account.CreateSnapshot(), account.version, now),
                              stream, account.State());
      }
    }

    /** The save that `considerCreatingSnapshot` makes when a snapshot is due: the
        account's snapshot at its version, which becomes the latest one unless a
        newer one is stored. */
    method TakeSnapshot(account: Account, now: int) returns (r: Outcome<Error>)
      requires snapshotStore.Valid() && !IsBlank(account.id)
      modifies snapshotStore
      ensures snapshotStore.Valid()
      ensures account.version < 0 ==>
        r == Fail(IllegalArgument(Snapshots.NegativeVersion)) && snapshotStore.snapshots == old(snapshotStore.snapshots)
      ensures account.version >= 0 ==>
        r == Pass &&
        snapshotStore.snapshots == old(snapshotStore.snapshots)[account.id :=
          Trimmed(Merged(old(snapshotStore.Existing(account.id)),
                         Snapshot(account.id, account.CreateSnapshot(), account.version, now)),
                  DefaultKeepCount)]
      ensures account.version >= 0 &&
              (old(snapshotStore.GetSnapshot(account.id)).None? ||
               old(snapshotStore.GetSnapshot(account.id)).value.version <= account.version) ==>
        snapshotStore.GetSnapshot(account.id) ==
          Some(Snapshot(account.id, account.CreateSnapshot(), account.version, now))
    {
      var snapshotData := account.CreateSnapshot();
      ghost var existing := snapshotStore.Existing(account.id);
      ghost var saved := Snapshot(account.id, snapshotData, account.version, now);
      ghost var newest := snapshotStore.GetSnapshot(account.id).None? ||
                          snapshotStore.GetSnapshot(account.id).value.version <= account.version;
      assert newest ==> forall x :: x in existing ==> x.version <= account.version;
      assert snapshotStore as object != account;
      r := snapshotStore.SaveSnapshot(account.id, Some(snapshotData), account.version, now);
      assert unchanged(account);
      if account.version >= 0 && newest {
        SavedSnapshotIsLatest(existing, saved);
        assert snapshotStore.Existing(account.id) == Trimmed(Merged(existing, saved), DefaultKeepCount);
      }
    }

    /** `findByIdAtTime`: a fresh account replaying the events that occurred at or
        before `pointInTime`, or empty when there are none; an event that throws
        during the replay propagates. */
    method FindByIdAtTime(accountId: string, pointInTime: int) returns (r: Result<Option<Account>, Error>)
      ensures var until := Filter(GetAccountHistory(accountId), OccurredBy(pointInTime));
        (until == [] ==> r == Ok(None)) &&
        (until != [] ==>
          var replayed := Replay(Unopened, until);
          (replayed.error.Some? ==> r == Err(replayed.error.value)) &&
          (replayed.error.None? ==>
             r.Ok? && r.value.Some? && fresh(r.value.value) &&
             Shows(r.value.value, AccountView(accountId, replayed.state, |until|))))
    {
      var allEvents := GetAccountHistory(accountId);
      var eventsUntilTime := Filter(allEvents, OccurredBy(pointInTime));
      if eventsUntilTime == [] {
        return Ok(None);
      }
      var account := new Account.Restore(accountId);
      var loaded := account.LoadFromHistory(Some(eventsUntilTime));
      if loaded.Fail? {
        return Err(loaded.error);
      }
      return Ok(Some(account));
    }

    /** A point in time at or after every event of the account sees its whole
        history, and so loads what `findById` loads when the snapshot agrees. */
    lemma AfterLastEventIsLoad(accountId: string, pointInTime: int)
      requires Valid() && Plan(accountId).Some? && SnapshotAgrees(accountId)
      requires forall e :: e in GetAccountHistory(accountId) ==> e.occurredOn <= pointInTime
      ensures var until := Filter(GetAccountHistory(accountId), OccurredBy(pointInTime));
        var replayed := Replay(Unopened, until);
        until == GetAccountHistory(accountId) &&
        Load(accountId) ==
          if replayed.error.Some? then Err(replayed.error.value)
          else Ok(Some(AccountView(accountId, replayed.state, |until|)))
    {
      FilterAll(GetAccountHistory(accountId), OccurredBy(pointInTime));
      LoadIsFullReplay(accountId);
    }

    /** `remove`: `null` and an account that is not ACTIVE are left alone; otherwise
        the account is closed with the removal reason and saved. Closing fails on a
        balance left over; an account in sync with its stream is saved with the
        closing event at the end of the stream. */
    method Remove(account: Account?, eventId: string, now: int) returns (r: Outcome<Error>)
      requires Valid()
      requires account != null ==> !IsBlank(account.id)
      modifies eventStore, snapshotStore, account
      ensures Valid()
      ensures account == null ==> r == Pass && unchanged(eventStore, snapshotStore)
      ensures account != null && old(account.status) != Some(Active) ==>
        r == Pass && unchanged(eventStore, snapshotStore, account)
      ensures account != null && old(account.status) == Some(Active) && old(account.balance).None? ==>
        r == Fail(NullReference("balance")) && unchanged(eventStore, snapshotStore, account)
      ensures account != null && old(account.status) == Some(Active) && old(account.balance).Some? &&
              !old(account.balance).value.IsZero() ==>
        r == Fail(IllegalState(BalanceLeftOnClose)) && unchanged(eventStore, snapshotStore, account)
      ensures account != null && old(account.status) == Some(Active) &&
              old(account.balance).Some? && old(account.balance).value.IsZero() ==>
        var id, expected := account.id, old(account.version);
        var pending := old(account.uncommittedEvents) +
                       [AccountClosed(eventId, now, account.id, old(account.userId), RemovalReason, now)];
        var current := old(eventStore.Stream(id));
        var saved := |current| == expected && FirstUnnamed(pending) == |pending|;
        account.status == Some(Closed) &&
        StoreAfterSave(old(eventStore.streams), old(eventStore.globalEventLog), old(eventStore.globalSequence),
                       id, pending, expected) &&
        (|current| != expected ==> r == Fail(ConflictOnSave(Concurrency(id, expected, |current|)))) &&
        (|current| == expected && FirstUnnamed(pending) < |pending| ==> r == Fail(IllegalArgument(BlankEventType))) &&
        (!saved ==> account.version == expected && account.uncommittedEvents == pending &&
                    snapshotStore.snapshots == old(snapshotStore.snapshots)) &&
        (saved ==> r == Pass && account.version == expected + |pending| && account.uncommittedEvents == [] &&
                   SnapshotsAfterSave(old(snapshotStore.snapshots), old(snapshotStore.Existing(id)),
                                      old(snapshotStore.GetSnapshot(id)), id,
                                      Snapshot(id, account.CreateSnapshot(), account.version, now)))
      ensures account != null && old(account.status) == Some(Active) && old(account.balance).Some? &&
              old(account.balance).value.IsZero() && old(InSync(account) && SnapshotAgrees(account.id)) ==>
        var closed := AccountClosed(eventId, now, account.id, old(account.userId), RemovalReason, now);
        r == Pass && account.status == Some(Closed) && account.uncommittedEvents == [] &&
        InSync(account) && SnapshotAgrees(account.id) &&
        eventStore.Stream(account.id) ==
          old(eventStore.Stream(account.id)) +
          Stamped(account.id, old(account.uncommittedEvents) + [closed], old(account.version),
                  old(eventStore.globalSequence))
    {
      if account == null {
        return Pass;
      }
      if account.status != Some(Active) {
        return Pass;
      }
      r := CloseAndSave(account, eventId, now);
    }

    /** The active branch of `remove`: `close` with the removal reason, then `save`. */
    method CloseAndSave(account: Account, eventId: string, now: int) returns (r: Outcome<Error>)
      requires Valid() && !IsBlank(account.id) && account.status == Some(Active)
      modifies eventStore, snapshotStore, account
      ensures Valid()
      ensures old(account.balance).None? ==>
        r == Fail(NullReference("balance")) && unchanged(eventStore, snapshotStore, account)
      ensures old(account.balance).Some? && !old(account.balance).value.IsZero() ==>
        r == Fail(IllegalState(BalanceLeftOnClose)) && unchanged(eventStore, snapshotStore, account)
      ensures old(account.balance).Some? && old(account.balance).value.IsZero() ==>
        var id, expected := account.id, old(account.version);
        var pending := old(account.uncommittedEvents) +
                       [AccountClosed(eventId, now, account.id, old(account.userId), RemovalReason, now)];
        var current := old(eventStore.Stream(id));
        var saved := |current| == expected && FirstUnnamed(pending) == |pending|;
        account.status == Some(Closed) &&
        StoreAfterSave(old(eventStore.streams), old(eventStore.globalEventLog), old(eventStore.globalSequence),
                       id, pending, expected) &&
        (|current| != expected ==> r == Fail(ConflictOnSave(Concurrency(id, expected, |current|)))) &&
        (|current| == expected && FirstUnnamed(pending) < |pending| ==> r == Fail(IllegalArgument(BlankEventType))) &&
        (!saved ==> account.version == expected && account.uncommittedEvents == pending &&
                    snapshotStore.snapshots == old(snapshotStore.snapshots)) &&
        (saved ==> r == Pass && account.version == expected + |pending| && account.uncommittedEvents == [] &&
                   SnapshotsAfterSave(old(snapshotStore.snapshots), old(snapshotStore.Existing(id)),
                                      old(snapshotStore.GetSnapshot(id)), id,
                                      Snapshot(id, account.CreateSnapshot(), account.version, now)))
      ensures old(account.balance).Some? && old(account.balance).value.IsZero() &&
              old(InSync(account) && SnapshotAgrees(account.id)) ==>
        var closed := AccountClosed(eventId, now, account.id, old(account.userId), RemovalReason, now);
        r == Pass && account.status == Some(Closed) && account.uncommittedEvents == [] &&
        InSync(account) && SnapshotAgrees(account.id) &&
        eventStore.Stream(account.id) ==
          old(eventStore.Stream(account.id)) +
          Stamped(account.id, old(account.uncommittedEvents) + [closed], old(account.version),
                  old(eventStore.globalSequence))
    {
      assert eventStore as object != account && snapshotStore as object != account;
      r := CloseForRemoval(account, eventId, now);
      if r.Fail? {
        return;
      }
      assert unchanged(eventStore, snapshotStore);
      r := Save(account, now);
    }

    /** `close` with the removal reason; an account in step with its stream stays in
        step, with the closing event pending. */
    method CloseForRemoval(account: Account, eventId: string, now: int) returns (r: Outcome<Error>)
      requires Valid() && !IsBlank(account.id) && account.status == Some(Active)
      modifies account
      ensures old(account.balance).None? ==> r == Fail(NullReference("balance")) && unchanged(account)
      ensures old(account.balance).Some? && !old(account.balance).value.IsZero() ==>
        r == Fail(IllegalState(BalanceLeftOnClose)) && unchanged(account)
      ensures old(account.balance).Some? && old(account.balance).value.IsZero() ==>
        r == Pass && account.status == Some(Closed) && account.version == old(account.version) &&
        account.uncommittedEvents ==
          old(account.uncommittedEvents) + [AccountClosed(eventId, now, account.id, old(account.userId), RemovalReason, now)]
      ensures old(account.balance).Some? && old(account.balance).value.IsZero() &&
              old(InSync(account) && SnapshotAgrees(account.id)) ==>
        InSync(account) && SnapshotAgrees(account.id) &&
        FirstUnnamed(account.uncommittedEvents) == |account.uncommittedEvents|
    {
      ghost var stream := eventStore.Stream(account.id);
      ghost var latest := snapshotStore.GetSnapshot(account.id);
      ghost var version := account.version;
      ghost var before := account.State();
      ghost var pending := account.uncommittedEvents;
      ghost var closed := AccountClosed(eventId, now, account.id, account.userId, RemovalReason, now);
      ghost var synced := Synced(version, before, pending, stream) && Agrees(latest, stream);
      if synced {
        CloseKeepsSync(version, before, pending, stream, closed);
      }
      assert eventStore as object != account && snapshotStore as object != account;
      r := account.Close(Some(RemovalReason), eventId, now);
      assert eventStore.Stream(account.id) == stream && snapshotStore.GetSnapshot(account.id) == latest;
      if r.Pass? {
        assert account.version == version && account.State() == before.(status := Some(Closed)) &&
               account.uncommittedEvents == pending + [closed];
      }
    }

    /** `purgeAccount`: the account's events leave the store; its snapshots stay, as
        the source leaves their removal unimplemented. */
    method PurgeAccount(accountId: string)
      requires Valid()
      modifies eventStore
      ensures Valid()
      ensures eventStore.globalSequence == old(eventStore.globalSequence)
      ensures IsBlank(accountId) ==>
        eventStore.streams == old(eventStore.streams) && eventStore.globalEventLog == old(eventStore.globalEventLog)
      ensures !IsBlank(accountId) ==>
        eventStore.streams == old(eventStore.streams) - {accountId} &&
        eventStore.globalEventLog == Filter(old(eventStore.globalEventLog), OtherAggregate(accountId)) &&
        GetEventCount(accountId) == 0
    {
      eventStore.ClearAggregate(accountId);
      assert !IsBlank(accountId) ==> accountId !in eventStore.streams;
    }

    /** `getAccountHistory`: the events of the account's stream. */
    function GetAccountHistory(accountId: string): (r: seq<DomainEvent>)
      reads eventStore
      ensures IsBlank(accountId) ==> r == []
    {
      eventStore.EventsForAggregate(accountId)
    }

    /** The history is the payloads of the whole stream, in version order. */
    lemma HistoryIsWholeStream(accountId: string)
      requires Valid() && !IsBlank(accountId)
      ensures GetAccountHistory(accountId) == Payloads(eventStore.Stream(accountId))
    {
      eventStore.WholeStream(accountId);
    }

    /** `getEventCount`: the size of the history. */
    function GetEventCount(accountId: string): (r: nat)
      reads eventStore
      ensures r == |GetAccountHistory(accountId)|
    {
      |eventStore.EventsForAggregate(accountId)|
    }

    /** The event count is the stream's current version. */
    lemma EventCountIsVersion(accountId: string)
      requires Valid()
      ensures GetEventCount(accountId) == eventStore.CurrentVersion(accountId)
    {
      if !IsBlank(accountId) {
        eventStore.WholeStream(accountId);
      }
    }
  }

  /** The preconditions both reloading scenarios share: an active account with a
      balance, whose latest snapshot agrees with its stream and is at version 1 or
      later. */
  ghost predicate Reloadable(repo: EventSourcedAccountRepository, accountId: string)
    reads repo, repo.eventStore, repo.snapshotStore
  {
    repo.Valid() && !IsBlank(accountId) && repo.SnapshotAgrees(accountId) &&
    repo.snapshotStore.GetSnapshot(accountId).Some? &&
    repo.snapshotStore.GetSnapshot(accountId).value.version >= 1 &&
    repo.Load(accountId).Ok? && repo.Load(accountId).value.Some? &&
    repo.Load(accountId).value.value.state.status == Some(Active) &&
    repo.Load(accountId).value.value.state.balance.Some?
  }

  /** Loading with `findById` as written, depositing and saving: the loaded version
      is the snapshot's version short of the stream, so the save is refused as a
      concurrent modification although nothing else wrote to the account. */
  method DepositAfterFindById(repo: EventSourcedAccountRepository, accountId: string, amount: Money,
                              eventId: string, now: int)
    returns (r: Outcome<Error>)
    requires Reloadable(repo, accountId) && !amount.IsNegativeOrZero()
    modifies repo.eventStore, repo.snapshotStore
    ensures var count := old(repo.GetEventCount(accountId));
      r == Fail(ConflictOnSave(Concurrency(accountId,
                                           count - old(repo.snapshotStore.GetSnapshot(accountId).value.version),
                                           count)))
  {
    repo.FindByIdVersionLags(accountId);
    repo.HistoryIsWholeStream(accountId);
    var found := repo.FindById(accountId);
    var account := found.value.value;
    var deposited := account.Deposit(Some(amount), None, eventId, now);
    assert account.uncommittedEvents != [];
    r := repo.Save(account, now);
  }

  /** The same steps with the corrected load: the loaded version is the stream's
      length and the deposit is appended to the stream. */
  method DepositAfterFindByIdCorrected(repo: EventSourcedAccountRepository, accountId: string, amount: Money,
                                       eventId: string, now: int)
    returns (r: Outcome<Error>)
    requires Reloadable(repo, accountId) && !amount.IsNegativeOrZero()
    modifies repo.eventStore, repo.snapshotStore
    ensures r == Pass
    ensures repo.GetEventCount(accountId) == old(repo.GetEventCount(accountId)) + 1
  {
    repo.FindByIdVersionLags(accountId);
    repo.HistoryIsWholeStream(accountId);
    var found := repo.FindByIdCorrected(accountId);
    var account := found.value.value;
    var deposited := account.Deposit(Some(amount), None, eventId, now);
    assert |account.uncommittedEvents| == 1 && account.uncommittedEvents[0].MoneyDeposited?;
    assert FirstUnnamed(account.uncommittedEvents) == 1 by {
      assert account.uncommittedEvents[0].SimpleName()[0] > ' ';
    }
    r := repo.Save(account, now);
    repo.HistoryIsWholeStream(accountId);
  }
}
