# Finance demo: event-sourced accounts and domain rules, in Dafny

A model of the domain core of a personal-finance demo application, with proofs
about it. The model has two parts.

**Event sourcing** (`eventsourcing`, `shared/eventsourcing`):
- `EventStores.InMemoryEventStore` is an append-only log with optimistic concurrency.
  - Each aggregate's events get gapless versions from 1.
  - Every event gets a global sequence number.
  - The read views (per aggregate, after a version, by type, by time range, all) are functions of the log.
- `SnapshotStores.InMemorySnapshotStore` keeps the three highest snapshot versions per aggregate.
  - A save at an existing version replaces that snapshot.
  - It answers "latest" and "latest at or before v".
- `Accounts.Account` is the bank account aggregate. The generic replay machinery of `EventSourcedAggregate` is merged into it, because the model has no inheritance.
  - It keeps a version counter and a buffer of uncommitted events.
  - Commands: open, deposit, withdraw and close.
  - `applyEvent` covers four event kinds, and any other event is rejected.
  - Replay is the pure function `Accounts.Replay`. The proofs show that every command leaves the state equal to the replay of the events applied so far. The balance is never negative, and a closed account always holds zero.
- `AccountRepositories.EventSourcedAccountRepository` connects the three.
  - Loading starts from the latest snapshot and replays the later events.
  - Saving appends with a version check, commits, then applies the snapshot policy: it takes a snapshot when the aggregate has none, or when the newest one is at least 50 versions old.
- `StoredEvents.StoredEvent` and `Snapshots.Snapshot` are validated records.

**Value objects and domain rules**:
- `Monies.Money` holds integer cents, because every `Money` is rounded half up to two decimals.
- `UserIds`, `DateRanges` and `AggregateRoots` (the domain-event buffer).
- The `Transactions`, `Budgets` and `SpendingPatterns` aggregates.
- The `Categories` and `PatternTypes` enums.
- The two event records that carry decisions: `HighAmountEvents` and `RecategorizedEvents`.
- The specification combinators (`Specifications`) and the leaf specifications over transactions (`TransactionSpecs`).
- The integer and decimal part of the regular-spending specification (`RegularSpending`).

Supporting modules:
- `Decimals` models the `BigDecimal` arithmetic the source relies on: an unscaled integer and a scale, `compareTo` by value, `equals` by representation, and `HALF_UP` rounding.
- `Int32s` models Java's 32-bit `int` where wrap-around matters.
- `Sorting` is the stable sort of `stream().sorted`.
- `Sequences` is `stream().filter`.

Modelling conventions:
- Exceptions are `Result`/`Outcome` values carrying an `Errors.Error`.
- A `null` the source checks is `None`, or the blank string for ids.
- The clock and generated UUIDs are parameters (`now`, `eventId`).
- Methods that change state are class methods with `modifies` clauses. Each method's contract ties the new state to functions of the old state, and lemmas prove properties of those functions.

## Model

| member | source | states |
|---|---|---|
| `UserIds.New` | src/main/java/com/finance/demo/shared/domain/UserId.java:17-22 | a user id exists exactly when the value is present and positive, and then holds that value; otherwise IllegalArgumentException |
| `UserIds.Of` | src/main/java/com/finance/demo/shared/domain/UserId.java:24-26 | the factory accepts and rejects exactly what the constructor does |
| `UserIds.UserId.Value` | src/main/java/com/finance/demo/shared/domain/UserId.java:28-30 | the value read back from any user id is positive |
| `UserIds.OfValue` | src/main/java/com/finance/demo/shared/domain/UserId.java:24-30 | `of(u.value())` rebuilds `u` |
| `UserIds.UserId.Equals` | src/main/java/com/finance/demo/shared/domain/UserId.java:32-38 | equal ids are non-null and carry the same value |
| `UserIds.EqualsIsValueEquality` | src/main/java/com/finance/demo/shared/domain/UserId.java:32-38 | `equals` is value equality: reflexive, symmetric, false on null |
| `Snapshots.New` | src/main/java/com/finance/demo/shared/eventsourcing/Snapshot.java:19-32 | a snapshot is built exactly when the id is not blank, the data and timestamp are present and the version is not negative; each failure raises its own IllegalArgumentException in the source's order; fields are kept |
| `Snapshots.Of` | src/main/java/com/finance/demo/shared/eventsourcing/Snapshot.java:37-39 | the factory stamps the current time and accepts exactly the snapshots the constructor accepts |
| `StoredEvents.New` | src/main/java/com/finance/demo/eventsourcing/StoredEvent.java:26-42 | a stored event is built exactly when the aggregate id and event type are not blank, the event is present and the version is not negative; a missing timestamp becomes the current time |
| `StoredEvents.StoredEvent.IsEventType` | src/main/java/com/finance/demo/eventsourcing/StoredEvent.java:47-49 | true exactly when the recorded type name equals the given one |
| `StoredEvents.StoredEvent.BelongsToAggregate` | src/main/java/com/finance/demo/eventsourcing/StoredEvent.java:54-56 | true exactly when the event belongs to the given aggregate |
| `StoredEvents.StoredEvent.IsAfterVersion` | src/main/java/com/finance/demo/eventsourcing/StoredEvent.java:61-63 | true exactly when the event's version is strictly after the given one |
| `Monies.Money.CompareTo` | src/main/java/com/finance/demo/shared/domain/Money.java:96-98 | the comparison is the sign of the difference in cents |
| `Monies.Money.IsGreaterThan` | src/main/java/com/finance/demo/shared/domain/Money.java:64-66 | true exactly when this amount has more cents |
| `Monies.Money.IsLessThan` | src/main/java/com/finance/demo/shared/domain/Money.java:68-70 | true exactly when this amount has fewer cents |
| `Monies.Money.IsGreaterThanOrEqual` | src/main/java/com/finance/demo/shared/domain/Money.java:72-74 | true exactly when this amount has at least as many cents |
| `Monies.Money.IsLessThanOrEqual` | src/main/java/com/finance/demo/shared/domain/Money.java:76-78 | true exactly when this amount has at most as many cents |
| `Monies.Money.IsZero` | src/main/java/com/finance/demo/shared/domain/Money.java:80-82 | true exactly when the amount is zero |
| `Monies.Money.IsPositive` | src/main/java/com/finance/demo/shared/domain/Money.java:84-86 | true exactly when the amount is above zero |
| `Monies.Money.IsNegative` | src/main/java/com/finance/demo/shared/domain/Money.java:88-90 | true exactly when the amount is below zero |
| `Monies.Money.IsNegativeOrZero` | src/main/java/com/finance/demo/shared/domain/Money.java:92-94 | true exactly when the amount is not above zero |
| `Monies.Money.Add` | src/main/java/com/finance/demo/shared/domain/Money.java:43-45 | the sum is exact in cents |
| `Monies.Money.Subtract` | src/main/java/com/finance/demo/shared/domain/Money.java:47-49 | the difference is exact in cents |
| `Monies.Money.Multiply` | src/main/java/com/finance/demo/shared/domain/Money.java:51-53 | the product is the exact product rounded HALF_UP to the cent |
| `Monies.Money.Divide` | src/main/java/com/finance/demo/shared/domain/Money.java:55-57 | fails with ArithmeticException exactly when the divisor is zero; otherwise the quotient rounded HALF_UP to the cent |
| `Monies.Money.DivideInt` | src/main/java/com/finance/demo/shared/domain/Money.java:59-61 | fails exactly on a zero divisor; otherwise the cents divided and rounded HALF_UP |
| `Monies.CentsQuotient` | src/main/java/com/finance/demo/shared/domain/Money.java:55-57 | dividing a scale-2 amount to scale 2 rounds the quotient of its cents |
| `Monies.Normalize` | src/main/java/com/finance/demo/shared/domain/Money.java:19-24 | the stored amount is the given one rounded HALF_UP to two decimals |
| `Monies.Of` | src/main/java/com/finance/demo/shared/domain/Money.java:19-28 | a null amount is rejected with IllegalArgumentException and nothing else is; the result is the amount rounded HALF_UP to the cent |
| `Monies.OfLong` | src/main/java/com/finance/demo/shared/domain/Money.java:30-32 | `of(long)` is exactly that many whole units |
| `Monies.ZeroMoney` | src/main/java/com/finance/demo/shared/domain/Money.java:38-40 | `zero()` is zero |
| `Monies.OfAmount` | src/main/java/com/finance/demo/shared/domain/Money.java:26-28 | `of(m.amount())` gives back `m` |
| `Monies.SignTrichotomy` | src/main/java/com/finance/demo/shared/domain/Money.java:80-94 | exactly one of negative, zero, positive holds; `isNegativeOrZero` is negative or zero |
| `Monies.ComparisonsAgree` | src/main/java/com/finance/demo/shared/domain/Money.java:64-78 | less-than and greater-than are converses; the non-strict forms add exactly equality |
| `Monies.Money.Equals` | src/main/java/com/finance/demo/shared/domain/Money.java:106-112 | `equals` on the amounts holds exactly when the two amounts have the same number of cents |
| `Monies.EqualsIsValueEquality` | src/main/java/com/finance/demo/shared/domain/Money.java:106-112 | because every amount has scale 2, `equals` agrees with `compareTo == 0` and with value equality |
| `Monies.AddSubtractInverse` | src/main/java/com/finance/demo/shared/domain/Money.java:43-49 | adding then subtracting the same amount is the identity |
| `DateRanges.Of` | src/main/java/com/finance/demo/shared/domain/DateRange.java:16-29 | a range exists exactly when both ends are present and the start is not after the end (IllegalArgumentException otherwise), and keeps both ends |
| `DateRanges.DateRange.Contains` | src/main/java/com/finance/demo/shared/domain/DateRange.java:54-56 | an instant is contained exactly when it lies between the ends, both included |
| `DateRanges.DateRange.Overlaps` | src/main/java/com/finance/demo/shared/domain/DateRange.java:58-60 | two ranges overlap exactly when neither ends before the other starts |
| `DateRanges.DateRange.Equals` | src/main/java/com/finance/demo/shared/domain/DateRange.java:74-80 | equal ranges are non-null with the same start and end |
| `DateRanges.ContainsEndpoints` | src/main/java/com/finance/demo/shared/domain/DateRange.java:54-56 | a valid range contains both its endpoints |
| `DateRanges.OverlapsIffCommonInstant` | src/main/java/com/finance/demo/shared/domain/DateRange.java:58-60 | two valid ranges overlap exactly when some instant lies in both; overlapping is symmetric and reflexive |
| `DateRanges.EqualsIsValueEquality` | src/main/java/com/finance/demo/shared/domain/DateRange.java:74-80 | `equals` is equality of both endpoints and false on null |
| `AggregateRoots.AggregateRoot.constructor` | src/main/java/com/finance/demo/shared/domain/AggregateRoot.java:17 | a new aggregate has no pending domain events |
| `AggregateRoots.AggregateRoot.Raise` | src/main/java/com/finance/demo/shared/domain/AggregateRoot.java:23-29 | a null event is rejected with IllegalArgumentException and leaves the list alone; any other event is appended at the end |
| `AggregateRoots.AggregateRoot.GetDomainEvents` | src/main/java/com/finance/demo/shared/domain/AggregateRoot.java:35-37 | the view holds exactly the pending events, in order, and its size is the pending count |
| `AggregateRoots.AggregateRoot.ClearDomainEvents` | src/main/java/com/finance/demo/shared/domain/AggregateRoot.java:43-45 | afterwards no event is pending |
| `AggregateRoots.AggregateRoot.HasUnpublishedEvents` | src/main/java/com/finance/demo/shared/domain/AggregateRoot.java:50-52 | true exactly when the pending count is positive |
| `AggregateRoots.AggregateRoot.GetUnpublishedEventCount` | src/main/java/com/finance/demo/shared/domain/AggregateRoot.java:57-59 | the count is the number of pending events |
| `Accounts.AccountStatus.Name` | src/main/java/com/finance/demo/eventsourcing/Account.java:197-200 | every status has a non-empty constant name |
| `Accounts.AccountStatus.Description` | src/main/java/com/finance/demo/eventsourcing/Account.java:198-210 | the description each constant is declared with: "활성" for ACTIVE, "폐쇄" for CLOSED, "정지" for SUSPENDED |
| `Accounts.StatusNamesDistinct` | src/main/java/com/finance/demo/eventsourcing/Account.java:197-210 | distinct statuses have distinct constant names and distinct descriptions |
| `Accounts.StatusText` | src/main/java/com/finance/demo/eventsourcing/Account.java:168-172 | the status text in the not-active message is never empty, and it is `null` exactly when the status is missing |
| `Accounts.Evolve` | src/main/java/com/finance/demo/eventsourcing/Account.java:119-139 | applying an event fails exactly on a foreign event (IllegalArgumentException naming its class) or on a deposit or withdrawal before any balance exists; opening sets all four fields and ACTIVE; deposits and withdrawals move the balance by the amount and nothing else; closing sets CLOSED and keeps the balance; owner and creation time change only on opening |
| `Accounts.Replay` | src/main/java/com/finance/demo/eventsourcing/EventSourcedAggregate.java:43-52 | a replay applies at most all events; it is clean exactly when it applied all of them; when it stops, the next event is the one that threw that error |
| `Accounts.ReplayConcat` | src/main/java/com/finance/demo/eventsourcing/EventSourcedAggregate.java:43-52 | replaying `a + b` after a clean replay of `a` is replaying `b` from where `a` left off, counted past `a` |
| `Accounts.ReplayAppend` | src/main/java/com/finance/demo/eventsourcing/EventSourcedAggregate.java:43-52 | one more event after a clean replay either applies and counts, or stops the replay with its error |
| `Accounts.ReplayStep` | src/main/java/com/finance/demo/eventsourcing/EventSourcedAggregate.java:48-51 | one successful event of the loop moves both the remaining replay and the finished prefix one step on |
| `Accounts.ReplayStops` | src/main/java/com/finance/demo/eventsourcing/EventSourcedAggregate.java:48-51 | the first event that throws ends the replay with the state and count before it |
| `Accounts.ReplayIsNetFlow` | src/main/java/com/finance/demo/eventsourcing/Account.java:128-133 | on an opened account, a history without another opening replays cleanly exactly when it holds no foreign event; the balance reached is the start plus deposits minus withdrawals; owner and creation time never change |
| `Accounts.Account.Restore` | src/main/java/com/finance/demo/eventsourcing/EventSourcedAggregate.java:31-36 | an account restored under a valid id has that id, version 0, nothing pending and every field unset |
| `Accounts.Account.Rehydrate` | src/main/java/com/finance/demo/eventsourcing/Account.java:52-54 | `new Account(id)` fails exactly on a blank id, with IllegalArgumentException; otherwise a new unopened account at version 0 |
| `Accounts.Account.Open` | src/main/java/com/finance/demo/eventsourcing/Account.java:30-47 | a missing owner and a missing or negative initial balance are rejected in that order; otherwise a new account at version 0 whose one uncommitted event is the opening event and whose state is that event's |
| `Accounts.Account.ApplyEvent` | src/main/java/com/finance/demo/eventsourcing/Account.java:119-139 | the fields become exactly what `Evolve` gives; a rejected event changes nothing; the version and the uncommitted list are untouched; replay consistency is kept |
| `Accounts.Account.LoadFromHistory` | src/main/java/com/finance/demo/eventsourcing/EventSourcedAggregate.java:43-52 | a null history changes nothing; otherwise the fields become the replay's state, the version grows by the number of events applied, and the first failure is returned |
| `Accounts.Account.ApplyChange` | src/main/java/com/finance/demo/eventsourcing/EventSourcedAggregate.java:59-66 | a null event is rejected; an event that applies is appended to the uncommitted events; one that throws changes nothing |
| `Accounts.Account.MarkEventsAsCommitted` | src/main/java/com/finance/demo/eventsourcing/EventSourcedAggregate.java:88-91 | the version grows by the number of uncommitted events and the list is emptied; the fields stay |
| `Accounts.Account.GetUncommittedEvents` | src/main/java/com/finance/demo/eventsourcing/EventSourcedAggregate.java:80-82 | the returned events are exactly the pending ones, oldest first: the queue that `applyChange` appends to and `markEventsAsCommitted` empties |
| `Accounts.Account.HasUncommittedEvents` | src/main/java/com/finance/demo/eventsourcing/EventSourcedAggregate.java:96-98 | true exactly when some event is pending |
| `Accounts.Account.UncommittedEventCount` | src/main/java/com/finance/demo/eventsourcing/EventSourcedAggregate.java:103-105 | the count of pending events |
| `Accounts.Account.ExpectedVersion` | src/main/java/com/finance/demo/eventsourcing/EventSourcedAggregate.java:131-133 | the expected version is the current version |
| `Accounts.Account.ActiveCheck` | src/main/java/com/finance/demo/eventsourcing/Account.java:168-172 | passes exactly on an ACTIVE account; otherwise IllegalStateException naming the status |
| `Accounts.Account.Deposit` | src/main/java/com/finance/demo/eventsourcing/Account.java:59-73 | not active, then a missing or non-positive amount, are rejected without change; otherwise the balance grows by the amount and a deposit event (default description "입금") is queued; soundness and replay consistency are kept |
| `Accounts.Account.Withdraw` | src/main/java/com/finance/demo/eventsourcing/Account.java:78-99 | not active, a missing or non-positive amount, then an amount above the balance, are rejected without change; otherwise the balance shrinks by the amount and a withdrawal event (default "출금") is queued; the balance never goes negative |
| `Accounts.Account.Close` | src/main/java/com/finance/demo/eventsourcing/Account.java:104-117 | not active, then a non-zero balance, are rejected without change; otherwise the status becomes CLOSED and a closing event (default reason "사용자 요청") is queued |
| `Accounts.Account.CloseCheck` | src/main/java/com/finance/demo/eventsourcing/Account.java:104-109 | the checks before closing pass exactly on an active account with a zero balance, and fail with the source's exception in order otherwise |
| `Accounts.Account.CloseEmpty` | src/main/java/com/finance/demo/eventsourcing/Account.java:111-116 | once the checks have passed, the account is CLOSED and exactly the closing event is queued |
| `Accounts.Account.CreateSnapshot` | src/main/java/com/finance/demo/eventsourcing/Account.java:141-151 | the snapshot holds the account's four fields, id and version |
| `Accounts.Account.LoadFromSnapshot` | src/main/java/com/finance/demo/eventsourcing/Account.java:154-166 | as written: a null snapshot is rejected; otherwise the four fields are copied and the version is left unchanged |
| `Accounts.Account.LoadFromSnapshotWithVersion` | src/main/java/com/finance/demo/eventsourcing/Account.java:163-165 | as the comment intends: the fields are copied and the version becomes the snapshot version |
| `Accounts.Account.CanWithdraw` | src/main/java/com/finance/demo/eventsourcing/Account.java:175-178 | false on an inactive account; on an active one, throws on a missing balance or amount and otherwise says whether the balance covers the amount; never throws on a sound account |
| `Accounts.Account.AvailableBalance` | src/main/java/com/finance/demo/eventsourcing/Account.java:180-182 | the balance of an active account, zero otherwise; never negative on a sound account |
| `Accounts.Account.IsOverdrawn` | src/main/java/com/finance/demo/eventsourcing/Account.java:184-186 | throws exactly when there is no balance; otherwise true exactly on a negative balance; never true on an opened account |
| `Accounts.Account.Equals` | src/main/java/com/finance/demo/eventsourcing/EventSourcedAggregate.java:135-142 | two accounts are equal exactly when they have the same id; equality is reflexive |
| `Accounts.ReplayReproducesState` | src/main/java/com/finance/demo/eventsourcing/EventSourcedAggregate.java:43-52 | replaying the events an account raised into a new account with the same id reproduces its fields, with the version counting the events |
| `Accounts.TransactionScenario` | src/test/java/com/finance/demo/Day2IntegrationTest.java:84-115 | open with 500000, deposit 200000, withdraw 150000: three events whose replay gives 500000 + 200000 - 150000 = 550000 |
| `Accounts.OpenScenarioAccount` | src/test/java/com/finance/demo/Day2IntegrationTest.java:85-86 | the opening step leaves one event and a balance of 500000 |
| `Accounts.ScenarioDeposit` | src/test/java/com/finance/demo/Day2IntegrationTest.java:90-91 | the deposit step is accepted and leaves 700000 with two events |
| `Accounts.ScenarioWithdraw` | src/test/java/com/finance/demo/Day2IntegrationTest.java:95-96 | the withdrawal step is accepted and leaves 550000 with three events |
| `EventStores.Stamped` | src/main/java/com/finance/demo/eventsourcing/InMemoryEventStore.java:59-73 | the k-th stored event of an append gets version `current + k + 1`, the next sequence number after the last one, the event's simple class name and its occurrence time |
| `EventStores.FirstUnnamed` | src/main/java/com/finance/demo/eventsourcing/InMemoryEventStore.java:59-73 | the loop stores exactly the events before the first one whose class has a blank simple name |
| `EventStores.FirstUnnamedAt` | src/main/java/com/finance/demo/eventsourcing/InMemoryEventStore.java:59-73 | any position before which every name is present and at which one is blank (or the end) is that first position |
| `EventStores.Payloads` | src/main/java/com/finance/demo/eventsourcing/InMemoryEventStore.java:90-93 | the payload list has one entry per stored event, in the same order |
| `EventStores.AfterVersionIsSuffix` | src/main/java/com/finance/demo/eventsourcing/InMemoryEventStore.java:88-93 | on a stream whose versions count up from an offset, the events after a version are a suffix of the stream |
| `EventStores.GaplessSuffix` | src/main/java/com/finance/demo/eventsourcing/InMemoryEventStore.java:88-93 | on a gapless stream, the events after version `v` are the stream from position `v` on, each with its position + 1 as version |
| `EventStores.WithinByTime` | src/main/java/com/finance/demo/eventsourcing/InMemoryEventStore.java:127-134 | the time-range query keeps exactly the log's events within both bounds, as a permutation of them sorted by timestamp |
| `EventStores.WithinByTimeStable` | src/main/java/com/finance/demo/eventsourcing/InMemoryEventStore.java:127-134 | the time query's sort is stable: events with the same timestamp come out in the order they were stored |
| `DomainEvents.DomainEvent.SimpleName` | src/main/java/com/finance/demo/eventsourcing/InMemoryEventStore.java:66 | the class name stored with an event is never blank for the four account events; only another event class, such as an anonymous one, can have a blank name |
| `EventStores.InMemoryEventStore.constructor` | src/main/java/com/finance/demo/eventsourcing/InMemoryEventStore.java:28-34 | a new store has no streams, an empty log and sequence 0 |
| `EventStores.InMemoryEventStore.Stream` | src/main/java/com/finance/demo/eventsourcing/InMemoryEventStore.java:88 | an aggregate without a stream has no events |
| `EventStores.InMemoryEventStore.SaveEvents` | src/main/java/com/finance/demo/eventsourcing/InMemoryEventStore.java:37-75 | a blank id throws and a null or empty list does nothing, before any version check; a stream whose length is not the expected version throws ConcurrencyException with both numbers after creating the empty stream; otherwise the events are stored in order with consecutive versions and sequence numbers up to the first event whose class has a blank simple name, which throws after taking its sequence number; the store's invariant is kept |
| `EventStores.InMemoryEventStore.SaveEventsAtomic` | src/main/java/com/finance/demo/eventsourcing/InMemoryEventStore.java:37-75 | as intended: a failing save appends nothing and takes no sequence number; a save of named events to a stream of the expected length appends all of them |
| `EventStores.InMemoryEventStore.StoreInOrder` | src/main/java/com/finance/demo/eventsourcing/InMemoryEventStore.java:59-73 | the loop appends the stamped events before the first unnamed one to both the stream and the log, and advances the sequence by one per attempted event |
| `EventStores.InMemoryEventStore.StoreOne` | src/main/java/com/finance/demo/eventsourcing/InMemoryEventStore.java:60-72 | one pass takes the next sequence number, and stores the event at the next version unless its type name is blank |
| `EventStores.InMemoryEventStore.EventsForAggregateFrom` | src/main/java/com/finance/demo/eventsourcing/InMemoryEventStore.java:82-94 | a blank or unknown id gives nothing; otherwise no more events than the stream holds |
| `EventStores.InMemoryEventStore.EventsForAggregate` | src/main/java/com/finance/demo/eventsourcing/InMemoryEventStore.java:77-80 | a blank or unknown id gives nothing |
| `EventStores.InMemoryEventStore.EventsAfterVersion` | src/main/java/com/finance/demo/eventsourcing/InMemoryEventStore.java:82-94 | the events after `fromVersion` are the stream's payloads from that position on, all of them for a negative version and none past the end |
| `EventStores.InMemoryEventStore.WholeStream` | src/main/java/com/finance/demo/eventsourcing/InMemoryEventStore.java:77-80 | the one-argument query returns the whole stream's payloads |
| `EventStores.InMemoryEventStore.AllEvents` | src/main/java/com/finance/demo/eventsourcing/InMemoryEventStore.java:96-102 | every stored event appears once, sorted by global sequence |
| `EventStores.InMemoryEventStore.AllEventsInStorageOrder` | src/main/java/com/finance/demo/eventsourcing/InMemoryEventStore.java:96-102 | since sequence numbers increase along the log, the sorted list is the log's order |
| `EventStores.InMemoryEventStore.EventsByType` | src/main/java/com/finance/demo/eventsourcing/InMemoryEventStore.java:104-115 | a null type gives nothing; never more events than the log holds |
| `EventStores.InMemoryEventStore.EventsByTypeInStorageOrder` | src/main/java/com/finance/demo/eventsourcing/InMemoryEventStore.java:104-115 | the events of one type are exactly the log's events of that type, in storage order |
| `EventStores.InMemoryEventStore.EventsByTimeRange` | src/main/java/com/finance/demo/eventsourcing/InMemoryEventStore.java:117-135 | a missing bound or a start after the end throws IllegalArgumentException with the source's message; otherwise the events within both bounds, ordered by timestamp |
| `EventStores.InMemoryEventStore.CurrentVersion` | src/main/java/com/finance/demo/eventsourcing/InMemoryEventStore.java:137-145 | 0 for a blank or unknown id, otherwise the stream length |
| `EventStores.InMemoryEventStore.CurrentVersionIsLastVersion` | src/main/java/com/finance/demo/eventsourcing/InMemoryEventStore.java:137-145 | the current version is the version of the stream's last event, and every event's version lies between 1 and it |
| `EventStores.InMemoryEventStore.TotalEventCount` | src/main/java/com/finance/demo/eventsourcing/InMemoryEventStore.java:147-150 | the number of events in the log |
| `EventStores.InMemoryEventStore.TotalEventCountAtMostSequence` | src/main/java/com/finance/demo/eventsourcing/InMemoryEventStore.java:147-150 | sequence numbers are never reused: the log holds at most as many events as numbers handed out |
| `EventStores.InMemoryEventStore.Clear` | src/main/java/com/finance/demo/eventsourcing/InMemoryEventStore.java:155-159 | no streams, an empty log and sequence 0 afterwards |
| `EventStores.InMemoryEventStore.ClearAggregate` | src/main/java/com/finance/demo/eventsourcing/InMemoryEventStore.java:164-173 | a blank id changes nothing; otherwise the aggregate's stream is gone and the log keeps exactly the other aggregates' events; the invariant and the sequence are kept |
| `EventStores.IncreasingFromOne` | src/main/java/com/finance/demo/eventsourcing/InMemoryEventStore.java:62-63 | positive, strictly increasing sequence numbers are at least their position + 1 |
| `EventStores.RemoveAllIsOtherAggregates` | src/main/java/com/finance/demo/eventsourcing/InMemoryEventStore.java:169-172 | removing every event equal to one of the aggregate's events leaves exactly the other aggregates' events |
| `EventStores.NoEventsOfAbsentAggregate` | src/main/java/com/finance/demo/eventsourcing/InMemoryEventStore.java:169-172 | an aggregate with no stream has no events in the log |
| `EventStores.ClearKeepsValid` | src/main/java/com/finance/demo/eventsourcing/InMemoryEventStore.java:164-173 | clearing one aggregate keeps the store's invariant |
| `EventStores.RemovalKeepsValid` | src/main/java/com/finance/demo/eventsourcing/InMemoryEventStore.java:169-172 | dropping one aggregate's stream and its events keeps the store's invariant |
| `EventStores.AppendPrefixKeepsValid` | src/main/java/com/finance/demo/eventsourcing/InMemoryEventStore.java:59-73 | storing the events before the first unnamed one, with one more sequence number taken when one fails, keeps the invariant |
| `EventStores.AppendKeepsValid` | src/main/java/com/finance/demo/eventsourcing/InMemoryEventStore.java:59-73 | appending stamped events to a stream and to the log keeps the invariant |
| `EventStores.AppendGapless` | src/main/java/com/finance/demo/eventsourcing/InMemoryEventStore.java:60-65 | appending events numbered on from the stream length keeps versions gapless |
| `EventStores.AppendSequences` | src/main/java/com/finance/demo/eventsourcing/InMemoryEventStore.java:62-63 | appending events with the next sequence numbers keeps them positive, bounded and strictly increasing |
| `EventStores.AppendMembership` | src/main/java/com/finance/demo/eventsourcing/InMemoryEventStore.java:71-72 | after adding the same events to the stream and the log, every stream event is in the log and every log event is in its aggregate's stream |
| `EventStores.MixedBatch` | src/main/java/com/finance/demo/eventsourcing/InMemoryEventStore.java:66 | a batch whose second event's class has a blank simple name |
| `EventStores.PartialWriteWitness` | src/main/java/com/finance/demo/eventsourcing/InMemoryEventStore.java:59-73 | as written, saving that batch to a new stream fails yet leaves version 1 and one stored event |
| `EventStores.AtomicWriteWitness` | src/main/java/com/finance/demo/eventsourcing/InMemoryEventStore.java:37-75 | with the up-front check the same save fails and stores nothing |
| `SnapshotStores.MaxByVersion` | src/main/java/com/finance/demo/eventsourcing/InMemorySnapshotStore.java:81-82 | the maximum is one of the snapshots and no snapshot has a higher version |
| `SnapshotStores.Merged` | src/main/java/com/finance/demo/eventsourcing/InMemorySnapshotStore.java:55-60 | the list a save builds is sorted by version and holds the old snapshots of other versions plus the new one |
| `SnapshotStores.MergedMembers` | src/main/java/com/finance/demo/eventsourcing/InMemorySnapshotStore.java:55-57 | after the merge, the new snapshot is present, an old one stays exactly when its version differs, and the list grows by at most one |
| `SnapshotStores.Trimmed` | src/main/java/com/finance/demo/eventsourcing/InMemorySnapshotStore.java:108-122 | the cleaned list is unchanged when short enough and otherwise exactly `keepCount` long, drawn from the old list |
| `SnapshotStores.TrimmedKeepsHighest` | src/main/java/com/finance/demo/eventsourcing/InMemorySnapshotStore.java:113-118 | nothing the cleanup drops has a higher version than anything it keeps |
| `SnapshotStores.MergedUnique` | src/main/java/com/finance/demo/eventsourcing/InMemorySnapshotStore.java:55-57 | replacing the snapshot of the same version keeps each version at most once |
| `SnapshotStores.TrimmedUnique` | src/main/java/com/finance/demo/eventsourcing/InMemorySnapshotStore.java:108-122 | trimming keeps each version at most once |
| `SnapshotStores.SaveKeepsValidList` | src/main/java/com/finance/demo/eventsourcing/InMemorySnapshotStore.java:50-66 | a save keeps an aggregate's list valid: its own snapshots, distinct versions, at most three |
| `SnapshotStores.UpdateKeepsValid` | src/main/java/com/finance/demo/eventsourcing/InMemorySnapshotStore.java:50-63 | replacing one aggregate's list by a valid one keeps the whole store valid |
| `SnapshotStores.InMemorySnapshotStore.constructor` | src/main/java/com/finance/demo/eventsourcing/InMemorySnapshotStore.java:26 | a new store holds no snapshots |
| `SnapshotStores.InMemorySnapshotStore.Existing` | src/main/java/com/finance/demo/eventsourcing/InMemorySnapshotStore.java:75 | an aggregate without an entry has no snapshots |
| `SnapshotStores.InMemorySnapshotStore.SaveSnapshot` | src/main/java/com/finance/demo/eventsourcing/InMemorySnapshotStore.java:32-67 | fails exactly on a blank id, missing data or a negative version, with the source's messages in that order and nothing changed; otherwise only that aggregate's list changes, to the merged list trimmed to the three highest versions; validity is kept |
| `SnapshotStores.InMemorySnapshotStore.ReplaceAndTrim` | src/main/java/com/finance/demo/eventsourcing/InMemorySnapshotStore.java:50-66 | storing the merged list and then cleaning up leaves the trimmed merged list and changes no other aggregate |
| `SnapshotStores.InMemorySnapshotStore.CleanupOldSnapshots` | src/main/java/com/finance/demo/eventsourcing/InMemorySnapshotStore.java:103-123 | a blank id, a non-positive count or an unknown id change nothing; otherwise only that aggregate's list is trimmed to its `keepCount` highest versions; a store that keeps its invariant still keeps it |
| `SnapshotStores.InMemorySnapshotStore.GetSnapshot` | src/main/java/com/finance/demo/eventsourcing/InMemorySnapshotStore.java:69-83 | empty exactly for a blank id or an aggregate without snapshots; otherwise a stored snapshot of the highest version |
| `SnapshotStores.InMemorySnapshotStore.GetSnapshotAtOrBefore` | src/main/java/com/finance/demo/eventsourcing/InMemorySnapshotStore.java:85-100 | empty exactly when no stored snapshot has a version at most `version`; otherwise a stored one of the highest such version |
| `SnapshotStores.InMemorySnapshotStore.Clear` | src/main/java/com/finance/demo/eventsourcing/InMemorySnapshotStore.java:125-128 | no snapshots remain |
| `SnapshotStores.InMemorySnapshotStore.ClearAggregate` | src/main/java/com/finance/demo/eventsourcing/InMemorySnapshotStore.java:133-137 | only the given aggregate's list is removed, and nothing for a blank id |
| `SnapshotStores.InMemorySnapshotStore.GetAllSnapshots` | src/main/java/com/finance/demo/eventsourcing/InMemorySnapshotStore.java:153-163 | empty for a blank id, otherwise the aggregate's whole list |
| `SnapshotStores.SaveKeepsHighest` | src/main/java/com/finance/demo/eventsourcing/InMemorySnapshotStore.java:55-66 | after a save at most three snapshots remain, each either the new one or an old one of another version, and none dropped is newer than one kept |
| `SnapshotStores.LowVersionDiscarded` | src/main/java/com/finance/demo/eventsourcing/InMemorySnapshotStore.java:55-66 | saving a version lower than three stored ones discards it and keeps those three |
| `SnapshotStores.SavedVersionReadsBack` | src/test/java/com/finance/demo/Day2IntegrationTest.java:253-259 | a snapshot saved at version 10 reads back as the latest, with version 10 and its data |
| `AccountRepositories.ShiftedView` | src/main/java/com/finance/demo/eventsourcing/EventSourcedAccountRepository.java:48-66 | a replay resumed at a snapshot's version that, shifted by it, is the full replay gives the full replay's outcome |
| `AccountRepositories.OpenedIds` | src/main/java/com/finance/demo/eventsourcing/EventSourcedAccountRepository.java:76-79 | the ids of the opening events in the log, with an owner filter when one is given: an id is listed exactly when such an event exists; no more ids than events |
| `AccountRepositories.ResumeFromSnapshot` | src/main/java/com/finance/demo/eventsourcing/EventSourcedAccountRepository.java:48-66 | resuming from the state the first `v` events reached gives the same outcome as replaying everything |
| `AccountRepositories.ReplayedEventsNamed` | src/main/java/com/finance/demo/eventsourcing/EventSourcedAccountRepository.java:101-105 | events that replay cleanly are account events, whose class names are never blank |
| `AccountRepositories.ReplayPrefixClean` | src/main/java/com/finance/demo/eventsourcing/EventSourcedAccountRepository.java:48-66 | a replay that ran through `a + b` ran through `a` |
| `AccountRepositories.SyncedEventsNamed` | src/main/java/com/finance/demo/eventsourcing/EventSourcedAccountRepository.java:100-105 | pending events that replay cleanly after the stored history can all be stored |
| `AccountRepositories.SavedOrNewerKept` | src/main/java/com/finance/demo/eventsourcing/EventSourcedAccountRepository.java:186-188 | after saving a snapshot, one at least as new is kept |
| `AccountRepositories.NewestKept` | src/main/java/com/finance/demo/eventsourcing/EventSourcedAccountRepository.java:186-188 | a snapshot newer than every stored one is kept, and every other kept one is older |
| `AccountRepositories.PrefixPayloads` | src/main/java/com/finance/demo/eventsourcing/EventSourcedAccountRepository.java:101-105 | appending to a stream keeps the payloads of its prefixes |
| `AccountRepositories.CommitKeepsSync` | src/main/java/com/finance/demo/eventsourcing/EventSourcedAccountRepository.java:100-108 | committing the pending events of an account in step with its stream keeps it in step, with nothing pending, and keeps the snapshot agreeing |
| `AccountRepositories.SyncedAfterAppend` | src/main/java/com/finance/demo/eventsourcing/EventSourcedAccountRepository.java:100-108 | after the append and the commit, the account is in step with the longer stream |
| `AccountRepositories.AgreesAfterAppend` | src/main/java/com/finance/demo/eventsourcing/EventSourcedAccountRepository.java:100-105 | a snapshot that agrees with a stream still agrees after an append |
| `AccountRepositories.SavedSnapshotIsLatest` | src/main/java/com/finance/demo/eventsourcing/EventSourcedAccountRepository.java:186-188 | after a due snapshot is saved, the latest is at least as new, and it is the saved one when nothing newer was stored |
| `AccountRepositories.CurrentSnapshotAgrees` | src/main/java/com/finance/demo/eventsourcing/EventSourcedAccountRepository.java:186-188 | a snapshot of an account in step with its stream, taken at its version, agrees with the stream |
| `AccountRepositories.Collect` | src/main/java/com/finance/demo/eventsourcing/EventSourcedAccountRepository.java:80-83 | gathering the loads in order keeps no more accounts than there are loads |
| `AccountRepositories.CollectOk` | src/main/java/com/finance/demo/eventsourcing/EventSourcedAccountRepository.java:80-83 | gathering succeeds exactly when every load does |
| `AccountRepositories.CollectSound` | src/main/java/com/finance/demo/eventsourcing/EventSourcedAccountRepository.java:80-83 | every gathered account is a loaded one that passes the filter |
| `AccountRepositories.CollectComplete` | src/main/java/com/finance/demo/eventsourcing/EventSourcedAccountRepository.java:80-83 | every loaded account that passes the filter is gathered |
| `AccountRepositories.CollectStep` | src/main/java/com/finance/demo/eventsourcing/EventSourcedAccountRepository.java:80-83 | gathering one more load keeps an earlier failure, takes a new failure, or adds the account when it exists and passes |
| `AccountRepositories.CollectFirstError` | src/main/java/com/finance/demo/eventsourcing/EventSourcedAccountRepository.java:80-83 | once a prefix of the loads fails, the whole gathering fails with that first exception |
| `AccountRepositories.CloseKeepsSync` | src/main/java/com/finance/demo/eventsourcing/EventSourcedAccountRepository.java:127-129 | closing an account in step with its stream keeps it in step with the closing event pending, and all pending events can be stored |
| `AccountRepositories.EventSourcedAccountRepository.constructor` | src/main/java/com/finance/demo/eventsourcing/EventSourcedAccountRepository.java:28-31 | the repository keeps the two stores it is given |
| `AccountRepositories.EventSourcedAccountRepository.Plan` | src/main/java/com/finance/demo/eventsourcing/EventSourcedAccountRepository.java:37-64 | empty exactly for a blank id or when there is neither a snapshot nor an event; otherwise the replay starts from the latest snapshot's state and version with the events after it, or from scratch with the whole history |
| `AccountRepositories.EventSourcedAccountRepository.NothingStored` | src/main/java/com/finance/demo/eventsourcing/EventSourcedAccountRepository.java:38-40 | `findById` is empty exactly for a blank id or an account with no snapshot and no stored event |
| `AccountRepositories.EventSourcedAccountRepository.ResumedLoadIsFullReplay` | src/main/java/com/finance/demo/eventsourcing/EventSourcedAccountRepository.java:48-66 | with an agreeing snapshot, the resumed replay shifted by the snapshot's version is the replay of the whole history |
| `AccountRepositories.EventSourcedAccountRepository.FindById` | src/main/java/com/finance/demo/eventsourcing/EventSourcedAccountRepository.java:37-68 | as written: empty for a blank id or nothing stored; otherwise a new account with the snapshot's fields and the tail replayed, whose version counts only the tail; a replay exception propagates |
| `AccountRepositories.EventSourcedAccountRepository.FindByIdVersionLags` | src/main/java/com/finance/demo/eventsourcing/EventSourcedAccountRepository.java:48-66 | with an agreeing snapshot, the as-written load replays cleanly but reaches only the stream length minus the snapshot's version, while the corrected load reaches the stream length |
| `AccountRepositories.EventSourcedAccountRepository.FindByIdCorrected` | src/main/java/com/finance/demo/eventsourcing/EventSourcedAccountRepository.java:48-66 | with the snapshot's version restored, the loaded account shows exactly the load: its state, and a version equal to the snapshot's plus the tail |
| `AccountRepositories.EventSourcedAccountRepository.Load` | src/main/java/com/finance/demo/eventsourcing/EventSourcedAccountRepository.java:37-68 | a loaded account has the requested id |
| `AccountRepositories.EventSourcedAccountRepository.LoadIsFullReplay` | src/main/java/com/finance/demo/eventsourcing/EventSourcedAccountRepository.java:48-66 | with an agreeing snapshot, the corrected load is the replay of the whole history from scratch, at the history's length |
| `AccountRepositories.EventSourcedAccountRepository.Loads` | src/main/java/com/finance/demo/eventsourcing/EventSourcedAccountRepository.java:80 | the load of each id, in order |
| `AccountRepositories.EventSourcedAccountRepository.LoadEach` | src/main/java/com/finance/demo/eventsourcing/EventSourcedAccountRepository.java:80-83 | loading each id in turn fails exactly when the gathering of the loads fails, with its exception; otherwise each account shows the gathered view at its position |
| `AccountRepositories.EventSourcedAccountRepository.GatherOne` | src/main/java/com/finance/demo/eventsourcing/EventSourcedAccountRepository.java:80-83 | one step of the pipeline propagates a failure, or appends the loaded account when it exists and passes the filter |
| `AccountRepositories.EventSourcedAccountRepository.FindExpected` | src/main/java/com/finance/demo/eventsourcing/EventSourcedAccountRepository.java:80 | a load that is known gives the same failure, nothing, or a new account showing its view |
| `AccountRepositories.EventSourcedAccountRepository.GatheredIds` | src/main/java/com/finance/demo/eventsourcing/EventSourcedAccountRepository.java:80-83 | every gathered account has one of the given ids and passes the filter |
| `AccountRepositories.OpenedByOwner` | src/main/java/com/finance/demo/eventsourcing/EventSourcedAccountRepository.java:76-81 | every account gathered from the ids opened by a user has an opening event that carries an equal user |
| `AccountRepositories.EventSourcedAccountRepository.FindByUserId` | src/main/java/com/finance/demo/eventsourcing/EventSourcedAccountRepository.java:73-84 | the accounts loaded for the ids opened by an equal user, in log order, failing with the first load's exception; every returned account was opened by that user |
| `AccountRepositories.EventSourcedAccountRepository.FindAllActive` | src/main/java/com/finance/demo/eventsourcing/EventSourcedAccountRepository.java:136-145 | the loaded accounts of every opened id that are ACTIVE, in log order; every returned account is ACTIVE |
| `AccountRepositories.EventSourcedAccountRepository.Save` | src/main/java/com/finance/demo/eventsourcing/EventSourcedAccountRepository.java:89-116 | null is rejected with IllegalArgumentException; nothing pending changes nothing; a stream of the wrong length throws IllegalStateException wrapping the conflict and leaves the account and the snapshots alone; otherwise the pending events are appended at the expected version and committed, and a due snapshot becomes the latest; other aggregates' streams stay as they were, the global log and sequence grow only by the stamped events, and the snapshots change only when a snapshot is due, and then only this aggregate's list; an account in sync always saves and stays in sync |
| `AccountRepositories.EventSourcedAccountRepository.Commit` | src/main/java/com/finance/demo/eventsourcing/EventSourcedAccountRepository.java:98-115 | the try block: append at the expected version, commit and snapshot policy, with the same outcomes as `save` on an account with pending events; the event store changes only in this aggregate's stream and by the stamped events in the log and the sequence, and the snapshots change only when a snapshot is due, and then only this aggregate's list |
| `AccountRepositories.EventSourcedAccountRepository.AppendToStore` | src/main/java/com/finance/demo/eventsourcing/EventSourcedAccountRepository.java:100-105 | the store step alone: the pending events go to `saveEvents` at the account's expected version and a version conflict comes back wrapped; the store afterwards is exactly what `saveEvents` leaves (conflict, unnamed event or full append); an account in sync with its stream, whose snapshot agrees, always succeeds and its pending events replay onto the new stream |
| `AccountRepositories.EventSourcedAccountRepository.AppendPending` | src/main/java/com/finance/demo/eventsourcing/EventSourcedAccountRepository.java:100-108 | the append and the commit: a conflict leaves the account unchanged and adds at most this aggregate's empty stream; success appends the stamped events to its stream and to the global log, advances the sequence by their number, moves the account's version past them and empties the queue; other aggregates' streams stay as they were |
| `AccountRepositories.EventSourcedAccountRepository.ConsiderCreatingSnapshot` | src/main/java/com/finance/demo/eventsourcing/EventSourcedAccountRepository.java:177-190 | a snapshot at the current version is saved exactly when none exists or the latest is at least 50 versions old; afterwards the latest is less than 50 behind, is the new one when one was due, and agrees with the stream |
| `AccountRepositories.EventSourcedAccountRepository.TakeSnapshot` | src/main/java/com/finance/demo/eventsourcing/EventSourcedAccountRepository.java:186-189 | the account's snapshot at its version is saved, and becomes the latest unless a newer one is stored; a negative version is rejected |
| `AccountRepositories.EventSourcedAccountRepository.FindByIdAtTime` | src/main/java/com/finance/demo/eventsourcing/EventSourcedAccountRepository.java:157-172 | empty when no event occurred by the given time; otherwise a new account replaying exactly those events in order; a replay exception propagates |
| `AccountRepositories.EventSourcedAccountRepository.AfterLastEventIsLoad` | src/main/java/com/finance/demo/eventsourcing/EventSourcedAccountRepository.java:157-172 | a time at or after every event sees the whole history, and so loads what the corrected `findById` loads |
| `AccountRepositories.EventSourcedAccountRepository.Remove` | src/main/java/com/finance/demo/eventsourcing/EventSourcedAccountRepository.java:121-131 | null and accounts that are not ACTIVE are left alone; an ACTIVE account is closed with the removal reason and saved; a balance left over fails and changes nothing; a zero-balance account always ends CLOSED, and its save either appends the pending and closing events or, when the stream's length differs from the account's version, throws IllegalStateException wrapping the conflict with the closing event still pending and the snapshots unchanged; an in-sync account ends CLOSED with the closing event at the end of its stream |
| `AccountRepositories.EventSourcedAccountRepository.CloseAndSave` | src/main/java/com/finance/demo/eventsourcing/EventSourcedAccountRepository.java:127-130 | the active branch of `remove`: close with the removal reason, then save; the same outcomes as `remove` for an ACTIVE account, out-of-sync conflicts included |
| `AccountRepositories.EventSourcedAccountRepository.CloseForRemoval` | src/main/java/com/finance/demo/eventsourcing/EventSourcedAccountRepository.java:128 | closing with the removal reason fails on a leftover balance without change; otherwise the account is CLOSED with the closing event pending and stays in step with its stream |
| `AccountRepositories.EventSourcedAccountRepository.PurgeAccount` | src/main/java/com/finance/demo/eventsourcing/EventSourcedAccountRepository.java:195-200 | the account's events leave both indexes of the event store and nothing else changes; its snapshots stay |
| `AccountRepositories.EventSourcedAccountRepository.GetAccountHistory` | src/main/java/com/finance/demo/eventsourcing/EventSourcedAccountRepository.java:150-152 | a blank id has no history |
| `AccountRepositories.EventSourcedAccountRepository.HistoryIsWholeStream` | src/main/java/com/finance/demo/eventsourcing/EventSourcedAccountRepository.java:150-152 | the history is the payloads of the whole stream, in version order |
| `AccountRepositories.EventSourcedAccountRepository.GetEventCount` | src/main/java/com/finance/demo/eventsourcing/EventSourcedAccountRepository.java:205-207 | the count is the length of the history |
| `AccountRepositories.EventSourcedAccountRepository.EventCountIsVersion` | src/main/java/com/finance/demo/eventsourcing/EventSourcedAccountRepository.java:205-207 | the count is the store's current version for the account |
| `AccountRepositories.DepositAfterFindById` | src/main/java/com/finance/demo/eventsourcing/EventSourcedAccountRepository.java:48-66 | loading with `findById` as written, depositing and saving fails with a concurrency conflict that expects the stream length minus the snapshot's version, though nothing else wrote |
| `AccountRepositories.DepositAfterFindByIdCorrected` | src/main/java/com/finance/demo/eventsourcing/EventSourcedAccountRepository.java:48-66 | the same steps with the corrected load save, and the stream grows by one event |
| `Transactions.IsHighAmountTransaction` | src/main/java/com/finance/demo/transaction/domain/Transaction.java:125-128 | high amount exactly when the amount is at least 500,000 by value, whatever its scale |
| `Transactions.CalculateRiskLevel` | src/main/java/com/finance/demo/transaction/domain/Transaction.java:131-142 | CRITICAL exactly from 2,000,000, HIGH exactly on [1,000,000, 2,000,000), LOW exactly below the high-amount threshold; every high amount rates above LOW |
| `Transactions.RiskLevelMonotone` | src/main/java/com/finance/demo/transaction/domain/Transaction.java:131-142 | a smaller amount never gets a higher risk level, whatever the category |
| `Transactions.CreationEvents` | src/main/java/com/finance/demo/transaction/domain/Transaction.java:69-91 | the creation event carries the amount and category; a second, high-amount event follows exactly for high amounts, with a risk level above LOW |
| `Transactions.RaiseAll` | src/main/java/com/finance/demo/transaction/domain/Transaction.java:70-91 | raising the events one by one leaves exactly those events, in order, in a new buffer |
| `Transactions.Transaction.constructor` | src/main/java/com/finance/demo/transaction/domain/Transaction.java:55-92 | fields as given, identity unassigned, and the raised events are the creation events |
| `Transactions.Transaction.IsIncome` | src/main/java/com/finance/demo/transaction/domain/Transaction.java:120-122 | a transaction is income exactly when its type is not EXPENSE |
| `Transactions.Transaction.IsExpense` | src/main/java/com/finance/demo/transaction/domain/Transaction.java:116-122 | a transaction is an expense exactly when it is not income |
| `Transactions.Transaction.IsWeekendTransaction` | src/main/java/com/finance/demo/transaction/domain/Transaction.java:145-148 | weekend exactly on ISO days 6 and 7 |
| `Transactions.Transaction.IsLateNightTransaction` | src/main/java/com/finance/demo/transaction/domain/Transaction.java:150-153 | late night exactly outside the hours 6 to 21 |
| `Transactions.Transaction.IsLargerThan` | src/main/java/com/finance/demo/transaction/domain/Transaction.java:155-157 | larger exactly when the amount exceeds the threshold by value, so the threshold compares below the amount |
| `Transactions.Transaction.Categorize` | src/main/java/com/finance/demo/transaction/domain/Transaction.java:95-114 | a null category is rejected and changes nothing; otherwise the category is set and one recategorised event, with the old and new category and the default reason, is raised exactly when the category changed |
| `Transactions.New` | src/main/java/com/finance/demo/transaction/domain/Transaction.java:55-59 | rejected exactly when the amount is null or equals zero at scale 0; otherwise a new transaction carrying the creation events |
| `Transactions.ZeroCheckIsScaleSensitive` | src/main/java/com/finance/demo/transaction/domain/Transaction.java:57-59 | `0` is rejected while `0.00` and a negative amount are accepted, each raising only the creation event |
| `Budgets.Budget.constructor` | src/main/java/com/finance/demo/budget/domain/Budget.java:60-74 | fields as given, spending zero, planned amount positive |
| `Budgets.Budget.AddSpending` | src/main/java/com/finance/demo/budget/domain/Budget.java:77-84 | a negative amount is rejected and changes nothing; otherwise it is added to the spending, so the spending never decreases and stays non-negative |
| `Budgets.Budget.GetRemainingAmount` | src/main/java/com/finance/demo/budget/domain/Budget.java:86-88 | the remainder has the larger of the two scales and added to spent gives planned back by value; its sign is the comparison of planned with spent, so it is negative exactly when over budget |
| `Budgets.Budget.GetUsagePercentage` | src/main/java/com/finance/demo/budget/domain/Budget.java:90-96 | spent over planned, rounded half up to four places, times 100: scale 4 and a multiple of 100 |
| `Budgets.Budget.IsOverBudget` | src/main/java/com/finance/demo/budget/domain/Budget.java:98-100 | over budget exactly when spent exceeds planned by value |
| `Budgets.Budget.IsNearBudgetLimit` | src/main/java/com/finance/demo/budget/domain/Budget.java:102-105 | near the limit implies not over budget and usage of at least 80 |
| `Budgets.New` | src/main/java/com/finance/demo/budget/domain/Budget.java:60-64 | rejected exactly when the planned amount is not above zero; otherwise a new budget with no spending |
| `Budgets.UsageWithinBudget` | src/main/java/com/finance/demo/budget/domain/Budget.java:90-105 | within budget the usage is at most 100; near the limit it is between 80 and 100 |
| `SpendingPatterns.IsUnitInterval` | src/main/java/com/finance/demo/pattern/domain/SpendingPattern.java:76-79 | the score lies in [0, 1] by value |
| `SpendingPatterns.SpendingPattern.constructor` | src/main/java/com/finance/demo/pattern/domain/SpendingPattern.java:69-91 | fields as given once the count and score checks have passed |
| `SpendingPatterns.SpendingPattern.UpdatePattern` | src/main/java/com/finance/demo/pattern/domain/SpendingPattern.java:94-101 | the three amounts and the score are replaced; the count is unchanged |
| `SpendingPatterns.SpendingPattern.IncrementOccurrence` | src/main/java/com/finance/demo/pattern/domain/SpendingPattern.java:103-106 | the count is incremented with 32-bit wrap-around, so one more below the maximum; nothing else but the timestamp changes |
| `SpendingPatterns.SpendingPattern.IsHighConfidence` | src/main/java/com/finance/demo/pattern/domain/SpendingPattern.java:108-110 | high confidence exactly when the score is at least 0.8 by value |
| `SpendingPatterns.SpendingPattern.IsStablePattern` | src/main/java/com/finance/demo/pattern/domain/SpendingPattern.java:112-114 | a stable pattern has high confidence and more than the minimum three occurrences |
| `SpendingPatterns.New` | src/main/java/com/finance/demo/pattern/domain/SpendingPattern.java:69-79 | accepted exactly with at least three occurrences and a score in [0, 1]; the count check comes first |
| `SpendingPatterns.StableAfterIncrement` | src/main/java/com/finance/demo/pattern/domain/SpendingPattern.java:103-114 | a stable pattern is still stable after one more occurrence, short of the 32-bit maximum |
| `Categories.Category.IsExpenseCategory` | src/main/java/com/finance/demo/transaction/domain/Category.java:43-49 | an expense category exactly when it is one of the nine the switch lists, `OTHER` among them |
| `Categories.Category.IsIncomeCategory` | src/main/java/com/finance/demo/transaction/domain/Category.java:54-59 | an income category exactly when it is one of the four income constants, which is exactly when it is not an expense category |
| `Categories.AllCategories` | src/main/java/com/finance/demo/transaction/domain/Category.java:10-28 | the thirteen constants, every category among them |
| `Categories.ExpenseCategories` | src/main/java/com/finance/demo/transaction/domain/Category.java:43-49 | nine categories, `OTHER` among them |
| `Categories.IncomeCategories` | src/main/java/com/finance/demo/transaction/domain/Category.java:54-59 | four categories, `OTHER_INCOME` among them |
| `Categories.ClassificationPartition` | src/main/java/com/finance/demo/transaction/domain/Category.java:43-59 | every category is either an expense or an income category, never both |
| `PatternTypes.PatternType.CycleDays` | src/main/java/com/finance/demo/pattern/domain/PatternType.java:13-16 | the cycle lengths 1, 7, 30 and 90 days, one per type |
| `PatternTypes.PatternType.MatchesCycle` | src/main/java/com/finance/demo/pattern/domain/PatternType.java:37-40 | a day count matches exactly when it lies within a quarter cycle, rounded down, of the cycle length: 1; 6 to 8; 23 to 37; 68 to 112 |
| `PatternTypes.MatchesOwnCycle` | src/main/java/com/finance/demo/pattern/domain/PatternType.java:37-40 | every type matches its own cycle length, in 32-bit arithmetic too |
| `PatternTypes.PatternType.MatchesCycleAsWritten` | src/main/java/com/finance/demo/pattern/domain/PatternType.java:37-40 | `matchesCycle` on 32-bit `int`: it accepts a day count exactly when it lies within a quarter cycle of the cycle length, except at `Integer.MIN_VALUE + cycleDays`, which it also accepts |
| `PatternTypes.MatchesCycleOverflow` | src/main/java/com/finance/demo/pattern/domain/PatternType.java:37-40 | the 32-bit computation and the intended one disagree at exactly one day count, `Integer.MIN_VALUE + cycleDays`, where the 32-bit one matches |
| `PatternTypes.DailyOverflowWitness` | src/main/java/com/finance/demo/pattern/domain/PatternType.java:37-40 | `DAILY` matches `Integer.MIN_VALUE + 1` days as written, although the intended match is false |
| `Int32s.Sub` | src/main/java/com/finance/demo/pattern/domain/PatternType.java:39 | 32-bit subtraction: the exact difference when it fits, 2^32 more when it falls below MIN and 2^32 less when it rises above MAX |
| `Int32s.Increment` | src/main/java/com/finance/demo/pattern/domain/SpendingPattern.java:104 | 32-bit `++`: one more below `Integer.MAX_VALUE`, `Integer.MIN_VALUE` at it |
| `Int32s.Abs` | src/main/java/com/finance/demo/pattern/domain/PatternType.java:39 | `Math.abs` on `int`: non-negative and equal to the value or its negation, except at `Integer.MIN_VALUE`, which it returns unchanged |
| `HighAmountEvents.RiskLevel.Level` | src/main/java/com/finance/demo/transaction/domain/event/HighAmountTransactionDetectedEvent.java:61-81 | levels 1 to 4, `LOW` exactly at 1 and `CRITICAL` exactly at 4 |
| `HighAmountEvents.RiskLevel.IsHigherThan` | src/main/java/com/finance/demo/transaction/domain/event/HighAmountTransactionDetectedEvent.java:83-85 | the order `CRITICAL` > `HIGH` > `MEDIUM` > `LOW`, spelled out pair by pair |
| `HighAmountEvents.RiskLevelOrder` | src/main/java/com/finance/demo/transaction/domain/event/HighAmountTransactionDetectedEvent.java:83-85 | "higher than" is irreflexive, transitive and total on distinct levels |
| `HighAmountEvents.HighAmountTransactionDetected.RequiresImmediateAlert` | src/main/java/com/finance/demo/transaction/domain/event/HighAmountTransactionDetectedEvent.java:91-93 | an immediate alert exactly for levels above `MEDIUM` |
| `HighAmountEvents.HighAmountTransactionDetected.RequiresSecurityVerification` | src/main/java/com/finance/demo/transaction/domain/event/HighAmountTransactionDetectedEvent.java:98-101 | security verification exactly at `CRITICAL` or for amounts of at least 1,000,000 by value |
| `HighAmountEvents.CriticalRequiresBoth` | src/main/java/com/finance/demo/transaction/domain/event/HighAmountTransactionDetectedEvent.java:88-101 | a critical event requires both the alert and the verification |
| `RecategorizedEvents.TransactionRecategorized.IsCategoryActuallyChanged` | src/main/java/com/finance/demo/transaction/domain/event/TransactionRecategorizedEvent.java:57-59 | changed exactly when the two categories differ |
| `RecategorizedEvents.TransactionRecategorized.AffectsSpendingPattern` | src/main/java/com/finance/demo/transaction/domain/event/TransactionRecategorizedEvent.java:64-67 | affects patterns exactly for a real change that does not go from an income category to an income category; only real changes do |
| `RecategorizedEvents.New` | src/main/java/com/finance/demo/transaction/domain/event/TransactionRecategorizedEvent.java:29-42 | a null reason becomes the default reason, any other is kept; the categories, amount, user and transaction are as given |
| `RecategorizedEvents.IncomeOnlyChangesDoNotAffect` | src/main/java/com/finance/demo/transaction/domain/event/TransactionRecategorizedEvent.java:64-67 | a move between two income categories does not affect spending patterns |
| `Specifications.Spec.And` | src/main/java/com/finance/demo/shared/specification/AndSpecification.java:16-19 | the conjunction is satisfied exactly when both sides are |
| `Specifications.Spec.Or` | src/main/java/com/finance/demo/shared/specification/OrSpecification.java:16-19 | the disjunction is satisfied exactly when either side is |
| `Specifications.Spec.Not` | src/main/java/com/finance/demo/shared/specification/NotSpecification.java:14-17 | the negation is satisfied exactly when the specification is not |
| `Specifications.DoubleNegation` | src/main/java/com/finance/demo/shared/specification/Specification.java:33-35 | `not().not()` accepts what the original accepts |
| `Specifications.DeMorgan` | src/main/java/com/finance/demo/shared/specification/Specification.java:19-35 | `and(...).not()` agrees with `not().or(not())`, and `or(...).not()` with `not().and(not())` |
| `Specifications.Commutative` | src/main/java/com/finance/demo/shared/specification/Specification.java:19-28 | `and` and `or` accept the same candidates whichever side comes first |
| `Specifications.ExactlyOne` | src/main/java/com/finance/demo/shared/specification/Specification.java:33-35 | a candidate satisfies exactly one of a specification and its negation |
| `TransactionSpecs.HighAmount` | src/main/java/com/finance/demo/transaction/specification/HighAmountTransactionSpec.java:17-32 | a null threshold is rejected; otherwise a transaction is accepted exactly when it is not null and its amount, rounded to cents, is at least the threshold |
| `TransactionSpecs.OverAmount` | src/main/java/com/finance/demo/transaction/specification/HighAmountTransactionSpec.java:42-52 | the factories accept exactly the transactions of at least 100,000, 500,000 or 1,000,000 |
| `TransactionSpecs.CategoryIs` | src/main/java/com/finance/demo/transaction/specification/CategoryTransactionSpec.java:17-31 | a null category is rejected; otherwise a transaction is accepted exactly when it is not null and has that category |
| `TransactionSpecs.CategoryFactory` | src/main/java/com/finance/demo/transaction/specification/CategoryTransactionSpec.java:41-59 | each factory accepts exactly the transactions of its category |
| `TransactionSpecs.InDateRange` | src/main/java/com/finance/demo/transaction/specification/DateRangeTransactionSpec.java:17-31 | a null range is rejected; otherwise a transaction is accepted exactly when it is not null and dated within the range, both ends included |
| `TransactionSpecs.OnDays` | src/main/java/com/finance/demo/transaction/specification/WeekdayTransactionSpec.java:19-38 | a null or empty day set is rejected; otherwise a transaction is accepted exactly when it is not null and falls on one of the days |
| `TransactionSpecs.Weekdays` | src/main/java/com/finance/demo/transaction/specification/WeekdayTransactionSpec.java:48-53 | accepts exactly the transactions from Monday to Friday |
| `TransactionSpecs.Weekends` | src/main/java/com/finance/demo/transaction/specification/WeekdayTransactionSpec.java:55-57 | accepts exactly the Saturday and Sunday transactions |
| `TransactionSpecs.WeekdaysWeekendsPartition` | src/main/java/com/finance/demo/transaction/specification/WeekdayTransactionSpec.java:48-57 | every transaction satisfies exactly one of the two; a null one satisfies neither |
| `TransactionSpecs.ExpenseIsNotIncome` | src/main/java/com/finance/demo/transaction/specification/ExpenseTransactionSpec.java:15-22 | the shared instance accepts a transaction exactly when it is not income, and never a null one |
| `TransactionSpecs.DateRangeIncludesEndpoints` | src/main/java/com/finance/demo/transaction/specification/DateRangeTransactionSpec.java:24-31 | a transaction dated exactly at the start or the end of a range is accepted |
| `TransactionSpecs.IntegrationScenarios` | src/test/java/com/finance/demo/Day2IntegrationTest.java:133-183 | 50,000 is below and 150,000 above a 100,000 threshold; a 120,000 food expense satisfies "over 100,000 and food", "shopping or food" and "not shopping" |
| `TransactionSpecs.NormalizeInteger` | src/main/java/com/finance/demo/shared/domain/Money.java:19-28 | a whole amount becomes that many hundred cents |
| `Sorting.InsertBy` | src/main/java/com/finance/demo/transaction/specification/RegularSpendingPatternSpec.java:57-60 | inserting into a sorted list keeps it sorted and adds exactly that element |
| `Sorting.SortBy` | src/main/java/com/finance/demo/transaction/specification/RegularSpendingPatternSpec.java:57-60 | the sorted list is ordered by date and a permutation of the input |
| `Sorting.InsertByStable` | src/main/java/com/finance/demo/transaction/specification/RegularSpendingPatternSpec.java:57-60 | an inserted element goes after every element with its key |
| `Sorting.SortByStable` | src/main/java/com/finance/demo/transaction/specification/RegularSpendingPatternSpec.java:57-60 | the sort is stable: the elements of each key keep their input order |
| `Sorting.SortBySorted` | src/main/java/com/finance/demo/transaction/specification/RegularSpendingPatternSpec.java:57-60 | sorting an already sorted list leaves it unchanged |
| `Sorting.SortedKeysUnique` | src/main/java/com/finance/demo/transaction/specification/RegularSpendingPatternSpec.java:57-60 | two sorted permutations of one list have the same dates, position by position |
| `RegularSpending.New` | src/main/java/com/finance/demo/transaction/specification/RegularSpendingPatternSpec.java:35-49 | accepted exactly with at least two occurrences, a non-null, non-negative interval tolerance and an amount tolerance in [0, 1]; otherwise IllegalArgumentException |
| `RegularSpending.NewWithDefaultTolerance` | src/main/java/com/finance/demo/transaction/specification/RegularSpendingPatternSpec.java:31-33 | the two-argument constructor accepts what the three-argument one does and sets a 10% tolerance |
| `RegularSpending.Average` | src/main/java/com/finance/demo/transaction/specification/RegularSpendingPatternSpec.java:113-116 | the average keeps the scale of the sum, as `divide(divisor, ROUND_HALF_UP)` does |
| `RegularSpending.HasConsistentIntervals` | src/main/java/com/finance/demo/transaction/specification/RegularSpendingPatternSpec.java:78-102 | the scan returns true exactly when there are at least two transactions and every later interval is within the tolerance of the first |
| `RegularSpending.HasSimilarAmounts` | src/main/java/com/finance/demo/transaction/specification/RegularSpendingPatternSpec.java:107-130 | the scan returns true exactly when the list is not empty and every amount is within the tolerance of the average |
| `RegularSpending.IsSatisfiedBy` | src/main/java/com/finance/demo/transaction/specification/RegularSpendingPatternSpec.java:51-73 | satisfied exactly when the list is not null, has enough occurrences, and sorted by date has consistent intervals and similar amounts |
| `RegularSpending.CalculatePatternStrength` | src/main/java/com/finance/demo/transaction/specification/RegularSpendingPatternSpec.java:136-146 | zero whenever the specification is not satisfied, the weighted score otherwise |
| `RegularSpending.SumRemove` | src/main/java/com/finance/demo/transaction/specification/RegularSpendingPatternSpec.java:113-115 | the sum is the sum of the rest plus any one element taken out |
| `RegularSpending.SumPermutation` | src/main/java/com/finance/demo/transaction/specification/RegularSpendingPatternSpec.java:113-115 | the sum does not depend on the order of the amounts |
| `RegularSpending.IntervalsFromKeys` | src/main/java/com/finance/demo/transaction/specification/RegularSpendingPatternSpec.java:78-102 | the interval check depends only on the dates in order |
| `RegularSpending.AmountsFromMultiset` | src/main/java/com/finance/demo/transaction/specification/RegularSpendingPatternSpec.java:107-130 | the amount check does not depend on the order of the transactions |
| `RegularSpending.OrderIndependent` | src/main/java/com/finance/demo/transaction/specification/RegularSpendingPatternSpec.java:51-73 | whether the specification is satisfied does not depend on the order the transactions are given in |
| `RegularSpending.SumAppend` | src/main/java/com/finance/demo/transaction/specification/RegularSpendingPatternSpec.java:113-115 | appending a transaction adds its amount to the sum |
| `RegularSpending.SumOfFour` | src/main/java/com/finance/demo/transaction/specification/RegularSpendingPatternSpec.java:113-115 | four whole amounts sum as integers |
| `RegularSpending.WeeklyPaymentsAverage` | src/test/java/com/finance/demo/Day2IntegrationTest.java:188-195 | the four weekly payments average 46,500 |
| `RegularSpending.CloseWithinTenPercent` | src/main/java/com/finance/demo/transaction/specification/RegularSpendingPatternSpec.java:119-126 | with the default tolerance, a whole amount is close exactly when it deviates by at most a tenth of the average |
| `RegularSpending.WeeklyPaymentsSimilar` | src/test/java/com/finance/demo/Day2IntegrationTest.java:188-195 | every weekly payment is within 10% of the average |
| `RegularSpending.WeeklyPaymentsSorted` | src/test/java/com/finance/demo/Day2IntegrationTest.java:188-195 | the weekly payments are already in date order |
| `RegularSpending.WeeklyPaymentsIntervals` | src/test/java/com/finance/demo/Day2IntegrationTest.java:188-198 | their intervals are consistent within two days |
| `RegularSpending.WeeklyPaymentsAreRegular` | src/test/java/com/finance/demo/Day2IntegrationTest.java:188-200 | the specification with three occurrences and two days of tolerance accepts the four weekly payments |
| `Decimals.CompareTo` | src/main/java/com/finance/demo/budget/domain/Budget.java:98-100 | `BigDecimal.compareTo`: -1, 0 or 1, the sign of the difference of the two values brought to a common scale |
| `Decimals.EqualsIsScaleSensitive` | src/main/java/com/finance/demo/transaction/domain/Transaction.java:57 | `0.00` compares equal to `BigDecimal.ZERO` but is not `equals` to it |
| `Decimals.Add` | src/main/java/com/finance/demo/budget/domain/Budget.java:82 | `BigDecimal.add`: the result has the larger of the two scales and its value is the sum of the two values |
| `Decimals.AddCompare` | src/main/java/com/finance/demo/budget/domain/Budget.java:77-84 | adding an amount moves a total up, down or nowhere as the amount compares with zero |
| `Decimals.AddCommutes` | src/main/java/com/finance/demo/transaction/specification/RegularSpendingPatternSpec.java:113-115 | addition does not depend on the order of its operands |
| `Decimals.AddAssociates` | src/main/java/com/finance/demo/transaction/specification/RegularSpendingPatternSpec.java:113-115 | addition does not depend on how the additions are grouped |
| `Decimals.AddIntegers` | src/main/java/com/finance/demo/transaction/specification/RegularSpendingPatternSpec.java:113-115 | whole numbers add as integers |
| `Decimals.Subtract` | src/main/java/com/finance/demo/budget/domain/Budget.java:87 | `BigDecimal.subtract`: the result has the larger of the two scales and its value is the difference of the two values |
| `Decimals.SubtractSign` | src/main/java/com/finance/demo/budget/domain/Budget.java:86-88 | the sign of a difference is the comparison of its operands |
| `Decimals.Multiply` | src/main/java/com/finance/demo/budget/domain/Budget.java:95 | `BigDecimal.multiply`: the scales add and the value is the product of the two values |
| `Decimals.MultiplySign` | src/main/java/com/finance/demo/transaction/specification/RegularSpendingPatternSpec.java:119 | the sign of a product is the product of the signs |
| `Decimals.Abs` | src/main/java/com/finance/demo/transaction/specification/RegularSpendingPatternSpec.java:123 | `BigDecimal.abs`: same scale, non-negative, the value or its negation |
| `Decimals.RoundHalfUpDiv` | src/main/java/com/finance/demo/budget/domain/Budget.java:94 | integer division rounded half away from zero, signed as the quotient |
| `Decimals.RoundingUnique` | src/main/java/com/finance/demo/budget/domain/Budget.java:94 | half-up rounding of a quotient has exactly one result |
| `Decimals.DivideToScale` | src/main/java/com/finance/demo/budget/domain/Budget.java:94 | `divide(divisor, scale, HALF_UP)`: the exact quotient rounded half up at the requested scale |
| `Decimals.SetScale` | src/main/java/com/finance/demo/shared/domain/Money.java:23 | `setScale(scale, HALF_UP)`: the value rounded half up at the requested scale |
| `Decimals.SetScaleSame` | src/main/java/com/finance/demo/shared/domain/Money.java:23 | rescaling to the scale a value already has changes nothing |
| `Decimals.SetScaleUp` | src/main/java/com/finance/demo/shared/domain/Money.java:23 | rescaling to a larger scale is exact |
| `Sequences.Filter` | src/main/java/com/finance/demo/eventsourcing/InMemoryEventStore.java:88-93 | `stream().filter`: exactly the elements that pass, never more than the input |
| `Sequences.FilterAppend` | src/main/java/com/finance/demo/eventsourcing/InMemoryEventStore.java:88-93 | filtering a concatenation concatenates the filtered parts |
| `Sequences.FilterIncreasing` | src/main/java/com/finance/demo/eventsourcing/InMemoryEventStore.java:104-115 | filtering keeps a strictly increasing list strictly increasing |

## Left out

- Concurrency: `synchronized`, `ConcurrentHashMap.compute`, `AtomicLong` and the synchronised lists are not modelled. Each store operation is one sequential step, and the all-or-nothing append states what the lock guarantees.
- Clock and identifiers: `LocalDateTime.now()` and `UUID.randomUUID()` become the parameters `now` and `eventId`.
- Calendar arithmetic: `DateRange.lastDays`, `currentMonth`, `lastMonth` and `getDays`, `Budget.isPeriodActive` and `BudgetPeriod.calculateEndDate` are not modelled. Dates are integer instants, and a transaction's day of week and hour are given as inputs rather than computed.
- Floating point: `calculateIntervalConsistency`, `calculateAmountConsistency` and the 60/40 weighting in `calculatePatternStrength` use `double` and `Math.sqrt`. They are not modelled. `RegularSpending.CalculatePatternStrength` takes the weighted score as an input and models only the zero guard.
- The amount tolerance of the regular-spending specification is a `double` in the source. The model takes the decimal that `BigDecimal.valueOf` makes of it.
- Framework plumbing is not part of this model: Spring services, controllers, event handlers and the publisher, the JPA entities, repositories and no-argument constructors, and the demo data initialiser.
- Debug and formatting members are not modelled: `toString`, `printEventStore`, `printSnapshotStore`, `estimateMemoryUsage` and `getSnapshotCounts`.
- `Transaction.isSameCategoryAs` and the plain getters are not modelled.
- Data-only event records are not modelled: `TransactionCreatedEvent` beyond the fields the model reads, `PatternDiscoveredEvent` and `BudgetExceededEvent`.
- Event classes: `getEventsByType`'s `Class.isInstance` and `StoredEvent.isEventType`'s simple-name comparison are modelled with an event-kind tag. The event classes are records, so they have no subclasses. A query by a supertype, such as `DomainEvent` itself, which `isInstance` would answer with every event, is not modelled.
- `BigDecimal` with a negative scale is not modelled: every scale is a natural number.
- Java `long` and `int` overflow is not modelled, except in `PatternType.matchesCycle` and `SpendingPattern.incrementOccurrence`, where it is written out with `Int32s`. Versions, sequence numbers and cents are unbounded integers.
- Short-circuit evaluation in `AndSpecification` and `OrSpecification` is not observable: specifications are pure, so the model states only the truth value.
- `ExpenseTransactionSpec.instance()` returning one shared object is modelled as a constant. Object identity of a stateless specification is not observable.
- Null arguments and elements that only cause a `NullPointerException` are not modelled: a `null` element in the list given to `saveEvents` (it throws after the sequence has advanced and the earlier events are stored, a second partial-write path besides the one under Findings), a `null` argument to `Money.add` and `Money.subtract`, and the varargs `WeekdayTransactionSpec(DayOfWeek...)` constructor, whose `Set.of` rejects repeated days; the model builds the day set directly.
- `purgeAccount` only clears the event store in the source, and so does the model: snapshots of a purged account stay in the snapshot store.
- `AccountRepositories.EventSourcedAccountRepository.FindByUserId`, `FindAllActive` and `AccountRepositories.EventSourcedAccountRepository.LoadEach` use the corrected load described under Findings, not the version-lagging one.
- `AccountRepositories.EventSourcedAccountRepository.LoadEach` does not state that the accounts it returns are newly allocated objects. Its contract speaks of their states only.
- `AccountRepositories.EventSourcedAccountRepository.FindByUserId` does not state that the returned accounts are newly allocated.
- `AccountRepositories.EventSourcedAccountRepository.FindAllActive` does not state that the returned accounts are newly allocated.
- `Budgets.Budget.IsNearBudgetLimit` states only the direction from the result to "usage of at least 80 and not over budget". The converse is the predicate's own definition.
- `SpendingPatterns.SpendingPattern.IsStablePattern` states only that a stable pattern has high confidence and more than three occurrences. The exact condition is at least five occurrences and high confidence, which is the predicate's own definition.
- `UserIds.UserId.Equals` and `DateRanges.DateRange.Equals` state one direction in their own contracts. The lemmas `UserIds.EqualsIsValueEquality` and `DateRanges.EqualsIsValueEquality` prove both directions.

## Findings

| source | as written | input that shows it | evidently intended | confidence | as-written member | corrected member |
|---|---|---|---|---|---|---|
| src/main/java/com/finance/demo/eventsourcing/Account.java:154-166 | `loadFromSnapshot` restores balance, status, user and creation time but not the version. After `findById` from a snapshot, the account's version is only the number of events replayed after the snapshot, so its next `save` fails with a version conflict. | an account whose latest snapshot is at version 1 or more (every account snapshots on its first save), reloaded with `findById` and then given a deposit | the version is set to the snapshot's version, so the reloaded account's version equals the stored event count and the next save succeeds | not executed | `AccountRepositories.DepositAfterFindById` | `AccountRepositories.DepositAfterFindByIdCorrected` |
| src/main/java/com/finance/demo/eventsourcing/InMemoryEventStore.java:59-73 | `saveEvents` builds each `StoredEvent` inside the append loop. An event whose class has a blank simple name (an anonymous class) makes the record constructor throw after the earlier events are already stored. The repository saves only account events, whose names are never blank, so it is not affected. | a batch of an ordinary event followed by an event of an anonymous class, saved to a new stream at expected version 0 | the append is all-or-nothing: a failing batch stores nothing | not executed | `EventStores.PartialWriteWitness` | `EventStores.InMemoryEventStore.SaveEventsAtomic` |
| src/main/java/com/finance/demo/pattern/domain/PatternType.java:37-40 | `matchesCycle` computes `Math.abs(daysBetween - cycleDays)` on 32-bit `int`. At `daysBetween = Integer.MIN_VALUE + cycleDays` the difference is `Integer.MIN_VALUE`, whose absolute value is itself and negative, so it counts as a match. | `DAILY.matchesCycle(Integer.MIN_VALUE + 1)` | a match only within a quarter cycle of the cycle length | not executed | `PatternTypes.DailyOverflowWitness` | `PatternTypes.PatternType.MatchesCycle` |
