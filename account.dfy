/** The event-sourced bank account: its state is whatever replaying its events
    yields. `Evolve` and `Replay` are the pure specification of `applyEvent` and
    `loadFromHistory`; the class `Account` holds the mutable aggregate (the
    bookkeeping of `EventSourcedAggregate` and the fields of `Account` together). */
module Accounts {
  import opened Wrappers
  import opened Errors
  import opened Text
  import opened Monies
  import opened UserIds
  import opened DomainEvents

  datatype AccountStatus = Active | Closed | Suspended {
    /** The enum constant's name, which is what `toString` gives. */
    function Name(): (r: string)
      ensures |r| > 0
    {
      match this
      case Active => "ACTIVE"
      case Closed => "CLOSED"
      case Suspended => "SUSPENDED"
    }

    /** The Korean description each constant is declared with. */
    function Description(): (r: string)
      ensures |r| > 0
      ensures this == Active ==> r == "활성"
      ensures this == Closed ==> r == "폐쇄"
      ensures this == Suspended ==> r == "정지"
    {
      match this
      case Active => "활성"
      case Closed => "폐쇄"
      case Suspended => "정지"
    }
  }

  /** Each status has its own constant name and its own description. */
  lemma StatusNamesDistinct(a: AccountStatus, b: AccountStatus)
    ensures a.Name() == b.Name() <==> a == b
    ensures a.Description() == b.Description() <==> a == b
  {
  }

  /** String concatenation of a possibly-null status: "null" only for a missing status. */
  function StatusText(status: Option<AccountStatus>): (r: string)
    ensures |r| > 0
    ensures r == "null" <==> status.None?
  {
    if status.None? then "null" else status.value.Name()
  }

  const BlankId := "애그리게이트 ID는 필수입니다"
  const MissingEvent := "이벤트는 null일 수 없습니다"
  const MissingUserId := "사용자 ID는 필수입니다"
  const NegativeInitialBalance := "초기 잔액은 0 이상이어야 합니다"
  const NonPositiveDeposit := "입금액은 0보다 커야 합니다"
  const NonPositiveWithdrawal := "출금액은 0보다 커야 합니다"
  const BalanceLeftOnClose := "잔액이 있는 계좌는 폐쇄할 수 없습니다"
  const NotAccountSnapshot := "올바른 계좌 스냅샷이 아닙니다"
  const UnknownEvent := "알 수 없는 이벤트: "
  const NotActive := "활성화된 계좌가 아닙니다. 현재 상태: "
  const DefaultDepositDescription := "입금"
  const DefaultWithdrawalDescription := "출금"
  const DefaultCloseReason := "사용자 요청"

  /** The four fields `applyEvent` sets; each is `null` until the account is opened. */
  datatype AccountState = AccountState(userId: Option<UserId>, balance: Option<Money>,
                                       status: Option<AccountStatus>, createdAt: Option<int>)

  /** The state of `new Account(id)` before any event. */
  const Unopened := AccountState(None, None, None, None)

  /** The signed effect of an event on the balance, in cents. */
  function Delta(e: DomainEvent): int {
    match e
    case MoneyDeposited(_, _, _, _, amount, _, _) => amount.cents
    case MoneyWithdrawn(_, _, _, _, amount, _, _) => -amount.cents
    case _ => 0
  }

  predicate MovesMoney(e: DomainEvent) {
    e.MoneyDeposited? || e.MoneyWithdrawn?
  }

  /** `applyEvent` on values: the state after one event, or the exception it throws
      (an unknown event class, or money moved while the balance is still `null`). */
  function Evolve(s: AccountState, e: DomainEvent): (r: Result<AccountState, Error>)
    ensures r.Err? <==> e.Foreign? || (MovesMoney(e) && s.balance.None?)
    ensures e.Foreign? ==> r == Err(IllegalArgument(UnknownEvent + e.simpleName))
    ensures e.AccountOpened? ==>
      r == Ok(AccountState(Some(e.owner), Some(e.initialBalance), Some(Active), Some(e.occurredOn)))
    ensures r.Ok? && !e.AccountOpened? ==> r.value.userId == s.userId && r.value.createdAt == s.createdAt
    ensures r.Ok? && MovesMoney(e) ==>
      r.value.status == s.status && r.value.balance.Some? &&
      r.value.balance.value.cents == s.balance.value.cents + Delta(e)
    ensures r.Ok? && e.AccountClosed? ==> r.value.status == Some(Closed) && r.value.balance == s.balance
  {
    match e
    case AccountOpened(_, occurredOn, _, owner, initialBalance, _) =>
      Ok(AccountState(Some(owner), Some(initialBalance), Some(Active), Some(occurredOn)))
    case MoneyDeposited(_, _, _, _, amount, _, _) =>
      if s.balance.None? then Err(NullReference("balance"))
      else Ok(s.(balance := Some(s.balance.value.Add(amount))))
    case MoneyWithdrawn(_, _, _, _, amount, _, _) =>
      if s.balance.None? then Err(NullReference("balance"))
      else Ok(s.(balance := Some(s.balance.value.Subtract(amount))))
    case AccountClosed(_, _, _, _, _, _) =>
      Ok(s.(status := Some(Closed)))
    case Foreign(_, _, name) =>
      Err(IllegalArgument(UnknownEvent + name))
  }

  /** The outcome of replaying a history: the state reached, how many events were
      applied (each one bumps the version), and the exception that stopped it, if any. */
  datatype Replayed = Replayed(state: AccountState, applied: nat, error: Option<Error>)

  function Shift(r: Replayed, n: nat): Replayed {
    Replayed(r.state, r.applied + n, r.error)
  }

  /** `loadFromHistory` on values: apply the events in order, stopping at the first
      that throws, with the state it left behind. */
  function Replay(s: AccountState, h: seq<DomainEvent>): (r: Replayed)
    ensures r.applied <= |h|
    ensures r.error.None? <==> r.applied == |h|
    ensures r.error.Some? ==> Evolve(r.state, h[r.applied]) == Err(r.error.value)
    decreases |h|
  {
    if h == [] then Replayed(s, 0, None)
    else match Evolve(s, h[0])
      case Err(e) => Replayed(s, 0, Some(e))
      case Ok(next) => Shift(Replay(next, h[1..]), 1)
  }

  /** Replaying `a + b` is replaying `a`, then `b` from where `a` left off. */
  lemma {:induction false} ReplayConcat(s: AccountState, a: seq<DomainEvent>, b: seq<DomainEvent>)
    requires Replay(s, a).error.None?
    ensures Replay(s, a + b) == Shift(Replay(Replay(s, a).state, b), |a|)
    decreases |a|
  {
    if a == [] {
      assert a + b == b;
    } else {
      assert (a + b)[0] == a[0];
      assert (a + b)[1..] == a[1..] + b;
      ReplayConcat(Evolve(s, a[0]).value, a[1..], b);
    }
  }

  /** One more event after a clean replay: either it applies, or it is where the
      replay stops. */
  lemma ReplayAppend(s: AccountState, h: seq<DomainEvent>, e: DomainEvent)
    requires Replay(s, h).error.None?
    ensures var st := Replay(s, h).state;
      Replay(s, h + [e]) ==
        if Evolve(st, e).Ok? then Replayed(Evolve(st, e).value, |h| + 1, None)
        else Replayed(st, |h|, Some(Evolve(st, e).error))
  {
    ReplayConcat(s, h, [e]);
    var st := Replay(s, h).state;
    if Evolve(st, e).Ok? {
      assert Replay(Evolve(st, e).value, [e][1..]) == Replayed(Evolve(st, e).value, 0, None);
    }
  }

  /** One more successful event of `h`, from state `st` after its first `i` events,
      moves the replay one step on. */
  lemma ReplayStep(s0: AccountState, h: seq<DomainEvent>, i: nat, st: AccountState, next: AccountState)
    requires i < |h|
    requires Replay(s0, h) == Shift(Replay(st, h[i..]), i)
    requires Replay(s0, h[..i]) == Replayed(st, i, None)
    requires Evolve(st, h[i]) == Ok(next)
    ensures Replay(s0, h) == Shift(Replay(next, h[i + 1..]), i + 1)
    ensures Replay(s0, h[..i + 1]) == Replayed(next, i + 1, None)
  {
    assert h[i..][0] == h[i];
    assert h[i..][1..] == h[i + 1..];
    ReplayAppend(s0, h[..i], h[i]);
    assert h[..i + 1] == h[..i] + [h[i]];
  }

  /** An event of `h` that throws from state `st` ends the replay there. */
  lemma ReplayStops(s0: AccountState, h: seq<DomainEvent>, i: nat, st: AccountState)
    requires i < |h|
    requires Replay(s0, h) == Shift(Replay(st, h[i..]), i)
    requires Evolve(st, h[i]).Err?
    ensures Replay(s0, h) == Replayed(st, i, Some(Evolve(st, h[i]).error))
  {
    assert h[i..][0] == h[i];
  }

  lemma AppendNext(h0: seq<DomainEvent>, h: seq<DomainEvent>, i: nat)
    requires i < |h|
    ensures h0 + h[..i] + [h[i]] == h0 + h[..i + 1]
  {
    assert h[..i + 1] == h[..i] + [h[i]];
  }

  /** The net money flow of a history, in cents. */
  function NetFlow(h: seq<DomainEvent>): int {
    if h == [] then 0 else Delta(h[0]) + NetFlow(h[1..])
  }

  predicate NoOpening(h: seq<DomainEvent>) {
    forall i :: 0 <= i < |h| ==> !h[i].AccountOpened?
  }

  predicate NoForeign(h: seq<DomainEvent>) {
    forall i :: 0 <= i < |h| ==> !h[i].Foreign?
  }

  /** On an opened account, a history without a second opening event replays
      cleanly exactly when it holds no foreign event, and the balance it reaches is
      the starting balance plus the net flow of deposits and withdrawals; the owner
      and the creation time never change. */
  lemma {:induction false} ReplayIsNetFlow(s: AccountState, h: seq<DomainEvent>)
    requires s.balance.Some? && NoOpening(h)
    ensures Replay(s, h).error.None? <==> NoForeign(h)
    ensures Replay(s, h).state.balance.Some?
    ensures Replay(s, h).error.None? ==>
      Replay(s, h).state.balance.value.cents == s.balance.value.cents + NetFlow(h)
    ensures Replay(s, h).state.userId == s.userId && Replay(s, h).state.createdAt == s.createdAt
    decreases |h|
  {
    if h != [] {
      assert !h[0].AccountOpened?;
      if Evolve(s, h[0]).Ok? {
        var next := Evolve(s, h[0]).value;
        assert NoOpening(h[1..]) by {
          forall i | 0 <= i < |h[1..]| ensures !h[1..][i].AccountOpened? {
            assert h[1..][i] == h[i + 1];
          }
        }
        ReplayIsNetFlow(next, h[1..]);
        assert NoForeign(h) <==> NoForeign(h[1..]) by {
          if NoForeign(h[1..]) {
            forall i | 0 <= i < |h| ensures !h[i].Foreign? {
              if i > 0 { assert h[i] == h[1..][i - 1]; }
            }
          }
          if NoForeign(h) {
            forall i | 0 <= i < |h[1..]| ensures !h[1..][i].Foreign? {
              assert h[1..][i] == h[i + 1];
            }
          }
        }
      } else {
        assert !NoForeign(h);
      }
    }
  }

  /** The record `createSnapshot` returns. */
  datatype AccountSnapshot = AccountSnapshot(accountId: string, userId: Option<UserId>,
                                             balance: Option<Money>, status: Option<AccountStatus>,
                                             createdAt: Option<int>, version: int)
  {
    function State(): AccountState {
      AccountState(userId, balance, status, createdAt)
    }
  }

  /** `amount != null && !amount.isNegativeOrZero()`. */
  predicate Positive(amount: Option<Money>) {
    amount.Some? && !amount.value.IsNegativeOrZero()
  }

  function OrElse(s: Option<string>, default: string): string {
    if s.Some? then s.value else default
  }

  class Account {
    const id: string
    /** The number of events already stored for this aggregate. */
    var version: int
    /** Events applied by commands and not yet saved, oldest first. */
    var uncommittedEvents: seq<DomainEvent>
    var userId: Option<UserId>
    var balance: Option<Money>
    var status: Option<AccountStatus>
    var createdAt: Option<int>
    /** Every event this object has applied, from commands or from a history, oldest first. */
    ghost var history: seq<DomainEvent>

    function State(): AccountState
      reads this
    {
      AccountState(userId, balance, status, createdAt)
    }

    /** The state is what replaying the applied events from scratch gives. */
    ghost predicate Consistent()
      reads this
    {
      Replay(Unopened, history) == Replayed(State(), |history|, None)
    }

    /** What the commands keep: unopened means all fields unset; an open account has
        every field set and a balance that is not negative; a closed one holds nothing. */
    predicate Sound()
      reads this
    {
      (status.None? ==> State() == Unopened) &&
      (status.Some? ==> userId.Some? && balance.Some? && createdAt.Some? && balance.value.cents >= 0) &&
      (status == Some(Closed) ==> balance.Some? && balance.value.cents == 0)
    }

    /** `new Account(id)` once the aggregate's id check has passed. */
    constructor Restore(id: string)
      requires !IsBlank(id)
      ensures this.id == id && version == 0 && uncommittedEvents == [] && history == []
      ensures State() == Unopened && Consistent() && Sound()
    {
      this.id := id;
      version := 0;
      uncommittedEvents := [];
      userId, balance, status, createdAt := None, None, None, None;
      history := [];
    }

    /** `new Account(String id)`: a blank id is rejected. */
    static method Rehydrate(id: string) returns (r: Result<Account, Error>)
      ensures IsBlank(id) <==> r.Err?
      ensures r.Err? ==> r.error == IllegalArgument(BlankId)
      ensures r.Ok? ==> (fresh(r.value) && r.value.id == id && r.value.version == 0 &&
        r.value.uncommittedEvents == [] && r.value.State() == Unopened && r.value.Consistent())
    {
      if IsBlank(id) {
        return Err(IllegalArgument(BlankId));
      }
      var a := new Account.Restore(id);
      return Ok(a);
    }

    /** `new Account(userId, initialBalance)` under the fresh identifier `id`: the
        owner is required, the initial balance must not be negative, and the opening
        event is applied and left uncommitted. */
    static method Open(id: string, userId: Option<UserId>, initialBalance: Option<Money>,
                       eventId: string, now: int)
      returns (r: Result<Account, Error>)
      requires !IsBlank(id)
      ensures userId.None? ==> r == Err(IllegalArgument(MissingUserId))
      ensures userId.Some? && (initialBalance.None? || initialBalance.value.IsNegative()) ==>
        r == Err(IllegalArgument(NegativeInitialBalance))
      ensures userId.Some? && initialBalance.Some? && !initialBalance.value.IsNegative() ==>
        r.Ok? && fresh(r.value) && r.value.id == id && r.value.version == 0 &&
        r.value.State() == AccountState(userId, initialBalance, Some(Active), Some(now)) &&
        r.value.uncommittedEvents == [AccountOpened(eventId, now, id, userId.value, initialBalance.value, now)] &&
        r.value.history == r.value.uncommittedEvents &&
        r.value.Sound() && r.value.Consistent()
    {
      if userId.None? {
        return Err(IllegalArgument(MissingUserId));
      }
      if initialBalance.None? || initialBalance.value.IsNegative() {
        return Err(IllegalArgument(NegativeInitialBalance));
      }
      var a := new Account.Restore(id);
      var applied := a.ApplyChange(Some(AccountOpened(eventId, now, id, userId.value, initialBalance.value, now)));
      return Ok(a);
    }

    /** `applyEvent`: the switch over the four account events, each setting the
        fields `Evolve` describes; any other event is rejected and changes nothing. */
    method ApplyEvent(event: DomainEvent) returns (r: Outcome<Error>)
      modifies this
      ensures Evolve(old(State()), event).Err? ==>
        r == Fail(Evolve(old(State()), event).error) && unchanged(this)
      ensures Evolve(old(State()), event).Ok? ==>
        r == Pass && State() == Evolve(old(State()), event).value &&
        version == old(version) && uncommittedEvents == old(uncommittedEvents) &&
        history == old(history) + [event]
      ensures old(Consistent()) ==> Consistent()
    {
      ghost var before := history;
      ghost var wasConsistent := Consistent();
      match event {
        case AccountOpened(_, occurredOn, _, owner, initialBalance, _) =>
          userId := Some(owner);
          balance := Some(initialBalance);
          status := Some(Active);
          createdAt := Some(occurredOn);
        case MoneyDeposited(_, _, _, _, amount, _, _) =>
          if balance.None? {
            return Fail(NullReference("balance"));
          }
          balance := Some(balance.value.Add(amount));
        case MoneyWithdrawn(_, _, _, _, amount, _, _) =>
          if balance.None? {
            return Fail(NullReference("balance"));
          }
          balance := Some(balance.value.Subtract(amount));
        case AccountClosed(_, _, _, _, _, _) =>
          status := Some(Closed);
        case Foreign(_, _, name) =>
          return Fail(IllegalArgument(UnknownEvent + name));
      }
      history := history + [event];
      if wasConsistent {
        ReplayAppend(Unopened, before, event);
      }
      return Pass;
    }

    /** `loadFromHistory`: a `null` history changes nothing; otherwise each event is
        applied and counted into the version, and the first that throws stops the
        load with the events before it applied. */
    method LoadFromHistory(events: Option<seq<DomainEvent>>) returns (r: Outcome<Error>)
      modifies this
      ensures events.None? ==> r == Pass && unchanged(this)
      ensures events.Some? ==>
        var replayed := Replay(old(State()), events.value);
        State() == replayed.state && version == old(version) + replayed.applied &&
        uncommittedEvents == old(uncommittedEvents) &&
        r == (if replayed.error.None? then Pass else Fail(replayed.error.value))
      ensures old(Consistent()) ==> Consistent()
    {
      if events.None? {
        return Pass;
      }
      var h := events.value;
      ghost var s0 := State();
      ghost var h0 := history;
      ghost var wasConsistent := Consistent();
      var i := 0;
      while i < |h|
        invariant 0 <= i <= |h|
        invariant Replay(s0, h) == Shift(Replay(State(), h[i..]), i)
        invariant Replay(s0, h[..i]) == Replayed(State(), i, None)
        invariant version == old(version) + i
        invariant uncommittedEvents == old(uncommittedEvents)
        invariant history == h0 + h[..i]
        invariant wasConsistent ==> Consistent()
      {
        ghost var before := State();
        var step := ApplyEvent(h[i]);
        if step.Fail? {
          ReplayStops(s0, h, i, before);
          return step;
        }
        ReplayStep(s0, h, i, before, State());
        AppendNext(h0, h, i);
        version := version + 1;
        i := i + 1;
      }
      assert h[i..] == [];
      return Pass;
    }

    /** `applyChange`: a `null` event is rejected; otherwise it is applied and, if
        that succeeds, queued as uncommitted. */
    method ApplyChange(event: Option<DomainEvent>) returns (r: Outcome<Error>)
      modifies this
      ensures event.None? ==> r == Fail(IllegalArgument(MissingEvent)) && unchanged(this)
      ensures event.Some? && Evolve(old(State()), event.value).Err? ==>
        r == Fail(Evolve(old(State()), event.value).error) && unchanged(this)
      ensures event.Some? && Evolve(old(State()), event.value).Ok? ==>
        r == Pass && State() == Evolve(old(State()), event.value).value &&
        version == old(version) && uncommittedEvents == old(uncommittedEvents) + [event.value] &&
        history == old(history) + [event.value]
      ensures old(Consistent()) ==> Consistent()
    {
      if event.None? {
        return Fail(IllegalArgument(MissingEvent));
      }
      r := ApplyEvent(event.value);
      if r.Pass? {
        uncommittedEvents := uncommittedEvents + [event.value];
      }
    }

    /** `markEventsAsCommitted`: the version moves past the saved events and the
        queue is emptied. */
    method MarkEventsAsCommitted()
      modifies this
      ensures version == old(version) + |old(uncommittedEvents)| && uncommittedEvents == []
      ensures State() == old(State()) && history == old(history)
    {
      version := version + |uncommittedEvents|;
      uncommittedEvents := [];
    }

    /** `getUncommittedEvents`: the events applied since the last commit, oldest first. */
    function GetUncommittedEvents(): (r: seq<DomainEvent>)
      reads this
      ensures r == uncommittedEvents && |r| == UncommittedEventCount()
    {
      uncommittedEvents
    }

    function HasUncommittedEvents(): (r: bool)
      reads this
      ensures r <==> UncommittedEventCount() > 0
    {
      uncommittedEvents != []
    }

    function UncommittedEventCount(): (r: nat)
      reads this
      ensures r == |uncommittedEvents|
    {
      |uncommittedEvents|
    }

    /** `getExpectedVersion`: the stream length the next save expects to find. */
    function ExpectedVersion(): (r: int)
      reads this
      ensures r == version
    {
      version
    }

    /** `validateActiveAccount` as a test: the failure it throws, if any. */
    function ActiveCheck(): (r: Outcome<Error>)
      reads this
      ensures r.Pass? <==> status == Some(Active)
      ensures r.Fail? ==> r.error == IllegalState(NotActive + StatusText(status))
    {
      if status != Some(Active) then Fail(IllegalState(NotActive + StatusText(status))) else Pass
    }

    /** `deposit`: only on an active account and for a positive amount; the deposit
        event (with "입금" when no description is given) is applied and queued. */
    method Deposit(amount: Option<Money>, description: Option<string>, eventId: string, now: int)
      returns (r: Outcome<Error>)
      modifies this
      ensures old(status) != Some(Active) ==> r == old(ActiveCheck()) && unchanged(this)
      ensures old(status) == Some(Active) && !Positive(amount) ==>
        r == Fail(IllegalArgument(NonPositiveDeposit)) && unchanged(this)
      ensures old(status) == Some(Active) && Positive(amount) && old(balance).None? ==>
        r == Fail(NullReference("balance")) && unchanged(this)
      ensures old(status) == Some(Active) && Positive(amount) && old(balance).Some? ==>
        r == Pass && balance == Some(old(balance).value.Add(amount.value)) &&
        status == old(status) && userId == old(userId) && createdAt == old(createdAt) &&
        version == old(version) &&
        uncommittedEvents == old(uncommittedEvents) +
          [MoneyDeposited(eventId, now, id, old(userId), amount.value,
                          OrElse(description, DefaultDepositDescription), now)]
      ensures old(Sound()) ==> Sound()
      ensures old(Consistent()) ==> Consistent()
      ensures old(history == uncommittedEvents) ==> history == uncommittedEvents
    {
      var active := ActiveCheck();
      if active.Fail? {
        return active;
      }
      if !Positive(amount) {
        return Fail(IllegalArgument(NonPositiveDeposit));
      }
      r := ApplyChange(Some(MoneyDeposited(eventId, now, id, userId, amount.value,
                                           OrElse(description, DefaultDepositDescription), now)));
    }

    /** `withdraw`: only on an active account, for a positive amount no larger than
        the balance; the withdrawal event (with "출금" when no description is given)
        is applied and queued. */
    method Withdraw(amount: Option<Money>, description: Option<string>, eventId: string, now: int)
      returns (r: Outcome<Error>)
      modifies this
      ensures old(status) != Some(Active) ==> r == old(ActiveCheck()) && unchanged(this)
      ensures old(status) == Some(Active) && !Positive(amount) ==>
        r == Fail(IllegalArgument(NonPositiveWithdrawal)) && unchanged(this)
      ensures old(status) == Some(Active) && Positive(amount) && old(balance).None? ==>
        r == Fail(NullReference("balance")) && unchanged(this)
      ensures old(status) == Some(Active) && Positive(amount) && old(balance).Some? &&
              old(balance).value.IsLessThan(amount.value) ==>
        r == Fail(InsufficientBalance(old(balance).value.cents, amount.value.cents)) && unchanged(this)
      ensures old(status) == Some(Active) && Positive(amount) && old(balance).Some? &&
              !old(balance).value.IsLessThan(amount.value) ==>
        r == Pass && balance == Some(old(balance).value.Subtract(amount.value)) &&
        status == old(status) && userId == old(userId) && createdAt == old(createdAt) &&
        version == old(version) &&
        uncommittedEvents == old(uncommittedEvents) +
          [MoneyWithdrawn(eventId, now, id, old(userId), amount.value,
                          OrElse(description, DefaultWithdrawalDescription), now)]
      ensures old(Sound()) ==> Sound()
      ensures old(Consistent()) ==> Consistent()
      ensures old(history == uncommittedEvents) ==> history == uncommittedEvents
    {
      var active := ActiveCheck();
      if active.Fail? {
        return active;
      }
      if !Positive(amount) {
        return Fail(IllegalArgument(NonPositiveWithdrawal));
      }
      if balance.None? {
        return Fail(NullReference("balance"));
      }
      if balance.value.IsLessThan(amount.value) {
        return Fail(InsufficientBalance(balance.value.cents, amount.value.cents));
      }
      r := ApplyChange(Some(MoneyWithdrawn(eventId, now, id, userId, amount.value,
                                           OrElse(description, DefaultWithdrawalDescription), now)));
    }

    /** `close`: only an active account with a zero balance; the closing event (with
        "사용자 요청" when no reason is given) is applied and queued. */
    method Close(reason: Option<string>, eventId: string, now: int) returns (r: Outcome<Error>)
      modifies this
      ensures old(status) != Some(Active) ==> r == old(ActiveCheck()) && unchanged(this)
      ensures old(status) == Some(Active) && old(balance).None? ==>
        r == Fail(NullReference("balance")) && unchanged(this)
      ensures old(status) == Some(Active) && old(balance).Some? && !old(balance).value.IsZero() ==>
        r == Fail(IllegalState(BalanceLeftOnClose)) && unchanged(this)
      ensures old(status) == Some(Active) && old(balance).Some? && old(balance).value.IsZero() ==>
        r == Pass && status == Some(Closed) &&
        balance == old(balance) && userId == old(userId) && createdAt == old(createdAt) &&
        version == old(version) &&
        uncommittedEvents == old(uncommittedEvents) +
          [AccountClosed(eventId, now, id, old(userId), OrElse(reason, DefaultCloseReason), now)]
      ensures old(Sound()) ==> Sound()
      ensures old(Consistent()) ==> Consistent()
      ensures old(history == uncommittedEvents) ==> history == uncommittedEvents
    {
      var check := CloseCheck();
      if check.Fail? {
        return check;
      }
      r := CloseEmpty(OrElse(reason, DefaultCloseReason), eventId, now);
    }

    /** The checks `close` makes before raising its event, in order: the account
        must be active (`validateActiveAccount`), and its balance must be zero. */
    function CloseCheck(): (r: Outcome<Error>)
      reads this
      ensures r.Pass? <==> status == Some(Active) && balance.Some? && balance.value.cents == 0
      ensures status != Some(Active) ==> r == ActiveCheck()
      ensures status == Some(Active) && balance.None? ==> r == Fail(NullReference("balance"))
      ensures status == Some(Active) && balance.Some? && balance.value.cents != 0 ==>
        r == Fail(IllegalState(BalanceLeftOnClose))
    {
      if status != Some(Active) then ActiveCheck()
      else if balance.None? then Fail(NullReference("balance"))
      else if !balance.value.IsZero() then Fail(IllegalState(BalanceLeftOnClose))
      else Pass
    }

    /** The last step of `close`, once its checks have passed: the closing event is
        applied and queued. */
    method CloseEmpty(reason: string, eventId: string, now: int) returns (r: Outcome<Error>)
      requires status == Some(Active) && balance == Some(Money(0))
      modifies this
      ensures r == Pass && status == Some(Closed) &&
        balance == old(balance) && userId == old(userId) && createdAt == old(createdAt) &&
        version == old(version) &&
        uncommittedEvents == old(uncommittedEvents) + [AccountClosed(eventId, now, id, old(userId), reason, now)]
      ensures old(Sound()) ==> Sound()
      ensures old(Consistent()) ==> Consistent()
      ensures old(history == uncommittedEvents) ==> history == uncommittedEvents
    {
      r := ApplyChange(Some(AccountClosed(eventId, now, id, userId, reason, now)));
    }

    /** `createSnapshot`: the four fields with the id and the version. */
    function CreateSnapshot(): (r: AccountSnapshot)
      reads this
      ensures r.State() == State() && r.accountId == id && r.version == version
    {
      AccountSnapshot(id, userId, balance, status, createdAt, version)
    }

    /** `loadFromSnapshot` as written: a `null` snapshot is rejected; otherwise the
        four fields are copied and the version is left where it was. */
    method LoadFromSnapshot(snapshot: Option<AccountSnapshot>, snapshotVersion: int)
      returns (r: Outcome<Error>)
      modifies this
      ensures snapshot.None? ==> r == Fail(IllegalArgument(NotAccountSnapshot)) && unchanged(this)
      ensures snapshot.Some? ==>
        r == Pass && State() == snapshot.value.State() &&
        version == old(version) && uncommittedEvents == old(uncommittedEvents)
    {
      if snapshot.None? {
        return Fail(IllegalArgument(NotAccountSnapshot));
      }
      var s := snapshot.value;
      userId, balance, status, createdAt := s.userId, s.balance, s.status, s.createdAt;
      return Pass;
    }

    /** `loadFromSnapshot` as its own comment intends: the version is set to the
        snapshot's version as well. */
    method LoadFromSnapshotWithVersion(snapshot: Option<AccountSnapshot>, snapshotVersion: int)
      returns (r: Outcome<Error>)
      modifies this
      ensures snapshot.None? ==> r == Fail(IllegalArgument(NotAccountSnapshot)) && unchanged(this)
      ensures snapshot.Some? ==>
        r == Pass && State() == snapshot.value.State() &&
        version == snapshotVersion && uncommittedEvents == old(uncommittedEvents)
    {
      r := LoadFromSnapshot(snapshot, snapshotVersion);
      if r.Pass? {
        version := snapshotVersion;
      }
    }

    /** `canWithdraw`: active and holding at least `amount`; dereferencing a `null`
        balance or amount throws. */
    function CanWithdraw(amount: Option<Money>): (r: Result<bool, Error>)
      reads this
      ensures r.Err? <==> status == Some(Active) && (balance.None? || amount.None?)
      ensures r.Ok? ==> (r.value <==> status == Some(Active) && balance.value.cents >= amount.value.cents)
      ensures Sound() && amount.Some? ==> r.Ok?
    {
      if status != Some(Active) then Ok(false)
      else if balance.None? || amount.None? then Err(NullReference("balance.isGreaterThanOrEqual"))
      else Ok(balance.value.IsGreaterThanOrEqual(amount.value))
    }

    /** `getAvailableBalance`: the balance of an active account, zero otherwise. */
    function AvailableBalance(): (r: Option<Money>)
      reads this
      ensures status == Some(Active) ==> r == balance
      ensures status != Some(Active) ==> r == Some(ZeroMoney())
      ensures Sound() ==> r.Some? && !r.value.IsNegative()
    {
      if status == Some(Active) then balance else Some(ZeroMoney())
    }

    /** `isOverdrawn`: a negative balance; a `null` balance throws. */
    function IsOverdrawn(): (r: Result<bool, Error>)
      reads this
      ensures r.Err? <==> balance.None?
      ensures r.Ok? ==> (r.value <==> balance.value.cents < 0)
      ensures Sound() && status.Some? ==> r == Ok(false)
    {
      if balance.None? then Err(NullReference("balance")) else Ok(balance.value.IsNegative())
    }

    /** `equals`: another account with the same id. */
    function Equals(other: Option<Account>): (r: bool)
      ensures r <==> other.Some? && other.value.id == id
      ensures other == Some(this) ==> r
    {
      other.Some? && other.value.id == id
    }
  }

  /** Rebuilding an account from the events it raised gives back its state: a new
      account with the same id that loads those events reaches the same fields, and
      its version counts them. */
  method ReplayReproducesState(a: Account) returns (b: Account)
    requires a.Consistent() && a.history == a.uncommittedEvents && !IsBlank(a.id)
    ensures fresh(b) && b.id == a.id
    ensures b.State() == a.State() && b.version == |a.uncommittedEvents| && b.uncommittedEvents == []
  {
    b := new Account.Restore(a.id);
    var r := b.LoadFromHistory(Some(a.uncommittedEvents));
  }

  /** The event-sourcing transaction scenario: open with 500000, deposit 200000,
      withdraw 150000; the three raised events, replayed into a fresh account, give
      a balance of 550000. */
  method TransactionScenario() returns (count: nat, replayed: Option<Money>)
    ensures count == 3
    ensures replayed == Some(OfLong(500000).Add(OfLong(200000)).Subtract(OfLong(150000)))
    ensures replayed == Some(OfLong(550000))
  {
    var a := OpenScenarioAccount();
    ScenarioDeposit(a);
    ScenarioWithdraw(a);
    count := a.UncommittedEventCount();
    assert !IsBlank(a.id) by { assert a.id[0] > ' '; }
    var b := ReplayReproducesState(a);
    replayed := b.balance;
  }

  /** The first step of the scenario: user 2 opens an account with 500000. */
  method OpenScenarioAccount() returns (a: Account)
    ensures fresh(a) && a.id == "account-1" && a.Consistent() && a.history == a.uncommittedEvents
    ensures a.status == Some(Active) && a.balance == Some(Money(50000000)) && |a.uncommittedEvents| == 1
  {
    assert !IsBlank("account-1") by { assert "account-1"[0] > ' '; }
    var created := Account.Open("account-1", Some(UserId(2)), Some(OfLong(500000)), "e-1", 0);
    a := created.value;
  }

  /** The second step: a deposit of 200000 is accepted. */
  method ScenarioDeposit(a: Account)
    requires a.id == "account-1" && a.Consistent() && a.history == a.uncommittedEvents
    requires a.status == Some(Active) && a.balance == Some(Money(50000000)) && |a.uncommittedEvents| == 1
    modifies a
    ensures a.Consistent() && a.history == a.uncommittedEvents
    ensures a.status == Some(Active) && a.balance == Some(Money(70000000)) && |a.uncommittedEvents| == 2
  {
    var amount := OfLong(200000);
    assert Positive(Some(amount));
    var r := a.Deposit(Some(amount), Some("급여 입금"), "e-2", 1);
  }

  /** The third step: a withdrawal of 150000 is accepted. */
  method ScenarioWithdraw(a: Account)
    requires a.id == "account-1" && a.Consistent() && a.history == a.uncommittedEvents
    requires a.status == Some(Active) && a.balance == Some(Money(70000000)) && |a.uncommittedEvents| == 2
    modifies a
    ensures a.id == "account-1" && a.Consistent() && a.history == a.uncommittedEvents
    ensures a.balance == Some(Money(55000000)) && |a.uncommittedEvents| == 3
  {
    var amount := OfLong(150000);
    assert Positive(Some(amount)) && !a.balance.value.IsLessThan(amount);
    var r := a.Withdraw(Some(amount), Some("생활비 출금"), "e-3", 2);
  }
}
