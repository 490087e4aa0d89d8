/** The domain events that pass through the event store: the four account events,
    and every other `DomainEvent` implementation, known to the store only by its
    class's simple name. */
module DomainEvents {
  import opened Wrappers
  import opened Monies
  import opened UserIds

  /** `AccountOpenedEvent.userId()` is `owner` here: the constructor that raises it has
      checked it, so unlike the other events it is never `null`. */
  datatype DomainEvent =
    | AccountOpened(eventId: string, occurredOn: int, accountId: string,
                    owner: UserId, initialBalance: Money, openedAt: int)
    | MoneyDeposited(eventId: string, occurredOn: int, accountId: string,
                     userId: Option<UserId>, amount: Money, description: string, depositedAt: int)
    | MoneyWithdrawn(eventId: string, occurredOn: int, accountId: string,
                     userId: Option<UserId>, amount: Money, description: string, withdrawnAt: int)
    | AccountClosed(eventId: string, occurredOn: int, accountId: string,
                    userId: Option<UserId>, reason: string, closedAt: int)
      /** Any other event class, such as the transaction events; an anonymous class
          has the empty simple name. */
    | Foreign(eventId: string, occurredOn: int, simpleName: string)
  {
    /** `getClass().getSimpleName()`. */
    function SimpleName(): (r: string)
      ensures !Foreign? ==> |r| > 0
    {
      match this
      case AccountOpened(_, _, _, _, _, _) => "AccountOpenedEvent"
      case MoneyDeposited(_, _, _, _, _, _, _) => "MoneyDepositedEvent"
      case MoneyWithdrawn(_, _, _, _, _, _, _) => "MoneyWithdrawnEvent"
      case AccountClosed(_, _, _, _, _, _) => "AccountClosedEvent"
      case Foreign(_, _, name) => name
    }

    /** Whether this is one of the four events `Account.applyEvent` knows. */
    predicate IsAccountEvent() {
      !Foreign?
    }
  }
}
