/** The entries of the work queues and the two orders the threaded queue puts on them. */
module Tasks {

  datatype Option<+T> = None | Some(value: T)

  datatype Priority = Human | Bot {
    function Ordinal(): nat {
      if Human? then 0 else 1
    }
  }

  datatype OwnedEvent = OwnedEvent(user: string, bot: bool, serverName: string)

  /** `enqueuedAt` is the monotonic clock reading taken when the event is classified. */
  datatype Task = Task(event: OwnedEvent, priority: Priority, enqueuedAt: nat)

  datatype PushOutcome = Accepted | DroppedOldest

  function PriorityOf(isBot: bool): Priority {
    if isBot then Bot else Human
  }

  /** The order tasks are served in: Humans before Bots, then the oldest. */
  predicate Before(a: Task, b: Task) {
    || a.priority.Ordinal() < b.priority.Ordinal()
    || (a.priority == b.priority && a.enqueuedAt < b.enqueuedAt)
  }

  /** The order tasks are evicted in: Bots before Humans, then the oldest. */
  predicate Worse(a: Task, b: Task) {
    || a.priority.Ordinal() > b.priority.Ordinal()
    || (a.priority == b.priority && a.enqueuedAt < b.enqueuedAt)
  }

  /** `t` is a task of `q` that no task of `q` is served before. */
  ghost predicate IsFirst(t: Task, q: multiset<Task>) {
    t in q && forall u :: u in q ==> !Before(u, t)
  }

  /** `t` is a task of `q` that no task of `q` is evicted before. */
  ghost predicate IsWorst(t: Task, q: multiset<Task>) {
    t in q && forall u :: u in q ==> !Worse(u, t)
  }
}
