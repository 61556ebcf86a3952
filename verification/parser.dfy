/** The producer side of the threaded queue: one raw payload is rejected, shed or enqueued. */
module Parser {
  import opened Tasks
  import opened PriorityQueues
  import opened FailSafe

  datatype Verdict = Rejected | Shed | Enqueued(task: Task)

  /** `parsed` is what the JSON parser made of the payload; `now` is the clock. */
  function Judge(parsed: Option<OwnedEvent>, degraded: bool, now: nat): Verdict {
    match parsed
    case None => Rejected
    case Some(event) =>
      var priority := PriorityOf(event.bot);
      if priority.Bot? && degraded then Shed else Enqueued(Task(event, priority, now))
  }

  /** A Human is never shed, nothing is shed outside Degraded Mode, and the rest is stamped with the clock. */
  lemma ShedOnlyDegradedBots(parsed: Option<OwnedEvent>, degraded: bool, now: nat)
    ensures Judge(parsed, degraded, now) == Shed <==> degraded && parsed.Some? && parsed.value.bot
    ensures Judge(parsed, degraded, now) == Rejected <==> parsed.None?
    ensures Judge(parsed, degraded, now).Enqueued? ==>
              && Judge(parsed, degraded, now).task.event == parsed.value
              && Judge(parsed, degraded, now).task.enqueuedAt == now
              && (Judge(parsed, degraded, now).task.priority == Human <==> !parsed.value.bot)
  {
  }

  /** The mode is looked at for Bots only. */
  method Dispatch(parsed: Option<OwnedEvent>, failsafe: FailSafeController, now: nat, queue: PriorityQueue)
    returns (overflowed: bool)
    requires queue.Valid()
    modifies queue`len, queue`overflow, queue.data
    ensures queue.Valid()
    ensures var verdict := Judge(parsed, failsafe.degraded, now);
            if verdict.Enqueued? then
              PushStep(queue.capacity, old(queue.Contents()), verdict.task, queue.Contents(),
                       if overflowed then DroppedOldest else Accepted)
            else !overflowed && queue.Contents() == old(queue.Contents())
    ensures queue.overflow == old(queue.overflow) + if overflowed then 1 else 0
  {
    overflowed := false;
    if parsed.None? {
      return;
    }
    var priority := PriorityOf(parsed.value.bot);
    if priority.Bot? {
      var degraded := failsafe.IsDegraded();
      if degraded {
        return;
      }
    }
    var outcome := queue.Push(Task(parsed.value, priority, now));
    overflowed := outcome.DroppedOldest?;
  }
}
