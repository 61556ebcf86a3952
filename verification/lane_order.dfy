/** Each class is served in the order it arrived; and the heap itself, driven through any operations. */
module LaneOrder {
  import opened Tasks
  import opened PriorityQueues
  import opened Lanes
  import Rings

  function LaneOf(l: Pair, p: Priority): seq<Task> {
    if p.Human? then l.hi else l.lo
  }

  function Departed(l: Pair, op: Op, p: Priority): seq<Task> {
    if op.Poll? && l.Size() > 0 && l.Front().priority == p then [l.Front()] else []
  }

  /** The tasks of one class that the lanes serve, in order. */
  function Departures(capacity: nat, ops: seq<Op>, p: Priority): seq<Task>
    requires capacity >= 1
  {
    if ops == [] then []
    else
      var before := ops[..|ops| - 1];
      Departures(capacity, before, p) + Departed(LanesAfter(capacity, before), ops[|ops| - 1], p)
  }

  /** The lane is the end of the arrivals, and the departures can be read off in order before it. */
  ghost predicate InOrder(lane: seq<Task>, arrivals: seq<Task>, departures: seq<Task>) {
    Rings.InOrder(Rings.History(Rings.Ring(lane, 0), arrivals, departures))
  }

  lemma FrontLost(lane: seq<Task>, arrivals: seq<Task>, departures: seq<Task>)
    requires lane != [] && InOrder(lane, arrivals, departures)
    ensures InOrder(lane[1..], arrivals, departures)
  {
    var n := |arrivals| - |lane|;
    var at := Rings.Positions(departures, arrivals[..n]);
    assert Rings.IsSubsequence(departures, arrivals[..n + 1], at);
  }

  lemma FrontServed(lane: seq<Task>, arrivals: seq<Task>, departures: seq<Task>)
    requires lane != [] && InOrder(lane, arrivals, departures)
    ensures InOrder(lane[1..], arrivals, departures + [lane[0]])
  {
    Rings.PopKeepsOrder(0, Rings.History(Rings.Ring(lane, 0), arrivals, departures));
  }

  lemma BackJoined(lane: seq<Task>, arrivals: seq<Task>, departures: seq<Task>, task: Task)
    requires InOrder(lane, arrivals, departures)
    ensures InOrder(lane + [task], arrivals + [task], departures)
  {
    Rings.PushKeepsOrder(|lane| + 1, Rings.History(Rings.Ring(lane, 0), arrivals, departures), task);
  }

  ghost predicate Sorted(l: Pair) {
    && (forall i :: 0 <= i < |l.hi| ==> l.hi[i].priority.Human?)
    && (forall i :: 0 <= i < |l.lo| ==> l.lo[i].priority.Bot?)
  }

  lemma StepKeepsSorted(capacity: nat, l: Pair, op: Op)
    requires capacity >= 1 && Sorted(l)
    ensures Sorted(LaneNext(capacity, l, op))
  {
  }

  lemma {:induction false} LanesSorted(capacity: nat, ops: seq<Op>)
    requires capacity >= 1
    ensures Sorted(LanesAfter(capacity, ops))
  {
    if ops != [] {
      LanesSorted(capacity, ops[..|ops| - 1]);
      StepKeepsSorted(capacity, LanesAfter(capacity, ops[..|ops| - 1]), ops[|ops| - 1]);
    }
  }

  lemma EvictKeepsOrder(l: Pair, p: Priority, arrivals: seq<Task>, departures: seq<Task>)
    requires l.Size() > 0 && InOrder(LaneOf(l, p), arrivals, departures)
    ensures InOrder(LaneOf(l.Evict(), p), arrivals, departures)
  {
    if LaneOf(l.Evict(), p) != LaneOf(l, p) {
      FrontLost(LaneOf(l, p), arrivals, departures);
    }
  }

  lemma PushKeepsOrder(capacity: nat, l: Pair, task: Task, p: Priority, arrivals: seq<Task>, departures: seq<Task>)
    requires capacity >= 1 && InOrder(LaneOf(l, p), arrivals, departures)
    ensures InOrder(LaneOf(l.Push(capacity, task), p), arrivals + Arrived(Push(task), p), departures)
  {
    var room := if l.Size() >= capacity then l.Evict() else l;
    if l.Size() >= capacity {
      EvictKeepsOrder(l, p, arrivals, departures);
    }
    if task.priority == p {
      BackJoined(LaneOf(room, p), arrivals, departures, task);
    } else {
      assert arrivals + [] == arrivals;
    }
  }

  lemma PollKeepsOrder(capacity: nat, l: Pair, p: Priority, arrivals: seq<Task>, departures: seq<Task>)
    requires capacity >= 1 && Sorted(l) && InOrder(LaneOf(l, p), arrivals, departures)
    ensures InOrder(LaneOf(LaneNext(capacity, l, Poll), p), arrivals, departures + Departed(l, Poll, p))
  {
    if l.Size() > 0 && l.Front().priority == p {
      FrontServed(LaneOf(l, p), arrivals, departures);
    } else {
      assert departures + [] == departures;
    }
  }

  /** Whatever was evicted between, each lane serves its class in the order of arrival. */
  lemma {:induction false} LanesServeInOrder(capacity: nat, ops: seq<Op>, p: Priority)
    requires capacity >= 1
    ensures InOrder(LaneOf(LanesAfter(capacity, ops), p), Arrivals(ops, p), Departures(capacity, ops, p))
  {
    if ops != [] {
      var before, op := ops[..|ops| - 1], ops[|ops| - 1];
      var l, arrivals, departures := LanesAfter(capacity, before), Arrivals(before, p), Departures(capacity, before, p);
      LanesServeInOrder(capacity, before, p);
      LanesSorted(capacity, before);
      match op
      case Push(task) =>
        PushKeepsOrder(capacity, l, task, p, arrivals, departures);
        assert departures + [] == departures;
      case Poll =>
        PollKeepsOrder(capacity, l, p, arrivals, departures);
        assert arrivals + [] == arrivals;
    }
  }

  // ---- The replies of the heap ----

  function Popped1(reply: Reply): seq<Task> {
    if reply.Polled? && reply.result.Got? then [reply.result.task] else []
  }

  /** The tasks that the polls returned, in order. */
  function Popped(replies: seq<Reply>): seq<Task> {
    if replies == [] then [] else Popped(replies[..|replies| - 1]) + Popped1(replies[|replies| - 1])
  }

  function OfClass(tasks: seq<Task>, p: Priority): seq<Task> {
    if tasks == [] then []
    else OfClass(tasks[..|tasks| - 1], p) + if tasks[|tasks| - 1].priority == p then [tasks[|tasks| - 1]] else []
  }

  lemma OfClassAppend(tasks: seq<Task>, reply: Reply, p: Priority)
    ensures OfClass(tasks + Popped1(reply), p) == OfClass(tasks, p) + OfClass(Popped1(reply), p)
  {
    if Popped1(reply) == [] {
      assert tasks + [] == tasks;
    } else {
      var task := reply.result.task;
      assert (tasks + [task])[..|tasks|] == tasks && [task][..0] == [];
    }
  }

  lemma ReplyDeparts(capacity: nat, l: Pair, op: Op, p: Priority)
    requires capacity >= 1
    ensures OfClass(Popped1(LaneReply(capacity, l, op)), p) == Departed(l, op, p)
  {
    if op.Poll? && l.Size() > 0 {
      assert [l.Front()][..0] == [];
    }
  }

  ghost predicate RepliesAsLanes(capacity: nat, ops: seq<Op>, replies: seq<Reply>)
    requires capacity >= 1
  {
    |replies| == |ops|
    && forall i: nat :: i < |ops| ==> replies[i] == LaneReply(capacity, LanesAfter(capacity, ops[..i]), ops[i])
  }

  lemma AllRepliesAsLanes(
    capacity: nat, ops: seq<Op>, replies: seq<Reply>, states: seq<multiset<Task>>)
    requires capacity >= 1 && Stamped(ops) && QueueRun(capacity, ops, replies, states)
    ensures RepliesAsLanes(capacity, ops, replies)
  {
    forall i: nat | i < |ops| ensures replies[i] == LaneReply(capacity, LanesAfter(capacity, ops[..i]), ops[i]) {
      HeapRepliesAsLanes(capacity, ops, replies, states, i);
    }
  }

  lemma PopDeparts(capacity: nat, l: Pair, op: Op, p: Priority, popped: seq<Task>)
    requires capacity >= 1
    ensures OfClass(popped + Popped1(LaneReply(capacity, l, op)), p) == OfClass(popped, p) + Departed(l, op, p)
  {
    OfClassAppend(popped, LaneReply(capacity, l, op), p);
    ReplyDeparts(capacity, l, op, p);
  }

  lemma DeparturesAt(capacity: nat, ops: seq<Op>, replies: seq<Reply>, p: Priority, n: nat)
    requires capacity >= 1 && n < |ops| == |replies|
    ensures Departures(capacity, ops[..n + 1], p)
         == Departures(capacity, ops[..n], p) + Departed(LanesAfter(capacity, ops[..n]), ops[n], p)
    ensures Popped(replies[..n + 1]) == Popped(replies[..n]) + Popped1(replies[n])
  {
    assert ops[..n + 1][..n] == ops[..n] && replies[..n + 1][..n] == replies[..n];
  }

  lemma {:induction false} PoppedDepart(capacity: nat, ops: seq<Op>, replies: seq<Reply>, p: Priority, n: nat)
    requires capacity >= 1 && RepliesAsLanes(capacity, ops, replies) && n <= |ops|
    ensures OfClass(Popped(replies[..n]), p) == Departures(capacity, ops[..n], p)
  {
    if n > 0 {
      PoppedDepart(capacity, ops, replies, p, n - 1);
      DeparturesAt(capacity, ops, replies, p, n - 1);
      PopDeparts(capacity, LanesAfter(capacity, ops[..n - 1]), ops[n - 1], p, Popped(replies[..n - 1]));
    }
  }

  lemma FromPrefix(lane: seq<Task>, arrivals: seq<Task>, departures: seq<Task>)
    requires InOrder(lane, arrivals, departures)
    ensures Rings.ReadsOff(departures, arrivals)
  {
    var at := Rings.Positions(departures, arrivals[..|arrivals| - |lane|]);
    assert Rings.IsSubsequence(departures, arrivals, at);
  }

  /** In every run, what the heap returns of a class is an in-order part of what was pushed of it. */
  lemma HeapServesInOrder(
    capacity: nat, ops: seq<Op>, replies: seq<Reply>, states: seq<multiset<Task>>, p: Priority)
    requires capacity >= 1 && Stamped(ops) && QueueRun(capacity, ops, replies, states)
    ensures Rings.ReadsOff(OfClass(Popped(replies), p), Arrivals(ops, p))
  {
    AllRepliesAsLanes(capacity, ops, replies, states);
    PoppedDepart(capacity, ops, replies, p, |ops|);
    assert ops[..|ops|] == ops && replies[..|ops|] == replies;
    LanesServeInOrder(capacity, ops, p);
    FromPrefix(LaneOf(LanesAfter(capacity, ops), p), Arrivals(ops, p), Departures(capacity, ops, p));
  }

  // ---- The heap, driven ----

  /** A run that has come to the contents `q` and the overflow count. */
  ghost predicate Ran(
    capacity: nat, ops: seq<Op>, replies: seq<Reply>, states: seq<multiset<Task>>, q: multiset<Task>, overflow: nat)
  {
    QueueRun(capacity, ops, replies, states) && states[|ops|] == q && overflow == Evictions(replies)
  }

  lemma RunGoesOn(
    capacity: nat, ops: seq<Op>, replies: seq<Reply>, states: seq<multiset<Task>>,
    q: multiset<Task>, overflow: nat, op: Op, reply: Reply, q': multiset<Task>)
    requires Ran(capacity, ops, replies, states, q, overflow) && QueueStep(capacity, q, op, reply, q')
    ensures Ran(capacity, ops + [op], replies + [reply], states + [q'], q', overflow + Evicted1(reply))
  {
    assert (replies + [reply])[..|replies|] == replies;
    forall i: nat | i < |ops| + 1 ensures StepAt(capacity, ops + [op], replies + [reply], states + [q'], i) {
      assert i < |ops| ==> StepAt(capacity, ops, replies, states, i);
    }
  }

  method Perform(queue: PriorityQueue, op: Op) returns (reply: Reply)
    requires queue.Valid()
    modifies queue`len, queue`overflow, queue.data
    ensures queue.Valid()
    ensures QueueStep(queue.capacity, old(queue.Contents()), op, reply, queue.Contents())
    ensures queue.overflow == old(queue.overflow) + Evicted1(reply)
  {
    match op {
      case Push(task) =>
        var outcome := queue.Push(task);
        reply := Pushed(outcome);
      case Poll =>
        var result := queue.PollOnce(false);
        reply := Polled(result);
    }
  }

  /** One more operation of a run. */
  method PerformNext(
    queue: PriorityQueue, op: Op, ghost ops: seq<Op>, ghost replies: seq<Reply>, ghost states: seq<multiset<Task>>)
    returns (reply: Reply)
    requires queue.Valid() && Ran(queue.capacity, ops, replies, states, queue.Contents(), queue.overflow)
    modifies queue`len, queue`overflow, queue.data
    ensures queue.Valid()
    ensures Ran(queue.capacity, ops + [op], replies + [reply], states + [queue.Contents()],
                queue.Contents(), queue.overflow)
  {
    ghost var q, count := queue.Contents(), queue.overflow;
    reply := Perform(queue, op);
    RunGoesOn(queue.capacity, ops, replies, states, q, count, op, reply, queue.Contents());
  }

  method PerformAll(queue: PriorityQueue, ops: seq<Op>)
    returns (replies: seq<Reply>, ghost states: seq<multiset<Task>>)
    requires queue.Valid() && queue.Contents() == multiset{} && queue.overflow == 0
    modifies queue`len, queue`overflow, queue.data
    ensures queue.Valid() && Ran(queue.capacity, ops, replies, states, queue.Contents(), queue.overflow)
  {
    replies, states := [], [multiset{}];
    ghost var done: seq<Op> := [];
    for n := 0 to |ops|
      invariant queue.Valid() && done == ops[..n]
      invariant Ran(queue.capacity, done, replies, states, queue.Contents(), queue.overflow)
    {
      var reply := PerformNext(queue, ops[n], done, replies, states);
      done, replies, states := done + [ops[n]], replies + [reply], states + [queue.Contents()];
    }
    assert done == ops;
  }

  /** A fresh queue driven through the operations gives one of the runs above, and counts its evictions. */
  method Drive(capacity: nat, ops: seq<Op>)
    returns (replies: seq<Reply>, overflow: nat, ghost states: seq<multiset<Task>>)
    requires capacity >= 1
    ensures QueueRun(capacity, ops, replies, states)
    ensures overflow == Evictions(replies)
    ensures Stamped(ops) ==> RepliesAsLanes(capacity, ops, replies)
  {
    var queue := new PriorityQueue(capacity);
    replies, states := PerformAll(queue, ops);
    overflow := queue.overflow;
    if Stamped(ops) {
      AllRepliesAsLanes(capacity, ops, replies, states);
    }
  }
}
