/**
 What the heap means to its callers: two first-in-first-out lanes, Humans and Bots, that share one
 capacity. Tasks leave from the front of the Human lane first; room is made at the front of the
 Bot lane first.
 */
module Lanes {
  import opened Tasks
  import opened PriorityQueues

  datatype Pair = Pair(hi: seq<Task>, lo: seq<Task>) {
    function Size(): nat {
      |hi| + |lo|
    }

    function Contents(): multiset<Task> {
      multiset(hi) + multiset(lo)
    }

    function Front(): Task
      requires Size() > 0
    {
      if hi != [] then hi[0] else lo[0]
    }

    function Victim(): Task
      requires Size() > 0
    {
      if lo != [] then lo[0] else hi[0]
    }

    function Pop(): Pair
      requires Size() > 0
    {
      if hi != [] then Pair(hi[1..], lo) else Pair(hi, lo[1..])
    }

    function Evict(): Pair
      requires Size() > 0
    {
      if lo != [] then Pair(hi, lo[1..]) else Pair(hi[1..], lo)
    }

    function Append(task: Task): Pair {
      if task.priority.Human? then Pair(hi + [task], lo) else Pair(hi, lo + [task])
    }

    function Push(capacity: nat, task: Task): Pair
      requires capacity >= 1
    {
      (if Size() >= capacity then Evict() else this).Append(task)
    }

    ghost predicate Valid() {
      Fifo(hi, Human) && Fifo(lo, Bot)
    }
  }

  ghost predicate Fifo(s: seq<Task>, p: Priority) {
    && (forall i :: 0 <= i < |s| ==> s[i].priority == p)
    && (forall i, j :: 0 <= i < j < |s| ==> s[i].enqueuedAt < s[j].enqueuedAt)
  }

  /** Everything queued was stamped before `task`. */
  ghost predicate Newest(l: Pair, task: Task) {
    && (forall i :: 0 <= i < |l.hi| ==> l.hi[i].enqueuedAt < task.enqueuedAt)
    && (forall i :: 0 <= i < |l.lo| ==> l.lo[i].enqueuedAt < task.enqueuedAt)
  }

  // ---- One operation ----

  lemma HeadLeaves(s: seq<Task>)
    requires s != []
    ensures multiset(s) == multiset{s[0]} + multiset(s[1..])
  {
    assert s == [s[0]] + s[1..];
  }

  lemma FrontLeaves(l: Pair)
    requires l.Size() > 0
    ensures l.Contents() == multiset{l.Front()} + l.Pop().Contents()
  {
    HeadLeaves(if l.hi != [] then l.hi else l.lo);
  }

  lemma VictimLeaves(l: Pair)
    requires l.Size() > 0
    ensures l.Contents() == multiset{l.Victim()} + l.Evict().Contents()
  {
    HeadLeaves(if l.lo != [] then l.lo else l.hi);
  }

  lemma InContents(l: Pair, task: Task)
    ensures task in l.Contents() <==> task in l.hi || task in l.lo
  {
  }

  /** The heap's minimum is the front of the Human lane, else the front of the Bot lane. */
  lemma FirstIsFront(l: Pair, task: Task)
    requires l.Valid()
    ensures IsFirst(task, l.Contents()) <==> l.Size() > 0 && task == l.Front()
  {
  }

  /** The evicted task is the front of the Bot lane, else the front of the Human lane. */
  lemma WorstIsVictim(l: Pair, task: Task)
    requires l.Valid()
    ensures IsWorst(task, l.Contents()) <==> l.Size() > 0 && task == l.Victim()
  {
  }

  lemma AppendContents(l: Pair, task: Task)
    ensures l.Append(task).Contents() == l.Contents() + multiset{task}
  {
  }

  lemma SizeOfContents(l: Pair)
    ensures |l.Contents()| == l.Size()
  {
  }

  lemma OverflowSimulates(l: Pair, task: Task, q': multiset<Task>)
    requires l.Valid() && l.Size() > 0
    ensures (exists victim :: IsWorst(victim, l.Contents()) && q' == l.Contents() - multiset{victim} + multiset{task})
       <==> q' == l.Evict().Append(task).Contents()
  {
    var q, v := l.Contents(), l.Victim();
    AppendContents(l.Evict(), task);
    VictimLeaves(l);
    WorstIsVictim(l, v);
    assert q - multiset{v} + multiset{task} == l.Evict().Append(task).Contents();
    if victim :| IsWorst(victim, q) && q' == q - multiset{victim} + multiset{task} {
      WorstIsVictim(l, victim);
    }
  }

  /** A push does to the lanes what it does to the heap, and nothing else is possible. */
  lemma PushSimulates(capacity: nat, l: Pair, task: Task, q': multiset<Task>, outcome: PushOutcome)
    requires capacity >= 1 && l.Valid()
    ensures PushStep(capacity, l.Contents(), task, q', outcome) <==>
            && q' == l.Push(capacity, task).Contents()
            && outcome == (if l.Size() < capacity then Accepted else DroppedOldest)
  {
    SizeOfContents(l);
    if l.Size() < capacity {
      AppendContents(l, task);
    } else {
      OverflowSimulates(l, task, q');
    }
  }

  lemma PollSimulates(l: Pair, q': multiset<Task>, result: PriorityQueues.Poll)
    requires l.Valid()
    ensures PollStep(l.Contents(), false, q', result) <==>
            if l.Size() == 0 then result == Wait && q' == multiset{}
            else result == Got(l.Front()) && q' == l.Pop().Contents()
  {
    SizeOfContents(l);
    match result
    case Cancelled =>
    case Wait =>
    case Got(task) =>
      FirstIsFront(l, task);
      if l.Size() > 0 {
        FrontLeaves(l);
        assert l.Contents() - multiset{l.Front()} == l.Pop().Contents();
      }
  }

  // ---- Whole runs ----

  datatype Op = Push(task: Task) | Poll
  datatype Reply = Pushed(outcome: PushOutcome) | Polled(result: PriorityQueues.Poll)

  ghost predicate QueueStep(capacity: nat, q: multiset<Task>, op: Op, reply: Reply, q': multiset<Task>) {
    match (op, reply)
    case (Push(task), Pushed(outcome)) => PushStep(capacity, q, task, q', outcome)
    case (Poll, Polled(result)) => PollStep(q, false, q', result)
    case _ => false
  }

  ghost predicate StepAt(capacity: nat, ops: seq<Op>, replies: seq<Reply>, states: seq<multiset<Task>>, i: nat)
    requires i < |ops| == |replies| == |states| - 1
  {
    QueueStep(capacity, states[i], ops[i], replies[i], states[i + 1])
  }

  /** `states` and `replies` are one possible run of the heap over `ops`, from the empty queue. */
  ghost predicate QueueRun(capacity: nat, ops: seq<Op>, replies: seq<Reply>, states: seq<multiset<Task>>) {
    && |replies| == |ops| && |states| == |ops| + 1
    && states[0] == multiset{}
    && forall i: nat :: i < |ops| ==> StepAt(capacity, ops, replies, states, i)
  }

  /** One producer with a strictly increasing clock. */
  ghost predicate Stamped(ops: seq<Op>) {
    forall i, j :: 0 <= i < j < |ops| && ops[i].Push? && ops[j].Push? ==>
                     ops[i].task.enqueuedAt < ops[j].task.enqueuedAt
  }

  function LaneNext(capacity: nat, l: Pair, op: Op): Pair
    requires capacity >= 1
  {
    match op
    case Push(task) => l.Push(capacity, task)
    case Poll => if l.Size() == 0 then l else l.Pop()
  }

  function LanesAfter(capacity: nat, ops: seq<Op>): Pair
    requires capacity >= 1
  {
    if ops == [] then Pair([], [])
    else LaneNext(capacity, LanesAfter(capacity, ops[..|ops| - 1]), ops[|ops| - 1])
  }

  function LaneReply(capacity: nat, l: Pair, op: Op): Reply
    requires capacity >= 1
  {
    match op
    case Push(_) => Pushed(if l.Size() < capacity then Accepted else DroppedOldest)
    case Poll => Polled(if l.Size() == 0 then Wait else Got(l.Front()))
  }

  ghost predicate AllPushed(s: seq<Task>, ops: seq<Op>) {
    forall i :: 0 <= i < |s| ==> Push(s[i]) in ops
  }

  lemma StepHoldsPushed(capacity: nat, l: Pair, op: Op, ops: seq<Op>)
    requires capacity >= 1 && AllPushed(l.hi, ops) && AllPushed(l.lo, ops)
    ensures var r := LaneNext(capacity, l, op); AllPushed(r.hi, ops + [op]) && AllPushed(r.lo, ops + [op])
  {
  }

  lemma {:induction false} LanesHoldPushed(capacity: nat, ops: seq<Op>)
    requires capacity >= 1
    ensures AllPushed(LanesAfter(capacity, ops).hi, ops) && AllPushed(LanesAfter(capacity, ops).lo, ops)
  {
    if ops != [] {
      var before, op := ops[..|ops| - 1], ops[|ops| - 1];
      assert ops == before + [op];
      LanesHoldPushed(capacity, before);
      StepHoldsPushed(capacity, LanesAfter(capacity, before), op, before);
    }
  }

  lemma NewestArrives(l: Pair, ops: seq<Op>)
    requires ops != [] && ops[|ops| - 1].Push? && Stamped(ops)
    requires AllPushed(l.hi, ops[..|ops| - 1]) && AllPushed(l.lo, ops[..|ops| - 1])
    ensures Newest(l, ops[|ops| - 1].task)
  {
  }

  lemma NewestAfter(capacity: nat, ops: seq<Op>)
    requires capacity >= 1 && ops != [] && Stamped(ops)
    ensures ops[|ops| - 1].Push? ==> Newest(LanesAfter(capacity, ops[..|ops| - 1]), ops[|ops| - 1].task)
  {
    LanesHoldPushed(capacity, ops[..|ops| - 1]);
    if ops[|ops| - 1].Push? {
      NewestArrives(LanesAfter(capacity, ops[..|ops| - 1]), ops);
    }
  }

  lemma StepKeepsOrder(capacity: nat, l: Pair, op: Op)
    requires capacity >= 1 && l.Valid() && l.Size() <= capacity
    requires op.Push? ==> Newest(l, op.task)
    ensures LaneNext(capacity, l, op).Valid() && LaneNext(capacity, l, op).Size() <= capacity
  {
  }

  /** The lanes stay in order and within capacity. */
  lemma {:induction false} LanesInvariant(capacity: nat, ops: seq<Op>)
    requires capacity >= 1 && Stamped(ops)
    ensures LanesAfter(capacity, ops).Valid() && LanesAfter(capacity, ops).Size() <= capacity
  {
    if ops != [] {
      var before := ops[..|ops| - 1];
      LanesInvariant(capacity, before);
      NewestAfter(capacity, ops);
      StepKeepsOrder(capacity, LanesAfter(capacity, before), ops[|ops| - 1]);
    }
  }

  /** One step of the heap is one step of the lanes. */
  lemma StepSimulates(capacity: nat, l: Pair, op: Op, reply: Reply, q': multiset<Task>)
    requires capacity >= 1 && l.Valid() && (op.Push? ==> Newest(l, op.task))
    requires QueueStep(capacity, l.Contents(), op, reply, q')
    ensures reply == LaneReply(capacity, l, op) && q' == LaneNext(capacity, l, op).Contents()
  {
    match op
    case Push(task) => PushSimulates(capacity, l, task, q', reply.outcome);
    case Poll =>
      PollSimulates(l, q', reply.result);
      SizeOfContents(l);
  }

  lemma LaneAt(capacity: nat, ops: seq<Op>, n: nat)
    requires capacity >= 1 && n < |ops|
    ensures LanesAfter(capacity, ops[..n + 1]) == LaneNext(capacity, LanesAfter(capacity, ops[..n]), ops[n])
  {
    assert ops[..n + 1][..n] == ops[..n];
  }

  lemma StampedPrefix(ops: seq<Op>, n: nat)
    requires n <= |ops| && Stamped(ops)
    ensures Stamped(ops[..n])
  {
  }

  /** At every point of every run, the heap holds what the two lanes hold. */
  lemma {:induction false} HeapIsTwoLanes(
    capacity: nat, ops: seq<Op>, replies: seq<Reply>, states: seq<multiset<Task>>, n: nat)
    requires capacity >= 1 && Stamped(ops) && QueueRun(capacity, ops, replies, states)
    requires n <= |ops|
    ensures states[n] == LanesAfter(capacity, ops[..n]).Contents()
    ensures LanesAfter(capacity, ops[..n]).Valid() && LanesAfter(capacity, ops[..n]).Size() <= capacity
    decreases n, 0
  {
    StampedPrefix(ops, n);
    LanesInvariant(capacity, ops[..n]);
    if n > 0 {
      HeapIsTwoLanes(capacity, ops, replies, states, n - 1);
      HeapRepliesAsLanes(capacity, ops, replies, states, n - 1);
      LaneAt(capacity, ops, n - 1);
    }
  }

  /** In every run, the heap answers the i-th operation as the two lanes do. */
  lemma {:induction false} HeapRepliesAsLanes(
    capacity: nat, ops: seq<Op>, replies: seq<Reply>, states: seq<multiset<Task>>, i: nat)
    requires capacity >= 1 && Stamped(ops) && QueueRun(capacity, ops, replies, states)
    requires i < |ops|
    ensures replies[i] == LaneReply(capacity, LanesAfter(capacity, ops[..i]), ops[i])
    ensures states[i + 1] == LaneNext(capacity, LanesAfter(capacity, ops[..i]), ops[i]).Contents()
    decreases i, 1
  {
    var l := LanesAfter(capacity, ops[..i]);
    assert StepAt(capacity, ops, replies, states, i);
    HeapIsTwoLanes(capacity, ops, replies, states, i);
    StampedPrefix(ops, i + 1);
    NewestAfter(capacity, ops[..i + 1]);
    assert ops[..i + 1][..i] == ops[..i];
    StepSimulates(capacity, l, ops[i], replies[i], states[i + 1]);
  }

  function Pushed1(op: Op): nat {
    if op.Push? then 1 else 0
  }

  function Pushes(ops: seq<Op>): nat {
    if ops == [] then 0 else Pushes(ops[..|ops| - 1]) + Pushed1(ops[|ops| - 1])
  }

  function Evicted1(reply: Reply): nat {
    if reply == Pushed(DroppedOldest) then 1 else 0
  }

  /** The overflow counter. */
  function Evictions(replies: seq<Reply>): nat {
    if replies == [] then 0 else Evictions(replies[..|replies| - 1]) + Evicted1(replies[|replies| - 1])
  }

  function Delivered1(reply: Reply): nat {
    if reply.Polled? && reply.result.Got? then 1 else 0
  }

  function Deliveries(replies: seq<Reply>): nat {
    if replies == [] then 0 else Deliveries(replies[..|replies| - 1]) + Delivered1(replies[|replies| - 1])
  }

  lemma StepConserves(capacity: nat, q: multiset<Task>, op: Op, reply: Reply, q': multiset<Task>)
    requires capacity >= 1 && |q| <= capacity && QueueStep(capacity, q, op, reply, q')
    ensures |q| + Pushed1(op) == |q'| + Delivered1(reply) + Evicted1(reply) && |q'| <= capacity
  {
  }

  lemma CountsAt(ops: seq<Op>, replies: seq<Reply>, n: nat)
    requires n < |ops| == |replies|
    ensures Pushes(ops[..n + 1]) == Pushes(ops[..n]) + Pushed1(ops[n])
    ensures Evictions(replies[..n + 1]) == Evictions(replies[..n]) + Evicted1(replies[n])
    ensures Deliveries(replies[..n + 1]) == Deliveries(replies[..n]) + Delivered1(replies[n])
  {
    assert ops[..n + 1][..n] == ops[..n] && replies[..n + 1][..n] == replies[..n];
  }

  /** What was pushed was delivered, evicted or is still queued; no clock assumption is needed. */
  lemma {:induction false} QueueConserves(
    capacity: nat, ops: seq<Op>, replies: seq<Reply>, states: seq<multiset<Task>>, n: nat)
    requires capacity >= 1 && QueueRun(capacity, ops, replies, states) && n <= |ops|
    ensures Pushes(ops[..n]) == Deliveries(replies[..n]) + Evictions(replies[..n]) + |states[n]|
    ensures |states[n]| <= capacity
  {
    if n > 0 {
      QueueConserves(capacity, ops, replies, states, n - 1);
      CountsAt(ops, replies, n - 1);
      assert StepAt(capacity, ops, replies, states, n - 1);
      StepConserves(capacity, states[n - 1], ops[n - 1], replies[n - 1], states[n]);
    }
  }

  // ---- Who is protected ----

  /** A Human is evicted exactly when the queue is full of Humans. */
  lemma HumanEvictedIff(capacity: nat, q: multiset<Task>, victim: Task)
    requires |q| == capacity >= 1 && IsWorst(victim, q)
    ensures victim.priority.Human? <==> forall t :: t in q ==> t.priority.Human?
  {
  }

  function Arrived(op: Op, p: Priority): seq<Task> {
    if op.Push? && op.task.priority == p then [op.task] else []
  }

  /** The tasks of one class that were pushed, in order. */
  function Arrivals(ops: seq<Op>, p: Priority): seq<Task> {
    if ops == [] then [] else Arrivals(ops[..|ops| - 1], p) + Arrived(ops[|ops| - 1], p)
  }

  function Min(a: int, b: int): int {
    if a < b then a else b
  }

  /** `kept` is the newest part of `pushed`, and misses at most all but `capacity - 1` of it. */
  ghost predicate KeepsNewest(capacity: nat, kept: seq<Task>, pushed: seq<Task>) {
    && |kept| <= |pushed|
    && (forall i :: 0 <= i < |kept| ==> kept[i] == pushed[|pushed| - |kept| + i])
    && |kept| >= Min(|pushed|, capacity - 1)
  }

  lemma PushKeepsHumans(capacity: nat, l: Pair, task: Task, pushed: seq<Task>)
    requires capacity >= 1 && l.Size() <= capacity && KeepsNewest(capacity, l.hi, pushed)
    ensures KeepsNewest(capacity, l.Push(capacity, task).hi, pushed + if task.priority.Human? then [task] else [])
    ensures l.Push(capacity, task).Size() <= capacity
  {
  }

  /** Whatever a burst of pushes mixes in, the newest `capacity - 1` Humans survive it. */
  lemma {:induction false} BurstKeepsHumans(capacity: nat, ops: seq<Op>)
    requires capacity >= 1 && forall i :: 0 <= i < |ops| ==> ops[i].Push?
    ensures KeepsNewest(capacity, LanesAfter(capacity, ops).hi, Arrivals(ops, Human))
    ensures LanesAfter(capacity, ops).Size() <= capacity
  {
    if ops != [] {
      var before := ops[..|ops| - 1];
      BurstKeepsHumans(capacity, before);
      PushKeepsHumans(capacity, LanesAfter(capacity, before), ops[|ops| - 1].task, Arrivals(before, Human));
    }
  }

  lemma KeptIsQueued(capacity: nat, l: Pair, pushed: seq<Task>, i: nat)
    requires capacity >= 1 && KeepsNewest(capacity, l.hi, pushed)
    requires |pushed| - Min(|pushed|, capacity - 1) <= i < |pushed|
    ensures pushed[i] in l.Contents()
  {
    assert l.hi[i - (|pushed| - |l.hi|)] == pushed[i];
    InContents(l, pushed[i]);
  }

  /** So the heap still holds the newest `capacity - 1` Humans after any burst. */
  lemma HeapKeepsHumans(
    capacity: nat, ops: seq<Op>, replies: seq<Reply>, states: seq<multiset<Task>>, i: nat)
    requires capacity >= 1 && Stamped(ops) && QueueRun(capacity, ops, replies, states)
    requires forall k :: 0 <= k < |ops| ==> ops[k].Push?
    requires |Arrivals(ops, Human)| - Min(|Arrivals(ops, Human)|, capacity - 1) <= i < |Arrivals(ops, Human)|
    ensures Arrivals(ops, Human)[i] in states[|ops|]
  {
    BurstKeepsHumans(capacity, ops);
    HeapIsTwoLanes(capacity, ops, replies, states, |ops|);
    assert ops[..|ops|] == ops;
    KeptIsQueued(capacity, LanesAfter(capacity, ops), Arrivals(ops, Human), i);
  }

  function PushAll(tasks: seq<Task>): seq<Op> {
    seq(|tasks|, i requires 0 <= i < |tasks| => Push(tasks[i]))
  }

  /** The newest `k` of the tasks, or all of them if there are fewer. */
  function Latest(tasks: seq<Task>, k: nat): seq<Task> {
    if |tasks| <= k then tasks else tasks[|tasks| - k..]
  }

  lemma PushOneMore(capacity: nat, tasks: seq<Task>, task: Task)
    requires capacity >= 1
    ensures LanesAfter(capacity, PushAll(tasks + [task])) == LanesAfter(capacity, PushAll(tasks)).Push(capacity, task)
  {
    assert PushAll(tasks + [task])[..|tasks|] == PushAll(tasks);
  }

  lemma LatestMoves(tasks: seq<Task>, task: Task, k: nat)
    requires k >= 1
    ensures var kept := Latest(tasks, k);
            Latest(tasks + [task], k) == (if |kept| >= k then kept[1..] else kept) + [task]
  {
  }

  lemma {:induction false} HumansFill(capacity: nat, humans: seq<Task>)
    requires capacity >= 1 && forall i :: 0 <= i < |humans| ==> humans[i].priority.Human?
    ensures LanesAfter(capacity, PushAll(humans)) == Pair(Latest(humans, capacity), [])
  {
    if humans != [] {
      var before, last := humans[..|humans| - 1], humans[|humans| - 1];
      assert before + [last] == humans;
      HumansFill(capacity, before);
      PushOneMore(capacity, before, last);
      LatestMoves(before, last, capacity);
    }
  }

  /** The bound is exact: any number of Humans and then one Bot leave the newest `capacity - 1` Humans. */
  lemma BotDisplacesHuman(capacity: nat, humans: seq<Task>, bot: Task)
    requires capacity >= 1 && bot.priority.Bot? && forall i :: 0 <= i < |humans| ==> humans[i].priority.Human?
    ensures LanesAfter(capacity, PushAll(humans + [bot])) == Pair(Latest(humans, capacity - 1), [bot])
    ensures |LanesAfter(capacity, PushAll(humans + [bot])).hi| == Min(|humans|, capacity - 1)
  {
    HumansFill(capacity, humans);
    PushOneMore(capacity, humans, bot);
  }

  lemma BurstPrefix(tasks: seq<Task>, n: nat)
    requires n <= |tasks|
    ensures PushAll(tasks)[..n] == PushAll(tasks[..n])
  {
  }

  /** A burst of pushes to the heap, after the first `n`. */
  lemma BurstAt(
    capacity: nat, tasks: seq<Task>, replies: seq<Reply>, states: seq<multiset<Task>>, n: nat)
    requires capacity >= 1 && Stamped(PushAll(tasks)) && QueueRun(capacity, PushAll(tasks), replies, states)
    requires n <= |tasks|
    ensures states[n] == LanesAfter(capacity, PushAll(tasks[..n])).Contents()
  {
    BurstPrefix(tasks, n);
    HeapIsTwoLanes(capacity, PushAll(tasks), replies, states, n);
  }

  lemma BurstReply(
    capacity: nat, tasks: seq<Task>, replies: seq<Reply>, states: seq<multiset<Task>>, n: nat)
    requires capacity >= 1 && Stamped(PushAll(tasks)) && QueueRun(capacity, PushAll(tasks), replies, states)
    requires n < |tasks|
    ensures replies[n] == LaneReply(capacity, LanesAfter(capacity, PushAll(tasks[..n])), Push(tasks[n]))
  {
    BurstPrefix(tasks, n);
    HeapRepliesAsLanes(capacity, PushAll(tasks), replies, states, n);
  }

  lemma OldestIsLost(humans: seq<Task>, bot: Task)
    requires |humans| >= 1
    ensures Pair(Latest(humans, |humans| - 1), [bot]).Contents() == multiset(humans[1..]) + multiset{bot}
  {
    assert |humans| - (|humans| - 1) == 1;
  }

  /** In the heap, the oldest of `capacity` Humans is gone after one Bot. */
  lemma HeapLosesHuman(
    capacity: nat, humans: seq<Task>, bot: Task, all: seq<Task>, replies: seq<Reply>, states: seq<multiset<Task>>)
    requires |humans| == capacity >= 1 && forall i :: 0 <= i < capacity ==> humans[i].priority.Human?
    requires bot.priority.Bot? && all == humans + [bot]
    requires Stamped(PushAll(all)) && QueueRun(capacity, PushAll(all), replies, states)
    ensures states[capacity + 1] == multiset(humans[1..]) + multiset{bot}
    ensures replies[capacity] == Pushed(DroppedOldest)
  {
    assert all[..capacity + 1] == all && all[..capacity] == humans;
    BurstAt(capacity, all, replies, states, capacity + 1);
    BurstReply(capacity, all, replies, states, capacity);
    BotDisplacesHuman(capacity, humans, bot);
    HumansFill(capacity, humans);
    OldestIsLost(humans, bot);
  }

  // ---- The documented victim ----

  /** The victim the type's own documentation names: the largest (priority, enqueue time). */
  ghost predicate DocumentedVictim(task: Task, l: Pair) {
    && task in l.Contents()
    && forall u :: u in l.Contents() ==> !Before(task, u)
  }

  /** The code evicts the documented victim exactly when the lane it evicts from holds one task. */
  lemma DocumentedVictimIff(l: Pair)
    requires l.Valid() && l.Size() > 0
    ensures DocumentedVictim(l.Victim(), l) <==> |if l.lo != [] then l.lo else l.hi| == 1
  {
    var lane := if l.lo != [] then l.lo else l.hi;
    InContents(l, l.Victim());
    if |lane| > 1 {
      InContents(l, lane[1]);
      assert Before(lane[0], lane[1]);
    } else {
      forall u | u in l.Contents() ensures !Before(l.Victim(), u) {
        InContents(l, u);
      }
    }
  }

  lemma DocumentedVictimFails()
    ensures exists l: Pair :: l.Valid() && l.Size() == 2 && !DocumentedVictim(l.Victim(), l)
  {
    var e := OwnedEvent("u", true, "w");
    var l := Pair([], [Task(e, Bot, 1), Task(e, Bot, 2)]);
    DocumentedVictimIff(l);
    assert l.Valid() && l.Size() == 2;
  }

  lemma {:induction false} BotsFill(capacity: nat, bots: seq<Task>)
    requires capacity >= 1 && forall i :: 0 <= i < |bots| ==> bots[i].priority.Bot?
    ensures LanesAfter(capacity, PushAll(bots)) == Pair([], Latest(bots, capacity))
  {
    if bots != [] {
      var before, last := bots[..|bots| - 1], bots[|bots| - 1];
      assert before + [last] == bots;
      BotsFill(capacity, before);
      PushOneMore(capacity, before, last);
      LatestMoves(before, last, capacity);
    }
  }

  lemma NewestIsDocumented(bots: seq<Task>)
    requires bots != [] && Pair([], bots).Valid()
    ensures DocumentedVictim(bots[|bots| - 1], Pair([], bots))
  {
    InContents(Pair([], bots), bots[|bots| - 1]);
  }

  lemma StampedBurst(tasks: seq<Task>, n: nat)
    requires n <= |tasks| && Stamped(PushAll(tasks))
    ensures Stamped(PushAll(tasks[..n]))
  {
    BurstPrefix(tasks, n);
    StampedPrefix(PushAll(tasks), n);
  }

  /** One Bot more than the queue holds: the documented victim is the newest one queued, and it stays. */
  lemma DocumentedVictimStays(
    capacity: nat, bots: seq<Task>, replies: seq<Reply>, states: seq<multiset<Task>>)
    requires capacity >= 2 && |bots| == capacity + 1 && forall i :: 0 <= i < |bots| ==> bots[i].priority.Bot?
    requires Stamped(PushAll(bots)) && QueueRun(capacity, PushAll(bots), replies, states)
    ensures DocumentedVictim(bots[capacity - 1], LanesAfter(capacity, PushAll(bots[..capacity])))
    ensures states[capacity + 1] == multiset(bots[1..]) && bots[capacity - 1] in bots[1..]
  {
    BurstAt(capacity, bots, replies, states, capacity + 1);
    assert bots[..capacity + 1] == bots;
    BotsFill(capacity, bots);
    assert Latest(bots, capacity) == bots[1..] && bots[1..][capacity - 2] == bots[capacity - 1];
    BotsFill(capacity, bots[..capacity]);
    StampedBurst(bots, capacity);
    LanesInvariant(capacity, PushAll(bots[..capacity]));
    NewestIsDocumented(bots[..capacity]);
  }
}
