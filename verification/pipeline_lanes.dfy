/**
 The queue inside the threaded pipeline. Whatever the threads do, the locked queue goes through one run
 of the heap, so it is the two lanes in every reachable state, and its workers together take the tasks of
 each class in the order the main thread enqueued them.
 */
module PipelineLanes {
  import opened Tasks
  import opened PriorityQueues
  import opened Parser
  import opened Pipeline
  import Lanes
  import LaneOrder
  import LaneWaits
  import PipelineShutdown
  import Rings

  /** A run of the heap: its operations, its replies, and the contents before and after each. */
  datatype Log = Log(ops: seq<Lanes.Op>, replies: seq<Lanes.Reply>, states: seq<multiset<Task>>)

  function LoggedPoll(t: Log, queue': multiset<Task>, result: PriorityQueues.Poll): Log {
    Log(t.ops + [Lanes.Poll], t.replies + [Lanes.Polled(result)], t.states + [queue'])
  }

  function LoggedPush(t: Log, task: Task, queue': multiset<Task>, outcome: PushOutcome): Log {
    Log(t.ops + [Lanes.Push(task)], t.replies + [Lanes.Pushed(outcome)], t.states + [queue'])
  }

  function Logged(t: Log, s: State, a: Action): Log {
    match a
    case OfMain(m) => if m.Push? && s.main.Pushing? then LoggedPush(t, s.main.task, m.queue', m.outcome) else t
    case OfWorker(_, x) => if x.Poll? then LoggedPoll(t, x.queue', x.result) else t
    case _ => t
  }

  /** What the actions of a run did to the queue, whoever did it. */
  ghost function LogOf(s: State, actions: seq<Action>): Log {
    if actions == [] then Log([], [], [multiset{}])
    else
      var t := LogOf(s, actions[..|actions| - 1]);
      match Exec(s, actions[..|actions| - 1])
      case None => t
      case Some(r) => Logged(t, r, actions[|actions| - 1])
  }

  // ---- The queue goes through a run of the heap ----

  function AllArrived(ops: seq<Lanes.Op>): multiset<Task> {
    multiset(Lanes.Arrivals(ops, Human)) + multiset(Lanes.Arrivals(ops, Bot))
  }

  /** The log accounts for all that is queued, evicted, popped and enqueued. */
  ghost predicate Follows(capacity: nat, t: Log, f: Flow) {
    && LaneOrder.Ran(capacity, t.ops, t.replies, t.states, f.queue, f.overflow)
    && f.popped == LaneOrder.Popped(t.replies)
    && f.enqueued == AllArrived(t.ops)
  }

  lemma PoppedAppend(replies: seq<Lanes.Reply>, reply: Lanes.Reply)
    ensures LaneOrder.Popped(replies + [reply]) == LaneOrder.Popped(replies) + LaneOrder.Popped1(reply)
  {
    assert (replies + [reply])[..|replies|] == replies;
  }

  lemma ArrivalsAppend(ops: seq<Lanes.Op>, op: Lanes.Op, p: Priority)
    ensures Lanes.Arrivals(ops + [op], p) == Lanes.Arrivals(ops, p) + Lanes.Arrived(op, p)
  {
    assert (ops + [op])[..|ops|] == ops;
  }

  lemma AllArrivedAppend(ops: seq<Lanes.Op>, op: Lanes.Op)
    ensures AllArrived(ops + [op]) == AllArrived(ops) + if op.Push? then multiset{op.task} else multiset{}
  {
    ArrivalsAppend(ops, op, Human);
    ArrivalsAppend(ops, op, Bot);
  }

  /** One operation of the heap, in terms of the counters of the pipeline. */
  lemma FlowFollows(capacity: nat, t: Log, f: Flow, op: Lanes.Op, reply: Lanes.Reply, queue': multiset<Task>, f': Flow)
    requires Follows(capacity, t, f) && Lanes.QueueStep(capacity, f.queue, op, reply, queue')
    requires f'.queue == queue' && f'.overflow == f.overflow + Lanes.Evicted1(reply)
    requires f'.popped == f.popped + LaneOrder.Popped1(reply)
    requires f'.enqueued == f.enqueued + if op.Push? then multiset{op.task} else multiset{}
    ensures Follows(capacity, Log(t.ops + [op], t.replies + [reply], t.states + [queue']), f')
  {
    LaneOrder.RunGoesOn(capacity, t.ops, t.replies, t.states, f.queue, f.overflow, op, reply, queue');
    PoppedAppend(t.replies, reply);
    AllArrivedAppend(t.ops, op);
  }

  lemma PushMoves(f: Flow, task: Task, queue': multiset<Task>, outcome: PushOutcome)
    ensures var f', reply := AfterPush(f, task, queue', outcome), Lanes.Pushed(outcome);
            && f'.queue == queue' && f'.overflow == f.overflow + Lanes.Evicted1(reply)
            && f'.popped == f.popped + LaneOrder.Popped1(reply)
            && f'.enqueued == f.enqueued + multiset{task}
  {
  }

  lemma PushFollows(capacity: nat, t: Log, f: Flow, task: Task, queue': multiset<Task>, outcome: PushOutcome)
    requires Follows(capacity, t, f) && PushStep(capacity, f.queue, task, queue', outcome)
    ensures Follows(capacity, LoggedPush(t, task, queue', outcome), AfterPush(f, task, queue', outcome))
  {
    var f' := AfterPush(f, task, queue', outcome);
    PushMoves(f, task, queue', outcome);
    FlowFollows(capacity, t, f, Lanes.Push(task), Lanes.Pushed(outcome), queue', f');
  }

  lemma PollMoves(f: Flow, at: Worker, queue': multiset<Task>, result: PriorityQueues.Poll)
    requires PollStep(f.queue, false, queue', result)
    ensures var f' := FlowAfter(f, at, WorkerAct.Poll(queue', result));
            && f'.queue == queue' && f'.overflow == f.overflow
            && f'.popped == f.popped + LaneOrder.Popped1(Lanes.Polled(result))
            && f'.enqueued == f.enqueued + multiset{}
  {
  }

  lemma PollFollows(capacity: nat, t: Log, f: Flow, at: Worker, queue': multiset<Task>, result: PriorityQueues.Poll)
    requires Follows(capacity, t, f) && PollStep(f.queue, false, queue', result)
    ensures Follows(capacity, LoggedPoll(t, queue', result), FlowAfter(f, at, WorkerAct.Poll(queue', result)))
  {
    var f' := FlowAfter(f, at, WorkerAct.Poll(queue', result));
    PollMoves(f, at, queue', result);
    FlowFollows(capacity, t, f, Lanes.Poll, Lanes.Polled(result), queue', f');
  }

  /** A step that is no operation of the heap. */
  ghost predicate LeavesQueue(f: Flow, f': Flow) {
    f'.queue == f.queue && f'.overflow == f.overflow && f'.popped == f.popped && f'.enqueued == f.enqueued
  }

  lemma MainMoves(s: State, m: MainAct)
    requires MainEnabled(s, m)
    ensures var f' := AfterMain(s, m).flow;
            if m.Push? then f' == AfterPush(s.flow, s.main.task, m.queue', m.outcome) else LeavesQueue(s.flow, f')
  {
  }

  lemma WorkMoves(s: State, w: nat, x: WorkerAct)
    requires w < |s.workers| && WorkerEnabled(s, s.workers[w], x) && !x.Poll?
    ensures LeavesQueue(s.flow, AfterWork(s, w, x).flow)
  {
  }

  lemma SameFollows(capacity: nat, t: Log, f: Flow, f': Flow)
    requires Follows(capacity, t, f) && LeavesQueue(f, f')
    ensures Follows(capacity, t, f')
  {
  }

  lemma StepFollows(t: Log, s: State, a: Action, t': Log, f': Flow)
    requires Follows(s.capacity, t, s.flow) && Enabled(s, a)
    requires t' == Logged(t, s, a) && f' == Apply(s, a).flow
    ensures Follows(s.capacity, t', f')
  {
    match a
    case OfMain(m) =>
      MainMoves(s, m);
      if m.Push? {
        PushFollows(s.capacity, t, s.flow, s.main.task, m.queue', m.outcome);
      } else {
        SameFollows(s.capacity, t, s.flow, f');
      }
    case OfWorker(w, x) =>
      if x.Poll? {
        PollFollows(s.capacity, t, s.flow, s.workers[w], x.queue', x.result);
      } else {
        WorkMoves(s, w, x);
        SameFollows(s.capacity, t, s.flow, f');
      }
    case _ =>
  }

  lemma StartFollows(capacity: nat, n: nat, cancel: bool)
    ensures Follows(capacity, LogOf(Start(capacity, n, cancel), []), Start(capacity, n, cancel).flow)
  {
  }

  lemma {:induction false} AlwaysFollows(s: State, actions: seq<Action>, r: State)
    requires Exec(s, actions) == Some(r) && Follows(s.capacity, LogOf(s, []), s.flow)
    ensures Follows(s.capacity, LogOf(s, actions), r.flow)
  {
    if actions != [] {
      var before, a := actions[..|actions| - 1], actions[|actions| - 1];
      var q := Exec(s, before).value;
      PipelineShutdown.ExecCapacity(s, before);
      AlwaysFollows(s, before, q);
      StepFollows(LogOf(s, before), q, a, LogOf(s, actions), r.flow);
    }
  }

  // ---- One clock ----

  /** The clock reading an action puts on a task. */
  function Stamp(a: Action): Option<nat> {
    match a
    case OfMain(Dispatch(parsed, degraded, now)) => if Judge(parsed, degraded, now).Enqueued? then Some(now) else None
    case _ => None
  }

  function Clock(actions: seq<Action>): int {
    if actions == [] then -1
    else
      var stamp := Stamp(actions[|actions| - 1]);
      if stamp.Some? then stamp.value else Clock(actions[..|actions| - 1])
  }

  /** Each task is stamped later than the one before. */
  predicate Clocked(actions: seq<Action>) {
    actions != [] ==>
      var before, stamp := actions[..|actions| - 1], Stamp(actions[|actions| - 1]);
      Clocked(before) && (stamp.Some? ==> stamp.value > Clock(before))
  }

  lemma {:induction false} ClockedBefore(actions: seq<Action>, k: nat)
    requires Clocked(actions) && k <= |actions|
    ensures Clocked(actions[..k])
  {
    if k == |actions| {
      assert actions[..k] == actions;
    } else {
      assert actions[..|actions| - 1][..k] == actions[..k];
      ClockedBefore(actions[..|actions| - 1], k);
    }
  }

  ghost predicate Earlier(ops: seq<Lanes.Op>, clock: int) {
    forall i :: 0 <= i < |ops| && ops[i].Push? ==> ops[i].task.enqueuedAt < clock
  }

  ghost predicate InTime(ops: seq<Lanes.Op>, main: Main, clock: int) {
    && Lanes.Stamped(ops) && Earlier(ops, clock + 1)
    && (main.Pushing? ==> main.task.enqueuedAt == clock && Earlier(ops, clock))
  }

  lemma StampedNext(ops: seq<Lanes.Op>, op: Lanes.Op, clock: int)
    requires Lanes.Stamped(ops) && Earlier(ops, clock + 1)
    requires op.Push? ==> op.task.enqueuedAt == clock && Earlier(ops, clock)
    ensures Lanes.Stamped(ops + [op]) && Earlier(ops + [op], clock + 1)
  {
  }

  lemma PollInTime(ops: seq<Lanes.Op>, main: Main, clock: int)
    requires InTime(ops, main, clock)
    ensures InTime(ops + [Lanes.Poll], main, clock)
  {
    StampedNext(ops, Lanes.Poll, clock);
  }

  lemma StepInTime(t: Log, s: State, a: Action, clock: int)
    requires InTime(t.ops, s.main, clock) && Enabled(s, a) && (Stamp(a).Some? ==> Stamp(a).value > clock)
    ensures InTime(Logged(t, s, a).ops, Apply(s, a).main, if Stamp(a).Some? then Stamp(a).value else clock)
  {
    match a
    case OfMain(Push(queue', outcome)) => StampedNext(t.ops, Lanes.Push(s.main.task), clock);
    case OfWorker(w, Poll(queue', result)) => PollInTime(t.ops, s.main, clock);
    case _ =>
  }

  lemma {:induction false} AlwaysInTime(s: State, actions: seq<Action>)
    requires Exec(s, actions).Some? && Clocked(actions) && s.main.Reading?
    ensures InTime(LogOf(s, actions).ops, Exec(s, actions).value.main, Clock(actions))
  {
    if actions != [] {
      var before := actions[..|actions| - 1];
      AlwaysInTime(s, before);
      StepInTime(LogOf(s, before), Exec(s, before).value, actions[|actions| - 1], Clock(before));
    }
  }

  // ---- What follows for the pipeline ----

  /** In every reachable state the shared queue is two lanes in order, and its overflow count is theirs. */
  lemma QueueIsTwoLanes(capacity: nat, n: nat, cancel: bool, actions: seq<Action>, s: State)
    requires capacity >= 1 && Exec(Start(capacity, n, cancel), actions) == Some(s) && Clocked(actions)
    ensures var t := LogOf(Start(capacity, n, cancel), actions);
            var l := Lanes.LanesAfter(capacity, t.ops);
            && s.flow.queue == l.Contents() && l.Valid() && l.Size() <= capacity
            && s.flow.overflow == Lanes.Evictions(t.replies)
            && LaneOrder.RepliesAsLanes(capacity, t.ops, t.replies)
  {
    var t := LogOf(Start(capacity, n, cancel), actions);
    StartFollows(capacity, n, cancel);
    AlwaysFollows(Start(capacity, n, cancel), actions, s);
    AlwaysInTime(Start(capacity, n, cancel), actions);
    Lanes.HeapIsTwoLanes(capacity, t.ops, t.replies, t.states, |t.ops|);
    assert t.ops[..|t.ops|] == t.ops;
    LaneOrder.AllRepliesAsLanes(capacity, t.ops, t.replies, t.states);
  }

  /** However many workers there are, what they take of a class is an in-order part of what was enqueued of it. */
  lemma WorkersTakeInOrder(
    capacity: nat, n: nat, cancel: bool, actions: seq<Action>, s: State, p: Priority)
    requires capacity >= 1 && Exec(Start(capacity, n, cancel), actions) == Some(s) && Clocked(actions)
    ensures var t := LogOf(Start(capacity, n, cancel), actions);
            && Rings.ReadsOff(LaneOrder.OfClass(s.flow.popped, p), Lanes.Arrivals(t.ops, p))
            && s.flow.enqueued == multiset(Lanes.Arrivals(t.ops, Human)) + multiset(Lanes.Arrivals(t.ops, Bot))
  {
    var t := LogOf(Start(capacity, n, cancel), actions);
    StartFollows(capacity, n, cancel);
    AlwaysFollows(Start(capacity, n, cancel), actions, s);
    AlwaysInTime(Start(capacity, n, cancel), actions);
    LaneOrder.HeapServesInOrder(capacity, t.ops, t.replies, t.states, p);
  }

  // ---- Waiting ----

  lemma LoggedGrows(t: Log, s: State, a: Action)
    ensures t.ops <= Logged(t, s, a).ops && t.replies <= Logged(t, s, a).replies
  {
  }

  lemma {:induction false} LogGrows(s: State, actions: seq<Action>, k: nat)
    requires k <= |actions|
    ensures LogOf(s, actions[..k]).ops <= LogOf(s, actions).ops
    ensures LogOf(s, actions[..k]).replies <= LogOf(s, actions).replies
  {
    if k == |actions| {
      assert actions[..k] == actions;
    } else {
      var before := actions[..|actions| - 1];
      assert before[..k] == actions[..k];
      LogGrows(s, before, k);
      if Exec(s, before).Some? {
        LoggedGrows(LogOf(s, before), Exec(s, before).value, actions[|actions| - 1]);
      }
    }
  }

  /** Log `u` goes on from log `t`, with one clock. */
  ghost predicate GoesOn(capacity: nat, t: Log, u: Log)
    requires capacity >= 1
  {
    && Lanes.Stamped(u.ops) && LaneOrder.RepliesAsLanes(capacity, u.ops, u.replies)
    && t.ops <= u.ops && t.replies <= u.replies && |t.replies| == |t.ops|
  }

  lemma InTurn(capacity: nat, t: Log, u: Log, i: nat)
    requires capacity >= 1
    ensures var waiting := Lanes.LanesAfter(capacity, t.ops).hi;
            GoesOn(capacity, t, u) && i < |waiting|
            && |LaneOrder.Popped(u.replies)| > |LaneOrder.Popped(t.replies)| + i ==>
              waiting[i] !in Lanes.LanesAfter(capacity, u.ops).Contents()
  {
    var k, n := |t.ops|, |u.ops|;
    if GoesOn(capacity, t, u) && i < |Lanes.LanesAfter(capacity, t.ops).hi|
       && |LaneOrder.Popped(u.replies)| > |LaneOrder.Popped(t.replies)| + i {
      assert u.ops[..k] == t.ops && u.ops[..n] == u.ops && u.replies[..k] == t.replies && u.replies[..n] == u.replies;
      LaneWaits.RecordIsRun(capacity, u.ops, Human, k);
      LaneWaits.RepliesMatch(capacity, u.ops, u.replies);
      LaneWaits.PopsArePolls(capacity, u.ops, u.replies, k, n);
      LaneWaits.HumanWaitsInTurn(capacity, u.ops, k, n, i);
    }
  }

  /**
   However many workers there are and whatever arrives meanwhile, the Human at place `i` of the queue has
   left it once the workers have taken `i + 1` more tasks.
   */
  lemma HumanLeavesInTurn(
    capacity: nat, n: nat, cancel: bool, actions: seq<Action>, k: nat, s: State, r: State, i: nat)
    requires capacity >= 1 && k <= |actions| && Clocked(actions)
    requires Exec(Start(capacity, n, cancel), actions[..k]) == Some(s)
    requires Exec(Start(capacity, n, cancel), actions) == Some(r)
    ensures var waiting := Lanes.LanesAfter(capacity, LogOf(Start(capacity, n, cancel), actions[..k]).ops).hi;
            i < |waiting| && |r.flow.popped| > |s.flow.popped| + i ==> waiting[i] !in r.flow.queue
  {
    var start := Start(capacity, n, cancel);
    var t, u := LogOf(start, actions[..k]), LogOf(start, actions);
    ClockedBefore(actions, k);
    QueueIsTwoLanes(capacity, n, cancel, actions[..k], s);
    QueueIsTwoLanes(capacity, n, cancel, actions, r);
    StartFollows(capacity, n, cancel);
    AlwaysFollows(start, actions[..k], s);
    AlwaysFollows(start, actions, r);
    AlwaysInTime(start, actions);
    LogGrows(start, actions, k);
    InTurn(capacity, t, u, i);
  }

  // ---- Shedding ----

  function HumanIn(a: Action): seq<OwnedEvent> {
    match a
    case OfMain(Dispatch(parsed, _, _)) => if parsed.Some? && !parsed.value.bot then [parsed.value] else []
    case _ => []
  }

  /** The Human events among the payloads that parsed, in order. */
  function HumansHeard(actions: seq<Action>): seq<OwnedEvent> {
    if actions == [] then [] else HumansHeard(actions[..|actions| - 1]) + HumanIn(actions[|actions| - 1])
  }

  function DegradedBot(a: Action): nat {
    match a
    case OfMain(Dispatch(parsed, degraded, _)) => if parsed.Some? && parsed.value.bot && degraded then 1 else 0
    case _ => 0
  }

  /** How many Bots were heard in Degraded Mode. */
  function DegradedBots(actions: seq<Action>): nat {
    if actions == [] then 0 else DegradedBots(actions[..|actions| - 1]) + DegradedBot(actions[|actions| - 1])
  }

  function Events(tasks: seq<Task>): seq<OwnedEvent> {
    seq(|tasks|, i requires 0 <= i < |tasks| => tasks[i].event)
  }

  /** The Human in the main thread's hands. */
  function HumanInHand(main: Main): seq<OwnedEvent> {
    if main.Pushing? && main.task.priority.Human? then [main.task.event] else []
  }

  ghost predicate HumansKept(heard: seq<OwnedEvent>, ops: seq<Lanes.Op>, main: Main) {
    heard == Events(Lanes.Arrivals(ops, Human)) + HumanInHand(main)
  }

  lemma PushKeepsHumans(heard: seq<OwnedEvent>, ops: seq<Lanes.Op>, main: Main)
    requires HumansKept(heard, ops, main) && main.Pushing?
    ensures HumansKept(heard, ops + [Lanes.Push(main.task)], Reading)
  {
    ArrivalsAppend(ops, Lanes.Push(main.task), Human);
  }

  lemma PollKeepsHumans(heard: seq<OwnedEvent>, ops: seq<Lanes.Op>, main: Main)
    requires HumansKept(heard, ops, main)
    ensures HumansKept(heard + [], ops + [Lanes.Poll], main)
  {
    ArrivalsAppend(ops, Lanes.Poll, Human);
    assert heard + [] == heard && Lanes.Arrivals(ops, Human) + [] == Lanes.Arrivals(ops, Human);
  }

  lemma OtherKeepsHumans(heard: seq<OwnedEvent>, ops: seq<Lanes.Op>, main: Main, main': Main)
    requires HumansKept(heard, ops, main) && HumanInHand(main') == HumanInHand(main)
    ensures HumansKept(heard + [], ops, main')
  {
    assert heard + [] == heard;
  }

  lemma DispatchKeepsHumans(
    heard: seq<OwnedEvent>, ops: seq<Lanes.Op>, s: State, parsed: Option<OwnedEvent>, degraded: bool, now: nat)
    requires HumansKept(heard, ops, s.main) && s.main.Dispatching?
    ensures var a, r := MainAct.Dispatch(parsed, degraded, now), AfterDispatch(s, Judge(parsed, degraded, now));
            && HumansKept(heard + HumanIn(OfMain(a)), ops, r.main)
            && r.flow.shed == s.flow.shed + DegradedBot(OfMain(a))
  {
    ShedOnlyDegradedBots(parsed, degraded, now);
    assert Events(Lanes.Arrivals(ops, Human)) + [] == Events(Lanes.Arrivals(ops, Human));
  }

  lemma StepKeepsHumans(t: Log, s: State, a: Action, heard: seq<OwnedEvent>)
    requires Enabled(s, a) && HumansKept(heard, t.ops, s.main)
    ensures HumansKept(heard + HumanIn(a), Logged(t, s, a).ops, Apply(s, a).main)
    ensures Apply(s, a).flow.shed == s.flow.shed + DegradedBot(a)
  {
    match a
    case OfMain(Push(queue', outcome)) =>
      PushKeepsHumans(heard, t.ops, s.main);
      assert heard + [] == heard;
    case OfMain(Dispatch(parsed, degraded, now)) => DispatchKeepsHumans(heard, t.ops, s, parsed, degraded, now);
    case OfWorker(w, Poll(queue', result)) => PollKeepsHumans(heard, t.ops, s.main);
    case _ => OtherKeepsHumans(heard, t.ops, s.main, Apply(s, a).main);
  }

  /**
   In every run and whatever the mode, each Human that parses is enqueued, once and in order, and what is
   shed is exactly the Bots heard in Degraded Mode.
   */
  lemma {:induction false} HumansAreNeverShed(capacity: nat, n: nat, cancel: bool, actions: seq<Action>, s: State)
    requires Exec(Start(capacity, n, cancel), actions) == Some(s)
    ensures var t := LogOf(Start(capacity, n, cancel), actions);
            HumansHeard(actions) == Events(Lanes.Arrivals(t.ops, Human)) + HumanInHand(s.main)
    ensures s.flow.shed == DegradedBots(actions)
  {
    if actions != [] {
      var before, a := actions[..|actions| - 1], actions[|actions| - 1];
      var s0 := Exec(Start(capacity, n, cancel), before).value;
      HumansAreNeverShed(capacity, n, cancel, before, s0);
      StepKeepsHumans(LogOf(Start(capacity, n, cancel), before), s0, a, HumansHeard(before));
    }
  }
}
