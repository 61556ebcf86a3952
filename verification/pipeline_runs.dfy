/** The threaded pipeline can get its work done: whatever payloads arrive, some run serves them all. */
module PipelineRuns {
  import opened Tasks
  import opened PriorityQueues
  import opened Parser
  import opened Leaderboards
  import opened Pipeline

  /** Between two payloads: nothing is queued, and the first worker is about to look for work. */
  ghost predicate Idle(s: State) {
    && s.capacity >= 1 && !s.cancel && s.main.Reading? && s.lock.None?
    && |s.workers| >= 1 && s.workers[0].Entering?
    && s.flow.queue == multiset{} && s.board.channel == [] && !s.board.ended
  }

  /** The task that a payload becomes, if it does. */
  function TaskOf(verdict: Verdict): seq<Task> {
    if verdict.Enqueued? then [verdict.task] else []
  }

  /** The tasks that the payloads become, stamped with their numbers. */
  function TasksOf(payloads: seq<Option<OwnedEvent>>, degraded: bool): seq<Task> {
    if payloads == [] then []
    else
      var n := |payloads| - 1;
      TasksOf(payloads[..n], degraded) + TaskOf(Judge(payloads[n], degraded, n))
  }

  lemma Then(start: State, actions: seq<Action>, s: State, a: Action) returns (longer: seq<Action>, r: State)
    requires Exec(start, actions) == Some(s) && Enabled(s, a)
    ensures r == Apply(s, a) && Exec(start, longer) == Some(r)
  {
    longer, r := actions + [a], Apply(s, a);
    assert longer[..|longer| - 1] == actions;
  }

  /** The main thread brings in one payload that becomes a task. */
  lemma Arrives(start: State, actions: seq<Action>, s: State, event: OwnedEvent, degraded: bool, now: nat, task: Task)
    returns (longer: seq<Action>, r: State)
    requires Exec(start, actions) == Some(s) && Idle(s) && Judge(Some(event), degraded, now) == Enqueued(task)
    ensures Exec(start, longer) == Some(r)
    ensures r == s.(flow := s.flow.(received := s.flow.received + 1, queue := multiset{task},
                 enqueued := s.flow.enqueued + multiset{task}))
  {
    longer, r := Then(start, actions, s, OfMain(Receive));
    longer, r := Then(start, longer, r, OfMain(MainAct.Dispatch(Some(event), degraded, now)));
    longer, r := Then(start, longer, r, OfMain(MainAct.Push(multiset{task}, Accepted)));
    assert multiset{} + multiset{task} == multiset{task};
    assert s.flow.evicted + (multiset{} + multiset{task} - multiset{task}) == s.flow.evicted;
  }

  /** The first worker takes it. */
  lemma Taken(start: State, actions: seq<Action>, s: State, task: Task) returns (longer: seq<Action>, r: State)
    requires Exec(start, actions) == Some(s) && s.lock.None? && !s.cancel
    requires |s.workers| >= 1 && s.workers[0].Entering? && s.flow.queue == multiset{task}
    ensures Exec(start, longer) == Some(r)
    ensures r == s.(workers := s.workers[0 := Holding(task)],
                 flow := s.flow.(queue := multiset{}, popped := s.flow.popped + [task]))
  {
    longer, r := Then(start, actions, s, OfWorker(0, Lock));
    longer, r := Then(start, longer, r, OfWorker(0, See));
    assert multiset{task} - multiset{task} == multiset{} && IsFirst(task, multiset{task});
    longer, r := Then(start, longer, r, OfWorker(0, WorkerAct.Poll(multiset{}, Got(task))));
    assert r.workers == s.workers[0 := Holding(task)];
  }

  /** It reports the task, and the leaderboard counts it. */
  lemma Reports(start: State, actions: seq<Action>, s: State, task: Task) returns (longer: seq<Action>, r: State)
    requires Exec(start, actions) == Some(s) && s.board.channel == []
    requires |s.workers| >= 1 && s.workers[0] == Holding(task)
    ensures Exec(start, longer) == Some(r)
    ensures r == s.(workers := s.workers[0 := Entering],
                 flow := s.flow.(completed := s.flow.completed + multiset{task}),
                 board := s.board.(counted := s.board.counted + multiset{task.event.serverName}))
  {
    longer, r := Then(start, actions, s, OfWorker(0, Send));
    longer, r := Then(start, longer, r, OfWorker(0, Complete));
    longer, r := Then(start, longer, r, OfBoard(BoardAct.Handle([])));
    assert r.workers == s.workers[0 := Entering];
    assert r.board.channel == s.board.channel;
  }

  /** What has become of the payloads so far. */
  ghost predicate Processed(s: State, received: nat, tasks: seq<Task>) {
    && s.flow.received == received && s.flow.overflow == 0
    && s.flow.popped == tasks && s.flow.completed == multiset(tasks) && s.board.counted == Names(tasks)
  }

  lemma ServesOne(
    start: State, actions: seq<Action>, s: State, payload: Option<OwnedEvent>, degraded: bool, now: nat,
    tasks: seq<Task>, more: seq<Task>)
    returns (longer: seq<Action>, r: State)
    requires Exec(start, actions) == Some(s) && Idle(s) && Processed(s, now, tasks)
    requires more == tasks + TaskOf(Judge(payload, degraded, now))
    ensures Exec(start, longer) == Some(r) && Idle(r) && Processed(r, now + 1, more)
  {
    var verdict := Judge(payload, degraded, now);
    if verdict.Enqueued? {
      longer, r := Arrives(start, actions, s, payload.value, degraded, now, verdict.task);
      longer, r := Taken(start, longer, r, verdict.task);
      longer, r := Reports(start, longer, r, verdict.task);
      assert more[..|more| - 1] == tasks;
    } else {
      longer, r := Then(start, actions, s, OfMain(Receive));
      longer, r := Then(start, longer, r, OfMain(MainAct.Dispatch(payload, degraded, now)));
      assert more == tasks;
    }
  }

  /**
   For any payloads and any number of workers, some run takes them all in, serves exactly the tasks they
   become, in order, and counts each of them, with nothing evicted.
   */
  lemma {:induction false} EveryStreamCanBeServed(
    capacity: nat, n: nat, payloads: seq<Option<OwnedEvent>>, degraded: bool)
    returns (actions: seq<Action>, s: State)
    requires capacity >= 1 && n >= 1
    ensures Exec(Start(capacity, n, false), actions) == Some(s) && Idle(s)
    ensures Processed(s, |payloads|, TasksOf(payloads, degraded))
  {
    var start := Start(capacity, n, false);
    if payloads == [] {
      actions, s := [], start;
    } else {
      var last := |payloads| - 1;
      actions, s := EveryStreamCanBeServed(capacity, n, payloads[..last], degraded);
      actions, s := ServesOne(start, actions, s, payloads[last], degraded, last,
                              TasksOf(payloads[..last], degraded), TasksOf(payloads, degraded));
    }
  }
}
