/** Every step of the threaded pipeline keeps its invariant. */
module PipelineInvariant {
  import opened Tasks
  import opened PriorityQueues
  import opened Parser
  import opened Leaderboards
  import opened Totals
  import opened Pipeline

  lemma StartInv(capacity: nat, n: nat, cancel: bool)
    requires capacity >= 1
    ensures Inv(Start(capacity, n, cancel))
  {
    var s := Start(capacity, n, cancel);
    GatherNothing(Hand, s.workers);
    GatherNothing(Unsent, s.workers);
  }

  // ---- The lock and the shutdown order ----

  lemma WorkKeepsLock(s: State, w: nat, x: WorkerAct)
    requires LockOk(s) && w < |s.workers| && WorkerEnabled(s, s.workers[w], x)
    ensures LockOk(AfterWork(s, w, x))
  {
  }

  lemma WorkKeepsMain(s: State, w: nat, x: WorkerAct)
    requires MainOk(s) && w < |s.workers| && WorkerEnabled(s, s.workers[w], x)
    ensures MainOk(AfterWork(s, w, x))
  {
  }

  lemma MainKeepsMain(s: State, m: MainAct)
    requires MainOk(s) && MainEnabled(s, m)
    ensures MainOk(AfterMain(s, m))
  {
  }

  // ---- Conservation ----

  lemma PushAlgebra(enqueued: multiset<Task>, evicted: multiset<Task>, queue: multiset<Task>, popped: multiset<Task>,
                    task: Task, queue': multiset<Task>, out: multiset<Task>)
    requires enqueued == evicted + queue + popped && queue + multiset{task} == queue' + out
    ensures enqueued + multiset{task} == (evicted + out) + queue' + popped
  {
    forall t ensures (enqueued + multiset{task})[t] == ((evicted + out) + queue' + popped)[t] {
      assert (queue + multiset{task})[t] == (queue' + out)[t];
    }
  }

  lemma VictimOut(queue: multiset<Task>, task: Task, victim: Task)
    requires victim in queue
    ensures var queue' := queue - multiset{victim} + multiset{task};
            && queue + multiset{task} - queue' == multiset{victim}
            && queue + multiset{task} == queue' + multiset{victim} && |queue'| == |queue|
  {
  }

  /** What a push leaves out of the queue: the victim of an overflow, and nothing else. */
  lemma PushOut(capacity: nat, queue: multiset<Task>, task: Task, queue': multiset<Task>, outcome: PushOutcome)
    requires capacity >= 1 && |queue| <= capacity && PushStep(capacity, queue, task, queue', outcome)
    ensures var out := queue + multiset{task} - queue';
            && queue + multiset{task} == queue' + out && |out| == (if outcome == DroppedOldest then 1 else 0)
            && |queue'| <= capacity
  {
    var out := queue + multiset{task} - queue';
    if outcome == Accepted {
      assert out == multiset{};
    } else {
      var victim :| IsWorst(victim, queue) && queue' == queue - multiset{victim} + multiset{task};
      VictimOut(queue, task, victim);
    }
  }

  lemma PushPlaces(f: Flow, capacity: nat, task: Task, queue': multiset<Task>, outcome: PushOutcome)
    requires capacity >= 1 && Placed(f, capacity) && PushStep(capacity, f.queue, task, queue', outcome)
    ensures Placed(AfterPush(f, task, queue', outcome), capacity)
  {
    PushOut(capacity, f.queue, task, queue', outcome);
    PushAlgebra(f.enqueued, f.evicted, f.queue, multiset(f.popped), task, queue', f.queue + multiset{task} - queue');
  }

  lemma PollHands(popped: seq<Task>, workers: seq<Worker>, completed: multiset<Task>, w: nat, task: Task)
    requires InHands(popped, workers, completed) && w < |workers| && workers[w] == Armed
    ensures InHands(popped + [task], workers[w := Holding(task)], completed)
  {
    GatherGains(Hand, workers, w, Holding(task));
    MoveLast(Gather(Hand, workers), completed, multiset{task});
  }

  lemma CompleteHands(popped: seq<Task>, workers: seq<Worker>, completed: multiset<Task>, w: nat)
    requires InHands(popped, workers, completed) && w < |workers| && workers[w].Sent?
    ensures InHands(popped, workers[w := Entering], completed + multiset{workers[w].task})
  {
    GatherLoses(Hand, workers, w, Entering);
    MoveLast(Gather(Hand, workers[w := Entering]), multiset{workers[w].task}, completed);
  }

  lemma SameHands(popped: seq<Task>, workers: seq<Worker>, completed: multiset<Task>, w: nat, x: Worker)
    requires InHands(popped, workers, completed) && w < |workers| && Hand(x) == Hand(workers[w])
    ensures InHands(popped, workers[w := x], completed)
  {
    GatherKeeps(Hand, workers, w, x);
  }

  predicate Takes(x: WorkerAct) {
    x.Poll? && x.result.Got?
  }

  /** Apart from taking a task and completing one, a worker's step leaves its hands alone. */
  lemma HandsStay(s: State, at: Worker, x: WorkerAct)
    requires WorkerEnabled(s, at, x) && !x.Complete? && !Takes(x)
    ensures Hand(Moved(at, x, s.cancel)) == Hand(at) && FlowAfter(s.flow, at, x) == s.flow
    ensures !x.Send? ==> Unsent(Moved(at, x, s.cancel)) == Unsent(at)
  {
  }

  lemma WorkHands(s: State, w: nat, x: WorkerAct)
    requires InHands(s.flow.popped, s.workers, s.flow.completed)
    requires w < |s.workers| && WorkerEnabled(s, s.workers[w], x)
    ensures var f := FlowAfter(s.flow, s.workers[w], x);
            InHands(f.popped, s.workers[w := Moved(s.workers[w], x, s.cancel)], f.completed)
  {
    var f := s.flow;
    if x.Complete? {
      CompleteHands(f.popped, s.workers, f.completed, w);
    } else if Takes(x) {
      PollHands(f.popped, s.workers, f.completed, w, x.result.task);
    } else {
      HandsStay(s, s.workers[w], x);
      SameHands(f.popped, s.workers, f.completed, w, Moved(s.workers[w], x, s.cancel));
    }
  }

  lemma WorkPlaces(s: State, w: nat, x: WorkerAct)
    requires Placed(s.flow, s.capacity) && w < |s.workers| && WorkerEnabled(s, s.workers[w], x)
    ensures Placed(FlowAfter(s.flow, s.workers[w], x), s.capacity)
  {
  }

  lemma WorkReceives(s: State, w: nat, x: WorkerAct)
    requires Received(s.flow, s.main) && w < |s.workers| && WorkerEnabled(s, s.workers[w], x)
    ensures Received(FlowAfter(s.flow, s.workers[w], x), s.main)
  {
  }

  lemma WorkConserves(s: State, w: nat, x: WorkerAct)
    requires Conserved(s) && w < |s.workers| && WorkerEnabled(s, s.workers[w], x)
    ensures Conserved(AfterWork(s, w, x))
  {
    WorkHands(s, w, x);
    WorkPlaces(s, w, x);
    WorkReceives(s, w, x);
  }

  lemma PushConserves(s: State, m: MainAct)
    requires s.capacity >= 1 && Conserved(s) && MainEnabled(s, m) && m.Push?
    ensures Conserved(AfterMain(s, m))
  {
    PushPlaces(s.flow, s.capacity, s.main.task, m.queue', m.outcome);
  }

  lemma DispatchConserves(s: State, verdict: Verdict)
    requires Conserved(s) && s.main.Dispatching?
    ensures Conserved(AfterDispatch(s, verdict))
  {
  }

  lemma OthersConserve(s: State, m: MainAct)
    requires Conserved(s) && MainEnabled(s, m) && !m.Push? && !m.Dispatch?
    ensures Conserved(AfterMain(s, m))
  {
  }

  lemma MainConserves(s: State, m: MainAct)
    requires s.capacity >= 1 && Conserved(s) && MainEnabled(s, m)
    ensures Conserved(AfterMain(s, m))
  {
    match m {
      case Push(_, _) => PushConserves(s, m);
      case Dispatch(parsed, degraded, now) => DispatchConserves(s, Judge(parsed, degraded, now));
      case _ => OthersConserve(s, m);
    }
  }

  // ---- The leaderboard ----

  lemma NamesAppend(tasks: seq<Task>, task: Task)
    ensures Names(tasks + [task]) == Names(tasks) + multiset{task.event.serverName}
  {
  }

  lemma TallyAppend(cmds: seq<Cmd>, cmd: Cmd)
    ensures Tally(cmds + [cmd]) == Tally(cmds) + Counted(cmd)
  {
  }

  lemma Regroup(a: multiset<string>, b: multiset<string>, c: multiset<string>)
    ensures (a + b) + c == a + (b + c)
  {
  }

  lemma {:induction false} TallySplit(a: seq<Cmd>, b: seq<Cmd>)
    ensures Tally(a + b) == Tally(a) + Tally(b)
  {
    if b == [] {
      assert a + b == a;
    } else {
      var init, last := b[..|b| - 1], b[|b| - 1];
      assert a + b == (a + init) + [last];
      TallySplit(a, init);
      TallyAppend(a + init, last);
      Regroup(Tally(a), Tally(init), Counted(last));
    }
  }

  lemma TallyFirst(cmds: seq<Cmd>)
    requires cmds != []
    ensures Tally(cmds) == Counted(cmds[0]) + Tally(cmds[1..])
  {
    assert cmds == [cmds[0]] + cmds[1..];
    TallySplit([cmds[0]], cmds[1..]);
    TallyAppend([], cmds[0]);
  }

  lemma PollReports(popped: seq<Task>, b: Board, workers: seq<Worker>, w: nat, task: Task)
    requires Reported(popped, b.counted, b.channel, workers) && w < |workers| && workers[w] == Armed
    ensures Reported(popped + [task], b.counted, b.channel, workers[w := Holding(task)])
  {
    NamesAppend(popped, task);
    GatherGains(Unsent, workers, w, Holding(task));
  }

  lemma SendReports(popped: seq<Task>, b: Board, workers: seq<Worker>, w: nat)
    requires Reported(popped, b.counted, b.channel, workers) && w < |workers| && workers[w].Holding?
    ensures var task := workers[w].task;
            Reported(popped, b.counted, b.channel + [Update(task.event.serverName)], workers[w := Sent(task)])
  {
    var task := workers[w].task;
    TallyAppend(b.channel, Update(task.event.serverName));
    GatherLoses(Unsent, workers, w, Sent(task));
    MoveLast(b.counted + Tally(b.channel), Gather(Unsent, workers[w := Sent(task)]), multiset{task.event.serverName});
  }

  lemma HandleReports(popped: seq<Task>, b: Board, workers: seq<Worker>, entries: seq<(string, nat)>)
    requires Reported(popped, b.counted, b.channel, workers) && b.channel != []
    ensures var r := AfterHandle(b, entries); Reported(popped, r.counted, r.channel, workers)
  {
    TallyFirst(b.channel);
    if b.channel[0].Update? {
      assert b.counted + Tally(b.channel) == b.counted + multiset{b.channel[0].wiki} + Tally(b.channel[1..]);
    } else {
      assert Tally(b.channel) == Tally(b.channel[1..]);
    }
  }

  lemma SameReports(popped: seq<Task>, b: Board, workers: seq<Worker>, w: nat, x: Worker)
    requires Reported(popped, b.counted, b.channel, workers) && w < |workers| && Unsent(x) == Unsent(workers[w])
    ensures Reported(popped, b.counted, b.channel, workers[w := x])
  {
    GatherKeeps(Unsent, workers, w, x);
  }

  lemma RequestReports(popped: seq<Task>, b: Board, workers: seq<Worker>)
    requires Reported(popped, b.counted, b.channel, workers)
    ensures Reported(popped, b.counted, b.channel + [Snapshot], workers)
  {
  }

  lemma WorkReports(s: State, w: nat, x: WorkerAct)
    requires Reported(s.flow.popped, s.board.counted, s.board.channel, s.workers)
    requires w < |s.workers| && WorkerEnabled(s, s.workers[w], x)
    ensures var r := AfterWork(s, w, x); Reported(r.flow.popped, r.board.counted, r.board.channel, r.workers)
  {
    var popped, b := s.flow.popped, s.board;
    if x.Send? {
      SendReports(popped, b, s.workers, w);
    } else if Takes(x) {
      PollReports(popped, b, s.workers, w, x.result.task);
    } else {
      SameReports(popped, b, s.workers, w, Moved(s.workers[w], x, s.cancel));
    }
  }

  /** What no step of the main thread touches, and what only the snapshot request does. */
  lemma MainFrame(s: State, m: MainAct)
    requires MainEnabled(s, m)
    ensures var r := AfterMain(s, m);
            && r.capacity == s.capacity && r.lock == s.lock && r.workers == s.workers
            && r.flow.popped == s.flow.popped && (!m.RequestSnapshot? ==> r.board == s.board)
  {
  }

  lemma MainReports(s: State, m: MainAct)
    requires Reported(s.flow.popped, s.board.counted, s.board.channel, s.workers) && MainEnabled(s, m)
    ensures var r := AfterMain(s, m); Reported(r.flow.popped, r.board.counted, r.board.channel, r.workers)
  {
    if m.RequestSnapshot? {
      RequestReports(s.flow.popped, s.board, s.workers);
    } else {
      MainFrame(s, m);
    }
  }

  lemma WorkOrder(s: State, w: nat, x: WorkerAct)
    requires MainOk(s) && w < |s.workers| && WorkerEnabled(s, s.workers[w], x)
    requires Ranked(s.board) && SnapshotLast(s.board.channel, s.board.report.Some?, s.main)
    ensures var r := AfterWork(s, w, x);
            Ranked(r.board) && SnapshotLast(r.board.channel, r.board.report.Some?, r.main)
  {
  }

  lemma WorkBoard(s: State, w: nat, x: WorkerAct)
    requires MainOk(s) && BoardOk(s) && w < |s.workers| && WorkerEnabled(s, s.workers[w], x)
    ensures BoardOk(AfterWork(s, w, x))
  {
    WorkReports(s, w, x);
    WorkOrder(s, w, x);
  }

  lemma MainOrder(s: State, m: MainAct)
    requires Ranked(s.board) && SnapshotLast(s.board.channel, s.board.report.Some?, s.main) && MainEnabled(s, m)
    ensures var r := AfterMain(s, m); Ranked(r.board) && SnapshotLast(r.board.channel, r.board.report.Some?, r.main)
  {
  }

  lemma MainBoard(s: State, m: MainAct)
    requires BoardOk(s) && MainEnabled(s, m)
    ensures BoardOk(AfterMain(s, m))
  {
    MainReports(s, m);
    MainOrder(s, m);
  }

  lemma WorkPreserves(s: State, w: nat, x: WorkerAct)
    requires Inv(s) && w < |s.workers| && WorkerEnabled(s, s.workers[w], x)
    ensures Inv(AfterWork(s, w, x))
  {
    WorkKeepsLock(s, w, x);
    WorkKeepsMain(s, w, x);
    WorkConserves(s, w, x);
    WorkBoard(s, w, x);
  }

  lemma MainPreserves(s: State, m: MainAct)
    requires Inv(s) && MainEnabled(s, m)
    ensures Inv(AfterMain(s, m))
  {
    MainFrame(s, m);
    MainKeepsMain(s, m);
    MainConserves(s, m);
    MainBoard(s, m);
  }

  lemma BoardReports(s: State, x: BoardAct)
    requires Reported(s.flow.popped, s.board.counted, s.board.channel, s.workers) && BoardEnabled(s, x)
    ensures var r := AfterBoard(s.board, x); Reported(s.flow.popped, r.counted, r.channel, s.workers)
  {
    if x.Handle? {
      HandleReports(s.flow.popped, s.board, s.workers, x.entries);
    }
  }

  lemma BoardRanks(s: State, x: BoardAct)
    requires Ranked(s.board) && SnapshotLast(s.board.channel, s.board.report.Some?, s.main) && BoardEnabled(s, x)
    ensures var r := AfterBoard(s.board, x); Ranked(r) && SnapshotLast(r.channel, r.report.Some?, s.main)
    ensures s.board.ended ==> AfterBoard(s.board, x).ended
  {
    var c := s.board.channel;
    if x.Handle? && |c| > 1 && (s.main.Closing? || s.main.Finished?) {
      assert c[..|c| - 1][0].Update?;
      assert c[1..][..|c| - 2] == c[..|c| - 1][1..];
    }
  }

  lemma BoardPreserves(s: State, x: BoardAct)
    requires Inv(s) && BoardEnabled(s, x)
    ensures Inv(s.(board := AfterBoard(s.board, x)))
  {
    BoardReports(s, x);
    BoardRanks(s, x);
  }

  lemma Preserved(s: State, a: Action)
    requires Inv(s) && Enabled(s, a)
    ensures Inv(Apply(s, a))
  {
    match a {
      case Cancel =>
      case OfMain(m) => MainPreserves(s, m);
      case OfWorker(w, x) => WorkPreserves(s, w, x);
      case OfBoard(b) => BoardPreserves(s, b);
    }
  }

  lemma WorkersStay(s: State, a: Action)
    requires Enabled(s, a)
    ensures |Apply(s, a).workers| == |s.workers|
  {
  }

  lemma {:induction false} ExecInv(s: State, actions: seq<Action>)
    requires Inv(s) && Exec(s, actions).Some?
    ensures Inv(Exec(s, actions).value) && |Exec(s, actions).value.workers| == |s.workers|
  {
    if actions != [] {
      ExecInv(s, actions[..|actions| - 1]);
      Preserved(Exec(s, actions[..|actions| - 1]).value, actions[|actions| - 1]);
      WorkersStay(Exec(s, actions[..|actions| - 1]).value, actions[|actions| - 1]);
    }
  }
}
