/** What the threaded pipeline does over whole runs, and how it shuts down. */
module PipelineShutdown {
  import opened Tasks
  import opened PriorityQueues
  import opened Leaderboards
  import opened Totals
  import opened Pipeline
  import opened PipelineInvariant

  ghost predicate Reachable(capacity: nat, n: nat, s: State) {
    exists cancel: bool, actions: seq<Action> :: Exec(Start(capacity, n, cancel), actions) == Some(s)
  }

  lemma ReachableInv(capacity: nat, n: nat, s: State)
    requires capacity >= 1 && Reachable(capacity, n, s)
    ensures Inv(s) && |s.workers| == n
  {
    var cancel: bool, actions: seq<Action> :| Exec(Start(capacity, n, cancel), actions) == Some(s);
    StartInv(capacity, n, cancel);
    ExecInv(Start(capacity, n, cancel), actions);
  }

  lemma PlacesAddUp(f: Flow, hands: multiset<Task>)
    requires f.enqueued == f.evicted + f.queue + multiset(f.popped) && multiset(f.popped) == hands + f.completed
    ensures f.enqueued == f.evicted + f.queue + hands + f.completed
    ensures |f.enqueued| == |f.evicted| + |f.queue| + |hands| + |f.completed|
  {
  }

  lemma {:induction false} ExecCapacity(s: State, actions: seq<Action>)
    requires Exec(s, actions).Some?
    ensures Exec(s, actions).value.capacity == s.capacity
  {
    if actions != [] {
      ExecCapacity(s, actions[..|actions| - 1]);
    }
  }

  lemma CapacityStays(capacity: nat, n: nat, s: State)
    requires Reachable(capacity, n, s)
    ensures s.capacity == capacity
  {
    var cancel: bool, actions: seq<Action> :| Exec(Start(capacity, n, cancel), actions) == Some(s);
    ExecCapacity(Start(capacity, n, cancel), actions);
  }

  /** At every point of every run, each payload is accounted for once and each enqueued task is in one place. */
  lemma PipelineConserves(capacity: nat, n: nat, s: State)
    requires capacity >= 1 && Reachable(capacity, n, s)
    ensures var f := s.flow;
            && f.received == InFlight(s.main) + f.rejected + f.shed + f.overflow + |f.queue|
                             + |Gather(Hand, s.workers)| + |f.completed|
            && f.enqueued == f.evicted + f.queue + Gather(Hand, s.workers) + f.completed
            && |f.queue| <= capacity
  {
    ReachableInv(capacity, n, s);
    CapacityStays(capacity, n, s);
    PlacesAddUp(s.flow, Gather(Hand, s.workers));
  }

  lemma MainLeavesQueue(s: State, m: MainAct)
    requires MainEnabled(s, m) && s.lock.Some?
    ensures AfterMain(s, m).flow.queue == s.flow.queue
  {
    match m
    case Dispatch(parsed, degraded, now) =>
    case _ =>
  }

  lemma WorkLeavesQueue(s: State, w: nat, x: WorkerAct)
    requires LockOk(s) && w < |s.workers| && WorkerEnabled(s, s.workers[w], x) && s.lock != Some(w)
    ensures AfterWork(s, w, x).flow.queue == s.flow.queue
  {
  }

  /** Whoever holds the lock has the queue to itself: no step of another thread changes it. */
  lemma LockGuardsQueue(capacity: nat, n: nat, s: State, a: Action)
    requires capacity >= 1 && Reachable(capacity, n, s) && Enabled(s, a)
    ensures s.lock.Some? && Apply(s, a).flow.queue != s.flow.queue ==> a.OfWorker? && s.lock == Some(a.w)
    ensures forall v, w :: 0 <= v < w < |s.workers| ==> !(HoldsLock(s.workers[v]) && HoldsLock(s.workers[w]))
  {
    ReachableInv(capacity, n, s);
    match a
    case OfMain(m) =>
      if s.lock.Some? {
        MainLeavesQueue(s, m);
      }
    case OfWorker(w, x) =>
      if s.lock != Some(w) {
        WorkLeavesQueue(s, w, x);
      }
    case _ =>
  }

  lemma AllReported(popped: seq<Task>, b: Board, workers: seq<Worker>)
    requires Reported(popped, b.counted, b.channel, workers) && b.channel == [] && AllExited(workers)
    ensures Names(popped) == b.counted
  {
    GatherNothing(Unsent, workers);
    assert Tally(b.channel) == multiset{};
  }

  lemma AllCompleted(popped: seq<Task>, workers: seq<Worker>, completed: multiset<Task>)
    requires InHands(popped, workers, completed) && AllExited(workers)
    ensures multiset(popped) == completed
  {
    GatherNothing(Hand, workers);
  }

  /** The snapshot counts exactly the tasks ever popped, and all of them were completed. */
  ghost predicate ExactReport(s: State) {
    && s.board.report.Some? && IsRanking(s.board.report.value, Names(s.flow.popped))
    && multiset(s.flow.popped) == s.flow.completed
  }

  lemma FinishedIsExact(s: State)
    requires Inv(s) && s.main.Finished?
    ensures ExactReport(s)
  {
    AllReported(s.flow.popped, s.board, s.workers);
    AllCompleted(s.flow.popped, s.workers, s.flow.completed);
  }

  /** Whatever the interleaving, the leaderboard of a run that ends is exact. */
  lemma FinalLeaderboardIsExact(capacity: nat, n: nat, s: State)
    requires capacity >= 1 && Reachable(capacity, n, s)
    ensures s.main.Finished? ==> ExactReport(s)
  {
    ReachableInv(capacity, n, s);
    if s.main.Finished? {
      FinishedIsExact(s);
    }
  }

  // ---- After cancellation ----

  /** A worker that has seen the flag clear and has not yet looked into the queue. */
  function Armed1(x: Worker): nat {
    if x.Armed? then 1 else 0
  }

  lemma {:induction false} NoneArmed(workers: seq<Worker>)
    requires forall w :: 0 <= w < |workers| ==> !workers[w].Armed?
    ensures Total(Armed1, workers) == 0
  {
    if workers != [] {
      NoneArmed(workers[..|workers| - 1]);
    }
  }

  /** The lock lets at most one worker be in that position. */
  lemma OneArmed(s: State)
    requires LockOk(s)
    ensures Total(Armed1, s.workers) <= 1
  {
    if w :| 0 <= w < |s.workers| && s.workers[w].Armed? {
      var calm := s.workers[w := Exited];
      assert HoldsLock(s.workers[w]) && s.lock == Some(w);
      forall v | 0 <= v < |calm| ensures !calm[v].Armed? {
        assert HoldsLock(s.workers[v]) ==> s.lock == Some(v);
      }
      NoneArmed(calm);
      TotalUpdate(Armed1, s.workers, w, Exited);
    } else {
      NoneArmed(s.workers);
    }
  }

  lemma WorkUsesBudget(s: State, w: nat, x: WorkerAct)
    requires s.cancel && w < |s.workers| && WorkerEnabled(s, s.workers[w], x)
    ensures var r := AfterWork(s, w, x);
            |r.flow.popped| + Total(Armed1, r.workers) <= |s.flow.popped| + Total(Armed1, s.workers)
  {
    TotalUpdate(Armed1, s.workers, w, Moved(s.workers[w], x, s.cancel));
  }

  lemma CancelStays(s: State, a: Action)
    requires s.cancel && Enabled(s, a)
    ensures Apply(s, a).cancel
  {
  }

  lemma {:induction false} CancelBudget(s: State, actions: seq<Action>)
    requires s.cancel && Exec(s, actions).Some?
    ensures var r := Exec(s, actions).value;
            r.cancel && |r.flow.popped| + Total(Armed1, r.workers) <= |s.flow.popped| + Total(Armed1, s.workers)
  {
    if actions != [] {
      CancelBudget(s, actions[..|actions| - 1]);
      var b, a := Exec(s, actions[..|actions| - 1]).value, actions[|actions| - 1];
      CancelStays(b, a);
      match a {
        case OfWorker(w, x) => WorkUsesBudget(b, w, x);
        case OfMain(m) => MainFrame(b, m);
        case _ =>
      }
    }
  }

  /** Once the flag is set, at most one more task leaves the queue: over all workers, however long it takes. */
  lemma AtMostOneMorePop(capacity: nat, n: nat, s: State, actions: seq<Action>)
    requires capacity >= 1 && Reachable(capacity, n, s) && s.cancel && Exec(s, actions).Some?
    ensures |Exec(s, actions).value.flow.popped| <= |s.flow.popped| + 1
  {
    ReachableInv(capacity, n, s);
    OneArmed(s);
    CancelBudget(s, actions);
  }

  // ---- Shutdown ends ----

  function WorkLeft(x: Worker): nat {
    match x
    case Entering => 2
    case Locked => 1
    case Armed => 6
    case Waiting => 2
    case Holding(_) => 5
    case Sent(_) => 3
    case Exited => 0
  }

  function MainLeft(main: Main, n: nat): nat {
    match main
    case Dispatching => n + 10
    case Pushing(_) => n + 9
    case Reading => n + 8
    case Stopping => n + 7
    case Joining(next) => 3 + if next < n then n - next else 0
    case Closing => 1
    case Finished => 0
  }

  function Left(s: State): nat {
    MainLeft(s.main, |s.workers|) + Total(WorkLeft, s.workers) + |s.board.channel| + (if s.board.ended then 0 else 1)
  }

  lemma WorkDescends(s: State, w: nat, x: WorkerAct)
    requires s.cancel && w < |s.workers| && WorkerEnabled(s, s.workers[w], x)
    ensures Left(AfterWork(s, w, x)) < Left(s)
  {
    TotalUpdate(WorkLeft, s.workers, w, Moved(s.workers[w], x, s.cancel));
  }

  lemma MainDescends(s: State, m: MainAct)
    requires s.cancel && MainEnabled(s, m)
    ensures Left(AfterMain(s, m)) < Left(s)
  {
  }

  /** Once the flag is set, every step brings the end nearer. */
  lemma ShutdownDescends(s: State, a: Action)
    requires s.cancel && Enabled(s, a)
    ensures Left(Apply(s, a)) < Left(s)
  {
    match a {
      case OfWorker(w, x) => WorkDescends(s, w, x);
      case OfMain(m) => MainDescends(s, m);
      case _ =>
    }
  }

  lemma {:induction false} FirstExists(q: multiset<Task>) returns (t: Task)
    requires q != multiset{}
    ensures IsFirst(t, q)
    decreases |q|
  {
    var u :| u in q;
    var rest := q - multiset{u};
    assert forall v :: v in q ==> v == u || v in rest;
    t := u;
    if rest != multiset{} {
      var w := FirstExists(rest);
      if Before(w, u) {
        t := w;
      }
    }
  }

  lemma {:induction false} WorstExists(q: multiset<Task>) returns (t: Task)
    requires q != multiset{}
    ensures IsWorst(t, q)
    decreases |q|
  {
    var u :| u in q;
    var rest := q - multiset{u};
    assert forall v :: v in q ==> v == u || v in rest;
    t := u;
    if rest != multiset{} {
      var w := WorstExists(rest);
      if Worse(w, u) {
        t := w;
      }
    }
  }

  /** Whoever holds the lock can go on. */
  lemma HolderMoves(s: State, w: nat) returns (a: Action)
    requires w < |s.workers| && HoldsLock(s.workers[w])
    ensures Enabled(s, a)
  {
    if s.workers[w].Locked? {
      a := OfWorker(w, See);
    } else if s.flow.queue == multiset{} {
      a := OfWorker(w, Poll(s.flow.queue, PriorityQueues.Wait));
    } else {
      var t := FirstExists(s.flow.queue);
      a := OfWorker(w, Poll(s.flow.queue - multiset{t}, Got(t)));
    }
  }

  /** A worker that has not left can go on, or waits for one that can. */
  lemma WorkerMoves(s: State, w: nat) returns (a: Action)
    requires LockOk(s) && w < |s.workers| && !s.workers[w].Exited?
    ensures Enabled(s, a)
  {
    var x := s.workers[w];
    if x.Holding? {
      a := OfWorker(w, Send);
    } else if x.Sent? {
      a := OfWorker(w, Complete);
    } else if HoldsLock(x) {
      a := HolderMoves(s, w);
    } else if s.lock.None? {
      a := OfWorker(w, Lock);
    } else {
      a := HolderMoves(s, s.lock.value);
    }
  }

  lemma PushMoves(s: State) returns (a: Action)
    requires s.capacity >= 1 && LockOk(s) && s.main.Pushing?
    ensures Enabled(s, a)
  {
    if s.lock.Some? {
      a := HolderMoves(s, s.lock.value);
    } else if |s.flow.queue| < s.capacity {
      a := OfMain(MainAct.Push(s.flow.queue + multiset{s.main.task}, Accepted));
    } else {
      var victim := WorstExists(s.flow.queue);
      a := OfMain(MainAct.Push(s.flow.queue - multiset{victim} + multiset{s.main.task}, DroppedOldest));
    }
  }

  lemma ClosingMoves(s: State) returns (a: Action)
    requires s.main.Closing? && AllExited(s.workers)
    ensures Enabled(s, a)
  {
    if s.board.channel != [] {
      var entries := RankingExists(s.board.counted);
      a := OfBoard(Handle(entries));
    } else if s.board.ended {
      a := OfMain(Collect);
    } else {
      a := OfBoard(EndBoard);
    }
  }

  /** Shutdown never deadlocks, whether or not a wake-up is missed. */
  lemma ShutdownMoves(s: State) returns (a: Action)
    requires Inv(s) && s.cancel && !s.main.Finished?
    ensures Enabled(s, a)
  {
    match s.main
    case Reading => a := OfMain(EndIngest);
    case Dispatching => a := OfMain(MainAct.Dispatch(None, false, 0));
    case Pushing(_) => a := PushMoves(s);
    case Stopping => a := OfMain(Stop);
    case Joining(next) =>
      if next >= |s.workers| {
        a := OfMain(RequestSnapshot);
      } else if s.workers[next].Exited? {
        a := OfMain(Join);
      } else {
        a := WorkerMoves(s, next);
      }
    case Closing => a := ClosingMoves(s);
  }

  /** One schedule of the shutdown: while any step can be taken, one is. */
  ghost predicate Proceeds(s: State, r: State) {
    if exists a :: Enabled(s, a) then exists a :: Enabled(s, a) && r == Apply(s, a) else r == s
  }

  lemma ExecNext(s: State, actions: seq<Action>, r: State, a: Action)
    requires Exec(s, actions) == Some(r) && Enabled(r, a)
    ensures Exec(s, actions + [a]) == Some(Apply(r, a))
  {
    assert (actions + [a])[..|actions|] == actions;
  }

  lemma ReachableStep(capacity: nat, n: nat, s: State, a: Action)
    requires Reachable(capacity, n, s) && Enabled(s, a)
    ensures Reachable(capacity, n, Apply(s, a))
  {
    var cancel: bool, actions: seq<Action> :| Exec(Start(capacity, n, cancel), actions) == Some(s);
    ExecNext(Start(capacity, n, cancel), actions, s, a);
  }

  lemma ShutdownStep(capacity: nat, n: nat, s: State, r: State)
    requires capacity >= 1 && Reachable(capacity, n, s) && s.cancel && !s.main.Finished? && Proceeds(s, r)
    ensures Reachable(capacity, n, r) && r.cancel && Left(r) < Left(s)
  {
    ReachableInv(capacity, n, s);
    var any := ShutdownMoves(s);
    var a :| Enabled(s, a) && r == Apply(s, a);
    ReachableStep(capacity, n, s, a);
    CancelStays(s, a);
    ShutdownDescends(s, a);
  }

  lemma {:induction false} ShutdownFrom(capacity: nat, n: nat, run: nat -> State, i: nat) returns (j: nat)
    requires capacity >= 1 && Reachable(capacity, n, run(i)) && run(i).cancel
    requires forall k: nat :: Proceeds(run(k), run(k + 1))
    ensures Reachable(capacity, n, run(j)) && run(j).main.Finished?
    decreases Left(run(i))
  {
    if run(i).main.Finished? {
      j := i;
    } else {
      ShutdownStep(capacity, n, run(i), run(i + 1));
      j := ShutdownFrom(capacity, n, run, i + 1);
    }
  }

  /** Once the flag is set, every schedule ends, and ends with the exact leaderboard. */
  lemma ShutdownEnds(capacity: nat, n: nat, run: nat -> State) returns (j: nat)
    requires capacity >= 1 && Reachable(capacity, n, run(0)) && run(0).cancel
    requires forall k: nat :: Proceeds(run(k), run(k + 1))
    ensures run(j).main.Finished? && ExactReport(run(j))
  {
    j := ShutdownFrom(capacity, n, run, 0);
    FinalLeaderboardIsExact(capacity, n, run(j));
  }
}
