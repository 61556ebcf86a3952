/**
 When a task of the async pool waits for a busy worker although another worker sleeps. Permits do not
 add up: two pushes that meet no waiter leave one permit, and so wake one worker.
 */
module AsyncWork {
  import opened Tasks
  import opened Rings
  import opened AsyncPool
  import opened AsyncDrain
  import opened AsyncBias

  predicate Sleeps(x: Worker) {
    x.pc.Asleep? && !x.woken
  }

  /** A lane holds a task, some worker sleeps, and whoever does not sleep is busy with another task. */
  ghost predicate Starves(s: Pool, lane: Lane) {
    && s.At(lane).Queue() != []
    && (exists w :: 0 <= w < |s.workers| && Sleeps(s.workers[w]))
    && (forall w :: 0 <= w < |s.workers| ==> Sleeps(s.workers[w]) || s.workers[w].pc.Busy?)
  }

  // ---- A lane of one place never starves ----

  predicate PollsLane(x: Worker, lane: Lane) {
    if lane.Hi? then x.pc.PollHi? else x.pc.PollLo?
  }

  /** The worker was told of the lane, or looks into it at its next action. */
  ghost predicate Attends(s: Pool, w: nat, lane: Lane) {
    && w < |s.workers|
    && (s.workers[w].At(lane) == Notified || (s.workers[w].At(lane) == Fresh && PollsLane(s.workers[w], lane)))
  }

  /** Unlike `Covered`, this does not count on a worker that is busy. */
  ghost predicate Attended(s: Pool, lane: Lane) {
    s.At(lane).Queue() != [] ==> s.At(lane).permit || exists w :: Attends(s, w, lane)
  }

  ghost predicate AllAttended(s: Pool) {
    Attended(s, Hi) && Attended(s, Lo)
  }

  lemma NotifyAttends(s: Pool, lane: Lane)
    requires AllWaitersOk(s)
    ensures Attended(NotifyOne(s, lane), lane)
    ensures Attended(s, lane.Other()) ==> Attended(NotifyOne(s, lane), lane.Other())
  {
    var ch, r, other := s.At(lane), NotifyOne(s, lane), lane.Other();
    if ch.waiters != [] {
      assert ch.waiters[0] in ch.waiters && IsParked(s, ch.waiters[0], lane);
      assert Attends(r, ch.waiters[0], lane);
    }
    if v: nat :| Attends(s, v, other) {
      assert Attends(r, v, other);
    }
  }

  /** A step that changes the worker `w` alone, in `l` at most towards a look, keeps the lane attended. */
  lemma MoveAttends(s: Pool, r: Pool, w: nat, l: Lane)
    requires Attended(s, l) && w < |s.workers| == |r.workers| && r.At(l).Queue() == s.At(l).Queue()
    requires forall v :: 0 <= v < |s.workers| && v != w ==> r.workers[v] == s.workers[v]
    requires s.At(l).permit ==> r.At(l).permit || Attends(r, w, l)
    requires Attends(s, w, l) ==> Attends(r, w, l) || s.At(l).Queue() == []
    ensures Attended(r, l)
  {
    if v: nat :| Attends(s, v, l) {
      assert v != w ==> Attends(r, v, l);
    }
  }

  lemma PassesOn(s: Pool, w: nat, lane: Lane)
    requires AllWaitersOk(s) && w < |s.workers| && s.workers[w].At(lane) == Notified
    ensures Attended(DropFuture(s, w, lane), lane)
  {
    var idle := s.SetWorker(w, s.workers[w].Set(lane, Fresh));
    assert AllWaitersOk(idle) by {
      assert forall v: nat, l: Lane :: IsParked(idle, v, l) == IsParked(s, v, l);
    }
    NotifyAttends(idle, lane);
  }

  /** Taking the only task of a lane empties it, and a notification for the other lane is passed on. */
  lemma TakeAttends(s: Pool, w: nat, lane: Lane)
    requires Inv(s) && AllAttended(s) && s.capacity == 1
    requires w < |s.workers| && PollsLane(s.workers[w], lane) && s.workers[w].At(lane) == Fresh
    ensures AllAttended(Take(s, w, lane))
  {
    var mid, other := Removed(s, w, lane), lane.Other();
    RemovedWaiters(s, w, lane);
    assert mid.At(lane).Queue() == [] by {
      assert LaneOk(s, lane);
    }
    DropPast(mid, w, other);
    if s.workers[w].At(other) == Notified {
      PassesOn(mid, w, other);
    } else {
      MoveAttends(s, Take(s, w, lane), w, other);
    }
  }

  lemma PollLaneAttends(s: Pool, w: nat, lane: Lane)
    requires Inv(s) && AllAttended(s) && s.capacity == 1
    requires w < |s.workers| && PollsLane(s.workers[w], lane)
    ensures AllAttended(PollLane(s, w, lane, if lane.Hi? then PollLo else Asleep))
  {
    var r := PollLane(s, w, lane, if lane.Hi? then PollLo else Asleep);
    assert WorkerOk(s, s.workers[w]);
    if s.workers[w].At(lane) == Fresh && s.At(lane).Queue() != [] {
      TakeAttends(s, w, lane);
    } else {
      MoveAttends(s, r, w, lane);
      MoveAttends(s, r, w, lane.Other());
    }
  }

  lemma MoveOther(s: Pool, r: Pool, l: Lane)
    requires Attended(s, l) && r.At(l) == s.At(l) && r.workers == s.workers
    ensures Attended(r, l)
  {
    if v: nat :| Attends(s, v, l) {
      assert Attends(r, v, l);
    }
  }

  lemma PushAttends(s: Pool, lane: Lane, task: Task)
    requires Inv(s) && AllAttended(s)
    ensures AllAttended(AfterPush(s, lane, task))
  {
    var mid := Queued(s, lane, task);
    QueuedKeeps(s, lane, task);
    MoveOther(s, mid, lane.Other());
    NotifyAttends(mid, lane);
  }

  lemma PollAttends(s: Pool, w: nat)
    requires Inv(s) && AllAttended(s) && s.capacity == 1 && !s.cancelled && Enabled(s, Poll(w))
    ensures AllAttended(AfterPoll(s, w))
  {
    var x := s.workers[w];
    assert WorkerOk(s, x);
    if x.pc.PollHi? || x.pc.PollLo? {
      PollLaneAttends(s, w, if x.pc.PollHi? then Hi else Lo);
    } else {
      MoveAttends(s, AfterPoll(s, w), w, Hi);
      MoveAttends(s, AfterPoll(s, w), w, Lo);
    }
  }

  lemma StepAttends(s: Pool, a: Action)
    requires Inv(s) && AllAttended(s) && s.capacity == 1 && !s.cancelled && Enabled(s, a) && !a.Cancel?
    ensures AllAttended(Apply(s, a))
  {
    match a
    case Push(lane, task) => PushAttends(s, lane, task);
    case Poll(w) => PollAttends(s, w);
  }

  lemma CancelIsFinal(s: Pool, a: Action)
    requires Enabled(s, a)
    ensures Apply(s, a).cancelled <==> s.cancelled || a.Cancel?
  {
    match a
    case Push(lane, task) => NotifyPast(Queued(s, lane, task), lane);
    case Poll(w) => PollFrame(s, w);
    case Cancel =>
  }

  /** In a ring of one place, the latest push was attended to, or is over. */
  lemma {:induction false} AlwaysAttended(n: nat, actions: seq<Action>)
    requires Exec(1, n, actions).Some? && !Exec(1, n, actions).value.cancelled
    ensures AllAttended(Exec(1, n, actions).value)
  {
    if actions != [] {
      var before, a := actions[..|actions| - 1], actions[|actions| - 1];
      var s := Exec(1, n, before).value;
      Reachable(1, n, before);
      CancelIsFinal(s, a);
      AlwaysAttended(n, before);
      StepAttends(s, a);
    }
  }

  lemma AttendedIsNotStarved(s: Pool, lane: Lane)
    requires Inv(s) && !s.cancelled && Attended(s, lane)
    ensures !Starves(s, lane)
  {
    if w: nat :| w < |s.workers| && Sleeps(s.workers[w]) {
      assert WorkerOk(s, s.workers[w]) && IsParked(s, w, lane);
      if v: nat :| Attends(s, v, lane) {
        assert WorkerOk(s, s.workers[v]) && !Sleeps(s.workers[v]) && !s.workers[v].pc.Busy?;
      }
    }
  }

  lemma LoneIsNotStarved(s: Pool, lane: Lane)
    requires Inv(s) && !s.cancelled && |s.workers| <= 1
    ensures !Starves(s, lane)
  {
    if |s.workers| == 1 && Sleeps(s.workers[0]) {
      assert WorkerOk(s, s.workers[0]) && IsParked(s, 0, lane) && LaneOk(s, lane);
      assert forall v :: !Looker(s, v, lane);
    }
  }

  // ---- Two workers and two places are enough ----

  /** Workers 0 and 1 are as given and nobody else has done anything; only the Human lane was used. */
  ghost predicate Two(s: Pool, capacity: nat, n: nat, x: Worker, y: Worker) {
    && s.capacity == capacity && |s.workers| == n >= 2 && !s.cancelled
    && s.workers[0] == x && s.workers[1] == y
    && (forall v :: 2 <= v < n ==> s.workers[v].pc == Busy)
    && s.lo.Queue() == [] && !s.lo.permit
  }

  const UNSEEN := Worker(PollHi, SawEmpty, Fresh, false)

  lemma BothLookInVain(capacity: nat, n: nat) returns (actions: seq<Action>, s: Pool)
    requires n >= 2
    ensures Exec(capacity, n, actions) == Some(s) && Two(s, capacity, n, UNSEEN, UNSEEN)
    ensures s.hi == Channel(History(Ring([], 0), [], []), false, [])
  {
    var idle := Worker(Busy, Fresh, Fresh, false);
    actions, s := [], Start(capacity, n);
    actions, s := Then(capacity, n, actions, s, Poll(0));
    actions, s := Then(capacity, n, actions, s, Poll(0));
    assert Two(s, capacity, n, UNSEEN, idle);
    actions, s := Then(capacity, n, actions, s, Poll(1));
    actions, s := Then(capacity, n, actions, s, Poll(1));
  }

  /** Two pushes meet no waiter, and leave one permit. */
  lemma OnePermitForTwo(capacity: nat, n: nat, a: Task, b: Task) returns (actions: seq<Action>, s: Pool)
    requires n >= 2 && capacity != 1
    ensures Exec(capacity, n, actions) == Some(s) && Two(s, capacity, n, UNSEEN, UNSEEN)
    ensures s.hi.Queue() == [a, b] && s.hi.permit && s.hi.waiters == []
  {
    actions, s := BothLookInVain(capacity, n);
    assert s.At(Hi) == s.hi;
    actions, s := Then(capacity, n, actions, s, Action.Push(Hi, a));
    assert s.hi.Queue() == [a] && s.At(Hi) == s.hi;
    actions, s := Then(capacity, n, actions, s, Action.Push(Hi, b));
  }

  /** The first worker consumes the permit and takes the first task. */
  lemma FirstIsBusy(capacity: nat, n: nat, a: Task, b: Task) returns (actions: seq<Action>, s: Pool)
    requires n >= 2 && capacity != 1
    ensures Exec(capacity, n, actions) == Some(s)
    ensures Two(s, capacity, n, Worker(Busy, Fresh, Fresh, false), UNSEEN)
    ensures s.hi.Queue() == [b] && !s.hi.permit && s.hi.waiters == []
  {
    actions, s := OnePermitForTwo(capacity, n, a, b);
    actions, s := Then(capacity, n, actions, s, Poll(0));
    assert Two(s, capacity, n, Worker(PollHi, Fresh, Fresh, false), UNSEEN) && s.hi.Queue() == [a, b];
    actions, s := Then(capacity, n, actions, s, Poll(0));
  }

  /** The second worker goes to sleep, with the second task still queued. */
  lemma SecondSleeps(capacity: nat, n: nat, a: Task, b: Task) returns (actions: seq<Action>, s: Pool)
    requires n >= 2 && capacity != 1
    ensures Exec(capacity, n, actions) == Some(s) && !s.cancelled && s.hi.Queue() == [b] && Starves(s, Hi)
  {
    var busy := Worker(Busy, Fresh, Fresh, false);
    actions, s := FirstIsBusy(capacity, n, a, b);
    actions, s := Then(capacity, n, actions, s, Poll(1));
    assert Two(s, capacity, n, busy, Worker(PollLo, Parked, Fresh, false)) && s.hi.Queue() == [b];
    actions, s := Then(capacity, n, actions, s, Poll(1));
    assert Two(s, capacity, n, busy, Worker(PollLo, Parked, SawEmpty, false)) && s.hi.Queue() == [b];
    actions, s := Then(capacity, n, actions, s, Poll(1));
    assert Two(s, capacity, n, busy, Worker(Asleep, Parked, Parked, false)) && s.hi.Queue() == [b];
    assert Sleeps(s.workers[1]);
  }

  ghost predicate CanStarve(capacity: nat, n: nat) {
    exists actions: seq<Action>, lane: Lane ::
      var s := Exec(capacity, n, actions); s.Some? && !s.value.cancelled && Starves(s.value, lane)
  }

  /**
   A task can wait for a busy worker while another worker sleeps: exactly with two workers or more and
   rings that hold more than one task, which a ring of capacity zero does.
   */
  lemma StarvesIff(capacity: nat, n: nat)
    ensures CanStarve(capacity, n) <==> n >= 2 && capacity != 1
  {
    if CanStarve(capacity, n) {
      var actions: seq<Action>, lane: Lane :|
        var s := Exec(capacity, n, actions); s.Some? && !s.value.cancelled && Starves(s.value, lane);
      Reachable(capacity, n, actions);
      if n <= 1 {
        LoneIsNotStarved(Exec(capacity, n, actions).value, lane);
      } else if capacity == 1 {
        AlwaysAttended(n, actions);
        AttendedIsNotStarved(Exec(capacity, n, actions).value, lane);
      }
    }
    if n >= 2 && capacity != 1 {
      var t := Task(OwnedEvent("", false, ""), Human, 0);
      var actions, s := SecondSleeps(capacity, n, t, t);
    }
  }
}
