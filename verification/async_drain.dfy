/** What the async pool does over whole runs: it never stalls, and once pushes stop it drains. */
module AsyncDrain {
  import opened Tasks
  import opened Rings
  import opened Totals
  import opened AsyncPool

  lemma StartLane(s: Pool, l: Lane)
    requires s.At(l) == Channel(History(Ring([], 0), [], []), false, [])
    requires forall w :: 0 <= w < |s.workers| ==> s.workers[w].pc == Busy && s.workers[w].At(l) == Fresh
    ensures LaneOk(s, l)
  {
    assert forall w: nat :: !IsParked(s, w, l);
  }

  lemma StartInv(s: Pool)
    requires s.hi == s.lo == Channel(History(Ring([], 0), [], []), false, [])
    requires forall w :: 0 <= w < |s.workers| ==> s.workers[w] == Worker(Busy, Fresh, Fresh, false)
    ensures Inv(s)
  {
    StartLane(s, Hi);
    StartLane(s, Lo);
  }

  lemma PollLaneFrame(s: Pool, w: nat, lane: Lane, next: Control)
    requires w < |s.workers|
    ensures var r := PollLane(s, w, lane, next);
            && r.capacity == s.capacity && r.cancelled == s.cancelled && |r.workers| == |s.workers|
            && r.hi.past.pushed == s.hi.past.pushed && r.lo.past.pushed == s.lo.past.pushed
  {
    if s.workers[w].At(lane).Fresh? && s.At(lane).Queue() != [] {
      DropPast(Removed(s, w, lane), w, lane.Other());
    }
  }

  lemma ExitFrame(s: Pool, w: nat)
    requires w < |s.workers|
    ensures var r := Exit(s, w);
            && r.capacity == s.capacity && r.cancelled == s.cancelled && |r.workers| == |s.workers|
            && r.hi.past == s.hi.past && r.lo.past == s.lo.past
  {
    DropPast(s, w, Hi);
    DropPast(DropFuture(s, w, Hi), w, Lo);
  }

  lemma PollFrame(s: Pool, w: nat)
    requires w < |s.workers|
    ensures var r := AfterPoll(s, w);
            && r.capacity == s.capacity && r.cancelled == s.cancelled && |r.workers| == |s.workers|
            && r.hi.past.pushed == s.hi.past.pushed && r.lo.past.pushed == s.lo.past.pushed
  {
    var x := s.workers[w];
    match x.pc {
      case Busy => if s.cancelled { ExitFrame(s, w); }
      case Asleep => if s.cancelled { ExitFrame(s, w); }
      case PollHi => PollLaneFrame(s, w, Hi, PollLo);
      case PollLo => PollLaneFrame(s, w, Lo, Asleep);
      case Done =>
    }
  }

  lemma ApplyFrame(s: Pool, a: Action)
    requires Enabled(s, a)
    ensures Apply(s, a).capacity == s.capacity && |Apply(s, a).workers| == |s.workers|
  {
    match a
    case Push(lane, task) => NotifyPast(Queued(s, lane, task), lane);
    case Poll(w) => PollFrame(s, w);
    case Cancel =>
  }

  lemma {:induction false} Reachable(capacity: nat, n: nat, actions: seq<Action>)
    requires Exec(capacity, n, actions).Some?
    ensures var s := Exec(capacity, n, actions).value; Inv(s) && s.capacity == capacity && |s.workers| == n
  {
    if actions == [] {
      StartInv(Start(capacity, n));
    } else {
      var before, a := actions[..|actions| - 1], actions[|actions| - 1];
      Reachable(capacity, n, before);
      var s := Exec(capacity, n, before).value;
      Preserved(s, a);
      ApplyFrame(s, a);
    }
  }

  ghost predicate Quiescent(s: Pool) {
    forall w :: !Enabled(s, Poll(w))
  }

  /** A pool at rest was cancelled and left, or has nothing queued in either lane. */
  lemma RestMeansEmpty(s: Pool)
    requires Inv(s) && Quiescent(s) && |s.workers| >= 1
    ensures s.cancelled ==> forall w :: 0 <= w < |s.workers| ==> s.workers[w].pc == Done
    ensures !s.cancelled ==> s.hi.Queue() == [] && s.lo.Queue() == []
  {
    forall w: nat | w < |s.workers|
      ensures s.cancelled ==> s.workers[w].pc == Done
      ensures !s.cancelled ==> IsParked(s, w, Hi) && IsParked(s, w, Lo)
    {
      assert WorkerOk(s, s.workers[w]);
      assert !Enabled(s, Poll(w));
    }
    if !s.cancelled {
      assert IsParked(s, 0, Hi) && IsParked(s, 0, Lo);
      forall l: Lane ensures s.At(l).Queue() == [] {
        assert 0 in s.At(l).waiters;
        forall w: nat ensures !Looker(s, w, l) {
          assert w < |s.workers| ==> IsParked(s, w, Hi) && IsParked(s, w, Lo);
        }
      }
    }
  }

  /** No stall: while a lane holds a task and the pool is not cancelled, some worker is awake or being woken. */
  lemma NeverStalls(capacity: nat, n: nat, actions: seq<Action>, lane: Lane)
    requires Exec(capacity, n, actions).Some? && n >= 1
    requires var s := Exec(capacity, n, actions).value; !s.cancelled && s.At(lane).Queue() != []
    ensures exists w :: Enabled(Exec(capacity, n, actions).value, Poll(w))
  {
    Reachable(capacity, n, actions);
    var s := Exec(capacity, n, actions).value;
    if Quiescent(s) {
      RestMeansEmpty(s);
    }
  }

  // ---- Progress ----

  function Live(x: Worker): nat {
    if x.pc.Done? then 0 else 1
  }

  function Doubt(phase: Phase): nat {
    match phase case Fresh => 3 case SawEmpty => 2 case Parked => 1 case Notified => 1
  }

  /** How far a worker is from falling asleep. */
  function Stage(x: Worker): nat {
    match x.pc
    case Busy => 12
    case PollHi => 8 + Doubt(x.hi)
    case PollLo => 4 + Doubt(x.lo)
    case Asleep => 0
    case Done => 0
  }

  /** Every wake-up still to be noticed pays for one more round. */
  function Weight(x: Worker): nat {
    Stage(x) + (if x.woken then 12 else 0) + (if x.hi.Notified? then 3 else 0) + (if x.lo.Notified? then 3 else 0)
  }

  function Outer(s: Pool): nat {
    Total(Live, s.workers) + |s.hi.Queue()| + |s.lo.Queue()|
  }

  function Inner(s: Pool): nat {
    Total(Weight, s.workers) + (if s.hi.permit then 3 else 0) + (if s.lo.permit then 3 else 0)
  }

  ghost predicate Descends(s: Pool, r: Pool) {
    Outer(r) < Outer(s) || (Outer(r) == Outer(s) && Inner(r) < Inner(s))
  }

  lemma DropKeepsLive(s: Pool, w: nat, lane: Lane)
    requires w < |s.workers|
    ensures Total(Live, DropFuture(s, w, lane).workers) == Total(Live, s.workers)
  {
    DropPast(s, w, lane);
    TotalSame(Live, s.workers, DropFuture(s, w, lane).workers);
  }

  lemma TakeDescends(s: Pool, w: nat, lane: Lane)
    requires w < |s.workers| && s.At(lane).Queue() != [] && !s.workers[w].pc.Done?
    ensures Outer(Take(s, w, lane)) == Outer(s) - 1
  {
    var mid := Removed(s, w, lane);
    TotalUpdate(Live, s.workers, w, mid.workers[w]);
    DropKeepsLive(mid, w, lane.Other());
    DropPast(mid, w, lane.Other());
  }

  lemma ExitDescends(s: Pool, w: nat)
    requires w < |s.workers| && !s.workers[w].pc.Done?
    ensures Outer(Exit(s, w)) == Outer(s) - 1
  {
    var one := DropFuture(s, w, Hi);
    var two := DropFuture(one, w, Lo);
    DropKeepsLive(s, w, Hi);
    DropPast(s, w, Hi);
    DropKeepsLive(one, w, Lo);
    DropPast(one, w, Lo);
    TotalUpdate(Live, two.workers, w, two.workers[w].(pc := Done));
  }

  lemma MoveDescends(s: Pool, r: Pool, w: nat, y: Worker)
    requires w < |s.workers| && r.workers == s.workers[w := y]
    requires r.hi.past == s.hi.past && r.lo.past == s.lo.past
    requires Live(y) == Live(s.workers[w])
    requires Weight(y) + (if r.hi.permit then 3 else 0) + (if r.lo.permit then 3 else 0)
           < Weight(s.workers[w]) + (if s.hi.permit then 3 else 0) + (if s.lo.permit then 3 else 0)
    ensures Descends(s, r)
  {
    TotalUpdate(Live, s.workers, w, y);
    TotalUpdate(Weight, s.workers, w, y);
  }

  lemma PollLaneDescends(s: Pool, w: nat, lane: Lane)
    requires w < |s.workers| && s.workers[w].pc == (if lane.Hi? then PollHi else PollLo)
    ensures Descends(s, PollLane(s, w, lane, if lane.Hi? then PollLo else Asleep))
  {
    var x, next := s.workers[w], if lane.Hi? then PollLo else Asleep;
    var r := PollLane(s, w, lane, next);
    match x.At(lane)
    case Fresh =>
      if s.At(lane).Queue() != [] {
        TakeDescends(s, w, lane);
      } else {
        MoveDescends(s, r, w, x.Set(lane, SawEmpty));
      }
    case SawEmpty =>
      if s.At(lane).permit {
        MoveDescends(s, r, w, x.Set(lane, Fresh));
      } else {
        MoveDescends(s, r, w, x.Set(lane, Parked).(pc := next));
      }
    case Parked => MoveDescends(s, r, w, x.(pc := next));
    case Notified => MoveDescends(s, r, w, x.Set(lane, Fresh));
  }

  /** Every step of a worker takes a task, leaves the pool, or brings some worker nearer to sleep. */
  lemma PollDescends(s: Pool, w: nat)
    requires Inv(s) && Enabled(s, Poll(w))
    ensures Descends(s, AfterPoll(s, w))
  {
    var x, r := s.workers[w], AfterPoll(s, w);
    assert WorkerOk(s, x);
    match x.pc {
      case Busy =>
        if s.cancelled { ExitDescends(s, w); } else { MoveDescends(s, r, w, x.(pc := PollHi)); }
      case Asleep =>
        if s.cancelled { ExitDescends(s, w); } else { MoveDescends(s, r, w, x.(pc := PollHi, woken := false)); }
      case PollHi => PollLaneDescends(s, w, Hi);
      case PollLo => PollLaneDescends(s, w, Lo);
    }
  }

  // ---- Drains ----

  ghost predicate Drain1(s: Pool, r: Pool) {
    if Quiescent(s) then r == s else exists w :: Enabled(s, Poll(w)) && r == AfterPoll(s, w)
  }

  /** A schedule of the workers alone: while any of them can take a step, one of them does. */
  ghost predicate Drains(run: nat -> Pool) {
    forall i: nat :: Drain1(run(i), run(i + 1))
  }

  ghost predicate SamePushes(s: Pool, r: Pool) {
    && r.capacity == s.capacity && r.cancelled == s.cancelled && |r.workers| == |s.workers|
    && r.hi.past.pushed == s.hi.past.pushed && r.lo.past.pushed == s.lo.past.pushed
  }

  lemma DrainStep(s: Pool, r: Pool)
    requires Inv(s) && Drain1(s, r) && !Quiescent(s)
    ensures Inv(r) && SamePushes(s, r)
    ensures Descends(s, r)
  {
    var w :| Enabled(s, Poll(w)) && r == AfterPoll(s, w);
    PollKeeps(s, w);
    PollDescends(s, w);
    PollFrame(s, w);
  }

  lemma {:induction false} DrainReaches(run: nat -> Pool, i: nat) returns (j: nat)
    requires Drains(run) && Inv(run(i))
    ensures Quiescent(run(j)) && Inv(run(j))
    ensures SamePushes(run(i), run(j))
    decreases Outer(run(i)), Inner(run(i))
  {
    if Quiescent(run(i)) {
      j := i;
    } else {
      DrainStep(run(i), run(i + 1));
      j := DrainReaches(run, i + 1);
    }
  }

  /** Nothing is queued, and every push was delivered or counted as an overflow. */
  ghost predicate Accounted(h: History<Task>) {
    h.ring.queue == [] && |h.pushed| == |h.delivered| + h.ring.overflow
  }

  lemma RestAccounts(s: Pool, l: Lane)
    requires Inv(s) && s.capacity >= 1 && s.At(l).Queue() == []
    ensures Accounted(s.At(l).past)
  {
  }

  /**
   Once pushes stop, every schedule of the workers comes to rest, and then every task ever pushed to a
   lane has been delivered to a worker or counted as an overflow.
   */
  lemma DrainDelivers(capacity: nat, n: nat, actions: seq<Action>, run: nat -> Pool) returns (j: nat)
    requires capacity >= 1 && n >= 1 && Exec(capacity, n, actions) == Some(run(0)) && !run(0).cancelled
    requires Drains(run)
    ensures Quiescent(run(j)) && SamePushes(run(0), run(j))
    ensures Accounted(run(j).hi.past) && Accounted(run(j).lo.past)
  {
    Reachable(capacity, n, actions);
    j := DrainReaches(run, 0);
    RestMeansEmpty(run(j));
    RestAccounts(run(j), Hi);
    RestAccounts(run(j), Lo);
  }

  /** After cancellation every schedule of the workers ends with all of them gone. */
  lemma CancelEnds(capacity: nat, n: nat, actions: seq<Action>, run: nat -> Pool) returns (j: nat)
    requires n >= 1 && Exec(capacity, n, actions) == Some(run(0)) && run(0).cancelled
    requires Drains(run)
    ensures |run(j).workers| == n && forall w :: 0 <= w < n ==> run(j).workers[w].pc == Done
  {
    Reachable(capacity, n, actions);
    j := DrainReaches(run, 0);
    RestMeansEmpty(run(j));
  }

  /** A worker in the middle of a poll. */
  function Polling(x: Worker): nat {
    if x.pc.PollHi? || x.pc.PollLo? then 1 else 0
  }

  function Delivered(s: Pool): nat {
    |s.hi.past.delivered| + |s.lo.past.delivered|
  }

  lemma DropKeepsPolling(s: Pool, w: nat, lane: Lane)
    requires w < |s.workers|
    ensures Total(Polling, DropFuture(s, w, lane).workers) == Total(Polling, s.workers)
  {
    DropPast(s, w, lane);
    TotalSame(Polling, s.workers, DropFuture(s, w, lane).workers);
  }

  lemma TakePolling(s: Pool, w: nat, lane: Lane)
    requires w < |s.workers| && s.At(lane).Queue() != [] && Polling(s.workers[w]) == 1
    ensures Delivered(Take(s, w, lane)) == Delivered(s) + 1
    ensures Total(Polling, Take(s, w, lane).workers) == Total(Polling, s.workers) - 1
  {
    var mid := Removed(s, w, lane);
    TotalUpdate(Polling, s.workers, w, mid.workers[w]);
    DropKeepsPolling(mid, w, lane.Other());
    DropPast(mid, w, lane.Other());
  }

  lemma ExitPolling(s: Pool, w: nat)
    requires w < |s.workers|
    ensures Delivered(Exit(s, w)) == Delivered(s)
    ensures Total(Polling, Exit(s, w).workers) == Total(Polling, s.workers) - Polling(s.workers[w])
  {
    var one := DropFuture(s, w, Hi);
    var two := DropFuture(one, w, Lo);
    DropKeepsPolling(s, w, Hi);
    DropPast(s, w, Hi);
    DropKeepsPolling(one, w, Lo);
    DropPast(one, w, Lo);
    TotalUpdate(Polling, two.workers, w, two.workers[w].(pc := Done));
  }

  lemma PollBudget(s: Pool, w: nat)
    requires Inv(s) && s.cancelled && Enabled(s, Poll(w))
    ensures var r := AfterPoll(s, w);
            Delivered(r) + Total(Polling, r.workers) <= Delivered(s) + Total(Polling, s.workers)
  {
    var x, r := s.workers[w], AfterPoll(s, w);
    assert WorkerOk(s, x);
    if x.pc.Busy? || x.pc.Asleep? {
      ExitPolling(s, w);
    } else {
      var lane, next := if x.pc.PollHi? then Hi else Lo, if x.pc.PollHi? then PollLo else Asleep;
      if x.At(lane).Fresh? && s.At(lane).Queue() != [] {
        TakePolling(s, w, lane);
      } else {
        TotalUpdate(Polling, s.workers, w, r.workers[w]);
        assert r.workers == s.workers[w := r.workers[w]];
      }
    }
  }

  lemma StepBudget(s: Pool, a: Action)
    requires Inv(s) && s.cancelled && Enabled(s, a)
    ensures var r := Apply(s, a);
            r.cancelled && Delivered(r) + Total(Polling, r.workers) <= Delivered(s) + Total(Polling, s.workers)
  {
    match a
    case Push(lane, task) =>
      var mid := Queued(s, lane, task);
      NotifyPast(mid, lane);
      TotalSame(Polling, s.workers, NotifyOne(mid, lane).workers);
    case Poll(w) =>
      PollFrame(s, w);
      PollBudget(s, w);
    case Cancel => TotalSame(Polling, s.workers, Wake(s.workers));
  }

  lemma LastAction(capacity: nat, n: nat, actions: seq<Action>, more: seq<Action>) returns (s: Pool)
    requires more != [] && Exec(capacity, n, actions + more).Some?
    ensures Exec(capacity, n, actions + more[..|more| - 1]) == Some(s) && Inv(s) && |s.workers| == n
    ensures Enabled(s, more[|more| - 1])
    ensures Exec(capacity, n, actions + more).value == Apply(s, more[|more| - 1])
    ensures (actions + more)[..|actions + more| - 1] == actions + more[..|more| - 1]
  {
    assert (actions + more)[..|actions + more| - 1] == actions + more[..|more| - 1];
    Reachable(capacity, n, actions + more[..|more| - 1]);
    s := Exec(capacity, n, actions + more[..|more| - 1]).value;
  }

  /**
   However a run goes on after cancellation, with pushes or without, only the workers caught in the middle
   of a poll still take tasks, and together at most one each.
   */
  lemma {:induction false} CancelBudget(
    capacity: nat, n: nat, actions: seq<Action>, more: seq<Action>, s: Pool, r: Pool)
    requires Exec(capacity, n, actions) == Some(s) && s.cancelled
    requires Exec(capacity, n, actions + more) == Some(r)
    ensures r.cancelled && Delivered(r) + Total(Polling, r.workers) <= Delivered(s) + Total(Polling, s.workers)
  {
    if more == [] {
      assert actions + more == actions;
    } else {
      var before := LastAction(capacity, n, actions, more);
      CancelBudget(capacity, n, actions, more[..|more| - 1], s, before);
      StepBudget(before, more[|more| - 1]);
    }
  }

  /** What an action delivers, if it is a poll of `w`. */
  function Gain(s: Pool, a: Action, w: nat): int
    requires Enabled(s, a)
  {
    if a == Poll(w) then Delivered(Apply(s, a)) - Delivered(s) else 0
  }

  /** The tasks delivered in the polls of one worker. */
  ghost function TakenBy(capacity: nat, n: nat, actions: seq<Action>, w: nat): int
    requires Exec(capacity, n, actions).Some?
  {
    if actions == [] then 0
    else
      var before := actions[..|actions| - 1];
      TakenBy(capacity, n, before, w) + Gain(Exec(capacity, n, before).value, actions[|actions| - 1], w)
  }

  /** A poll in a cancelled pool ends the poll of its worker if it delivers, and touches no other's. */
  lemma PollKeepsPlaces(s: Pool, v: nat, w: nat)
    requires Inv(s) && s.cancelled && Enabled(s, Poll(v)) && w < |s.workers| == |AfterPoll(s, v).workers|
    ensures var x, y := s.workers[w], AfterPoll(s, v).workers[w];
            if v != w then y.pc == x.pc
            else Polling(y) + Delivered(AfterPoll(s, v)) - Delivered(s) <= Polling(x)
  {
    var x := s.workers[v];
    if x.pc.Busy? || x.pc.Asleep? {
      var mid := DropFuture(s, v, Hi);
      DropPast(s, v, Hi);
      DropPast(mid, v, Lo);
    } else {
      var lane := if x.pc.PollHi? then Hi else Lo;
      if x.At(lane).Fresh? && s.At(lane).Queue() != [] {
        DropPast(Removed(s, v, lane), v, lane.Other());
      }
    }
  }

  lemma WorkerStepBudget(s: Pool, a: Action, w: nat)
    requires Inv(s) && s.cancelled && Enabled(s, a) && w < |s.workers| == |Apply(s, a).workers|
    ensures Polling(Apply(s, a).workers[w]) + Gain(s, a, w) <= Polling(s.workers[w])
  {
    match a
    case Push(lane, task) =>
    case Poll(v) => PollKeepsPlaces(s, v, w);
    case Cancel =>
  }

  /** After cancellation no worker takes more than one further task, and none that was not polling. */
  lemma {:induction false} WorkerBudget(
    capacity: nat, n: nat, actions: seq<Action>, more: seq<Action>, s: Pool, r: Pool, w: nat)
    requires Exec(capacity, n, actions) == Some(s) && s.cancelled && w < |s.workers| == |r.workers|
    requires Exec(capacity, n, actions + more) == Some(r)
    ensures TakenBy(capacity, n, actions + more, w) + Polling(r.workers[w])
         <= TakenBy(capacity, n, actions, w) + Polling(s.workers[w])
  {
    if more == [] {
      assert actions + more == actions;
    } else {
      var before := LastAction(capacity, n, actions, more);
      Reachable(capacity, n, actions + more);
      CancelBudget(capacity, n, actions, more[..|more| - 1], s, before);
      WorkerBudget(capacity, n, actions, more[..|more| - 1], s, before, w);
      WorkerStepBudget(before, more[|more| - 1], w);
    }
  }
}
