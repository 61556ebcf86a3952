/**
 The worker pool of the async pipeline: any number of workers, each looping over a biased select of
 two ring buffers, and any number of producers. One step is one action that nothing can interleave
 with: a push under the queue lock, a look into a queue, a poll of a `Notified` future.

 The wake-up primitive behaves as its documentation says: it stores at most one permit; notifying
 wakes the longest waiting future, or else stores the permit; a future that was notified but is
 dropped before it noticed passes the notification on. A task is polled again when it was woken.
 */
module AsyncPool {
  import opened Tasks
  import opened Rings

  datatype Lane = Hi | Lo {
    function Other(): Lane {
      if Hi? then Lo else Hi
    }
  }

  /** A pop in progress: before its look at the queue, after a vain look, waiting, or told to look again. */
  datatype Phase = Fresh | SawEmpty | Parked | Notified

  datatype Control = PollHi | PollLo | Asleep | Busy | Done

  datatype Worker = Worker(pc: Control, hi: Phase, lo: Phase, woken: bool) {
    function At(lane: Lane): Phase {
      if lane.Hi? then hi else lo
    }

    function Set(lane: Lane, phase: Phase): Worker {
      if lane.Hi? then this.(hi := phase) else this.(lo := phase)
    }
  }

  /** A ring buffer with its history, its stored permit and its waiters, longest waiting first. */
  datatype Channel = Channel(past: History<Task>, permit: bool, waiters: seq<nat>) {
    function Queue(): seq<Task> {
      past.ring.queue
    }
  }

  datatype Pool = Pool(capacity: nat, hi: Channel, lo: Channel, workers: seq<Worker>, cancelled: bool) {
    function At(lane: Lane): Channel {
      if lane.Hi? then hi else lo
    }

    function Set(lane: Lane, ch: Channel): Pool {
      if lane.Hi? then this.(hi := ch) else this.(lo := ch)
    }

    function SetWorker(w: nat, x: Worker): Pool
      requires w < |workers|
    {
      this.(workers := workers[w := x])
    }
  }

  // ---- The wake-up primitive ----

  function NotifyOne(s: Pool, lane: Lane): (r: Pool)
    ensures |r.workers| == |s.workers|
  {
    var ch := s.At(lane);
    if ch.waiters == [] then s.Set(lane, ch.(permit := true))
    else
      var w, rest := ch.waiters[0], s.Set(lane, ch.(waiters := ch.waiters[1..]));
      if w < |s.workers| then rest.SetWorker(w, s.workers[w].Set(lane, Notified).(woken := true)) else rest
  }

  function Without(waiters: seq<nat>, w: nat): seq<nat> {
    if waiters == [] then []
    else if waiters[0] == w then waiters[1..]
    else [waiters[0]] + Without(waiters[1..], w)
  }

  /** Dropping the pop future of a worker that no longer needs it. */
  function DropFuture(s: Pool, w: nat, lane: Lane): (r: Pool)
    requires w < |s.workers|
    ensures |r.workers| == |s.workers|
  {
    var ch := s.At(lane);
    var idle := s.SetWorker(w, s.workers[w].Set(lane, Fresh));
    match s.workers[w].At(lane)
    case Parked => idle.Set(lane, ch.(waiters := Without(ch.waiters, w)))
    case Notified => NotifyOne(idle, lane)
    case _ => idle
  }

  // ---- Steps ----

  datatype Action = Push(lane: Lane, task: Task) | Poll(w: nat) | Cancel

  function Wake(workers: seq<Worker>): (r: seq<Worker>)
    ensures |r| == |workers| && forall i :: 0 <= i < |r| ==> r[i] == workers[i].(woken := true)
  {
    seq(|workers|, i requires 0 <= i < |workers| => workers[i].(woken := true))
  }

  function Queued(s: Pool, lane: Lane, task: Task): Pool {
    s.Set(lane, s.At(lane).(past := Next(s.capacity, s.At(lane).past, Op.Push(task))))
  }

  function AfterPush(s: Pool, lane: Lane, task: Task): Pool {
    NotifyOne(Queued(s, lane, task), lane)
  }

  /** The front leaves the lane for the hands of the worker. */
  function Removed(s: Pool, w: nat, lane: Lane): Pool
    requires w < |s.workers|
  {
    var ch := s.At(lane);
    s.Set(lane, ch.(past := Next(s.capacity, ch.past, Pop))).SetWorker(w, s.workers[w].Set(lane, Fresh).(pc := Busy))
  }

  /** The worker takes the front of the lane, and its other pop future is dropped. */
  function Take(s: Pool, w: nat, lane: Lane): Pool
    requires w < |s.workers|
  {
    DropFuture(Removed(s, w, lane), w, lane.Other())
  }

  function Exit(s: Pool, w: nat): Pool
    requires w < |s.workers|
  {
    var r := DropFuture(DropFuture(s, w, Hi), w, Lo);
    r.SetWorker(w, r.workers[w].(pc := Done))
  }

  /** The pop future finds no permit and joins the waiters. */
  function Join(s: Pool, w: nat, lane: Lane, next: Control): Pool
    requires w < |s.workers|
  {
    var ch, x := s.At(lane), s.workers[w];
    s.Set(lane, ch.(waiters := ch.waiters + [w])).SetWorker(w, x.Set(lane, Parked).(pc := next))
  }

  /** One action of the pop future for `lane`; where it would return Pending, the worker goes on to `next`. */
  function PollLane(s: Pool, w: nat, lane: Lane, next: Control): Pool
    requires w < |s.workers|
  {
    var ch, x := s.At(lane), s.workers[w];
    match x.At(lane)
    case Fresh =>
      if ch.Queue() != [] then Take(s, w, lane) else s.SetWorker(w, x.Set(lane, SawEmpty))
    case SawEmpty =>
      if ch.permit then s.Set(lane, ch.(permit := false)).SetWorker(w, x.Set(lane, Fresh))
      else Join(s, w, lane, next)
    case Parked => s.SetWorker(w, x.(pc := next))
    case Notified => s.SetWorker(w, x.Set(lane, Fresh))
  }

  function AfterPoll(s: Pool, w: nat): Pool
    requires w < |s.workers|
  {
    var x := s.workers[w];
    match x.pc
    case Busy => if s.cancelled then Exit(s, w) else s.SetWorker(w, x.(pc := PollHi))
    case Asleep => if s.cancelled then Exit(s, w) else s.SetWorker(w, x.(pc := PollHi, woken := false))
    case PollHi => PollLane(s, w, Hi, PollLo)
    case PollLo => PollLane(s, w, Lo, Asleep)
    case Done => s
  }

  predicate Enabled(s: Pool, a: Action) {
    match a
    case Poll(w) => w < |s.workers| && !s.workers[w].pc.Done? && (s.workers[w].pc.Asleep? ==> s.workers[w].woken)
    case _ => true
  }

  function Apply(s: Pool, a: Action): Pool
    requires Enabled(s, a)
  {
    match a
    case Push(lane, task) => AfterPush(s, lane, task)
    case Poll(w) => AfterPoll(s, w)
    case Cancel => s.(cancelled := true, workers := Wake(s.workers))
  }

  function Start(capacity: nat, n: nat): Pool {
    var ch := Channel(History(Ring([], 0), [], []), false, []);
    Pool(capacity, ch, ch, seq(n, _ => Worker(Busy, Fresh, Fresh, false)), false)
  }

  /** The pool after the actions, if each of them is enabled when its turn comes. */
  function Exec(capacity: nat, n: nat, actions: seq<Action>): Option<Pool> {
    if actions == [] then Some(Start(capacity, n))
    else
      match Exec(capacity, n, actions[..|actions| - 1])
      case None => None
      case Some(s) => if Enabled(s, actions[|actions| - 1]) then Some(Apply(s, actions[|actions| - 1])) else None
  }

  // ---- What every step keeps ----

  ghost predicate IsParked(s: Pool, w: nat, lane: Lane) {
    w < |s.workers| && s.workers[w].At(lane) == Parked
  }

  /** The waiters are the parked workers, each once, and there are none while a permit is stored. */
  ghost predicate WaitersOk(s: Pool, lane: Lane) {
    var ch := s.At(lane);
    && (forall w: nat :: w in ch.waiters <==> IsParked(s, w, lane))
    && (forall i, j :: 0 <= i < j < |ch.waiters| ==> ch.waiters[i] != ch.waiters[j])
    && (ch.permit ==> ch.waiters == [])
  }

  ghost predicate WorkerOk(s: Pool, x: Worker) {
    match x.pc
    case Busy => x.hi == Fresh && x.lo == Fresh
    case Done => x.hi == Fresh && x.lo == Fresh && s.cancelled
    case PollHi => x.lo != SawEmpty && (s.cancelled ==> x.woken)
    case PollLo => (x.hi == Parked || x.hi == Notified) && (x.hi == Notified || s.cancelled ==> x.woken)
    case Asleep => && (x.hi == Parked || x.hi == Notified) && (x.lo == Parked || x.lo == Notified)
                   && (x.hi == Notified || x.lo == Notified || s.cancelled ==> x.woken)
  }

  ghost predicate WorkersOk(s: Pool) {
    forall w :: 0 <= w < |s.workers| ==> WorkerOk(s, s.workers[w])
  }

  /** The worker looks into the lane's queue before it next goes to sleep, unless it finds other work first. */
  ghost predicate WillLook(x: Worker, lane: Lane) {
    !x.pc.Done? && (x.At(lane) == Fresh || x.At(lane) == Notified)
  }

  ghost predicate Looker(s: Pool, w: nat, lane: Lane) {
    w < |s.workers| && WillLook(s.workers[w], lane)
  }

  ghost predicate Covered(s: Pool, lane: Lane) {
    s.At(lane).permit || exists w :: Looker(s, w, lane)
  }

  /** Before cancellation, a lane that holds a task has a permit or a worker that will look. */
  ghost predicate Served(s: Pool, lane: Lane) {
    !s.cancelled && s.At(lane).Queue() != [] ==> Covered(s, lane)
  }

  ghost predicate PastOk(s: Pool, lane: Lane) {
    InOrder(s.At(lane).past) && (s.capacity >= 1 ==> Lawful(s.capacity, s.At(lane).past))
  }

  ghost predicate LaneOk(s: Pool, lane: Lane) {
    WaitersOk(s, lane) && Served(s, lane) && PastOk(s, lane)
  }

  ghost predicate Inv(s: Pool) {
    WorkersOk(s) && LaneOk(s, Hi) && LaneOk(s, Lo)
  }

  // ---- One step at a time ----

  ghost predicate AllWaitersOk(s: Pool) {
    WaitersOk(s, Hi) && WaitersOk(s, Lo)
  }

  ghost predicate WorkersOkBut(s: Pool, but: nat) {
    forall w :: 0 <= w < |s.workers| && w != but ==> WorkerOk(s, s.workers[w])
  }

  lemma NotifyKeepsWaiters(s: Pool, lane: Lane)
    requires AllWaitersOk(s)
    ensures AllWaitersOk(NotifyOne(s, lane))
  {
    var r, ch := NotifyOne(s, lane), s.At(lane);
    if ch.waiters != [] {
      assert ch.waiters[0] in ch.waiters && IsParked(s, ch.waiters[0], lane);
      forall w: nat ensures w in r.At(lane).waiters <==> IsParked(r, w, lane) {
        assert w in ch.waiters <==> IsParked(s, w, lane);
      }
      forall w: nat ensures w in r.At(lane.Other()).waiters <==> IsParked(r, w, lane.Other()) {
        assert w in s.At(lane.Other()).waiters <==> IsParked(s, w, lane.Other());
      }
    } else {
      forall w: nat, l: Lane ensures IsParked(r, w, l) == IsParked(s, w, l) {
      }
    }
  }

  lemma NotifyKeepsWorkers(s: Pool, lane: Lane, but: nat)
    requires AllWaitersOk(s) && WorkersOkBut(s, but) && !IsParked(s, but, lane)
    ensures WorkersOkBut(NotifyOne(s, lane), but)
    ensures but < |s.workers| ==> NotifyOne(s, lane).workers[but] == s.workers[but]
  {
    var ch := s.At(lane);
    if ch.waiters != [] {
      assert ch.waiters[0] in ch.waiters && IsParked(s, ch.waiters[0], lane);
    }
  }

  lemma {:induction false} WithoutOk(waiters: seq<nat>, w: nat)
    requires forall i, j :: 0 <= i < j < |waiters| ==> waiters[i] != waiters[j]
    ensures var r := Without(waiters, w);
            && (forall v :: v in r <==> v in waiters && v != w)
            && (forall i, j :: 0 <= i < j < |r| ==> r[i] != r[j])
  {
    if waiters != [] && waiters[0] != w {
      WithoutOk(waiters[1..], w);
      assert forall v :: v in waiters <==> v == waiters[0] || v in waiters[1..];
      var rest := Without(waiters[1..], w);
      assert waiters[0] !in waiters[1..] && waiters[0] !in rest;
      assert forall i :: 0 <= i < |rest| ==> rest[i] in rest;
    }
  }

  lemma DropKeeps(s: Pool, w: nat, lane: Lane)
    requires w < |s.workers| && AllWaitersOk(s) && WorkersOkBut(s, w)
    ensures AllWaitersOk(DropFuture(s, w, lane)) && WorkersOkBut(DropFuture(s, w, lane), w)
    ensures DropFuture(s, w, lane).workers[w] == s.workers[w].Set(lane, Fresh)
  {
    var ch := s.At(lane);
    var idle := s.SetWorker(w, s.workers[w].Set(lane, Fresh));
    var r := DropFuture(s, w, lane);
    assert forall v: nat, l: Lane :: v != w || l != lane ==> IsParked(idle, v, l) == IsParked(s, v, l);
    match s.workers[w].At(lane)
    case Parked =>
      WithoutOk(ch.waiters, w);
      forall v: nat ensures v in r.At(lane).waiters <==> IsParked(r, v, lane) {
        assert v in ch.waiters <==> IsParked(s, v, lane);
      }
      forall v: nat ensures v in r.At(lane.Other()).waiters <==> IsParked(r, v, lane.Other()) {
        assert v in s.At(lane.Other()).waiters <==> IsParked(s, v, lane.Other());
      }
    case Notified =>
      assert AllWaitersOk(idle);
      NotifyKeepsWaiters(idle, lane);
      NotifyKeepsWorkers(idle, lane, w);
    case _ =>
      assert AllWaitersOk(idle);
  }

  lemma RemovedWaiters(s: Pool, w: nat, lane: Lane)
    requires AllWaitersOk(s) && w < |s.workers| && s.workers[w].At(lane) == Fresh
    ensures AllWaitersOk(Removed(s, w, lane))
  {
    assert forall v: nat, l: Lane :: IsParked(Removed(s, w, lane), v, l) == IsParked(s, v, l);
  }

  /** Dropping a future touches no queue and no flag, and no worker's place in its loop. */
  lemma DropPast(s: Pool, w: nat, lane: Lane)
    requires w < |s.workers|
    ensures var r := DropFuture(s, w, lane);
            && r.hi.past == s.hi.past && r.lo.past == s.lo.past
            && r.capacity == s.capacity && r.cancelled == s.cancelled
            && forall v :: 0 <= v < |s.workers| ==> r.workers[v].pc == s.workers[v].pc
  {
  }

  lemma PastStep(capacity: nat, h: History<Task>, op: Op<Task>)
    requires InOrder(h) && (capacity >= 1 ==> Lawful(capacity, h))
    ensures InOrder(Next(capacity, h, op)) && (capacity >= 1 ==> Lawful(capacity, Next(capacity, h, op)))
  {
    match op {
      case Push(item) => PushKeepsOrder(capacity, h, item);
      case Pop => PopKeepsOrder(capacity, h);
    }
    if capacity >= 1 {
      NextIsLawful(capacity, h, op);
    }
  }

  lemma TakeKeeps(s: Pool, w: nat, lane: Lane)
    requires Inv(s) && w < |s.workers| && s.workers[w].At(lane) == Fresh && !s.workers[w].pc.Done?
    requires lane.Hi? || s.workers[w].At(lane.Other()) != Fresh
    ensures Inv(Take(s, w, lane))
  {
    var mid := Removed(s, w, lane);
    PastStep(s.capacity, s.At(lane).past, Pop);
    RemovedWaiters(s, w, lane);
    DropKeeps(mid, w, lane.Other());
    var r := Take(s, w, lane);
    assert Looker(r, w, Hi) && Looker(r, w, Lo);
    DropPast(mid, w, lane.Other());
  }

  lemma ExitKeeps(s: Pool, w: nat)
    requires Inv(s) && w < |s.workers| && s.cancelled
    ensures Inv(Exit(s, w))
  {
    DropKeeps(s, w, Hi);
    DropPast(s, w, Hi);
    var mid := DropFuture(s, w, Hi);
    DropKeeps(mid, w, Lo);
    DropPast(mid, w, Lo);
    var both, r := DropFuture(mid, w, Lo), Exit(s, w);
    assert AllWaitersOk(r) by {
      assert forall v: nat, l: Lane :: IsParked(r, v, l) == IsParked(both, v, l);
    }
  }

  /** A step that changes one worker only, which neither parks nor is unparked. */
  lemma MoveKeeps(s: Pool, w: nat, y: Worker)
    requires Inv(s) && w < |s.workers| && WorkerOk(s, y)
    requires forall l: Lane :: s.workers[w].At(l) == Parked <==> y.At(l) == Parked
    requires forall l: Lane :: s.At(l).Queue() != [] && WillLook(s.workers[w], l) ==> WillLook(y, l) || s.cancelled
    ensures Inv(s.SetWorker(w, y))
  {
    var r := s.SetWorker(w, y);
    assert AllWaitersOk(r) by {
      assert forall v: nat, l: Lane :: IsParked(r, v, l) == IsParked(s, v, l);
    }
    forall l: Lane | Served(s, l) ensures Served(r, l) {
      if !s.cancelled && s.At(l).Queue() != [] && !s.At(l).permit {
        var v :| Looker(s, v, l);
        assert Looker(r, v, l);
      }
    }
  }

  lemma OtherStillServed(s: Pool, r: Pool, w: nat, l: Lane)
    requires Served(s, l) && r.cancelled == s.cancelled && r.At(l) == s.At(l)
    requires |r.workers| == |s.workers|
    requires forall v :: 0 <= v < |s.workers| && v != w ==> r.workers[v] == s.workers[v]
    requires w < |s.workers| && r.workers[w].At(l) == s.workers[w].At(l)
    requires !s.workers[w].pc.Done? ==> !r.workers[w].pc.Done?
    ensures Served(r, l)
  {
    if !s.cancelled && s.At(l).Queue() != [] && !s.At(l).permit {
      var v :| Looker(s, v, l);
      assert Looker(r, v, l);
    }
  }

  /** The pop future consumes the stored permit and looks again. */
  lemma PermitKeeps(s: Pool, w: nat, lane: Lane)
    requires Inv(s) && w < |s.workers| && s.workers[w].At(lane) == SawEmpty && s.At(lane).permit
    requires !s.workers[w].pc.Done? && WorkerOk(s, s.workers[w].Set(lane, Fresh))
    ensures Inv(s.Set(lane, s.At(lane).(permit := false)).SetWorker(w, s.workers[w].Set(lane, Fresh)))
  {
    var y := s.workers[w].Set(lane, Fresh);
    var r := s.Set(lane, s.At(lane).(permit := false)).SetWorker(w, y);
    assert AllWaitersOk(r) by {
      assert forall v: nat, l: Lane :: IsParked(r, v, l) == IsParked(s, v, l);
    }
    assert Looker(r, w, lane);
    OtherStillServed(s, r, w, lane.Other());
  }

  lemma JoinKeepsWaiters(s: Pool, w: nat, lane: Lane, next: Control)
    requires w < |s.workers| && WaitersOk(s, lane) && s.workers[w].At(lane) == SawEmpty && !s.At(lane).permit
    ensures WaitersOk(Join(s, w, lane, next), lane)
  {
    var ch, r := s.At(lane), Join(s, w, lane, next);
    assert w !in ch.waiters by {
      assert !IsParked(s, w, lane);
    }
    forall v: nat ensures v in r.At(lane).waiters <==> IsParked(r, v, lane) {
      assert v in ch.waiters <==> IsParked(s, v, lane);
    }
  }

  lemma JoinKeepsOthers(s: Pool, w: nat, lane: Lane, next: Control)
    requires w < |s.workers| && WaitersOk(s, lane.Other())
    ensures WaitersOk(Join(s, w, lane, next), lane.Other())
  {
  }

  lemma JoinKeepsServed(s: Pool, w: nat, lane: Lane, next: Control)
    requires w < |s.workers| && s.workers[w].At(lane) == SawEmpty && !s.At(lane).permit && Served(s, lane)
    ensures Served(Join(s, w, lane, next), lane)
  {
    if !s.cancelled && s.At(lane).Queue() != [] {
      var v :| Looker(s, v, lane);
      assert Looker(Join(s, w, lane, next), v, lane);
    }
  }

  lemma ParkKeeps(s: Pool, w: nat, lane: Lane, next: Control)
    requires Inv(s) && w < |s.workers| && s.workers[w].At(lane) == SawEmpty && !s.At(lane).permit
    requires !next.Done? && WorkerOk(s, s.workers[w].Set(lane, Parked).(pc := next))
    ensures Inv(Join(s, w, lane, next))
  {
    JoinKeepsWaiters(s, w, lane, next);
    JoinKeepsOthers(s, w, lane, next);
    JoinKeepsServed(s, w, lane, next);
    OtherStillServed(s, Join(s, w, lane, next), w, lane.Other());
  }

  lemma PollLaneKeeps(s: Pool, w: nat, lane: Lane)
    requires Inv(s) && w < |s.workers| && s.workers[w].pc == (if lane.Hi? then PollHi else PollLo)
    ensures Inv(PollLane(s, w, lane, if lane.Hi? then PollLo else Asleep))
  {
    var x, next := s.workers[w], if lane.Hi? then PollLo else Asleep;
    assert WorkerOk(s, x);
    match x.At(lane)
    case Fresh =>
      if s.At(lane).Queue() != [] {
        TakeKeeps(s, w, lane);
      } else {
        MoveKeeps(s, w, x.Set(lane, SawEmpty));
      }
    case SawEmpty =>
      if s.At(lane).permit {
        PermitKeeps(s, w, lane);
      } else {
        ParkKeeps(s, w, lane, next);
      }
    case Parked => MoveKeeps(s, w, x.(pc := next));
    case Notified => MoveKeeps(s, w, x.Set(lane, Fresh));
  }

  lemma PollKeeps(s: Pool, w: nat)
    requires Inv(s) && Enabled(s, Poll(w))
    ensures Inv(AfterPoll(s, w))
  {
    var x := s.workers[w];
    assert WorkerOk(s, x);
    match x.pc
    case PollHi => PollLaneKeeps(s, w, Hi);
    case PollLo => PollLaneKeeps(s, w, Lo);
    case Busy =>
      if s.cancelled { ExitKeeps(s, w); } else { MoveKeeps(s, w, x.(pc := PollHi)); }
    case Asleep =>
      if s.cancelled { ExitKeeps(s, w); } else { MoveKeeps(s, w, x.(pc := PollHi, woken := false)); }
  }

  lemma QueuedKeeps(s: Pool, lane: Lane, task: Task)
    requires Inv(s)
    ensures var r := Queued(s, lane, task);
            && AllWaitersOk(r) && WorkersOk(r) && PastOk(r, lane)
            && r.At(lane.Other()) == s.At(lane.Other()) && r.workers == s.workers
            && r.cancelled == s.cancelled && r.capacity == s.capacity
  {
    PastStep(s.capacity, s.At(lane).past, Op.Push(task));
    var r := Queued(s, lane, task);
    assert forall v: nat, l: Lane :: IsParked(r, v, l) == IsParked(s, v, l);
  }

  lemma NotifyPast(s: Pool, lane: Lane)
    ensures var r := NotifyOne(s, lane);
            && (forall l: Lane :: r.At(l).past == s.At(l).past)
            && r.capacity == s.capacity && r.cancelled == s.cancelled
  {
  }

  lemma NotifyKeepsCover(s: Pool, lane: Lane)
    requires Covered(s, lane.Other())
    ensures Covered(NotifyOne(s, lane), lane.Other())
  {
    var r := NotifyOne(s, lane);
    if !s.At(lane.Other()).permit {
      var v :| Looker(s, v, lane.Other());
      assert Looker(r, v, lane.Other());
    }
  }

  lemma NotifyCovers(s: Pool, lane: Lane)
    requires AllWaitersOk(s) && WorkersOk(s)
    ensures Covered(NotifyOne(s, lane), lane)
  {
    var ch, r := s.At(lane), NotifyOne(s, lane);
    if ch.waiters != [] {
      assert ch.waiters[0] in ch.waiters && IsParked(s, ch.waiters[0], lane);
      assert WorkerOk(s, s.workers[ch.waiters[0]]);
      assert Looker(r, ch.waiters[0], lane);
    }
  }

  lemma PushKeeps(s: Pool, lane: Lane, task: Task)
    requires Inv(s)
    ensures Inv(AfterPush(s, lane, task))
  {
    var mid, r, other := Queued(s, lane, task), AfterPush(s, lane, task), lane.Other();
    QueuedKeeps(s, lane, task);
    NotifyPast(mid, lane);
    NotifyKeepsWaiters(mid, lane);
    NotifyKeepsWorkers(mid, lane, |s.workers|);
    NotifyCovers(mid, lane);
    assert Served(r, other) by {
      if Covered(mid, other) {
        NotifyKeepsCover(mid, lane);
      } else {
        assert forall v :: Looker(s, v, other) ==> Looker(mid, v, other);
      }
    }
    assert LaneOk(r, lane) && LaneOk(r, other);
  }

  lemma CancelKeeps(s: Pool)
    requires Inv(s)
    ensures Inv(Apply(s, Cancel))
  {
  }

  lemma Preserved(s: Pool, a: Action)
    requires Inv(s) && Enabled(s, a)
    ensures Inv(Apply(s, a))
  {
    match a
    case Push(lane, task) => PushKeeps(s, lane, task);
    case Poll(w) => PollKeeps(s, w);
    case Cancel => CancelKeeps(s);
  }
}
