/**
 How far the Human lane goes before the Bot lane in the async pool. A pop future that waits does not
 look into its queue again when it is polled, so what a worker knows of the Human lane when it turns
 to the Bot lane is what it saw at its last look.
 */
module AsyncBias {
  import opened Tasks
  import opened Rings
  import opened AsyncPool
  import opened AsyncDrain

  // ---- What one step does to a lane and to a worker ----

  /** The history of a lane takes at most one step. */
  ghost predicate PastMoves(capacity: nat, h: History<Task>, h': History<Task>) {
    || h' == h
    || h' == Next(capacity, h, Pop)
    || exists task :: h' == Next(capacity, h, Op.Push(task))
  }

  lemma TakeFront(s: Pool, w: nat, lane: Lane)
    requires w < |s.workers|
    ensures var r := Take(s, w, lane);
            && r.At(lane).past == Next(s.capacity, s.At(lane).past, Pop)
            && r.At(lane.Other()).past == s.At(lane.Other()).past
  {
    DropPast(Removed(s, w, lane), w, lane.Other());
  }

  lemma PollLaneMovesPast(s: Pool, w: nat, lane: Lane, next: Control, l: Lane)
    requires w < |s.workers|
    ensures PastMoves(s.capacity, s.At(l).past, PollLane(s, w, lane, next).At(l).past)
  {
    if s.workers[w].At(lane).Fresh? && s.At(lane).Queue() != [] {
      TakeFront(s, w, lane);
    }
  }

  lemma PollMovesPast(s: Pool, w: nat, l: Lane)
    requires w < |s.workers|
    ensures PastMoves(s.capacity, s.At(l).past, AfterPoll(s, w).At(l).past)
  {
    match s.workers[w].pc {
      case Busy => if s.cancelled { ExitFrame(s, w); }
      case Asleep => if s.cancelled { ExitFrame(s, w); }
      case PollHi => PollLaneMovesPast(s, w, Hi, PollLo, l);
      case PollLo => PollLaneMovesPast(s, w, Lo, Asleep, l);
      case Done =>
    }
  }

  lemma StepMovesPast(s: Pool, a: Action, l: Lane)
    requires Enabled(s, a)
    ensures PastMoves(s.capacity, s.At(l).past, Apply(s, a).At(l).past)
  {
    match a
    case Push(lane, task) => NotifyPast(Queued(s, lane, task), lane);
    case Poll(w) => PollMovesPast(s, w, l);
    case Cancel =>
  }

  /** Notifying a lane wakes a parked worker, or touches no worker at all. */
  lemma NotifyWakes(s: Pool, lane: Lane, v: nat)
    requires WaitersOk(s, lane) && v < |s.workers|
    ensures var x, y := s.workers[v], NotifyOne(s, lane).workers[v];
            y == x || (x.At(lane) == Parked && y == x.Set(lane, Notified).(woken := true))
  {
    var ch := s.At(lane);
    if ch.waiters != [] {
      assert ch.waiters[0] in ch.waiters && IsParked(s, ch.waiters[0], lane);
    }
  }

  /** Dropping the future of worker `w` does no more to another worker than waking it. */
  lemma DropWakes(s: Pool, w: nat, lane: Lane, v: nat)
    requires AllWaitersOk(s) && w < |s.workers| && v < |s.workers| && v != w
    ensures var x, y := s.workers[v], DropFuture(s, w, lane).workers[v];
            y == x || (x.At(lane) == Parked && y == x.Set(lane, Notified).(woken := true))
  {
    var idle := s.SetWorker(w, s.workers[w].Set(lane, Fresh));
    if s.workers[w].At(lane).Notified? {
      assert WaitersOk(idle, lane) by {
        assert forall u: nat :: IsParked(idle, u, lane) == IsParked(s, u, lane);
      }
      NotifyWakes(idle, lane, v);
    }
  }

  // ---- Looking at the Human lane ----

  /** The next poll of `w` looks into the Human queue, in vain. */
  predicate LooksInVain(s: Pool, w: nat) {
    w < |s.workers| && s.workers[w].pc.PollHi? && s.workers[w].hi.Fresh? && s.hi.Queue() == []
  }

  /** Still in a select, and with a Human pop that has looked already. */
  predicate HasLooked(x: Worker) {
    (x.pc.PollHi? || x.pc.PollLo? || x.pc.Asleep?) && !x.hi.Fresh?
  }

  lemma TakeStaysFresh(s: Pool, v: nat, lane: Lane, w: nat)
    requires Inv(s) && v < |s.workers| && w < |s.workers| && s.workers[w].hi.Fresh? && s.workers[v].At(lane).Fresh?
    ensures |Take(s, v, lane).workers| == |s.workers| && Take(s, v, lane).workers[w].hi.Fresh?
  {
    var mid := Removed(s, v, lane);
    RemovedWaiters(s, v, lane);
    if w == v {
      DropKeeps(mid, v, lane.Other());
    } else {
      DropWakes(mid, v, lane.Other(), w);
    }
  }

  lemma PollLaneEndsFresh(s: Pool, v: nat, lane: Lane, w: nat)
    requires Inv(s) && v < |s.workers| && s.workers[v].pc == (if lane.Hi? then PollHi else PollLo)
    requires w < |s.workers| && s.workers[w].hi.Fresh?
    requires var r := PollLane(s, v, lane, if lane.Hi? then PollLo else Asleep);
             |r.workers| == |s.workers| && !r.workers[w].hi.Fresh?
    ensures v == w && lane.Hi? && s.hi.Queue() == []
  {
    if s.workers[v].At(lane).Fresh? && s.At(lane).Queue() != [] {
      TakeStaysFresh(s, v, lane, w);
    }
  }

  lemma ExitStaysFresh(s: Pool, v: nat, w: nat)
    requires Inv(s) && v < |s.workers| && w < |s.workers| && s.workers[w].hi.Fresh?
    ensures |Exit(s, v).workers| == |s.workers| && Exit(s, v).workers[w].hi.Fresh?
  {
    var one := DropFuture(s, v, Hi);
    DropKeeps(s, v, Hi);
    DropKeeps(one, v, Lo);
    if w != v {
      DropWakes(s, v, Hi, w);
      DropWakes(one, v, Lo, w);
    }
  }

  lemma PollEndsFresh(s: Pool, v: nat, w: nat)
    requires Inv(s) && Enabled(s, Poll(v)) && w < |s.workers| == |AfterPoll(s, v).workers|
    requires s.workers[w].hi.Fresh? && !AfterPoll(s, v).workers[w].hi.Fresh?
    ensures v == w && LooksInVain(s, w)
  {
    assert WorkerOk(s, s.workers[v]);
    match s.workers[v].pc {
      case Busy => if s.cancelled { ExitStaysFresh(s, v, w); }
      case Asleep => if s.cancelled { ExitStaysFresh(s, v, w); }
      case PollHi => PollLaneEndsFresh(s, v, Hi, w);
      case PollLo => PollLaneEndsFresh(s, v, Lo, w);
    }
  }

  /** A Human pop that has not looked yet gets past that only by looking in vain. */
  lemma OnlyLookingEndsFresh(s: Pool, a: Action, w: nat)
    requires Inv(s) && Enabled(s, a) && w < |s.workers| == |Apply(s, a).workers|
    requires s.workers[w].hi.Fresh? && !Apply(s, a).workers[w].hi.Fresh?
    ensures a == Poll(w) && LooksInVain(s, w)
  {
    match a
    case Push(lane, task) =>
      QueuedKeeps(s, lane, task);
      NotifyWakes(Queued(s, lane, task), lane, w);
    case Poll(v) => PollEndsFresh(s, v, w);
    case Cancel =>
  }

  // ---- The last look ----

  ghost predicate Waits(at: Option<Pool>, w: nat) {
    at.Some? && w < |at.value.workers| && HasLooked(at.value.workers[w])
  }

  ghost predicate Looks(at: Option<Pool>, w: nat) {
    at.Some? && LooksInVain(at.value, w)
  }

  /**
   Action number `k` is the last look of `w` into the Human queue: it found it empty, and ever since the
   worker has been in the same select, without looking again and without taking a task.
   */
  ghost predicate LastLook(capacity: nat, n: nat, actions: seq<Action>, w: nat, k: nat) {
    && k < |actions| && actions[k] == Poll(w)
    && Looks(Exec(capacity, n, actions[..k]), w)
    && forall j: nat :: k < j <= |actions| ==> Waits(Exec(capacity, n, actions[..j]), w)
  }

  lemma NoLookAfterLast(capacity: nat, n: nat, actions: seq<Action>, w: nat, j: nat, k: nat)
    requires LastLook(capacity, n, actions, w, j) && j < k < |actions|
    ensures !LastLook(capacity, n, actions, w, k)
  {
    assert Waits(Exec(capacity, n, actions[..k]), w);
  }

  lemma LastLookUnique(capacity: nat, n: nat, actions: seq<Action>, w: nat, j: nat, k: nat)
    requires LastLook(capacity, n, actions, w, j) && LastLook(capacity, n, actions, w, k)
    ensures j == k
  {
    if j < k {
      NoLookAfterLast(capacity, n, actions, w, j, k);
    } else if k < j {
      NoLookAfterLast(capacity, n, actions, w, k, j);
    }
  }

  /** What the Human lane had seen when `w` looked at action `k`. */
  ghost function HumansAt(capacity: nat, n: nat, actions: seq<Action>, k: nat): History<Task>
    requires k <= |actions| && Exec(capacity, n, actions[..k]).Some?
  {
    Exec(capacity, n, actions[..k]).value.hi.past
  }

  lemma LookStays(capacity: nat, n: nat, actions: seq<Action>, w: nat, k: nat)
    requires actions != [] && LastLook(capacity, n, actions[..|actions| - 1], w, k)
    requires Waits(Exec(capacity, n, actions), w)
    ensures LastLook(capacity, n, actions, w, k)
  {
    var before := actions[..|actions| - 1];
    assert before[..k] == actions[..k];
    forall j: nat | k < j <= |actions| ensures Waits(Exec(capacity, n, actions[..j]), w) {
      if j < |actions| {
        assert before[..j] == actions[..j];
      } else {
        assert actions[..j] == actions;
      }
    }
  }

  lemma LookIsNew(capacity: nat, n: nat, actions: seq<Action>, w: nat)
    requires actions != [] && actions[|actions| - 1] == Poll(w)
    requires Looks(Exec(capacity, n, actions[..|actions| - 1]), w)
    requires Waits(Exec(capacity, n, actions), w)
    ensures LastLook(capacity, n, actions, w, |actions| - 1)
  {
    assert actions[..|actions|] == actions;
  }

  /** A Human pop that is past its first look has a last look, and it was in vain. */
  lemma {:induction false} LooksBefore(capacity: nat, n: nat, actions: seq<Action>, s: Pool, w: nat) returns (k: nat)
    requires Exec(capacity, n, actions) == Some(s) && w < |s.workers| && !s.workers[w].hi.Fresh?
    ensures LastLook(capacity, n, actions, w, k)
  {
    Reachable(capacity, n, actions);
    assert WorkerOk(s, s.workers[w]);
    if actions == [] {
      assert false;
    } else {
      var before, a := actions[..|actions| - 1], actions[|actions| - 1];
      var s0 := Exec(capacity, n, before).value;
      Reachable(capacity, n, before);
      if s0.workers[w].hi.Fresh? {
        OnlyLookingEndsFresh(s0, a, w);
        LookIsNew(capacity, n, actions, w);
        k := |before|;
      } else {
        k := LooksBefore(capacity, n, before, s0, w);
        LookStays(capacity, n, actions, w, k);
      }
    }
  }

  /**
   A worker that turns to the Bot lane has looked into the Human queue in the same select, since the last
   task it took, and found it empty.
   */
  lemma LoAfterHi(capacity: nat, n: nat, actions: seq<Action>, s: Pool, w: nat) returns (k: nat)
    requires Exec(capacity, n, actions) == Some(s) && w < |s.workers| && s.workers[w].pc == PollLo
    ensures LastLook(capacity, n, actions, w, k)
  {
    Reachable(capacity, n, actions);
    assert WorkerOk(s, s.workers[w]);
    k := LooksBefore(capacity, n, actions, s, w);
  }

  // ---- What is passed over ----

  /** `h'` comes after `h`: nothing is taken back, and only pushes make the queue longer. */
  ghost predicate Later(h: History<Task>, h': History<Task>) {
    && h.pushed <= h'.pushed && |h.delivered| <= |h'.delivered| && h.ring.overflow <= h'.ring.overflow
    && |h'.ring.queue| - |h.ring.queue| <= |h'.pushed| - |h.pushed|
  }

  lemma MovesLater(capacity: nat, h: History<Task>, h': History<Task>)
    requires PastMoves(capacity, h, h')
    ensures Later(h, h')
  {
  }

  lemma {:induction false} HumansLater(capacity: nat, n: nat, actions: seq<Action>, k: nat)
    requires k <= |actions| && Exec(capacity, n, actions).Some? && Exec(capacity, n, actions[..k]).Some?
    ensures Later(HumansAt(capacity, n, actions, k), Exec(capacity, n, actions).value.hi.past)
  {
    if k == |actions| {
      assert actions[..k] == actions;
    } else {
      var before, a := actions[..|actions| - 1], actions[|actions| - 1];
      assert before[..k] == actions[..k];
      HumansLater(capacity, n, before, k);
      var s := Exec(capacity, n, before).value;
      StepMovesPast(s, a, Hi);
      MovesLater(s.capacity, s.hi.past, Apply(s, a).hi.past);
    }
  }

  /** The next poll of `w` takes a Bot. */
  predicate TakesBot(s: Pool, w: nat) {
    w < |s.workers| && s.workers[w].pc.PollLo? && s.workers[w].lo.Fresh? && s.lo.Queue() != []
  }

  lemma BotIsTaken(s: Pool, w: nat)
    requires TakesBot(s, w)
    ensures AfterPoll(s, w).lo.past == Next(s.capacity, s.lo.past, Pop) && AfterPoll(s, w).hi.past == s.hi.past
  {
    TakeFront(s, w, Lo);
  }

  /** There is no other way for a Bot to be delivered. */
  lemma DeliversBotIff(s: Pool, a: Action)
    requires Enabled(s, a)
    ensures Apply(s, a).lo.past.delivered != s.lo.past.delivered <==> a.Poll? && TakesBot(s, a.w)
  {
    match a
    case Push(lane, task) => NotifyPast(Queued(s, lane, task), lane);
    case Poll(w) =>
      if TakesBot(s, w) {
        BotIsTaken(s, w);
      } else if s.workers[w].pc.Busy? || s.workers[w].pc.Asleep? {
        ExitFrame(s, w);
      } else if s.workers[w].pc.PollHi? && s.workers[w].hi.Fresh? && s.hi.Queue() != [] {
        TakeFront(s, w, Hi);
      }
    case Cancel =>
  }

  lemma QueueIsNewest(s: Pool)
    requires Inv(s)
    ensures var h := s.hi.past; |h.ring.queue| <= |h.pushed| && h.ring.queue == h.pushed[|h.pushed| - |h.ring.queue|..]
  {
  }

  /** Every Human a worker passes over was pushed after that worker's last look. */
  lemma PassedOverIsLater(capacity: nat, n: nat, actions: seq<Action>, s: Pool, w: nat, k: nat)
    requires Exec(capacity, n, actions) == Some(s) && LastLook(capacity, n, actions, w, k)
    ensures var past, now := HumansAt(capacity, n, actions, k), s.hi.past;
            && past.pushed <= now.pushed
            && |now.ring.queue| <= |now.pushed| - |past.pushed|
            && now.ring.queue == now.pushed[|now.pushed| - |now.ring.queue|..]
  {
    HumansLater(capacity, n, actions, k);
    Reachable(capacity, n, actions);
    QueueIsNewest(s);
  }

  /** Between the two, more Humans were pushed than were delivered to other workers or lost to overflow. */
  ghost predicate Outnumber(past: History<Task>, now: History<Task>) {
    |now.pushed| - |past.pushed|
    > (|now.delivered| - |past.delivered|) + (now.ring.overflow - past.ring.overflow)
  }

  lemma QueuedSinceLook(
    capacity: nat, n: nat, actions: seq<Action>, s: Pool, w: nat, k: nat)
    requires capacity >= 1 && Exec(capacity, n, actions) == Some(s) && LastLook(capacity, n, actions, w, k)
    ensures s.hi.Queue() != [] <==> Outnumber(HumansAt(capacity, n, actions, k), s.hi.past)
  {
    Reachable(capacity, n, actions);
    Reachable(capacity, n, actions[..k]);
    assert LaneOk(s, Hi) && LaneOk(Exec(capacity, n, actions[..k]).value, Hi);
  }

  /**
   A worker that takes a Bot leaves a Human queued exactly when, since its last look, more Humans were
   pushed than were delivered to other workers or lost to overflow.
   */
  lemma PassesHumanIff(capacity: nat, n: nat, actions: seq<Action>, s: Pool, w: nat)
    returns (k: nat)
    requires capacity >= 1 && Exec(capacity, n, actions) == Some(s)
    ensures TakesBot(s, w) ==>
              && LastLook(capacity, n, actions, w, k)
              && (AfterPoll(s, w).hi.Queue() != [] <==>
                  Outnumber(HumansAt(capacity, n, actions, k), AfterPoll(s, w).hi.past))
  {
    k := 0;
    if TakesBot(s, w) {
      k := LoAfterHi(capacity, n, actions, s, w);
      QueuedSinceLook(capacity, n, actions, s, w, k);
      BotIsTaken(s, w);
    }
  }

  /** Before cancellation, a worker with a Human to pass over was told of it, or another worker will look. */
  lemma PassedOverIsCovered(capacity: nat, n: nat, actions: seq<Action>, s: Pool, w: nat)
    requires Exec(capacity, n, actions) == Some(s) && !s.cancelled
    requires w < |s.workers| && s.workers[w].pc == PollLo && s.hi.Queue() != []
    ensures s.workers[w].hi == Notified || exists v :: v != w && Looker(s, v, Hi)
  {
    Reachable(capacity, n, actions);
    assert WorkerOk(s, s.workers[w]) && LaneOk(s, Hi);
    if s.workers[w].hi != Notified {
      assert IsParked(s, w, Hi);
      var v :| Looker(s, v, Hi);
      assert v != w;
    }
  }

  // ---- A single worker ----

  /** The only worker is told of a Human only while there is one. */
  ghost predicate ToldRightly(s: Pool) {
    |s.workers| == 1 && (s.workers[0].hi == Notified ==> s.hi.Queue() != [])
  }

  lemma TakeTellsRightly(s: Pool, lane: Lane)
    requires Inv(s) && |s.workers| == 1 && s.workers[0].At(lane).Fresh?
    ensures ToldRightly(Take(s, 0, lane))
  {
    RemovedWaiters(s, 0, lane);
    DropKeeps(Removed(s, 0, lane), 0, lane.Other());
  }

  lemma ExitTellsRightly(s: Pool)
    requires Inv(s) && |s.workers| == 1
    ensures ToldRightly(Exit(s, 0))
  {
    DropKeeps(s, 0, Hi);
    DropKeeps(DropFuture(s, 0, Hi), 0, Lo);
  }

  lemma PollTellsRightly(s: Pool)
    requires Inv(s) && ToldRightly(s) && Enabled(s, Poll(0))
    ensures ToldRightly(AfterPoll(s, 0))
  {
    var x := s.workers[0];
    if x.pc.PollHi? || x.pc.PollLo? {
      var lane := if x.pc.PollHi? then Hi else Lo;
      if x.At(lane).Fresh? && s.At(lane).Queue() != [] {
        TakeTellsRightly(s, lane);
      }
    } else if s.cancelled {
      ExitTellsRightly(s);
    }
  }

  lemma StepTellsRightly(s: Pool, a: Action)
    requires Inv(s) && ToldRightly(s) && Enabled(s, a)
    ensures ToldRightly(Apply(s, a))
  {
    match a
    case Push(lane, task) =>
      QueuedKeeps(s, lane, task);
      NotifyPast(Queued(s, lane, task), lane);
      NotifyWakes(Queued(s, lane, task), lane, 0);
    case Poll(w) => PollTellsRightly(s);
    case Cancel =>
  }

  lemma {:induction false} AlwaysToldRightly(capacity: nat, actions: seq<Action>)
    requires Exec(capacity, 1, actions).Some?
    ensures ToldRightly(Exec(capacity, 1, actions).value)
  {
    if actions != [] {
      var before := actions[..|actions| - 1];
      AlwaysToldRightly(capacity, before);
      Reachable(capacity, 1, before);
      StepTellsRightly(Exec(capacity, 1, before).value, actions[|actions| - 1]);
    }
  }

  /** A single worker passes over a Human exactly when it was told of it after it had polled that lane. */
  lemma LoneWorkerPassesIff(capacity: nat, actions: seq<Action>, s: Pool)
    requires Exec(capacity, 1, actions) == Some(s) && !s.cancelled
    requires |s.workers| == 1 && s.workers[0].pc == PollLo
    ensures s.hi.Queue() != [] <==> s.workers[0].hi == Notified
  {
    AlwaysToldRightly(capacity, actions);
    if s.hi.Queue() != [] {
      PassedOverIsCovered(capacity, 1, actions, s, 0);
      assert forall v :: v != 0 ==> !Looker(s, v, Hi);
    }
  }

  // ---- The bias is not strict ----

  lemma Then(capacity: nat, n: nat, actions: seq<Action>, s: Pool, a: Action)
    returns (longer: seq<Action>, r: Pool)
    requires Exec(capacity, n, actions) == Some(s) && Enabled(s, a)
    ensures r == Apply(s, a) && Exec(capacity, n, longer) == Some(r)
  {
    longer, r := actions + [a], Apply(s, a);
    assert longer[..|longer| - 1] == actions;
  }

  /** One worker, asleep with both pops parked. */
  lemma OneAsleep(capacity: nat) returns (actions: seq<Action>, s: Pool)
    ensures Exec(capacity, 1, actions) == Some(s)
    ensures s.capacity == capacity && s.workers == [Worker(Asleep, Parked, Parked, false)] && !s.cancelled
    ensures forall l: Lane :: s.At(l) == Channel(History(Ring([], 0), [], []), false, [0])
  {
    actions, s := [], Start(capacity, 1);
    assert s.workers == [Worker(Busy, Fresh, Fresh, false)];
    actions, s := Then(capacity, 1, actions, s, Poll(0));
    assert s.workers == [Worker(PollHi, Fresh, Fresh, false)];
    actions, s := Then(capacity, 1, actions, s, Poll(0));
    assert s.workers == [Worker(PollHi, SawEmpty, Fresh, false)];
    actions, s := Then(capacity, 1, actions, s, Poll(0));
    assert s.workers == [Worker(PollLo, Parked, Fresh, false)];
    actions, s := Then(capacity, 1, actions, s, Poll(0));
    assert s.workers == [Worker(PollLo, Parked, SawEmpty, false)];
    actions, s := Then(capacity, 1, actions, s, Poll(0));
  }

  /** A Bot arrives, and the worker, woken for it, passes over the Human lane it is still parked on. */
  lemma PastHumans(capacity: nat, bot: Task) returns (actions: seq<Action>, s: Pool)
    requires capacity >= 1
    ensures Exec(capacity, 1, actions) == Some(s) && s.workers == [Worker(PollLo, Parked, Notified, false)]
    ensures s.capacity == capacity && s.hi == Channel(History(Ring([], 0), [], []), false, [0])
    ensures s.lo == Channel(History(Ring([bot], 0), [bot], []), false, [])
  {
    actions, s := OneAsleep(capacity);
    assert s.At(Hi) == s.hi && s.At(Lo) == s.lo;
    actions, s := Then(capacity, 1, actions, s, Action.Push(Lo, bot));
    assert s.workers == [Worker(Asleep, Parked, Notified, true)];
    actions, s := Then(capacity, 1, actions, s, Poll(0));
    assert s.workers == [Worker(PollHi, Parked, Notified, false)];
    actions, s := Then(capacity, 1, actions, s, Poll(0));
  }

  /** The bias is not strict: a woken worker can be about to take a Bot while a Human is queued. */
  lemma BiasIsNotStrict(capacity: nat, human: Task, bot: Task) returns (actions: seq<Action>, s: Pool)
    requires capacity >= 1
    ensures Exec(capacity, 1, actions) == Some(s) && s.hi.Queue() == [human] && s.lo.Queue() == [bot]
    ensures Enabled(s, Poll(0)) && AfterPoll(s, 0).lo.past.delivered == [bot] && AfterPoll(s, 0).hi.Queue() == [human]
  {
    actions, s := PastHumans(capacity, bot);
    actions, s := Then(capacity, 1, actions, s, Action.Push(Hi, human));
    assert s.hi.Queue() == [human] && s.workers == [Worker(PollLo, Notified, Notified, true)];
    actions, s := Then(capacity, 1, actions, s, Poll(0));
    assert s.workers == [Worker(PollLo, Notified, Fresh, true)] && s.lo.Queue() == [bot];
    TakeFront(s, 0, Lo);
  }
}
