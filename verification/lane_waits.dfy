/** How long a Human waits: for the Humans before it, and for nobody else, whatever arrives meanwhile. */
module LaneWaits {
  import opened Tasks
  import opened Lanes
  import opened LaneOrder

  // ---- The lanes and what they have done for one class ----

  /** The lanes, the arrivals and departures of the class, its evictions, and the polls of any. */
  datatype Record = Record(l: Pair, arrived: seq<Task>, departed: seq<Task>, evicted: nat, polls: nat)

  function Evicted(capacity: nat, l: Pair, op: Op, p: Priority): nat
    requires capacity >= 1
  {
    if op.Push? && l.Size() >= capacity && l.Victim().priority == p then 1 else 0
  }

  function NextRecord(capacity: nat, s: Record, op: Op, p: Priority): Record
    requires capacity >= 1
  {
    Record(LaneNext(capacity, s.l, op), s.arrived + Arrived(op, p), s.departed + Departed(s.l, op, p),
           s.evicted + Evicted(capacity, s.l, op, p), s.polls + if op.Poll? then 1 else 0)
  }

  /** After the first `n` operations. */
  function RecordAt(capacity: nat, ops: seq<Op>, p: Priority, n: nat): Record
    requires capacity >= 1 && n <= |ops|
  {
    if n == 0 then Record(Pair([], []), [], [], 0, 0)
    else NextRecord(capacity, RecordAt(capacity, ops, p, n - 1), ops[n - 1], p)
  }

  /** The record is that of the run. */
  lemma {:induction false} RecordIsRun(capacity: nat, ops: seq<Op>, p: Priority, n: nat)
    requires capacity >= 1 && n <= |ops|
    ensures var s := RecordAt(capacity, ops, p, n);
            && s.l == LanesAfter(capacity, ops[..n])
            && s.arrived == Arrivals(ops[..n], p) && s.departed == Departures(capacity, ops[..n], p)
  {
    if n > 0 {
      RecordIsRun(capacity, ops, p, n - 1);
      assert ops[..n][..n - 1] == ops[..n - 1];
    }
  }

  /** How many tasks of the class have left their lane, served or evicted. */
  function Gone(s: Record, p: Priority): int {
    |s.arrived| - |LaneOf(s.l, p)|
  }

  /** The lanes keep the classes apart, and hold the arrivals that have not gone. */
  ghost predicate Sound(s: Record, p: Priority) {
    Sorted(s.l) && 0 <= Gone(s, p) <= |s.arrived| && LaneOf(s.l, p) == s.arrived[Gone(s, p)..]
  }

  lemma RecordIsSound(capacity: nat, ops: seq<Op>, p: Priority, n: nat)
    requires capacity >= 1 && n <= |ops|
    ensures Sound(RecordAt(capacity, ops, p, n), p)
  {
    RecordIsRun(capacity, ops, p, n);
    LanesSorted(capacity, ops[..n]);
    LanesServeInOrder(capacity, ops[..n], p);
  }

  lemma StepGoes(capacity: nat, l: Pair, op: Op, p: Priority)
    requires capacity >= 1 && Sorted(l)
    ensures |LaneOf(l, p)| + |Arrived(op, p)|
         == |LaneOf(LaneNext(capacity, l, op), p)| + |Departed(l, op, p)| + Evicted(capacity, l, op, p)
  {
  }

  lemma {:induction false} GoneIsServedOrEvicted(capacity: nat, ops: seq<Op>, p: Priority, n: nat, s: Record)
    requires capacity >= 1 && n <= |ops| && s == RecordAt(capacity, ops, p, n)
    ensures Gone(s, p) == |s.departed| + s.evicted
  {
    if n > 0 {
      var before := RecordAt(capacity, ops, p, n - 1);
      GoneIsServedOrEvicted(capacity, ops, p, n - 1, before);
      RecordIsSound(capacity, ops, p, n - 1);
      StepGoes(capacity, before.l, ops[n - 1], p);
    }
  }

  // ---- Each poll takes a Human, while there is one ----

  lemma StepLeaves(capacity: nat, l: Pair, op: Op)
    requires capacity >= 1
    ensures var left := |Arrived(op, Human)| - |LaneNext(capacity, l, op).hi| + |l.hi|;
            left >= if op.Poll? && l.hi != [] then 1 else 0
  {
  }

  /** With every poll between the two, one of the first Humans left at least. */
  ghost predicate Leave(s: Record, s': Record) {
    && s.arrived <= s'.arrived && s.polls <= s'.polls
    && Gone(s', Human) >= Min(Gone(s, Human) + s'.polls - s.polls, |s.arrived|)
  }

  lemma LeaveNext(capacity: nat, s: Record, s': Record, op: Op, r: Record)
    requires capacity >= 1 && Leave(s, s') && r == NextRecord(capacity, s', op, Human)
    ensures Leave(s, r)
  {
    StepLeaves(capacity, s'.l, op);
  }

  lemma {:induction false} HumansLeave(capacity: nat, ops: seq<Op>, k: nat, n: nat, s: Record, r: Record)
    requires capacity >= 1 && k <= n <= |ops|
    requires s == RecordAt(capacity, ops, Human, k) && r == RecordAt(capacity, ops, Human, n)
    ensures Leave(s, r)
  {
    if k < n {
      var before := RecordAt(capacity, ops, Human, n - 1);
      HumansLeave(capacity, ops, k, n - 1, s, before);
      LeaveNext(capacity, s, before, ops[n - 1], r);
    }
  }

  // ---- Every task is its own ----

  lemma {:induction false} ArrivalsPushed(ops: seq<Op>, p: Priority)
    ensures AllPushed(Arrivals(ops, p), ops)
  {
    if ops != [] {
      var before, op := ops[..|ops| - 1], ops[|ops| - 1];
      assert ops == before + [op];
      ArrivalsPushed(before, p);
    }
  }

  ghost predicate Increasing(tasks: seq<Task>) {
    forall i, j :: 0 <= i < j < |tasks| ==> tasks[i].enqueuedAt < tasks[j].enqueuedAt
  }

  lemma LastIsLatest(tasks: seq<Task>, ops: seq<Op>)
    requires ops != [] && Stamped(ops) && ops[|ops| - 1].Push? && AllPushed(tasks, ops[..|ops| - 1])
    ensures forall i :: 0 <= i < |tasks| ==> tasks[i].enqueuedAt < ops[|ops| - 1].task.enqueuedAt
  {
    NewestArrives(Pair(tasks, []), ops);
  }

  lemma {:induction false} ArrivalsIncrease(ops: seq<Op>, p: Priority)
    requires Stamped(ops)
    ensures Increasing(Arrivals(ops, p))
  {
    if ops != [] {
      var before := ops[..|ops| - 1];
      ArrivalsIncrease(before, p);
      ArrivalsPushed(before, p);
      if ops[|ops| - 1].Push? {
        LastIsLatest(Arrivals(before, p), ops);
      }
    }
  }

  // ---- The bound ----

  lemma GoneIsAbsent(s: Record, s': Record, i: nat)
    requires Sound(s, Human) && Sound(s', Human) && Leave(s, s') && Increasing(s'.arrived)
    requires i < |s.l.hi| && s'.polls - s.polls > i
    ensures s.l.hi[i] !in s'.l.Contents()
  {
    var m := Gone(s, Human) + i;
    assert s.l.hi[i] == s.arrived[m] == s'.arrived[m];
    assert forall j :: 0 <= j < |s'.l.hi| ==> s'.l.hi[j] == s'.arrived[Gone(s', Human) + j];
    InContents(s'.l, s.l.hi[i]);
  }

  /**
   The Human at place `i` of its lane has left the queue after `i + 1` more polls, whatever is pushed
   meanwhile.
   */
  lemma HumanWaitsInTurn(capacity: nat, ops: seq<Op>, k: nat, n: nat, i: nat)
    requires capacity >= 1 && k <= n <= |ops| && Stamped(ops[..n])
    requires i < |RecordAt(capacity, ops, Human, k).l.hi|
    requires RecordAt(capacity, ops, Human, n).polls > RecordAt(capacity, ops, Human, k).polls + i
    ensures LanesAfter(capacity, ops[..k]).hi == RecordAt(capacity, ops, Human, k).l.hi
    ensures RecordAt(capacity, ops, Human, k).l.hi[i] !in LanesAfter(capacity, ops[..n]).Contents()
  {
    RecordIsSound(capacity, ops, Human, k);
    RecordIsSound(capacity, ops, Human, n);
    RecordIsRun(capacity, ops, Human, k);
    RecordIsRun(capacity, ops, Human, n);
    HumansLeave(capacity, ops, k, n, RecordAt(capacity, ops, Human, k), RecordAt(capacity, ops, Human, n));
    ArrivalsIncrease(ops[..n], Human);
    GoneIsAbsent(RecordAt(capacity, ops, Human, k), RecordAt(capacity, ops, Human, n), i);
  }

  // ---- Served, unless evicted ----

  /** Every task of the class that left between the two was served, in order. */
  ghost predicate Served(s: Record, s': Record, p: Priority) {
    && 0 <= Gone(s, p) <= Gone(s', p) <= |s'.arrived|
    && s'.departed == s.departed + s'.arrived[Gone(s, p)..Gone(s', p)]
  }

  lemma StepServes(capacity: nat, s: Record, op: Op, p: Priority)
    requires capacity >= 1 && Sound(s, p) && Evicted(capacity, s.l, op, p) == 0
    ensures var s' := NextRecord(capacity, s, op, p);
            && Gone(s, p) <= Gone(s', p) <= |s'.arrived|
            && Departed(s.l, op, p) == s'.arrived[Gone(s, p)..Gone(s', p)]
  {
  }

  lemma SlicesJoin(d: seq<Task>, a: seq<Task>, more: seq<Task>, from: nat, mid: nat, to: nat)
    requires from <= mid <= |a| && mid <= to <= |a + more|
    ensures (d + a[from..mid]) + (a + more)[mid..to] == d + (a + more)[from..to]
  {
  }

  /** Evictions are not taken back, and without any, whatever left was served. */
  ghost predicate ServedUnless(s: Record, s': Record, p: Priority) {
    s'.evicted >= s.evicted && (s'.evicted == s.evicted ==> Served(s, s', p))
  }

  lemma ServedNext(capacity: nat, s: Record, s': Record, op: Op, p: Priority)
    requires capacity >= 1 && Sound(s', p) && ServedUnless(s, s', p)
    ensures ServedUnless(s, NextRecord(capacity, s', op, p), p)
  {
    var r := NextRecord(capacity, s', op, p);
    if r.evicted == s.evicted {
      StepServes(capacity, s', op, p);
      SlicesJoin(s.departed, s'.arrived, Arrived(op, p), Gone(s, p), Gone(s', p), Gone(r, p));
    }
  }

  lemma ServedAtFirst(s: Record, p: Priority)
    requires Sound(s, p)
    ensures ServedUnless(s, s, p)
  {
    assert s.departed + [] == s.departed;
  }

  /** While no task of a class is evicted, those that leave are served, in order. */
  lemma {:induction false} ServedUnlessEvicted(capacity: nat, ops: seq<Op>, p: Priority, k: nat, n: nat)
    requires capacity >= 1 && k <= n <= |ops|
    ensures ServedUnless(RecordAt(capacity, ops, p, k), RecordAt(capacity, ops, p, n), p)
  {
    RecordIsSound(capacity, ops, p, k);
    if k == n {
      ServedAtFirst(RecordAt(capacity, ops, p, k), p);
    } else {
      ServedUnlessEvicted(capacity, ops, p, k, n - 1);
      RecordIsSound(capacity, ops, p, n - 1);
      ServedNext(capacity, RecordAt(capacity, ops, p, k), RecordAt(capacity, ops, p, n - 1), ops[n - 1], p);
    }
  }

  lemma ServedAt(s: Record, s': Record, i: nat)
    requires Sound(s, Human) && Leave(s, s') && Served(s, s', Human)
    requires i < |s.l.hi| && s'.polls - s.polls > i
    ensures |s.departed| + i < |s'.departed| && s'.departed[|s.departed| + i] == s.l.hi[i]
  {
    assert s.l.hi[i] == s.arrived[Gone(s, Human) + i] == s'.arrived[Gone(s, Human) + i];
  }

  /** So, if no Human is evicted meanwhile, the Human at place `i` is served as the one `i` places later. */
  lemma HumanIsServed(capacity: nat, ops: seq<Op>, k: nat, n: nat, i: nat)
    requires capacity >= 1 && k <= n <= |ops| && i < |RecordAt(capacity, ops, Human, k).l.hi|
    requires RecordAt(capacity, ops, Human, n).polls > RecordAt(capacity, ops, Human, k).polls + i
    requires RecordAt(capacity, ops, Human, n).evicted <= RecordAt(capacity, ops, Human, k).evicted
    ensures var s, s' := RecordAt(capacity, ops, Human, k), RecordAt(capacity, ops, Human, n);
            |s.departed| + i < |s'.departed| && s'.departed[|s.departed| + i] == s.l.hi[i]
  {
    ServedUnlessEvicted(capacity, ops, Human, k, n);
    HumansLeave(capacity, ops, k, n, RecordAt(capacity, ops, Human, k), RecordAt(capacity, ops, Human, n));
    RecordIsSound(capacity, ops, Human, k);
    ServedAt(RecordAt(capacity, ops, Human, k), RecordAt(capacity, ops, Human, n), i);
  }

  /** Only polls are answered by tasks. */
  ghost predicate Matching(ops: seq<Op>, replies: seq<Reply>) {
    |replies| == |ops| && forall i :: 0 <= i < |ops| ==> replies[i].Polled? ==> ops[i].Poll?
  }

  lemma RepliesMatch(capacity: nat, ops: seq<Op>, replies: seq<Reply>)
    requires capacity >= 1 && RepliesAsLanes(capacity, ops, replies)
    ensures Matching(ops, replies)
  {
  }

  function Polls(ops: seq<Op>, n: nat): nat
    requires n <= |ops|
  {
    if n == 0 then 0 else Polls(ops, n - 1) + if ops[n - 1].Poll? then 1 else 0
  }

  function Pops(replies: seq<Reply>, n: nat): nat
    requires n <= |replies|
  {
    if n == 0 then 0 else Pops(replies, n - 1) + |Popped1(replies[n - 1])|
  }

  lemma {:induction false} PollsRecorded(capacity: nat, ops: seq<Op>, n: nat)
    requires capacity >= 1 && n <= |ops|
    ensures RecordAt(capacity, ops, Human, n).polls == Polls(ops, n)
  {
    if n > 0 {
      PollsRecorded(capacity, ops, n - 1);
    }
  }

  lemma {:induction false} PopsCounted(replies: seq<Reply>, n: nat)
    requires n <= |replies|
    ensures |Popped(replies[..n])| == Pops(replies, n)
  {
    if n > 0 {
      PopsCounted(replies, n - 1);
      assert replies[..n][..n - 1] == replies[..n - 1];
    }
  }

  lemma {:induction false} PopsWithinPolls(ops: seq<Op>, replies: seq<Reply>, k: nat, n: nat)
    requires Matching(ops, replies) && k <= n <= |ops|
    ensures Pops(replies, n) - Pops(replies, k) <= Polls(ops, n) - Polls(ops, k)
  {
    if k < n {
      PopsWithinPolls(ops, replies, k, n - 1);
    }
  }

  /** A pop takes a poll. */
  lemma PopsArePolls(capacity: nat, ops: seq<Op>, replies: seq<Reply>, k: nat, n: nat)
    requires capacity >= 1 && Matching(ops, replies) && k <= n <= |ops|
    ensures |Popped(replies[..n])| - |Popped(replies[..k])|
         <= RecordAt(capacity, ops, Human, n).polls - RecordAt(capacity, ops, Human, k).polls
  {
    PollsRecorded(capacity, ops, k);
    PollsRecorded(capacity, ops, n);
    PopsCounted(replies, k);
    PopsCounted(replies, n);
    PopsWithinPolls(ops, replies, k, n);
  }
}
