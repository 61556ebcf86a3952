/** The drop-oldest ring buffer of the async pipeline. */
module Rings {
  import opened Tasks

  datatype Ring<T> = Ring(queue: seq<T>, overflow: nat)

  /** A push to a ring that is exactly full drops the front, if there is one, and counts an overflow. */
  function PushBack<T>(capacity: nat, r: Ring<T>, item: T): Ring<T> {
    if |r.queue| == capacity then
      Ring((if r.queue == [] then [] else r.queue[1..]) + [item], r.overflow + 1)
    else
      Ring(r.queue + [item], r.overflow)
  }

  function PopFront<T>(r: Ring<T>): (Option<T>, Ring<T>) {
    if r.queue == [] then (None, r) else (Some(r.queue[0]), Ring(r.queue[1..], r.overflow))
  }

  // ---- Histories ----

  /** The ring together with everything ever pushed to it and popped from it. */
  datatype History<T> = History(ring: Ring<T>, pushed: seq<T>, delivered: seq<T>)

  datatype Op<T> = Push(item: T) | Pop

  function Next<T>(capacity: nat, h: History<T>, op: Op<T>): History<T> {
    match op
    case Push(item) => History(PushBack(capacity, h.ring, item), h.pushed + [item], h.delivered)
    case Pop =>
      var (got, ring) := PopFront(h.ring);
      History(ring, h.pushed, h.delivered + if got.Some? then [got.value] else [])
  }

  function After<T>(capacity: nat, ops: seq<Op<T>>): History<T> {
    if ops == [] then History(Ring([], 0), [], [])
    else Next(capacity, After(capacity, ops[..|ops| - 1]), ops[|ops| - 1])
  }

  /** The ring holds the pushed items from number `delivered + overflow` on, and at most `capacity` of them. */
  ghost predicate Lawful<T>(capacity: nat, h: History<T>) {
    && |h.delivered| + h.ring.overflow <= |h.pushed|
    && h.ring.queue == h.pushed[|h.delivered| + h.ring.overflow..]
    && |h.ring.queue| <= capacity
  }

  /** `s` can be read off `t` from left to right, through the positions `at`. */
  ghost predicate IsSubsequence<T>(s: seq<T>, t: seq<T>, at: seq<nat>) {
    && |at| == |s|
    && (forall i :: 0 <= i < |s| ==> at[i] < |t| && s[i] == t[at[i]])
    && (forall i, j :: 0 <= i < j < |s| ==> at[i] < at[j])
  }

  ghost predicate ReadsOff<T>(s: seq<T>, t: seq<T>) {
    s == [] || exists at: seq<nat> :: IsSubsequence(s, t, at)
  }

  lemma Positions<T>(s: seq<T>, t: seq<T>) returns (at: seq<nat>)
    requires ReadsOff(s, t)
    ensures IsSubsequence(s, t, at)
  {
    if s == [] {
      at := [];
    } else {
      at :| IsSubsequence(s, t, at);
    }
  }

  /** The queue is the end of the push history, and what was delivered lies in order before it. */
  ghost predicate InOrder<T>(h: History<T>) {
    && |h.ring.queue| <= |h.pushed|
    && h.ring.queue == h.pushed[|h.pushed| - |h.ring.queue|..]
    && ReadsOff(h.delivered, h.pushed[..|h.pushed| - |h.ring.queue|])
  }

  lemma PushKeepsOrder<T>(capacity: nat, h: History<T>, item: T)
    requires InOrder(h)
    ensures InOrder(Next(capacity, h, Push(item)))
  {
    var h' := Next(capacity, h, Push(item));
    var n, n' := |h.pushed| - |h.ring.queue|, |h'.pushed| - |h'.ring.queue|;
    var at := Positions(h.delivered, h.pushed[..n]);
    assert IsSubsequence(h'.delivered, h'.pushed[..n'], at);
  }

  lemma PopKeepsOrder<T>(capacity: nat, h: History<T>)
    requires InOrder(h)
    ensures InOrder(Next(capacity, h, Pop))
  {
    var n := |h.pushed| - |h.ring.queue|;
    var h' := Next(capacity, h, Pop);
    if h.ring.queue == [] {
      assert h' == h;
    } else {
      var at := Positions(h.delivered, h.pushed[..n]);
      assert h.ring.queue[0] == h.pushed[n];
      assert IsSubsequence(h'.delivered, h'.pushed[..n + 1], at + [n]);
    }
  }

  /** Whatever the capacity, items are delivered at most once and in the order they were pushed. */
  lemma {:induction false} DeliveredInOrder<T>(capacity: nat, ops: seq<Op<T>>)
    ensures InOrder(After(capacity, ops))
  {
    if ops != [] {
      var h := After(capacity, ops[..|ops| - 1]);
      DeliveredInOrder(capacity, ops[..|ops| - 1]);
      match ops[|ops| - 1]
      case Push(item) => PushKeepsOrder(capacity, h, item);
      case Pop => PopKeepsOrder(capacity, h);
    }
  }

  lemma NextIsLawful<T>(capacity: nat, h: History<T>, op: Op<T>)
    requires capacity >= 1 && Lawful(capacity, h)
    ensures Lawful(capacity, Next(capacity, h, op))
  {
  }

  lemma {:induction false} AlwaysLawful<T>(capacity: nat, ops: seq<Op<T>>)
    requires capacity >= 1
    ensures Lawful(capacity, After(capacity, ops))
  {
    if ops != [] {
      AlwaysLawful(capacity, ops[..|ops| - 1]);
      NextIsLawful(capacity, After(capacity, ops[..|ops| - 1]), ops[|ops| - 1]);
    }
  }

  /** Bounded and fully accounted for, whatever the operations: exactly when the capacity is not zero. */
  lemma LawfulIffCapacity<T>(capacity: nat, item: T)
    ensures (forall ops: seq<Op<T>> :: Lawful(capacity, After(capacity, ops))) <==> capacity >= 1
  {
    if capacity >= 1 {
      forall ops: seq<Op<T>> ensures Lawful(capacity, After(capacity, ops)) {
        AlwaysLawful(capacity, ops);
      }
    } else {
      var ops := [Push(item)];
      assert ops[..0] == [];
      assert After(0, ops) == History(Ring([item], 1), [item], []);
      assert !Lawful(capacity, After(capacity, ops));
    }
  }

  function Repeat<T>(item: T, n: nat): seq<Op<T>> {
    seq(n, _ => Push(item))
  }

  /** A ring of capacity zero keeps every item it is given. */
  lemma {:induction false} ZeroCapacityGrows<T>(item: T, n: nat)
    ensures |After(0, Repeat(item, n)).ring.queue| == n
  {
    if n > 0 {
      assert Repeat(item, n)[..n - 1] == Repeat(item, n - 1);
      ZeroCapacityGrows(item, n - 1);
    }
  }

  // ---- The buffer itself ----

  class DropOldestRing<T> {
    const capacity: nat
    var queue: seq<T>
    var overflow: nat
    ghost var pushed: seq<T>
    ghost var delivered: seq<T>

    ghost function Past(): History<T>
      reads this
    {
      History(Ring(queue, overflow), pushed, delivered)
    }

    ghost predicate Valid()
      reads this
    {
      InOrder(Past()) && (capacity >= 1 ==> Lawful(capacity, Past()))
    }

    constructor (capacity: nat)
      ensures Valid() && this.capacity == capacity
      ensures Past() == History(Ring([], 0), [], [])
    {
      this.capacity := capacity;
      queue, overflow, pushed, delivered := [], 0, [], [];
    }

    method Push(item: T) returns (outcome: PushOutcome)
      requires Valid()
      modifies this
      ensures Valid() && Past() == Next(capacity, old(Past()), Op.Push(item))
      ensures outcome == DroppedOldest <==> overflow == old(overflow) + 1
      ensures outcome == DroppedOldest <==> old(|queue|) == capacity
    {
      ghost var after := Next(capacity, Past(), Op.Push(item));
      PushKeepsOrder(capacity, Past(), item);
      if capacity >= 1 {
        NextIsLawful(capacity, Past(), Op.Push(item));
      }
      if |queue| == capacity {
        if |queue| > 0 {
          queue := queue[1..];
        }
        overflow := overflow + 1;
        outcome := DroppedOldest;
      } else {
        outcome := Accepted;
      }
      queue := queue + [item];
      pushed := pushed + [item];
      assert Past() == after;
    }

    /** One turn of the retry loops of both pops: the front item, or nothing yet. */
    method TryPop() returns (item: Option<T>)
      requires Valid()
      modifies this
      ensures Valid() && Past() == Next(capacity, old(Past()), Pop)
      ensures item == if old(queue) == [] then None else Some(old(queue)[0])
    {
      PopKeepsOrder(capacity, Past());
      if queue == [] {
        return None;
      }
      item := Some(queue[0]);
      delivered := delivered + [queue[0]];
      queue := queue[1..];
    }
  }
}
