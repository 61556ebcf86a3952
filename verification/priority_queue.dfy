/**
 The bounded queue of the threaded pipeline: a binary heap kept in place in an array, served in
 the order `Before`, whose overflow path takes the heap apart, removes the task that comes first in
 the other order `Worse`, and heapifies what is left.
 */
module PriorityQueues {
  import opened Tasks

  /** What one lock section of `pop_blocking` ends in. */
  datatype Poll = Cancelled | Got(task: Task) | Wait

  // ---- What the operations promise, on the multiset of queued tasks ----

  ghost predicate PushStep(capacity: nat, q: multiset<Task>, task: Task, q': multiset<Task>, outcome: PushOutcome) {
    if |q| < capacity then
      outcome == Accepted && q' == q + multiset{task}
    else
      outcome == DroppedOldest && exists victim :: IsWorst(victim, q) && q' == q - multiset{victim} + multiset{task}
  }

  ghost predicate PollStep(q: multiset<Task>, cancel: bool, q': multiset<Task>, result: Poll) {
    match result
    case Cancelled => cancel && q' == q
    case Wait => !cancel && q == multiset{} && q' == q
    case Got(task) => !cancel && IsFirst(task, q) && q' == q - multiset{task}
  }

  // ---- The heap ----

  function Parent(k: nat): (p: nat)
    requires k > 0
  {
    (k - 1) / 2
  }

  /** Element `k` is not served before its parent. */
  ghost predicate Settled(s: seq<Task>, k: nat)
    requires 0 < k < |s|
  {
    !Before(s[k], s[Parent(k)])
  }

  /** Element `k` is not served before its grandparent. */
  ghost predicate SettledTwice(s: seq<Task>, k: nat)
    requires 0 < k < |s| && 0 < Parent(k)
  {
    !Before(s[k], s[Parent(Parent(k))])
  }

  /** Every element whose parent is at `lo` or later is settled. */
  ghost predicate HeapFrom(s: seq<Task>, lo: nat) {
    forall k: nat {:trigger Settled(s, k)} :: 0 < k < |s| && lo <= Parent(k) ==> Settled(s, k)
  }

  /** `HeapFrom`, except that the element at `pos` may belong further from the root. */
  ghost predicate HeapBelow(s: seq<Task>, lo: nat, pos: nat) {
    && (forall k: nat {:trigger Settled(s, k)} :: 0 < k < |s| && lo <= Parent(k) && Parent(k) != pos ==> Settled(s, k))
    && (forall k: nat {:trigger SettledTwice(s, k)} ::
          0 < k < |s| && Parent(k) == pos && 0 < pos && lo <= Parent(pos) ==> SettledTwice(s, k))
  }

  /** A heap, except that the element at `pos` may belong nearer to the root. */
  ghost predicate HeapAbove(s: seq<Task>, pos: nat) {
    && (forall k: nat {:trigger Settled(s, k)} :: 0 < k < |s| && k != pos ==> Settled(s, k))
    && (forall k: nat {:trigger SettledTwice(s, k)} ::
          0 < k < |s| && Parent(k) == pos && 0 < pos ==> SettledTwice(s, k))
  }

  lemma {:induction false} RootIsFirst(s: seq<Task>, k: nat)
    requires HeapFrom(s, 0) && k < |s|
    ensures !Before(s[k], s[0])
  {
    if k > 0 {
      assert Settled(s, k);
      RootIsFirst(s, Parent(k));
    }
  }

  lemma RootServes(s: seq<Task>)
    requires HeapFrom(s, 0) && |s| > 0
    ensures IsFirst(s[0], multiset(s))
  {
    forall u | u in multiset(s) ensures !Before(u, s[0]) {
      var k: nat :| k < |s| && s[k] == u;
      RootIsFirst(s, k);
    }
  }

  ghost function Swapped(s: seq<Task>, i: nat, j: nat): (r: seq<Task>)
    requires i < |s| && j < |s|
    ensures |r| == |s| && multiset(r) == multiset(s)
  {
    s[i := s[j]][j := s[i]]
  }

  lemma SwapUp(s: seq<Task>, pos: nat)
    requires 0 < pos < |s| && HeapAbove(s, pos) && Before(s[pos], s[Parent(pos)])
    ensures HeapAbove(Swapped(s, pos, Parent(pos)), Parent(pos))
  {
    var p := Parent(pos);
    var r := Swapped(s, pos, p);
    forall k: nat | 0 < k < |r| && k != p ensures Settled(r, k) {
      if k != pos {
        assert Settled(s, k);
        if Parent(k) == pos {
          assert SettledTwice(s, k);
        }
      }
    }
    forall k: nat | 0 < k < |r| && Parent(k) == p && 0 < p ensures SettledTwice(r, k) {
      assert Settled(s, p);
      if k != pos {
        assert Settled(s, k);
      }
    }
  }

  /** No child of `pos` is served before the element at `child`. */
  ghost predicate IsFirstChild(s: seq<Task>, pos: nat, child: nat)
    requires child < |s|
  {
    forall k: nat {:trigger Parent(k)} :: pos < k < |s| && Parent(k) == pos ==> !Before(s[k], s[child])
  }

  lemma FirstChild(s: seq<Task>, pos: nat, child: nat)
    requires child < |s| && (child == 2 * pos + 1 || child == 2 * pos + 2)
    requires 2 * pos + 1 < |s| ==> !Before(s[2 * pos + 1], s[child])
    requires 2 * pos + 2 < |s| ==> !Before(s[2 * pos + 2], s[child])
    ensures Parent(child) == pos && IsFirstChild(s, pos, child)
  {
  }

  lemma SiftedDown(s: seq<Task>, lo: nat, pos: nat)
    requires lo <= pos < |s| && HeapBelow(s, lo, pos)
    requires IsFirstChild(s, pos, pos)
    ensures HeapFrom(s, lo)
  {
  }

  lemma SwapDown(s: seq<Task>, lo: nat, pos: nat, child: nat)
    requires lo <= pos < child < |s| && HeapBelow(s, lo, pos) && Parent(child) == pos
    requires Before(s[child], s[pos])
    requires IsFirstChild(s, pos, child)
    ensures HeapBelow(Swapped(s, pos, child), lo, child)
  {
    var r := Swapped(s, pos, child);
    forall k: nat | 0 < k < |r| && lo <= Parent(k) && Parent(k) != child ensures Settled(r, k) {
      if k == pos {
        assert SettledTwice(s, child);
      } else if Parent(k) != pos {
        assert Settled(s, k);
      }
    }
    forall k: nat | 0 < k < |r| && Parent(k) == child ensures SettledTwice(r, k) {
      assert Settled(s, k);
    }
  }

  lemma AppendLast(s: seq<Task>, task: Task)
    requires HeapFrom(s, 0)
    ensures HeapAbove(s + [task], |s|)
  {
    forall k: nat | 0 < k < |s| + 1 && k != |s| ensures Settled(s + [task], k) {
      assert Settled(s, k);
    }
  }

  lemma LastIntoContents(s: seq<Task>, k: nat)
    requires k < |s|
    ensures multiset(s[k := s[|s| - 1]][..|s| - 1]) == multiset(s) - multiset{s[k]}
  {
    var n := |s| - 1;
    if k == n {
      assert s == s[..n] + [s[n]] && s[n := s[n]][..n] == s[..n];
    } else {
      assert s == s[..k] + [s[k]] + s[k + 1..n] + [s[n]];
      assert s[k := s[n]][..n] == s[..k] + [s[n]] + s[k + 1..n];
    }
  }

  /** `s` without element `k`, whose place the last one takes. */
  ghost function LastInto(s: seq<Task>, k: nat): (r: seq<Task>)
    requires k < |s|
    ensures |r| == |s| - 1
    ensures multiset(r) == multiset(s) - multiset{s[k]}
  {
    LastIntoContents(s, k);
    s[k := s[|s| - 1]][..|s| - 1]
  }

  lemma ReplaceRoot(s: seq<Task>)
    requires |s| > 0 && HeapFrom(s, 0)
    ensures HeapFrom(LastInto(s, 0), 1)
  {
    var r := LastInto(s, 0);
    forall k: nat | 0 < k < |r| && 1 <= Parent(k) ensures Settled(r, k) {
      assert Settled(s, k);
    }
  }

  class PriorityQueue {
    const capacity: nat
    const data: array<Task>
    var len: nat
    var overflow: nat

    ghost predicate Valid()
      reads this, data
    {
      && 1 <= capacity == data.Length
      && len <= capacity
      && HeapFrom(data[..len], 0)
    }

    ghost function Contents(): multiset<Task>
      requires len <= data.Length
      reads this, data
    {
      multiset(data[..len])
    }

    constructor (capacity: nat)
      requires capacity >= 1
      ensures Valid() && fresh(data) && this.capacity == capacity
      ensures Contents() == multiset{} && overflow == 0
    {
      this.capacity := capacity;
      var blank := Task(OwnedEvent("", false, ""), Human, 0);
      data := new Task[capacity](_ => blank);
      len, overflow := 0, 0;
    }

    method Swap(i: nat, j: nat)
      requires i < len <= data.Length && j < len
      modifies data
      ensures data[..len] == Swapped(old(data[..len]), i, j)
    {
      data[i], data[j] := data[j], data[i];
    }

    /** Moves the last element towards the root until the heap is in order again. */
    method SiftUp(start: nat)
      requires start < len <= data.Length && HeapAbove(data[..len], start)
      modifies data
      ensures HeapFrom(data[..len], 0)
      ensures multiset(data[..len]) == old(multiset(data[..len]))
    {
      var pos: nat := start;
      while pos > 0 && Before(data[pos], data[Parent(pos)])
        invariant 0 <= pos < len && HeapAbove(data[..len], pos)
        invariant multiset(data[..len]) == old(multiset(data[..len]))
      {
        SwapUp(data[..len], pos);
        Swap(pos, Parent(pos));
        pos := Parent(pos);
      }
      assert pos > 0 ==> Settled(data[..len], pos);
    }

    /** The child that is served first. */
    method ChildOf(pos: nat) returns (child: nat)
      requires 2 * pos + 1 < len <= data.Length
      ensures pos < child < len && Parent(child) == pos && IsFirstChild(data[..len], pos, child)
    {
      child := 2 * pos + 1;
      if child + 1 < len && Before(data[child + 1], data[child]) {
        child := child + 1;
      }
      FirstChild(data[..len], pos, child);
    }

    /** Moves the element at `lo` away from the root until everything from `lo` on is in order. */
    method SiftDown(lo: nat)
      requires lo < len <= data.Length && HeapFrom(data[..len], lo + 1)
      modifies data
      ensures HeapFrom(data[..len], lo)
      ensures multiset(data[..len]) == old(multiset(data[..len]))
    {
      var pos: nat := lo;
      while 2 * pos + 1 < len
        invariant lo <= pos < len && HeapBelow(data[..len], lo, pos)
        invariant multiset(data[..len]) == old(multiset(data[..len]))
        decreases len - pos
      {
        var child := ChildOf(pos);
        ghost var s := data[..len];
        if !Before(data[child], data[pos]) {
          break;
        }
        SwapDown(s, lo, pos, child);
        Swap(pos, child);
        pos := child;
      }
      SiftedDown(data[..len], lo, pos);
    }

    /** Heapifies the first `len` elements, whatever their order. */
    method Rebuild()
      requires len <= data.Length
      modifies data
      ensures HeapFrom(data[..len], 0)
      ensures multiset(data[..len]) == old(multiset(data[..len]))
    {
      var n: nat := len / 2;
      while n > 0
        invariant 0 <= n <= len / 2 && HeapFrom(data[..len], n)
        invariant multiset(data[..len]) == old(multiset(data[..len]))
      {
        n := n - 1;
        SiftDown(n);
      }
    }

    /** The scan for the eviction maximum; among equals the last one wins. */
    method WorstIndex() returns (worst: nat)
      requires 0 < len <= data.Length
      ensures worst < len
      ensures forall k :: 0 <= k < len ==> !Worse(data[k], data[worst])
      ensures forall k :: worst < k < len ==> Worse(data[worst], data[k])
    {
      worst := 0;
      for i := 1 to len
        invariant worst < i
        invariant forall k :: 0 <= k < i ==> !Worse(data[k], data[worst])
        invariant forall k :: worst < k < i ==> Worse(data[worst], data[k])
      {
        if !Worse(data[worst], data[i]) {
          worst := i;
        }
      }
    }

    /** Replaces the element at `k` by the last one and shortens the list. */
    method SwapRemove(k: nat) returns (removed: Task)
      requires k < len <= data.Length
      modifies this`len, data
      ensures len == old(len) - 1
      ensures removed == old(data[k])
      ensures multiset(data[..len]) == old(multiset(data[..len])) - multiset{removed}
      ensures data[..len] == LastInto(old(data[..len]), k)
    {
      ghost var was := data[..len];
      removed := data[k];
      data[k] := data[len - 1];
      assert data[..len] == was[k := was[len - 1]];
      len := len - 1;
    }

    /** The overflow path: scan, `swap_remove`, heapify. */
    method EvictWorst() returns (ghost victim: Task)
      requires Valid() && len == capacity
      modifies this`len, data
      ensures Valid() && len == capacity - 1
      ensures IsWorst(victim, old(Contents())) && Contents() == old(Contents()) - multiset{victim}
    {
      var worst := WorstIndex();
      victim := data[worst];
      assert IsWorst(victim, Contents()) by {
        assert victim == data[..len][worst];
      }
      var _ := SwapRemove(worst);
      Rebuild();
    }

    /** The heap's own push: append, then sift up. */
    method Insert(task: Task)
      requires Valid() && len < capacity
      modifies this`len, data
      ensures Valid() && Contents() == old(Contents()) + multiset{task}
    {
      ghost var before := data[..len];
      data[len] := task;
      len := len + 1;
      AppendLast(before, task);
      assert data[..len] == before + [task];
      SiftUp(len - 1);
    }

    method Push(task: Task) returns (outcome: PushOutcome)
      requires Valid()
      modifies this`len, this`overflow, data
      ensures Valid()
      ensures PushStep(capacity, old(Contents()), task, Contents(), outcome)
      ensures overflow == old(overflow) + if outcome == DroppedOldest then 1 else 0
    {
      assert |Contents()| == len;
      outcome := Accepted;
      if len >= capacity {
        ghost var victim := EvictWorst();
        overflow := overflow + 1;
        outcome := DroppedOldest;
      }
      Insert(task);
    }

    /** One lock section of `pop_blocking`: the flag first, then the heap, else sleep. */
    method PollOnce(cancel: bool) returns (result: Poll)
      requires Valid()
      modifies this`len, data
      ensures Valid()
      ensures PollStep(old(Contents()), cancel, Contents(), result)
    {
      if cancel {
        return Cancelled;
      }
      if len == 0 {
        return Wait;
      }
      assert IsFirst(data[0], Contents()) by {
        RootServes(data[..len]);
      }
      ghost var before := data[..len];
      var task := SwapRemove(0);
      ReplaceRoot(before);
      if len > 0 {
        SiftDown(0);
      }
      result := Got(task);
    }
  }
}
