/** Waiting workers of the pool are woken in the order they began to wait. */
module AsyncWakes {
  import opened Tasks
  import opened AsyncPool
  import opened AsyncDrain

  /** How many waiters come before `w`. */
  function Place(waiters: seq<nat>, w: nat): nat {
    if waiters == [] || waiters[0] == w then 0 else 1 + Place(waiters[1..], w)
  }

  /** One action on the waiters: nothing, the first is woken, one gives up, or one joins at the end. */
  ghost predicate WaitStep(before: seq<nat>, after: seq<nat>) {
    || after == before
    || (before != [] && after == before[1..])
    || (exists v :: after == Without(before, v))
    || (exists v :: after == before + [v])
  }

  lemma DropWaitStep(s: Pool, w: nat, l: Lane, lane: Lane)
    requires w < |s.workers|
    ensures WaitStep(s.At(lane).waiters, DropFuture(s, w, l).At(lane).waiters)
    ensures l != lane ==> s.At(lane).waiters == DropFuture(s, w, l).At(lane).waiters
  {
  }

  lemma PollLaneWaitStep(s: Pool, w: nat, l: Lane, next: Control, lane: Lane)
    requires w < |s.workers|
    ensures WaitStep(s.At(lane).waiters, PollLane(s, w, l, next).At(lane).waiters)
  {
    if s.workers[w].At(l).Fresh? && s.At(l).Queue() != [] {
      DropWaitStep(Removed(s, w, l), w, l.Other(), lane);
    }
  }

  lemma ExitWaitStep(s: Pool, w: nat, lane: Lane)
    requires w < |s.workers|
    ensures WaitStep(s.At(lane).waiters, Exit(s, w).At(lane).waiters)
  {
    DropWaitStep(s, w, Hi, lane);
    DropWaitStep(DropFuture(s, w, Hi), w, Lo, lane);
  }

  lemma PollWaitStep(s: Pool, w: nat, lane: Lane)
    requires Inv(s) && Enabled(s, Poll(w))
    ensures WaitStep(s.At(lane).waiters, AfterPoll(s, w).At(lane).waiters)
  {
    var x := s.workers[w];
    match x.pc
    case Busy =>
    case Asleep => ExitWaitStep(s, w, lane);
    case PollHi => PollLaneWaitStep(s, w, Hi, PollLo, lane);
    case PollLo => PollLaneWaitStep(s, w, Lo, Asleep, lane);
  }

  lemma {:induction false} PlaceWithout(waiters: seq<nat>, v: nat, w: nat)
    requires w in waiters && v != w
    ensures Place(Without(waiters, v), w) <= Place(waiters, w)
  {
    if waiters[0] != v && waiters[0] != w {
      PlaceWithout(waiters[1..], v, w);
    }
  }

  lemma {:induction false} PlaceBefore(waiters: seq<nat>, v: nat, w: nat)
    requires w in waiters
    ensures Place(waiters + [v], w) == Place(waiters, w)
  {
    if waiters[0] != w {
      assert (waiters + [v])[1..] == waiters[1..] + [v];
      PlaceBefore(waiters[1..], v, w);
    }
  }

  /** Who goes on waiting does not lose its place. */
  lemma PlaceStep(before: seq<nat>, after: seq<nat>, w: nat)
    requires WaitStep(before, after) && w in before && w in after
    requires forall i, j :: 0 <= i < j < |before| ==> before[i] != before[j]
    ensures Place(after, w) <= Place(before, w)
  {
    if after != before && !(before != [] && after == before[1..]) {
      if v :| after == Without(before, v) {
        WithoutOk(before, v);
        PlaceWithout(before, v, w);
      } else {
        var v :| after == before + [v];
        PlaceBefore(before, v, w);
      }
    }
  }

  /** A push wakes the worker that waits longest, and nobody else. */
  lemma PushWakesFirst(s: Pool, lane: Lane, task: Task, l: Lane)
    requires Inv(s) && s.At(lane).waiters != []
    ensures var r, w := AfterPush(s, lane, task), s.At(lane).waiters[0];
            && r.At(l).waiters == (if l == lane then s.At(l).waiters[1..] else s.At(l).waiters)
            && w < |s.workers| == |r.workers| && r.workers[w].woken && r.workers[w].At(lane) == Notified
            && forall v :: 0 <= v < |s.workers| && v != w ==> r.workers[v] == s.workers[v]
  {
    assert s.At(lane).waiters[0] in s.At(lane).waiters;
    assert IsParked(s, s.At(lane).waiters[0], lane);
  }

  /** Whether an action is a push to the lane. */
  function Pushed(a: Action, lane: Lane): nat {
    if a.Push? && a.lane == lane then 1 else 0
  }

  function Pushes(actions: seq<Action>, lane: Lane): nat {
    if actions == [] then 0 else Pushes(actions[..|actions| - 1], lane) + Pushed(actions[|actions| - 1], lane)
  }

  lemma WaitsOn(s: Pool, a: Action, lane: Lane, w: nat)
    requires Inv(s) && Enabled(s, a) && w in s.At(lane).waiters && w in Apply(s, a).At(lane).waiters
    ensures Place(Apply(s, a).At(lane).waiters, w) + Pushed(a, lane) <= Place(s.At(lane).waiters, w)
  {
    var before, after := s.At(lane).waiters, Apply(s, a).At(lane).waiters;
    match a
    case Push(l, task) =>
      if s.At(l).waiters != [] {
        PushWakesFirst(s, l, task, lane);
      }
    case Poll(v) =>
      PollWaitStep(s, v, lane);
      PlaceStep(before, after, w);
    case Cancel =>
  }

  /** After the actions, `w` waits on the lane. */
  ghost predicate Waits(capacity: nat, n: nat, actions: seq<Action>, lane: Lane, w: nat) {
    Exec(capacity, n, actions).Some? && w in Exec(capacity, n, actions).value.At(lane).waiters
  }

  lemma {:induction false} PlaceDescends(
    capacity: nat, n: nat, actions: seq<Action>, more: seq<Action>, lane: Lane, w: nat, s: Pool, r: Pool)
    requires Exec(capacity, n, actions) == Some(s) && Exec(capacity, n, actions + more) == Some(r)
    requires forall k :: 0 <= k <= |more| ==> Waits(capacity, n, actions + more[..k], lane, w)
    ensures Place(r.At(lane).waiters, w) + Pushes(more, lane) <= Place(s.At(lane).waiters, w)
  {
    if more == [] {
      assert actions + more == actions;
    } else {
      var last := |more| - 1;
      var before := LastAction(capacity, n, actions, more);
      assert Waits(capacity, n, actions + more[..last], lane, w);
      assert more[..|more|] == more && Waits(capacity, n, actions + more[..|more|], lane, w);
      forall k | 0 <= k <= last ensures Waits(capacity, n, actions + more[..last][..k], lane, w) {
        assert more[..last][..k] == more[..k];
      }
      PlaceDescends(capacity, n, actions, more[..last], lane, w, s, before);
      WaitsOn(before, more[last], lane, w);
    }
  }

  lemma {:induction false} PlaceAt(waiters: seq<nat>, i: nat)
    requires i < |waiters|
    ensures Place(waiters, waiters[i]) <= i
  {
    if i > 0 {
      PlaceAt(waiters[1..], i - 1);
    }
  }

  /** A worker with `i` workers before it waits for at most `i + 1` pushes, whatever else happens. */
  lemma WokenInTurn(capacity: nat, n: nat, actions: seq<Action>, more: seq<Action>, lane: Lane, w: nat, i: nat)
    requires Exec(capacity, n, actions + more).Some? && Waits(capacity, n, actions, lane, w)
    requires i < |Exec(capacity, n, actions).value.At(lane).waiters|
    requires Exec(capacity, n, actions).value.At(lane).waiters[i] == w && Pushes(more, lane) > i
    ensures exists k :: 0 <= k <= |more| && !Waits(capacity, n, actions + more[..k], lane, w)
  {
    var s, r := Exec(capacity, n, actions).value, Exec(capacity, n, actions + more).value;
    PlaceAt(s.At(lane).waiters, i);
    if forall k :: 0 <= k <= |more| ==> Waits(capacity, n, actions + more[..k], lane, w) {
      PlaceDescends(capacity, n, actions, more, lane, w, s, r);
      assert false;
    }
  }
}
