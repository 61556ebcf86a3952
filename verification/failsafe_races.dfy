/**
 Recorders racing the ticker. A recorder reads the index and writes the bucket in two steps; the
 ticker moves the index and empties the bucket in one, then reads the buckets one by one.
 */
module FailSafeRaces {
  import opened FailSafe
  import opened Tasks

  /** The ticker between two ticks, or in the middle of the merge. */
  datatype Ticker = Resting | Merging(next: nat, merged: set<nat>)

  /**
   Samples are numbers. `pending` holds the index each unwritten sample was given, `log` what each
   evaluation counted, and `born` the tick that last emptied a sample's bucket before it was written.
   */
  datatype State = State(
    ticks: nat, buckets: seq<set<nat>>, pending: map<nat, nat>, ticker: Ticker, log: seq<set<nat>>, born: map<nat, int>)

  datatype Action = ReadIndex(sample: nat) | Write(sample: nat) | Advance | ReadBucket | Report

  const START := State(0, [{}, {}, {}, {}, {}], map[], Resting, [], map[])

  predicate Enabled(s: State, a: Action) {
    match a
    case ReadIndex(sample) => sample !in s.pending && sample !in s.born
    case Write(sample) => sample in s.pending && s.pending[sample] < |s.buckets|
    case Advance => s.ticker.Resting? && |s.buckets| == RING_LEN
    case ReadBucket => s.ticker.Merging? && s.ticker.next < |s.buckets|
    case Report => s.ticker.Merging? && s.ticker.next == |s.buckets|
  }

  /** The last tick up to `now` that emptied bucket `i`. */
  function LastEmptied(i: int, now: int): int {
    now - (now - i) % RING_LEN
  }

  function Apply(s: State, a: Action): State
    requires Enabled(s, a)
  {
    match a
    case ReadIndex(sample) => s.(pending := s.pending[sample := s.ticks % RING_LEN])
    case Write(sample) =>
      var i := s.pending[sample];
      s.(pending := s.pending - {sample},
      buckets := s.buckets[i := s.buckets[i] + {sample}],
      born := s.born[sample := LastEmptied(i, s.ticks)])
    case Advance =>
      s.(ticks := s.ticks + 1,
      buckets := s.buckets[(s.ticks + 1) % RING_LEN := {}],
      ticker := Merging(0, {}))
    case ReadBucket => s.(ticker := Merging(s.ticker.next + 1, s.ticker.merged + s.buckets[s.ticker.next]))
    case Report => s.(ticker := Resting, log := s.log + [s.ticker.merged])
  }

  /** The state the actions lead to, if each of them is enabled when its turn comes. */
  function Exec(actions: seq<Action>): Option<State> {
    if actions == [] then Some(START)
    else
      match Exec(actions[..|actions| - 1])
      case None => None
      case Some(s) => if Enabled(s, actions[|actions| - 1]) then Some(Apply(s, actions[|actions| - 1])) else None
  }

  /** Evaluation number `e` belongs to tick `e + 1`, which is one of the five from `born` on. */
  ghost predicate CountsAt(s: State, sample: nat, tick: int) {
    sample in s.born && s.born[sample] <= tick < s.born[sample] + RING_LEN
  }

  ghost predicate Inv(s: State) {
    && |s.buckets| == RING_LEN
    && s.ticks == |s.log| + (if s.ticker.Merging? then 1 else 0)
    && (forall sample :: sample in s.pending ==> s.pending[sample] < RING_LEN && sample !in s.born)
    && (forall i, sample :: 0 <= i < RING_LEN && sample in s.buckets[i] ==>
                              sample in s.born && s.born[sample] == LastEmptied(i, s.ticks))
    && (s.ticker.Merging? ==> forall sample :: sample in s.ticker.merged ==> CountsAt(s, sample, s.ticks))
    && (forall e, sample :: 0 <= e < |s.log| && sample in s.log[e] ==> CountsAt(s, sample, e + 1))
  }

  lemma LastEmptiedMoves(i: nat, now: nat)
    requires i < RING_LEN
    ensures LastEmptied(i, now) <= now < LastEmptied(i, now) + RING_LEN
    ensures i != (now + 1) % RING_LEN ==> LastEmptied(i, now + 1) == LastEmptied(i, now)
  {
  }

  lemma Preserved(s: State, a: Action)
    requires Inv(s) && Enabled(s, a)
    ensures Inv(Apply(s, a))
  {
    var s' := Apply(s, a);
    match a
    case Advance =>
      forall i: nat, sample: nat | i < RING_LEN && sample in s'.buckets[i]
        ensures sample in s'.born && s'.born[sample] == LastEmptied(i, s'.ticks)
      {
        LastEmptiedMoves(i, s.ticks);
      }
    case ReadBucket =>
      LastEmptiedMoves(s.ticker.next, s.ticks);
      assert forall sample :: sample in s.buckets[s.ticker.next] ==> CountsAt(s, sample, s.ticks);
    case _ =>
  }

  lemma {:induction false} RunInv(actions: seq<Action>, s: State)
    requires Exec(actions) == Some(s)
    ensures Inv(s)
  {
    if actions != [] {
      var before := Exec(actions[..|actions| - 1]).value;
      RunInv(actions[..|actions| - 1], before);
      Preserved(before, actions[|actions| - 1]);
    }
  }

  /** However the race goes, the evaluations that count a sample lie within five in a row. */
  lemma CountedWithinFive(actions: seq<Action>, s: State, sample: nat, e: nat, f: nat)
    requires Exec(actions) == Some(s)
    requires e <= f < |s.log| && sample in s.log[e] && sample in s.log[f]
    ensures f - e < RING_LEN
  {
    RunInv(actions, s);
    assert CountsAt(s, sample, e + 1) && CountsAt(s, sample, f + 1);
  }

  // ---- What an evaluation counts ----

  /** Every sample is in its bucket, until that is emptied. */
  ghost predicate Present(s: State) {
    && |s.buckets| == RING_LEN
    && forall x :: x in s.born ==>
                     && s.born[x] <= s.ticks
                     && (s.ticks < s.born[x] + RING_LEN ==> x in s.buckets[s.born[x] % RING_LEN])
  }

  lemma LastEmptiedSlot(i: nat, now: nat)
    requires i < RING_LEN
    ensures LastEmptied(i, now) % RING_LEN == i
  {
  }

  lemma NotEmptied(born: int, now: nat)
    requires born <= now && now + 1 < born + RING_LEN
    ensures born % RING_LEN != (now + 1) % RING_LEN
  {
  }

  lemma AdvanceKeepsPresent(s: State)
    requires Present(s) && Enabled(s, Advance)
    ensures Present(Apply(s, Advance))
  {
    var r := Apply(s, Advance);
    forall x | x in r.born && r.ticks < r.born[x] + RING_LEN ensures x in r.buckets[r.born[x] % RING_LEN] {
      NotEmptied(s.born[x], s.ticks);
    }
  }

  lemma PresentKept(s: State, a: Action)
    requires Inv(s) && Present(s) && Enabled(s, a)
    ensures Present(Apply(s, a))
  {
    match a
    case Write(x) =>
      LastEmptiedSlot(s.pending[x], s.ticks);
      LastEmptiedMoves(s.pending[x], s.ticks);
    case Advance => AdvanceKeepsPresent(s);
    case _ =>
  }

  lemma {:induction false} RunPresent(actions: seq<Action>, s: State)
    requires Exec(actions) == Some(s)
    ensures Present(s)
  {
    if actions != [] {
      var before := Exec(actions[..|actions| - 1]).value;
      RunPresent(actions[..|actions| - 1], before);
      RunInv(actions[..|actions| - 1], before);
      PresentKept(before, actions[|actions| - 1]);
    }
  }

  /** `r` is later than `s`, in which a tick has just moved the index: what `s` holds is merged in its turn. */
  ghost predicate Merges(s: State, r: State) {
    && |r.buckets| == |s.buckets| && |r.log| >= |s.log|
    && (forall x :: x in s.born ==> x in r.born && r.born[x] == s.born[x])
    && if |r.log| == |s.log| then
         && r.ticker.Merging?
         && forall i :: 0 <= i < |s.buckets| ==>
                          s.buckets[i] <= r.buckets[i] && (i < r.ticker.next ==> s.buckets[i] <= r.ticker.merged)
       else
         forall i :: 0 <= i < |s.buckets| ==> s.buckets[i] <= r.log[|s.log|]
  }

  lemma MergesOn(s: State, r: State, a: Action)
    requires Inv(r) && Merges(s, r) && Enabled(r, a)
    ensures Merges(s, Apply(r, a))
  {
  }

  lemma {:induction false} MergeRuns(actions: seq<Action>, more: seq<Action>, s: State, r: State)
    requires Exec(actions) == Some(s) && s.ticker == Merging(0, {}) && Exec(actions + more) == Some(r)
    ensures Merges(s, r)
  {
    if more == [] {
      assert actions + more == actions;
    } else {
      var before := more[..|more| - 1];
      assert (actions + more)[..|actions + more| - 1] == actions + before;
      var q := Exec(actions + before).value;
      MergeRuns(actions, before, s, q);
      RunInv(actions + before, q);
      MergesOn(s, q, more[|more| - 1]);
    }
  }

  /**
   However the race goes, of the samples written before a tick, its evaluation counts exactly those whose
   bucket was last emptied less than five ticks ago.
   */
  lemma CountedIff(actions: seq<Action>, more: seq<Action>, s: State, r: State, sample: nat)
    requires Exec(actions) == Some(s) && s.ticker == Merging(0, {})
    requires Exec(actions + more) == Some(r) && |r.log| > |s.log| && sample in s.born
    ensures sample in r.log[|s.log|] <==> s.ticks < s.born[sample] + 5
  {
    RunInv(actions, s);
    RunPresent(actions, s);
    RunInv(actions + more, r);
    MergeRuns(actions, more, s, r);
    if sample in r.log[|s.log|] {
      assert CountsAt(r, sample, |s.log| + 1);
    } else {
      assert sample !in s.buckets[s.born[sample] % RING_LEN];
    }
  }

  // ---- Five can happen ----

  lemma Then(actions: seq<Action>, s: State, a: Action) returns (longer: seq<Action>, s': State)
    requires Exec(actions) == Some(s) && Enabled(s, a)
    ensures s' == Apply(s, a) && Exec(longer) == Some(s')
  {
    s' := Apply(s, a);
    longer := actions + [a];
    assert longer[..|longer| - 1] == actions;
  }

  /** The ticker reads all buckets undisturbed and reports. */
  lemma {:induction false} Merge(actions: seq<Action>, s: State, i: nat, sample: nat)
    returns (longer: seq<Action>, s': State)
    requires Exec(actions) == Some(s) && |s.buckets| == RING_LEN && s.ticker.Merging? && s.ticker.next <= RING_LEN
    requires i < RING_LEN && sample in s.buckets[i]
    requires s.ticker.next > i ==> sample in s.ticker.merged
    ensures Exec(longer) == Some(s') && |s'.buckets| == RING_LEN && s'.ticker.Resting?
    ensures s'.ticks == s.ticks && s'.buckets == s.buckets
    ensures |s'.log| == |s.log| + 1 && s'.log[..|s.log|] == s.log && sample in s'.log[|s.log|]
    decreases RING_LEN - s.ticker.next
  {
    if s.ticker.next == RING_LEN {
      longer, s' := Then(actions, s, Report);
    } else {
      longer, s' := Then(actions, s, ReadBucket);
      longer, s' := Merge(longer, s', i, sample);
    }
  }

  /** A sample written between the tick's two halves is in time for its evaluation. */
  lemma CountedOnce() returns (actions: seq<Action>, s: State)
    ensures Exec(actions) == Some(s) && |s.buckets| == RING_LEN && s.ticker.Resting? && s.ticks == 1 == |s.log|
    ensures 7 in s.buckets[1] && 7 in s.log[0]
  {
    actions, s := Then([], START, Advance);
    assert s.ticks == 1 && s.buckets[1] == {} && s.ticker == Merging(0, {});
    actions, s := Then(actions, s, ReadIndex(7));
    assert s.pending[7] == 1;
    actions, s := Then(actions, s, Write(7));
    assert 7 in s.buckets[1];
    actions, s := Merge(actions, s, 1, 7);
  }

  lemma CountedAgain(actions: seq<Action>, s: State) returns (longer: seq<Action>, s': State)
    requires Exec(actions) == Some(s) && |s.buckets| == RING_LEN && s.ticker.Resting?
    requires 7 in s.buckets[1] && 1 <= s.ticks < RING_LEN
    ensures Exec(longer) == Some(s') && |s'.buckets| == RING_LEN && s'.ticker.Resting? && s'.ticks == s.ticks + 1
    ensures 7 in s'.buckets[1] && |s'.log| == |s.log| + 1 && s'.log[..|s.log|] == s.log && 7 in s'.log[|s.log|]
  {
    longer, s' := Then(actions, s, Advance);
    assert s'.buckets[1] == s.buckets[1];
    longer, s' := Merge(longer, s', 1, 7);
  }

  lemma {:induction false} CountedTimes(n: nat) returns (actions: seq<Action>, s: State)
    requires 1 <= n <= RING_LEN
    ensures Exec(actions) == Some(s) && |s.buckets| == RING_LEN && s.ticker.Resting?
    ensures s.ticks == n == |s.log| && 7 in s.buckets[1]
    ensures forall e :: 0 <= e < n ==> 7 in s.log[e]
  {
    if n == 1 {
      actions, s := CountedOnce();
    } else {
      actions, s := CountedTimes(n - 1);
      var log := s.log;
      actions, s := CountedAgain(actions, s);
      assert forall e :: 0 <= e < n - 1 ==> s.log[e] == log[e];
    }
  }

  /** The bound is exact: some race counts a sample five times. */
  lemma FiveIsExact()
    ensures exists actions: seq<Action>, s: State ::
              Exec(actions) == Some(s) && |s.log| == RING_LEN && forall e :: 0 <= e < RING_LEN ==> 7 in s.log[e]
  {
    var actions, s := CountedTimes(RING_LEN);
  }
}
