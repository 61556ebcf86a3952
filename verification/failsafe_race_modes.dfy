/**
 Degraded Mode when recorders race the ticker. A sample that is written between the two halves of a tick
 is in time for that tick, and so for five evaluations; one written between ticks is counted by four.
 That decides how many samples above the threshold it takes to enter Degraded Mode.
 */
module FailSafeRaceModes {
  import opened Tasks
  import opened Histograms
  import opened FailSafe
  import opened FailSafeRuns
  import opened FailSafeSamples
  import FailSafeBounds
  import opened Races = FailSafeRaces

  // ---- Runs ----

  /**
   The race, with the samples written between ticks, the histogram being merged, the readings so far and
   the mode.
   */
  datatype Race = Race(base: State, rested: set<nat>, hist: Histogram, readings: seq<nat>, mode: Mode)

  const FIRST := Race(START, {}, multiset{}, [], Mode(false, 0))

  ghost function Step(jitter: Jitter, highest: nat, r: Race, a: Action): Race
    requires Enabled(r.base, a)
  {
    var base := Apply(r.base, a);
    match a
    case ReadIndex(_) => r.(base := base)
    case Write(x) => r.(base := base, rested := if r.base.ticker.Resting? then r.rested + {x} else r.rested)
    case Advance => r.(base := base, hist := multiset{})
    case ReadBucket => r.(base := base, hist := r.hist + Kept(jitter, highest, r.base.buckets[r.base.ticker.next]))
    case Report =>
      var p99 := P99(r.hist);
      r.(base := base, readings := r.readings + [p99], mode := Evaluate(r.mode, p99))
  }

  /** The race after the actions, if each of them is enabled when its turn comes. */
  ghost function Run(jitter: Jitter, highest: nat, actions: seq<Action>): Option<Race> {
    if actions == [] then Some(FIRST)
    else
      match Run(jitter, highest, actions[..|actions| - 1])
      case None => None
      case Some(r) =>
        var a := actions[|actions| - 1];
        if Enabled(r.base, a) then Some(Step(jitter, highest, r, a)) else None
  }

  // ---- What every step keeps ----

  /** What the ticker has merged, and each reading, is of exactly the samples counted. */
  ghost predicate ReadingsOk(jitter: Jitter, highest: nat, r: Race) {
    && |r.readings| == |r.base.log| && r.mode == Modes(r.readings)
    && (r.base.ticker.Merging? ==> r.hist == Kept(jitter, highest, r.base.ticker.merged))
    && forall e: nat :: e < |r.readings| ==> r.readings[e] == P99(Kept(jitter, highest, r.base.log[e]))
  }

  /** The samples merged so far are from the buckets read so far. */
  ghost predicate MergedOk(s: State) {
    s.ticker.Merging? ==> forall x :: x in s.ticker.merged ==> x in s.born && s.born[x] % RING_LEN < s.ticker.next
  }

  /** A sample written between ticks is not counted by the tick that emptied its bucket. */
  ghost predicate RestedOk(r: Race) {
    var ticker, born := r.base.ticker, r.base.born;
    && (forall x :: x in r.rested ==> x in born && born[x] + (if ticker.Merging? then 1 else 0) <= r.base.ticks)
    && (ticker.Merging? ==> forall x :: x in ticker.merged && x in r.rested ==> born[x] < r.base.ticks)
    && forall e: nat, x :: e < |r.base.log| && x in r.base.log[e] && x in r.rested ==> born[x] <= e
  }

  ghost predicate RaceInv(jitter: Jitter, highest: nat, r: Race) {
    Inv(r.base) && MergedOk(r.base) && ReadingsOk(jitter, highest, r) && RestedOk(r)
  }

  lemma SlotOfLastEmptied(i: nat, now: nat)
    requires i < RING_LEN
    ensures LastEmptied(i, now) % RING_LEN == i
  {
  }

  lemma UnreadBucket(s: State)
    requires Inv(s) && MergedOk(s) && s.ticker.Merging? && s.ticker.next < RING_LEN
    ensures s.ticker.merged !! s.buckets[s.ticker.next]
    ensures forall x :: x in s.buckets[s.ticker.next] ==> x in s.born && s.born[x] % RING_LEN == s.ticker.next
  {
    SlotOfLastEmptied(s.ticker.next, s.ticks);
  }

  lemma StepKeepsMerged(s: State, a: Action)
    requires Inv(s) && Enabled(s, a) && MergedOk(s)
    ensures MergedOk(Apply(s, a))
  {
    if a.ReadBucket? {
      UnreadBucket(s);
    }
  }

  lemma StepKeepsReadings(jitter: Jitter, highest: nat, r: Race, a: Action)
    requires Inv(r.base) && MergedOk(r.base) && Enabled(r.base, a) && ReadingsOk(jitter, highest, r)
    ensures ReadingsOk(jitter, highest, Step(jitter, highest, r, a))
  {
    match a
    case ReadBucket =>
      UnreadBucket(r.base);
      KeptUnion(jitter, highest, r.base.ticker.merged, r.base.buckets[r.base.ticker.next]);
    case Report => assert (r.readings + [P99(r.hist)])[..|r.readings|] == r.readings;
    case _ =>
  }

  lemma StepKeepsRested(jitter: Jitter, highest: nat, r: Race, a: Action)
    requires Inv(r.base) && Enabled(r.base, a) && RestedOk(r)
    ensures RestedOk(Step(jitter, highest, r, a))
  {
    match a
    case Write(x) => LastEmptiedMoves(r.base.pending[x], r.base.ticks);
    case _ =>
  }

  lemma {:induction false} AlwaysRaceInv(jitter: Jitter, highest: nat, actions: seq<Action>)
    requires Run(jitter, highest, actions).Some?
    ensures RaceInv(jitter, highest, Run(jitter, highest, actions).value)
  {
    if actions != [] {
      var r, a := Run(jitter, highest, actions[..|actions| - 1]).value, actions[|actions| - 1];
      AlwaysRaceInv(jitter, highest, actions[..|actions| - 1]);
      Preserved(r.base, a);
      StepKeepsMerged(r.base, a);
      StepKeepsReadings(jitter, highest, r, a);
      StepKeepsRested(jitter, highest, r, a);
    }
  }

  // ---- How often a sample is counted ----

  lemma CountedApart(r: Race, x: nat, y: nat, e: nat, f: nat)
    requires Inv(r.base) && RestedOk(r) && e <= f < |r.base.log| && x in r.base.log[e] && y in r.base.log[f]
    ensures f - e >= RING_LEN || (x in r.rested && f - e >= RING_LEN - 1) ==> x != y
    ensures x in r.base.born && y in r.base.born
  {
    assert CountsAt(r.base, x, e + 1) && CountsAt(r.base, y, f + 1);
  }

  /** A sample written between ticks is counted by at most four evaluations in a row. */
  lemma RestedWithinFour(jitter: Jitter, highest: nat, actions: seq<Action>, r: Race, x: nat, e: nat, f: nat)
    requires Run(jitter, highest, actions) == Some(r) && e <= f < |r.base.log|
    ensures x in r.rested && x in r.base.log[e] && x in r.base.log[f] ==> f - e < 4
  {
    AlwaysRaceInv(jitter, highest, actions);
    if x in r.rested && x in r.base.log[e] && x in r.base.log[f] {
      CountedApart(r, x, x, e, f);
    }
  }

  // ---- What a reading means ----

  /**
   Under every interleaving, an evaluation reads above 1.5 ms exactly when more than one in a hundred of
   the samples it counted, and the histogram could hold, is above 1.5 ms.
   */
  lemma HotReadingIff(jitter: Jitter, highest: nat, actions: seq<Action>, r: Race, e: nat)
    requires Run(jitter, highest, actions) == Some(r) && e < |r.readings|
    ensures e < |r.base.log|
    ensures r.readings[e] > 1_500_000 <==>
            |HotOnes(jitter, highest, r.base.log[e])| > |Countable(jitter, highest, r.base.log[e])| / 100
  {
    AlwaysRaceInv(jitter, highest, actions);
    KeptHotIff(jitter, highest, r.base.log[e]);
  }

  // ---- Entering ----

  /** The evaluation before evaluation number `n` turned the mode on. */
  ghost predicate EntersAt(r: Race, n: nat) {
    1 <= n <= |r.readings| && !DegradedAt(r.readings, n - 1) && DegradedAt(r.readings, n)
  }

  ghost predicate HasHot(jitter: Jitter, samples: set<nat>) {
    exists x :: x in samples && IsHot(jitter, x)
  }

  /** The ten evaluations before number `n` each counted a sample above the threshold. */
  ghost predicate TenHot(jitter: Jitter, log: seq<set<nat>>, n: nat) {
    10 <= n <= |log| && forall e: nat :: n - 10 <= e < n ==> HasHot(jitter, log[e])
  }

  lemma EnteringIsHot(jitter: Jitter, highest: nat, r: Race, n: nat)
    requires ReadingsOk(jitter, highest, r) && EntersAt(r, n)
    ensures TenHot(jitter, r.base.log, n)
  {
    GoesOnIff(r.readings, n);
    forall e: nat | n - 10 <= e < n ensures HasHot(jitter, r.base.log[e]) {
      assert HighAt(r.readings, e);
      KeptHotIff(jitter, highest, r.base.log[e]);
      assert HotOnes(jitter, highest, r.base.log[e]) != {};
      var x :| x in HotOnes(jitter, highest, r.base.log[e]);
    }
  }

  lemma HotAt(jitter: Jitter, log: seq<set<nat>>, n: nat, e: nat) returns (x: nat)
    requires TenHot(jitter, log, n) && n - 10 <= e < n
    ensures x in log[e] && IsHot(jitter, x)
  {
    x :| x in log[e] && IsHot(jitter, x);
  }

  lemma EnteringSamples(jitter: Jitter, r: Race, n: nat) returns (a: nat, b: nat, c: nat)
    requires Inv(r.base) && RestedOk(r) && TenHot(jitter, r.base.log, n)
    ensures a in r.base.born && b in r.base.born && c in r.base.born
    ensures IsHot(jitter, a) && IsHot(jitter, b) && IsHot(jitter, c)
    ensures a != b && ((c != a && c != b) || (a !in r.rested && b !in r.rested))
  {
    a := HotAt(jitter, r.base.log, n, n - 10);
    b := HotAt(jitter, r.base.log, n, n - 5);
    c := HotAt(jitter, r.base.log, n, n - 1);
    CountedApart(r, a, b, n - 10, n - 5);
    CountedApart(r, a, c, n - 10, n - 1);
    CountedApart(r, b, c, n - 5, n - 1);
    if a in r.rested && b == c {
      b := HotAt(jitter, r.base.log, n, n - 6);
      CountedApart(r, a, b, n - 10, n - 6);
      CountedApart(r, b, c, n - 6, n - 1);
    }
  }

  /**
   Under every interleaving, entering Degraded Mode takes three different samples above the threshold, or
   two that were both written between the halves of a tick.
   */
  lemma EnteringTakesSamples(
    jitter: Jitter, highest: nat, actions: seq<Action>, r: Race, n: nat) returns (a: nat, b: nat, c: nat)
    requires Run(jitter, highest, actions) == Some(r) && EntersAt(r, n)
    ensures a in r.base.born && b in r.base.born && c in r.base.born
    ensures IsHot(jitter, a) && IsHot(jitter, b) && IsHot(jitter, c)
    ensures a != b && ((c != a && c != b) || (a !in r.rested && b !in r.rested))
  {
    AlwaysRaceInv(jitter, highest, actions);
    EnteringIsHot(jitter, highest, r, n);
    a, b, c := EnteringSamples(jitter, r, n);
  }

  // ---- Building runs ----

  /** Every sample has the same jitter. */
  function Always(ns: nat): Jitter {
    _ => ns
  }

  ghost predicate AllHot(ns: nat, highest: nat) {
    ENTER_NS < ns <= HIGHEST_NS <= highest
  }

  lemma Then(jitter: Jitter, highest: nat, actions: seq<Action>, r: Race, a: Action)
    returns (longer: seq<Action>, r': Race)
    requires Run(jitter, highest, actions) == Some(r) && Enabled(r.base, a)
    ensures r' == Step(jitter, highest, r, a) && Run(jitter, highest, longer) == Some(r')
  {
    longer, r' := actions + [a], Step(jitter, highest, r, a);
    assert longer[..|longer| - 1] == actions;
  }

  lemma {:induction false} KeptOfHot(ns: nat, highest: nat, samples: set<nat>)
    requires AllHot(ns, highest)
    ensures forall v :: v in Kept(Always(ns), highest, samples) ==> v == ns
    ensures Kept(Always(ns), highest, samples) == multiset{} <==> samples == {}
  {
    if samples != {} {
      var x :| x in samples;
      KeptBut(Always(ns), highest, samples, x);
      KeptOfHot(ns, highest, samples - {x});
    }
  }

  lemma ReadingOfHot(ns: nat, h: Histogram)
    requires ns > ENTER_NS && forall v :: v in h ==> v == ns
    ensures if h == multiset{} then P99(h) == 0 else P99(h) > ENTER_NS
  {
    if h != multiset{} {
      FailSafeBounds.AllHotReading(h);
    }
  }

  /** Some bucket from number `lo` on holds a sample. */
  ghost predicate SomeFrom(buckets: seq<set<nat>>, lo: nat) {
    exists i: nat :: lo <= i < |buckets| && buckets[i] != {}
  }

  /** Nothing but the evaluations made so far has changed. */
  ghost predicate SameSamples(r: Race, r': Race) {
    && r'.rested == r.rested && r'.base.ticks == r.base.ticks && r'.base.buckets == r.base.buckets
    && r'.base.pending == r.base.pending && r'.base.born == r.base.born
  }

  /** The reading `p99` was taken and evaluated. */
  ghost predicate Evaluated(r: Race, r': Race, p99: nat) {
    r'.base.ticker.Resting? && r'.readings == r.readings + [p99] && r'.mode == Evaluate(r.mode, p99)
  }

  /** The merge has met a sample, or will. */
  ghost predicate Seen(r: Race)
    requires r.base.ticker.Merging?
  {
    r.hist != multiset{} || SomeFrom(r.base.buckets, r.base.ticker.next)
  }

  ghost predicate InMerge(ns: nat, r: Race) {
    && |r.base.buckets| == RING_LEN && r.base.ticker.Merging? && r.base.ticker.next <= RING_LEN
    && forall v :: v in r.hist ==> v == ns
  }

  lemma ReadNext(ns: nat, highest: nat, r: Race)
    requires AllHot(ns, highest) && InMerge(ns, r) && r.base.ticker.next < RING_LEN
    ensures var r' := Step(Always(ns), highest, r, ReadBucket);
            && InMerge(ns, r') && SameSamples(r, r') && (Seen(r') <==> Seen(r))
            && r'.base.ticker.next == r.base.ticker.next + 1 && r'.readings == r.readings && r'.mode == r.mode
  {
    var next := r.base.ticker.next;
    KeptOfHot(ns, highest, r.base.buckets[next]);
    assert SomeFrom(r.base.buckets, next) <==> r.base.buckets[next] != {} || SomeFrom(r.base.buckets, next + 1);
  }

  /** The ticker reads the rest of the buckets and reports. */
  lemma {:induction false} Finish(ns: nat, highest: nat, actions: seq<Action>, r: Race)
    returns (longer: seq<Action>, r': Race, p99: nat)
    requires AllHot(ns, highest) && Run(Always(ns), highest, actions) == Some(r) && InMerge(ns, r)
    ensures Run(Always(ns), highest, longer) == Some(r') && SameSamples(r, r') && Evaluated(r, r', p99)
    ensures if Seen(r) then p99 > ENTER_NS else p99 == 0
    decreases RING_LEN - r.base.ticker.next
  {
    if r.base.ticker.next == RING_LEN {
      p99 := P99(r.hist);
      ReadingOfHot(ns, r.hist);
      longer, r' := Then(Always(ns), highest, actions, r, Report);
    } else {
      ReadNext(ns, highest, r);
      longer, r' := Then(Always(ns), highest, actions, r, ReadBucket);
      longer, r', p99 := Finish(ns, highest, longer, r');
    }
  }

  /** The tick after `r` that nobody disturbs leads to `r'`. */
  ghost predicate Quiet(r: Race, r': Race, p99: nat)
    requires |r.base.buckets| == RING_LEN
  {
    && Evaluated(r, r', p99) && r'.base.ticks == r.base.ticks + 1
    && r'.base.buckets == r.base.buckets[(r.base.ticks + 1) % RING_LEN := {}]
    && r'.rested == r.rested && r'.base.pending == r.base.pending && r'.base.born == r.base.born
    && if SomeFrom(r'.base.buckets, 0) then p99 > ENTER_NS else p99 == 0
  }

  lemma AdvanceStep(jitter: Jitter, highest: nat, r: Race)
    requires r.base.ticker.Resting? && |r.base.buckets| == RING_LEN
    ensures Step(jitter, highest, r, Advance)
         == Race(State(r.base.ticks + 1, r.base.buckets[(r.base.ticks + 1) % RING_LEN := {}],
                       r.base.pending, Merging(0, {}), r.base.log, r.base.born),
                 r.rested, multiset{}, r.readings, r.mode)
  {
  }

  lemma QuietTick(ns: nat, highest: nat, actions: seq<Action>, r: Race)
    returns (longer: seq<Action>, r': Race, p99: nat)
    requires AllHot(ns, highest) && Run(Always(ns), highest, actions) == Some(r)
    requires r.base.ticker.Resting? && |r.base.buckets| == RING_LEN
    ensures Run(Always(ns), highest, longer) == Some(r') && Quiet(r, r', p99)
  {
    AdvanceStep(Always(ns), highest, r);
    longer, r' := Then(Always(ns), highest, actions, r, Advance);
    longer, r', p99 := Finish(ns, highest, longer, r');
  }

  /** The tick after `r`, with `x` written between its halves, leads to `r'`. */
  ghost predicate Raced(r: Race, r': Race, x: nat, p99: nat)
    requires |r.base.buckets| == RING_LEN
  {
    && Evaluated(r, r', p99) && p99 > ENTER_NS && r'.base.ticks == r.base.ticks + 1
    && r'.base.buckets == r.base.buckets[(r.base.ticks + 1) % RING_LEN := {x}]
    && r'.rested == r.rested && r'.base.pending == map[] && r'.base.born.Keys == r.base.born.Keys + {x}
  }

  /** `x` was written into the current bucket. */
  ghost predicate Wrote(r: Race, r': Race, x: nat)
    requires |r.base.buckets| == RING_LEN
  {
    && r'.base.ticks == r.base.ticks && r'.base.ticker == r.base.ticker
    && (var i := r.base.ticks % RING_LEN; r'.base.buckets == r.base.buckets[i := r.base.buckets[i] + {x}])
    && r'.base.pending == map[] && r'.base.born.Keys == r.base.born.Keys + {x}
    && r'.rested == (if r.base.ticker.Resting? then r.rested + {x} else r.rested)
    && r'.hist == r.hist && r'.readings == r.readings && r'.mode == r.mode
  }

  lemma WriteNow(jitter: Jitter, highest: nat, actions: seq<Action>, r: Race, x: nat)
    returns (longer: seq<Action>, r': Race)
    requires Run(jitter, highest, actions) == Some(r) && |r.base.buckets| == RING_LEN
    requires r.base.pending == map[] && x !in r.base.born
    ensures Run(jitter, highest, longer) == Some(r') && Wrote(r, r', x)
  {
    longer, r' := Then(jitter, highest, actions, r, ReadIndex(x));
    longer, r' := Then(jitter, highest, longer, r', Write(x));
  }

  lemma RacedTick(ns: nat, highest: nat, actions: seq<Action>, r: Race, x: nat)
    returns (longer: seq<Action>, r': Race, p99: nat)
    requires AllHot(ns, highest) && Run(Always(ns), highest, actions) == Some(r)
    requires r.base.ticker.Resting? && |r.base.buckets| == RING_LEN && r.base.pending == map[] && x !in r.base.born
    ensures Run(Always(ns), highest, longer) == Some(r') && Raced(r, r', x, p99)
  {
    AdvanceStep(Always(ns), highest, r);
    longer, r' := Then(Always(ns), highest, actions, r, Advance);
    longer, r' := WriteNow(Always(ns), highest, longer, r', x);
    assert r'.base.buckets[(r.base.ticks + 1) % RING_LEN] == {x} && SomeFrom(r'.base.buckets, 0);
    longer, r', p99 := Finish(ns, highest, longer, r');
  }

  // ---- Two samples that race are enough ----

  ghost predicate TwoSoFar(r: Race, k: nat) {
    && r.base.ticks == k && r.base.ticker.Resting? && r.base.pending == map[] && r.rested == {}
    && |r.base.buckets| == RING_LEN && r.base.buckets[1] != {}
    && r.base.born.Keys == (if k < 6 then {1} else {1, 2})
    && r.mode == Mode(false, k) && |r.readings| == k
  }

  lemma TwoQuiet(r: Race, r': Race, k: nat, p99: nat)
    requires 1 <= k <= 8 && k != 5 && TwoSoFar(r, k) && Quiet(r, r', p99)
    ensures TwoSoFar(r', k + 1)
  {
    assert r'.base.buckets[1] == r.base.buckets[1];
    assert SomeFrom(r'.base.buckets, 0);
  }

  lemma TwoRaced(r: Race, r': Race, p99: nat)
    requires |r.base.buckets| == RING_LEN
    requires (r == FIRST && Raced(r, r', 1, p99)) || (TwoSoFar(r, 5) && Raced(r, r', 2, p99))
    ensures TwoSoFar(r', if r == FIRST then 1 else 6)
  {
    assert r'.base.buckets[1] != {};
    assert r != FIRST ==> r'.base.born.Keys == {1, 2};
  }

  /** The first sample lands in the middle of tick 1, the second in the middle of tick 6. */
  lemma {:induction false} TwoTicks(ns: nat, highest: nat, k: nat) returns (actions: seq<Action>, r: Race)
    requires AllHot(ns, highest) && 1 <= k <= 9
    ensures Run(Always(ns), highest, actions) == Some(r) && TwoSoFar(r, k)
  {
    var p99;
    if k == 1 {
      assert Run(Always(ns), highest, []) == Some(FIRST);
      actions, r, p99 := RacedTick(ns, highest, [], FIRST, 1);
      TwoRaced(FIRST, r, p99);
    } else {
      var before;
      actions, before := TwoTicks(ns, highest, k - 1);
      if k == 6 {
        actions, r, p99 := RacedTick(ns, highest, actions, before, 2);
        TwoRaced(before, r, p99);
      } else {
        actions, r, p99 := QuietTick(ns, highest, actions, before);
        TwoQuiet(before, r, k - 1, p99);
      }
    }
  }

  lemma EntersNow(r: Race, r': Race, p99: nat)
    requires r.mode == Modes(r.readings) && r'.mode == Modes(r'.readings) && Evaluated(r, r', p99)
    requires r.mode == Mode(false, DWELL_TICKS - 1) && p99 > ENTER_NS
    ensures EntersAt(r', |r'.readings|)
  {
    var n := |r.readings|;
    assert r'.readings[..n] == r.readings && r'.readings[..n + 1] == r'.readings;
  }

  lemma ModeOfRun(jitter: Jitter, highest: nat, actions: seq<Action>, r: Race)
    requires Run(jitter, highest, actions) == Some(r)
    ensures r.mode == Modes(r.readings)
  {
    AlwaysRaceInv(jitter, highest, actions);
  }

  /** One more quiet tick, and the mode is on. */
  lemma LastTick(ns: nat, highest: nat, actions: seq<Action>, r: Race, i: nat)
    returns (longer: seq<Action>, r': Race)
    requires AllHot(ns, highest) && Run(Always(ns), highest, actions) == Some(r)
    requires r.base.ticker.Resting? && |r.base.buckets| == RING_LEN && r.mode == Mode(false, DWELL_TICKS - 1)
    requires i < RING_LEN && r.base.buckets[i] != {} && i != (r.base.ticks + 1) % RING_LEN
    ensures Run(Always(ns), highest, longer) == Some(r') && EntersAt(r', |r.readings| + 1)
    ensures r'.base.born == r.base.born && r'.rested == r.rested
  {
    var p99;
    ModeOfRun(Always(ns), highest, actions, r);
    longer, r', p99 := QuietTick(ns, highest, actions, r);
    assert r'.base.buckets[i] != {} && SomeFrom(r'.base.buckets, 0);
    ModeOfRun(Always(ns), highest, longer, r');
    EntersNow(r, r', p99);
  }

  /** Two samples above the threshold can trip it, if each races a tick. */
  lemma TwoRacesSuffice(ns: nat, highest: nat) returns (actions: seq<Action>, r: Race)
    requires AllHot(ns, highest)
    ensures Run(Always(ns), highest, actions) == Some(r) && EntersAt(r, 10)
    ensures r.base.born.Keys == {1, 2} && r.rested == {}
  {
    actions, r := TwoTicks(ns, highest, 9);
    actions, r := LastTick(ns, highest, actions, r, 1);
  }

  // ---- Three samples are enough without races ----

  /** The samples written by the end of tick `k`: one each after ticks 3, 7 and 11. */
  function Written(k: nat): set<nat> {
    if k < 3 then {} else if k < 7 then {3} else if k < 11 then {3, 7} else {3, 7, 11}
  }

  /** The bucket that the latest of them lies in. */
  function LatestSlot(k: nat): nat {
    if k < 7 then 3 else if k < 11 then 2 else 1
  }

  ghost predicate ThreeSoFar(r: Race, k: nat) {
    && r.base.ticks == k && r.base.ticker.Resting? && r.base.pending == map[] && |r.base.buckets| == RING_LEN
    && (if k < 3 then !SomeFrom(r.base.buckets, 0) else r.base.buckets[LatestSlot(k)] != {})
    && r.base.born.Keys == r.rested == Written(k)
    && r.mode == Mode(false, if k < 4 then 0 else k - 3) && |r.readings| == k
  }

  lemma ThreeQuiet(r: Race, r': Race, k: nat, p99: nat)
    requires k <= 11 && ThreeSoFar(r, k) && Quiet(r, r', p99)
    ensures |r'.base.buckets| == RING_LEN && r'.mode == Mode(false, if k < 3 then 0 else k - 2)
    ensures if k < 3 then !SomeFrom(r'.base.buckets, 0) else r'.base.buckets[LatestSlot(k)] != {}
    ensures k != 2 && k != 6 && k != 10 ==> ThreeSoFar(r', k + 1)
  {
    if k < 3 {
      assert forall i: nat :: i < RING_LEN ==> r.base.buckets[i] == {};
    } else {
      assert r'.base.buckets[LatestSlot(k)] == r.base.buckets[LatestSlot(k)];
      assert SomeFrom(r'.base.buckets, 0);
    }
  }

  lemma ThreeWrote(r: Race, quiet: Race, r': Race, k: nat, p99: nat)
    requires (k == 2 || k == 6 || k == 10) && ThreeSoFar(r, k) && Quiet(r, quiet, p99)
    requires |quiet.base.buckets| == RING_LEN && Wrote(quiet, r', k + 1)
    ensures ThreeSoFar(r', k + 1)
  {
    ThreeQuiet(r, quiet, k, p99);
    assert k + 1 in r'.base.buckets[LatestSlot(k + 1)];
    assert r'.base.born.Keys == Written(k + 1);
    assert r'.rested == Written(k + 1);
  }

  /** A tick, and then a sample. */
  lemma ThreeWrite(ns: nat, highest: nat, actions: seq<Action>, r: Race, k: nat)
    returns (longer: seq<Action>, r': Race)
    requires AllHot(ns, highest) && (k == 2 || k == 6 || k == 10)
    requires Run(Always(ns), highest, actions) == Some(r) && ThreeSoFar(r, k)
    ensures Run(Always(ns), highest, longer) == Some(r') && ThreeSoFar(r', k + 1)
  {
    var quiet, p99;
    longer, quiet, p99 := QuietTick(ns, highest, actions, r);
    assert k + 1 !in Written(k) && quiet.base.born.Keys == Written(k);
    longer, r' := WriteNow(Always(ns), highest, longer, quiet, k + 1);
    ThreeWrote(r, quiet, r', k, p99);
  }

  /** A sample is written at rest after ticks 3, 7 and 11. */
  lemma {:induction false} ThreeTicks(ns: nat, highest: nat, k: nat) returns (actions: seq<Action>, r: Race)
    requires AllHot(ns, highest) && k <= 12
    ensures Run(Always(ns), highest, actions) == Some(r) && ThreeSoFar(r, k)
  {
    if k == 0 {
      actions, r := [], FIRST;
    } else {
      var before;
      actions, before := ThreeTicks(ns, highest, k - 1);
      if k == 3 || k == 7 || k == 11 {
        actions, r := ThreeWrite(ns, highest, actions, before, k - 1);
      } else {
        var p99;
        actions, r, p99 := QuietTick(ns, highest, actions, before);
        ThreeQuiet(before, r, k - 1, p99);
      }
    }
  }

  /** Three samples above the threshold can trip it without any race. */
  lemma ThreeRestedSuffice(ns: nat, highest: nat) returns (actions: seq<Action>, r: Race)
    requires AllHot(ns, highest)
    ensures Run(Always(ns), highest, actions) == Some(r) && EntersAt(r, 13)
    ensures r.base.born.Keys == r.rested == {3, 7, 11}
  {
    actions, r := ThreeTicks(ns, highest, 12);
    actions, r := LastTick(ns, highest, actions, r, 1);
  }
}
