/**
 How much jitter it takes to enter Degraded Mode, and how long recovery takes at most, when samples are
 recorded between ticks. What recorders that race the ticker change is in `FailSafeRaceModes`.
 */
module FailSafeBounds {
  import opened Histograms
  import opened FailSafe
  import opened FailSafeRuns

  // ---- Entering ----

  /** More than one in a hundred of the samples a window keeps are above the entry threshold. */
  ghost predicate HotWindow(highest: nat, epochs: seq<Epoch>, n: nat)
    requires n <= |epochs|
  {
    var kept := LastFour(highest, epochs, n);
    CountAbove(kept, 1_500_000) > |kept| / 100
  }

  ghost predicate Enters(highest: nat, epochs: seq<Epoch>) {
    && epochs != []
    && !After(highest, epochs[..|epochs| - 1]).mode.degraded
    && After(highest, epochs).mode.degraded
  }

  ghost predicate NormalSince(highest: nat, epochs: seq<Epoch>, lo: int) {
    forall k: nat :: lo <= k < |epochs| ==> !After(highest, epochs[..k]).mode.degraded
  }

  ghost predicate HotSince(highest: nat, epochs: seq<Epoch>, lo: int) {
    forall k: nat :: lo < k <= |epochs| ==> HotWindow(highest, epochs, k)
  }

  lemma ReadingsAt(highest: nat, epochs: seq<Epoch>, k: nat)
    requires k <= |epochs|
    ensures Readings(highest, epochs[..k]) == Readings(highest, epochs)[..k]
  {
    forall i: nat | i < k ensures Readings(highest, epochs[..k])[i] == Readings(highest, epochs)[i] {
      CoversPrefix(highest, epochs[..k], epochs, if i + 1 < 4 then 0 else i - 3, i + 1);
    }
  }

  lemma ModeAt(highest: nat, epochs: seq<Epoch>, k: nat)
    requires k <= |epochs|
    ensures After(highest, epochs[..k]).mode.degraded == DegradedAt(Readings(highest, epochs), k)
  {
    ModeFromReadings(highest, epochs[..k]);
    ReadingsAt(highest, epochs, k);
  }

  lemma OpposesNormal(highest: nat, epochs: seq<Epoch>, k: nat)
    requires k < |epochs|
    ensures Opposes(Readings(highest, epochs), k, false) <==>
            !After(highest, epochs[..k]).mode.degraded && HotWindow(highest, epochs, k + 1)
  {
    ModeAt(highest, epochs, k);
    P99ExceedsIff(LastFour(highest, epochs, k + 1), ENTER_NS);
  }

  lemma OppositionIsHot(highest: nat, epochs: seq<Epoch>, lo: nat)
    ensures OpposedSince(Readings(highest, epochs), lo, |epochs|, false) <==>
            NormalSince(highest, epochs, lo) && HotSince(highest, epochs, lo)
  {
    var rs, n := Readings(highest, epochs), |epochs|;
    if OpposedSince(rs, lo, n, false) {
      forall k: nat | lo <= k < n ensures !After(highest, epochs[..k]).mode.degraded {
        OpposedAt(rs, lo, n, false, k);
        OpposesNormal(highest, epochs, k);
      }
      forall k: nat | lo < k <= n ensures HotWindow(highest, epochs, k) {
        OpposedAt(rs, lo, n, false, k - 1);
        OpposesNormal(highest, epochs, k - 1);
      }
    }
    if NormalSince(highest, epochs, lo) && HotSince(highest, epochs, lo) {
      forall k: nat | lo <= k < n ensures Opposes(rs, k, false) {
        OpposesNormal(highest, epochs, k);
      }
    }
  }

  lemma EntersIsFlip(highest: nat, epochs: seq<Epoch>)
    requires epochs != []
    ensures var rs, n := Readings(highest, epochs), |epochs|;
            Enters(highest, epochs) <==> !DegradedAt(rs, n - 1) && DegradedAt(rs, n)
  {
    ModeAt(highest, epochs, |epochs|);
    ModeAt(highest, epochs, |epochs| - 1);
    assert epochs[..|epochs|] == epochs;
  }

  lemma EnterFlipIff(readings: seq<nat>, n: nat)
    requires 1 <= n <= |readings|
    ensures !DegradedAt(readings, n - 1) && DegradedAt(readings, n) <==>
            n >= 10 && OpposedSince(readings, n - 10, n, false)
  {
    FlipIff(readings, n);
    if n >= 10 && OpposedSince(readings, n - 10, n, false) {
      OpposedAt(readings, n - 10, n, false, n - 1);
    }
  }

  lemma EntersIsOpposed(highest: nat, epochs: seq<Epoch>)
    ensures Enters(highest, epochs) <==>
            |epochs| >= 10
            && OpposedSince(Readings(highest, epochs), |epochs| - 10, |epochs|, false)
  {
    if epochs != [] {
      EntersIsFlip(highest, epochs);
      EnterFlipIff(Readings(highest, epochs), |epochs|);
    }
  }

  /**
   Run sequentially, a tick enters Degraded Mode exactly when the mode has been normal for ten ticks and each of their
   four-epoch windows holds more than one percent of samples above 1.5 ms.
   */
  lemma EntersIff(highest: nat, epochs: seq<Epoch>)
    ensures Enters(highest, epochs) <==>
            && |epochs| >= 10
            && NormalSince(highest, epochs, |epochs| - 10)
            && HotSince(highest, epochs, |epochs| - 10)
  {
    EntersIsOpposed(highest, epochs);
    if |epochs| >= 10 {
      OppositionIsHot(highest, epochs, |epochs| - 10);
    }
  }

  /** An epoch with a sample above the entry threshold. */
  ghost predicate Hot(epoch: Epoch) {
    exists i :: 0 <= i < |epoch| && epoch[i] > 1_500_000
  }

  lemma {:induction false} RecordedFrom(highest: nat, samples: Epoch, x: nat)
    requires x in Recorded(highest, samples)
    ensures exists i :: 0 <= i < |samples| && Clamp(samples[i]) == x
  {
    var before := samples[..|samples| - 1];
    if x in Recorded(highest, before) {
      RecordedFrom(highest, before, x);
      var i :| 0 <= i < |before| && Clamp(before[i]) == x;
      assert Clamp(samples[i]) == x;
    } else {
      assert Clamp(samples[|samples| - 1]) == x;
    }
  }

  lemma {:induction false} CoversFrom(highest: nat, epochs: seq<Epoch>, lo: nat, hi: nat, x: nat) returns (k: nat)
    requires hi <= |epochs| && x in Covers(highest, epochs, lo, hi)
    ensures lo <= k < hi && x in Recorded(highest, epochs[k])
  {
    if x in Recorded(highest, epochs[hi - 1]) {
      k := hi - 1;
    } else {
      k := CoversFrom(highest, epochs, lo, hi - 1, x);
    }
  }

  lemma HotWindowHasHotEpoch(highest: nat, epochs: seq<Epoch>, n: nat) returns (k: nat)
    requires n <= |epochs| && HotWindow(highest, epochs, n)
    ensures n - 4 <= k < n && Hot(epochs[k])
  {
    var kept := LastFour(highest, epochs, n);
    AboveIsRecorded(kept, ENTER_NS);
    var x: nat :| x in kept && x > ENTER_NS;
    k := CoversFrom(highest, epochs, if n < 4 then 0 else n - 4, n, x);
    RecordedFrom(highest, epochs[k], x);
  }

  /**
   Run sequentially, entering takes hot samples in three different epochs of the last thirteen: no burst
   within two epochs trips it.
   */
  lemma EnteringTakesThreeEpochs(highest: nat, epochs: seq<Epoch>) returns (a: nat, b: nat, c: nat)
    requires Enters(highest, epochs)
    ensures |epochs| - 13 <= a < b < c < |epochs|
    ensures Hot(epochs[a]) && Hot(epochs[b]) && Hot(epochs[c])
  {
    EntersIff(highest, epochs);
    var n := |epochs|;
    a := HotWindowHasHotEpoch(highest, epochs, n - 9);
    b := HotWindowHasHotEpoch(highest, epochs, n - 5);
    c := HotWindowHasHotEpoch(highest, epochs, n - 1);
  }

  /** As long as no duration exceeds 1.5 ms, the mode is normal. */
  lemma {:induction false} QuietStaysNormal(highest: nat, epochs: seq<Epoch>)
    requires forall k, i :: 0 <= k < |epochs| && 0 <= i < |epochs[k]| ==> epochs[k][i] <= 1_500_000
    ensures !After(highest, epochs).mode.degraded
  {
    if epochs != [] {
      QuietStaysNormal(highest, epochs[..|epochs| - 1]);
      if Enters(highest, epochs) {
        var a, b, c := EnteringTakesThreeEpochs(highest, epochs);
      }
    }
  }

  // ---- Leaving ----

  /** At most one in a hundred of the samples a window keeps is 0.8 ms or more. */
  ghost predicate CoolWindow(highest: nat, epochs: seq<Epoch>, n: nat)
    requires n <= |epochs|
  {
    var kept := LastFour(highest, epochs, n);
    CountAbove(kept, 799_999) <= |kept| / 100
  }

  ghost predicate Leaves(highest: nat, epochs: seq<Epoch>) {
    && epochs != []
    && After(highest, epochs[..|epochs| - 1]).mode.degraded
    && !After(highest, epochs).mode.degraded
  }

  ghost predicate DegradedSince(highest: nat, epochs: seq<Epoch>, lo: int) {
    forall k: nat :: lo <= k < |epochs| ==> After(highest, epochs[..k]).mode.degraded
  }

  ghost predicate CoolSince(highest: nat, epochs: seq<Epoch>, lo: int) {
    forall k: nat :: lo < k <= |epochs| ==> CoolWindow(highest, epochs, k)
  }

  lemma LowMeans(highest: nat, epochs: seq<Epoch>, k: nat)
    requires k < |epochs|
    ensures var rs := Readings(highest, epochs);
            LowAt(rs, k) <==>
            After(highest, epochs[..k]).mode.degraded && CoolWindow(highest, epochs, k + 1)
  {
    ModeAt(highest, epochs, k);
    P99BelowIff(LastFour(highest, epochs, k + 1), 800_000);
  }

  lemma LowIsCool(highest: nat, epochs: seq<Epoch>, lo: nat)
    ensures LowSince(Readings(highest, epochs), lo, |epochs|) <==>
            DegradedSince(highest, epochs, lo) && CoolSince(highest, epochs, lo)
  {
    var rs, n := Readings(highest, epochs), |epochs|;
    if LowSince(rs, lo, n) {
      forall k: nat | lo <= k < n ensures After(highest, epochs[..k]).mode.degraded {
        LowMeans(highest, epochs, k);
      }
      forall k: nat | lo < k <= n ensures CoolWindow(highest, epochs, k) {
        LowMeans(highest, epochs, k - 1);
      }
    }
    if DegradedSince(highest, epochs, lo) && CoolSince(highest, epochs, lo) {
      forall k: nat | lo <= k < n ensures LowAt(rs, k) {
        LowMeans(highest, epochs, k);
      }
    }
  }

  lemma LeavesIsFlip(highest: nat, epochs: seq<Epoch>)
    requires epochs != []
    ensures var rs, n := Readings(highest, epochs), |epochs|;
            Leaves(highest, epochs) <==> DegradedAt(rs, n - 1) && !DegradedAt(rs, n)
  {
    ModeAt(highest, epochs, |epochs|);
    ModeAt(highest, epochs, |epochs| - 1);
    assert epochs[..|epochs|] == epochs;
  }

  lemma LeavesIsLow(highest: nat, epochs: seq<Epoch>)
    ensures Leaves(highest, epochs) <==>
            |epochs| >= 10 && LowSince(Readings(highest, epochs), |epochs| - 10, |epochs|)
  {
    if epochs != [] {
      LeavesIsFlip(highest, epochs);
      GoesOffIff(Readings(highest, epochs), |epochs|);
    }
  }

  /**
   Run sequentially, a tick leaves Degraded Mode exactly when the mode has been degraded for ten ticks and
   each of their four-epoch windows holds at most one percent of samples of 0.8 ms or more.
   */
  lemma LeavesIff(highest: nat, epochs: seq<Epoch>)
    ensures Leaves(highest, epochs) <==>
            && |epochs| >= 10
            && DegradedSince(highest, epochs, |epochs| - 10)
            && CoolSince(highest, epochs, |epochs| - 10)
  {
    LeavesIsLow(highest, epochs);
    if |epochs| >= 10 {
      LowIsCool(highest, epochs, |epochs| - 10);
    }
  }

  /** No duration of an epoch reaches 0.8 ms. */
  ghost predicate Calm(epoch: Epoch) {
    forall i :: 0 <= i < |epoch| ==> epoch[i] < 800_000
  }

  lemma CalmReading(highest: nat, epochs: seq<Epoch>, p: nat, n: nat)
    requires p + 4 <= n <= |epochs| && forall k :: p <= k < |epochs| ==> Calm(epochs[k])
    ensures P99(LastFour(highest, epochs, n)) < 800_000
  {
    var kept := LastFour(highest, epochs, n);
    P99BelowIff(kept, 800_000);
    forall x | x in kept ensures x < 800_000 {
      var k := CoversFrom(highest, epochs, n - 4, n, x);
      RecordedFrom(highest, epochs[k], x);
      assert Calm(epochs[k]);
    }
    if CountAbove(kept, 799_999) > 0 {
      AboveIsRecorded(kept, 799_999);
    }
  }

  /** Once every duration stays below 0.8 ms, the mode is normal from the thirteenth such epoch on. */
  lemma CalmRecovers(highest: nat, epochs: seq<Epoch>, p: nat)
    requires p + 13 <= |epochs| && forall k :: p <= k < |epochs| ==> Calm(epochs[k])
    ensures !After(highest, epochs).mode.degraded
  {
    var rs := Readings(highest, epochs);
    forall k: nat | p + 3 <= k < |rs| ensures rs[k] < 800_000 {
      CalmReading(highest, epochs, p, k + 1);
    }
    TenLowAreEnough(rs, p + 3);
    ModeAt(highest, epochs, |epochs|);
    assert epochs[..|epochs|] == epochs;
  }

  // ---- Three epochs are enough ----

  /** Every epoch is silent or has the one sample `ns`. */
  ghost predicate OnlyOf(epochs: seq<Epoch>, ns: nat) {
    forall k :: 0 <= k < |epochs| ==> epochs[k] == [ns] || epochs[k] == []
  }

  lemma {:induction false} CoversKeeps(highest: nat, epochs: seq<Epoch>, lo: nat, hi: nat, k: nat, x: nat)
    requires lo <= k < hi <= |epochs| && x in Recorded(highest, epochs[k])
    ensures x in Covers(highest, epochs, lo, hi)
  {
    if k < hi - 1 {
      CoversKeeps(highest, epochs, lo, hi - 1, k, x);
    }
  }

  lemma AllHotReading(h: Histogram)
    requires |h| > 0 && forall x :: x in h ==> x > ENTER_NS
    ensures P99(h) > ENTER_NS
  {
  }

  ghost predicate HeardBy(epochs: seq<Epoch>, ns: nat, n: nat)
    requires n <= |epochs|
  {
    exists k: nat :: n - 4 <= k < n && epochs[k] == [ns]
  }

  /** With one hot value, a reading is above the threshold while an epoch in view has it, and else zero. */
  lemma SingleReading(highest: nat, epochs: seq<Epoch>, ns: nat, n: nat)
    requires highest >= HIGHEST_NS && ENTER_NS < ns <= HIGHEST_NS && OnlyOf(epochs, ns) && n <= |epochs|
    ensures if HeardBy(epochs, ns, n) then P99(LastFour(highest, epochs, n)) > ENTER_NS
            else P99(LastFour(highest, epochs, n)) == 0
  {
    var kept, lo: nat := LastFour(highest, epochs, n), if n < 4 then 0 else n - 4;
    forall x | x in kept ensures x == ns && HeardBy(epochs, ns, n) {
      var k := CoversFrom(highest, epochs, lo, n, x);
      RecordedFrom(highest, epochs[k], x);
      assert epochs[k] == [ns];
    }
    if k: nat :| n - 4 <= k < n && epochs[k] == [ns] {
      assert [ns][..0] == [];
      assert ns in Recorded(highest, epochs[k]);
      CoversKeeps(highest, epochs, lo, n, k, ns);
      AllHotReading(kept);
    } else {
      assert kept == multiset{};
    }
  }

  /** Thirteen epochs, with a single sample of `ns` in numbers 3, 7 and 11. */
  function Sparse(ns: nat): seq<Epoch> {
    seq(13, k => if k % 4 == 3 then [ns] else [])
  }

  lemma SparseHeard(ns: nat, n: nat)
    requires n <= 13
    ensures HeardBy(Sparse(ns), ns, n) <==> n >= 4
  {
    if n >= 4 {
      var k := n - 1 - n % 4;
      assert k % 4 == 3 && Sparse(ns)[k] == [ns];
    }
  }

  lemma SparseReading(highest: nat, ns: nat, n: nat)
    requires highest >= HIGHEST_NS && ENTER_NS < ns <= HIGHEST_NS && 1 <= n <= 13
    ensures var rs := Readings(highest, Sparse(ns)); if n >= 4 then rs[n - 1] > ENTER_NS else rs[n - 1] == 0
    ensures var rs := Readings(highest, Sparse(ns)); Modes(rs[..n]) == Evaluate(Modes(rs[..n - 1]), rs[n - 1])
  {
    SparseHeard(ns, n);
    SingleReading(highest, Sparse(ns), ns, n);
    ModesNext(Readings(highest, Sparse(ns)), n);
  }

  lemma {:induction false} SparseMode(highest: nat, ns: nat, n: nat)
    requires highest >= HIGHEST_NS && ENTER_NS < ns <= HIGHEST_NS && n <= 13
    ensures Modes(Readings(highest, Sparse(ns))[..n])
         == if n < 4 then Mode(false, 0) else if n < 13 then Mode(false, n - 3) else Mode(true, 0)
  {
    if n > 0 {
      SparseMode(highest, ns, n - 1);
      SparseReading(highest, ns, n);
    }
  }

  /** Three samples in thirteen epochs can trip it, so the bound of three epochs is exact for sequential runs. */
  lemma ThreeEpochsSuffice(highest: nat, ns: nat)
    requires highest >= HIGHEST_NS && ENTER_NS < ns <= HIGHEST_NS
    ensures After(highest, Sparse(ns)).mode.degraded
  {
    SparseMode(highest, ns, 13);
    ModeAt(highest, Sparse(ns), 13);
    assert Sparse(ns)[..13] == Sparse(ns);
  }

  // ---- Recovering ----

  /** The controller after `m` ticks with nothing recorded between them. */
  ghost function Idle(c: Control, m: nat): (r: Control)
    requires |c.window.buckets| == RING_LEN && c.window.idx < RING_LEN
    ensures |r.window.buckets| == RING_LEN && r.window.idx < RING_LEN
  {
    if m == 0 then c else Tick(Idle(c, m - 1))
  }

  ghost predicate Sound(c: Control) {
    |c.window.buckets| == RING_LEN && c.window.idx < RING_LEN && c.mode.dwell < 10
  }

  lemma AdvanceShifts(w: Window, back: nat)
    requires |w.buckets| == RING_LEN && w.idx < RING_LEN && back < RING_LEN
    ensures var w' := w.Advance();
            w'.buckets[Slot(w'.idx, back)] == if back == 0 then multiset{} else w.buckets[Slot(w.idx, back - 1)]
  {
  }

  /** The last `m` buckets to become current are empty. */
  ghost predicate LastEmpty(w: Window, m: nat) {
    && |w.buckets| == RING_LEN && w.idx < RING_LEN && m <= RING_LEN
    && forall back: nat :: back < m ==> w.buckets[Slot(w.idx, back)] == multiset{}
  }

  lemma AdvanceEmpties(w: Window, m: nat)
    requires LastEmpty(w, m) && m < RING_LEN
    ensures LastEmpty(w.Advance(), m + 1)
  {
    forall back: nat | back < m + 1 ensures w.Advance().buckets[Slot(w.Advance().idx, back)] == multiset{} {
      AdvanceShifts(w, back);
    }
  }

  lemma {:induction false} IdleEmpties(c: Control, m: nat)
    requires Sound(c) && m <= RING_LEN
    ensures LastEmpty(Idle(c, m).window, m)
  {
    if m > 0 {
      IdleEmpties(c, m - 1);
      AdvanceEmpties(Idle(c, m - 1).window, m - 1);
    }
  }

  ghost predicate Empty(w: Window) {
    && |w.buckets| == RING_LEN && w.idx < RING_LEN
    && forall b :: 0 <= b < RING_LEN ==> w.buckets[b] == multiset{}
  }

  lemma AllEmpty(w: Window)
    requires LastEmpty(w, RING_LEN)
    ensures Empty(w)
  {
    forall b: nat | b < RING_LEN ensures w.buckets[b] == multiset{} {
      assert Slot(w.idx, if b <= w.idx then w.idx - b else w.idx + RING_LEN - b) == b;
    }
  }

  lemma IdleReadsZero(c: Control)
    requires Sound(c) && Empty(c.window)
    ensures Empty(Tick(c).window) && Tick(c).mode == Evaluate(c.mode, 0)
  {
    var w := c.window.Advance();
    MergeOfFive(w.buckets);
    assert w.Merged() == multiset{};
  }

  lemma IdleSound(c: Control, m: nat)
    requires Sound(c)
    ensures Sound(Idle(c, m))
  {
  }

  lemma {:induction false} IdleIsEmpty(c: Control, m: nat)
    requires Sound(c) && m >= RING_LEN
    ensures Empty(Idle(c, m).window) && Sound(Idle(c, m))
  {
    IdleSound(c, m);
    if m == RING_LEN {
      IdleEmpties(c, m);
      AllEmpty(Idle(c, m).window);
    } else {
      IdleIsEmpty(c, m - 1);
      IdleReadsZero(Idle(c, m - 1));
    }
  }

  /** From the fifth idle tick on, the reading is zero. */
  lemma IdleStep(c: Control, m: nat)
    requires Sound(c) && m >= 4
    ensures Idle(c, m + 1).mode == Evaluate(Idle(c, m).mode, 0)
    ensures Sound(Idle(c, m))
  {
    IdleSound(c, m);
    IdleIsEmpty(c, m + 1);
    var w := Idle(c, m + 1).window;
    MergeOfFive(w.buckets);
    assert w.Merged() == multiset{};
  }

  lemma {:induction false} IdleDwells(c: Control, m: nat)
    requires Sound(c) && m >= 4
    ensures var r := Idle(c, m).mode; r.degraded ==> r.dwell >= m - 4 && m < 14
  {
    if m == 4 {
      IdleSound(c, 4);
    } else {
      IdleDwells(c, m - 1);
      IdleStep(c, m - 1);
    }
  }

  /** Whatever state recording stops in, Degraded Mode is off after 14 ticks, and stays off. */
  lemma RecoversInFourteen(c: Control, m: nat)
    requires Sound(c) && m >= 14
    ensures !Idle(c, m).mode.degraded
  {
    IdleDwells(c, m);
  }

  // ---- Fourteen ticks are needed ----

  ghost function Between(highest: nat, epochs: seq<Epoch>, samples: Epoch): Control {
    var c := After(highest, epochs);
    Control(RecordAll(highest, c.window, samples), c.mode)
  }

  /** Some run, and some samples since its last tick, lead to `c`. */
  ghost predicate Reachable(highest: nat, c: Control) {
    exists epochs, samples :: c == Between(highest, epochs, samples)
  }

  lemma ReachableIsSound(highest: nat, c: Control)
    requires Reachable(highest, c)
    ensures Sound(c)
  {
  }

  /** One sample of `ns` in each of fourteen epochs, and then silence. */
  function Burst(ns: nat): seq<Epoch> {
    seq(26, k => if k < 14 then [ns] else [])
  }

  lemma BurstHeard(ns: nat, n: nat)
    requires n <= 26
    ensures HeardBy(Burst(ns), ns, n) <==> 1 <= n < 18
  {
    if 1 <= n < 18 {
      assert Burst(ns)[if n <= 14 then n - 1 else 13] == [ns];
    }
  }

  lemma BurstReading(highest: nat, ns: nat, n: nat)
    requires highest >= HIGHEST_NS && ENTER_NS < ns <= HIGHEST_NS && 1 <= n <= 26
    ensures var rs := Readings(highest, Burst(ns)); if n < 18 then rs[n - 1] > ENTER_NS else rs[n - 1] == 0
    ensures var rs := Readings(highest, Burst(ns)); Modes(rs[..n]) == Evaluate(Modes(rs[..n - 1]), rs[n - 1])
  {
    BurstHeard(ns, n);
    SingleReading(highest, Burst(ns), ns, n);
    ModesNext(Readings(highest, Burst(ns)), n);
  }

  lemma {:induction false} BurstMode(highest: nat, ns: nat, n: nat)
    requires highest >= HIGHEST_NS && ENTER_NS < ns <= HIGHEST_NS && n <= 26
    ensures Modes(Readings(highest, Burst(ns))[..n])
         == if n < 10 then Mode(false, n) else if n < 18 then Mode(true, 0) else Mode(true, n - 17)
  {
    if n > 0 {
      BurstMode(highest, ns, n - 1);
      BurstReading(highest, ns, n);
    }
  }

  lemma OneMoreEpoch(highest: nat, epochs: seq<Epoch>, n: nat)
    requires n < |epochs|
    ensures After(highest, epochs[..n + 1]) == Tick(Between(highest, epochs[..n], epochs[n]))
  {
    assert epochs[..n + 1][..n] == epochs[..n];
  }

  lemma {:induction false} IdleFollowsBurst(highest: nat, ns: nat, m: nat)
    requires 1 <= m <= 13
    ensures Idle(Between(highest, Burst(ns)[..13], [ns]), m) == After(highest, Burst(ns)[..13 + m])
  {
    var epochs, c := Burst(ns), Between(highest, Burst(ns)[..13], [ns]);
    OneMoreEpoch(highest, epochs, 12 + m);
    if m == 1 {
      assert epochs[13] == [ns] && Idle(c, 0) == c;
    } else {
      IdleFollowsBurst(highest, ns, m - 1);
      var last := After(highest, epochs[..12 + m]);
      assert epochs[12 + m] == [] && RecordAll(highest, last.window, []) == last.window;
    }
  }

  /** Some reachable state is still degraded after 13 idle ticks, so 14 is exact. */
  lemma FourteenNeeded(highest: nat)
    requires highest >= HIGHEST_NS
    ensures exists c :: Reachable(highest, c) && Sound(c) && Idle(c, 13).mode.degraded
  {
    var ns := 2_000_000;
    var c := Between(highest, Burst(ns)[..13], [ns]);
    assert Reachable(highest, c);
    ReachableIsSound(highest, c);
    IdleFollowsBurst(highest, ns, 13);
    BurstMode(highest, ns, 26);
    ModeAt(highest, Burst(ns), 26);
    assert Readings(highest, Burst(ns))[..26] == Readings(highest, Burst(ns));
  }
}
