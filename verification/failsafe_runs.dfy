/** Degraded Mode over whole runs: what a reading covers, when the mode flips, how it recovers. */
module FailSafeRuns {
  import opened Histograms
  import opened FailSafe

  /** The jitters recorded between one tick and the next. */
  type Epoch = seq<nat>

  // ---- Sequential runs ----

  function RecordAll(highest: nat, w: Window, samples: Epoch): (r: Window)
    requires w.idx < |w.buckets|
    ensures r.idx == w.idx && |r.buckets| == |w.buckets|
  {
    if samples == [] then w
    else RecordAll(highest, w, samples[..|samples| - 1]).Record(highest, Clamp(samples[|samples| - 1]))
  }

  /** What a histogram keeps of an epoch. */
  function Recorded(highest: nat, samples: Epoch): Histogram {
    if samples == [] then multiset{}
    else
      var v := Clamp(samples[|samples| - 1]);
      Recorded(highest, samples[..|samples| - 1]) + if v > highest then multiset{} else multiset{v}
  }

  lemma CountOfLast(samples: Epoch, v: nat)
    requires samples != []
    ensures multiset(samples)[v] == multiset(samples[..|samples| - 1])[v] + if samples[|samples| - 1] == v then 1 else 0
  {
    assert samples == samples[..|samples| - 1] + [samples[|samples| - 1]];
  }

  /** Of the durations of an epoch each is kept as often as it occurred, and zero as one nanosecond. */
  lemma {:induction false} RecordedCounts(highest: nat, samples: Epoch, v: nat)
    requires 1 <= highest && v < 0xFFFF_FFFF_FFFF_FFFF
    ensures Recorded(highest, samples)[v]
         == if v == 0 || v > highest then 0
            else if v == 1 then multiset(samples)[0] + multiset(samples)[1]
            else multiset(samples)[v]
  {
    if samples != [] {
      RecordedCounts(highest, samples[..|samples| - 1], v);
      CountOfLast(samples, v);
      CountOfLast(samples, 0);
    }
  }

  /** The controller after each epoch was recorded and followed by its tick. */
  ghost function After(highest: nat, epochs: seq<Epoch>): (c: Control)
    ensures |c.window.buckets| == RING_LEN && c.window.idx < RING_LEN
  {
    if epochs == [] then Initial()
    else
      var c := After(highest, epochs[..|epochs| - 1]);
      Tick(Control(RecordAll(highest, c.window, epochs[|epochs| - 1]), c.mode))
  }

  // ---- What a reading covers ----

  /** Everything kept of the epochs from number `lo` up to `hi`. */
  function Covers(highest: nat, epochs: seq<Epoch>, lo: nat, hi: nat): Histogram
    requires hi <= |epochs|
  {
    if hi <= lo then multiset{} else Covers(highest, epochs, lo, hi - 1) + Recorded(highest, epochs[hi - 1])
  }

  function LastFour(highest: nat, epochs: seq<Epoch>, n: nat): Histogram
    requires n <= |epochs|
  {
    Covers(highest, epochs, if n < 4 then 0 else n - 4, n)
  }

  lemma {:induction false} RecordAllFills(highest: nat, w: Window, samples: Epoch)
    requires w.idx < |w.buckets|
    ensures RecordAll(highest, w, samples)
         == Window(w.buckets[w.idx := w.buckets[w.idx] + Recorded(highest, samples)], w.idx)
  {
    var b := w.buckets[w.idx];
    if samples == [] {
      assert b + multiset{} == b;
    } else {
      var before, v := samples[..|samples| - 1], Clamp(samples[|samples| - 1]);
      RecordAllFills(highest, w, before);
      var kept := Recorded(highest, before);
      assert b + (kept + multiset{}) == b + kept;
      assert b + (kept + multiset{v}) == b + kept + multiset{v};
      var all := b + kept + multiset{v};
      assert w.buckets[w.idx := b + kept][w.idx := all] == w.buckets[w.idx := all];
    }
  }

  /** The bucket that was current `back` ticks before the one at `idx`. */
  function Slot(idx: nat, back: nat): (slot: nat)
    requires idx < RING_LEN && back < RING_LEN
    ensures slot < RING_LEN
  {
    if back <= idx then idx - back else idx + RING_LEN - back
  }

  lemma SlotMoves(idx: nat, back: nat)
    requires idx < RING_LEN && 1 <= back < RING_LEN
    ensures Slot((idx + 1) % RING_LEN, back) == Slot(idx, back - 1) != (idx + 1) % RING_LEN
    ensures Slot(idx, back - 1) == idx <==> back == 1
  {
  }

  /** The bucket `back` ticks ago holds the epoch `back` ticks ago, if there was one. */
  ghost predicate Holds(highest: nat, w: Window, epochs: seq<Epoch>, back: nat)
    requires |w.buckets| == RING_LEN && w.idx < RING_LEN && 1 <= back < RING_LEN
  {
    var n := |epochs|;
    w.buckets[Slot(w.idx, back)] == if back <= n then Recorded(highest, epochs[n - back]) else multiset{}
  }

  ghost predicate HoldsEpochs(highest: nat, w: Window, epochs: seq<Epoch>) {
    && |w.buckets| == RING_LEN && w.idx < RING_LEN && w.buckets[w.idx] == multiset{}
    && forall back: nat :: 1 <= back < RING_LEN ==> Holds(highest, w, epochs, back)
  }

  lemma TickMovesEpoch(highest: nat, w: Window, epochs: seq<Epoch>, back: nat)
    requires epochs != [] && |w.buckets| == RING_LEN && w.idx < RING_LEN && 1 <= back < RING_LEN
    requires back > 1 ==> Holds(highest, w, epochs[..|epochs| - 1], back - 1)
    ensures var full := w.buckets[w.idx := Recorded(highest, epochs[|epochs| - 1])];
            Holds(highest, Window(full, w.idx).Advance(), epochs, back)
  {
    var n, full := |epochs|, w.buckets[w.idx := Recorded(highest, epochs[|epochs| - 1])];
    var w' := Window(full, w.idx).Advance();
    SlotMoves(w.idx, back);
    assert w'.buckets[Slot(w'.idx, back)] == full[Slot(w.idx, back - 1)];
    if 1 < back <= n {
      assert epochs[..n - 1][n - 1 - (back - 1)] == epochs[n - back];
    }
  }

  lemma TickMovesEpochs(highest: nat, w: Window, epochs: seq<Epoch>)
    requires epochs != [] && HoldsEpochs(highest, w, epochs[..|epochs| - 1])
    ensures HoldsEpochs(highest, RecordAll(highest, w, epochs[|epochs| - 1]).Advance(), epochs)
  {
    var full := Recorded(highest, epochs[|epochs| - 1]);
    RecordAllFills(highest, w, epochs[|epochs| - 1]);
    assert multiset{} + full == full;
    var w' := RecordAll(highest, w, epochs[|epochs| - 1]).Advance();
    forall back: nat | 1 <= back < RING_LEN ensures Holds(highest, w', epochs, back) {
      TickMovesEpoch(highest, w, epochs, back);
    }
  }

  lemma {:induction false} WindowHoldsEpochs(highest: nat, epochs: seq<Epoch>)
    ensures HoldsEpochs(highest, After(highest, epochs).window, epochs)
  {
    if epochs == [] {
      var w := Initial().window;
      assert forall back: nat :: 1 <= back < RING_LEN ==> Holds(highest, w, epochs, back);
    } else {
      WindowHoldsEpochs(highest, epochs[..|epochs| - 1]);
      TickMovesEpochs(highest, After(highest, epochs[..|epochs| - 1]).window, epochs);
    }
  }

  lemma UnfoldCovers(highest: nat, epochs: seq<Epoch>, n: nat)
    requires 1 <= n <= |epochs|
    ensures LastFour(highest, epochs, n) ==
            (if n >= 4 then Recorded(highest, epochs[n - 4]) else multiset{})
            + (if n >= 3 then Recorded(highest, epochs[n - 3]) else multiset{})
            + (if n >= 2 then Recorded(highest, epochs[n - 2]) else multiset{})
            + Recorded(highest, epochs[n - 1])
  {
    var lo := if n < 4 then 0 else n - 4;
    if n >= 2 {
      assert Covers(highest, epochs, lo, n - 1)
          == Covers(highest, epochs, lo, n - 2) + Recorded(highest, epochs[n - 2]);
    }
    if n >= 3 {
      assert Covers(highest, epochs, lo, n - 2)
          == Covers(highest, epochs, lo, n - 3) + Recorded(highest, epochs[n - 3]);
    }
    if n >= 4 {
      assert Covers(highest, epochs, lo, n - 3)
          == Covers(highest, epochs, lo, n - 4) + Recorded(highest, epochs[n - 4]);
    }
  }

  lemma SumAround(t: seq<nat>, idx: nat)
    requires |t| == RING_LEN && idx < RING_LEN
    ensures t[0] + t[1] + t[2] + t[3] + t[4]
         == t[idx] + t[Slot(idx, 1)] + t[Slot(idx, 2)] + t[Slot(idx, 3)] + t[Slot(idx, 4)]
  {
  }

  /** The multiplicities of a merge, read backwards round the ring. */
  lemma MergeAround(s: seq<Histogram>, idx: nat, x: nat)
    requires |s| == RING_LEN && idx < RING_LEN
    ensures Merge(s)[x] == s[idx][x] + s[Slot(idx, 1)][x] + s[Slot(idx, 2)][x] + s[Slot(idx, 3)][x] + s[Slot(idx, 4)][x]
  {
    MergeOfFive(s);
    SumAround([s[0][x], s[1][x], s[2][x], s[3][x], s[4][x]], idx);
  }

  /** A reading covers the last four completed epochs: the fifth bucket has just been emptied. */
  lemma WindowIsLastFour(highest: nat, epochs: seq<Epoch>)
    ensures After(highest, epochs).window.Merged() == LastFour(highest, epochs, |epochs|)
  {
    var w, n := After(highest, epochs).window, |epochs|;
    WindowHoldsEpochs(highest, epochs);
    forall x: nat ensures w.Merged()[x] == LastFour(highest, epochs, n)[x] {
      MergeAround(w.buckets, w.idx, x);
      assert Holds(highest, w, epochs, 1) && Holds(highest, w, epochs, 2);
      assert Holds(highest, w, epochs, 3) && Holds(highest, w, epochs, 4);
      if n >= 1 {
        UnfoldCovers(highest, epochs, n);
      }
    }
  }

  // ---- The mode as a function of the readings ----

  /** The reading taken at each tick of a run. */
  ghost function Readings(highest: nat, epochs: seq<Epoch>): seq<nat> {
    seq(|epochs|, k requires 0 <= k < |epochs| => P99(LastFour(highest, epochs, k + 1)))
  }

  function Modes(readings: seq<nat>): Mode {
    if readings == [] then Mode(false, 0)
    else Evaluate(Modes(readings[..|readings| - 1]), readings[|readings| - 1])
  }

  lemma {:induction false} CoversPrefix(highest: nat, epochs: seq<Epoch>, more: seq<Epoch>, lo: nat, hi: nat)
    requires hi <= |epochs| <= |more| && more[..|epochs|] == epochs
    ensures Covers(highest, more, lo, hi) == Covers(highest, epochs, lo, hi)
  {
    if hi > lo {
      CoversPrefix(highest, epochs, more, lo, hi - 1);
      assert epochs[hi - 1] == more[..|epochs|][hi - 1];
    }
  }

  lemma ReadingsPrefix(highest: nat, epochs: seq<Epoch>)
    requires epochs != []
    ensures Readings(highest, epochs)
         == Readings(highest, epochs[..|epochs| - 1]) + [P99(LastFour(highest, epochs, |epochs|))]
  {
    var n := |epochs| - 1;
    forall k: nat | k < n
      ensures Readings(highest, epochs)[k] == Readings(highest, epochs[..n])[k]
    {
      CoversPrefix(highest, epochs[..n], epochs, if k + 1 < 4 then 0 else k - 3, k + 1);
    }
  }

  /** The mode depends on the samples only through the readings. */
  lemma {:induction false} ModeFromReadings(highest: nat, epochs: seq<Epoch>)
    ensures After(highest, epochs).mode == Modes(Readings(highest, epochs))
  {
    if epochs != [] {
      ModeFromReadings(highest, epochs[..|epochs| - 1]);
      WindowIsLastFour(highest, epochs);
      ReadingsPrefix(highest, epochs);
      var rs := Readings(highest, epochs);
      assert rs[..|rs| - 1] == Readings(highest, epochs[..|epochs| - 1]);
    }
  }

  predicate DegradedAt(readings: seq<nat>, k: nat)
    requires k <= |readings|
  {
    Modes(readings[..k]).degraded
  }

  /** Reading number `k` speaks against the mode it found, which is `mode`. */
  predicate Opposes(readings: seq<nat>, k: nat, mode: bool)
    requires k < |readings|
  {
    DegradedAt(readings, k) == mode && Against(mode, readings[k])
  }

  ghost predicate OpposedSince(readings: seq<nat>, lo: int, n: nat, mode: bool)
    requires n <= |readings|
  {
    forall k: nat :: lo <= k < n ==> Opposes(readings, k, mode)
  }

  lemma OpposedAt(readings: seq<nat>, lo: int, n: nat, mode: bool, k: nat)
    requires n <= |readings| && OpposedSince(readings, lo, n, mode) && lo <= k < n
    ensures Opposes(readings, k, mode)
  {
  }

  /** The dwell counter is the length of the unbroken opposition to the present mode. */
  lemma {:induction false} DwellCounts(readings: seq<nat>, n: nat)
    requires n <= |readings|
    ensures var m := Modes(readings[..n]);
            && m.dwell < 10 && m.dwell <= n
            && OpposedSince(readings, n - m.dwell, n, m.degraded)
            && (m.dwell < n ==> !Opposes(readings, n - m.dwell - 1, m.degraded))
  {
    if n > 0 {
      DwellCounts(readings, n - 1);
      assert readings[..n][..n - 1] == readings[..n - 1];
    }
  }

  /**
   The mode flips at a tick exactly when this reading and the nine before it all oppose the mode,
   and the mode was the same at all ten.
   */
  lemma FlipIff(readings: seq<nat>, n: nat)
    requires 1 <= n <= |readings|
    ensures DegradedAt(readings, n) != DegradedAt(readings, n - 1) <==>
            n >= 10 && OpposedSince(readings, n - 10, n, DegradedAt(readings, n - 1))
  {
    DwellCounts(readings, n - 1);
    assert readings[..n][..n - 1] == readings[..n - 1];
    var m := Modes(readings[..n - 1]);
    if n >= 10 {
      if m.dwell < 10 - 1 {
        var k: nat := n - 2 - m.dwell;
        assert !Opposes(readings, k, m.degraded);
      } else if OpposedSince(readings, n - 10, n, m.degraded) {
        OpposedAt(readings, n - 10, n, m.degraded, n - 1);
      }
    }
    if m.dwell == 10 - 1 && Against(m.degraded, readings[n - 1]) {
      assert OpposedSince(readings, n - 10, n, m.degraded);
    }
  }

  /** Two flips are at least ten ticks apart. */
  lemma FlipsApart(readings: seq<nat>, i: nat, j: nat)
    requires 1 <= i < j <= |readings|
    requires DegradedAt(readings, i) != DegradedAt(readings, i - 1)
    requires DegradedAt(readings, j) != DegradedAt(readings, j - 1)
    ensures j - i >= 10
  {
    FlipIff(readings, j);
    if j - i < 10 {
      OpposedAt(readings, j - 10, j, DegradedAt(readings, j - 1), i);
      OpposedAt(readings, j - 10, j, DegradedAt(readings, j - 1), i - 1);
    }
  }

  // ---- The thresholds ----

  /** Reading number `k` is above 1.5 ms, and finds the mode normal. */
  predicate HighAt(readings: seq<nat>, k: nat)
    requires k < |readings|
  {
    !DegradedAt(readings, k) && readings[k] > 1_500_000
  }

  /** Reading number `k` is below 0.8 ms, and finds the mode degraded. */
  predicate LowAt(readings: seq<nat>, k: nat)
    requires k < |readings|
  {
    DegradedAt(readings, k) && readings[k] < 800_000
  }

  ghost predicate HighSince(readings: seq<nat>, lo: int, n: nat)
    requires n <= |readings|
  {
    forall k: nat :: lo <= k < n ==> HighAt(readings, k)
  }

  ghost predicate LowSince(readings: seq<nat>, lo: int, n: nat)
    requires n <= |readings|
  {
    forall k: nat :: lo <= k < n ==> LowAt(readings, k)
  }

  lemma OpposedMeans(readings: seq<nat>, lo: int, n: nat)
    requires n <= |readings|
    ensures OpposedSince(readings, lo, n, false) <==> HighSince(readings, lo, n)
    ensures OpposedSince(readings, lo, n, true) <==> LowSince(readings, lo, n)
  {
    assert forall k: nat :: k < n ==> (Opposes(readings, k, false) <==> HighAt(readings, k));
    assert forall k: nat :: k < n ==> (Opposes(readings, k, true) <==> LowAt(readings, k));
  }

  /** Degraded Mode goes on at a tick exactly after ten readings above 1.5 ms in a row in normal mode. */
  lemma GoesOnIff(readings: seq<nat>, n: nat)
    requires 1 <= n <= |readings|
    ensures !DegradedAt(readings, n - 1) && DegradedAt(readings, n) <==> n >= 10 && HighSince(readings, n - 10, n)
    ensures n >= 10 && HighSince(readings, n - 10, n) ==> readings[n - 1] > 1_500_000
  {
    FlipIff(readings, n);
    OpposedMeans(readings, n - 10, n);
    assert n >= 10 && HighSince(readings, n - 10, n) ==> HighAt(readings, n - 1);
  }

  /** It goes off at a tick exactly after ten readings below 0.8 ms in a row in Degraded Mode. */
  lemma GoesOffIff(readings: seq<nat>, n: nat)
    requires 1 <= n <= |readings|
    ensures DegradedAt(readings, n - 1) && !DegradedAt(readings, n) <==> n >= 10 && LowSince(readings, n - 10, n)
    ensures n >= 10 && LowSince(readings, n - 10, n) ==> readings[n - 1] < 800_000
  {
    FlipIff(readings, n);
    OpposedMeans(readings, n - 10, n);
    assert n >= 10 && LowSince(readings, n - 10, n) ==> LowAt(readings, n - 1);
  }

  /** A reading from 0.8 ms to 1.5 ms never changes the mode, whichever it is. */
  lemma BandKeepsMode(readings: seq<nat>, n: nat)
    requires 1 <= n <= |readings| && 800_000 <= readings[n - 1] <= 1_500_000
    ensures DegradedAt(readings, n) == DegradedAt(readings, n - 1)
  {
    GoesOnIff(readings, n);
    GoesOffIff(readings, n);
  }

  lemma ModesNext(readings: seq<nat>, n: nat)
    requires 1 <= n <= |readings|
    ensures Modes(readings[..n]) == Evaluate(Modes(readings[..n - 1]), readings[n - 1])
  {
    assert readings[..n][..n - 1] == readings[..n - 1];
  }

  lemma LowStep(m: Mode, p99: nat, j: nat)
    requires m.dwell < 10 && p99 < 800_000 && (m.degraded ==> m.dwell >= j)
    ensures var m' := Evaluate(m, p99); m'.dwell < 10 && (m'.degraded ==> m'.dwell >= j + 1)
  {
  }

  lemma {:induction false} LowDwells(readings: seq<nat>, lo: nat, j: nat)
    requires lo + j <= |readings| && forall k :: lo <= k < |readings| ==> readings[k] < 800_000
    ensures var m := Modes(readings[..lo + j]); m.dwell < 10 && (m.degraded ==> m.dwell >= j)
  {
    if j == 0 {
      DwellCounts(readings, lo);
    } else {
      LowDwells(readings, lo, j - 1);
      ModesNext(readings, lo + j);
      LowStep(Modes(readings[..lo + j - 1]), readings[lo + j - 1], j - 1);
    }
  }

  /** After ten readings below 0.8 ms in a row the mode is normal, and stays so while they last. */
  lemma TenLowAreEnough(readings: seq<nat>, lo: nat)
    requires lo + 10 <= |readings| && forall k :: lo <= k < |readings| ==> readings[k] < 800_000
    ensures !DegradedAt(readings, |readings|)
  {
    LowDwells(readings, lo, |readings| - lo);
  }
}
