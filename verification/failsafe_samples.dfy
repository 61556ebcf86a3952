/** What histograms keep of numbered samples, and what the percentile says of them. */
module FailSafeSamples {
  import opened Histograms
  import opened FailSafe

  /** The jitter of each sample, in nanoseconds. */
  type Jitter = nat -> nat

  /** What a histogram keeps of one sample. */
  function KeptOne(jitter: Jitter, highest: nat, x: nat): Histogram {
    var v := Clamp(jitter(x));
    if v > highest then multiset{} else multiset{v}
  }

  ghost function Kept(jitter: Jitter, highest: nat, samples: set<nat>): Histogram {
    if samples == {} then multiset{}
    else
      var x :| x in samples;
      Kept(jitter, highest, samples - {x}) + KeptOne(jitter, highest, x)
  }

  lemma Exchange(a: Histogram, b: Histogram, c: Histogram)
    ensures (a + b) + c == (a + c) + b
  {
  }

  /** The order in which samples are recorded does not matter. */
  lemma {:induction false} KeptBut(jitter: Jitter, highest: nat, samples: set<nat>, x: nat)
    requires x in samples
    ensures Kept(jitter, highest, samples) == Kept(jitter, highest, samples - {x}) + KeptOne(jitter, highest, x)
    decreases |samples|
  {
    var y :| y in samples && Kept(jitter, highest, samples)
                             == Kept(jitter, highest, samples - {y}) + KeptOne(jitter, highest, y);
    if y != x {
      KeptBut(jitter, highest, samples - {y}, x);
      KeptBut(jitter, highest, samples - {x}, y);
      assert samples - {y} - {x} == samples - {x} - {y};
      Exchange(Kept(jitter, highest, samples - {x} - {y}), KeptOne(jitter, highest, x), KeptOne(jitter, highest, y));
    }
  }

  lemma Associate(a: Histogram, b: Histogram, c: Histogram)
    ensures a + (b + c) == (a + b) + c
  {
  }

  lemma OneLess(s: set<nat>, t: set<nat>, x: nat)
    requires s !! t && x in t
    ensures s + t - {x} == s + (t - {x})
  {
  }

  lemma {:induction false} KeptUnion(jitter: Jitter, highest: nat, s: set<nat>, t: set<nat>)
    requires s !! t
    ensures Kept(jitter, highest, s + t) == Kept(jitter, highest, s) + Kept(jitter, highest, t)
    decreases |t|
  {
    if t == {} {
      assert s + t == s;
    } else {
      var x :| x in t;
      KeptUnion(jitter, highest, s, t - {x});
      KeptBut(jitter, highest, t, x);
      KeptBut(jitter, highest, s + t, x);
      OneLess(s, t, x);
      Associate(Kept(jitter, highest, s), Kept(jitter, highest, t - {x}), KeptOne(jitter, highest, x));
    }
  }

  // ---- Counting samples ----

  /** The samples whose duration the histogram can hold. */
  ghost function Countable(jitter: Jitter, highest: nat, samples: set<nat>): set<nat> {
    set x | x in samples && highest >= 1 && (jitter(x) <= highest || highest >= 0xFFFF_FFFF_FFFF_FFFF)
  }

  predicate IsHot(jitter: Jitter, x: nat) {
    jitter(x) > 1_500_000
  }

  ghost function HotOnes(jitter: Jitter, highest: nat, samples: set<nat>): set<nat> {
    set x | x in Countable(jitter, highest, samples) && IsHot(jitter, x)
  }

  lemma OneCounts(jitter: Jitter, highest: nat, h: Histogram, x: nat)
    ensures var g, fits := h + KeptOne(jitter, highest, x), x in Countable(jitter, highest, {x});
            && |g| == |h| + (if fits then 1 else 0)
            && CountAbove(g, 1_500_000) == CountAbove(h, 1_500_000) + if fits && IsHot(jitter, x) then 1 else 0
  {
    CountAboveAdds(h, Clamp(jitter(x)), 1_500_000);
    assert h + multiset{} == h;
  }

  lemma SetBut(s: set<nat>, x: nat)
    ensures |s| == |s - {x}| + if x in s then 1 else 0
  {
    assert x !in s ==> s - {x} == s;
  }

  lemma CountsBut(jitter: Jitter, highest: nat, samples: set<nat>, x: nat)
    requires x in samples
    ensures var fits := x in Countable(jitter, highest, {x});
            && |Countable(jitter, highest, samples)|
               == |Countable(jitter, highest, samples - {x})| + (if fits then 1 else 0)
            && |HotOnes(jitter, highest, samples)|
               == |HotOnes(jitter, highest, samples - {x})| + if fits && IsHot(jitter, x) then 1 else 0
  {
    SetBut(Countable(jitter, highest, samples), x);
    SetBut(HotOnes(jitter, highest, samples), x);
    assert Countable(jitter, highest, samples) - {x} == Countable(jitter, highest, samples - {x});
    assert HotOnes(jitter, highest, samples) - {x} == HotOnes(jitter, highest, samples - {x});
  }

  lemma NoneCount(jitter: Jitter, highest: nat)
    ensures |Kept(jitter, highest, {})| == |Countable(jitter, highest, {})| == 0
    ensures CountAbove(Kept(jitter, highest, {}), 1_500_000) == |HotOnes(jitter, highest, {})| == 0
  {
    CountAboveAdds(multiset{}, 0, 1_500_000);
    assert Countable(jitter, highest, {}) == {} && HotOnes(jitter, highest, {}) == {};
  }

  lemma {:induction false} KeptCounts(jitter: Jitter, highest: nat, samples: set<nat>)
    ensures |Kept(jitter, highest, samples)| == |Countable(jitter, highest, samples)|
    ensures CountAbove(Kept(jitter, highest, samples), 1_500_000) == |HotOnes(jitter, highest, samples)|
    decreases |samples|
  {
    if samples == {} {
      NoneCount(jitter, highest);
    } else {
      var x :| x in samples;
      KeptBut(jitter, highest, samples, x);
      KeptCounts(jitter, highest, samples - {x});
      OneCounts(jitter, highest, Kept(jitter, highest, samples - {x}), x);
      CountsBut(jitter, highest, samples, x);
    }
  }

  /** The percentile of some samples is above 1.5 ms exactly when more than one in a hundred of them is. */
  lemma KeptHotIff(jitter: Jitter, highest: nat, samples: set<nat>)
    ensures P99(Kept(jitter, highest, samples)) > 1_500_000 <==>
            |HotOnes(jitter, highest, samples)| > |Countable(jitter, highest, samples)| / 100
  {
    KeptCounts(jitter, highest, samples);
    P99ExceedsIff(Kept(jitter, highest, samples), 1_500_000);
  }
}
