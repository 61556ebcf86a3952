/** Recorded samples and their nearest-rank 99th percentile. */
module Histograms {

  /** How often each value was recorded. */
  type Histogram = multiset<nat>

  /** How many recorded values are less than `v`. */
  function CountBelow(h: Histogram, v: nat): nat {
    if v == 0 then 0 else CountBelow(h, v - 1) + h[v - 1]
  }

  function Rank(total: nat): nat {
    (99 * total + 99) / 100
  }

  /** `p` is the least value that at least 99 in 100 of the recorded values do not exceed. */
  ghost predicate IsP99(h: Histogram, p: nat) {
    CountBelow(h, p) < Rank(|h|) <= CountBelow(h, p + 1)
  }

  // ---- Counting ----

  lemma {:induction false} CountBelowAgrees(g: Histogram, h: Histogram, v: nat)
    requires forall x: nat :: x < v ==> g[x] == h[x]
    ensures CountBelow(g, v) == CountBelow(h, v)
  {
    if v > 0 {
      CountBelowAgrees(g, h, v - 1);
    }
  }

  lemma {:induction false} CountBelowTotal(h: Histogram, v: nat)
    ensures CountBelow(h, v) <= |h|
    ensures CountBelow(h, v) == |h| <==> forall x :: x in h ==> x < v
    decreases v
  {
    if v > 0 {
      var g := h[v - 1 := 0];
      CountBelowAgrees(g, h, v - 1);
      CountBelowTotal(g, v - 1);
      assert |g| == |h| - h[v - 1];
      assert forall x :: x in h <==> x in g || (x == v - 1 && h[x] > 0);
    } else if h != multiset{} {
      var x :| x in h;
    }
  }

  lemma {:induction false} CountBelowMonotone(h: Histogram, v: nat, w: nat)
    requires v <= w
    ensures CountBelow(h, v) <= CountBelow(h, w)
    decreases w - v
  {
    if v < w {
      CountBelowMonotone(h, v + 1, w);
    }
  }

  /** How many recorded values exceed `t`. */
  function CountAbove(h: Histogram, t: nat): nat {
    CountBelowTotal(h, t + 1);
    |h| - CountBelow(h, t + 1)
  }

  // ---- The percentile ----

  lemma {:induction false} UpperBound(h: Histogram) returns (v: nat)
    ensures forall x :: x in h ==> x < v
    decreases |h|
  {
    if |h| == 0 {
      v := 0;
    } else {
      var x :| x in h;
      var w := UpperBound(h - multiset{x});
      assert forall y :: y in h ==> y == x || y in h - multiset{x};
      v := if w > x then w else x + 1;
    }
  }

  lemma {:induction false} RankIsReached(h: Histogram, v: nat)
    requires 0 < Rank(|h|) <= CountBelow(h, v)
    ensures exists p: nat :: IsP99(h, p)
    decreases v
  {
    if Rank(|h|) <= CountBelow(h, v - 1) {
      RankIsReached(h, v - 1);
    } else {
      assert IsP99(h, v - 1);
    }
  }

  lemma P99Exists(h: Histogram)
    requires |h| > 0
    ensures exists p: nat :: IsP99(h, p)
  {
    var v := UpperBound(h);
    CountBelowTotal(h, v);
    RankIsReached(h, v);
  }

  /** The reading of the rolling window: zero when nothing was recorded. */
  ghost function P99(h: Histogram): (p: nat)
    ensures if |h| == 0 then p == 0 else IsP99(h, p)
  {
    if |h| == 0 then 0
    else
      P99Exists(h);
      var p: nat :| IsP99(h, p); p
  }

  lemma P99Unique(h: Histogram, p: nat, q: nat)
    requires IsP99(h, p) && IsP99(h, q)
    ensures p == q
  {
    if p < q {
      CountBelowMonotone(h, p + 1, q);
    } else if q < p {
      CountBelowMonotone(h, q + 1, p);
    }
  }

  lemma RankComplement(total: nat)
    ensures Rank(total) == total - total / 100
  {
  }

  /** The reading exceeds `t` exactly when more than one in a hundred recorded values does. */
  lemma P99ExceedsIff(h: Histogram, t: nat)
    ensures P99(h) > t <==> CountAbove(h, t) > |h| / 100
  {
    CountBelowTotal(h, t + 1);
    if |h| > 0 {
      RankComplement(|h|);
      if P99(h) > t {
        CountBelowMonotone(h, t + 1, P99(h));
      } else {
        CountBelowMonotone(h, P99(h) + 1, t + 1);
      }
    }
  }

  /** The reading is below `t` exactly when at most one in a hundred recorded values is `t` or more. */
  lemma P99BelowIff(h: Histogram, t: nat)
    requires t >= 1
    ensures P99(h) < t <==> CountAbove(h, t - 1) <= |h| / 100
  {
    P99ExceedsIff(h, t - 1);
  }

  lemma {:induction false} CountBelowAdds(h: Histogram, x: nat, v: nat)
    ensures CountBelow(h + multiset{x}, v) == CountBelow(h, v) + if x < v then 1 else 0
  {
    if v > 0 {
      CountBelowAdds(h, x, v - 1);
    }
  }

  /** `CountAbove` counts: nothing in the empty histogram, and one more with each value above `t`. */
  lemma CountAboveAdds(h: Histogram, x: nat, t: nat)
    ensures CountAbove(multiset{}, t) == 0
    ensures CountAbove(h + multiset{x}, t) == CountAbove(h, t) + if x > t then 1 else 0
  {
    CountBelowAdds(h, x, t + 1);
    CountBelowTotal(multiset{}, t + 1);
  }

  lemma AboveIsRecorded(h: Histogram, t: nat)
    requires CountAbove(h, t) > 0
    ensures exists x :: x in h && x > t
  {
    CountBelowTotal(h, t + 1);
  }

  /** Reads the percentile off a histogram the way it is stored: value by value, from the smallest. */
  method ValueAtP99(h: Histogram, highest: nat) returns (p: nat)
    requires |h| > 0 && forall x :: x in h ==> x <= highest
    ensures p == P99(h)
  {
    CountBelowTotal(h, highest + 1);
    p := 0;
    var seen := h[0];
    while seen < Rank(|h|)
      invariant seen == CountBelow(h, p + 1)
      invariant CountBelow(h, p) < Rank(|h|)
      invariant p <= highest
      decreases highest - p
    {
      assert p < highest;
      p := p + 1;
      seen := seen + h[p];
    }
    P99Unique(h, p, P99(h));
  }
}
