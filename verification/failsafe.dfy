/** The rolling jitter window, and the controller that switches Degraded Mode on and off. */
module FailSafe {
  import opened Histograms

  const ENTER_NS: nat := 1_500_000
  const RECOVER_NS: nat := 800_000
  const DWELL_TICKS: nat := 10
  const RING_LEN: nat := 5
  const U64_MAX: nat := 0xFFFF_FFFF_FFFF_FFFF

  /** The largest sample bound a histogram is built with; what lies above it may be refused. */
  const HIGHEST_NS: nat := 60_000_000_000

  function Max(a: nat, b: nat): nat {
    if a > b then a else b
  }

  /** The nanoseconds a duration is recorded as. */
  function Clamp(nanos: nat): nat {
    Max(if nanos > U64_MAX then U64_MAX else nanos, 1)
  }

  // ---- The window as a value ----

  datatype Window = Window(buckets: seq<Histogram>, idx: nat) {
    ghost predicate Valid(highest: nat) {
      && |buckets| == RING_LEN && idx < RING_LEN
      && forall b, x :: 0 <= b < RING_LEN && x in buckets[b] ==> x <= highest
    }

    /** A sample the histogram refuses leaves no trace. */
    function Record(highest: nat, ns: nat): Window
      requires idx < |buckets|
    {
      if Max(ns, 1) > highest then this
      else Window(buckets[idx := buckets[idx] + multiset{Max(ns, 1)}], idx)
    }

    /** The next bucket becomes the current one, and is emptied. */
    function Advance(): Window
      requires |buckets| == RING_LEN
    {
      var next := (idx + 1) % RING_LEN;
      Window(buckets[next := multiset{}], next)
    }

    function Merged(): Histogram {
      Merge(buckets)
    }
  }

  function Merge(buckets: seq<Histogram>): Histogram {
    if buckets == [] then multiset{} else Merge(buckets[..|buckets| - 1]) + buckets[|buckets| - 1]
  }

  lemma MergeOfFive(s: seq<Histogram>)
    requires |s| == 5
    ensures Merge(s) == s[0] + s[1] + s[2] + s[3] + s[4]
  {
    assert s[..1][..0] == [] && Merge(s[..1]) == s[0];
    assert s[..2][..1] == s[..1] && Merge(s[..2]) == s[0] + s[1];
    assert s[..3][..2] == s[..2] && Merge(s[..3]) == s[0] + s[1] + s[2];
    assert s[..4][..3] == s[..3];
  }

  // ---- The hysteresis automaton ----

  datatype Mode = Mode(degraded: bool, dwell: nat)

  /** A reading that speaks for leaving the current mode. */
  predicate Against(degraded: bool, p99: nat) {
    if degraded then p99 < RECOVER_NS else p99 > ENTER_NS
  }

  function Evaluate(m: Mode, p99: nat): Mode {
    if !Against(m.degraded, p99) then Mode(m.degraded, 0)
    else if m.dwell + 1 >= DWELL_TICKS then Mode(!m.degraded, 0)
    else Mode(m.degraded, m.dwell + 1)
  }

  datatype Control = Control(window: Window, mode: Mode)

  ghost function Tick(c: Control): Control
    requires |c.window.buckets| == RING_LEN
  {
    var w := c.window.Advance();
    Control(w, Evaluate(c.mode, P99(w.Merged())))
  }

  // ---- The controller itself ----

  class RollingHistogram {
    const highest: nat
    const buckets: array<Histogram>
    var idx: nat

    ghost function View(): Window
      reads this, buckets
    {
      Window(buckets[..], idx)
    }

    ghost predicate Valid()
      reads this, buckets
    {
      highest >= HIGHEST_NS && View().Valid(highest)
    }

    constructor (highest: nat)
      requires highest >= HIGHEST_NS
      ensures Valid() && fresh(buckets) && this.highest == highest
      ensures View() == Window(seq(RING_LEN, _ => multiset{}), 0)
    {
      this.highest := highest;
      buckets := new Histogram[RING_LEN](_ => multiset{});
      idx := 0;
      new;
      assert buckets[..] == seq(RING_LEN, _ => multiset{});
    }

    method Record(ns: nat)
      requires Valid()
      modifies buckets
      ensures Valid() && View() == old(View()).Record(highest, ns)
    {
      var value := Max(ns, 1);
      if value <= highest {
        buckets[idx] := buckets[idx] + multiset{value};
      }
    }

    method Advance()
      requires Valid()
      modifies this, buckets
      ensures Valid() && View() == old(View()).Advance()
    {
      idx := (idx + 1) % RING_LEN;
      buckets[idx] := multiset{};
    }

    method P99Ns() returns (p99: nat)
      requires Valid()
      ensures p99 == P99(View().Merged())
    {
      var merged: Histogram := multiset{};
      for b := 0 to buckets.Length
        invariant merged == Merge(buckets[..b])
        invariant forall x :: x in merged ==> x <= highest
      {
        assert buckets[..b + 1][..b] == buckets[..b];
        merged := merged + buckets[b];
      }
      assert buckets[..buckets.Length] == buckets[..];
      if |merged| == 0 {
        return 0;
      }
      p99 := ValueAtP99(merged, highest);
    }
  }

  function Initial(): Control {
    Control(Window(seq(RING_LEN, _ => multiset{}), 0), Mode(false, 0))
  }

  class FailSafeController {
    const rolling: RollingHistogram
    var degraded: bool
    var dwell: nat

    ghost function View(): Control
      reads this, rolling, rolling.buckets
    {
      Control(rolling.View(), Mode(degraded, dwell))
    }

    ghost predicate Valid()
      reads this, rolling, rolling.buckets
    {
      rolling.Valid() && dwell < DWELL_TICKS
    }

    constructor (highest: nat)
      requires highest >= HIGHEST_NS
      ensures Valid() && fresh(rolling) && fresh(rolling.buckets)
      ensures View() == Initial()
    {
      rolling := new RollingHistogram(highest);
      degraded, dwell := false, 0;
    }

    /** Since `before`, the current bucket gained the value `v`, and nothing else happened. */
    ghost predicate Gained(before: Window, v: nat)
      requires before.idx < |before.buckets|
      reads this, rolling, rolling.buckets
    {
      && rolling.idx == before.idx
      && rolling.buckets[..] == before.buckets[before.idx := before.buckets[before.idx] + multiset{v}]
    }

    method RecordJitter(nanos: nat)
      requires Valid()
      modifies rolling.buckets
      ensures Valid() && degraded == old(degraded) && dwell == old(dwell)
      ensures rolling.View() == old(rolling.View()).Record(rolling.highest, Clamp(nanos))
      ensures 1 <= nanos <= 0xFFFF_FFFF_FFFF_FFFF && nanos <= rolling.highest ==> Gained(old(rolling.View()), nanos)
      ensures nanos == 0 ==> Gained(old(rolling.View()), 1)
      ensures nanos > 0xFFFF_FFFF_FFFF_FFFF && rolling.highest >= 0xFFFF_FFFF_FFFF_FFFF ==>
                Gained(old(rolling.View()), 0xFFFF_FFFF_FFFF_FFFF)
      ensures rolling.highest < nanos <= 0xFFFF_FFFF_FFFF_FFFF ==> rolling.View() == old(rolling.View())
      ensures nanos > 0xFFFF_FFFF_FFFF_FFFF && rolling.highest < 0xFFFF_FFFF_FFFF_FFFF ==>
                rolling.View() == old(rolling.View())
    {
      rolling.Record(Clamp(nanos));
    }

    method IsDegraded() returns (on: bool)
      ensures on == degraded
    {
      on := degraded;
    }

    method OneTick()
      requires Valid()
      modifies this, rolling, rolling.buckets
      ensures Valid() && View() == Tick(old(View()))
    {
      rolling.Advance();
      var p99 := rolling.P99Ns();
      if degraded {
        if p99 < RECOVER_NS {
          dwell := dwell + 1;
          if dwell >= DWELL_TICKS {
            degraded := false;
            dwell := 0;
          }
        } else {
          dwell := 0;
        }
      } else if p99 > ENTER_NS {
        dwell := dwell + 1;
        if dwell >= DWELL_TICKS {
          degraded := true;
          dwell := 0;
        }
      } else {
        dwell := 0;
      }
    }
  }
}
