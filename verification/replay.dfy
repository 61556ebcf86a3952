/** The replay server's endless stream over a recorded fixture, and what its client makes of it. */
module Replay {
  import opened Tasks
  import opened Sse

  datatype RecordedEvent = RecordedEvent(recvNs: nat, data: string)

  function SaturatingSub(a: nat, b: nat): nat {
    if a > b then a - b else 0
  }

  /** The payloads of the first `k` chunks of the loop over a fixture. */
  function Cycle(events: seq<RecordedEvent>, k: nat): (r: seq<string>)
    requires events != []
    ensures |r| == k
  {
    seq(k, i requires 0 <= i < k => events[i % |events|].data)
  }

  /** The chunk that `Next` serves as number `k` continues the text of the first `k`. */
  lemma CycleStep(events: seq<RecordedEvent>, k: nat)
    requires events != []
    ensures Cycle(events, k + 1) == Cycle(events, k) + [events[k % |events|].data]
    ensures Encode(Cycle(events, k + 1)) == Encode(Cycle(events, k)) + Frame(events[k % |events|].data)
  {
  }

  lemma Multiples(d: int, n: nat)
    requires n > 0
    ensures d >= 1 ==> d * n >= n
    ensures d <= -1 ==> d * n <= -1 * n
  {
  }

  lemma Remainder(k: nat, n: nat, q: nat, r: nat)
    requires n > 0 && r < n && k == q * n + r
    ensures k % n == r
  {
    var d, r' := k / n - q, k % n;
    assert d * n == r - r';
    Multiples(d, n);
  }

  lemma NextSlot(k: nat, n: nat)
    requires n > 0
    ensures (k + 1) % n == if k % n + 1 == n then 0 else k % n + 1
  {
    var q, r := k / n, k % n;
    assert k == q * n + r;
    if r + 1 == n {
      assert k + 1 == (q + 1) * n;
      Remainder(k + 1, n, q + 1, 0);
    } else {
      Remainder(k + 1, n, q, r + 1);
    }
  }

  class ReplayStream {
    const events: seq<RecordedEvent>
    var idx: nat
    var loopOffsetNs: nat
    ghost var served: nat
    ghost var sent: string

    ghost predicate Valid()
      reads this
    {
      && idx <= |events|
      && (events != [] ==>
            && idx == (if served > 0 && served % |events| == 0 then |events| else served % |events|)
            && loopOffsetNs == events[0].recvNs
            && sent == Encode(Cycle(events, served)))
    }

    constructor (events: seq<RecordedEvent>)
      ensures Valid() && this.events == events && served == 0 && sent == []
    {
      this.events := events;
      idx, served, sent := 0, 0, [];
      loopOffsetNs := if events == [] then 0 else events[0].recvNs;
    }

    /**
     The next chunk, with its offset in the current pass before the rate scales it. The stream ends at
     once if the fixture is empty, and otherwise never. All chunks so far are the encoding of the payloads so far.
     */
    method Next() returns (chunk: Option<(nat, string)>)
      requires Valid()
      modifies this
      ensures Valid()
      ensures events == [] ==> chunk == None && served == old(served) && sent == old(sent)
      ensures events != [] ==>
                && served == old(served) + 1 && chunk.Some? && sent == old(sent) + chunk.value.1
                && var e := events[old(served) % |events|];
                && chunk.value.1 == Frame(e.data)
                && (e.recvNs >= events[0].recvNs ==> events[0].recvNs + chunk.value.0 == e.recvNs)
                && (e.recvNs < events[0].recvNs ==> chunk.value.0 == 0)
    {
      if events == [] {
        return None;
      }
      if idx >= |events| {
        idx := 0;
        loopOffsetNs := events[0].recvNs;
      }
      var event := events[idx];
      chunk := Some((SaturatingSub(event.recvNs, loopOffsetNs), Frame(event.data)));
      NextSlot(served, |events|);
      CycleStep(events, served);
      sent := sent + chunk.value.1;
      idx := idx + 1;
      served := served + 1;
    }
  }

  ghost predicate RoundTrips(payloads: seq<string>, ending: Ending) {
    Delivered(Encode(payloads), ending) == payloads
  }

  lemma CleanReplays(events: seq<RecordedEvent>, k: nat, ending: Ending)
    requires events != [] && forall i :: 0 <= i < |events| ==> Clean(events[i].data)
    ensures RoundTrips(Cycle(events, k), ending)
  {
    EncodeRoundTrips(Cycle(events, k), ending);
  }

  lemma FirstPass(events: seq<RecordedEvent>, i: nat)
    requires i < |events|
    ensures Cycle(events, i + 1) == Cycle(events, i) + [events[i].data]
  {
  }

  lemma SamePrefix<T>(a: seq<T>, b: seq<T>, c: seq<T>)
    requires a + b == a + c
    ensures b == c
  {
    assert b == (a + b)[|a|..] && c == (a + c)[|a|..];
  }

  lemma LastIsClean(payloads: seq<string>, last: string, longer: seq<string>, ending: Ending)
    requires longer == payloads + [last] && RoundTrips(payloads, ending) && RoundTrips(longer, ending)
    ensures Clean(last)
  {
    assert longer[..|payloads|] == payloads && longer[|payloads|] == last;
    DeliveredAfterFrames(payloads, Frame(last), ending);
    SamePrefix(payloads, Delivered(Frame(last), ending), [last]);
    FrameRoundTripsIff(last, ending);
  }

  lemma ReplayCleans(events: seq<RecordedEvent>, i: nat, ending: Ending)
    requires i < |events| && RoundTrips(Cycle(events, i), ending) && RoundTrips(Cycle(events, i + 1), ending)
    ensures Clean(events[i].data)
  {
    FirstPass(events, i);
    LastIsClean(Cycle(events, i), events[i].data, Cycle(events, i + 1), ending);
  }

  /** The first `k` chunks of a looped fixture decode to their payloads, for every `k`: exactly for clean fixtures. */
  lemma ReplayRoundTripsIff(events: seq<RecordedEvent>, ending: Ending)
    requires events != []
    ensures (forall k: nat :: RoundTrips(Cycle(events, k), ending))
       <==> (forall i :: 0 <= i < |events| ==> Clean(events[i].data))
  {
    if forall i :: 0 <= i < |events| ==> Clean(events[i].data) {
      forall k: nat ensures RoundTrips(Cycle(events, k), ending) {
        CleanReplays(events, k, ending);
      }
    } else if forall k: nat :: RoundTrips(Cycle(events, k), ending) {
      forall i: nat | i < |events| ensures Clean(events[i].data) {
        ReplayCleans(events, i, ending);
      }
    }
  }

  /** A client cut off inside a chunk has received exactly the chunks before it. */
  lemma CutReplay(events: seq<RecordedEvent>, k: nat, cut: nat, ending: Ending)
    requires events != [] && forall i :: 0 <= i < |events| ==> Clean(events[i].data)
    requires cut < |Frame(events[k % |events|].data)|
    ensures Delivered(Encode(Cycle(events, k)) + Frame(events[k % |events|].data)[..cut], ending) == Cycle(events, k)
  {
    CutFrameIsDropped(Cycle(events, k), events[k % |events|].data, cut, ending);
  }
}
