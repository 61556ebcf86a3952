/** The threaded ingest as a client of the replay server. */
module ReplayClient {
  import opened Tasks
  import opened Sse
  import opened Replay
  import opened Ingest

  ghost predicate AllClean(events: seq<RecordedEvent>) {
    forall i :: 0 <= i < |events| ==> Clean(events[i].data)
  }

  function Refusals(m: nat): seq<Attempt> {
    seq(m, _ => Refused)
  }

  /** Connections that are refused offer nothing. */
  lemma {:induction false} OfferedAfterRefusals(m: nat, attempts: seq<Attempt>)
    ensures Offered(Refusals(m) + attempts) == Offered(attempts)
  {
    if m == 0 {
      assert Refusals(0) + attempts == attempts;
    } else {
      assert (Refusals(m) + attempts)[1..] == Refusals(m - 1) + attempts;
      OfferedAfterRefusals(m - 1, attempts);
    }
  }

  lemma OfferedFirst(attempt: Attempt, rest: seq<Attempt>)
    ensures Payloads(attempt) <= Offered([attempt] + rest)
  {
    assert ([attempt] + rest)[1..] == rest;
  }

  lemma AdmittedOfLonger(limit: nat, first: seq<string>, offered: seq<string>)
    requires first <= offered && limit <= |first|
    ensures Admitted(Some(limit), 0, offered) == first[..limit]
  {
  }

  lemma CycleStarts(events: seq<RecordedEvent>, k: nat, limit: nat)
    requires events != [] && limit <= k
    ensures Cycle(events, k)[..limit] == Cycle(events, limit)
  {
  }

  /**
   A client with a limit takes exactly the payloads at `i` mod n for `i` below the limit from a server that
   loops over a clean fixture: however often it was refused first, wherever its stream is cut after the
   frames it needs, and whatever would come after.
   */
  lemma LimitedClient(
    events: seq<RecordedEvent>, limit: nat, m: nat, k: nat, cut: nat, ending: Ending, rest: seq<Attempt>)
    requires events != [] && AllClean(events) && limit <= k && cut < |Frame(events[k % |events|].data)|
    ensures var text := Encode(Cycle(events, k)) + Frame(events[k % |events|].data)[..cut];
            Admitted(Some(limit), 0, Offered(Refusals(m) + ([Stream(text, ending)] + rest))) == Cycle(events, limit)
  {
    var first := Stream(Encode(Cycle(events, k)) + Frame(events[k % |events|].data)[..cut], ending);
    OfferedAfterRefusals(m, [first] + rest);
    OfferedFirst(first, rest);
    CutReplay(events, k, cut, ending);
    AdmittedOfLonger(limit, Cycle(events, k), Offered([first] + rest));
    CycleStarts(events, k, limit);
  }

  /** The text of the first `k` chunks of a fresh stream. */
  method Transmit(events: seq<RecordedEvent>, k: nat) returns (text: string)
    requires events != []
    ensures text == Encode(Cycle(events, k))
  {
    var server := new ReplayStream(events);
    text := [];
    for i := 0 to k
      invariant server.Valid() && fresh(server) && server.events == events
      invariant server.served == i && text == server.sent
    {
      var chunk := server.Next();
      text := text + chunk.value.1;
    }
  }

  lemma OneAttempt(attempt: Attempt)
    ensures Offered([attempt]) == Payloads(attempt)
  {
    assert [attempt][1..] == [];
  }

  /** Server and client together: `k` chunks, and then the connection breaks. */
  method Fetch(events: seq<RecordedEvent>, k: nat, limit: Option<nat>)
    returns (outcome: Option<Outcome>, sunk: seq<string>)
    requires events != [] && AllClean(events)
    ensures sunk == Cycle(events, if limit.Some? && limit.value < k then limit.value else k)
    ensures outcome == Some(LimitReached) <==> limit.Some? && limit.value <= k
  {
    var text := Transmit(events, k);
    var attempts := [Stream(text, Failure)];
    var waits;
    outcome, sunk, waits := RunSse(attempts, limit, None);
    CleanReplays(events, k, Failure);
    OneAttempt(attempts[0]);
    FullIff(limit, Cycle(events, k));
    if limit.Some? && limit.value <= k {
      AdmittedOfLonger(limit.value, Cycle(events, k), Cycle(events, k));
      CycleStarts(events, k, limit.value);
    }
  }
}
