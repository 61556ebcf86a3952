/** The threaded ingest: one connection after another until the limit, cancellation or a clean end. */
module Ingest {
  import opened Tasks
  import opened Sse

  /** One connection attempt: refused, or a stream of text that ends in some way. */
  datatype Attempt = Refused | Stream(text: string, ending: Ending)

  datatype Outcome = LimitReached | Cancelled

  /** The cancel flag, which is never cleared: the first of the successive looks that finds it set, if any. */
  type Flag = Option<nat>

  predicate IsSet(flag: Flag, look: nat) {
    flag.Some? && look >= flag.value
  }

  predicate Full(limit: Option<nat>, count: nat) {
    limit.Some? && count >= limit.value
  }

  /** As much of `payloads` as the limit still admits. */
  function Admitted(limit: Option<nat>, count: nat, payloads: seq<string>): seq<string> {
    if limit.None? || count + |payloads| <= limit.value then payloads
    else payloads[..if limit.value > count then limit.value - count else 0]
  }

  function Payloads(a: Attempt): seq<string> {
    if a.Refused? then [] else Delivered(a.text, a.ending)
  }

  predicate EndsCleanly(a: Attempt) {
    a.Stream? && a.ending.Eof?
  }

  /** Everything the attempts hold, up to the first that ends cleanly. */
  function Offered(attempts: seq<Attempt>): seq<string> {
    if attempts == [] then []
    else if EndsCleanly(attempts[0]) then Payloads(attempts[0])
    else Payloads(attempts[0]) + Offered(attempts[1..])
  }

  ghost predicate SomeCleanEnd(attempts: seq<Attempt>) {
    exists i :: 0 <= i < |attempts| && EndsCleanly(attempts[i])
  }

  /** Admitting a whole stream is admitting its first part, and then the rest with what room is left. */
  lemma AdmittedParts(limit: Option<nat>, count: nat, a: seq<string>, b: seq<string>)
    requires limit.Some? ==> count <= limit.value
    ensures var first := Admitted(limit, count, a);
            Admitted(limit, count, a + b) == first + Admitted(limit, count + |first|, b)
  {
  }

  lemma FullIff(limit: Option<nat>, offered: seq<string>)
    ensures Full(limit, |Admitted(limit, 0, offered)|) <==> limit.Some? && |offered| >= limit.value
  {
  }

  lemma OfferedFrom(attempts: seq<Attempt>, n: nat, limit: Option<nat>, count: nat)
    requires n < |attempts| && (limit.Some? ==> count <= limit.value)
    ensures var first := Admitted(limit, count, Payloads(attempts[n]));
            Admitted(limit, count, Offered(attempts[n..])) ==
            first + if EndsCleanly(attempts[n]) then []
            else Admitted(limit, count + |first|, Offered(attempts[n + 1..]))
  {
    assert attempts[n..][1..] == attempts[n + 1..];
    AdmittedParts(limit, count, Payloads(attempts[n]), Offered(attempts[n + 1..]));
  }

  lemma NothingAdmitted(limit: Option<nat>, count: nat, payloads: seq<string>)
    requires Full(limit, count)
    ensures Admitted(limit, count, payloads) == []
  {
  }

  /** What remains to be admitted after `sunk`, at attempt number `n`. */
  ghost function Remaining(attempts: seq<Attempt>, n: nat, limit: Option<nat>, count: nat): seq<string>
    requires n <= |attempts|
  {
    Admitted(limit, count, Offered(attempts[n..]))
  }

  lemma AttemptAdds(attempts: seq<Attempt>, n: nat, limit: Option<nat>, count: nat, more: seq<string>)
    requires n < |attempts| && (limit.Some? ==> count <= limit.value)
    requires more <= Admitted(limit, count, Payloads(attempts[n]))
    ensures var rest, count' := Remaining(attempts, n, limit, count), count + |more|;
            && more <= rest
            && (more == Admitted(limit, count, Payloads(attempts[n])) ==>
                  && (EndsCleanly(attempts[n]) || Full(limit, count') ==> more == rest)
                  && (!EndsCleanly(attempts[n]) ==> rest == more + Remaining(attempts, n + 1, limit, count')))
  {
    OfferedFrom(attempts, n, limit, count);
    if Full(limit, count + |more|) {
      NothingAdmitted(limit, count + |more|, Offered(attempts[n + 1..]));
    }
  }

  /** `sunk` is what the first `n` attempts, none of which ended cleanly, gave under the limit. */
  ghost predicate SunkSoFar(attempts: seq<Attempt>, n: nat, limit: Option<nat>, sunk: seq<string>)
    requires n <= |attempts|
  {
    && (limit.Some? ==> |sunk| <= limit.value)
    && (forall i :: 0 <= i < n ==> !EndsCleanly(attempts[i]))
    && Remaining(attempts, 0, limit, 0) == sunk + Remaining(attempts, n, limit, |sunk|)
  }

  /** What has been sunk when the loop is left at attempt `n`. */
  ghost predicate Final(attempts: seq<Attempt>, limit: Option<nat>, sunk: seq<string>) {
    sunk == Admitted(limit, 0, Offered(attempts)) && (SomeCleanEnd(attempts) || Full(limit, |sunk|))
  }

  lemma LoopExits(attempts: seq<Attempt>, n: nat, limit: Option<nat>, sunk: seq<string>)
    requires n <= |attempts| && SunkSoFar(attempts, n, limit, sunk)
    ensures sunk <= Admitted(limit, 0, Offered(attempts))
    ensures Full(limit, |sunk|) ==> Final(attempts, limit, sunk)
    ensures n == |attempts| && !Full(limit, |sunk|) ==>
              sunk == Admitted(limit, 0, Offered(attempts)) && !SomeCleanEnd(attempts)
  {
  }

  lemma AttemptWithin(attempts: seq<Attempt>, n: nat, limit: Option<nat>, sunk: seq<string>, more: seq<string>)
    requires n < |attempts| && SunkSoFar(attempts, n, limit, sunk)
    requires more <= Admitted(limit, |sunk|, Payloads(attempts[n]))
    ensures sunk + more <= Remaining(attempts, 0, limit, 0) && (limit.Some? ==> |sunk + more| <= limit.value)
  {
  }

  lemma LastAttempt(attempts: seq<Attempt>, n: nat, limit: Option<nat>, sunk: seq<string>, more: seq<string>)
    requires n < |attempts| && SunkSoFar(attempts, n, limit, sunk) && EndsCleanly(attempts[n])
    requires more == Admitted(limit, |sunk|, Payloads(attempts[n]))
    ensures Final(attempts, limit, sunk + more)
  {
  }

  lemma Regroup(a: seq<string>, b: seq<string>, c: seq<string>)
    ensures a + (b + c) == (a + b) + c
  {
  }

  lemma FailedAttempt(
    attempts: seq<Attempt>, n: nat, limit: Option<nat>, sunk: seq<string>, more: seq<string>)
    requires n < |attempts| && SunkSoFar(attempts, n, limit, sunk) && !EndsCleanly(attempts[n])
    requires more == Admitted(limit, |sunk|, Payloads(attempts[n]))
    ensures SunkSoFar(attempts, n + 1, limit, sunk + more)
  {
    AttemptAdds(attempts, n, limit, |sunk|, more);
    AttemptWithin(attempts, n, limit, sunk, more);
    Regroup(sunk, more, Remaining(attempts, n + 1, limit, |sunk| + |more|));
  }

  /** One attempt adds only what was still to come, and leaves either the final state or the loop's invariant. */
  lemma LoopGoesOn(
    attempts: seq<Attempt>, n: nat, limit: Option<nat>, sunk: seq<string>, more: seq<string>)
    requires n < |attempts| && SunkSoFar(attempts, n, limit, sunk)
    requires more <= Admitted(limit, |sunk|, Payloads(attempts[n]))
    ensures sunk + more <= Admitted(limit, 0, Offered(attempts)) && (limit.Some? ==> |sunk + more| <= limit.value)
    ensures more == Admitted(limit, |sunk|, Payloads(attempts[n])) ==>
              if EndsCleanly(attempts[n]) then Final(attempts, limit, sunk + more)
              else SunkSoFar(attempts, n + 1, limit, sunk + more)
    ensures more == Admitted(limit, |sunk|, Payloads(attempts[n])) && Full(limit, |sunk + more|) ==>
              Final(attempts, limit, sunk + more)
  {
    assert attempts[0..] == attempts;
    AttemptWithin(attempts, n, limit, sunk, more);
    if more == Admitted(limit, |sunk|, Payloads(attempts[n])) {
      if EndsCleanly(attempts[n]) {
        LastAttempt(attempts, n, limit, sunk, more);
      } else {
        FailedAttempt(attempts, n, limit, sunk, more);
        if Full(limit, |sunk + more|) {
          LoopExits(attempts, n + 1, limit, sunk + more);
        }
      }
    }
  }

  // ---- One connection ----

  function LinesOf(a: Attempt): seq<string> {
    if a.Refused? then [] else LinesRead(a.text, a.ending)
  }

  /** The decoder after the first `i` lines. */
  function DecodedAt(lines: seq<string>, i: nat): Decoder
    requires i <= |lines|
  {
    if i == 0 then IDLE else Feed(DecodedAt(lines, i - 1), lines[i - 1])
  }

  lemma {:induction false} DecodedIsFed(lines: seq<string>, i: nat)
    requires i <= |lines|
    ensures DecodedAt(lines, i) == FeedAll(IDLE, lines[..i])
  {
    if i > 0 {
      DecodedIsFed(lines, i - 1);
      assert lines[..i][..i - 1] == lines[..i - 1];
    }
  }

  lemma {:induction false} DecodedGrows(lines: seq<string>, i: nat, k: nat)
    requires i <= k <= |lines|
    ensures DecodedAt(lines, i).out <= DecodedAt(lines, k).out
  {
    if i < k {
      DecodedGrows(lines, i, k - 1);
    }
  }

  lemma DecodedAll(a: Attempt)
    ensures DecodedAt(LinesOf(a), |LinesOf(a)|).out == Payloads(a)
  {
    DecodedIsFed(LinesOf(a), |LinesOf(a)|);
    assert LinesOf(a)[..|LinesOf(a)|] == LinesOf(a);
  }

  lemma AdmittedWhole(limit: Option<nat>, count: nat, payloads: seq<string>)
    requires limit.Some? ==> count + |payloads| <= limit.value
    ensures Admitted(limit, count, payloads) == payloads
  {
  }

  lemma AdmittedPart(limit: Option<nat>, count: nat, part: seq<string>, payloads: seq<string>)
    requires part <= payloads && (limit.Some? ==> count + |part| <= limit.value)
    ensures part <= Admitted(limit, count, payloads)
    ensures Full(limit, count + |part|) ==> part == Admitted(limit, count, payloads)
  {
  }

  /** What the first `i` lines of an attempt deliver, as far as the limit admits it. */
  function Within(a: Attempt, limit: Option<nat>, count: nat, i: nat): seq<string>
    requires i <= |LinesOf(a)|
  {
    Admitted(limit, count, DecodedAt(LinesOf(a), i).out)
  }

  /**
   There is one look before each line. If the flag is set within the connection, what is sunk is what the
   lines before that deliver, and nothing if it was set before the connection.
   */
  ghost predicate StopsAtFlag(a: Attempt, limit: Option<nat>, flag: Flag, looks: nat, count: nat, sunk: seq<string>) {
    flag.Some? && flag.value <= looks + |LinesOf(a)| ==>
      sunk == Within(a, limit, count, if flag.value <= looks then 0 else flag.value - looks)
  }

  lemma StopsAtOnce(a: Attempt, limit: Option<nat>, flag: Flag, looks: nat, count: nat, sunk: seq<string>)
    requires StopsAtFlag(a, limit, flag, looks, count, sunk) && IsSet(flag, looks)
    ensures sunk == []
  {
  }

  /**
   What reading a connection promises: a part of its payloads that the limit admits, and all of that unless
   the flag was found set; and what the clean return means.
   */
  ghost predicate Faithful(
    a: Attempt, limit: Option<nat>, flag: Flag, count: nat, ok: bool, sunk: seq<string>, looks': nat)
  {
    var all, full := Admitted(limit, count, Payloads(a)), Full(limit, count + |sunk|);
    && sunk <= all
    && (!IsSet(flag, looks') ==> sunk == all && (ok <==> EndsCleanly(a) || full))
    && (!ok ==> sunk == all && !EndsCleanly(a) && !full)
  }

  /** A connection after `i` lines, none of which was preceded by a set flag. */
  ghost predicate Reading(
    a: Attempt, limit: Option<nat>, flag: Flag, looks: nat, count: nat, i: nat, data: seq<string>, sunk: seq<string>)
  {
    && i <= |LinesOf(a)| && (i > 0 ==> !IsSet(flag, looks + i - 1))
    && (limit.Some? ==> count + |sunk| <= limit.value)
    && Decoder(data, sunk) == DecodedAt(LinesOf(a), i)
  }

  lemma ReadsOn(
    a: Attempt, limit: Option<nat>, flag: Flag, looks: nat, count: nat, i: nat,
    data: seq<string>, sunk: seq<string>, data': seq<string>, sunk': seq<string>)
    requires Reading(a, limit, flag, looks, count, i, data, sunk) && i < |LinesOf(a)|
    requires !IsSet(flag, looks + i) && !Full(limit, count + |sunk|)
    requires Decoder(data', sunk') == Feed(Decoder(data, sunk), LinesOf(a)[i])
    ensures Reading(a, limit, flag, looks, count, i + 1, data', sunk')
  {
  }

  /** What was sunk when the reading stops after `i` lines is a part of whatever more lines deliver. */
  lemma PartSunk(
    a: Attempt, limit: Option<nat>, flag: Flag, looks: nat, count: nat,
    i: nat, data: seq<string>, sunk: seq<string>, k: nat)
    requires Reading(a, limit, flag, looks, count, i, data, sunk) && i <= k <= |LinesOf(a)|
    ensures sunk <= Within(a, limit, count, k)
    ensures Full(limit, count + |sunk|) || i == k ==> sunk == Within(a, limit, count, k)
  {
    DecodedGrows(LinesOf(a), i, k);
    AdmittedPart(limit, count, sunk, DecodedAt(LinesOf(a), k).out);
    if i == k {
      AdmittedWhole(limit, count, sunk);
    }
  }

  lemma ReadStops(
    a: Attempt, limit: Option<nat>, flag: Flag, looks: nat, count: nat, i: nat, data: seq<string>, sunk: seq<string>)
    requires Reading(a, limit, flag, looks, count, i, data, sunk)
    requires IsSet(flag, looks + i) || Full(limit, count + |sunk|)
    ensures StopsAtFlag(a, limit, flag, looks, count, sunk)
    ensures Faithful(a, limit, flag, count, true, sunk, looks + i + 1)
  {
    DecodedAll(a);
    PartSunk(a, limit, flag, looks, count, i, data, sunk, |LinesOf(a)|);
    PartSunk(a, limit, flag, looks, count, i, data, sunk, i);
    if !IsSet(flag, looks + i) && flag.Some? && flag.value <= looks + |LinesOf(a)| {
      PartSunk(a, limit, flag, looks, count, i, data, sunk, flag.value - looks);
    }
  }

  lemma ReadEnds(
    a: Attempt, limit: Option<nat>, flag: Flag, looks: nat, count: nat,
    data: seq<string>, ok: bool, sunk: seq<string>, looks': nat)
    requires Reading(a, limit, flag, looks, count, |LinesOf(a)|, data, sunk) && looks' >= looks + |LinesOf(a)|
    requires if EndsCleanly(a) then ok
             else ok <==> Full(limit, count + |sunk|) || (looks' > 0 && a.Stream? && IsSet(flag, looks' - 1))
    ensures StopsAtFlag(a, limit, flag, looks, count, sunk) && Faithful(a, limit, flag, count, ok, sunk, looks')
  {
    DecodedAll(a);
    PartSunk(a, limit, flag, looks, count, |LinesOf(a)|, data, sunk, |LinesOf(a)|);
  }

  /**
   One connection. `ok` is the clean return, which a full count, a set flag and the end of the stream
   share; an error yields `!ok`, unless the count was already full when the error would have been read.
   */
  method ReadStream(attempt: Attempt, limit: Option<nat>, flag: Flag, looks: nat, count: nat)
    returns (ok: bool, sunk: seq<string>, looks': nat, count': nat)
    requires !Full(limit, count)
    ensures looks' >= looks && count' == count + |sunk|
    ensures Faithful(attempt, limit, flag, count, ok, sunk, looks')
    ensures StopsAtFlag(attempt, limit, flag, looks, count, sunk)
    ensures looks' >= looks + |LinesOf(attempt)| || Full(limit, count') || IsSet(flag, looks')
  {
    sunk, looks', count' := [], looks, count;
    if attempt.Refused? {
      ReadEnds(attempt, limit, flag, looks, count, [], false, sunk, looks');
      return false, sunk, looks', count';
    }
    var lines := LinesRead(attempt.text, attempt.ending);
    var data: seq<string> := [];
    for i := 0 to |lines|
      invariant count' == count + |sunk| && looks' == looks + i
      invariant Reading(attempt, limit, flag, looks, count, i, data, sunk)
    {
      looks' := looks' + 1;
      if IsSet(flag, looks' - 1) {
        ReadStops(attempt, limit, flag, looks, count, i, data, sunk);
        return true, sunk, looks', count';
      }
      if Full(limit, count') {
        ReadStops(attempt, limit, flag, looks, count, i, data, sunk);
        return true, sunk, looks', count';
      }
      var line := lines[i];
      ghost var before := Decoder(data, sunk);
      if line == [] {
        if data != [] {
          sunk := sunk + [Join(data)];
          count' := count' + 1;
          data := [];
        }
      } else if IsData(line) {
        data := data + [TrimStart(line[5..])];
      }
      ReadsOn(attempt, limit, flag, looks, count, i, before.data, before.out, data, sunk);
    }
    if attempt.ending.Failure? {
      looks' := looks' + 1;
      ok := IsSet(flag, looks' - 1) || Full(limit, count');
    } else {
      ok := true;
    }
    ReadEnds(attempt, limit, flag, looks, count, data, ok, sunk, looks');
  }

  // ---- The reconnect loop ----

  function Pow2(n: nat): nat {
    if n == 0 then 1 else 2 * Pow2(n - 1)
  }

  /** Each wait is twice the one before, from 200 ms up to 30 s. */
  ghost predicate BacksOff(waits: seq<nat>) {
    forall i: nat :: i < |waits| ==> waits[i] == if 200 * Pow2(i) < 30_000 then 200 * Pow2(i) else 30_000
  }

  lemma BacksOffNext(waits: seq<nat>, ms: nat)
    requires BacksOff(waits) && ms == if 200 * Pow2(|waits|) < 30_000 then 200 * Pow2(|waits|) else 30_000
    ensures BacksOff(waits + [ms])
    ensures var next := 200 * Pow2(|waits| + 1);
            (if ms * 2 < 30_000 then ms * 2 else 30_000) == if next < 30_000 then next else 30_000
  {
  }

  /**
   What a return promises: never more than the limit admits of what is offered; and unless it is cancelled,
   all of that, with `LimitReached` for a full count or a clean end of stream.
   */
  ghost predicate Honest(attempts: seq<Attempt>, limit: Option<nat>, outcome: Option<Outcome>, sunk: seq<string>) {
    && (limit.Some? ==> |sunk| <= limit.value)
    && sunk <= Admitted(limit, 0, Offered(attempts))
    && (outcome != Some(Cancelled) ==>
          && sunk == Admitted(limit, 0, Offered(attempts))
          && (Full(limit, |sunk|) <==> limit.Some? && |Offered(attempts)| >= limit.value)
          && (outcome == Some(LimitReached) <==> SomeCleanEnd(attempts) || Full(limit, |sunk|)))
  }

  /** A return before the next attempt. */
  lemma HonestBefore(
    attempts: seq<Attempt>, limit: Option<nat>, n: nat, outcome: Option<Outcome>, sunk: seq<string>)
    requires n <= |attempts| && SunkSoFar(attempts, n, limit, sunk)
    requires outcome == Some(Cancelled) || (outcome == Some(LimitReached) && Full(limit, |sunk|)) ||
             (outcome == None && n == |attempts| && !Full(limit, |sunk|))
    ensures Honest(attempts, limit, outcome, sunk)
  {
    LoopExits(attempts, n, limit, sunk);
    FullIff(limit, Offered(attempts));
  }

  /** A return after attempt `n`, cancelled or clean. */
  lemma HonestAfter(
    attempts: seq<Attempt>, limit: Option<nat>, flag: Flag, n: nat, before: seq<string>, more: seq<string>,
    ok: bool, looks: nat, outcome: Option<Outcome>, sunk: seq<string>)
    requires n < |attempts| && SunkSoFar(attempts, n, limit, before) && sunk == before + more
    requires Faithful(attempts[n], limit, flag, |before|, ok, more, looks)
    requires outcome == Some(Cancelled) || (outcome == Some(LimitReached) && ok && !IsSet(flag, looks))
    ensures Honest(attempts, limit, outcome, sunk)
  {
    LoopGoesOn(attempts, n, limit, before, more);
    FullIff(limit, Offered(attempts));
  }

  /** If the flag is set during the first connection, nothing that comes after is sunk. */
  ghost predicate FirstCut(
    attempts: seq<Attempt>, limit: Option<nat>, flag: Flag, outcome: Option<Outcome>, sunk: seq<string>)
  {
    attempts != [] && flag.Some? && 1 <= flag.value <= 1 + |LinesOf(attempts[0])| && !Full(limit, 0) ==>
      && sunk == Within(attempts[0], limit, 0, flag.value - 1)
      && (Full(limit, |sunk|) || outcome == Some(Cancelled))
  }

  /**
   What the loop promises. Besides being honest, it is cancelled only if the flag was set, stops at once if it
   was set from the first look on, and within the first connection if it was set there.
   */
  ghost predicate Promised(
    attempts: seq<Attempt>, limit: Option<nat>, flag: Flag, outcome: Option<Outcome>, sunk: seq<string>)
  {
    && Honest(attempts, limit, outcome, sunk)
    && (flag.None? ==> outcome != Some(Cancelled))
    && (flag == Some(0) ==> outcome == Some(Cancelled) && sunk == [])
    && FirstCut(attempts, limit, flag, outcome, sunk)
  }

  /** The loop before attempt `n`. */
  ghost predicate Looping(
    attempts: seq<Attempt>, limit: Option<nat>, flag: Flag, n: nat, looks: nat, sunk: seq<string>)
  {
    && n <= |attempts| && SunkSoFar(attempts, n, limit, sunk)
    && (if n == 0 then looks == 0 && sunk == [] else looks > 0 && !IsSet(flag, 1 + |LinesOf(attempts[0])|))
  }

  /** Before an attempt: the flag, then the count, then whether there is another attempt. */
  lemma BeforeAttempt(
    attempts: seq<Attempt>, limit: Option<nat>, flag: Flag, n: nat, looks: nat, sunk: seq<string>)
    requires Looping(attempts, limit, flag, n, looks, sunk)
    ensures IsSet(flag, looks) ==> Promised(attempts, limit, flag, Some(Cancelled), sunk)
    ensures !IsSet(flag, looks) && Full(limit, |sunk|) ==> Promised(attempts, limit, flag, Some(LimitReached), sunk)
    ensures !IsSet(flag, looks) && !Full(limit, |sunk|) && n == |attempts| ==>
              Promised(attempts, limit, flag, None, sunk)
  {
    if IsSet(flag, looks) {
      HonestBefore(attempts, limit, n, Some(Cancelled), sunk);
    } else if Full(limit, |sunk|) {
      HonestBefore(attempts, limit, n, Some(LimitReached), sunk);
    } else if n == |attempts| {
      HonestBefore(attempts, limit, n, None, sunk);
    }
  }

  /** After an attempt: the flag, then the clean return, then the next attempt. */
  lemma AfterAttempt(
    attempts: seq<Attempt>, limit: Option<nat>, flag: Flag, n: nat, looks: nat, before: seq<string>,
    ok: bool, more: seq<string>, looks': nat, sunk: seq<string>)
    requires Looping(attempts, limit, flag, n, looks, before) && n < |attempts| && sunk == before + more
    requires !IsSet(flag, looks) && Faithful(attempts[n], limit, flag, |before|, ok, more, looks')
    requires StopsAtFlag(attempts[n], limit, flag, looks + 1, |before|, more)
    requires looks' >= looks + 1 + |LinesOf(attempts[n])| || Full(limit, |sunk|) || IsSet(flag, looks')
    ensures IsSet(flag, looks') ==> Promised(attempts, limit, flag, Some(Cancelled), sunk)
    ensures !IsSet(flag, looks') && ok ==> Promised(attempts, limit, flag, Some(LimitReached), sunk)
    ensures !IsSet(flag, looks') && !ok ==>
              Looping(attempts, limit, flag, n + 1, looks' + 1, sunk) && !EndsCleanly(attempts[n])
  {
    if IsSet(flag, looks') {
      HonestAfter(attempts, limit, flag, n, before, more, ok, looks', Some(Cancelled), sunk);
    } else if ok {
      HonestAfter(attempts, limit, flag, n, before, more, ok, looks', Some(LimitReached), sunk);
    } else {
      FailedAttempt(attempts, n, limit, before, more);
    }
  }

  /** One turn of the loop: the looks at flag and count, an attempt, and the looks after it. */
  method Turn(attempts: seq<Attempt>, limit: Option<nat>, flag: Flag, n: nat, looks: nat, sunk: seq<string>)
    returns (done: bool, outcome: Option<Outcome>, looks': nat, sunk': seq<string>)
    requires Looping(attempts, limit, flag, n, looks, sunk)
    ensures done ==> Promised(attempts, limit, flag, outcome, sunk') && (outcome == None ==> n == |attempts|)
    ensures !done ==>
              n < |attempts| && !EndsCleanly(attempts[n]) && Looping(attempts, limit, flag, n + 1, looks', sunk')
  {
    BeforeAttempt(attempts, limit, flag, n, looks, sunk);
    if IsSet(flag, looks) {
      return true, Some(Cancelled), looks, sunk;
    }
    if Full(limit, |sunk|) {
      return true, Some(LimitReached), looks, sunk;
    }
    if n == |attempts| {
      return true, None, looks, sunk;
    }
    var ok, more, look, count := ReadStream(attempts[n], limit, flag, looks + 1, |sunk|);
    AfterAttempt(attempts, limit, flag, n, looks, sunk, ok, more, look, sunk + more);
    if IsSet(flag, look) {
      return true, Some(Cancelled), look, sunk + more;
    }
    if ok {
      return true, Some(LimitReached), look, sunk + more;
    }
    return false, None, look + 1, sunk + more;
  }

  /**
   The reconnect loop over the attempts the network grants. No outcome means that it is about to try again.
   `waits` are the pauses after failed attempts, in milliseconds and before jitter.
   */
  method RunSse(attempts: seq<Attempt>, limit: Option<nat>, flag: Flag)
    returns (outcome: Option<Outcome>, sunk: seq<string>, waits: seq<nat>)
    ensures Promised(attempts, limit, flag, outcome, sunk)
    ensures BacksOff(waits) && |waits| <= |attempts| && (outcome == None ==> |waits| == |attempts|)
    ensures forall i :: 0 <= i < |waits| ==> !EndsCleanly(attempts[i])
  {
    sunk, waits := [], [];
    var looks, n, backoffMs := 0, 0, 200;
    while true
      invariant Looping(attempts, limit, flag, n, looks, sunk) && |waits| == n
      invariant forall i :: 0 <= i < n ==> !EndsCleanly(attempts[i])
      invariant BacksOff(waits) && backoffMs == if 200 * Pow2(n) < 30_000 then 200 * Pow2(n) else 30_000
      decreases |attempts| - n
    {
      var done;
      done, outcome, looks, sunk := Turn(attempts, limit, flag, n, looks, sunk);
      if done {
        return;
      }
      BacksOffNext(waits, backoffMs);
      waits := waits + [backoffMs];
      backoffMs := if backoffMs * 2 < 30_000 then backoffMs * 2 else 30_000;
      n := n + 1;
    }
  }

  /** A stream that ends before its first payload: the outcome claims a limit that was not met. */
  method EmptyStream(limit: nat) returns (outcome: Option<Outcome>, sunk: seq<string>)
    requires limit >= 1
    ensures outcome == Some(LimitReached) && sunk == [] && !Full(Some(limit), |sunk|)
  {
    var attempts := [Stream([], Eof)];
    var waits;
    outcome, sunk, waits := RunSse(attempts, Some(limit), None);
    assert EndsCleanly(attempts[0]);
  }
}
