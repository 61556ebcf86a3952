/**
 The threaded pipeline together with its fail-safe controller: workers record jitter and the ticker ticks
 while the main thread dispatches, each in steps that interleave in any order.
 */
module PipelineMode {
  import opened Tasks
  import opened FailSafe
  import opened FailSafeRuns
  import opened FailSafeSamples
  import opened FailSafeRaceModes
  import Races = FailSafeRaces
  import Pipeline

  datatype Joint = Joint(pipe: Pipeline.State, race: Race)

  datatype Action = OfPipe(p: Pipeline.Action) | OfRace(q: Races.Action)

  /** A payload is judged by the mode the ticker has set. */
  predicate SeesMode(a: Pipeline.Action, degraded: bool) {
    a.OfMain? && a.m.Dispatch? ==> a.m.degraded == degraded
  }

  ghost predicate Enabled(s: Joint, a: Action) {
    match a
    case OfPipe(p) => Pipeline.Enabled(s.pipe, p) && SeesMode(p, s.race.mode.degraded)
    case OfRace(q) => Races.Enabled(s.race.base, q)
  }

  ghost function Apply(jitter: Jitter, highest: nat, s: Joint, a: Action): Joint
    requires Enabled(s, a)
  {
    match a
    case OfPipe(p) => s.(pipe := Pipeline.Apply(s.pipe, p))
    case OfRace(q) => s.(race := Step(jitter, highest, s.race, q))
  }

  /** The system after the actions, if each of them is enabled when its turn comes. */
  ghost function Exec(jitter: Jitter, highest: nat, start: Pipeline.State, actions: seq<Action>): Option<Joint> {
    if actions == [] then Some(Joint(start, FIRST))
    else
      match Exec(jitter, highest, start, actions[..|actions| - 1])
      case None => None
      case Some(s) =>
        var a := actions[|actions| - 1];
        if Enabled(s, a) then Some(Apply(jitter, highest, s, a)) else None
  }

  // ---- Both components run as they do alone ----

  function PipeActions(actions: seq<Action>): seq<Pipeline.Action> {
    if actions == [] then []
    else
      var a := actions[|actions| - 1];
      PipeActions(actions[..|actions| - 1]) + if a.OfPipe? then [a.p] else []
  }

  function RaceActions(actions: seq<Action>): seq<Races.Action> {
    if actions == [] then []
    else
      var a := actions[|actions| - 1];
      RaceActions(actions[..|actions| - 1]) + if a.OfRace? then [a.q] else []
  }

  lemma PipeNext(start: Pipeline.State, ps: seq<Pipeline.Action>, s: Pipeline.State, p: Pipeline.Action)
    requires Pipeline.Exec(start, ps) == Some(s) && Pipeline.Enabled(s, p)
    ensures Pipeline.Exec(start, ps + [p]) == Some(Pipeline.Apply(s, p))
  {
    assert (ps + [p])[..|ps|] == ps;
  }

  lemma RaceNext(jitter: Jitter, highest: nat, qs: seq<Races.Action>, r: Race, q: Races.Action)
    requires Run(jitter, highest, qs) == Some(r) && Races.Enabled(r.base, q)
    ensures Run(jitter, highest, qs + [q]) == Some(Step(jitter, highest, r, q))
  {
    assert (qs + [q])[..|qs|] == qs;
  }

  /** So whatever holds of every run of the pipeline and of every race holds here. */
  lemma {:induction false} Projects(
    jitter: Jitter, highest: nat, start: Pipeline.State, actions: seq<Action>, s: Joint)
    requires Exec(jitter, highest, start, actions) == Some(s)
    ensures Pipeline.Exec(start, PipeActions(actions)) == Some(s.pipe)
    ensures Run(jitter, highest, RaceActions(actions)) == Some(s.race)
  {
    if actions != [] {
      var before, a := actions[..|actions| - 1], actions[|actions| - 1];
      var s0 := Exec(jitter, highest, start, before).value;
      Projects(jitter, highest, start, before, s0);
      match a
      case OfPipe(p) =>
        PipeNext(start, PipeActions(before), s0.pipe, p);
        assert RaceActions(before) + [] == RaceActions(before);
      case OfRace(q) =>
        RaceNext(jitter, highest, RaceActions(before), s0.race, q);
        assert PipeActions(before) + [] == PipeActions(before);
    }
  }

  // ---- When Bots are shed ----

  /** Some tick has turned Degraded Mode on. */
  ghost predicate HasEntered(r: Race) {
    exists n: nat :: EntersAt(r, n)
  }

  lemma {:induction false} FirstFlip(readings: seq<nat>, k: nat) returns (n: nat)
    requires k <= |readings| && DegradedAt(readings, k)
    ensures 1 <= n <= k && !DegradedAt(readings, n - 1) && DegradedAt(readings, n)
  {
    if DegradedAt(readings, k - 1) {
      n := FirstFlip(readings, k - 1);
    } else {
      n := k;
    }
  }

  lemma DegradedHasEntered(r: Race)
    requires r.mode == Modes(r.readings) && r.mode.degraded
    ensures HasEntered(r)
  {
    assert r.readings[..|r.readings|] == r.readings;
    var n := FirstFlip(r.readings, |r.readings|);
    assert EntersAt(r, n);
  }

  lemma StepKeepsEntered(jitter: Jitter, highest: nat, r: Race, q: Races.Action)
    requires Races.Enabled(r.base, q) && HasEntered(r)
    ensures HasEntered(Step(jitter, highest, r, q))
  {
    var r' := Step(jitter, highest, r, q);
    var n: nat :| EntersAt(r, n);
    assert r'.readings[..n] == r.readings[..n] && r'.readings[..n - 1] == r.readings[..n - 1];
    assert EntersAt(r', n);
  }

  lemma ShedsOnlyDegraded(s: Pipeline.State, p: Pipeline.Action)
    requires Pipeline.Enabled(s, p)
    ensures Pipeline.Apply(s, p).flow.shed > s.flow.shed ==> p.OfMain? && p.m.Dispatch? && p.m.degraded
    ensures Pipeline.Apply(s, p).flow.shed >= s.flow.shed
  {
  }

  /** No Bot is shed before a tick has turned Degraded Mode on. */
  lemma {:induction false} ShedAfterEntering(
    jitter: Jitter, highest: nat, start: Pipeline.State, actions: seq<Action>, s: Joint)
    requires Exec(jitter, highest, start, actions) == Some(s) && start.flow.shed == 0
    ensures s.pipe.flow.shed > 0 ==> HasEntered(s.race)
  {
    if actions != [] {
      var before, a := actions[..|actions| - 1], actions[|actions| - 1];
      var s0 := Exec(jitter, highest, start, before).value;
      ShedAfterEntering(jitter, highest, start, before, s0);
      match a
      case OfPipe(p) =>
        ShedsOnlyDegraded(s0.pipe, p);
        if s0.race.mode.degraded {
          Projects(jitter, highest, start, before, s0);
          ModeOfRun(jitter, highest, RaceActions(before), s0.race);
          DegradedHasEntered(s0.race);
        }
      case OfRace(q) =>
        if HasEntered(s0.race) {
          StepKeepsEntered(jitter, highest, s0.race, q);
        }
    }
  }

  /**
   However workers, ticker and main thread interleave, by the time a Bot has been shed three samples above
   1.5 ms were recorded, or two that each raced a tick.
   */
  lemma ShedTakesSamples(
    jitter: Jitter, highest: nat, capacity: nat, n: nat, cancel: bool, actions: seq<Action>, s: Joint)
    returns (a: nat, b: nat, c: nat)
    requires Exec(jitter, highest, Pipeline.Start(capacity, n, cancel), actions) == Some(s)
    ensures s.pipe.flow.shed > 0 ==>
              && a in s.race.base.born && b in s.race.base.born && c in s.race.base.born
              && IsHot(jitter, a) && IsHot(jitter, b) && IsHot(jitter, c)
              && a != b && ((c != a && c != b) || (a !in s.race.rested && b !in s.race.rested))
  {
    var start := Pipeline.Start(capacity, n, cancel);
    a, b, c := 0, 0, 0;
    if s.pipe.flow.shed > 0 {
      ShedAfterEntering(jitter, highest, start, actions, s);
      Projects(jitter, highest, start, actions, s);
      var e: nat :| EntersAt(s.race, e);
      a, b, c := EnteringTakesSamples(jitter, highest, RaceActions(actions), s.race, e);
    }
  }
}
