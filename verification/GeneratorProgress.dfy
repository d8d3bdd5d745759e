/** What a generator is bound to do: when it keeps issuing, for whom, and that a waiting call catches up. */
module GeneratorProgress {
  import opened Snowflake
  import opened GeneratorSpec
  import opened GeneratorRuns
  import opened GeneratorObject

  // ----- A clock that steps forward within the tolerance -----

  /** The last reading among the inputs; -1 when there is none. */
  function LastReading(inputs: seq<Input>): int
    decreases |inputs|
  {
    if inputs == [] then -1
    else if inputs[|inputs| - 1].Reading? then inputs[|inputs| - 1].now
    else LastReading(inputs[..|inputs| - 1])
  }

  /** No reading lies before the one that precedes it, nor more than `step` milliseconds after it. */
  predicate Steady(inputs: seq<Input>, step: nat)
    decreases |inputs|
  {
    if inputs == [] then true
    else
      var before, last := inputs[..|inputs| - 1], inputs[|inputs| - 1];
      && Steady(before, step)
      && (last.Reading? ==>
            last.now >= 0 && last.now >= LastReading(before)
            && (LastReading(before) != -1 ==> last.now - LastReading(before) <= step))
  }

  predicate NoShutdown(inputs: seq<Input>) {
    forall i :: 0 <= i < |inputs| ==> !inputs[i].Shutdown?
  }

  /**
   * Under a steady clock, whose steps error mode tolerates, no attempt ever fails in any drift mode, none
   * waits but for a used-up millisecond, and the generator stays at the last reading.
   */
  lemma {:induction false} SteadyClockNeverFails(c: Config, workerID: int, inputs: seq<Input>, step: nat)
    requires c.Accepted() && Start(c, workerID) && Steady(inputs, step) && NoShutdown(inputs)
    requires c.action == ReportError && c.driftProtection ==> step * 1_000_000 <= c.maxClockDrift
    ensures var s := ApplyAll(c, Begin(workerID).state, inputs);
            s.lastTimestamp == LastReading(inputs) && !s.shuttingDown
    ensures forall k :: 0 <= k < |Outcomes(c, Begin(workerID).state, inputs)| ==>
              var o := Outcomes(c, Begin(workerID).state, inputs)[k]; o.Issued? || o == NeedWait(0)
    decreases |inputs|
  {
    if inputs != [] {
      var n := |inputs| - 1;
      SteadyClockNeverFails(c, workerID, inputs[..n], step);
      var s := ApplyAll(c, Begin(workerID).state, inputs[..n]);
      if inputs[n].Reading? {
        var now := inputs[n].now;
        assert s.lastTimestamp != -1 ==> (now - s.lastTimestamp) * 1_000_000 <= step * 1_000_000;
        AttemptIsDecided(c, s, now);
        AttemptReports(c, s, now);
      }
    }
  }

  /** The readings among the inputs. */
  function Readings(inputs: seq<Input>): seq<int>
    decreases |inputs|
  {
    if inputs == [] then []
    else
      var before, last := Readings(inputs[..|inputs| - 1]), inputs[|inputs| - 1];
      if last.Reading? then before + [last.now] else before
  }

  /** Every attempt is answered, and whatever is issued outside ignore mode is issued at its own reading. */
  lemma {:induction false} EveryReadingAnswered(c: Config, s: State, inputs: seq<Input>)
    requires c.Accepted() && InRange(c, s)
    ensures |Outcomes(c, s, inputs)| == |Readings(inputs)|
    ensures c.action != IgnoreDrift ==>
              forall k :: 0 <= k < |Readings(inputs)| && Outcomes(c, s, inputs)[k].Issued? ==>
                Outcomes(c, s, inputs)[k].parts.timestamp == Readings(inputs)[k]
    decreases |inputs|
  {
    if inputs != [] {
      var n := |inputs| - 1;
      EveryReadingAnswered(c, s, inputs[..n]);
      if inputs[n].Reading? {
        AttemptIsDecided(c, ApplyAll(c, s, inputs[..n]), inputs[n].now);
        AttemptReports(c, ApplyAll(c, s, inputs[..n]), inputs[n].now);
      }
    }
  }

  // ----- Worker switches and shutdown -----

  /** The worker id in force after the inputs: the last one within range, or else the first. */
  function WorkerAfter(max: nat, workerID: int, inputs: seq<Input>): int
    decreases |inputs|
  {
    if inputs == [] then workerID
    else
      var before, last := inputs[..|inputs| - 1], inputs[|inputs| - 1];
      if last.SetWorker? && 0 <= last.workerID <= max then last.workerID else WorkerAfter(max, workerID, before)
  }

  /** What an attempt issues carries the worker id that was set last, and the configured datacenter. */
  lemma {:induction false} IssuesUnderLastWorker(c: Config, workerID: int, inputs: seq<Input>, now: int)
    requires c.Accepted() && Start(c, workerID)
    ensures var s := ApplyAll(c, Begin(workerID).state, inputs);
            var o := Try(c, s, now).outcome;
            && s.workerID == WorkerAfter(c.MaxWorker(), workerID, inputs)
            && (o.Issued? ==> o.parts.worker == s.workerID && o.parts.datacenter == c.datacenterID)
    decreases |inputs|
  {
    if inputs != [] {
      var n := |inputs| - 1;
      IssuesUnderLastWorker(c, workerID, inputs[..n], now);
      if inputs[n].Reading? {
        AttemptReports(c, ApplyAll(c, Begin(workerID).state, inputs[..n]), inputs[n].now);
      }
    }
    AttemptReports(c, ApplyAll(c, Begin(workerID).state, inputs), now);
  }

  /** After a shutdown every attempt is refused and nothing is issued any more. */
  lemma {:induction false} NothingAfterShutdown(c: Config, s: State, inputs: seq<Input>)
    requires c.Accepted() && InRange(c, s) && Shutdown in inputs
    ensures ApplyAll(c, s, inputs).shuttingDown
    ensures forall now :: Try(c, ApplyAll(c, s, inputs), now).outcome == Failed(ShuttingDown)
    decreases |inputs|
  {
    var n := |inputs| - 1;
    if inputs[n] != Shutdown {
      assert Shutdown in inputs[..n];
      NothingAfterShutdown(c, s, inputs[..n]);
    }
  }

  // ----- A call that nobody interferes with -----

  predicate Alone(env: Environment, k: nat) {
    env.others(k) == [] && !env.stopBeforeTry(k) && !env.stopBeforeWait(k)
  }

  lemma {:induction false} AttemptAlone(c: Config, s: State, env: Environment, k: nat)
    requires c.Accepted() && InRange(c, s) && Alone(env, k)
    ensures AttemptAt(c, s, env, k) == Try(c, StateAfter(c, s, env, k), env.wall(k))
  {
  }

  /** A call makes at least one attempt more than go on. */
  lemma {:induction false} EndsNotBefore(c: Config, s: State, env: Environment, n: nat, attempts: nat, outcome: Outcome)
    requires c.Accepted() && InRange(c, s) && EndsWith(c, s, env, attempts, outcome)
    requires AllGoOn(c, s, env, n) && !env.stopBeforeTry(n)
    ensures attempts > n
  {
    assert forall k :: 0 <= k < n ==> GoesOn(c, s, env, k) && !env.stopBeforeTry(k);
  }

  /** No attempt follows one that does not go on, and what that one reports is returned when it is no wait. */
  lemma {:induction false} EndsNotAfter(c: Config, s: State, env: Environment, n: nat, attempts: nat, outcome: Outcome)
    requires c.Accepted() && InRange(c, s) && EndsWith(c, s, env, attempts, outcome)
    requires attempts > n && !AttemptAt(c, s, env, n).outcome.NeedWait?
    ensures attempts == n + 1 && outcome == AttemptAt(c, s, env, n).outcome
  {
    assert !GoesOn(c, s, env, n);
  }

  /** The call ends with attempt n when all before it go on and it does not ask for a wait. */
  lemma {:induction false} EndsAt(c: Config, s: State, env: Environment, n: nat, attempts: nat, outcome: Outcome)
    requires c.Accepted() && InRange(c, s) && EndsWith(c, s, env, attempts, outcome)
    requires AllGoOn(c, s, env, n) && !env.stopBeforeTry(n) && !AttemptAt(c, s, env, n).outcome.NeedWait?
    ensures attempts == n + 1 && outcome == AttemptAt(c, s, env, n).outcome
  {
    EndsNotBefore(c, s, env, n, attempts, outcome);
    EndsNotAfter(c, s, env, n, attempts, outcome);
  }

  /** An overflow wait ends at the next millisecond: the second attempt reads a later clock and issues there. */
  lemma {:induction false} OverflowIsOvercome(c: Config, s: State, env: Environment, attempts: nat, outcome: Outcome)
    requires c.Accepted() && InRange(c, s) && EndsWith(c, s, env, attempts, outcome)
    requires Alone(env, 0) && Alone(env, 1) && !s.shuttingDown && s.sequence == c.MaxSequence()
    requires env.wall(0) == s.lastTimestamp < env.wall(1) && env.tick(0) <= 2_000_000_000
    requires c.action == ReportError && c.driftProtection && s.lastTimestamp != -1 ==>
               (env.wall(1) - s.lastTimestamp) * 1_000_000 <= c.maxClockDrift
    ensures attempts == 2 && outcome == Issued(Parts(env.wall(1), c.datacenterID, s.workerID, 0))
  {
    AttemptAlone(c, s, env, 0);
    AttemptIsDecided(c, s, env.wall(0));
    AttemptReports(c, s, env.wall(0));
    assert ClockAt(c, s, env, 0) == 0 && GoesOn(c, s, env, 0);
    var after := s.(sequence := 0);
    assert StateAfter(c, s, env, 1) == after;
    AttemptAlone(c, s, env, 1);
    AttemptIsDecided(c, after, env.wall(1));
    AttemptReports(c, after, env.wall(1));
    EndsAt(c, s, env, 1, attempts, outcome);
  }

  /** The first n readings lie behind, by no more than wait mode waits for. */
  predicate Behind(last: int, env: Environment, n: nat) {
    forall j :: 0 <= j < n ==> Alone(env, j) && 0 < last - env.wall(j) <= 5_000
  }

  /** The monotonic time after an attempt that read a clock behind `last`, and its sleep. */
  function Slept(last: int, env: Environment, j: nat, now: int): int {
    var started := now + env.tick(j) + env.gap(j);
    var left := 2_000_000_000 - started;
    var wait := if last - env.wall(j) < 5_000 then (last - env.wall(j) + 1) * 1_000_000 else 5_000_000_000;
    if left <= 0 then started else started + (if wait < left then wait else left) + env.oversleep(j)
  }

  /** The monotonic clock of a call whose first n attempts read a clock behind `last`, within the budget. */
  predicate Elapses(last: int, env: Environment, n: nat, clock: nat -> int) {
    && clock(0) == 0
    && (forall j: nat :: j < n ==> clock(j + 1) == Slept(last, env, j, clock(j)))
    && (forall j: nat :: j < n ==> clock(j) + env.tick(j) <= 2_000_000_000)
  }

  /** One attempt that finds the clock behind goes on, changes nothing, and sleeps as long as there is budget. */
  lemma {:induction false} WaitsOnce(c: Config, s: State, env: Environment, k: nat)
    requires c.Accepted() && InRange(c, s) && c.action == WaitForClock && !s.shuttingDown
    requires Alone(env, k) && 0 < s.lastTimestamp - env.wall(k) <= 5_000
    requires StateAfter(c, s, env, k) == s && ClockAt(c, s, env, k) + env.tick(k) <= 2_000_000_000
    ensures GoesOn(c, s, env, k) && StateAfter(c, s, env, k + 1) == s
    ensures ClockAt(c, s, env, k + 1) == Slept(s.lastTimestamp, env, k, ClockAt(c, s, env, k))
  {
    AttemptAlone(c, s, env, k);
    AttemptIsDecided(c, s, env.wall(k));
    AttemptReports(c, s, env.wall(k));
    SleepsSo(c, s, env, k);
  }

  /** While the clock lies behind and the budget lasts, a call in wait mode goes on and changes nothing. */
  lemma {:induction false} WaitsWhileBehind(c: Config, s: State, env: Environment, n: nat, clock: nat -> int)
    requires c.Accepted() && InRange(c, s) && c.action == WaitForClock && !s.shuttingDown
    requires Behind(s.lastTimestamp, env, n) && Elapses(s.lastTimestamp, env, n, clock)
    ensures StateAfter(c, s, env, n) == s && ClockAt(c, s, env, n) == clock(n) && AllGoOn(c, s, env, n)
  {
    if n > 0 {
      var k: nat := n - 1;
      WaitsWhileBehind(c, s, env, k, clock);
      assert Alone(env, k) && clock(k + 1) == Slept(s.lastTimestamp, env, k, clock(k));
      WaitsOnce(c, s, env, k);
    }
  }

  /** How the monotonic clock moves on from an attempt that asks for a drift wait. */
  lemma {:induction false} SleepsSo(c: Config, s: State, env: Environment, k: nat)
    requires c.Accepted() && InRange(c, s)
    requires AttemptAt(c, s, env, k).outcome.NeedWait? && AttemptAt(c, s, env, k).outcome.duration > 0
    ensures var started := ClockAt(c, s, env, k) + env.tick(k) + env.gap(k);
            var left := 2_000_000_000 - started;
            var wait := AttemptAt(c, s, env, k).outcome.duration;
            ClockAt(c, s, env, k + 1)
            == if left <= 0 then started else started + (if wait < left then wait else left) + env.oversleep(k)
  {
  }

  /** A drift wait ends when the clock has caught up: the first attempt that reads a later clock issues there. */
  lemma {:induction false} DriftIsOvercome(c: Config, s: State, env: Environment, n: nat, clock: nat -> int,
                                           attempts: nat, outcome: Outcome)
    requires c.Accepted() && InRange(c, s) && EndsWith(c, s, env, attempts, outcome)
    requires c.action == WaitForClock && !s.shuttingDown
    requires Behind(s.lastTimestamp, env, n) && Elapses(s.lastTimestamp, env, n, clock)
    requires Alone(env, n) && env.wall(n) > s.lastTimestamp
    ensures attempts == n + 1 && outcome == Issued(Parts(env.wall(n), c.datacenterID, s.workerID, 0))
  {
    WaitsWhileBehind(c, s, env, n, clock);
    AttemptAlone(c, s, env, n);
    AttemptIsDecided(c, s, env.wall(n));
    AttemptReports(c, s, env.wall(n));
    EndsAt(c, s, env, n, attempts, outcome);
  }

  /** A call on a used-up millisecond returns an identifier of the next millisecond that the clock shows. */
  method CallAfterOverflow(g: Generator, env: Environment) returns (id: int)
    requires g.Valid() && !g.isShuttingDown && g.sequence == g.config.MaxSequence()
    requires Alone(env, 0) && Alone(env, 1) && env.tick(0) <= 2_000_000_000
    requires env.wall(0) == g.lastTimestamp < env.wall(1)
    requires g.config.action == ReportError && g.config.driftProtection && g.lastTimestamp != -1 ==>
               (env.wall(1) - g.lastTimestamp) * 1_000_000 <= g.config.maxClockDrift
    modifies g, g.sequenceCache
    ensures g.Valid() && g.lastTimestamp == env.wall(1) && g.sequence == 0 && g.workerID == old(g.workerID)
    ensures var parts := Parts(env.wall(1), g.config.datacenterID, g.workerID, 0);
            FitsFields(g.config.layout, parts) && id == Pack(g.config.layout, g.config.epoch, parts)
  {
    ghost var s := g.View();
    var outcome, attempts, slept;
    outcome, id, attempts, slept := g.GenerateID(env);
    OverflowIsOvercome(g.config, s, env, attempts, outcome);
    IssuedState(g.config, s, env, attempts);
  }

  /** A call in wait mode that begins behind returns an identifier of the first later millisecond it reads. */
  method CallAfterDrift(g: Generator, env: Environment, ghost n: nat, ghost clock: nat -> int) returns (id: int)
    requires g.Valid() && !g.isShuttingDown && g.config.action == WaitForClock
    requires Behind(g.lastTimestamp, env, n) && Elapses(g.lastTimestamp, env, n, clock)
    requires Alone(env, n) && env.wall(n) > g.lastTimestamp
    modifies g, g.sequenceCache
    ensures g.Valid() && g.lastTimestamp == env.wall(n) && g.sequence == 0 && g.workerID == old(g.workerID)
    ensures var parts := Parts(env.wall(n), g.config.datacenterID, g.workerID, 0);
            FitsFields(g.config.layout, parts) && id == Pack(g.config.layout, g.config.epoch, parts)
  {
    ghost var s := g.View();
    var outcome, attempts, slept;
    outcome, id, attempts, slept := g.GenerateID(env);
    DriftIsOvercome(g.config, s, env, n, clock, attempts, outcome);
    IssuedState(g.config, s, env, attempts);
  }

  /** After an attempt that issues, the state is that of the issued parts. */
  lemma {:induction false} IssuedState(c: Config, s: State, env: Environment, attempts: nat)
    requires c.Accepted() && InRange(c, s) && attempts > 0
    requires AttemptAt(c, s, env, attempts - 1).outcome.Issued?
    ensures var r, parts := StateAfter(c, s, env, attempts), AttemptAt(c, s, env, attempts - 1).outcome.parts;
            r.lastTimestamp == parts.timestamp && r.sequence == parts.sequence && r.workerID == parts.worker
  {
    var k := attempts - 1;
    AttemptReports(c, ApplyAll(c, StateAfter(c, s, env, k), env.others(k)), env.wall(k));
  }
}
