/** The generator object: its sequence cache, one attempt under the mutex, and the retry loop around it. */
module GeneratorObject {
  import opened Bits
  import opened Snowflake
  import opened GeneratorSpec

  /** A reading of the monotonic clock is at least one tick after the one before it. */
  type Tick = t: int | t >= 1 witness 1

  /** What the environment contributes to iteration k of GenerateID. */
  datatype Environment = Environment(
    others: nat -> seq<Input>,     // what other goroutines do under the mutex before attempt k
    wall: nat -> int,              // the wall clock reading of attempt k
    stopBeforeTry: nat -> bool,    // the shutdown flag as loaded before attempt k
    stopBeforeWait: nat -> bool,   // the shutdown flag as loaded after it
    tick: nat -> Tick,             // monotonic time from the previous event to the deadline check
    gap: nat -> nat,               // monotonic time from there to the computation of the remaining budget
    oversleep: nat -> nat)         // how much longer than requested a sleep takes

  /** The state after the first k attempts of a call. */
  function StateAfter(c: Config, s: State, env: Environment, k: nat): (r: State)
    requires c.Accepted() && InRange(c, s)
    ensures InRange(c, r)
    decreases k, 0
  {
    if k == 0 then s else AttemptAt(c, s, env, k - 1).state
  }

  /** Attempt k of a call, with what other goroutines did just before it. */
  function AttemptAt(c: Config, s: State, env: Environment, k: nat): (r: Result)
    requires c.Accepted() && InRange(c, s)
    ensures InRange(c, r.state)
    decreases k, 1
  {
    Try(c, ApplyAll(c, StateAfter(c, s, env, k), env.others(k)), env.wall(k))
  }

  /** What an attempt returns. */
  datatype Answer = Answer(outcome: Outcome, id: int, cacheHit: bool)

  /** How long a retry sleeps: a backward-drift wait cut to what remains of the budget, an overflow a fixed time. */
  function Requested(duration: int, remaining: int): (requested: int)
    ensures requested >= 0
    ensures duration > 0 ==> requested <= duration && (requested > 0 ==> requested <= remaining)
    ensures duration > 0 && requested < duration ==> remaining <= requested
  {
    if duration <= 0 then SEQUENCE_OVERFLOW_SPIN_SLEEP
    else if remaining <= 0 then 0
    else if duration > remaining then remaining
    else duration
  }

  /** The monotonic time, from the start of a call, at which attempt k begins. */
  function ClockAt(c: Config, s: State, env: Environment, k: nat): int
    requires c.Accepted() && InRange(c, s)
  {
    if k == 0 then 0
    else
      var checked := ClockAt(c, s, env, k - 1) + env.tick(k - 1);
      match AttemptAt(c, s, env, k - 1).outcome
      case NeedWait(duration) => AfterSleep(duration, checked, env.gap(k - 1), env.oversleep(k - 1))
      case _ => checked
  }

  /** The monotonic time after a sleep that was prepared at `now`. */
  function AfterSleep(duration: int, now: int, gap: nat, oversleep: nat): int {
    var started := if duration > 0 then now + gap else now;
    var requested := Requested(duration, MAX_GENERATE_WAIT_BUDGET - started);
    if requested > 0 then started + requested + oversleep else started
  }

  /** After attempt k the budget is spent. */
  predicate Overdue(c: Config, s: State, env: Environment, k: nat)
    requires c.Accepted() && InRange(c, s)
  {
    ClockAt(c, s, env, k) + env.tick(k) > MAX_GENERATE_WAIT_BUDGET
  }

  /** Attempt k is made, asks for a wait, and neither the shutdown flag nor the budget ends the call. */
  predicate GoesOn(c: Config, s: State, env: Environment, k: nat)
    requires c.Accepted() && InRange(c, s)
  {
    && !env.stopBeforeTry(k) && AttemptAt(c, s, env, k).outcome.NeedWait?
    && !env.stopBeforeWait(k) && !Overdue(c, s, env, k)
  }

  /** The first n attempts all go on. */
  ghost predicate AllGoOn(c: Config, s: State, env: Environment, n: nat)
    requires c.Accepted() && InRange(c, s)
  {
    forall k :: 0 <= k < n ==> GoesOn(c, s, env, k)
  }

  /** Attempt k is made and ends the call: it issues or fails, shutdown is seen after it, or the budget is spent. */
  predicate Stops(c: Config, s: State, env: Environment, k: nat, outcome: Outcome)
    requires c.Accepted() && InRange(c, s)
  {
    var result := AttemptAt(c, s, env, k).outcome;
    && !env.stopBeforeTry(k)
    && if !result.NeedWait? then outcome == result
       else if env.stopBeforeWait(k) then outcome == Failed(ShuttingDown)
       else Overdue(c, s, env, k) && outcome == Failed(BudgetExhausted)
  }

  /**
   * What a call that began in state `s` returns after so many attempts. All but the last go on, and the
   * last ends the call, or it goes on too and the shutdown flag is seen before another.
   */
  ghost predicate EndsWith(c: Config, s: State, env: Environment, attempts: nat, outcome: Outcome)
    requires c.Accepted() && InRange(c, s)
  {
    && (attempts > 0 ==> AllGoOn(c, s, env, attempts - 1))
    && (|| (attempts > 0 && Stops(c, s, env, attempts - 1, outcome))
        || ((attempts > 0 ==> GoesOn(c, s, env, attempts - 1))
            && env.stopBeforeTry(attempts) && outcome == Failed(ShuttingDown)))
  }

  class Generator {
    const config: Config
    const sequenceCache: array<int>
    var workerID: int
    var lastTimestamp: int
    var sequence: int
    var cacheIndex: int
    var cacheValidCount: int
    var isShuttingDown: bool

    ghost predicate Valid()
      reads this, sequenceCache
    {
      && config.Accepted()
      && InRange(config, View())
      && sequenceCache.Length == (if config.cacheEnabled then config.cacheSize else 0)
      && 0 <= cacheIndex <= cacheValidCount <= sequenceCache.Length
      && cacheValidCount <= config.MaxSequence()
      && (forall i :: 0 <= i < cacheValidCount ==> sequenceCache[i] == i + 1)
      && (cacheIndex < cacheValidCount ==> sequence == cacheIndex)
    }

    function View(): State
      reads this
    {
      State(lastTimestamp, sequence, workerID, isShuttingDown)
    }

    /** The identifier that goes with an outcome; zero with a wait or an error. */
    predicate IsIdentifierOf(outcome: Outcome, id: int)
      requires config.Accepted()
    {
      match outcome
      case Issued(parts) => FitsFields(config.layout, parts) && id == Pack(config.layout, config.epoch, parts)
      case _ => id == 0
    }

    constructor (config: Config, workerID: int)
      requires config.Accepted() && 0 <= workerID <= config.MaxWorker()
      ensures Valid() && fresh(sequenceCache) && this.config == config
      ensures View() == State(-1, 0, workerID, false)
    {
      this.config := config;
      this.workerID := workerID;
      lastTimestamp, sequence, isShuttingDown := -1, 0, false;
      cacheIndex, cacheValidCount := 0, 0;
      sequenceCache := new int[if config.cacheEnabled then config.cacheSize else 0];
    }

    /** Fills the cache with 1, 2, ... for a millisecond whose sequence number 0 is being issued. */
    method RefillSequenceCache()
      requires config.Accepted() && sequence == 0
      modifies `cacheIndex, `cacheValidCount, sequenceCache
      ensures sequenceCache.Length > 0 ==> cacheIndex == 0 < cacheValidCount <= config.MaxSequence()
      ensures sequenceCache.Length > 0 ==>
                cacheValidCount == sequenceCache.Length || cacheValidCount == config.MaxSequence()
      ensures sequenceCache.Length > 0 ==> cacheValidCount <= sequenceCache.Length
      ensures sequenceCache.Length > 0 ==> forall i :: 0 <= i < sequenceCache.Length ==>
                sequenceCache[i] == if i < cacheValidCount then i + 1 else 0
      ensures sequenceCache.Length == 0 ==> cacheIndex == old(cacheIndex) && cacheValidCount == old(cacheValidCount)
    {
      assert config.MaxSequence() >= 99;
      if sequenceCache.Length == 0 {
        return;
      }
      var actualCacheSize := sequenceCache.Length;
      if actualCacheSize > config.MaxSequence() {
        actualCacheSize := config.MaxSequence();
      }
      var validCount := 0;
      while validCount < actualCacheSize
        invariant 0 <= validCount <= actualCacheSize
        invariant forall i :: 0 <= i < validCount ==> sequenceCache[i] == i + 1
      {
        sequenceCache[validCount] := validCount + 1;
        validCount := validCount + 1;
      }
      var i := validCount;
      while i < sequenceCache.Length
        invariant validCount <= i <= sequenceCache.Length
        invariant forall j :: 0 <= j < i ==> sequenceCache[j] == if j < validCount then j + 1 else 0
      {
        sequenceCache[i] := 0;
        i := i + 1;
      }
      cacheValidCount := validCount;
      cacheIndex := 0;
    }

    /** Resolves an overflow: in ignore mode the next synthetic millisecond, otherwise nothing but a wait. */
    method HandleSequenceOverflow(ignoreMode: bool) returns (next: int, ok: bool)
      requires Valid() && sequence == 0 && cacheIndex == cacheValidCount
      modifies `sequence, `cacheIndex, `cacheValidCount, sequenceCache
      ensures Valid() && View() == old(View())
      ensures ok == ignoreMode && (ok ==> next == lastTimestamp + 1)
      ensures !ok ==> cacheIndex == cacheValidCount == old(cacheValidCount)
    {
      if !ignoreMode {
        return 0, false;
      }
      next := lastTimestamp + 1;
      sequence := 0;
      if config.cacheEnabled {
        RefillSequenceCache();
      }
      return next, true;
    }

    /** Takes the next sequence number at `timestamp`, from the cache while it lasts. */
    method ConsumeSequence(timestamp: int, ignoreMode: bool) returns (outcome: Outcome, cacheHit: bool)
      requires Valid()
      modifies this, sequenceCache
      ensures Valid()
      ensures Result(View(), outcome) == Consume(config, old(View()), timestamp, ignoreMode)
      ensures cacheHit <==> timestamp == old(lastTimestamp) && old(cacheIndex) < old(cacheValidCount)
    {
      var issuedAt := timestamp;
      cacheHit := false;
      if timestamp == lastTimestamp {
        if config.cacheEnabled && cacheIndex >= 0 && cacheIndex < cacheValidCount {
          var cachedSeq := sequenceCache[cacheIndex];
          cacheIndex := cacheIndex + 1;
          if cachedSeq > 0 && cachedSeq <= config.MaxSequence() {
            sequence := cachedSeq;
            cacheHit := true;
          } else {
            assert false; // the fallback for an invalid cache entry is never taken
          }
        } else {
          sequence := NextSequence(config, sequence);
          if sequence == 0 {
            var next, ok := HandleSequenceOverflow(ignoreMode);
            if ok {
              issuedAt := next;
            } else {
              return NeedWait(0), false;
            }
          }
        }
      } else {
        sequence := 0;
        if config.cacheEnabled {
          RefillSequenceCache();
        }
      }
      lastTimestamp := issuedAt;
      outcome := Issued(Parts(lastTimestamp, config.datacenterID, workerID, sequence));
    }

    /**
     * One attempt under the mutex. With or without the cache it does what `Try` does;
     * the cache only decides `cacheHit`.
     */
    method TryGenerateID(now: int) returns (outcome: Outcome, id: int, cacheHit: bool)
      requires Valid()
      modifies this, sequenceCache
      ensures Valid()
      ensures Result(View(), outcome) == Try(config, old(View()), now)
      ensures IsIdentifierOf(outcome, id)
      ensures outcome.Issued? ==> id == Pack(config.layout, config.epoch, outcome.parts)
      ensures cacheHit <==> outcome.Issued? && lastTimestamp == old(lastTimestamp)
                            && old(cacheIndex) < old(cacheValidCount)
    {
      id, cacheHit := 0, false;
      if isShuttingDown {
        return Failed(ShuttingDown), 0, false;
      }
      var timestamp := now;
      var ignoreMode := false;
      if config.driftProtection {
        var drifted := CheckClockDriftNoSleep(timestamp);
        if drifted {
          return Failed(ClockDrift(timestamp, lastTimestamp)), 0, false;
        }
      }
      if timestamp < lastTimestamp {
        var drift := (lastTimestamp - timestamp) * MILLISECOND;
        match config.action {
          case ReportError =>
            return Failed(ClockDrift(timestamp, lastTimestamp)), 0, false;
          case WaitForClock =>
            if drift > MAX_CLOCK_BACKWARD_WAIT {
              return Failed(ClockDrift(timestamp, lastTimestamp)), 0, false;
            }
            var waitTime := drift + MILLISECOND;
            if waitTime > MAX_CLOCK_BACKWARD_WAIT {
              waitTime := MAX_CLOCK_BACKWARD_WAIT;
            }
            return NeedWait(waitTime), 0, false;
          case IgnoreDrift =>
            if lastTimestamp - timestamp > MAX_IGNORE_BACKWARD_DRIFT_MS {
              return Failed(ClockDrift(timestamp, lastTimestamp)), 0, false;
            }
            ignoreMode := true;
            timestamp := lastTimestamp;
        }
      }
      outcome, cacheHit := ConsumeSequence(timestamp, ignoreMode);
      if outcome.Issued? {
        id := MakeID();
      }
    }

    /** The identifier of the sequence number taken last. */
    method MakeID() returns (id: int)
      requires Valid()
      ensures IsIdentifierOf(Issued(PartsOf(config, View())), id)
    {
      id := Pack(config.layout, config.epoch, Parts(lastTimestamp, config.datacenterID, workerID, sequence));
    }

    /** Whether the clock has jumped forward further than tolerated; evaluated on every call. */
    method CheckClockDriftNoSleep(currentTimestamp: int) returns (drifted: bool)
      requires config.driftProtection
      ensures drifted <==> ForwardDriftExceeded(config, View(), currentTimestamp)
      ensures drifted <==>
                && config.action == ReportError && lastTimestamp != -1 && currentTimestamp >= lastTimestamp
                && (currentTimestamp - lastTimestamp) * 1_000_000 > config.maxClockDrift
    {
      if lastTimestamp == -1 {
        return false;
      }
      var driftMs := currentTimestamp - lastTimestamp;
      if driftMs < 0 {
        return false;
      }
      var drift := driftMs * MILLISECOND;
      return drift > config.maxClockDrift && config.action == ReportError;
    }

    method SetWorkerID(workerID: int)
      requires Valid()
      modifies `workerID
      ensures Valid() && View() == Switch(config, old(View()), workerID)
      ensures this.workerID == if 0 <= workerID < Pow2(config.layout.workerBits) then workerID else old(this.workerID)
    {
      if workerID < 0 || workerID > config.MaxWorker() {
        return;
      }
      this.workerID := workerID;
    }

    method Shutdown()
      requires Valid()
      modifies `isShuttingDown
      ensures Valid() && View() == old(View()).(shuttingDown := true)
    {
      if isShuttingDown {
        return;
      }
      isShuttingDown := true;
    }

    /** The answers carry the outcomes and their identifiers, and hit the cache only where there is one. */
    predicate AreAnswers(answers: seq<Answer>, outcomes: seq<Outcome>)
      requires config.Accepted()
    {
      && |answers| == |outcomes|
      && forall k :: 0 <= k < |answers| ==>
           && answers[k].outcome == outcomes[k] && IsIdentifierOf(outcomes[k], answers[k].id)
           && (answers[k].cacheHit ==> config.cacheEnabled && outcomes[k].Issued?)
    }

    /** Mutex sections one after another, of whichever goroutines, and what the attempts among them answer. */
    method Serve(inputs: seq<Input>) returns (answers: seq<Answer>)
      requires Valid()
      modifies this, sequenceCache
      ensures Valid() && View() == ApplyAll(config, old(View()), inputs)
      ensures AreAnswers(answers, Outcomes(config, old(View()), inputs))
    {
      answers := [];
      for i := 0 to |inputs|
        invariant Valid() && View() == ApplyAll(config, old(View()), inputs[..i])
        invariant AreAnswers(answers, Outcomes(config, old(View()), inputs[..i]))
      {
        assert inputs[..i + 1][..i] == inputs[..i];
        match inputs[i] {
          case Reading(now) =>
            var outcome, id, cacheHit := TryGenerateID(now);
            answers := answers + [Answer(outcome, id, cacheHit)];
          case SetWorker(workerID) => SetWorkerID(workerID);
          case Shutdown => Shutdown();
        }
      }
      assert inputs[..|inputs|] == inputs;
    }

    /**
     * Sleeps before the next attempt: a backward-drift wait never past the deadline, an overflow for a
     * fixed short time. Returns the duration requested and the monotonic time afterwards.
     */
    method SleepOutsideLock(duration: int, now: int, gap: nat, oversleep: nat) returns (requested: int, later: int)
      requires now <= MAX_GENERATE_WAIT_BUDGET
      ensures later == AfterSleep(duration, now, gap, oversleep)
      ensures 0 <= requested && now + requested <= later
      ensures duration > 0 ==> requested == 0 || now + gap + requested <= MAX_GENERATE_WAIT_BUDGET
      ensures duration > 0 ==>
                requested <= duration
                && (requested < duration ==> now + gap + requested >= MAX_GENERATE_WAIT_BUDGET)
      ensures duration <= 0 ==> requested == 50_000
    {
      requested, later := 0, now;
      if duration > 0 {
        later := later + gap;
        var waitDuration := duration;
        var remaining := MAX_GENERATE_WAIT_BUDGET - later;
        if waitDuration > remaining {
          waitDuration := remaining;
        }
        if waitDuration > 0 {
          requested := waitDuration;
          later := later + waitDuration + oversleep;
        }
      } else {
        requested := SEQUENCE_OVERFLOW_SPIN_SLEEP;
        later := later + SEQUENCE_OVERFLOW_SPIN_SLEEP + oversleep;
      }
    }

    /** After an attempt that asked for a wait: give up at shutdown or past the deadline, otherwise sleep. */
    method BeforeRetry(env: Environment, k: nat, duration: int, now: int)
      returns (verdict: Outcome, requested: int, later: int)
      ensures verdict == if env.stopBeforeWait(k) then Failed(ShuttingDown)
                         else if now + env.tick(k) > 2_000_000_000 then Failed(BudgetExhausted)
                         else NeedWait(duration)
      ensures verdict.NeedWait? ==> later == AfterSleep(duration, now + env.tick(k), env.gap(k), env.oversleep(k))
      ensures 0 <= requested && now + requested <= later
      ensures verdict.NeedWait? ==> now < MAX_GENERATE_WAIT_BUDGET && now < later
      ensures requested > 0 ==> now + requested <= MAX_GENERATE_WAIT_BUDGET + SEQUENCE_OVERFLOW_SPIN_SLEEP
    {
      if env.stopBeforeWait(k) {
        return Failed(ShuttingDown), 0, now;
      }
      later := now + env.tick(k);
      if later > MAX_GENERATE_WAIT_BUDGET {
        return Failed(BudgetExhausted), 0, later;
      }
      requested, later := SleepOutsideLock(duration, later, env.gap(k), env.oversleep(k));
      verdict := NeedWait(duration);
    }

    /** Attempt k of a call that began in state `start`, after whatever other goroutines did before it. */
    method AttemptAmongOthers(env: Environment, k: nat, ghost start: State) returns (outcome: Outcome, id: int)
      requires Valid() && InRange(config, start) && View() == StateAfter(config, start, env, k)
      modifies this, sequenceCache
      ensures Valid() && IsIdentifierOf(outcome, id)
      ensures Result(View(), outcome) == AttemptAt(config, start, env, k)
    {
      var _ := Serve(env.others(k));
      var cacheHit;
      outcome, id, cacheHit := TryGenerateID(env.wall(k));
    }

    /** The call that began in state `start` has made k attempts, all of which go on, and it is `now`. */
    ghost predicate InCall(start: State, env: Environment, k: nat, now: int)
      reads this, sequenceCache
    {
      && Valid() && InRange(config, start) && View() == StateAfter(config, start, env, k)
      && now == ClockAt(config, start, env, k) && AllGoOn(config, start, env, k)
    }

    /** Attempt k of a call, and what follows it before another: the end of the call, or a sleep. */
    method AttemptOnce(env: Environment, k: nat, now: int, ghost start: State)
      returns (outcome: Outcome, id: int, requested: int, later: int)
      requires InCall(start, env, k, now) && !env.stopBeforeTry(k)
      modifies this, sequenceCache
      ensures Valid()
      ensures if outcome.NeedWait? then InCall(start, env, k + 1, later)
              else
                && View() == StateAfter(config, start, env, k + 1)
                && EndsWith(config, start, env, k + 1, outcome) && IsIdentifierOf(outcome, id)
      ensures outcome.Issued? ==> id == Pack(config.layout, config.epoch, outcome.parts)
      ensures outcome.Issued? ==>
                if config.action == IgnoreDrift
                then env.wall(k) <= outcome.parts.timestamp <= env.wall(k) + 3_600_001
                else outcome.parts.timestamp == env.wall(k)
      ensures 0 <= requested && now + requested <= later
      ensures outcome.NeedWait? || outcome == Failed(BudgetExhausted) ==> !env.stopBeforeWait(k)
      ensures outcome.NeedWait? ==> now < MAX_GENERATE_WAIT_BUDGET && now < later
      ensures requested > 0 ==> now + requested <= MAX_GENERATE_WAIT_BUDGET + SEQUENCE_OVERFLOW_SPIN_SLEEP
    {
      ghost var before := ApplyAll(config, View(), env.others(k));
      outcome, id := AttemptAmongOthers(env, k, start);
      AttemptReports(config, before, env.wall(k));
      AttemptIsDecided(config, before, env.wall(k));
      requested, later := 0, now;
      if outcome.NeedWait? {
        id := 0;
        outcome, requested, later := BeforeRetry(env, k, outcome.duration, now);
      }
      assert if outcome.NeedWait? then GoesOn(config, start, env, k) else Stops(config, start, env, k, outcome);
    }

    /**
     * Retries until an attempt succeeds or fails, the shutdown flag is seen, or the budget is spent.
     * An identifier is issued by the last attempt or not at all, and it is the one that is returned.
     */
    method GenerateID(env: Environment) returns (outcome: Outcome, id: int, attempts: nat, slept: int)
      requires Valid()
      modifies this, sequenceCache
      ensures Valid()
      ensures EndsWith(config, old(View()), env, attempts, outcome)
      ensures !outcome.NeedWait? && IsIdentifierOf(outcome, id)
      ensures View() == StateAfter(config, old(View()), env, attempts)
      ensures outcome.Issued? ==> attempts > 0 && id == Pack(config.layout, config.epoch, outcome.parts)
      ensures outcome.Issued? ==>
                if config.action == IgnoreDrift
                then env.wall(attempts - 1) <= outcome.parts.timestamp <= env.wall(attempts - 1) + 3_600_001
                else outcome.parts.timestamp == env.wall(attempts - 1)
      ensures forall k :: 0 <= k < attempts ==> !env.stopBeforeTry(k)
      ensures forall k :: 0 <= k < attempts - 1 ==> !env.stopBeforeWait(k)
      ensures outcome == Failed(BudgetExhausted) ==> attempts > 0 && !env.stopBeforeWait(attempts - 1)
      ensures 0 <= slept <= 2_000_000_000 + 50_000
      ensures attempts <= 2_000_000_000 + 1
    {
      var now := 0; // monotonic, counted from the start of the call
      ghost var start := View();
      attempts, slept := 0, 0;
      while true
        invariant InCall(start, env, attempts, now)
        invariant forall k :: 0 <= k < attempts ==> !env.stopBeforeTry(k) && !env.stopBeforeWait(k)
        invariant 0 <= slept <= now && slept <= MAX_GENERATE_WAIT_BUDGET + SEQUENCE_OVERFLOW_SPIN_SLEEP
        invariant attempts <= now && attempts <= MAX_GENERATE_WAIT_BUDGET
        decreases MAX_GENERATE_WAIT_BUDGET - now
      {
        if env.stopBeforeTry(attempts) {
          return Failed(ShuttingDown), 0, attempts, slept;
        }
        var requested;
        outcome, id, requested, now := AttemptOnce(env, attempts, now, start);
        attempts, slept := attempts + 1, slept + requested;
        if !outcome.NeedWait? {
          return;
        }
      }
    }
  }
}
