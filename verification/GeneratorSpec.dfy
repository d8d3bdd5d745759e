/** What one attempt of the identifier generator does, as a function of its state and one clock reading. */
module GeneratorSpec {
  import opened Bits
  import opened Snowflake

  // Durations are in nanoseconds, clock readings in milliseconds.
  const MICROSECOND: int := 1_000
  const MILLISECOND: int := 1_000_000
  const SECOND: int := 1_000_000_000
  const MAX_CLOCK_BACKWARD_WAIT: int := 5 * SECOND
  const MAX_IGNORE_BACKWARD_DRIFT_MS: int := 3_600_000

  datatype DriftAction = WaitForClock | ReportError | IgnoreDrift

  datatype Config = Config(
    layout: Layout,
    epoch: int,
    datacenterID: int,
    driftProtection: bool,
    maxClockDrift: int,
    action: DriftAction,
    cacheEnabled: bool,
    cacheSize: int)
  {
    /** The configurations that NewSnowflakeGeneratorCore accepts. */
    predicate Accepted() {
      && layout.Accepted()
      && epoch >= 0
      && 0 <= datacenterID <= layout.MaxDatacenter()
      && (driftProtection ==> 100 * MILLISECOND <= maxClockDrift <= 3600 * SECOND)
      && (cacheEnabled ==> 10 <= cacheSize <= Pow2(layout.sequenceBits))
    }

    function MaxSequence(): nat
      requires Accepted()
    {
      layout.MaxSequence()
    }

    function MaxWorker(): nat
      requires Accepted()
    {
      layout.MaxWorker()
    }
  }

  datatype State = State(lastTimestamp: int, sequence: int, workerID: int, shuttingDown: bool)

  predicate InRange(c: Config, s: State)
    requires c.Accepted()
  {
    0 <= s.sequence <= c.MaxSequence() && 0 <= s.workerID <= c.MaxWorker()
  }

  datatype Error = ClockDrift(reading: int, lastTimestamp: int) | ShuttingDown | BudgetExhausted

  /**
   * What an attempt reports. The identifier of an issued ticket is `Pack` of its parts;
   * `NeedWait(0)` asks the caller to spin to the next millisecond.
   */
  datatype Outcome = Issued(parts: Parts) | NeedWait(duration: int) | Failed(error: Error)

  datatype Result = Result(state: State, outcome: Outcome)

  /** A sequence number is followed by the next one, and the largest by zero. */
  function NextSequence(c: Config, sequence: int): (next: int)
    requires c.Accepted() && 0 <= sequence <= c.MaxSequence()
    ensures sequence < c.MaxSequence() ==> next == sequence + 1
    ensures sequence == c.MaxSequence() ==> next == 0
  {
    NextSequenceWraps(c, sequence);
    And(sequence + 1, c.MaxSequence())
  }

  lemma {:induction false} NextSequenceWraps(c: Config, sequence: int)
    requires c.Accepted() && 0 <= sequence <= c.MaxSequence()
    ensures And(sequence + 1, c.MaxSequence()) == if sequence < c.MaxSequence() then sequence + 1 else 0
  {
    var bits := c.layout.sequenceBits;
    if sequence < c.MaxSequence() {
      AndMaskLow(0, 0, sequence + 1, bits);
    } else {
      AndMaskLow(1, Pow2(bits), 0, bits);
    }
  }

  /** The parts that the state stands for. */
  function PartsOf(c: Config, s: State): Parts {
    Parts(s.lastTimestamp, c.datacenterID, s.workerID, s.sequence)
  }

  function Issue(c: Config, s: State): Result {
    Result(s, Issued(PartsOf(c, s)))
  }

  /** One more sequence number at `timestamp`; in ignore mode a full millisecond is followed by a synthetic one. */
  function Consume(c: Config, s: State, timestamp: int, ignoreMode: bool): Result
    requires c.Accepted() && InRange(c, s)
  {
    if timestamp != s.lastTimestamp then
      Issue(c, s.(lastTimestamp := timestamp, sequence := 0))
    else if s.sequence < c.MaxSequence() then
      Issue(c, s.(sequence := s.sequence + 1))
    else if ignoreMode then
      Issue(c, s.(lastTimestamp := s.lastTimestamp + 1, sequence := 0))
    else
      Result(s.(sequence := 0), NeedWait(0))
  }

  predicate ForwardDriftExceeded(c: Config, s: State, now: int) {
    && c.driftProtection
    && c.action == ReportError
    && s.lastTimestamp != -1
    && now >= s.lastTimestamp
    && (now - s.lastTimestamp) * MILLISECOND > c.maxClockDrift
  }

  function BackwardWait(driftMs: int): int {
    if driftMs * MILLISECOND + MILLISECOND > MAX_CLOCK_BACKWARD_WAIT then MAX_CLOCK_BACKWARD_WAIT
    else driftMs * MILLISECOND + MILLISECOND
  }

  /** One attempt without any sequence cache: the meaning of tryGenerateID. */
  function Try(c: Config, s: State, now: int): Result
    requires c.Accepted() && InRange(c, s)
  {
    if s.shuttingDown then Result(s, Failed(ShuttingDown))
    else if ForwardDriftExceeded(c, s, now) then Result(s, Failed(ClockDrift(now, s.lastTimestamp)))
    else if now >= s.lastTimestamp then Consume(c, s, now, false)
    else
      var drift := s.lastTimestamp - now;
      match c.action
      case ReportError => Result(s, Failed(ClockDrift(now, s.lastTimestamp)))
      case WaitForClock =>
        if drift * MILLISECOND > MAX_CLOCK_BACKWARD_WAIT then Result(s, Failed(ClockDrift(now, s.lastTimestamp)))
        else Result(s, NeedWait(BackwardWait(drift)))
      case IgnoreDrift =>
        if drift > MAX_IGNORE_BACKWARD_DRIFT_MS then Result(s, Failed(ClockDrift(now, s.lastTimestamp)))
        else Consume(c, s, s.lastTimestamp, true)
  }

  /**
   * When an attempt fails, waits or issues, in milliseconds and nanoseconds: an error needs a clock outside
   * the tolerance of the drift action, a wait a clock behind in wait mode or a used-up millisecond.
   */
  lemma {:induction false} AttemptIsDecided(c: Config, s: State, now: int)
    requires c.Accepted() && InRange(c, s)
    ensures var last := s.lastTimestamp;
            Try(c, s, now).outcome.Failed? <==>
              || s.shuttingDown
              || (c.action == ReportError && now < last)
              || (c.action == ReportError && c.driftProtection && last != -1
                  && (now - last) * 1_000_000 > c.maxClockDrift)
              || (c.action == WaitForClock && (last - now) * 1_000_000 > 5_000_000_000)
              || (c.action == IgnoreDrift && last - now > 3_600_000)
    ensures var last := s.lastTimestamp;
            Try(c, s, now).outcome.NeedWait? <==>
              && !s.shuttingDown
              && (|| (now == last && s.sequence == c.MaxSequence())
                  || (c.action == WaitForClock && 0 < (last - now) * 1_000_000 <= 5_000_000_000))
    ensures var last := s.lastTimestamp;
            Try(c, s, now).outcome.Issued? <==>
              && !s.shuttingDown
              && (|| (now == last && s.sequence < c.MaxSequence())
                  || (c.action == IgnoreDrift && 0 < last - now <= 3_600_000)
                  || (now > last && (c.action == ReportError && c.driftProtection && last != -1 ==>
                                       (now - last) * 1_000_000 <= c.maxClockDrift)))
  {
  }

  /** What an attempt reports in each of these cases, and what it leaves of the state. */
  lemma {:induction false} AttemptReports(c: Config, s: State, now: int)
    requires c.Accepted() && InRange(c, s)
    ensures var r := Try(c, s, now);
            r.outcome.Failed? ==>
              && r.state == s
              && r.outcome.error == if s.shuttingDown then ShuttingDown else ClockDrift(now, s.lastTimestamp)
    ensures var r, behind := Try(c, s, now), s.lastTimestamp - now;
            r.outcome.NeedWait? ==>
              if behind == 0 then r.state == s.(sequence := 0) && r.outcome.duration == 0
              else
                && r.state == s
                && r.outcome.duration == if behind < 5_000 then (behind + 1) * 1_000_000 else 5_000_000_000
    ensures var r, last := Try(c, s, now), s.lastTimestamp;
            r.outcome.Issued? ==>
              && r.outcome.parts.timestamp
                 == (if now >= last then now else if s.sequence < c.MaxSequence() then last else last + 1)
              && r.outcome.parts.sequence == (if r.outcome.parts.timestamp == last then s.sequence + 1 else 0)
              && r.outcome.parts.worker == s.workerID && r.outcome.parts.datacenter == c.datacenterID
              && r.state == s.(lastTimestamp := r.outcome.parts.timestamp, sequence := r.outcome.parts.sequence)
  {
  }

  function Switch(c: Config, s: State, workerID: int): State
    requires c.Accepted()
  {
    if 0 <= workerID <= c.MaxWorker() then s.(workerID := workerID) else s
  }

  /** Everything that can happen to a generator under its mutex. */
  datatype Input = Reading(now: int) | SetWorker(workerID: int) | Shutdown

  function Apply(c: Config, s: State, input: Input): (r: State)
    requires c.Accepted() && InRange(c, s)
    ensures InRange(c, r)
  {
    match input
    case Reading(now) => Try(c, s, now).state
    case SetWorker(workerID) => Switch(c, s, workerID)
    case Shutdown => s.(shuttingDown := true)
  }

  function ApplyAll(c: Config, s: State, inputs: seq<Input>): (r: State)
    requires c.Accepted() && InRange(c, s)
    ensures InRange(c, r)
    decreases |inputs|
  {
    if inputs == [] then s
    else Apply(c, ApplyAll(c, s, inputs[..|inputs| - 1]), inputs[|inputs| - 1])
  }

  /** What the readings among the inputs are answered, in order. */
  function Outcomes(c: Config, s: State, inputs: seq<Input>): seq<Outcome>
    requires c.Accepted() && InRange(c, s)
    decreases |inputs|
  {
    if inputs == [] then []
    else
      var n := |inputs| - 1;
      var before := Outcomes(c, s, inputs[..n]);
      match inputs[n]
      case Reading(now) => before + [Try(c, ApplyAll(c, s, inputs[..n]), now).outcome]
      case _ => before
  }

  const MAX_GENERATE_WAIT_BUDGET: int := 2 * SECOND
  const SEQUENCE_OVERFLOW_SPIN_SLEEP: int := 50 * MICROSECOND
}
