/** What whole runs of a generator say about its timestamps and its packed identifiers. */
module GeneratorIds {
  import opened Bits
  import opened Snowflake
  import opened GeneratorSpec
  import opened GeneratorRuns

  // ----- Timestamps and the clock -----

  /** How far a timestamp may run ahead of its reading. */
  function Lead(c: Config): nat {
    if c.action == IgnoreDrift then MAX_IGNORE_BACKWARD_DRIFT_MS + 1 else 0
  }

  /** In wait and error mode a timestamp is its reading; in ignore mode it runs ahead by a bounded amount. */
  predicate FollowsClock(c: Config, t: Ticket) {
    t.reading <= t.parts.timestamp <= t.reading + Lead(c)
  }

  /** From one ticket to the next, time stands still or moves on; under protection by no more than tolerated. */
  predicate StepsForward(c: Config, a: Ticket, b: Ticket) {
    && a.parts.timestamp <= b.parts.timestamp
    && (c.action == ReportError && c.driftProtection ==>
          (b.parts.timestamp - a.parts.timestamp) * MILLISECOND <= c.maxClockDrift)
  }

  ghost predicate Timed(c: Config, history: seq<Ticket>) {
    && (forall i :: 0 <= i < |history| ==> FollowsClock(c, history[i]))
    && (forall i :: 0 < i < |history| ==> StepsForward(c, history[i - 1], history[i]))
  }

  lemma {:induction false} TimedStep(c: Config, r: Run, input: Input)
    requires c.Accepted() && Dense(c, r) && Timed(c, r.history)
    requires input.Reading? ==> input.now >= 0
    ensures Timed(c, Advance(c, r, input).history)
  {
    if input.Reading? {
      var t := Try(c, r.state, input.now);
      if t.outcome.Issued? {
        var ticket := Ticket(t.outcome.parts, input.now);
        assert Advance(c, r, input).history == r.history + [ticket];
        assert FollowsClock(c, ticket);
        assert r.history != [] ==> StepsForward(c, r.history[|r.history| - 1], ticket);
      }
    }
  }

  /** Issued timestamps are bounded by the clock over whole runs. */
  lemma {:induction false} TimestampsFollowClock(c: Config, workerID: int, inputs: seq<Input>)
    requires c.Accepted() && Start(c, workerID) && Sane(inputs)
    ensures Timed(c, Execute(c, workerID, inputs).history)
    decreases |inputs|
  {
    if inputs != [] {
      var n := |inputs| - 1;
      TimestampsFollowClock(c, workerID, inputs[..n]);
      RunIsDense(c, workerID, inputs[..n]);
      TimedStep(c, Execute(c, workerID, inputs[..n]), inputs[n]);
    }
  }

  /**
   * A wait asked for in wait mode is long enough, and not a millisecond too long: once the clock has
   * moved on by it, the next attempt issues, except that after the longest wait the last millisecond
   * may still be current and used up.
   */
  lemma {:induction false} WaitBridgesDrift(c: Config, s: State, now: int, later: int)
    requires c.Accepted() && InRange(c, s) && now < s.lastTimestamp
    requires Try(c, s, now).outcome.NeedWait?
    requires (later - now) * MILLISECOND >= Try(c, s, now).outcome.duration
    ensures var wait := Try(c, s, now).outcome.duration;
            && Try(c, s, now).state == s && 0 < wait <= MAX_CLOCK_BACKWARD_WAIT
            && wait <= (s.lastTimestamp + 1 - now) * MILLISECOND
            && later >= s.lastTimestamp
            && (later > s.lastTimestamp || wait == MAX_CLOCK_BACKWARD_WAIT)
    ensures Try(c, s, later).outcome.Issued?
            <==> later > s.lastTimestamp || s.sequence < c.MaxSequence()
  {
    var drift := s.lastTimestamp - now;
    assert Try(c, s, now).outcome.duration == BackwardWait(drift);
    assert !ForwardDriftExceeded(c, s, later);
  }

  // ----- Packed identifiers -----

  /** Readings leave room before the layout runs out for as far as timestamps may run ahead of them. */
  predicate WithinLifetime(c: Config, inputs: seq<Input>)
    requires c.Accepted()
  {
    forall i :: 0 <= i < |inputs| ==> inputs[i].Reading? ==>
      c.epoch <= inputs[i].now < c.epoch + c.layout.Lifetime() - Lead(c)
  }

  predicate Packable(c: Config, t: Ticket)
    requires c.Accepted()
  {
    && FitsFields(c.layout, t.parts)
    && InLifetime(c.layout, c.epoch, t.parts.timestamp)
    && t.parts.datacenter == c.datacenterID
  }

  ghost predicate AllPackable(c: Config, history: seq<Ticket>)
    requires c.Accepted()
  {
    forall i :: 0 <= i < |history| ==> Packable(c, history[i])
  }

  function IdOf(c: Config, t: Ticket): int
    requires c.Accepted() && Packable(c, t)
  {
    Pack(c.layout, c.epoch, t.parts)
  }

  lemma {:induction false} PackableStep(c: Config, r: Run, input: Input)
    requires c.Accepted() && InRange(c, r.state) && AllPackable(c, r.history) && WithinLifetime(c, [input])
    requires Timed(c, Advance(c, r, input).history)
    ensures AllPackable(c, Advance(c, r, input).history)
  {
    var h := Advance(c, r, input).history;
    assert [input][0] == input;
    if h != r.history {
      assert h[..|h| - 1] == r.history;
      assert FollowsClock(c, h[|h| - 1]) && h[|h| - 1].reading == input.now;
      assert Packable(c, h[|h| - 1]);
    }
  }

  lemma {:induction false} TicketsArePackable(c: Config, workerID: int, inputs: seq<Input>)
    requires c.Accepted() && Start(c, workerID) && WithinLifetime(c, inputs)
    ensures AllPackable(c, Execute(c, workerID, inputs).history)
    decreases |inputs|
  {
    if inputs != [] {
      var n := |inputs| - 1;
      TicketsArePackable(c, workerID, inputs[..n]);
      TimestampsFollowClock(c, workerID, inputs);
      PackableStep(c, Execute(c, workerID, inputs[..n]), inputs[n]);
    }
  }

  ghost predicate IdsDistinct(c: Config, history: seq<Ticket>)
    requires c.Accepted() && AllPackable(c, history)
  {
    forall i, j :: 0 <= i < j < |history| ==> IdOf(c, history[i]) != IdOf(c, history[j])
  }

  /** Identifiers ascend wherever the millisecond moves on or the worker is the same. */
  ghost predicate IdsAscendPerWorker(c: Config, history: seq<Ticket>)
    requires c.Accepted() && AllPackable(c, history)
  {
    forall i, j :: 0 <= i < j < |history|
      && (history[i].parts.timestamp < history[j].parts.timestamp || history[i].parts.worker == history[j].parts.worker)
      ==> IdOf(c, history[i]) < IdOf(c, history[j])
  }

  /** A disciplined run issues distinct identifiers, however often its worker id is switched. */
  lemma {:induction false} DisciplinedIdsAreDistinct(c: Config, workerID: int, inputs: seq<Input>)
    requires c.Accepted() && Start(c, workerID) && WithinLifetime(c, inputs)
    requires NeverReissues(c, workerID, inputs)
    ensures AllPackable(c, Execute(c, workerID, inputs).history)
    ensures IdsDistinct(c, Execute(c, workerID, inputs).history)
    ensures IdsAscendPerWorker(c, Execute(c, workerID, inputs).history)
  {
    var h := Execute(c, workerID, inputs).history;
    TicketsArePackable(c, workerID, inputs);
    PairsAscendIffNeverReissued(c, workerID, inputs);
    forall i, j | 0 <= i < j < |h|
      ensures IdOf(c, h[i]) != IdOf(c, h[j])
      ensures h[i].parts.timestamp < h[j].parts.timestamp || h[i].parts.worker == h[j].parts.worker
              ==> IdOf(c, h[i]) < IdOf(c, h[j])
    {
      assert Before(h[i], h[j]);
      PackInjective(c.layout, c.epoch, h[i].parts, h[j].parts);
      PackPreservesOrder(c.layout, c.epoch, h[i].parts, h[j].parts);
    }
  }

  predicate KeepsWorker(inputs: seq<Input>) {
    forall i :: 0 <= i < |inputs| ==> !inputs[i].SetWorker?
  }

  lemma {:induction false} WorkerIsKept(c: Config, workerID: int, inputs: seq<Input>)
    requires c.Accepted() && Start(c, workerID) && KeepsWorker(inputs)
    ensures Execute(c, workerID, inputs).state.workerID == workerID
    ensures var h := Execute(c, workerID, inputs).history;
            forall i :: 0 <= i < |h| ==> h[i].parts.worker == workerID
    decreases |inputs|
  {
    if inputs != [] {
      WorkerIsKept(c, workerID, inputs[..|inputs| - 1]);
    }
  }

  /** Under one worker id the identifiers are distinct exactly when the run never reissues. */
  lemma {:induction false} IdsDistinctIffNeverReissued(c: Config, workerID: int, inputs: seq<Input>)
    requires c.Accepted() && Start(c, workerID) && WithinLifetime(c, inputs) && KeepsWorker(inputs)
    ensures AllPackable(c, Execute(c, workerID, inputs).history)
    ensures IdsDistinct(c, Execute(c, workerID, inputs).history) <==> NeverReissues(c, workerID, inputs)
  {
    var h := Execute(c, workerID, inputs).history;
    TicketsArePackable(c, workerID, inputs);
    if NeverReissues(c, workerID, inputs) {
      DisciplinedIdsAreDistinct(c, workerID, inputs);
    } else {
      UndisciplinedRunDuplicates(c, workerID, inputs);
      WorkerIsKept(c, workerID, inputs);
      var i, j :| 0 <= i < j < |h| && SamePair(h[i], h[j]);
      assert h[i].parts == h[j].parts;
      assert IdOf(c, h[i]) == IdOf(c, h[j]);
    }
  }

  // ----- A run that shows why the reading after an overflow wait matters -----

  function Repeat(now: int, n: nat): (inputs: seq<Input>)
    ensures |inputs| == n && forall i :: 0 <= i < n ==> inputs[i] == Reading(now)
  {
    seq(n, i => Reading(now))
  }

  /** Within one millisecond the sequence counts up to its maximum. */
  lemma {:induction false} OneMillisecond(c: Config, workerID: int, now: int, n: nat)
    requires c.Accepted() && Start(c, workerID) && now >= 0 && n <= c.MaxSequence()
    ensures var r := Execute(c, workerID, Repeat(now, n + 1));
            r.state == State(now, n, workerID, false) && !r.full
  {
    assert Repeat(now, n + 1)[..n] == Repeat(now, n);
    if n > 0 {
      OneMillisecond(c, workerID, now, n - 1);
    }
  }

  /** One reading more, and the used-up millisecond asks for an overflow wait. */
  lemma {:induction false} UsedUpMillisecond(c: Config, workerID: int, now: int)
    requires c.Accepted() && Start(c, workerID) && now >= 0
    ensures var r := Execute(c, workerID, Repeat(now, c.MaxSequence() + 2));
            r.full && r.state == State(now, 0, workerID, false)
  {
    var m := c.MaxSequence();
    OneMillisecond(c, workerID, now, m);
    assert Repeat(now, m + 2)[..m + 1] == Repeat(now, m + 1);
  }

  lemma {:induction false} LastReissues(c: Config, workerID: int, inputs: seq<Input>, last: Input)
    requires c.Accepted() && Start(c, workerID) && Reissues(c, Execute(c, workerID, inputs), last)
    ensures !NeverReissues(c, workerID, inputs + [last])
  {
    assert (inputs + [last])[..|inputs|] == inputs;
  }

  /**
   * When the clock stands still across an overflow wait, sequence number 1 of the millisecond is
   * issued a second time, in every drift mode.
   */
  lemma {:induction false} StandingClockReissues(c: Config, workerID: int, now: int)
    requires c.Accepted() && Start(c, workerID) && now >= 0
    ensures !PairsDistinct(Execute(c, workerID, Repeat(now, c.MaxSequence() + 3)).history)
  {
    var m := c.MaxSequence();
    UsedUpMillisecond(c, workerID, now);
    assert Pow2(c.layout.sequenceBits) >= 100;
    LastReissues(c, workerID, Repeat(now, m + 2), Reading(now));
    assert Repeat(now, m + 3) == Repeat(now, m + 2) + [Reading(now)];
    UndisciplinedRunDuplicates(c, workerID, Repeat(now, m + 3));
  }
}
