/** Whole runs of one generator: any mix of attempts, worker switches and shutdown, under any wall clock. */
module GeneratorRuns {
  import opened Snowflake
  import opened GeneratorSpec

  /** An issued identifier and the clock reading of the attempt that issued it. */
  datatype Ticket = Ticket(parts: Parts, reading: int)

  /**
   * A generator together with what it has issued. `full` records that an overflow wait was
   * requested at `state.lastTimestamp`: every sequence number of that millisecond is gone.
   */
  datatype Run = Run(state: State, full: bool, history: seq<Ticket>)

  function Begin(workerID: int): Run {
    Run(State(-1, 0, workerID, false), false, [])
  }

  function Advance(c: Config, r: Run, input: Input): Run
    requires c.Accepted() && InRange(c, r.state)
  {
    match input
    case Reading(now) =>
      var t := Try(c, r.state, now);
      (match t.outcome
       case Issued(parts) =>
         Run(t.state, r.full && parts.timestamp == r.state.lastTimestamp, r.history + [Ticket(parts, now)])
       case NeedWait(duration) => Run(t.state, r.full || duration == 0, r.history)
       case Failed(_) => r)
    case _ => r.(state := Apply(c, r.state, input))
  }

  predicate Start(c: Config, workerID: int)
    requires c.Accepted()
  {
    0 <= workerID <= c.MaxWorker()
  }

  /** The run that the inputs, in order, lead to. */
  function Execute(c: Config, workerID: int, inputs: seq<Input>): (r: Run)
    requires c.Accepted() && Start(c, workerID)
    ensures InRange(c, r.state)
    decreases |inputs|
  {
    if inputs == [] then Begin(workerID)
    else Advance(c, Execute(c, workerID, inputs[..|inputs| - 1]), inputs[|inputs| - 1])
  }

  /** Readings come from a clock that counts milliseconds since 1970. */
  predicate Sane(inputs: seq<Input>) {
    forall i :: 0 <= i < |inputs| ==> inputs[i].Reading? ==> inputs[i].now >= 0
  }

  // ----- Which sequence numbers a millisecond has used -----

  function Taken(history: seq<Ticket>, timestamp: int): set<int> {
    set i | 0 <= i < |history| && history[i].parts.timestamp == timestamp :: history[i].parts.sequence
  }

  /** The numbers 0..k; none when k is negative. */
  function UpTo(k: int): (numbers: set<int>)
    ensures forall s :: s in numbers <==> 0 <= s <= k
    decreases if k < 0 then 0 else k + 1
  {
    if k < 0 then {} else UpTo(k - 1) + {k}
  }

  lemma {:induction false} TakenAppend(history: seq<Ticket>, t: Ticket, timestamp: int)
    ensures Taken(history + [t], timestamp)
            == Taken(history, timestamp) + (if t.parts.timestamp == timestamp then {t.parts.sequence} else {})
  {
    var longer := history + [t];
    assert longer[|history|] == t;
    forall s | s in Taken(history, timestamp)
      ensures s in Taken(longer, timestamp)
    {
      var i :| 0 <= i < |history| && history[i].parts.timestamp == timestamp && history[i].parts.sequence == s;
      assert longer[i] == history[i];
    }
    if t.parts.timestamp == timestamp {
      assert longer[|history|].parts.sequence in Taken(longer, timestamp);
    }
  }

  /** How far the sequence numbers of the current millisecond have been handed out. */
  function Top(c: Config, r: Run): int
    requires c.Accepted()
  {
    if r.state.lastTimestamp == -1 then -1 else if r.full then c.MaxSequence() else r.state.sequence
  }

  /** Every millisecond before `last` has used 0..k for some k, `last` has used 0..top, none after it is used. */
  ghost predicate DenseHistory(history: seq<Ticket>, last: int, top: int, max: int) {
    && top <= max
    && Taken(history, last) == UpTo(top)
    && (forall t :: t > last ==> Taken(history, t) == {})
    && (forall t :: t < last ==> exists k :: k <= max && Taken(history, t) == UpTo(k))
  }

  lemma {:induction false} DenseNewMillisecond(history: seq<Ticket>, last: int, top: int, max: int, ticket: Ticket)
    requires DenseHistory(history, last, top, max) && max >= 0
    requires ticket.parts.timestamp > last && ticket.parts.sequence == 0
    ensures DenseHistory(history + [ticket], ticket.parts.timestamp, 0, max)
  {
    forall t
      ensures Taken(history + [ticket], t)
              == Taken(history, t) + (if ticket.parts.timestamp == t then {0} else {})
    {
      TakenAppend(history, ticket, t);
    }
    forall t | t < ticket.parts.timestamp
      ensures exists k :: k <= max && Taken(history + [ticket], t) == UpTo(k)
    {
      if t == last {
        assert Taken(history + [ticket], t) == UpTo(top);
      } else if t > last {
        assert Taken(history + [ticket], t) == UpTo(-1);
      }
    }
  }

  lemma {:induction false} DenseSameMillisecond(history: seq<Ticket>, last: int, top: int, max: int, ticket: Ticket)
    requires DenseHistory(history, last, top, max)
    requires ticket.parts.timestamp == last && 0 <= ticket.parts.sequence <= max
    requires ticket.parts.sequence <= top + 1
    ensures DenseHistory(history + [ticket], last,
                         if ticket.parts.sequence > top then ticket.parts.sequence else top, max)
  {
    forall t
      ensures Taken(history + [ticket], t)
              == Taken(history, t) + (if last == t then {ticket.parts.sequence} else {})
    {
      TakenAppend(history, ticket, t);
    }
  }

  ghost predicate Dense(c: Config, r: Run)
    requires c.Accepted()
  {
    && InRange(c, r.state)
    && r.state.lastTimestamp >= -1
    && (r.state.lastTimestamp == -1 <==> r.history == [])
    && (r.history != [] ==> r.history[|r.history| - 1].parts.timestamp == r.state.lastTimestamp)
    && DenseHistory(r.history, r.state.lastTimestamp, Top(c, r), c.MaxSequence())
  }

  lemma {:induction false} DenseStep(c: Config, r: Run, input: Input)
    requires c.Accepted() && Dense(c, r)
    requires input.Reading? ==> input.now >= 0
    ensures Dense(c, Advance(c, r, input))
  {
    if input.Reading? {
      var t := Try(c, r.state, input.now);
      if t.outcome.Issued? {
        var ticket := Ticket(t.outcome.parts, input.now);
        if ticket.parts.timestamp > r.state.lastTimestamp {
          DenseNewMillisecond(r.history, r.state.lastTimestamp, Top(c, r), c.MaxSequence(), ticket);
        } else {
          DenseSameMillisecond(r.history, r.state.lastTimestamp, Top(c, r), c.MaxSequence(), ticket);
        }
      }
    }
  }

  lemma {:induction false} RunIsDense(c: Config, workerID: int, inputs: seq<Input>)
    requires c.Accepted() && Start(c, workerID) && Sane(inputs)
    ensures Dense(c, Execute(c, workerID, inputs))
    decreases |inputs|
  {
    if inputs == [] {
      assert Taken([], -1) == UpTo(-1);
      forall t ensures Taken([], t) == {} {}
      forall t | t < -1 ensures exists k :: k <= c.MaxSequence() && Taken([], t) == UpTo(k) {
        assert Taken([], t) == UpTo(-1);
      }
    } else {
      var n := |inputs| - 1;
      RunIsDense(c, workerID, inputs[..n]);
      DenseStep(c, Execute(c, workerID, inputs[..n]), inputs[n]);
    }
  }

  /** At every millisecond the sequence numbers issued are 0..k, without a gap. */
  lemma {:induction false} SequenceNumbersAreDense(c: Config, workerID: int, inputs: seq<Input>, timestamp: int)
    requires c.Accepted() && Start(c, workerID) && Sane(inputs)
    ensures exists k :: k <= c.MaxSequence()
                        && Taken(Execute(c, workerID, inputs).history, timestamp) == UpTo(k)
  {
    RunIsDense(c, workerID, inputs);
    var r := Execute(c, workerID, inputs);
    if timestamp == r.state.lastTimestamp {
      assert Top(c, r) <= c.MaxSequence();
    } else if timestamp > r.state.lastTimestamp {
      assert Taken(r.history, timestamp) == UpTo(-1);
    }
  }

  /** A millisecond is given up, by an overflow wait or a synthetic advance, only when it is used up. */
  lemma {:induction false} OverflowMeansFull(c: Config, workerID: int, inputs: seq<Input>, now: int)
    requires c.Accepted() && Start(c, workerID) && Sane(inputs) && now >= 0
    ensures var r := Execute(c, workerID, inputs);
            var o := Try(c, r.state, now).outcome;
            o == NeedWait(0) || (o.Issued? && o.parts.timestamp > now && o.parts.timestamp > r.state.lastTimestamp)
            ==> Taken(r.history, r.state.lastTimestamp) == UpTo(c.MaxSequence())
  {
    RunIsDense(c, workerID, inputs);
  }

  // ----- When the issued pairs ascend -----

  predicate Before(a: Ticket, b: Ticket) {
    || a.parts.timestamp < b.parts.timestamp
    || (a.parts.timestamp == b.parts.timestamp && a.parts.sequence < b.parts.sequence)
  }

  predicate SamePair(a: Ticket, b: Ticket) {
    a.parts.timestamp == b.parts.timestamp && a.parts.sequence == b.parts.sequence
  }

  ghost predicate Ascending(history: seq<Ticket>) {
    forall i, j :: 0 <= i < j < |history| ==> Before(history[i], history[j])
  }

  ghost predicate PairsDistinct(history: seq<Ticket>) {
    forall i, j :: 0 <= i < j < |history| ==> !SamePair(history[i], history[j])
  }

  /**
   * The attempt takes a reading that lets it go on at a millisecond whose numbers are used up:
   * the same millisecond again or, in ignore mode, an earlier one within the tolerated drift.
   */
  predicate Reissues(c: Config, r: Run, input: Input)
    requires c.Accepted()
  {
    && input.Reading?
    && r.full
    && !r.state.shuttingDown
    && r.state.sequence < c.MaxSequence()
    && (|| input.now == r.state.lastTimestamp
        || (c.action == IgnoreDrift && 0 < r.state.lastTimestamp - input.now <= MAX_IGNORE_BACKWARD_DRIFT_MS))
  }

  /** No attempt of the run reissues: after an overflow wait the clock is read only once it has moved on. */
  predicate NeverReissues(c: Config, workerID: int, inputs: seq<Input>)
    requires c.Accepted() && Start(c, workerID)
    decreases |inputs|
  {
    if inputs == [] then true
    else
      var n := |inputs| - 1;
      && NeverReissues(c, workerID, inputs[..n])
      && !Reissues(c, Execute(c, workerID, inputs[..n]), inputs[n])
  }

  /** What holds of a run that has never reissued. */
  ghost predicate Orderly(c: Config, r: Run)
    requires c.Accepted()
  {
    && Dense(c, r)
    && Ascending(r.history)
    && (r.full ==> r.state.sequence == 0)
    && (forall i :: 0 <= i < |r.history| ==>
          || r.history[i].parts.timestamp < r.state.lastTimestamp
          || (r.history[i].parts.timestamp == r.state.lastTimestamp && r.history[i].parts.sequence <= Top(c, r)))
  }

  /** Whatever a disciplined attempt issues comes after everything issued so far. */
  lemma {:induction false} IssuesBeyond(c: Config, r: Run, now: int)
    requires c.Accepted() && Orderly(c, r) && !Reissues(c, r, Reading(now)) && now >= 0
    ensures var o := Try(c, r.state, now).outcome;
            o.Issued? ==>
              || o.parts.timestamp > r.state.lastTimestamp
              || (o.parts.timestamp == r.state.lastTimestamp && !r.full && o.parts.sequence > Top(c, r))
  {
  }

  lemma {:induction false} OrderlyStep(c: Config, r: Run, input: Input)
    requires c.Accepted() && Orderly(c, r) && !Reissues(c, r, input)
    requires input.Reading? ==> input.now >= 0
    ensures Orderly(c, Advance(c, r, input))
  {
    DenseStep(c, r, input);
    if input.Reading? {
      IssuesBeyond(c, r, input.now);
    }
  }

  lemma {:induction false} DisciplinedRunIsOrderly(c: Config, workerID: int, inputs: seq<Input>)
    requires c.Accepted() && Start(c, workerID) && Sane(inputs) && NeverReissues(c, workerID, inputs)
    ensures Orderly(c, Execute(c, workerID, inputs))
    decreases |inputs|
  {
    if inputs == [] {
      RunIsDense(c, workerID, inputs);
    } else {
      var n := |inputs| - 1;
      DisciplinedRunIsOrderly(c, workerID, inputs[..n]);
      OrderlyStep(c, Execute(c, workerID, inputs[..n]), inputs[n]);
    }
  }

  /** A reissuing attempt hands out a pair that is already in the history. */
  lemma {:induction false} ReissueDuplicates(c: Config, r: Run, input: Input)
    requires c.Accepted() && Dense(c, r) && Reissues(c, r, input) && input.now >= 0
    ensures !PairsDistinct(Advance(c, r, input).history)
  {
    var t := Try(c, r.state, input.now);
    var ticket := Ticket(t.outcome.parts, input.now);
    var r' := Advance(c, r, input);
    assert r'.history == r.history + [ticket];
    assert ticket.parts.sequence in UpTo(c.MaxSequence());
    assert r.state.lastTimestamp != -1;
    assert ticket.parts.sequence in Taken(r.history, r.state.lastTimestamp);
    var i :| 0 <= i < |r.history| && r.history[i].parts.timestamp == r.state.lastTimestamp
             && r.history[i].parts.sequence == ticket.parts.sequence;
    assert SamePair(r'.history[i], r'.history[|r.history|]);
  }

  lemma {:induction false} HistoryGrows(c: Config, r: Run, input: Input)
    requires c.Accepted() && InRange(c, r.state)
    ensures r.history <= Advance(c, r, input).history
  {
  }

  lemma {:induction false} UndisciplinedRunDuplicates(c: Config, workerID: int, inputs: seq<Input>)
    requires c.Accepted() && Start(c, workerID) && Sane(inputs) && !NeverReissues(c, workerID, inputs)
    ensures !PairsDistinct(Execute(c, workerID, inputs).history)
    decreases |inputs|
  {
    var n := |inputs| - 1;
    var r := Execute(c, workerID, inputs[..n]);
    if NeverReissues(c, workerID, inputs[..n]) {
      RunIsDense(c, workerID, inputs[..n]);
      ReissueDuplicates(c, r, inputs[n]);
    } else {
      UndisciplinedRunDuplicates(c, workerID, inputs[..n]);
      HistoryGrows(c, r, inputs[n]);
      var i, j :| 0 <= i < j < |r.history| && SamePair(r.history[i], r.history[j]);
      var longer := Advance(c, r, inputs[n]).history;
      assert longer[i] == r.history[i] && longer[j] == r.history[j];
    }
  }

  /**
   * The issued (timestamp, sequence) pairs strictly increase, and equally are pairwise distinct,
   * exactly when no attempt goes on at a millisecond after its overflow wait.
   */
  lemma {:induction false} PairsAscendIffNeverReissued(c: Config, workerID: int, inputs: seq<Input>)
    requires c.Accepted() && Start(c, workerID) && Sane(inputs)
    ensures Ascending(Execute(c, workerID, inputs).history) <==> NeverReissues(c, workerID, inputs)
    ensures PairsDistinct(Execute(c, workerID, inputs).history) <==> NeverReissues(c, workerID, inputs)
  {
    var h := Execute(c, workerID, inputs).history;
    if NeverReissues(c, workerID, inputs) {
      DisciplinedRunIsOrderly(c, workerID, inputs);
      forall i, j | 0 <= i < j < |h| ensures !SamePair(h[i], h[j]) {
        assert Before(h[i], h[j]);
      }
    } else {
      UndisciplinedRunDuplicates(c, workerID, inputs);
      var i, j :| 0 <= i < j < |h| && SamePair(h[i], h[j]);
      assert !Before(h[i], h[j]);
    }
  }

  // ----- The cache -----

  lemma {:induction false} TryIgnoresCache(c: Config, d: Config, s: State, now: int)
    requires c.Accepted() && d.Accepted() && InRange(c, s)
    requires d == c.(cacheEnabled := d.cacheEnabled, cacheSize := d.cacheSize)
    ensures InRange(d, s) && Try(c, s, now) == Try(d, s, now)
  {
  }
}
