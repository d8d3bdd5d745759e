/** Whole runs of generator objects, against the runs that the theorems are about. */
module GeneratorReplay {
  import opened Snowflake
  import opened GeneratorSpec
  import opened GeneratorRuns
  import opened GeneratorObject

  /** The parts of the outcomes that issued something. */
  function IssuedParts(outcomes: seq<Outcome>): seq<Parts> {
    if outcomes == [] then []
    else
      var before, last := IssuedParts(outcomes[..|outcomes| - 1]), outcomes[|outcomes| - 1];
      if last.Issued? then before + [last.parts] else before
  }

  function HistoryParts(history: seq<Ticket>): (parts: seq<Parts>)
    ensures |parts| == |history| && forall i :: 0 <= i < |history| ==> parts[i] == history[i].parts
  {
    seq(|history|, i requires 0 <= i < |history| => history[i].parts)
  }

  function OutcomesOf(answers: seq<Answer>): (outcomes: seq<Outcome>)
    ensures |outcomes| == |answers| && forall i :: 0 <= i < |answers| ==> outcomes[i] == answers[i].outcome
  {
    seq(|answers|, i requires 0 <= i < |answers| => answers[i].outcome)
  }

  lemma {:induction false} IssuedPartsAppend(outcomes: seq<Outcome>, outcome: Outcome)
    ensures IssuedParts(outcomes + [outcome])
            == IssuedParts(outcomes) + (if outcome.Issued? then [outcome.parts] else [])
  {
    assert (outcomes + [outcome])[..|outcomes|] == outcomes;
  }

  /** The history of a run is what its outcomes issued, and its state the one that the inputs lead to. */
  lemma {:induction false} HistoryIsIssued(c: Config, workerID: int, inputs: seq<Input>)
    requires c.Accepted() && Start(c, workerID)
    ensures Execute(c, workerID, inputs).state == ApplyAll(c, Begin(workerID).state, inputs)
    ensures HistoryParts(Execute(c, workerID, inputs).history)
            == IssuedParts(Outcomes(c, Begin(workerID).state, inputs))
    decreases |inputs|
  {
    if inputs != [] {
      var n := |inputs| - 1;
      HistoryIsIssued(c, workerID, inputs[..n]);
      var s := ApplyAll(c, Begin(workerID).state, inputs[..n]);
      if inputs[n].Reading? {
        IssuedPartsAppend(Outcomes(c, Begin(workerID).state, inputs[..n]), Try(c, s, inputs[n].now).outcome);
      }
    }
  }

  /** The answers of a new generator to any inputs, cached or not, issue exactly the tickets of the run. */
  method Replay(c: Config, workerID: int, inputs: seq<Input>) returns (answers: seq<Answer>)
    requires c.Accepted() && Start(c, workerID)
    ensures OutcomesOf(answers) == Outcomes(c, Begin(workerID).state, inputs)
    ensures IssuedParts(OutcomesOf(answers)) == HistoryParts(Execute(c, workerID, inputs).history)
    ensures forall k :: 0 <= k < |answers| ==>
              match answers[k].outcome
              case Issued(parts) => FitsFields(c.layout, parts) && answers[k].id == Pack(c.layout, c.epoch, parts)
              case _ => answers[k].id == 0
    ensures forall k :: 0 <= k < |answers| && answers[k].cacheHit ==> c.cacheEnabled && answers[k].outcome.Issued?
  {
    var g := new Generator(c, workerID);
    answers := g.Serve(inputs);
    HistoryIsIssued(c, workerID, inputs);
    assert forall k :: 0 <= k < |answers| ==> g.IsIdentifierOf(answers[k].outcome, answers[k].id);
  }

  lemma {:induction false} OutcomesIgnoreCache(c: Config, d: Config, s: State, inputs: seq<Input>)
    requires c.Accepted() && d.Accepted() && InRange(c, s) && InRange(d, s)
    requires d == c.(cacheEnabled := d.cacheEnabled, cacheSize := d.cacheSize)
    ensures ApplyAll(c, s, inputs) == ApplyAll(d, s, inputs)
    ensures Outcomes(c, s, inputs) == Outcomes(d, s, inputs)
    decreases |inputs|
  {
    if inputs != [] {
      var n := |inputs| - 1;
      OutcomesIgnoreCache(c, d, s, inputs[..n]);
      if inputs[n].Reading? {
        TryIgnoresCache(c, d, ApplyAll(c, s, inputs[..n]), inputs[n].now);
      }
    }
  }

  /**
   * The cache is invisible: two new generators that differ only in it, run side by side on the same
   * readings, worker switches and shutdowns, give the same identifiers, waits and errors. Only the hits
   * can differ, and one without a cache has none.
   */
  method CacheIsInvisible(c: Config, d: Config, workerID: int, inputs: seq<Input>)
    returns (first: seq<Answer>, second: seq<Answer>)
    requires c.Accepted() && d.Accepted() && Start(c, workerID)
    requires d == c.(cacheEnabled := d.cacheEnabled, cacheSize := d.cacheSize)
    ensures |first| == |second|
    ensures forall k :: 0 <= k < |first| ==> first[k].outcome == second[k].outcome && first[k].id == second[k].id
    ensures forall k :: 0 <= k < |first| && first[k].cacheHit ==> c.cacheEnabled && first[k].outcome.Issued?
    ensures forall k :: 0 <= k < |second| && second[k].cacheHit ==> d.cacheEnabled && second[k].outcome.Issued?
  {
    var g := new Generator(c, workerID);
    first := g.Serve(inputs);
    var h := new Generator(d, workerID);
    second := h.Serve(inputs);
    OutcomesIgnoreCache(c, d, Begin(workerID).state, inputs);
    assert forall k :: 0 <= k < |first| ==>
      g.IsIdentifierOf(first[k].outcome, first[k].id) && h.IsIdentifierOf(second[k].outcome, second[k].id);
  }
}
