/** The issuing half of the fleet's invariant: who may issue under a key, and what has been issued. */
module FleetInvariant {
  import Snowflake
  import opened RedisSpec
  import opened FleetSpec
  import opened FleetLease
  import opened FleetOrphans

  // ----- One instance -----

  predicate Timely(p: Params, now: int, x: Instance) {
    && -1 <= x.generator.lastTimestamp <= now
    && x.lastGate <= now
    && (x.full ==> x.generator.sequence == 0 && x.generator.lastTimestamp >= 0)
    && (x.activity.Granted? || x.activity.Pushing? ==> x.lastGate + p.ttl <= x.lease)
  }

  /** A call that passed the gate may still be under way only under a key granted to this instance. */
  predicate Permitted(p: Params, now: int, grants: map<Key, Grant>, i: nat, x: Instance) {
    now <= x.lastGate + p.issueDelay ==>
      var key := Key(x.datacenter, x.generator.workerID);
      key in grants && grants[key].holder == i && x.lastGate + p.issueDelay <= grants[key].until
  }

  predicate InstanceIssues(p: Params, now: int, grants: map<Key, Grant>, i: nat, x: Instance) {
    Timely(p, now, x) && Permitted(p, now, grants, i, x)
  }

  ghost predicate Permits(p: Params, f: Fleet) {
    forall i: nat :: i < |f.instances| ==> InstanceIssues(p, f.now, f.grants, i, f.instances[i])
  }

  // ----- What has been issued -----

  function KeyOf(parts: Snowflake.Parts): Key {
    Key(parts.datacenter, parts.worker)
  }

  predicate Proper(p: Params, parts: Snowflake.Parts)
    requires p.Accepted()
  {
    Snowflake.FitsFields(p.config.layout, parts) && p.config.epoch <= parts.timestamp
  }

  /** Under each key, everybody but the present holder stopped before it was granted. */
  predicate Fenced(t: Issue, grants: map<Key, Grant>) {
    && KeyOf(t.parts) in grants
    && t.parts.timestamp <= grants[KeyOf(t.parts)].until
    && (t.instance != grants[KeyOf(t.parts)].holder ==> t.parts.timestamp < grants[KeyOf(t.parts)].since)
  }

  /** A generator has moved past everything that its instance issued. */
  predicate Passed(t: Issue, x: Instance) {
    || t.parts.timestamp < x.generator.lastTimestamp
    || (t.parts.timestamp == x.generator.lastTimestamp && (x.full || t.parts.sequence <= x.generator.sequence))
  }

  predicate IssuedInv(p: Params, now: int, grants: map<Key, Grant>, instances: seq<Instance>, issued: seq<Issue>)
    requires p.Accepted()
  {
    && (forall n :: 0 <= n < |issued| ==>
          && issued[n].instance < |instances|
          && issued[n].parts.timestamp <= now
          && Proper(p, issued[n].parts)
          && Passed(issued[n], instances[issued[n].instance]))
    && (forall n :: 0 <= n < |issued| ==> Fenced(issued[n], grants))
  }

  ghost predicate AllDistinct(issued: seq<Issue>) {
    forall m, n :: 0 <= m < n < |issued| ==> issued[m].parts != issued[n].parts
  }

  ghost predicate IssueInv(p: Params, f: Fleet)
    requires p.Accepted()
  {
    && Permits(p, f)
    && IssuedInv(p, f.now, f.grants, f.instances, f.issued)
    && AllDistinct(f.issued)
  }

  ghost predicate Inv(p: Params, f: Fleet)
    requires p.Accepted()
  {
    LeaseInv(p, f) && OrphanInv(p, f) && IssueInv(p, f)
  }

  // ----- Steps that neither issue nor change who may -----

  /** Nothing about the instance that bears on issuing is different. */
  predicate Calm(x: Instance, y: Instance) {
    && y.datacenter == x.datacenter && y.full == x.full && y.lastGate == x.lastGate
    && y.generator.lastTimestamp == x.generator.lastTimestamp && y.generator.sequence == x.generator.sequence
  }

  lemma {:induction false} LocalIssues(p: Params, f: Fleet, g: Fleet, i: nat)
    requires p.Accepted() && IssueInv(p, f) && i < |f.instances| && i < |g.instances|
    requires g.now == f.now && g.grants == f.grants && g.issued == f.issued
    requires g.instances == f.instances[i := g.instances[i]]
    requires InstanceIssues(p, g.now, g.grants, i, g.instances[i])
    requires var x, y := f.instances[i], g.instances[i];
             && y.generator.lastTimestamp == x.generator.lastTimestamp
             && y.generator.sequence == x.generator.sequence && y.full == x.full
    ensures IssueInv(p, g)
  {
    forall n | 0 <= n < |g.issued|
      ensures Passed(g.issued[n], g.instances[g.issued[n].instance])
    {
      assert Passed(f.issued[n], f.instances[f.issued[n].instance]);
    }
  }

  /** A calm step of instance i that leaves its generator's worker id alone. */
  lemma {:induction false} CalmStep(p: Params, f: Fleet, g: Fleet, i: nat)
    requires p.Accepted() && IssueInv(p, f) && i < |f.instances| && |g.instances| == |f.instances|
    requires CalmBetween(p, f, g, i)
    ensures IssueInv(p, g)
  {
    assert InstanceIssues(p, f.now, f.grants, i, f.instances[i]);
    LocalIssues(p, f, g, i);
  }

  lemma {:induction false} TickKeepsIssues(p: Params, f: Fleet, ms: nat)
    requires p.Accepted() && IssueInv(p, f)
    ensures IssueInv(p, f.(now := f.now + ms))
  {
    forall i: nat | i < |f.instances|
      ensures InstanceIssues(p, f.now + ms, f.grants, i, f.instances[i])
    {
      assert InstanceIssues(p, f.now, f.grants, i, f.instances[i]);
    }
  }

  predicate Registers(step: Step) {
    step.ProbeSpecific? || step.Probe? || step.GiveUp? || step.RecordLocally?
  }

  predicate Concludes(step: Step) {
    step.Finish? || step.FinishInLoop?
  }

  predicate Reports(step: Step) {
    step.BeatObserved? || step.BeatFails? || step.AnnounceShutdown? || step.ShutdownGenerator?
  }

  predicate IsCalm(step: Step) {
    Registers(step) || Concludes(step) || Resets(step) || Reports(step)
  }

  /** Between f and g instance i took a calm step and nothing else that bears on issuing is different. */
  predicate CalmBetween(p: Params, f: Fleet, g: Fleet, i: nat)
    requires i < |f.instances| && |g.instances| == |f.instances|
  {
    var x, y := f.instances[i], g.instances[i];
    && g.now == f.now && g.grants == f.grants && g.issued == f.issued && g.instances == f.instances[i := y]
    && Calm(x, y) && y.generator.workerID == x.generator.workerID
    && (y.activity.Granted? || y.activity.Pushing? ==> y.lastGate + p.ttl <= y.lease)
  }

  lemma {:induction false} RegisteringIsCalm(p: Params, f: Fleet, step: Step)
    requires p.Accepted() && Registers(step) && step.i < |f.instances| && Timely(p, f.now, f.instances[step.i])
    ensures |Perform(p, f, step).instances| == |f.instances| && CalmBetween(p, f, Perform(p, f, step), step.i)
  {
  }

  lemma {:induction false} ConcludingIsCalm(p: Params, f: Fleet, step: Step)
    requires p.Accepted() && Concludes(step) && step.i < |f.instances| && Timely(p, f.now, f.instances[step.i])
    ensures |Perform(p, f, step).instances| == |f.instances| && CalmBetween(p, f, Perform(p, f, step), step.i)
  {
  }

  lemma {:induction false} ResettingIsCalm(p: Params, f: Fleet, step: Step)
    requires p.Accepted() && Resets(step) && step.i < |f.instances| && Timely(p, f.now, f.instances[step.i])
    ensures |Perform(p, f, step).instances| == |f.instances| && CalmBetween(p, f, Perform(p, f, step), step.i)
  {
  }

  lemma {:induction false} ReportingIsCalm(p: Params, f: Fleet, step: Step)
    requires p.Accepted() && Reports(step) && step.i < |f.instances| && Timely(p, f.now, f.instances[step.i])
    ensures |Perform(p, f, step).instances| == |f.instances| && CalmBetween(p, f, Perform(p, f, step), step.i)
  {
  }

  lemma {:induction false} CalmKeepsIssues(p: Params, f: Fleet, step: Step)
    requires p.Accepted() && IssueInv(p, f) && IsCalm(step) && step.i < |f.instances|
    ensures IssueInv(p, Perform(p, f, step))
  {
    assert InstanceIssues(p, f.now, f.grants, step.i, f.instances[step.i]);
    if Registers(step) {
      RegisteringIsCalm(p, f, step);
    } else if Concludes(step) {
      ConcludingIsCalm(p, f, step);
    } else if Resets(step) {
      ResettingIsCalm(p, f, step);
    } else {
      ReportingIsCalm(p, f, step);
    }
    CalmStep(p, f, Perform(p, f, step), step.i);
  }

  // ----- The gate, and the hand-over of a worker id -----

  /** A registered instance that may pass the gate holds the key of its generator's worker id. */
  lemma {:induction false} GateMeansLease(p: Params, f: Fleet, i: nat)
    requires p.Accepted() && p.responseDelay + p.ttl % 1000 <= p.slack && LeaseInv(p, f) && i < |f.instances|
    requires f.instances[i].manager.registered && GateOpen(p, f.instances[i].manager, f.now)
    ensures var x := f.instances[i];
            var key := Key(x.datacenter, x.generator.workerID);
            && x.manager.workerID == x.generator.workerID
            && f.now + p.slack - p.responseDelay - p.ttl % 1000 <= x.lease
            && Visible(f.keys, key, f.now) && f.keys[key] == Record(x.manager.instanceID, x.lease)
            && Generated(f.owners, x.manager.instanceID, i)
            && key in f.grants && f.grants[key].holder == i && f.grants[key].until == x.lease
  {
    var x := f.instances[i];
    assert InstanceLease(p, f.now, f.keys, f.owners, i, x);
    var key := Key(x.datacenter, x.generator.workerID);
    assert key in f.keys;
  }

  /** An unregistered instance that may pass the gate is an orphan, whose key nobody else is granted in time. */
  lemma {:induction false} GateMeansWithheld(p: Params, f: Fleet, i: nat)
    requires p.Accepted() && p.Guarded() && LeaseInv(p, f) && OrphanInv(p, f) && i < |f.instances|
    requires !f.instances[i].manager.registered && GateOpen(p, f.instances[i].manager, f.now)
    ensures var x := f.instances[i];
            var key := Key(x.datacenter, x.generator.workerID);
            && Withheld(f.keys, f.grants, key, i, x.manager.leaseDeadline - p.responseDelay - p.ttl)
            && !p.quietUnregister
            && f.now + p.issueDelay <= f.grants[key].until
  {
    var x := f.instances[i];
    assert InstanceLease(p, f.now, f.keys, f.owners, i, x);
    assert Orphaned(p, f.now, f.keys, f.grants, i, x);
  }

  lemma {:induction false} CheckGateKeepsIssues(p: Params, f: Fleet, i: nat)
    requires p.Accepted() && p.Careful() && Inv(p, f) && i < |f.instances|
    ensures IssueInv(p, DoCheckGate(p, f, i))
  {
    var x := f.instances[i];
    assert InstanceIssues(p, f.now, f.grants, i, x);
    if GateOpen(p, x.manager, f.now) {
      assert InstanceLease(p, f.now, f.keys, f.owners, i, x);
      if x.manager.registered {
        GateMeansLease(p, f, i);
      } else {
        GateMeansWithheld(p, f, i);
      }
    }
    LocalIssues(p, f, DoCheckGate(p, f, i), i);
  }

  lemma {:induction false} PushKeepsIssues(p: Params, f: Fleet, i: nat)
    requires p.Accepted() && p.Careful() && Inv(p, f) && i < |f.instances|
    ensures IssueInv(p, DoPush(p, f, i))
  {
    var x := f.instances[i];
    assert InstanceLease(p, f.now, f.keys, f.owners, i, x);
    assert InstanceIssues(p, f.now, f.grants, i, x);
    if x.activity.Pushing? {
      var key := Key(x.datacenter, x.manager.workerID);
      if f.now <= x.lastGate + p.issueDelay {
        // the lease is still running: it began after the gate was last open, and lasts longer than a call
        assert f.now <= x.lease;
        assert key in f.keys && f.grants[key].until == x.lease;
      }
      LocalIssues(p, f, DoPush(p, f, i), i);
    }
  }
}
