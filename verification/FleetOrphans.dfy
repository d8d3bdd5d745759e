/**
 * What becomes of a registration that unregistration has ended before a heartbeat's answer or a loop's own
 * health store: its gate may open again, but its key stays out of use for as long.
 */
module FleetOrphans {
  import opened RedisSpec
  import opened FleetSpec
  import opened FleetLease

  /** The key was deleted by its last holder, instance i, at `since` or later, and has not been granted again. */
  predicate Withheld(keys: Keys<Key>, grants: map<Key, Grant>, key: Key, i: nat, since: int) {
    key !in keys && key in grants && grants[key].holder == i && since <= grants[key].freed
  }

  /** While the gate of an unregistered instance is open, or may yet open, its key is withheld. */
  predicate Orphaned(p: Params, now: int, keys: Keys<Key>, grants: map<Key, Grant>, i: nat, x: Instance) {
    !x.manager.registered ==>
      var key := Key(x.datacenter, x.generator.workerID);
      var m := x.manager;
      && ((m.healthy || x.activity == Restoring) && now + p.slack <= m.leaseDeadline ==>
            Withheld(keys, grants, key, i, m.leaseDeadline - p.responseDelay - p.ttl))
      && (x.activity.BeatAnswered? && now <= x.activity.ranAt + p.responseDelay ==>
            Withheld(keys, grants, key, i, x.activity.ranAt))
  }

  ghost predicate OrphanInv(p: Params, f: Fleet) {
    forall i: nat :: i < |f.instances| ==> Orphaned(p, f.now, f.keys, f.grants, i, f.instances[i])
  }

  // ----- Steps that leave the store alone -----

  /** Between f and g only instance i is different, and the store's keys are as they were. */
  predicate LocalBetween(f: Fleet, g: Fleet, i: nat)
    requires i < |f.instances|
  {
    && g.now == f.now && g.keys == f.keys && g.grants == f.grants
    && |g.instances| == |f.instances| && g.instances == f.instances[i := g.instances[i]]
  }

  lemma {:induction false} LocalOrphan(p: Params, f: Fleet, g: Fleet, i: nat)
    requires OrphanInv(p, f) && i < |f.instances| && LocalBetween(f, g, i)
    requires Orphaned(p, g.now, g.keys, g.grants, i, g.instances[i])
    ensures OrphanInv(p, g)
  {
  }

  predicate TakesKey(step: Step) {
    step.Claim? || step.ClaimUnanswered? || step.BeatRuns?
  }

  predicate Leaves(step: Step) {
    step.UnregisterSection? || step.DeleteKey?
  }

  predicate Seeks(step: Step) {
    step.ProbeSpecific? || step.Probe? || step.GiveUp?
  }

  predicate Acquires(step: Step) {
    step.RecordLocally? || step.Push? || step.Finish? || step.FinishInLoop?
  }

  predicate Resets(step: Step) {
    step.Restore? || step.LoseWorkerID?
  }

  predicate Maintains(step: Step) {
    step.BeatObserved? || step.BeatFails? || step.CheckGate?
  }

  /** No gate is open while a worker id is being sought. */
  lemma {:induction false} SeekingMakesNoOrphan(p: Params, f: Fleet, step: Step)
    requires p.Accepted() && LeaseInv(p, f) && Seeks(step) && step.i < |f.instances|
    requires Orphaned(p, f.now, f.keys, f.grants, step.i, f.instances[step.i])
    ensures var g := Perform(p, f, step);
            LocalBetween(f, g, step.i) && Orphaned(p, g.now, g.keys, g.grants, step.i, g.instances[step.i])
  {
    assert InstanceLease(p, f.now, f.keys, f.owners, step.i, f.instances[step.i]);
  }

  /** Registration ends orphanhood. */
  lemma {:induction false} AcquiringMakesNoOrphan(p: Params, f: Fleet, step: Step)
    requires p.Accepted() && LeaseInv(p, f) && Acquires(step) && step.i < |f.instances|
    requires Orphaned(p, f.now, f.keys, f.grants, step.i, f.instances[step.i])
    ensures var g := Perform(p, f, step);
            LocalBetween(f, g, step.i) && Orphaned(p, g.now, g.keys, g.grants, step.i, g.instances[step.i])
  {
    assert InstanceLease(p, f.now, f.keys, f.owners, step.i, f.instances[step.i]);
  }

  lemma {:induction false} ResettingMakesNoOrphan(p: Params, f: Fleet, step: Step)
    requires p.Accepted() && LeaseInv(p, f) && Resets(step) && step.i < |f.instances|
    requires Orphaned(p, f.now, f.keys, f.grants, step.i, f.instances[step.i])
    ensures var g := Perform(p, f, step);
            LocalBetween(f, g, step.i) && Orphaned(p, g.now, g.keys, g.grants, step.i, g.instances[step.i])
  {
    assert InstanceLease(p, f.now, f.keys, f.owners, step.i, f.instances[step.i]);
  }

  lemma {:induction false} MaintainingMakesNoOrphan(p: Params, f: Fleet, step: Step)
    requires p.Accepted() && LeaseInv(p, f) && Maintains(step) && step.i < |f.instances|
    requires Orphaned(p, f.now, f.keys, f.grants, step.i, f.instances[step.i])
    ensures var g := Perform(p, f, step);
            LocalBetween(f, g, step.i) && Orphaned(p, g.now, g.keys, g.grants, step.i, g.instances[step.i])
  {
    assert InstanceLease(p, f.now, f.keys, f.owners, step.i, f.instances[step.i]);
  }

  lemma {:induction false} AnnouncingMakesNoOrphan(p: Params, f: Fleet, step: Step)
    requires p.Accepted() && (step.AnnounceShutdown? || step.ShutdownGenerator?) && step.i < |f.instances|
    requires Orphaned(p, f.now, f.keys, f.grants, step.i, f.instances[step.i])
    ensures var g := Perform(p, f, step);
            LocalBetween(f, g, step.i) && Orphaned(p, g.now, g.keys, g.grants, step.i, g.instances[step.i])
  {
  }

  lemma {:induction false} AttemptMakesNoOrphan(p: Params, f: Fleet, i: nat)
    requires p.Accepted() && LeaseInv(p, f) && i < |f.instances|
    requires Orphaned(p, f.now, f.keys, f.grants, i, f.instances[i])
    ensures var g := DoAttempt(p, f, i);
            LocalBetween(f, g, i) && Orphaned(p, g.now, g.keys, g.grants, i, g.instances[i])
  {
    assert InstanceLease(p, f.now, f.keys, f.owners, i, f.instances[i]);
    AttemptKeepsWorker(p, f, i);
  }

  lemma {:induction false} LocalKeepsOrphans(p: Params, f: Fleet, step: Step)
    requires p.Accepted() && LeaseInv(p, f) && OrphanInv(p, f) && !step.Tick? && step.i < |f.instances|
    requires !TakesKey(step) && !Leaves(step)
    ensures OrphanInv(p, Perform(p, f, step))
  {
    assert Orphaned(p, f.now, f.keys, f.grants, step.i, f.instances[step.i]);
    if Seeks(step) {
      SeekingMakesNoOrphan(p, f, step);
    } else if Acquires(step) {
      AcquiringMakesNoOrphan(p, f, step);
    } else if Resets(step) {
      ResettingMakesNoOrphan(p, f, step);
    } else if Maintains(step) {
      MaintainingMakesNoOrphan(p, f, step);
    } else if step.Attempt? {
      AttemptMakesNoOrphan(p, f, step.i);
    } else {
      AnnouncingMakesNoOrphan(p, f, step);
    }
    LocalOrphan(p, f, Perform(p, f, step), step.i);
  }

  // ----- Steps that write worker keys -----

  /** Keys that are not in the store stay as they are, unless they are granted. */
  predicate AbsentStay(f: Fleet, g: Fleet) {
    forall k :: k !in f.keys && k in f.grants ==> k !in g.keys && k in g.grants && g.grants[k] == f.grants[k]
  }

  lemma {:induction false} BystandersStay(p: Params, f: Fleet, g: Fleet, i: nat)
    requires OrphanInv(p, f) && i < |f.instances| && |g.instances| == |f.instances|
    requires g.now == f.now && AbsentStay(f, g)
    requires forall j :: 0 <= j < |f.instances| && j != i ==> g.instances[j] == f.instances[j]
    requires Orphaned(p, g.now, g.keys, g.grants, i, g.instances[i])
    ensures OrphanInv(p, g)
  {
    forall j: nat | j < |g.instances|
      ensures Orphaned(p, g.now, g.keys, g.grants, j, g.instances[j])
    {
      assert Orphaned(p, f.now, f.keys, f.grants, j, f.instances[j]);
    }
  }

  /** A key is granted again only when every gate before it has closed for good. */
  lemma {:induction false} GrantFindsNoOrphan(p: Params, f: Fleet, i: nat, key: Key, j: nat)
    requires p.Accepted() && p.Guarded() && LeaseInv(p, f) && OrphanInv(p, f)
    requires i < |f.instances| && j < |f.instances| && Grantable(p, f, key)
    ensures var g := GrantKey(p, f, i, key); Orphaned(p, g.now, g.keys, g.grants, j, f.instances[j])
  {
    assert Orphaned(p, f.now, f.keys, f.grants, j, f.instances[j]);
    assert InstanceLease(p, f.now, f.keys, f.owners, j, f.instances[j]);
  }

  lemma {:induction false} ClaimKeepsOrphans(p: Params, f: Fleet, i: nat, captured: int, answered: bool)
    requires p.Accepted() && p.Guarded() && LeaseInv(p, f) && OrphanInv(p, f) && i < |f.instances|
    ensures OrphanInv(p, DoClaim(p, f, i, captured, answered))
  {
    var x := f.instances[i];
    var g := DoClaim(p, f, i, captured, answered);
    assert InstanceLease(p, f.now, f.keys, f.owners, i, x);
    if x.activity.Probing? {
      forall j: nat | j < |g.instances|
        ensures Orphaned(p, g.now, g.keys, g.grants, j, g.instances[j])
      {
        assert Orphaned(p, f.now, f.keys, f.grants, j, f.instances[j]);
        var key := Key(x.datacenter, x.activity.workerID);
        if Grantable(p, f, key) {
          GrantFindsNoOrphan(p, f, i, key, j);
        }
      }
    }
  }

  lemma {:induction false} BeatRunsKeepsOrphans(p: Params, f: Fleet, i: nat)
    requires p.Accepted() && LeaseInv(p, f) && OrphanInv(p, f) && i < |f.instances|
    ensures OrphanInv(p, DoBeatRuns(p, f, i))
  {
    assert Orphaned(p, f.now, f.keys, f.grants, i, f.instances[i]);
    BystandersStay(p, f, DoBeatRuns(p, f, i), i);
  }

  lemma {:induction false} DeleteKeyKeepsOrphans(p: Params, f: Fleet, i: nat)
    requires p.Accepted() && LeaseInv(p, f) && OrphanInv(p, f) && i < |f.instances|
    ensures OrphanInv(p, DoDeleteKey(p, f, i))
  {
    assert Orphaned(p, f.now, f.keys, f.grants, i, f.instances[i]);
    assert InstanceLease(p, f.now, f.keys, f.owners, i, f.instances[i]);
    BystandersStay(p, f, DoDeleteKey(p, f, i), i);
  }

  /** An unregistration that overtakes an answer or a health store leaves an orphan whose key is withheld. */
  lemma {:induction false} UnregisterMakesOrphan(p: Params, f: Fleet, i: nat)
    requires p.Accepted() && p.Guarded() && LeaseInv(p, f) && i < |f.instances|
    requires Orphaned(p, f.now, f.keys, f.grants, i, f.instances[i])
    ensures var g := DoUnregisterSection(p, f, i);
            |g.instances| == |f.instances| && Orphaned(p, g.now, g.keys, g.grants, i, g.instances[i])
  {
    var x := f.instances[i];
    assert InstanceLease(p, f.now, f.keys, f.owners, i, x);
  }

  lemma {:induction false} UnregisterSectionKeepsOrphans(p: Params, f: Fleet, i: nat)
    requires p.Accepted() && p.Guarded() && LeaseInv(p, f) && OrphanInv(p, f) && i < |f.instances|
    ensures OrphanInv(p, DoUnregisterSection(p, f, i))
  {
    assert Orphaned(p, f.now, f.keys, f.grants, i, f.instances[i]);
    UnregisterMakesOrphan(p, f, i);
    BystandersStay(p, f, DoUnregisterSection(p, f, i), i);
  }

  // ----- Whole runs -----

  lemma {:induction false} HoldingKeepsOrphans(p: Params, f: Fleet, step: Step)
    requires p.Accepted() && p.Guarded() && LeaseInv(p, f) && OrphanInv(p, f)
    requires TakesKey(step) && step.i < |f.instances|
    ensures OrphanInv(p, Perform(p, f, step))
  {
    match step
    case Claim(i, captured) => ClaimKeepsOrphans(p, f, i, captured, true);
    case ClaimUnanswered(i) => ClaimKeepsOrphans(p, f, i, f.now, false);
    case BeatRuns(i) => BeatRunsKeepsOrphans(p, f, i);
  }

  lemma {:induction false} LeavingKeepsOrphans(p: Params, f: Fleet, step: Step)
    requires p.Accepted() && p.Guarded() && LeaseInv(p, f) && OrphanInv(p, f)
    requires Leaves(step) && step.i < |f.instances|
    ensures OrphanInv(p, Perform(p, f, step))
  {
    match step
    case UnregisterSection(i) => UnregisterSectionKeepsOrphans(p, f, i);
    case DeleteKey(i) => DeleteKeyKeepsOrphans(p, f, i);
  }

  lemma {:induction false} TickKeepsOrphans(p: Params, f: Fleet, ms: nat)
    requires OrphanInv(p, f)
    ensures OrphanInv(p, f.(now := f.now + ms))
  {
    forall i: nat | i < |f.instances|
      ensures Orphaned(p, f.now + ms, f.keys, f.grants, i, f.instances[i])
    {
      assert Orphaned(p, f.now, f.keys, f.grants, i, f.instances[i]);
    }
  }

  lemma {:induction false} OrphanStepKeeps(p: Params, f: Fleet, step: Step)
    requires p.Accepted() && p.Guarded() && LeaseInv(p, f) && OrphanInv(p, f)
    ensures OrphanInv(p, Perform(p, f, step))
  {
    if step.Tick? {
      TickKeepsOrphans(p, f, step.ms);
    } else if step.i < |f.instances| {
      if TakesKey(step) {
        HoldingKeepsOrphans(p, f, step);
      } else if Leaves(step) {
        LeavingKeepsOrphans(p, f, step);
      } else {
        LocalKeepsOrphans(p, f, step);
      }
    }
  }

  lemma {:induction false} LaunchHasNoOrphans(p: Params, now: int, counters: map<int, int>, placements: seq<Placement>)
    ensures OrphanInv(p, Launch(p, now, counters, placements))
  {
  }

  lemma {:induction false} OrphanRunKeeps(p: Params, f: Fleet, steps: seq<Step>)
    requires p.Accepted() && p.Guarded() && LeaseInv(p, f) && OrphanInv(p, f)
    ensures OrphanInv(p, PerformAll(p, f, steps))
    decreases |steps|
  {
    if steps != [] {
      OrphanRunKeeps(p, f, steps[..|steps| - 1]);
      LeaseRunKeeps(p, f, steps[..|steps| - 1]);
      OrphanStepKeeps(p, PerformAll(p, f, steps[..|steps| - 1]), steps[|steps| - 1]);
    }
  }
}
