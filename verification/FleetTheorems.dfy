/** What the fleet guarantees in every reachable state. */
module FleetTheorems {
  import Snowflake
  import opened ManagerSpec
  import opened RedisSpec
  import opened FleetSpec
  import opened FleetLease
  import opened FleetOrphans
  import opened FleetInvariant
  import opened FleetStore

  /** The state after a run from a launch. */
  function Reached(p: Params, now: int, counters: map<int, int>, placements: seq<Placement>, steps: seq<Step>): Fleet
    requires p.Accepted()
  {
    PerformAll(p, Launch(p, now, counters, placements), steps)
  }

  lemma {:induction false} ReachedIsLeased(p: Params, now: int, counters: map<int, int>, placements: seq<Placement>,
                                           steps: seq<Step>)
    requires p.Accepted() && ValidLaunch(p, now, counters, placements)
    ensures LeaseInv(p, Reached(p, now, counters, placements, steps))
  {
    LaunchIsLeased(p, now, counters, placements);
    LeaseRunKeeps(p, Launch(p, now, counters, placements), steps);
  }

  lemma {:induction false} ReachedIsSound(p: Params, now: int, counters: map<int, int>, placements: seq<Placement>,
                                          steps: seq<Step>)
    requires p.Accepted() && p.Careful() && ValidLaunch(p, now, counters, placements)
    ensures Inv(p, Reached(p, now, counters, placements, steps))
  {
    LaunchIsSound(p, now, counters, placements);
    RunKeeps(p, Launch(p, now, counters, placements), steps);
  }

  /** The identifier of an issue, while the layout lasts. */
  function IdOf(p: Params, t: Issue): int
    requires p.Accepted() && Proper(p, t.parts)
  {
    Snowflake.Pack(p.config.layout, p.config.epoch, t.parts)
  }

  /**
   * Global uniqueness: over any interleaving of any number of instances, in any datacenters, no two
   * identifiers that were issued are equal.
   */
  lemma {:induction false} GloballyUnique(p: Params, now: int, counters: map<int, int>, placements: seq<Placement>,
                                          steps: seq<Step>)
    requires p.Accepted() && p.Careful() && ValidLaunch(p, now, counters, placements)
    requires Reached(p, now, counters, placements, steps).now < p.config.epoch + p.config.layout.Lifetime()
    ensures var issued := Reached(p, now, counters, placements, steps).issued;
            && (forall n :: 0 <= n < |issued| ==> Proper(p, issued[n].parts))
            && (forall m, n :: 0 <= m < n < |issued| ==> IdOf(p, issued[m]) != IdOf(p, issued[n]))
  {
    ReachedIsSound(p, now, counters, placements, steps);
    var issued := Reached(p, now, counters, placements, steps).issued;
    forall m, n | 0 <= m < n < |issued|
      ensures IdOf(p, issued[m]) != IdOf(p, issued[n])
    {
      Snowflake.PackInjective(p.config.layout, p.config.epoch, issued[m].parts, issued[n].parts);
    }
  }

  // ----- Leases; whether attempts are patient or pauses long makes no difference to them -----

  /**
   * Instance i owns its worker id: it is registered, the store's record for the id carries its instance
   * id, and its generator issues under that id, which is within range.
   */
  predicate Owns(p: Params, f: Fleet, i: nat)
    requires p.Accepted() && i < |f.instances|
  {
    var x := f.instances[i];
    var key := Key(x.datacenter, x.manager.workerID);
    && x.manager.registered
    && Visible(f.keys, key, f.now) && f.keys[key].instanceID == x.manager.instanceID
    && Generated(f.owners, x.manager.instanceID, i)
    && x.generator.workerID == x.manager.workerID
    && 0 <= x.manager.workerID <= p.config.MaxWorker()
  }

  /** Gate open implies ownership, when the slack covers a late answer and the lost fraction of a second. */
  lemma {:induction false} GateOpenMeansOwned(p: Params, now: int, counters: map<int, int>, placements: seq<Placement>,
                                              steps: seq<Step>, i: nat)
    requires p.Accepted() && p.Trusted() && ValidLaunch(p, now, counters, placements)
    requires var f := Reached(p, now, counters, placements, steps);
             i < |f.instances| && GateOpen(p, f.instances[i].manager, f.now)
    ensures Owns(p, Reached(p, now, counters, placements, steps), i)
  {
    ReachedIsLeased(p, now, counters, placements, steps);
    var f := Reached(p, now, counters, placements, steps);
    assert InstanceLease(p, f.now, f.keys, f.owners, i, f.instances[i]);
    GateMeansLease(p, f, i);
  }

  /** Two instances of a datacenter with their gates open neither hold nor issue under the same worker id. */
  lemma {:induction false} LeasesAreDisjoint(p: Params, now: int, counters: map<int, int>, placements: seq<Placement>,
                                             steps: seq<Step>, i: nat, j: nat)
    requires p.Accepted() && p.Trusted() && ValidLaunch(p, now, counters, placements)
    requires var f := Reached(p, now, counters, placements, steps);
             && i < |f.instances| && j < |f.instances| && i != j
             && GateOpen(p, f.instances[i].manager, f.now) && GateOpen(p, f.instances[j].manager, f.now)
             && f.instances[i].datacenter == f.instances[j].datacenter
    ensures var f := Reached(p, now, counters, placements, steps);
            && f.instances[i].manager.workerID != f.instances[j].manager.workerID
            && f.instances[i].generator.workerID != f.instances[j].generator.workerID
  {
    GateOpenMeansOwned(p, now, counters, placements, steps, i);
    GateOpenMeansOwned(p, now, counters, placements, steps, j);
  }

  /** Both gates are open, in one datacenter, and the generators behind them issue under one worker id. */
  predicate Collide(p: Params, f: Fleet, i: nat, j: nat)
    requires p.Accepted() && i < |f.instances| && j < |f.instances|
  {
    && GateOpen(p, f.instances[i].manager, f.now) && GateOpen(p, f.instances[j].manager, f.now)
    && f.instances[i].datacenter == f.instances[j].datacenter
    && f.instances[i].generator.workerID == f.instances[j].generator.workerID
  }

  /**
   * Open gates are disjoint also when unregistration overtakes heartbeats, if a deleted key is left alone
   * for as long as a gate may outlast it.
   */
  lemma {:induction false} OpenGatesAreDisjoint(p: Params, now: int, counters: map<int, int>,
                                                placements: seq<Placement>, steps: seq<Step>, i: nat, j: nat)
    requires p.Accepted() && p.Guarded() && ValidLaunch(p, now, counters, placements)
    requires var f := Reached(p, now, counters, placements, steps); i < |f.instances| && j < |f.instances| && i != j
    ensures !Collide(p, Reached(p, now, counters, placements, steps), i, j)
  {
    var launch := Launch(p, now, counters, placements);
    var f := Reached(p, now, counters, placements, steps);
    ReachedIsLeased(p, now, counters, placements, steps);
    LaunchIsLeased(p, now, counters, placements);
    LaunchHasNoOrphans(p, now, counters, placements);
    OrphanRunKeeps(p, launch, steps);
    if Collide(p, f, i, j) {
      HolderBehindGate(p, f, i);
      HolderBehindGate(p, f, j);
    }
  }

  /** Behind an open gate an instance is the last holder of its generator's key, which only it can have in the store. */
  lemma {:induction false} HolderBehindGate(p: Params, f: Fleet, i: nat)
    requires p.Accepted() && p.Guarded() && LeaseInv(p, f) && OrphanInv(p, f) && i < |f.instances|
    requires GateOpen(p, f.instances[i].manager, f.now)
    ensures var key := Key(f.instances[i].datacenter, f.instances[i].generator.workerID);
            key in f.grants && f.grants[key].holder == i
  {
    if f.instances[i].manager.registered {
      GateMeansLease(p, f, i);
    } else {
      GateMeansWithheld(p, f, i);
    }
  }

  /** With more slack than a lease lasts no gate ever opens. */
  lemma {:induction false} NoGateOpens(p: Params, f: Fleet, i: nat)
    requires p.Accepted() && p.slack > p.ttl && LeaseInv(p, f) && i < |f.instances|
    ensures !GateOpen(p, f.instances[i].manager, f.now)
  {
    assert InstanceLease(p, f.now, f.keys, f.owners, i, f.instances[i]);
  }

  /** Nothing has been issued, and no call is under way. */
  ghost predicate Silent(p: Params, f: Fleet) {
    f.issued == [] && forall i: nat :: i < |f.instances| ==> f.instances[i].lastGate + p.issueDelay < f.now
  }

  predicate SameCalls(f: Fleet, g: Fleet) {
    && g.now == f.now && g.issued == f.issued && |g.instances| == |f.instances|
    && forall i: nat :: i < |f.instances| ==> g.instances[i].lastGate == f.instances[i].lastGate
  }

  lemma {:induction false} CalmSameCalls(p: Params, f: Fleet, step: Step)
    requires p.Accepted() && (Registers(step) || Reports(step)) && step.i < |f.instances|
    ensures SameCalls(f, Perform(p, f, step))
  {
  }

  lemma {:induction false} ConcludingSameCalls(p: Params, f: Fleet, step: Step)
    requires p.Accepted() && (Concludes(step) || Resets(step) || step.Push?) && step.i < |f.instances|
    ensures SameCalls(f, Perform(p, f, step))
  {
  }

  lemma {:induction false} HoldingSameCalls(p: Params, f: Fleet, step: Step)
    requires p.Accepted() && TakesKey(step) && step.i < |f.instances|
    ensures SameCalls(f, Perform(p, f, step))
  {
  }

  lemma {:induction false} LeavingSameCalls(p: Params, f: Fleet, step: Step)
    requires p.Accepted() && Leaves(step) && step.i < |f.instances|
    ensures SameCalls(f, Perform(p, f, step))
  {
  }

  lemma {:induction false} SilentStep(p: Params, f: Fleet, step: Step)
    requires p.Accepted() && p.slack > p.ttl && LeaseInv(p, f) && Silent(p, f)
    ensures Silent(p, Perform(p, f, step))
  {
    if !step.Tick? && step.i < |f.instances| {
      NoGateOpens(p, f, step.i);
      if Registers(step) || Reports(step) {
        CalmSameCalls(p, f, step);
      } else if Concludes(step) || Resets(step) || step.Push? {
        ConcludingSameCalls(p, f, step);
      } else if Leaves(step) {
        LeavingSameCalls(p, f, step);
      } else if !step.CheckGate? && !step.Attempt? {
        HoldingSameCalls(p, f, step);
      }
    }
  }

  /** Behind gates that never open nothing is ever issued. */
  lemma {:induction false} StaysSilent(p: Params, f: Fleet, steps: seq<Step>)
    requires p.Accepted() && p.slack > p.ttl && LeaseInv(p, f) && Silent(p, f)
    ensures Silent(p, PerformAll(p, f, steps))
    decreases |steps|
  {
    if steps != [] {
      StaysSilent(p, f, steps[..|steps| - 1]);
      LeaseRunKeeps(p, f, steps[..|steps| - 1]);
      SilentStep(p, PerformAll(p, f, steps[..|steps| - 1]), steps[|steps| - 1]);
    }
  }

  /**
   * In every fleet: while the lease of a registered instance lasts, its key is there and expires with it;
   * the lease deadline does not exceed that until a heartbeat has renewed the key, and afterwards by at
   * most the response delay and the fraction of a second that the heartbeat script drops.
   */
  lemma {:induction false} DeadlineAgainstKey(p: Params, now: int, counters: map<int, int>, placements: seq<Placement>,
                                              steps: seq<Step>, i: nat)
    requires p.Accepted() && ValidLaunch(p, now, counters, placements)
    requires var f := Reached(p, now, counters, placements, steps);
             i < |f.instances| && f.instances[i].manager.registered
    ensures var f := Reached(p, now, counters, placements, steps);
            var x := f.instances[i];
            var key := Key(x.datacenter, x.manager.workerID);
            && (f.now <= x.lease ==>
                  Visible(f.keys, key, f.now) && f.keys[key] == Record(x.manager.instanceID, x.lease))
            && (!x.renewed ==> x.manager.leaseDeadline <= x.lease)
            && (x.renewed ==> x.manager.leaseDeadline <= x.lease + p.responseDelay + p.ttl % 1000)
  {
    ReachedIsLeased(p, now, counters, placements, steps);
    var f := Reached(p, now, counters, placements, steps);
    assert InstanceLease(p, f.now, f.keys, f.owners, i, f.instances[i]);
  }

  /** A granted key counts as not renewed for as long as no heartbeat of its instance has run. */
  lemma {:induction false} NotRenewedBeforeBeat(p: Params, f: Fleet, i: nat, steps: seq<Step>)
    requires p.Accepted() && i < |f.instances| && !f.instances[i].renewed
    requires BeatRuns(i) !in steps
    ensures var g := PerformAll(p, f, steps); i < |g.instances| && !g.instances[i].renewed
    decreases |steps|
  {
    if steps != [] {
      NotRenewedBeforeBeat(p, f, i, steps[..|steps| - 1]);
      OnlyBeatsRenew(p, PerformAll(p, f, steps[..|steps| - 1]), i, steps[|steps| - 1]);
    }
  }

  lemma {:induction false} PerformLast(p: Params, f: Fleet, steps: seq<Step>, last: Step)
    requires p.Accepted()
    ensures PerformAll(p, f, steps + [last]) == Perform(p, PerformAll(p, f, steps), last)
  {
    assert (steps + [last])[..|steps|] == steps;
  }

  /**
   * Whatever the fleet does from the moment a key is granted until the first heartbeat of its new holder
   * runs, a registration's deadline never exceeds the expiry of the key.
   */
  lemma {:induction false} RegistrationLeaseNeverExceedsKey(p: Params, now: int, counters: map<int, int>,
                                                            placements: seq<Placement>, before: seq<Step>, i: nat,
                                                            captured: int, after: seq<Step>)
    requires p.Accepted() && ValidLaunch(p, now, counters, placements)
    requires var f := Reached(p, now, counters, placements, before);
             i < |f.instances| && f.instances[i].activity.Probing?
             && DoClaim(p, f, i, captured, true).instances[i].activity.Granted?
    requires BeatRuns(i) !in after
    ensures var claimed := DoClaim(p, Reached(p, now, counters, placements, before), i, captured, true);
            var g := PerformAll(p, claimed, after);
            i < |g.instances|
            && var x := g.instances[i];
            x.manager.registered && g.now <= x.lease ==>
              var key := Key(x.datacenter, x.manager.workerID);
              Visible(g.keys, key, g.now) && x.manager.leaseDeadline <= g.keys[key].expiry
  {
    var f := Reached(p, now, counters, placements, before);
    ReachedIsLeased(p, now, counters, placements, before);
    var claimed := DoClaim(p, f, i, captured, true);
    ClaimKeepsLeases(p, f, i, captured, true);
    LeaseRunKeeps(p, claimed, after);
    NotRenewedBeforeBeat(p, claimed, i, after);
    var g := PerformAll(p, claimed, after);
    assert InstanceLease(p, g.now, g.keys, g.owners, i, g.instances[i]);
  }

  lemma {:induction false} OnlyBeatsRenew(p: Params, f: Fleet, i: nat, step: Step)
    requires p.Accepted() && i < |f.instances| && !f.instances[i].renewed && step != BeatRuns(i)
    ensures var g := Perform(p, f, step); i < |g.instances| && !g.instances[i].renewed
  {
    if !step.Tick? && step.i < |f.instances| {
      if Registers(step) || Reports(step) {
        CalmDoesNotRenew(p, f, i, step);
      } else if Concludes(step) || Resets(step) || step.Push? {
        ConcludingDoesNotRenew(p, f, i, step);
      } else if TakesKey(step) {
        HoldingDoesNotRenew(p, f, i, step);
      } else if Leaves(step) {
        LeavingDoesNotRenew(p, f, i, step);
      } else {
        ServingDoesNotRenew(p, f, i, step);
      }
    }
  }

  lemma {:induction false} CalmDoesNotRenew(p: Params, f: Fleet, i: nat, step: Step)
    requires p.Accepted() && i < |f.instances| && !f.instances[i].renewed
    requires (Registers(step) || Reports(step)) && step.i < |f.instances|
    ensures var g := Perform(p, f, step); i < |g.instances| && !g.instances[i].renewed
  {
  }

  lemma {:induction false} ConcludingDoesNotRenew(p: Params, f: Fleet, i: nat, step: Step)
    requires p.Accepted() && i < |f.instances| && !f.instances[i].renewed
    requires (Concludes(step) || Resets(step) || step.Push?) && step.i < |f.instances|
    ensures var g := Perform(p, f, step); i < |g.instances| && !g.instances[i].renewed
  {
  }

  lemma {:induction false} HoldingDoesNotRenew(p: Params, f: Fleet, i: nat, step: Step)
    requires p.Accepted() && i < |f.instances| && !f.instances[i].renewed && step != BeatRuns(i)
    requires TakesKey(step) && step.i < |f.instances|
    ensures var g := Perform(p, f, step); i < |g.instances| && !g.instances[i].renewed
  {
  }

  lemma {:induction false} LeavingDoesNotRenew(p: Params, f: Fleet, i: nat, step: Step)
    requires p.Accepted() && i < |f.instances| && !f.instances[i].renewed && Leaves(step) && step.i < |f.instances|
    ensures var g := Perform(p, f, step); i < |g.instances| && !g.instances[i].renewed
  {
  }

  lemma {:induction false} ServingDoesNotRenew(p: Params, f: Fleet, i: nat, step: Step)
    requires p.Accepted() && i < |f.instances| && !f.instances[i].renewed
    requires (step.CheckGate? || step.Attempt?) && step.i < |f.instances|
    ensures var g := Perform(p, f, step); i < |g.instances| && !g.instances[i].renewed
  {
  }

  /** An instance is between giving a worker id up and having the next one in its generator. */
  predicate InTransition(x: Instance) {
    || !x.manager.registered
    || x.activity.Pushing? || x.activity.Pushed?
    || x.manager.workerID != x.generator.workerID
  }

  /** Through recovery and registration the gate is shut until the fresh worker id is in the generator. */
  lemma {:induction false} GateShutUntilPushed(p: Params, now: int, counters: map<int, int>, placements: seq<Placement>,
                                               steps: seq<Step>, i: nat)
    requires p.Accepted() && p.quietUnregister && ValidLaunch(p, now, counters, placements)
    requires i < |Reached(p, now, counters, placements, steps).instances|
    ensures var f := Reached(p, now, counters, placements, steps);
            InTransition(f.instances[i]) ==> !IsHealthy(f.instances[i].manager, f.now).open
  {
    ReachedIsLeased(p, now, counters, placements, steps);
    var f := Reached(p, now, counters, placements, steps);
    assert InstanceLease(p, f.now, f.keys, f.owners, i, f.instances[i]);
  }
}
