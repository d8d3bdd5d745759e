/**
 * The lease half of the fleet's invariant: keys, deadlines and the link between manager and generator.
 * It holds of every fleet, whatever its delays, slack and pauses are.
 */
module FleetLease {
  import G = GeneratorSpec
  import opened ManagerSpec
  import opened RedisSpec
  import opened FleetSpec

  // ----- One instance -----

  predicate Placed(p: Params, x: Instance)
    requires p.Accepted()
  {
    p.InPlace(x.datacenter) && G.InRange(p.config, x.generator)
  }

  /** The gate flag is set only on a complete registration, or on one that unregistration has ended since. */
  predicate Entitled(x: Instance) {
    x.manager.healthy ==>
      && x.manager.leaseDeadline > 0
      && (x.activity == Idle || x.activity == Restoring || x.activity.BeatAnswered?)
      && (x.manager.registered || x.manager.shuttingDown)
  }

  /** The worker ids of manager and generator, phase by phase. */
  predicate InPhase(p: Params, x: Instance)
    requires p.Accepted()
  {
    var m := x.manager;
    && Entitled(x)
    && (p.quietUnregister && (m.healthy || x.activity == Restoring || x.activity.BeatAnswered?) ==> m.registered)
    && (m.registered && !x.activity.Pushing? ==> m.workerID == x.generator.workerID)
    && (!x.started ==> !m.registered && !m.healthy && x.activity == Idle)
    && (match x.activity
        case Idle => true
        case Probing(w, specific) =>
          !m.registered && 0 <= w <= p.config.MaxWorker() && (specific ==> w == x.generator.workerID)
        case Cycling => !m.registered
        case Granted(w, _, captured, specific) =>
          !m.registered && captured >= 0 && 0 <= w <= p.config.MaxWorker() && (specific ==> w == x.generator.workerID)
        case Pushing(w) => m.registered && m.workerID == w && 0 <= w <= p.config.MaxWorker() && m.leaseDeadline > 0
        case Pushed => m.registered && m.leaseDeadline > 0
        case Restoring => (m.registered || m.shuttingDown) && m.leaseDeadline > 0
        case BeatAnswered(_) => m.registered || m.shuttingDown
        case Deleting(_, _) => !m.registered)
  }

  /** Until its lease ends the key carries the instance id and expires exactly when the lease does. */
  predicate Holds(now: int, keys: Keys<Key>, key: Key, instanceID: int, lease: int) {
    now <= lease ==> key in keys && keys[key] == Record(instanceID, lease)
  }

  predicate Generated(owners: seq<nat>, instanceID: int, i: nat) {
    0 <= instanceID < |owners| && owners[instanceID] == i
  }

  /** By how much a lease deadline may exceed the key: not at all until a heartbeat has renewed it. */
  function Excess(p: Params, renewed: bool): int {
    if renewed then p.responseDelay + p.ttl % 1000 else 0
  }

  predicate Leased(p: Params, now: int, keys: Keys<Key>, owners: seq<nat>, i: nat, x: Instance) {
    var m := x.manager;
    && (m.registered ==>
          && Generated(owners, m.instanceID, i)
          && Holds(now, keys, Key(x.datacenter, m.workerID), m.instanceID, x.lease)
          && m.leaseDeadline <= x.lease + Excess(p, x.renewed))
    && m.leaseDeadline <= now + p.ttl
    && (match x.activity
        case Granted(w, id, captured, _) =>
          && Generated(owners, id, i)
          && Holds(now, keys, Key(x.datacenter, w), id, x.lease)
          && captured + p.ttl <= x.lease && captured <= now && !x.renewed
        case BeatAnswered(ranAt) => ranAt <= now && x.lease == ranAt + WholeSeconds(p.ttl) && x.renewed
        case Deleting(_, id) => Generated(owners, id, i)
        case _ => true)
  }

  predicate InstanceLease(p: Params, now: int, keys: Keys<Key>, owners: seq<nat>, i: nat, x: Instance)
    requires p.Accepted()
  {
    Placed(p, x) && InPhase(p, x) && Leased(p, now, keys, owners, i, x)
  }

  // ----- The store -----

  predicate StoreInv(p: Params, now: int, keys: Keys<Key>, grants: map<Key, Grant>, owners: seq<nat>) {
    && (forall k :: k in keys ==>
          && k in grants && grants[k].until == keys[k].expiry
          && Generated(owners, keys[k].instanceID, grants[k].holder))
    && (forall k :: k in grants ==> grants[k].since <= now)
    && (forall k :: k in grants && k !in keys ==> grants[k].until == grants[k].freed + p.issueDelay + p.Aftermath())
  }

  predicate CountersInv(counters: map<int, int>) {
    forall dc :: dc in counters ==> counters[dc] >= 0
  }

  ghost predicate Leases(p: Params, f: Fleet)
    requires p.Accepted()
  {
    forall i: nat :: i < |f.instances| ==> InstanceLease(p, f.now, f.keys, f.owners, i, f.instances[i])
  }

  ghost predicate LeaseInv(p: Params, f: Fleet)
    requires p.Accepted()
  {
    p.config.epoch <= f.now && CountersInv(f.counters) && StoreInv(p, f.now, f.keys, f.grants, f.owners) && Leases(p, f)
  }

  // ----- Steps that touch one instance only -----

  lemma {:induction false} LocalLease(p: Params, f: Fleet, i: nat, x: Instance)
    requires p.Accepted() && LeaseInv(p, f) && i < |f.instances|
    requires InstanceLease(p, f.now, f.keys, f.owners, i, x)
    ensures LeaseInv(p, With(f, i, x))
  {
  }

  /** More instance ids in circulation change nothing for those that exist. */
  lemma {:induction false} MoreOwners(p: Params, f: Fleet, owner: nat)
    requires p.Accepted() && LeaseInv(p, f)
    ensures LeaseInv(p, f.(owners := f.owners + [owner]))
  {
    var owners := f.owners + [owner];
    forall i: nat | i < |f.instances|
      ensures InstanceLease(p, f.now, f.keys, owners, i, f.instances[i])
    {
      assert InstanceLease(p, f.now, f.keys, f.owners, i, f.instances[i]);
    }
  }

  lemma {:induction false} TickKeepsLeases(p: Params, f: Fleet, ms: nat)
    requires p.Accepted() && LeaseInv(p, f)
    ensures LeaseInv(p, f.(now := f.now + ms))
  {
    forall i: nat | i < |f.instances|
      ensures InstanceLease(p, f.now + ms, f.keys, f.owners, i, f.instances[i])
    {
      assert InstanceLease(p, f.now, f.keys, f.owners, i, f.instances[i]);
    }
  }

  lemma {:induction false} ProbeKeepsLeases(p: Params, f: Fleet, i: nat)
    requires p.Accepted() && LeaseInv(p, f) && i < |f.instances|
    ensures LeaseInv(p, DoProbe(p, f, i))
  {
    var x := f.instances[i];
    assert InstanceLease(p, f.now, f.keys, f.owners, i, x);
    if MayProbe(x) {
      var counter := if x.datacenter in f.counters then f.counters[x.datacenter] else 0;
      ReturnsSuccessorResidue(counter, p.config.MaxWorker() + 1);
      var c := IncrWithReset(counter, p.config.MaxWorker() + 1);
      assert 1 <= c.returned <= p.config.MaxWorker() + 1;
      LocalLease(p, f, i, x.(activity := Probing(c.returned - 1, false), started := true));
    }
  }

  lemma {:induction false} ProbeSpecificKeepsLeases(p: Params, f: Fleet, i: nat)
    requires p.Accepted() && LeaseInv(p, f) && i < |f.instances|
    ensures LeaseInv(p, DoProbeSpecific(f, i))
  {
    var x := f.instances[i];
    assert InstanceLease(p, f.now, f.keys, f.owners, i, x);
    LocalLease(p, f, i, DoProbeSpecific(f, i).instances[i]);
  }

  lemma {:induction false} GiveUpKeepsLeases(p: Params, f: Fleet, i: nat)
    requires p.Accepted() && LeaseInv(p, f) && i < |f.instances|
    ensures LeaseInv(p, DoGiveUp(f, i))
  {
    assert InstanceLease(p, f.now, f.keys, f.owners, i, f.instances[i]);
    LocalLease(p, f, i, DoGiveUp(f, i).instances[i]);
  }

  lemma {:induction false} RecordKeepsLeases(p: Params, f: Fleet, i: nat)
    requires p.Accepted() && LeaseInv(p, f) && i < |f.instances|
    ensures LeaseInv(p, DoRecord(p, f, i))
  {
    assert InstanceLease(p, f.now, f.keys, f.owners, i, f.instances[i]);
    LocalLease(p, f, i, DoRecord(p, f, i).instances[i]);
  }

  lemma {:induction false} PushKeepsLeases(p: Params, f: Fleet, i: nat)
    requires p.Accepted() && LeaseInv(p, f) && i < |f.instances|
    ensures LeaseInv(p, DoPush(p, f, i))
  {
    assert InstanceLease(p, f.now, f.keys, f.owners, i, f.instances[i]);
    LocalLease(p, f, i, DoPush(p, f, i).instances[i]);
  }

  lemma {:induction false} FinishKeepsLeases(p: Params, f: Fleet, i: nat, inLoop: bool)
    requires p.Accepted() && LeaseInv(p, f) && i < |f.instances|
    ensures LeaseInv(p, DoFinish(f, i, inLoop))
  {
    assert InstanceLease(p, f.now, f.keys, f.owners, i, f.instances[i]);
    LocalLease(p, f, i, DoFinish(f, i, inLoop).instances[i]);
  }

  lemma {:induction false} RestoreKeepsLeases(p: Params, f: Fleet, i: nat)
    requires p.Accepted() && LeaseInv(p, f) && i < |f.instances|
    ensures LeaseInv(p, DoRestore(f, i))
  {
    assert InstanceLease(p, f.now, f.keys, f.owners, i, f.instances[i]);
    LocalLease(p, f, i, DoRestore(f, i).instances[i]);
  }

  lemma {:induction false} BeatObservedKeepsLeases(p: Params, f: Fleet, i: nat)
    requires p.Accepted() && LeaseInv(p, f) && i < |f.instances|
    ensures LeaseInv(p, DoBeatObserved(p, f, i))
  {
    assert InstanceLease(p, f.now, f.keys, f.owners, i, f.instances[i]);
    assert p.config.epoch >= 0;
    LocalLease(p, f, i, DoBeatObserved(p, f, i).instances[i]);
  }

  lemma {:induction false} BeatFailsKeepsLeases(p: Params, f: Fleet, i: nat)
    requires p.Accepted() && LeaseInv(p, f) && i < |f.instances|
    ensures LeaseInv(p, DoBeatFails(f, i))
  {
    assert InstanceLease(p, f.now, f.keys, f.owners, i, f.instances[i]);
    LocalLease(p, f, i, DoBeatFails(f, i).instances[i]);
  }

  lemma {:induction false} LoseWorkerIDKeepsLeases(p: Params, f: Fleet, i: nat)
    requires p.Accepted() && LeaseInv(p, f) && i < |f.instances|
    ensures LeaseInv(p, DoLoseWorkerID(f, i))
  {
    assert InstanceLease(p, f.now, f.keys, f.owners, i, f.instances[i]);
    LocalLease(p, f, i, DoLoseWorkerID(f, i).instances[i]);
  }

  lemma {:induction false} CheckGateKeepsLeases(p: Params, f: Fleet, i: nat)
    requires p.Accepted() && LeaseInv(p, f) && i < |f.instances|
    ensures LeaseInv(p, DoCheckGate(p, f, i))
  {
    assert InstanceLease(p, f.now, f.keys, f.owners, i, f.instances[i]);
    LocalLease(p, f, i, DoCheckGate(p, f, i).instances[i]);
  }

  lemma {:induction false} TryKeepsWorker(p: Params, datacenter: int, s: G.State, now: int)
    requires p.Accepted() && p.InPlace(datacenter) && G.InRange(p.config, s)
    ensures G.InRange(p.ConfigOf(datacenter), s)
    ensures var r := G.Try(p.ConfigOf(datacenter), s, now).state;
            r.workerID == s.workerID && G.InRange(p.config, r)
  {
  }

  /** An attempt does not touch the worker id. */
  lemma {:induction false} AttemptKeepsWorker(p: Params, f: Fleet, i: nat)
    requires p.Accepted() && i < |f.instances| && G.InRange(p.config, f.instances[i].generator)
    ensures var x, y := f.instances[i], DoAttempt(p, f, i).instances[i];
            && y == x.(generator := y.generator, full := y.full)
            && y.generator.workerID == x.generator.workerID && G.InRange(p.config, y.generator)
    ensures var g := DoAttempt(p, f, i);
            g == f.(instances := g.instances, issued := g.issued) && g.instances == f.instances[i := g.instances[i]]
  {
    var x := f.instances[i];
    if p.InPlace(x.datacenter) {
      TryKeepsWorker(p, x.datacenter, x.generator, f.now);
    }
  }

  lemma {:induction false} AttemptKeepsLeases(p: Params, f: Fleet, i: nat)
    requires p.Accepted() && LeaseInv(p, f) && i < |f.instances|
    ensures LeaseInv(p, DoAttempt(p, f, i))
  {
    assert InstanceLease(p, f.now, f.keys, f.owners, i, f.instances[i]);
    AttemptKeepsWorker(p, f, i);
    OtherGenerator(p, f, DoAttempt(p, f, i), i);
  }

  /** Only the generator of one instance, but not its worker id, and what has been issued are different. */
  lemma {:induction false} OtherGenerator(p: Params, f: Fleet, g: Fleet, i: nat)
    requires p.Accepted() && LeaseInv(p, f) && i < |f.instances| && |g.instances| == |f.instances|
    requires var x, y := f.instances[i], g.instances[i];
             && y == x.(generator := y.generator, full := y.full)
             && y.generator.workerID == x.generator.workerID && G.InRange(p.config, y.generator)
    requires g == f.(instances := g.instances, issued := g.issued) && g.instances == f.instances[i := g.instances[i]]
    ensures LeaseInv(p, g)
  {
    assert InstanceLease(p, f.now, f.keys, f.owners, i, f.instances[i]);
    LocalLease(p, f, i, g.instances[i]);
  }

  lemma {:induction false} AnnouncementKeepsLeases(p: Params, f: Fleet, i: nat)
    requires p.Accepted() && LeaseInv(p, f) && i < |f.instances|
    ensures LeaseInv(p, Perform(p, f, AnnounceShutdown(i)))
  {
    assert InstanceLease(p, f.now, f.keys, f.owners, i, f.instances[i]);
    LocalLease(p, f, i, f.instances[i].(manager := f.instances[i].manager.(shuttingDown := true)));
  }

  lemma {:induction false} GeneratorShutdownKeepsLeases(p: Params, f: Fleet, i: nat)
    requires p.Accepted() && LeaseInv(p, f) && i < |f.instances|
    ensures LeaseInv(p, Perform(p, f, ShutdownGenerator(i)))
  {
    assert InstanceLease(p, f.now, f.keys, f.owners, i, f.instances[i]);
    LocalLease(p, f, i, f.instances[i].(generator := f.instances[i].generator.(shuttingDown := true)));
  }

  // ----- Steps that write worker keys -----

  /** A key that nobody holds can change hands: no lease on it is running. */
  lemma {:induction false} GrantKeepsLease(p: Params, f: Fleet, i: nat, key: Key, j: nat)
    requires p.Accepted() && LeaseInv(p, f) && i < |f.instances| && j < |f.instances|
    requires !Visible(f.keys, key, f.now)
    ensures var g := GrantKey(p, f, i, key); InstanceLease(p, g.now, g.keys, g.owners, j, f.instances[j])
  {
    assert InstanceLease(p, f.now, f.keys, f.owners, j, f.instances[j]);
  }

  lemma {:induction false} GrantKeepsLeases(p: Params, f: Fleet, i: nat, key: Key)
    requires p.Accepted() && LeaseInv(p, f) && i < |f.instances| && !Visible(f.keys, key, f.now)
    ensures LeaseInv(p, GrantKey(p, f, i, key))
  {
    var g := GrantKey(p, f, i, key);
    forall j: nat | j < |g.instances|
      ensures InstanceLease(p, g.now, g.keys, g.owners, j, g.instances[j])
    {
      GrantKeepsLease(p, f, i, key, j);
    }
    assert StoreInv(p, g.now, g.keys, g.grants, g.owners);
  }

  lemma {:induction false} ClaimKeepsLeases(p: Params, f: Fleet, i: nat, captured: int, answered: bool)
    requires p.Accepted() && LeaseInv(p, f) && i < |f.instances|
    ensures LeaseInv(p, DoClaim(p, f, i, captured, answered))
  {
    var x := f.instances[i];
    assert InstanceLease(p, f.now, f.keys, f.owners, i, x);
    if x.activity.Probing? && 0 <= captured <= f.now {
      var key := Key(x.datacenter, x.activity.workerID);
      var y := DoClaim(p, f, i, captured, answered).instances[i];
      if Visible(f.keys, key, f.now) {
        MoreOwners(p, f, i);
        LocalLease(p, f.(owners := f.owners + [i]), i, y);
      } else if Grantable(p, f, key) {
        GrantKeepsLeases(p, f, i, key);
        GrantKeepsLease(p, f, i, key, i);
        LocalLease(p, GrantKey(p, f, i, key), i, y);
      }
    }
  }

  /** The fleet after a heartbeat script refreshed `key`. */
  function Refresh(p: Params, f: Fleet, key: Key): Fleet
    requires key in f.keys && key in f.grants
  {
    var expiry := f.now + WholeSeconds(p.ttl);
    f.(keys := f.keys[key := Record(f.keys[key].instanceID, expiry)],
       grants := f.grants[key := f.grants[key].(until := expiry)])
  }

  /** Nobody but the holder of a visible key has a lease on it. */
  lemma {:induction false} RefreshKeepsLease(p: Params, f: Fleet, i: nat, key: Key, j: nat)
    requires p.Accepted() && LeaseInv(p, f) && i < |f.instances| && j < |f.instances| && j != i
    requires key in f.keys && Generated(f.owners, f.keys[key].instanceID, i)
    ensures key in f.grants
    ensures var g := Refresh(p, f, key); InstanceLease(p, g.now, g.keys, g.owners, j, f.instances[j])
  {
    assert InstanceLease(p, f.now, f.keys, f.owners, j, f.instances[j]);
  }

  lemma {:induction false} BeatRunsKeepsLeases(p: Params, f: Fleet, i: nat)
    requires p.Accepted() && LeaseInv(p, f) && i < |f.instances|
    ensures LeaseInv(p, DoBeatRuns(p, f, i))
  {
    var x := f.instances[i];
    var key := Key(x.datacenter, x.manager.workerID);
    var g := DoBeatRuns(p, f, i);
    assert InstanceLease(p, f.now, f.keys, f.owners, i, x);
    if x.activity == Idle && x.manager.registered
       && Heartbeat(f.keys, key, x.manager.instanceID, f.now, p.ttl).code == Refreshed {
      assert g.keys == Refresh(p, f, key).keys && g.grants == Refresh(p, f, key).grants;
      forall j: nat | j < |g.instances|
        ensures InstanceLease(p, g.now, g.keys, g.owners, j, g.instances[j])
      {
        if j != i {
          RefreshKeepsLease(p, f, i, key, j);
        }
      }
      assert StoreInv(p, g.now, g.keys, g.grants, g.owners);
    }
  }

  lemma {:induction false} DropKeepsLease(p: Params, f: Fleet, i: nat, key: Key, j: nat)
    requires p.Accepted() && LeaseInv(p, f) && i < |f.instances| && j < |f.instances|
    requires Visible(f.keys, key, f.now) && Generated(f.owners, f.keys[key].instanceID, i)
    requires j == i ==> !f.instances[i].manager.registered && !f.instances[i].activity.Granted?
    ensures var g := DropKey(p, f, key, f.keys[key].instanceID);
            InstanceLease(p, g.now, g.keys, g.owners, j, f.instances[j])
  {
    assert InstanceLease(p, f.now, f.keys, f.owners, j, f.instances[j]);
  }

  /** An instance that has given a worker id up may delete its key. */
  lemma {:induction false} DropKeepsLeases(p: Params, f: Fleet, i: nat, key: Key, instanceID: int)
    requires p.Accepted() && LeaseInv(p, f) && i < |f.instances| && Generated(f.owners, instanceID, i)
    requires !f.instances[i].manager.registered && !f.instances[i].activity.Granted?
    ensures LeaseInv(p, DropKey(p, f, key, instanceID))
  {
    if Visible(f.keys, key, f.now) && f.keys[key].instanceID == instanceID {
      var g := DropKey(p, f, key, instanceID);
      forall j: nat | j < |g.instances|
        ensures InstanceLease(p, g.now, g.keys, g.owners, j, g.instances[j])
      {
        DropKeepsLease(p, f, i, key, j);
      }
      assert StoreInv(p, g.now, g.keys, g.grants, g.owners);
    }
  }

  lemma {:induction false} DeleteKeyKeepsLeases(p: Params, f: Fleet, i: nat)
    requires p.Accepted() && LeaseInv(p, f) && i < |f.instances|
    ensures LeaseInv(p, DoDeleteKey(p, f, i))
  {
    var x := f.instances[i];
    assert InstanceLease(p, f.now, f.keys, f.owners, i, x);
    if x.activity.Deleting? {
      LocalLease(p, f, i, x.(activity := Idle));
      var h := With(f, i, x.(activity := Idle));
      DropKeepsLeases(p, h, i, Key(x.datacenter, x.activity.workerID), x.activity.instanceID);
    }
  }

  lemma {:induction false} UnregisterSectionKeepsLeases(p: Params, f: Fleet, i: nat)
    requires p.Accepted() && LeaseInv(p, f) && i < |f.instances|
    ensures LeaseInv(p, DoUnregisterSection(p, f, i))
  {
    var x := f.instances[i];
    assert InstanceLease(p, f.now, f.keys, f.owners, i, x);
    if x.manager.shuttingDown && x.manager.registered {
      if x.activity == Idle {
        LocalLease(p, f, i, DoUnregisterSection(p, f, i).instances[i]);
      } else if (x.activity.BeatAnswered? || x.activity == Restoring) && !p.quietUnregister {
        var y := x.(manager := Unregister(x.manager));
        LocalLease(p, f, i, y);
        DropKeepsLeases(p, With(f, i, y), i, Key(x.datacenter, x.manager.workerID), x.manager.instanceID);
      }
    }
  }

  // ----- Whole runs -----

  lemma {:induction false} RegistrationKeepsLeases(p: Params, f: Fleet, step: Step)
    requires p.Accepted() && LeaseInv(p, f) && !step.Tick? && step.i < |f.instances|
    requires step.ProbeSpecific? || step.Probe? || step.Claim? || step.ClaimUnanswered? || step.GiveUp?
             || step.RecordLocally? || step.Push? || step.Finish? || step.FinishInLoop? || step.Restore?
             || step.LoseWorkerID?
    ensures LeaseInv(p, Perform(p, f, step))
  {
    match step
    case ProbeSpecific(i) => ProbeSpecificKeepsLeases(p, f, i);
    case Probe(i) => ProbeKeepsLeases(p, f, i);
    case Claim(i, captured) => ClaimKeepsLeases(p, f, i, captured, true);
    case ClaimUnanswered(i) => ClaimKeepsLeases(p, f, i, f.now, false);
    case LoseWorkerID(i) => LoseWorkerIDKeepsLeases(p, f, i);
    case GiveUp(i) => GiveUpKeepsLeases(p, f, i);
    case RecordLocally(i) => RecordKeepsLeases(p, f, i);
    case Push(i) => PushKeepsLeases(p, f, i);
    case Finish(i) => FinishKeepsLeases(p, f, i, false);
    case FinishInLoop(i) => FinishKeepsLeases(p, f, i, true);
    case Restore(i) => RestoreKeepsLeases(p, f, i);
  }

  lemma {:induction false} BeatKeepsLeases(p: Params, f: Fleet, step: Step)
    requires p.Accepted() && LeaseInv(p, f) && !step.Tick? && step.i < |f.instances|
    requires step.BeatRuns? || step.BeatObserved? || step.BeatFails?
    ensures LeaseInv(p, Perform(p, f, step))
  {
    match step
    case BeatRuns(i) => BeatRunsKeepsLeases(p, f, i);
    case BeatObserved(i) => BeatObservedKeepsLeases(p, f, i);
    case BeatFails(i) => BeatFailsKeepsLeases(p, f, i);
  }

  lemma {:induction false} ServiceKeepsLeases(p: Params, f: Fleet, step: Step)
    requires p.Accepted() && LeaseInv(p, f) && !step.Tick? && step.i < |f.instances|
    requires step.CheckGate? || step.Attempt?
    ensures LeaseInv(p, Perform(p, f, step))
  {
    match step
    case CheckGate(i) => CheckGateKeepsLeases(p, f, i);
    case Attempt(i) => AttemptKeepsLeases(p, f, i);
  }

  lemma {:induction false} ShutdownKeepsLeases(p: Params, f: Fleet, step: Step)
    requires p.Accepted() && LeaseInv(p, f) && !step.Tick? && step.i < |f.instances|
    requires step.AnnounceShutdown? || step.UnregisterSection? || step.DeleteKey? || step.ShutdownGenerator?
    ensures LeaseInv(p, Perform(p, f, step))
  {
    match step
    case UnregisterSection(i) => UnregisterSectionKeepsLeases(p, f, i);
    case DeleteKey(i) => DeleteKeyKeepsLeases(p, f, i);
    case AnnounceShutdown(i) => AnnouncementKeepsLeases(p, f, i);
    case ShutdownGenerator(i) => GeneratorShutdownKeepsLeases(p, f, i);
  }

  lemma {:induction false} LeaseStepKeeps(p: Params, f: Fleet, step: Step)
    requires p.Accepted() && LeaseInv(p, f)
    ensures LeaseInv(p, Perform(p, f, step))
  {
    if step.Tick? {
      TickKeepsLeases(p, f, step.ms);
    } else if step.i < |f.instances| {
      if step.BeatRuns? || step.BeatObserved? || step.BeatFails? {
        BeatKeepsLeases(p, f, step);
      } else if step.CheckGate? || step.Attempt? {
        ServiceKeepsLeases(p, f, step);
      } else if step.AnnounceShutdown? || step.UnregisterSection? || step.DeleteKey? || step.ShutdownGenerator? {
        ShutdownKeepsLeases(p, f, step);
      } else {
        RegistrationKeepsLeases(p, f, step);
      }
    }
  }

  lemma {:induction false} LaunchIsLeased(p: Params, now: int, counters: map<int, int>, placements: seq<Placement>)
    requires p.Accepted() && ValidLaunch(p, now, counters, placements)
    ensures LeaseInv(p, Launch(p, now, counters, placements))
  {
    var f := Launch(p, now, counters, placements);
    forall i: nat | i < |f.instances|
      ensures InstanceLease(p, f.now, f.keys, f.owners, i, f.instances[i])
    {
      assert ValidPlacement(p, placements[i]);
    }
  }

  lemma {:induction false} LeaseRunKeeps(p: Params, f: Fleet, steps: seq<Step>)
    requires p.Accepted() && LeaseInv(p, f)
    ensures LeaseInv(p, PerformAll(p, f, steps))
    decreases |steps|
  {
    if steps != [] {
      LeaseRunKeeps(p, f, steps[..|steps| - 1]);
      LeaseStepKeeps(p, PerformAll(p, f, steps[..|steps| - 1]), steps[|steps| - 1]);
    }
  }
}
