/**
 * Many instances on one Redis store: every atomic step of registration, heartbeat, recovery,
 * unregistration and gated generation, in any interleaving. Times are in milliseconds.
 */
module FleetSpec {
  import G = GeneratorSpec
  import Snowflake
  import opened ManagerSpec
  import opened RedisSpec

  datatype Key = Key(datacenter: int, worker: int)

  /** The deployment: what all instances share, and how the environment behaves. */
  datatype Params = Params(
    config: G.Config,        // generator settings; each instance puts in its own datacenter
    ttl: int,                // of a worker key
    responseDelay: int,      // a heartbeat's answer is seen at most this long after its script ran
    issueDelay: int,         // an attempt is made at most this long after the gate let its call pass
    slack: int,              // how long before the lease deadline callers stop; the code itself uses 0
    regrantGap: int,         // at least this long passes between deleting a key and granting it again
    quietUnregister: bool,   // unregistration waits for a heartbeat in flight and for a loop's own health store
    patientRetry: bool)      // after an overflow wait the clock has moved on before the next attempt
  {
    predicate Accepted() {
      && config.Accepted()
      && ttl >= 1000
      && responseDelay >= 0 && issueDelay >= 0 && slack >= 0 && regrantGap >= 0
    }

    /** How much longer than its key an open gate may last when unregistration overtakes a heartbeat. */
    function Aftermath(): int {
      if quietUnregister then 0 else responseDelay + ttl - slack
    }

    /** The conditions under which an open gate means ownership. */
    predicate Trusted() {
      quietUnregister && responseDelay + ttl % 1000 <= slack
    }

    /** The conditions under which open gates are disjoint. */
    predicate Guarded() {
      responseDelay + ttl % 1000 <= slack <= ttl && (quietUnregister || regrantGap > Aftermath())
    }

    /** The conditions under which the fleet is safe. */
    predicate Careful() {
      && responseDelay + ttl % 1000 + issueDelay <= slack <= ttl
      && regrantGap > issueDelay + Aftermath()
      && patientRetry
    }

    function ConfigOf(datacenter: int): G.Config {
      config.(datacenterID := datacenter)
    }

    predicate InPlace(datacenter: int)
      requires Accepted()
    {
      0 <= datacenter <= config.layout.MaxDatacenter()
    }
  }

  /** What an instance is in the middle of, between two of its steps. */
  datatype Activity =
    | Idle
    | Probing(workerID: int, specific: bool)
    | Cycling            // between two probes of one registration
    | Granted(workerID: int, instanceID: int, captured: int, specific: bool)
    | Pushing(workerID: int)
    | Pushed
    | Restoring          // registered again; the loop's own health store is still to come
    | BeatAnswered(ranAt: int)
    | Deleting(workerID: int, instanceID: int)

  datatype Instance = Instance(
    datacenter: int,
    manager: Manager,
    generator: G.State,
    full: bool,          // an overflow wait was requested at the generator's last timestamp
    activity: Activity,
    started: bool,       // startup has begun; a specific id is asked for only first
    lease: int,          // expiry of the key as this instance last wrote it
    renewed: bool,       // a heartbeat script has refreshed the key since it was granted
    lastGate: int)       // when the gate last let a call pass

  /** Who may issue under a key: the instance granted it last, since when, until when; and when it was deleted. */
  datatype Grant = Grant(holder: nat, since: int, until: int, freed: int)

  datatype Issue = Issue(instance: nat, parts: Snowflake.Parts)

  datatype Fleet = Fleet(
    now: int,
    counters: map<int, int>,
    keys: Keys<Key>,
    grants: map<Key, Grant>,
    owners: seq<nat>,          // which instance generated each instance id
    instances: seq<Instance>,
    issued: seq<Issue>)

  datatype Step =
    | Tick(ms: nat)
    | ProbeSpecific(i: nat)
    | Probe(i: nat)
    | Claim(i: nat, captured: int)
    | ClaimUnanswered(i: nat)
    | GiveUp(i: nat)
    | RecordLocally(i: nat)
    | Push(i: nat)
    | Finish(i: nat)
    | FinishInLoop(i: nat)
    | Restore(i: nat)
    | BeatRuns(i: nat)
    | BeatObserved(i: nat)
    | BeatFails(i: nat)
    | LoseWorkerID(i: nat)
    | CheckGate(i: nat)
    | Attempt(i: nat)
    | AnnounceShutdown(i: nat)
    | UnregisterSection(i: nat)
    | DeleteKey(i: nat)
    | ShutdownGenerator(i: nat)

  function With(f: Fleet, i: nat, x: Instance): Fleet
    requires i < |f.instances|
  {
    f.(instances := f.instances[i := x])
  }

  /** The instance may have its key granted now: nobody holds it, and it was not deleted just before. */
  predicate Grantable(p: Params, f: Fleet, key: Key) {
    && !Visible(f.keys, key, f.now)
    && (key in f.grants && key !in f.keys ==> f.now >= f.grants[key].freed + p.regrantGap)
  }

  function GrantKey(p: Params, f: Fleet, i: nat, key: Key): Fleet {
    f.(keys := SetNX(f.keys, key, |f.owners|, f.now, p.ttl).keys,
       grants := f.grants[key := Grant(i, f.now, f.now + p.ttl, f.now)],
       owners := f.owners + [i])
  }

  /** Whether a registration takes its next worker id; the shutdown flag matters only before the first. */
  predicate MayProbe(x: Instance) {
    x.activity == Cycling || (x.activity == Idle && !x.manager.registered && !x.manager.shuttingDown)
  }

  /** The counter script, and the worker id it hands out, counted from zero. */
  function DoProbe(p: Params, f: Fleet, i: nat): Fleet
    requires p.Accepted() && i < |f.instances|
  {
    var x := f.instances[i];
    if !MayProbe(x) then f
    else
      var c := IncrWithReset(if x.datacenter in f.counters then f.counters[x.datacenter] else 0,
                             p.config.MaxWorker() + 1);
      With(f, i, x.(activity := Probing(c.returned - 1, false), started := true))
        .(counters := f.counters[x.datacenter := c.stored])
  }

  /** Startup asks for the configured worker id, if there is one, before anything else. */
  function DoProbeSpecific(f: Fleet, i: nat): Fleet
    requires i < |f.instances|
  {
    var x := f.instances[i];
    if x.started || x.generator.workerID <= 0 then f
    else With(f, i, x.(activity := Probing(x.generator.workerID, true), started := true))
  }

  /** SetNX with a fresh instance id; `captured` is the local time taken before. */
  function DoClaim(p: Params, f: Fleet, i: nat, captured: int, answered: bool): Fleet
    requires i < |f.instances|
  {
    var x := f.instances[i];
    if !x.activity.Probing? || !(0 <= captured <= f.now) then f
    else
      var key := Key(x.datacenter, x.activity.workerID);
      if Visible(f.keys, key, f.now) then
        With(f, i, x.(activity := if x.activity.specific then Idle else Cycling)).(owners := f.owners + [i])
      else if !Grantable(p, f, key) then f
      else if answered then
        With(GrantKey(p, f, i, key), i,
             x.(activity := Granted(x.activity.workerID, |f.owners|, captured, x.activity.specific),
                lease := f.now + p.ttl, renewed := false))
      else
        With(GrantKey(p, f, i, key), i, x.(activity := Idle))
  }

  /** A registration ends without a worker id: an error, a cancellation, or a full cycle. */
  function DoGiveUp(f: Fleet, i: nat): Fleet
    requires i < |f.instances|
  {
    var x := f.instances[i];
    if x.activity.Probing? || x.activity == Cycling then With(f, i, x.(activity := Idle)) else f
  }

  /** The granted id becomes the manager's registration. */
  function DoRecord(p: Params, f: Fleet, i: nat): Fleet
    requires i < |f.instances|
  {
    var x := f.instances[i];
    if !x.activity.Granted? then f
    else
      var m := RecordRegistration(x.manager, x.activity.workerID, x.activity.captured, p.ttl)
               .(instanceID := x.activity.instanceID);
      With(f, i, x.(manager := m, activity := if x.activity.specific then Pushed else Pushing(x.activity.workerID)))
  }

  /** The callback that hands the fresh worker id to the generator. */
  function DoPush(p: Params, f: Fleet, i: nat): Fleet
    requires p.Accepted() && i < |f.instances|
  {
    var x := f.instances[i];
    if !x.activity.Pushing? then f
    else With(f, i, x.(generator := G.Switch(p.config, x.generator, x.activity.workerID), activity := Pushed))
  }

  /** The end of a registration; one made by a heartbeat loop is followed by that loop's own health store. */
  function DoFinish(f: Fleet, i: nat, inLoop: bool): Fleet
    requires i < |f.instances|
  {
    var x := f.instances[i];
    if x.activity != Pushed then f
    else With(f, i, x.(manager := FinishRegistration(x.manager), activity := if inLoop then Restoring else Idle))
  }

  /** The loop that registered again sets the health flag, whatever has happened since. */
  function DoRestore(f: Fleet, i: nat): Fleet
    requires i < |f.instances|
  {
    var x := f.instances[i];
    if x.activity != Restoring then f
    else With(f, i, x.(manager := x.manager.(healthy := true), activity := Idle))
  }

  /** The heartbeat script; when it refreshes the key its answer is on the way. */
  function DoBeatRuns(p: Params, f: Fleet, i: nat): Fleet
    requires i < |f.instances|
  {
    var x := f.instances[i];
    var key := Key(x.datacenter, x.manager.workerID);
    var r := Heartbeat(f.keys, key, x.manager.instanceID, f.now, p.ttl);
    if x.activity != Idle || !x.manager.registered || r.code != Refreshed || key !in f.grants then f
    else
      var expiry := f.now + WholeSeconds(p.ttl);
      With(f, i, x.(activity := BeatAnswered(f.now), lease := expiry, renewed := true))
        .(keys := r.keys, grants := f.grants[key := f.grants[key].(until := expiry)])
  }

  function DoBeatObserved(p: Params, f: Fleet, i: nat): Fleet
    requires i < |f.instances|
  {
    var x := f.instances[i];
    if !x.activity.BeatAnswered? || f.now > x.activity.ranAt + p.responseDelay then f
    else With(f, i, x.(manager := BeatSucceeds(x.manager, f.now, p.ttl), activity := Idle))
  }

  /** A heartbeat is refused, fails or is given up. */
  function DoBeatFails(f: Fleet, i: nat): Fleet
    requires i < |f.instances|
  {
    var x := f.instances[i];
    if x.activity == Idle || x.activity.BeatAnswered?
    then With(f, i, x.(manager := x.manager.(healthy := false), activity := Idle))
    else f
  }

  /** Re-registration finds the key gone or taken and gives the worker id up. */
  function DoLoseWorkerID(f: Fleet, i: nat): Fleet
    requires i < |f.instances|
  {
    var x := f.instances[i];
    var key := Key(x.datacenter, x.manager.workerID);
    if x.activity != Idle || !x.manager.registered
       || Heartbeat(f.keys, key, x.manager.instanceID, f.now, 0).code == Refreshed
    then f
    else With(f, i, x.(manager := ResetForRecovery(x.manager)))
  }

  /** Whether the gate lets a call pass, `slack` before the lease deadline. */
  predicate GateOpen(p: Params, m: Manager, now: int) {
    IsHealthy(m, now).open && (m.leaseDeadline == 0 || now + p.slack <= m.leaseDeadline)
  }

  function DoCheckGate(p: Params, f: Fleet, i: nat): Fleet
    requires i < |f.instances|
  {
    var x := f.instances[i];
    var y := x.(manager := IsHealthy(x.manager, f.now).manager);
    With(f, i, if GateOpen(p, x.manager, f.now) then y.(lastGate := f.now) else y)
  }

  /** One attempt of a call that passed the gate. */
  function DoAttempt(p: Params, f: Fleet, i: nat): Fleet
    requires p.Accepted() && i < |f.instances|
  {
    var x := f.instances[i];
    if f.now > x.lastGate + p.issueDelay then f
    else if p.patientRetry && x.full && f.now <= x.generator.lastTimestamp then f
    else if !p.InPlace(x.datacenter) || !G.InRange(p.ConfigOf(x.datacenter), x.generator) then f
    else
      var r := G.Try(p.ConfigOf(x.datacenter), x.generator, f.now);
      match r.outcome
      case Issued(parts) =>
        With(f, i, x.(generator := r.state, full := x.full && parts.timestamp == x.generator.lastTimestamp))
          .(issued := f.issued + [Issue(i, parts)])
      case NeedWait(duration) => With(f, i, x.(generator := r.state, full := x.full || duration == 0))
      case Failed(_) => f
  }

  function DoUnregisterSection(p: Params, f: Fleet, i: nat): Fleet
    requires i < |f.instances|
  {
    var x := f.instances[i];
    if !x.manager.shuttingDown || !x.manager.registered then f
    else if x.activity == Idle then
      With(f, i, x.(manager := Unregister(x.manager),
                    activity := Deleting(x.manager.workerID, x.manager.instanceID)))
    else if (x.activity.BeatAnswered? || x.activity == Restoring) && !p.quietUnregister then
      // the heartbeat's answer or the health store is still to come; the key is deleted at once
      var key := Key(x.datacenter, x.manager.workerID);
      DropKey(p, With(f, i, x.(manager := Unregister(x.manager))), key, x.manager.instanceID)
    else f
  }

  /** The guarded deletion of a key, and what it ends. */
  function DropKey(p: Params, f: Fleet, key: Key, instanceID: int): Fleet {
    var left := DeleteIfOwned(f.keys, key, instanceID, f.now);
    if key in f.keys && key !in left && key in f.grants then
      f.(keys := left,
         grants := f.grants[key := f.grants[key].(until := f.now + p.issueDelay + p.Aftermath(), freed := f.now)])
    else f
  }

  function DoDeleteKey(p: Params, f: Fleet, i: nat): Fleet
    requires i < |f.instances|
  {
    var x := f.instances[i];
    if !x.activity.Deleting? then f
    else
      DropKey(p, With(f, i, x.(activity := Idle)), Key(x.datacenter, x.activity.workerID), x.activity.instanceID)
  }

  /** One step of the fleet; a step that cannot be taken now changes nothing. */
  function Perform(p: Params, f: Fleet, step: Step): Fleet
    requires p.Accepted()
  {
    if step.Tick? then f.(now := f.now + step.ms)
    else if step.i >= |f.instances| then f
    else
      match step
      case ProbeSpecific(i) => DoProbeSpecific(f, i)
      case Probe(i) => DoProbe(p, f, i)
      case Claim(i, captured) => DoClaim(p, f, i, captured, true)
      case ClaimUnanswered(i) => DoClaim(p, f, i, f.now, false)
      case GiveUp(i) => DoGiveUp(f, i)
      case RecordLocally(i) => DoRecord(p, f, i)
      case Push(i) => DoPush(p, f, i)
      case Finish(i) => DoFinish(f, i, false)
      case FinishInLoop(i) => DoFinish(f, i, true)
      case Restore(i) => DoRestore(f, i)
      case BeatRuns(i) => DoBeatRuns(p, f, i)
      case BeatObserved(i) => DoBeatObserved(p, f, i)
      case BeatFails(i) => DoBeatFails(f, i)
      case LoseWorkerID(i) => DoLoseWorkerID(f, i)
      case CheckGate(i) => DoCheckGate(p, f, i)
      case Attempt(i) => DoAttempt(p, f, i)
      case AnnounceShutdown(i) =>
        var x := f.instances[i];
        With(f, i, x.(manager := x.manager.(shuttingDown := true)))
      case UnregisterSection(i) => DoUnregisterSection(p, f, i)
      case DeleteKey(i) => DoDeleteKey(p, f, i)
      case ShutdownGenerator(i) =>
        var x := f.instances[i];
        With(f, i, x.(generator := x.generator.(shuttingDown := true)))
  }

  function PerformAll(p: Params, f: Fleet, steps: seq<Step>): Fleet
    requires p.Accepted()
    decreases |steps|
  {
    if steps == [] then f else Perform(p, PerformAll(p, f, steps[..|steps| - 1]), steps[|steps| - 1])
  }

  /** Where an instance is placed and which worker id it is configured with. */
  datatype Placement = Placement(datacenter: int, workerID: int)

  function NewInstance(p: Params, at: Placement): Instance {
    Instance(at.datacenter, NewManager(at.workerID, true), G.State(-1, 0, at.workerID, false), false,
             Idle, false, 0, false, -p.issueDelay - 1)
  }

  predicate ValidPlacement(p: Params, at: Placement)
    requires p.Accepted()
  {
    p.InPlace(at.datacenter) && 0 <= at.workerID <= p.config.MaxWorker()
  }

  /** Any number of instances that have not started, on a store without worker keys. */
  function Launch(p: Params, now: int, counters: map<int, int>, placements: seq<Placement>): Fleet {
    var instances := seq(|placements|, i requires 0 <= i < |placements| => NewInstance(p, placements[i]));
    Fleet(now, counters, map[], map[], [], instances, [])
  }

  predicate ValidLaunch(p: Params, now: int, counters: map<int, int>, placements: seq<Placement>)
    requires p.Accepted()
  {
    && p.config.epoch <= now
    && (forall dc :: dc in counters ==> counters[dc] >= 0)
    && (forall i :: 0 <= i < |placements| ==> ValidPlacement(p, placements[i]))
  }
}
