/** The worker-id manager and the store it talks to, for one datacenter, as they run. Times in milliseconds. */
module WorkerManagerObject {
  import opened ManagerSpec
  import opened RedisSpec
  import G = GeneratorSpec
  import opened GeneratorObject

  /** The part of Redis that one datacenter uses: its counter and its worker keys, by worker id. */
  class RedisServer {
    var counter: int
    var keys: Keys<int>

    constructor ()
      ensures counter == 0 && keys == map[]
    {
      counter, keys := 0, map[];
    }

    /** The INCR script: increments, and overwrites the counter when it has passed the total. */
    method EvalIncrWithReset(total: int) returns (value: int)
      requires total > 0
      modifies `counter
      ensures Counter(counter, value) == IncrWithReset(old(counter), total)
    {
      counter := counter + 1;
      if counter > total {
        var next := ((counter - 1) % total) + 1;
        counter := next;
        return next;
      }
      return counter;
    }

    method SetNX(key: int, instanceID: int, now: int, ttl: int) returns (success: bool)
      modifies `keys
      ensures SetReply(keys, success) == RedisSpec.SetNX(old(keys), key, instanceID, now, ttl)
      ensures success <==> key !in old(keys) || old(keys)[key].expiry < now
      ensures keys == if success then old(keys)[key := Record(instanceID, now + ttl)] else old(keys)
    {
      if key in keys && now <= keys[key].expiry {
        return false;
      }
      keys := keys[key := Record(instanceID, now + ttl)];
      return true;
    }

    /** The heartbeat script: verifies the instance id and refreshes the key. */
    method EvalHeartbeat(key: int, instanceID: int, now: int, ttl: int) returns (code: BeatCode)
      modifies `keys
      ensures BeatReply(keys, code) == Heartbeat(old(keys), key, instanceID, now, ttl)
      ensures code == Missing <==> key !in old(keys) || old(keys)[key].expiry < now
      ensures code == Refreshed <==>
                key in old(keys) && now <= old(keys)[key].expiry && old(keys)[key].instanceID == instanceID
      ensures code != Refreshed ==> keys == old(keys)
      ensures code == Refreshed ==>
                && keys == old(keys)[key := keys[key]] && keys[key].instanceID == instanceID
                && (keys[key].expiry - now) % 1_000 == 0 && ttl - 1_000 < keys[key].expiry - now <= ttl
    {
      if key !in keys || now > keys[key].expiry {
        return Missing;
      }
      if keys[key].instanceID != instanceID {
        return TakenByAnother;
      }
      keys := keys[key := Record(instanceID, now + WholeSeconds(ttl))];
      return Refreshed;
    }

    /** Get, comparison of the instance id, and Del. */
    method DeleteOwned(key: int, instanceID: int, now: int)
      modifies `keys
      ensures keys == DeleteIfOwned(old(keys), key, instanceID, now)
      ensures forall k :: k in old(keys) && (k != key || old(keys)[k].instanceID != instanceID) ==>
                k in keys && keys[k] == old(keys)[k]
      ensures keys.Keys <= old(keys).Keys
      ensures key in keys && keys[key].instanceID == instanceID ==> keys[key].expiry < now
    {
      if key !in keys || now > keys[key].expiry {
        return;
      }
      if keys[key].instanceID != instanceID {
        return;
      }
      keys := keys - {key};
    }
  }

  /** What the surroundings of a registration do at its attempt k. */
  datatype Surroundings = Surroundings(
    captured: nat -> int,            // the local time taken before SetNX
    served: nat -> int,              // the store's time when it runs SetNX
    instanceIDs: nat -> int,         // the instance id generated for the attempt
    cancelledBefore: nat -> bool,    // the context is found cancelled before the attempt
    incrFails: nat -> bool,          // the counter script fails
    setFails: nat -> bool,           // SetNX fails
    cancelledAfter: nat -> bool)     // the context is cancelled during the backoff after it

  predicate Undisturbed(env: Surroundings, k: nat) {
    !env.cancelledBefore(k) && !env.incrFails(k) && !env.setFails(k) && !env.cancelledAfter(k)
  }

  datatype RegisterResult =
    | Registered(workerID: int)
    | InvalidMaximum
    | ShuttingDown
    | Cancelled
    | RedisFailed
    | AllOccupied

  /** How one attempt of a registration ends. */
  datatype ProbeStep = Granted(workerID: int) | Taken | Stopped(reason: RegisterResult)

  /** The worker id that attempt k of a registration probes. */
  function Probed(counter: int, total: int, k: nat): int
    requires total > 0
  {
    Returned(counter, total, k) - 1
  }

  /** The first attempt from k on that finds its key free; `total` when none does. */
  function FirstFree(keys: Keys<int>, counter: int, total: int, served: nat -> int, k: nat): (n: nat)
    requires 0 <= k <= total && total > 0
    ensures k <= n <= total
    ensures n < total ==> !Visible(keys, Probed(counter, total, n), served(n))
    ensures forall j: nat :: k <= j < n ==> Visible(keys, Probed(counter, total, j), served(j))
    decreases total - k
  {
    if k == total then k
    else if !Visible(keys, Probed(counter, total, k), served(k)) then k
    else FirstFree(keys, counter, total, served, k + 1)
  }

  /**
   * A registration that nobody disturbs finds a free worker id whenever there is one at its start,
   * and probes no id twice.
   */
  lemma {:induction false} FindsFreeID(keys: Keys<int>, counter: int, total: int, served: nat -> int, workerID: int)
    requires total > 0 && counter >= 0 && 0 <= workerID < total
    requires forall i: nat, j: nat :: i <= j ==> served(i) <= served(j)
    ensures !Visible(keys, workerID, served(0)) ==> FirstFree(keys, counter, total, served, 0) < total
    ensures FirstFree(keys, counter, total, served, 0) == total ==>
              exists k: nat :: k < total && Probed(counter, total, k) == workerID
                               && Visible(keys, workerID, served(k))
    ensures forall i: nat, j: nat :: i < j < total ==> Probed(counter, total, i) != Probed(counter, total, j)
  {
    FullCycle(counter, total, 0, workerID + 1);
    var k: int :| 0 <= k < 0 + total && Returned(counter, total, k) == workerID + 1;
    assert Probed(counter, total, k) == workerID;
    assert served(0) <= served(k);
  }

  /** Nobody disturbs a registration, the store's clock does not go back, and some id is free as it begins. */
  ghost predicate Complete(env: Surroundings, keys: Keys<int>, maximum: int) {
    && (forall k: nat :: Undisturbed(env, k))
    && (forall i: nat, j: nat :: i <= j ==> env.served(i) <= env.served(j))
    && exists free :: 0 <= free <= maximum && !Visible(keys, free, env.served(0))
  }

  /** Undisturbed, a registration ends under the first id whose key it finds free, if there is one. */
  ghost predicate Conclusive(env: Surroundings, keys: Keys<int>, counter: int, maximum: int, result: RegisterResult)
    requires maximum >= 0
  {
    (forall k: nat :: Undisturbed(env, k)) ==>
      var n := FirstFree(keys, counter, maximum + 1, env.served, 0);
      result == if n <= maximum then Registered(Probed(counter, maximum + 1, n)) else AllOccupied
  }

  lemma {:induction false} ConclusiveMeansComplete(env: Surroundings, keys: Keys<int>, counter: int, maximum: int,
                                                   result: RegisterResult)
    requires maximum >= 0 && counter >= 0 && Conclusive(env, keys, counter, maximum, result)
    ensures Complete(env, keys, maximum) ==> result.Registered?
  {
    if Complete(env, keys, maximum) {
      var free :| 0 <= free <= maximum && !Visible(keys, free, env.served(0));
      FindsFreeID(keys, counter, maximum + 1, env.served, free);
    }
  }

  class WorkerIDManager {
    const redis: RedisServer
    const generator: Generator       // what the worker-id callback updates
    const ttl: int
    var workerID: int
    var registered: bool
    var instanceID: int
    var leaseDeadline: int
    var maxWorkerID: int
    var healthy: bool
    var shuttingDown: bool
    var recovering: bool
    var heartbeatCtx: Context
    var heartbeatRunning: bool
    var contexts: nat
    var cancelled: set<nat>

    function View(): Manager
      reads this
    {
      Manager(workerID, registered, instanceID, leaseDeadline, maxWorkerID, healthy, shuttingDown, recovering,
              heartbeatCtx, heartbeatRunning, contexts, cancelled)
    }

    constructor (redis: RedisServer, generator: Generator, ttl: int, configuredWorkerID: int, autoRegister: bool)
      ensures this.redis == redis && this.generator == generator && this.ttl == ttl
      ensures View() == NewManager(configuredWorkerID, autoRegister)
      ensures workerID == configuredWorkerID && !registered && leaseDeadline == 0 && healthy == !autoRegister
      ensures !shuttingDown && !recovering && heartbeatCtx == NoContext && !heartbeatRunning && cancelled == {}
    {
      this.redis, this.generator, this.ttl := redis, generator, ttl;
      workerID, registered, instanceID, leaseDeadline, maxWorkerID := configuredWorkerID, false, 0, 0, 0;
      healthy, shuttingDown, recovering := !autoRegister, false, false;
      heartbeatCtx, heartbeatRunning, contexts, cancelled := NoContext, false, 0, {};
    }

    method IsHealthyNow(now: int) returns (open: bool)
      modifies `healthy
      ensures Gate(View(), open) == IsHealthy(old(View()), now)
      ensures open <==> old(healthy) && (leaseDeadline == 0 || now <= leaseDeadline)
      ensures healthy == open
    {
      if !healthy {
        return false;
      }
      var deadline := leaseDeadline;
      if deadline != 0 && now > deadline {
        healthy := false;
        return false;
      }
      return true;
    }

    method StartHeartbeatLocked()
      modifies `cancelled, `heartbeatCtx, `heartbeatRunning, `contexts
      ensures View() == StartHeartbeat(old(View()))
      ensures heartbeatRunning
      ensures if old(heartbeatRunning) then heartbeatCtx == old(heartbeatCtx) && cancelled == old(cancelled)
              else
                && heartbeatCtx == Active(old(contexts)) && contexts == old(contexts) + 1
                && cancelled == old(cancelled + if heartbeatCtx.Active? then {heartbeatCtx.id} else {})
    {
      if heartbeatRunning {
        return;
      }
      if heartbeatCtx.Active? {
        cancelled := cancelled + {heartbeatCtx.id};
      }
      heartbeatCtx := Active(contexts);
      contexts := contexts + 1;
      heartbeatRunning := true;
    }

    method StopHeartbeatLocked()
      modifies `cancelled, `heartbeatCtx, `heartbeatRunning
      ensures View() == StopHeartbeat(old(View()))
      ensures heartbeatCtx == NoContext
      ensures old(heartbeatCtx.Active?) ==> !heartbeatRunning && cancelled == old(cancelled + {heartbeatCtx.id})
      ensures old(heartbeatCtx == NoContext) ==>
                heartbeatRunning == old(heartbeatRunning) && cancelled == old(cancelled)
    {
      if heartbeatCtx.Active? {
        cancelled := cancelled + {heartbeatCtx.id};
        heartbeatCtx := NoContext;
        heartbeatRunning := false;
      }
    }

    /** The deferred function of a heartbeat loop. */
    method CleanUpAfterLoop(context: nat)
      modifies `heartbeatCtx, `heartbeatRunning
      ensures View() == DeferredCleanup(old(View()), context)
      ensures if old(heartbeatCtx) == Active(context) then heartbeatCtx == NoContext && !heartbeatRunning
              else heartbeatCtx == old(heartbeatCtx) && heartbeatRunning == old(heartbeatRunning)
    {
      if heartbeatCtx == Active(context) {
        heartbeatCtx := NoContext;
        heartbeatRunning := false;
      }
    }

    /** What a fresh registration under `granted` leaves of the manager. */
    function After(before: Manager, granted: int, instanceID: int, captured: int): Manager {
      FinishRegistration(RecordRegistration(before.(instanceID := instanceID), granted, captured, ttl))
    }

    /**
     * Takes ids from the counter until one of them can be claimed, each at most once. Undisturbed, it
     * registers under the first id whose key it finds free, and reports that all are occupied only
     * when it has found every key taken.
     */
    method RegisterWorkerID(env: Surroundings, maximum: int) returns (result: RegisterResult, probes: nat)
      requires redis.counter >= 0 && generator.Valid()
      modifies this, redis, generator
      ensures generator.Valid() && redis.counter >= 0
      ensures maximum < 0 ==> result == InvalidMaximum && View() == old(View()).(healthy := false)
      ensures maximum >= 0 && old(shuttingDown) ==> result == ShuttingDown && View() == old(View()).(healthy := false)
      ensures maximum >= 0 && !old(shuttingDown) && old(registered) ==>
                result == Registered(old(workerID)) && View() == old(View())
      ensures maximum < 0 || old(shuttingDown) || old(registered) || !result.Registered? ==>
                redis.keys == old(redis.keys) && generator.View() == old(generator.View())
      ensures !result.Registered? && !old(registered) ==>
                View() == old(View()).(healthy := healthy, maxWorkerID := maxWorkerID, instanceID := instanceID)
                && (healthy ==> old(healthy)) && (maximum >= 0 && !old(shuttingDown) ==> maxWorkerID == maximum)
      ensures maximum >= 0 ==>
                redis.counter == CounterAfter(old(redis.counter), maximum + 1, probes) && probes <= maximum + 1
      ensures result.Registered? && !old(registered) ==>
                maximum >= 0 && probes > 0
                && GrantedAt(env, old(View()).(maxWorkerID := maximum), old(redis.keys), old(redis.counter), maximum,
                             probes - 1, result.workerID)
                && generator.View() == G.Switch(generator.config, old(generator.View()), result.workerID)
      ensures result.Registered? && !old(registered) ==>
                && probes > 0 && RecordedBy(env, probes - 1) && healthy && heartbeatRunning
                && workerID == result.workerID == (old(redis.counter) + probes - 1) % (maximum + 1)
                && redis.keys == old(redis.keys)[workerID := Record(instanceID, env.served(probes - 1) + ttl)]
                && (maximum <= generator.config.MaxWorker() ==> generator.workerID == workerID)
      ensures result == AllOccupied ==>
                maximum >= 0
                && FirstFree(old(redis.keys), old(redis.counter), maximum + 1, env.served, 0) == maximum + 1
      ensures maximum >= 0 && !old(shuttingDown) && !old(registered) ==>
                && Conclusive(env, old(redis.keys), old(redis.counter), maximum, result)
                && (Complete(env, old(redis.keys), maximum) ==> result.Registered?)
    {
      var settled;
      settled, result := SettleAtOnce(maximum);
      if settled {
        return result, 0;
      }
      result, probes := Acquire(env, maximum);
    }

    /** What speaks against an acquisition, or makes it unnecessary; otherwise the maximum is kept for recovery. */
    method SettleAtOnce(maximum: int) returns (settled: bool, result: RegisterResult)
      modifies `healthy, `maxWorkerID
      ensures settled <==> maximum < 0 || shuttingDown || registered
      ensures !settled ==> View() == old(View()).(maxWorkerID := maximum)
      ensures settled ==>
                if maximum < 0 then result == InvalidMaximum && View() == old(View()).(healthy := false)
                else if shuttingDown then result == ShuttingDown && View() == old(View()).(healthy := false)
                else result == Registered(workerID) && View() == old(View())
    {
      if maximum < 0 {
        healthy := false;
        return true, InvalidMaximum;
      }
      if shuttingDown {
        healthy := false;
        return true, ShuttingDown;
      }
      if registered {
        return true, Registered(workerID);
      }
      maxWorkerID := maximum;
      return false, AllOccupied;
    }

    /** The acquisition itself, once nothing speaks against it; in a free store it succeeds. */
    method Acquire(env: Surroundings, maximum: int) returns (result: RegisterResult, probes: nat)
      requires redis.counter >= 0 && generator.Valid()
      requires maximum >= 0 && maxWorkerID == maximum && !registered && !shuttingDown
      modifies this, redis, generator
      ensures generator.Valid() && redis.counter >= 0
      ensures redis.counter == CounterAfter(old(redis.counter), maximum + 1, probes) && probes <= maximum + 1
      ensures result.Registered? ==>
                && probes > 0
                && GrantedAt(env, old(View()), old(redis.keys), old(redis.counter), maximum, probes - 1,
                             result.workerID)
                && generator.View() == G.Switch(generator.config, old(generator.View()), result.workerID)
                && RecordedBy(env, probes - 1) && healthy && heartbeatRunning
                && workerID == result.workerID == (old(redis.counter) + probes - 1) % (maximum + 1)
                && redis.keys == old(redis.keys)[workerID := Record(instanceID, env.served(probes - 1) + ttl)]
                && (maximum <= generator.config.MaxWorker() ==> generator.workerID == workerID)
      ensures !result.Registered? ==>
                redis.keys == old(redis.keys) && generator.View() == old(generator.View())
                && View() == old(View()).(instanceID := instanceID, healthy := old(healthy) && result != AllOccupied)
      ensures result.Registered? || result == AllOccupied || result == Cancelled || result == RedisFailed
      ensures result == AllOccupied ==>
                FirstFree(old(redis.keys), old(redis.counter), maximum + 1, env.served, 0) == maximum + 1
      ensures Conclusive(env, old(redis.keys), old(redis.counter), maximum, result)
      ensures Complete(env, old(redis.keys), maximum) ==> result.Registered?
    {
      result, probes := ProbeUntilGranted(env, maximum);
      if result.Registered? {
        ReturnedValue(old(redis.counter), maximum + 1, probes - 1);
      }
      ConclusiveMeansComplete(env, old(redis.keys), old(redis.counter), maximum, result);
    }

    /** What attempt k leaves behind when it is granted `granted`. */
    ghost predicate GrantedAt(env: Surroundings, before: Manager, keys: Keys<int>, counter: int, maximum: int,
                              k: nat, granted: int)
      requires maximum >= 0
      reads this, redis
    {
      && granted == Probed(counter, maximum + 1, k)
      && 0 <= granted <= maximum
      && !Visible(keys, granted, env.served(k))
      && redis.keys == keys[granted := Record(env.instanceIDs(k), env.served(k) + ttl)]
      && View() == After(before, granted, env.instanceIDs(k), env.captured(k))
    }

    /** The registration is the one that attempt k of a call recorded: store, instance id and lease go together. */
    ghost predicate RecordedBy(env: Surroundings, k: nat)
      reads this, redis
    {
      && registered && instanceID == env.instanceIDs(k) && leaseDeadline == env.captured(k) + ttl
      && workerID in redis.keys && redis.keys[workerID] == Record(instanceID, env.served(k) + ttl)
    }

    /** The store's record for the registered worker id carries the manager's instance id. */
    ghost predicate OwnsKey()
      reads this, redis
    {
      registered && workerID in redis.keys && redis.keys[workerID].instanceID == instanceID
    }

    /** The instance id of an earlier attempt leaves no trace in a registration. */
    lemma {:induction false} GrantedWhateverTag(env: Surroundings, before: Manager, tagged: int, keys: Keys<int>,
                                                counter: int, maximum: int, k: nat, granted: int)
      requires maximum >= 0
      requires GrantedAt(env, before.(instanceID := tagged), keys, counter, maximum, k, granted)
      ensures GrantedAt(env, before, keys, counter, maximum, k, granted)
    {
    }

    /** The loop of a registration: one full cycle of the counter at most. */
    method ProbeUntilGranted(env: Surroundings, maximum: int) returns (result: RegisterResult, probes: nat)
      requires redis.counter >= 0 && generator.Valid()
      requires maximum >= 0 && maxWorkerID == maximum && !registered && !shuttingDown
      modifies this, redis, generator
      ensures generator.Valid() && redis.counter >= 0
      ensures redis.counter == CounterAfter(old(redis.counter), maximum + 1, probes) && probes <= maximum + 1
      ensures result.Registered? ==>
                probes > 0
                && GrantedAt(env, old(View()), old(redis.keys), old(redis.counter), maximum, probes - 1,
                             result.workerID)
                && generator.View() == G.Switch(generator.config, old(generator.View()), result.workerID)
      ensures !result.Registered? ==>
                redis.keys == old(redis.keys) && generator.View() == old(generator.View())
                && View() == old(View()).(instanceID := instanceID, healthy := old(healthy) && result != AllOccupied)
      ensures var first := FirstFree(old(redis.keys), old(redis.counter), maximum + 1, env.served, 0);
              match result
              case Registered(_) => first == probes - 1
              case AllOccupied => first == maximum + 1
              case _ => (result == Cancelled || result == RedisFailed) && exists k: nat :: !Undisturbed(env, k)
    {
      probes := 0;
      ghost var before, keys0, counter0 := View(), redis.keys, redis.counter;
      ghost var first := FirstFree(keys0, counter0, maximum + 1, env.served, 0);
      while probes < maximum + 1
        invariant 0 <= probes <= maximum + 1 && probes <= first
        invariant redis.counter == CounterAfter(counter0, maximum + 1, probes) >= 0
        invariant redis.keys == keys0
        invariant generator.Valid() && generator.View() == old(generator.View())
        invariant View() == before.(instanceID := instanceID)
      {
        var step, used := ProbeOnce(env, probes, maximum, counter0, before);
        match step {
          case Granted(granted) =>
            assert first == probes;
            return Registered(granted), used;
          case Stopped(reason) =>
            return reason, used;
          case Taken =>
            probes := used;
        }
      }
      healthy := false;
      return AllOccupied, probes;
    }

    /** Attempt k, unless the context is found cancelled or the counter cannot be read. */
    method ProbeOnce(env: Surroundings, k: nat, maximum: int, ghost counter0: int, ghost before: Manager)
      returns (step: ProbeStep, used: nat)
      requires generator.Valid() && maximum >= 0 && counter0 >= 0 && maxWorkerID == maximum
      requires redis.counter == CounterAfter(counter0, maximum + 1, k)
      requires View() == before.(instanceID := instanceID)
      modifies this, redis, generator
      ensures generator.Valid() && k <= used <= k + 1 && (used == k ==> step.Stopped?)
      ensures redis.counter == CounterAfter(counter0, maximum + 1, used) >= 0
      ensures step.Granted? ==>
                && GrantedAt(env, before, old(redis.keys), counter0, maximum, k, step.workerID)
                && generator.View() == G.Switch(generator.config, old(generator.View()), step.workerID)
      ensures !step.Granted? ==>
                redis.keys == old(redis.keys) && generator.View() == old(generator.View())
                && View() == before.(instanceID := instanceID)
      ensures step.Taken? ==> Visible(redis.keys, Probed(counter0, maximum + 1, k), env.served(k))
      ensures step.Stopped? ==> !Undisturbed(env, k) && (step.reason == Cancelled || step.reason == RedisFailed)
    {
      ReturnedValue(counter0, maximum + 1, k);
      if env.cancelledBefore(k) || env.incrFails(k) {
        return Stopped(if env.cancelledBefore(k) then Cancelled else RedisFailed), k;
      }
      ghost var tagged, keys0 := instanceID, redis.keys;
      step := ProbeNext(env, k, maximum, counter0);
      used := k + 1;
      if step.Granted? {
        GrantedWhateverTag(env, before, tagged, keys0, counter0, maximum, k, step.workerID);
      }
    }

    /** An id from the counter, and a claim on its key. */
    method ProbeNext(env: Surroundings, k: nat, maximum: int, ghost counter0: int) returns (step: ProbeStep)
      requires generator.Valid() && maximum >= 0 && counter0 >= 0 && maxWorkerID == maximum
      requires redis.counter == CounterAfter(counter0, maximum + 1, k)
      modifies this, redis, generator
      ensures generator.Valid() && redis.counter == CounterAfter(counter0, maximum + 1, k + 1) >= 0
      ensures step.Granted? ==>
                && GrantedAt(env, old(View()), old(redis.keys), counter0, maximum, k, step.workerID)
                && generator.View() == G.Switch(generator.config, old(generator.View()), step.workerID)
      ensures !step.Granted? ==>
                redis.keys == old(redis.keys) && generator.View() == old(generator.View())
                && View() == old(View()).(instanceID := instanceID)
      ensures step.Taken? ==> Visible(redis.keys, Probed(counter0, maximum + 1, k), env.served(k))
      ensures step.Stopped? ==> !Undisturbed(env, k) && (step.reason == Cancelled || step.reason == RedisFailed)
    {
      var candidate := NextCandidate(maximum + 1, counter0, k);
      step := ClaimCandidate(env, k, candidate);
    }

    /** The worker id that the counter hands out next, counted from zero. */
    method NextCandidate(total: int, ghost start: int, ghost k: nat) returns (candidate: int)
      requires total > 0 && start >= 0 && redis.counter == CounterAfter(start, total, k)
      modifies redis`counter
      ensures candidate == Probed(start, total, k) && 0 <= candidate < total
      ensures redis.counter == CounterAfter(start, total, k + 1) >= 0
    {
      ReturnedInRange(start, total, k);
      ReturnedValue(start, total, k + 1);
      var value := redis.EvalIncrWithReset(total);
      return value - 1;
    }

    /** SetNX under a fresh instance id and, when it succeeds, the rest of the registration. */
    method ClaimCandidate(env: Surroundings, k: nat, candidate: int) returns (step: ProbeStep)
      requires generator.Valid()
      modifies this, redis, generator
      ensures generator.Valid() && redis.counter == old(redis.counter)
      ensures step.Granted? ==>
                && step.workerID == candidate && !Visible(old(redis.keys), candidate, env.served(k))
                && redis.keys == old(redis.keys)[candidate := Record(env.instanceIDs(k), env.served(k) + ttl)]
                && View() == FinishRegistration(RecordRegistration(
                               old(View()).(instanceID := env.instanceIDs(k)), candidate, env.captured(k), ttl))
                && generator.View() == G.Switch(generator.config, old(generator.View()), candidate)
      ensures !step.Granted? ==>
                redis.keys == old(redis.keys) && View() == old(View()).(instanceID := env.instanceIDs(k))
                && generator.View() == old(generator.View())
      ensures step.Taken? ==> Visible(old(redis.keys), candidate, env.served(k))
      ensures step.Stopped? ==> !Undisturbed(env, k) && (step.reason == Cancelled || step.reason == RedisFailed)
    {
      TakeInstanceID(env.instanceIDs(k));
      if env.setFails(k) {
        return Stopped(RedisFailed);
      }
      var success := ClaimTagged(candidate, env.served(k), env.captured(k));
      if success {
        return Granted(candidate);
      }
      return if env.cancelledAfter(k) then Stopped(Cancelled) else Taken;
    }

    method TakeInstanceID(generated: int)
      modifies `instanceID
      ensures View() == old(View()).(instanceID := generated)
    {
      instanceID := generated;
    }

    /** SetNX under the present instance id. */
    method ClaimTagged(candidate: int, served: int, captured: int) returns (success: bool)
      requires generator.Valid()
      modifies this, redis, generator
      ensures generator.Valid() && redis.counter == old(redis.counter)
      ensures success == !Visible(old(redis.keys), candidate, served)
      ensures success ==>
                && redis.keys == old(redis.keys)[candidate := Record(old(View()).instanceID, served + ttl)]
                && View() == FinishRegistration(RecordRegistration(old(View()), candidate, captured, ttl))
                && generator.View() == G.Switch(generator.config, old(generator.View()), candidate)
      ensures !success ==>
                redis.keys == old(redis.keys) && View() == old(View()) && generator.View() == old(generator.View())
    {
      success := redis.SetNX(candidate, instanceID, served, ttl);
      if success {
        AcceptGrant(candidate, captured);
      }
    }

    method RecordGrant(granted: int, captured: int)
      modifies `workerID, `registered, `leaseDeadline
      ensures View() == RecordRegistration(old(View()), granted, captured, ttl)
      ensures workerID == granted && registered && leaseDeadline == captured + ttl
    {
      workerID := granted;
      registered := true;
      leaseDeadline := captured + ttl;
    }

    /** The tail of a successful registration: lease, generator, heartbeat, and only then the health flag. */
    method AcceptGrant(granted: int, captured: int)
      requires generator.Valid()
      modifies this, generator
      ensures generator.Valid()
      ensures View() == FinishRegistration(RecordRegistration(old(View()), granted, captured, ttl))
      ensures generator.View() == G.Switch(generator.config, old(generator.View()), granted)
      ensures workerID == granted && registered && healthy && heartbeatRunning && leaseDeadline == captured + ttl
      ensures 0 <= granted <= generator.config.MaxWorker() ==> generator.workerID == granted
    {
      RecordGrant(granted, captured);
      generator.SetWorkerID(granted);
      StartHeartbeatLocked();
      healthy := true;
    }

    /** Claims one given worker id, whatever the shutdown flag says; the generator is left alone. */
    method RegisterSpecificWorkerID(wanted: int, captured: int, served: int, newInstanceID: int, fails: bool)
      returns (ok: bool)
      modifies this, redis
      ensures redis.counter == old(redis.counter)
      ensures wanted < 0 ==> !ok && View() == old(View()).(healthy := false) && redis.keys == old(redis.keys)
      ensures wanted >= 0 && old(registered) ==>
                ok == (old(workerID) == wanted) && View() == old(View()) && redis.keys == old(redis.keys)
      ensures wanted >= 0 && !old(registered) && fails ==>
                !ok && View() == old(View()).(instanceID := newInstanceID) && redis.keys == old(redis.keys)
      ensures wanted >= 0 && !old(registered) && !fails ==>
                && SetReply(redis.keys, ok) == RedisSpec.SetNX(old(redis.keys), wanted, newInstanceID, served, ttl)
                && View() == AfterSpecific(old(View()).(instanceID := newInstanceID), ok, wanted, captured)
      ensures wanted >= 0 && !old(registered) && !fails ==>
                && (ok <==> wanted !in old(redis.keys) || old(redis.keys)[wanted].expiry < served)
                && healthy == ok && registered == ok
                && (if ok then
                      && workerID == wanted && leaseDeadline == captured + ttl && heartbeatRunning
                      && redis.keys == old(redis.keys)[wanted := Record(newInstanceID, served + ttl)]
                    else redis.keys == old(redis.keys) && workerID == old(workerID))
    {
      if wanted < 0 {
        healthy := false;
        return false;
      }
      if registered {
        return workerID == wanted;
      }
      TakeInstanceID(newInstanceID);
      if fails {
        return false;
      }
      ok := redis.SetNX(wanted, instanceID, served, ttl);
      if !ok {
        healthy := false;
        return;
      }
      RecordGrant(wanted, captured);
      healthy := true;
      StartHeartbeatLocked();
    }

    function AfterSpecific(before: Manager, ok: bool, wanted: int, captured: int): Manager {
      if ok then FinishRegistration(RecordRegistration(before, wanted, captured, ttl))
      else before.(healthy := false)
    }

    /** Runs the heartbeat script at `served` and, when it refreshed the key, moves the lease on from `seen`. */
    method SendHeartbeat(served: int, seen: int, fails: bool) returns (ok: bool, code: BeatCode)
      modifies `leaseDeadline, redis
      ensures redis.counter == old(redis.counter)
      ensures old(workerID) == -1 || fails ==> !ok && View() == old(View()) && redis.keys == old(redis.keys)
      ensures old(workerID) != -1 && !fails ==>
                && BeatReply(redis.keys, code) == Heartbeat(old(redis.keys), workerID, instanceID, served, ttl)
                && ok == (code == Refreshed)
                && View() == if ok then old(View()).(leaseDeadline := seen + ttl) else old(View())
      ensures ok <==>
                && workerID != -1 && !fails && workerID in old(redis.keys)
                && served <= old(redis.keys)[workerID].expiry && old(redis.keys)[workerID].instanceID == instanceID
    {
      if workerID == -1 || fails {
        return false, Missing;
      }
      code := redis.EvalHeartbeat(workerID, instanceID, served, ttl);
      if code == Refreshed {
        leaseDeadline := seen + ttl;
      }
      return code == Refreshed, code;
    }

    /** The section that gives a lost worker id up: gate shut, lease gone, loop cancelled. */
    method GiveUpWorkerID()
      modifies `healthy, `leaseDeadline, `workerID, `registered, `cancelled, `heartbeatCtx, `heartbeatRunning
      ensures View() == ResetForRecovery(old(View()))
      ensures !healthy && leaseDeadline == 0 && workerID == -1 && !registered && heartbeatCtx == NoContext
      ensures old(heartbeatCtx.Active?) ==> !heartbeatRunning && cancelled == old(cancelled + {heartbeatCtx.id})
    {
      healthy := false;
      leaseDeadline := 0;
      workerID := -1;
      registered := false;
      StopHeartbeatLocked();
    }

    /**
     * Gives the worker id up and tries three times to get a fresh one; if that fails, recovery goes on
     * in the background with the gate shut. Returns whether a background recovery has to be started.
     */
    method ReacquireFreshWorkerID(env: nat -> Surroundings) returns (ok: bool, spawn: bool)
      requires redis.counter >= 0 && generator.Valid()
      modifies this, redis, generator
      ensures generator.Valid() && redis.counter >= 0
      ensures ok ==> healthy && !spawn && !old(shuttingDown)
      ensures old(maxWorkerID) >= 0 && !old(shuttingDown) && Complete(env(0), old(redis.keys), old(maxWorkerID)) ==> ok
      ensures !ok ==>
                && !healthy && leaseDeadline == 0 && workerID == -1 && !registered
                && heartbeatCtx == NoContext
      ensures ok ==> exists i: nat, k: nat :: i < 3 && RecordedBy(env(i), k)
      ensures ok ==> maxWorkerID == old(maxWorkerID) && 0 <= workerID <= maxWorkerID
      ensures ok && maxWorkerID <= generator.config.MaxWorker() ==> generator.View().workerID == workerID
      ensures !ok ==> redis.keys == old(redis.keys) && generator.View() == old(generator.View())
      ensures !ok ==> View() == ResetForRecovery(old(View())).(instanceID := instanceID, recovering := recovering)
      ensures !ok ==> recovering == (old(recovering) || old(maxWorkerID) >= 0)
      ensures !ok ==> spawn == (recovering && !old(recovering))
    {
      GiveUpWorkerID();
      var maximum := maxWorkerID;
      if maximum < 0 {
        return false, false;
      }
      ok := AttemptRegisterFresh(env, maximum, 3);
      if ok {
        return true, false;
      }
      if recovering {
        return false, false;
      }
      recovering := true;
      return false, true;
    }

    /**
     * After three failed beats: the same worker id again if its key is still the manager's own, a fresh one
     * if the key is gone or taken, and nothing while the store does not answer.
     */
    method TryReRegister(served: int, seen: int, fails: bool, env: nat -> Surroundings)
      returns (ok: bool, spawn: bool)
      requires redis.counter >= 0 && generator.Valid()
      modifies this, redis, generator
      ensures generator.Valid() && redis.counter >= 0
      ensures !old(registered) || old(workerID) < 0 || fails ==>
                !ok && !spawn && View() == old(View()) && redis.keys == old(redis.keys)
                && generator.View() == old(generator.View())
      ensures old(registered) && old(workerID) >= 0 && !fails ==>
                var reply := Heartbeat(old(redis.keys), old(workerID), old(instanceID), served, ttl);
                if reply.code == Refreshed then
                  && ok && !spawn && redis.keys == reply.keys && generator.View() == old(generator.View())
                  && View() == old(View()).(leaseDeadline := seen + ttl)
                else if ok then
                  && healthy && !spawn && !old(shuttingDown)
                  && (exists i: nat, k: nat :: i < 3 && RecordedBy(env(i), k))
                  && maxWorkerID == old(maxWorkerID) && 0 <= workerID <= maxWorkerID
                  && (maxWorkerID <= generator.config.MaxWorker() ==> generator.View().workerID == workerID)
                else
                  && !registered && !healthy && (spawn ==> recovering)
                  && (old(shuttingDown) || old(maxWorkerID) < 0
                      || !Complete(env(0), old(redis.keys), old(maxWorkerID)))
                  && redis.keys == old(redis.keys) && generator.View() == old(generator.View())
    {
      if !registered || workerID < 0 || fails {
        return false, false;
      }
      var code := redis.EvalHeartbeat(workerID, instanceID, served, ttl);
      if code == Refreshed {
        leaseDeadline := seen + ttl;
        return true, false;
      }
      ok, spawn := ReacquireFreshWorkerID(env);
    }

    /** Up to `attempts` full registrations, none once shutdown has been announced. */
    method AttemptRegisterFresh(env: nat -> Surroundings, maximum: int, attempts: nat) returns (ok: bool)
      requires redis.counter >= 0 && generator.Valid()
      requires maximum >= 0 && !registered && !healthy && maxWorkerID == maximum
      modifies this, redis, generator
      ensures generator.Valid() && redis.counter >= 0
      ensures old(shuttingDown) ==> !ok
      ensures !old(shuttingDown) && attempts > 0 && Complete(env(0), old(redis.keys), maximum) ==> ok
      ensures ok ==> healthy && maxWorkerID == maximum && 0 <= workerID <= maximum
      ensures ok ==> exists i: nat, k: nat :: i < attempts && RecordedBy(env(i), k)
      ensures ok && maximum <= generator.config.MaxWorker() ==> generator.View().workerID == workerID
      ensures !ok ==> View() == old(View()).(instanceID := instanceID)
      ensures !ok ==> redis.keys == old(redis.keys) && generator.View() == old(generator.View())
    {
      var i := 0;
      while i < attempts
        invariant 0 <= i <= attempts
        invariant generator.Valid() && redis.counter >= 0
        invariant View() == old(View()).(instanceID := instanceID)
        invariant redis.keys == old(redis.keys) && generator.View() == old(generator.View())
        invariant i > 0 ==> !old(shuttingDown) && !Complete(env(0), old(redis.keys), maximum)
      {
        if shuttingDown {
          return false;
        }
        var result, probes := RegisterWorkerID(env(i), maximum);
        if result.Registered? {
          assert RecordedBy(env(i), probes - 1);
          return true;
        }
        i := i + 1;
      }
      return false;
    }

    /** Announces shutdown, closes the registration under the mutex, and deletes the key if it is still its own. */
    method UnregisterWorkerID(now: int)
      modifies this, redis
      ensures View() == Unregister(old(View()).(shuttingDown := true))
      ensures redis.counter == old(redis.counter)
      ensures redis.keys == if old(registered) then DeleteIfOwned(old(redis.keys), old(workerID), old(instanceID), now)
                            else old(redis.keys)
      ensures shuttingDown && !registered
      ensures old(registered) ==> workerID == -1 && !healthy && heartbeatCtx == NoContext
      ensures old(!registered) ==> healthy == old(healthy) && redis.keys == old(redis.keys)
      ensures forall k ::
                k in old(redis.keys) && (k != old(workerID) || old(redis.keys)[k].instanceID != old(instanceID)) ==>
                k in redis.keys && redis.keys[k] == old(redis.keys)[k]
      ensures redis.keys.Keys <= old(redis.keys).Keys
      ensures old(registered) && old(workerID) in redis.keys
              && redis.keys[old(workerID)].instanceID == old(instanceID) ==>
                redis.keys[old(workerID)].expiry < now
    {
      shuttingDown := true;
      if !registered {
        return;
      }
      var was, id := workerID, instanceID;
      healthy := false;
      StopHeartbeatLocked();
      workerID := -1;
      registered := false;
      redis.DeleteOwned(was, id, now);
    }
  }
}
