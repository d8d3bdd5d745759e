/** The plugin: startup that links manager and generator, one heartbeat tick, and the gate before generation. */
module PluginObject {
  import opened ManagerSpec
  import opened RedisSpec
  import opened Snowflake
  import G = GeneratorSpec
  import opened GeneratorObject
  import opened WorkerManagerObject

  /** What the environment contributes to a script: when it runs, when its answer is seen, or that it fails. */
  datatype Script = Script(served: int, seen: int, fails: bool)

  datatype PluginResult = Unhealthy | Generated(outcome: G.Outcome, id: int)

  class PlugSnowflake {
    const generator: Generator
    const workerManager: WorkerIDManager

    constructor (generator: Generator, workerManager: WorkerIDManager)
      ensures this.generator == generator && this.workerManager == workerManager
    {
      this.generator, this.workerManager := generator, workerManager;
    }

    ghost predicate Valid()
      reads this, generator, generator.sequenceCache, workerManager, workerManager.redis
    {
      && generator.Valid()
      && workerManager.generator == generator
      && workerManager.redis.counter >= 0
    }

    /** Manager and generator agree on a worker id within range. */
    ghost predicate Linked()
      reads this, generator, workerManager
    {
      && generator.config.Accepted()
      && workerManager.registered
      && generator.workerID == workerManager.workerID
      && 0 <= workerManager.workerID <= generator.config.MaxWorker()
    }

    /**
     * Startup: the configured worker id first, if there is one, then any free one. When it succeeds,
     * manager and generator carry the same worker id.
     */
    method Startup(configured: int, specific: Script, instanceID: int, env: Surroundings) returns (ok: bool)
      requires Valid() && !workerManager.registered && generator.workerID == configured
      modifies workerManager, workerManager.redis, generator
      ensures Valid()
      ensures ok ==> Linked() && workerManager.OwnsKey() && workerManager.healthy
      ensures !ok ==> !workerManager.registered
      ensures workerManager.maxWorkerID == generator.config.MaxWorker()
      ensures configured > 0 && !specific.fails
              && (configured !in old(workerManager.redis.keys)
                  || old(workerManager.redis.keys)[configured].expiry < specific.served) ==>
                && ok && workerManager.workerID == configured && workerManager.instanceID == instanceID
                && workerManager.redis.keys == old(workerManager.redis.keys)[
                     configured := Record(instanceID, specific.served + workerManager.ttl)]
                && workerManager.redis.counter == old(workerManager.redis.counter)
                && workerManager.leaseDeadline == specific.seen + workerManager.ttl
      ensures configured <= 0 || specific.fails
              || (configured in old(workerManager.redis.keys)
                  && specific.served <= old(workerManager.redis.keys)[configured].expiry) ==>
                && (ok ==> exists k: nat :: FromCounter(env, k, old(workerManager.redis.counter)))
                && (ok ==> !old(workerManager.shuttingDown))
                && (!ok ==> old(workerManager.shuttingDown)
                            || !Complete(env, old(workerManager.redis.keys), generator.config.MaxWorker()))
    {
      workerManager.maxWorkerID := generator.config.MaxWorker();
      ok := false;
      if configured > 0 {
        ok := workerManager.RegisterSpecificWorkerID(configured, specific.seen, specific.served, instanceID,
                                                     specific.fails);
      }
      if !ok {
        ok := AutoRegister(env);
      }
    }

    /** The registration is that of attempt k, under the id that the counter was due to return then. */
    ghost predicate FromCounter(env: Surroundings, k: nat, counter: int)
      requires generator.config.Accepted()
      reads this, workerManager, workerManager.redis, generator
    {
      workerManager.RecordedBy(env, k) && workerManager.workerID == (counter + k) % (generator.config.MaxWorker() + 1)
    }

    /** Any free worker id, which the generator is given once more after the callback. */
    method AutoRegister(env: Surroundings) returns (ok: bool)
      requires Valid() && !workerManager.registered
      modifies workerManager, workerManager.redis, generator
      ensures Valid()
      ensures workerManager.maxWorkerID == if old(workerManager.shuttingDown) then old(workerManager.maxWorkerID)
                                           else generator.config.MaxWorker()
      ensures ok ==> Linked() && workerManager.OwnsKey() && workerManager.healthy
      ensures ok ==> exists k: nat :: FromCounter(env, k, old(workerManager.redis.counter))
      ensures ok ==> !old(workerManager.shuttingDown)
      ensures !ok ==> !workerManager.registered
      ensures !ok ==> old(workerManager.shuttingDown)
                      || !Complete(env, old(workerManager.redis.keys), generator.config.MaxWorker())
    {
      var result, probes := workerManager.RegisterWorkerID(env, generator.config.MaxWorker());
      ok := result.Registered?;
      if ok {
        generator.workerID := result.workerID;
        assert workerManager.RecordedBy(env, probes - 1);
        assert FromCounter(env, probes - 1, old(workerManager.redis.counter));
      }
    }

    /**
     * Shutdown: the worker id is given back, then the generator is stopped and answers no attempt any more,
     * whatever the gate says.
     */
    method StopCleanup(now: int)
      requires Valid()
      modifies workerManager, workerManager.redis, generator
      ensures Valid()
      ensures workerManager.View() == Unregister(old(workerManager.View()).(shuttingDown := true))
      ensures generator.View() == old(generator.View()).(shuttingDown := true)
      ensures workerManager.redis.keys ==
                if old(workerManager.registered)
                then DeleteIfOwned(old(workerManager.redis.keys), old(workerManager.workerID),
                                   old(workerManager.instanceID), now)
                else old(workerManager.redis.keys)
      ensures workerManager.shuttingDown && !workerManager.registered && generator.isShuttingDown
      ensures var before, after := old(workerManager.redis.keys), workerManager.redis.keys;
              var w, id := old(workerManager.workerID), old(workerManager.instanceID);
              && after.Keys <= before.Keys
              && (forall k :: k in before && (k != w || before[k].instanceID != id) ==>
                    k in after && after[k] == before[k])
              && (old(workerManager.registered) && w in after && after[w].instanceID == id ==> after[w].expiry < now)
      ensures forall reading :: G.Try(generator.config, generator.View(), reading).outcome == G.Failed(G.ShuttingDown)
    {
      workerManager.UnregisterWorkerID(now);
      generator.Shutdown();
    }

    /** Generation behind the gate: with the gate shut the generator is not touched. */
    method GenerateID(now: int, env: Environment) returns (result: PluginResult, attempts: nat)
      requires Valid()
      modifies workerManager`healthy, generator, generator.sequenceCache
      ensures Valid()
      ensures Gate(workerManager.View(), !result.Unhealthy?) == IsHealthy(old(workerManager.View()), now)
      ensures !result.Unhealthy? <==>
                && old(workerManager.healthy)
                && (workerManager.leaseDeadline == 0 || now <= workerManager.leaseDeadline)
      ensures result.Unhealthy? ==> generator.View() == old(generator.View())
      ensures result.Generated? ==>
                && generator.View() == StateAfter(generator.config, old(generator.View()), env, attempts)
                && EndsWith(generator.config, old(generator.View()), env, attempts, result.outcome)
                && generator.IsIdentifierOf(result.outcome, result.id)
                && (result.outcome.Issued? ==>
                      result.id == Pack(generator.config.layout, generator.config.epoch, result.outcome.parts))
    {
      var open := workerManager.IsHealthyNow(now);
      if !open {
        return Unhealthy, 0;
      }
      var outcome, id, slept;
      outcome, id, attempts, slept := generator.GenerateID(env);
      result := Generated(outcome, id);
    }

    /** The script finds the key still its own. */
    predicate Refreshes(keys: Keys<int>, m: Manager, script: Script) {
      && m.workerID != -1 && !script.fails
      && Heartbeat(keys, m.workerID, m.instanceID, script.served, workerManager.ttl).code == Refreshed
    }

    /** There is a worker id to register again. */
    predicate HasWorkerID(m: Manager) {
      m.registered && m.workerID >= 0
    }

    /** The script has renewed the key and its answer the lease. */
    ghost predicate Renewed(m: Manager, keys: Keys<int>, script: Script)
      reads this, workerManager, workerManager.redis
    {
      && workerManager.View() == BeatSucceeds(m, script.seen, workerManager.ttl)
      && workerManager.redis.keys
         == Heartbeat(keys, m.workerID, m.instanceID, script.served, workerManager.ttl).keys
    }

    /** Everything but the gate flag is as it was, and the flag is down. */
    ghost predicate OnlyShut(m: Manager, keys: Keys<int>, g: G.State)
      reads this, workerManager, workerManager.redis, generator
    {
      workerManager.View() == m.(healthy := false) && workerManager.redis.keys == keys && generator.View() == g
    }

    /** One beat, and the gate flag that follows from it. */
    method BeatOnce(beat: Script) returns (ok: bool)
      modifies workerManager, workerManager.redis
      ensures workerManager.redis.counter == old(workerManager.redis.counter)
      ensures var m, keys := old(workerManager.View()), old(workerManager.redis.keys);
              if Refreshes(keys, m, beat) then ok && Renewed(m, keys, beat)
              else !ok && OnlyShut(m, keys, old(generator.View()))
      ensures workerManager.healthy == ok
      ensures ok ==> workerManager.leaseDeadline == beat.seen + workerManager.ttl
      ensures ok <==>
                var keys, id := old(workerManager.redis.keys), workerManager.workerID;
                && id != -1 && !beat.fails && id in keys && beat.served <= keys[id].expiry
                && keys[id].instanceID == workerManager.instanceID
    {
      var code;
      ok, code := workerManager.SendHeartbeat(beat.served, beat.seen, beat.fails);
      workerManager.healthy := ok;
    }

    /**
     * One tick of the heartbeat loop. The first failure shuts the gate; the third in a row tries to
     * register again, under the same id if the key is still its own and otherwise under a fresh one.
     * The gate flag is set exactly when the failures are forgotten.
     */
    method HeartbeatTick(failures: nat, beat: Script, retry: Script, env: nat -> Surroundings)
      returns (failuresAfter: nat, spawn: bool)
      requires Valid()
      modifies workerManager, workerManager.redis, generator
      ensures Valid()
      ensures workerManager.healthy <==> failuresAfter == 0
      ensures failuresAfter == 0 || failuresAfter == failures + 1
      ensures workerManager.healthy && workerManager.registered ==> workerManager.OwnsKey()
      ensures old(Linked()) && old(workerManager.maxWorkerID) <= generator.config.MaxWorker() ==>
                workerManager.registered ==> Linked()
      ensures spawn ==> !workerManager.healthy && !workerManager.registered && workerManager.recovering
      ensures failures + 1 >= 3 && old(Recoverable(retry, env(0))) ==> failuresAfter == 0
      ensures var m, keys, g := old(workerManager.View()), old(workerManager.redis.keys), old(generator.View());
              if Refreshes(keys, m, beat) then Renewed(m, keys, beat) && generator.View() == g
              else if failures + 1 < 3 then OnlyShut(m, keys, g)
              else Retried(m, keys, g, retry, env, failuresAfter == 0)
    {
      var ok := BeatOnce(beat);
      if ok {
        return 0, false;
      }
      if failures + 1 < 3 {
        return failures + 1, false;
      }
      ghost var m := old(workerManager.View());
      var again;
      again, spawn := Retry(retry, env);
      RetriedWhateverFlag(m, old(workerManager.redis.keys), old(generator.View()), retry, env, again);
      return if again then 0 else failures + 1, spawn;
    }

    /** The gate flag from before plays no part in a retry. */
    lemma {:induction false} RetriedWhateverFlag(m: Manager, keys: Keys<int>, g: G.State, retry: Script,
                                                 env: nat -> Surroundings, again: bool)
      requires Retried(m.(healthy := false), keys, g, retry, env, again)
      ensures Retried(m, keys, g, retry, env, again)
    {
    }

    /**
     * What the third failure leaves: an own key renewed, nothing but a shut gate while there is no worker
     * id or no answer, a fresh worker id as one of the registrations recorded it, or no registration.
     */
    ghost predicate Retried(m: Manager, keys: Keys<int>, g: G.State, retry: Script, env: nat -> Surroundings,
                            again: bool)
      reads this, workerManager, workerManager.redis, generator
    {
      if HasWorkerID(m) && Refreshes(keys, m, retry) then again && Renewed(m, keys, retry) && generator.View() == g
      else if !HasWorkerID(m) || retry.fails then !again && OnlyShut(m, keys, g)
      else if again then exists i: nat, k: nat :: i < 3 && workerManager.RecordedBy(env(i), k)
      else !workerManager.registered && workerManager.redis.keys == keys && generator.View() == g
    }

    /** Registering again is bound to work: the key is still its own, or a fresh worker id can be had at once. */
    ghost predicate Recoverable(retry: Script, env: Surroundings)
      reads this, workerManager, workerManager.redis
    {
      var keys, id := workerManager.redis.keys, workerManager.workerID;
      && workerManager.registered && id >= 0 && !retry.fails
      && (|| (id in keys && retry.served <= keys[id].expiry && keys[id].instanceID == workerManager.instanceID)
          || (&& !workerManager.shuttingDown && workerManager.maxWorkerID >= 0
              && Complete(env, keys, workerManager.maxWorkerID)))
    }

    /** The third failure in a row, with the gate already shut. */
    method Retry(retry: Script, env: nat -> Surroundings) returns (again: bool, spawn: bool)
      requires Valid() && !workerManager.healthy
      modifies workerManager, workerManager.redis, generator
      ensures Valid() && workerManager.healthy == again
      ensures again ==> workerManager.OwnsKey()
      ensures again ==> old(workerManager.registered) && !retry.fails
      ensures old(Recoverable(retry, env(0))) ==> again
      ensures spawn ==> !again && !workerManager.registered && workerManager.recovering
      ensures old(Linked()) && old(workerManager.maxWorkerID) <= generator.config.MaxWorker() ==>
                workerManager.registered ==> Linked()
      ensures Retried(old(workerManager.View()), old(workerManager.redis.keys), old(generator.View()),
                      retry, env, again)
    {
      ghost var m := workerManager.View();
      ghost var refreshed := HasWorkerID(m) && Refreshes(workerManager.redis.keys, m, retry);
      again, spawn := workerManager.TryReRegister(retry.served, retry.seen, retry.fails, env);
      if again {
        ghost var i: nat, k: nat := 0, 0;
        if !refreshed {
          i, k :| i < 3 && workerManager.RecordedBy(env(i), k);
        }
        workerManager.healthy := true;
        assert refreshed || workerManager.RecordedBy(env(i), k);
      }
    }
  }
}
