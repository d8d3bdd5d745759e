/** A run that recovers: an instance whose key has expired goes on under a fresh worker id. */
module FleetRecovery {
  import G = GeneratorSpec
  import opened RedisSpec
  import opened FleetSpec
  import opened FleetLimits

  lemma {:induction false} ThenLose(p: Params, start: Fleet, f: Fleet, i: nat) returns (g: Fleet)
    requires p.Accepted() && Reaches(p, start, f) && i < |f.instances|
    ensures Reaches(p, start, g) && g == DoLoseWorkerID(f, i)
  {
    g := Then(p, start, f, LoseWorkerID(i));
  }

  lemma {:induction false} ThenProbe(p: Params, start: Fleet, f: Fleet, i: nat) returns (g: Fleet)
    requires p.Accepted() && Reaches(p, start, f) && i < |f.instances|
    ensures Reaches(p, start, g) && g == DoProbe(p, f, i)
  {
    g := Then(p, start, f, Probe(i));
  }

  lemma {:induction false} ThenPush(p: Params, start: Fleet, f: Fleet, i: nat) returns (g: Fleet)
    requires p.Accepted() && Reaches(p, start, f) && i < |f.instances|
    ensures Reaches(p, start, g) && g == DoPush(p, f, i)
  {
    g := Then(p, start, f, Push(i));
  }

  lemma {:induction false} ThenFinishInLoop(p: Params, start: Fleet, f: Fleet, i: nat) returns (g: Fleet)
    requires p.Accepted() && Reaches(p, start, f) && i < |f.instances|
    ensures Reaches(p, start, g) && g == DoFinish(f, i, true)
  {
    g := Then(p, start, f, FinishInLoop(i));
  }

  lemma {:induction false} ThenRestore(p: Params, start: Fleet, f: Fleet, i: nat) returns (g: Fleet)
    requires p.Accepted() && Reaches(p, start, f) && i < |f.instances|
    ensures Reaches(p, start, g) && g == DoRestore(f, i)
  {
    g := Then(p, start, f, Restore(i));
  }

  /** The expired worker id is given up: unregistered, the gate shut. */
  lemma {:induction false} GivesUp(p: Params) returns (g: Fleet)
    requires p.Accepted()
    ensures Reaches(p, Start(p), g) && |g.instances| == 2 && g.now == p.config.epoch + p.ttl + 1
    ensures g.keys == map[Contested(p) := Record(0, p.config.epoch + p.ttl)]
    ensures g.grants.Keys == {Contested(p)} && g.counters == map[] && |g.owners| == 1
    ensures var x := g.instances[0];
            && x.datacenter == p.config.datacenterID && x.generator == G.State(-1, 0, 1, false)
            && x.activity == Idle && !x.manager.registered && !x.manager.shuttingDown && !x.manager.healthy
            && x.manager.workerID == -1 && !x.manager.heartbeatRunning
  {
    g := FirstServesAlone(p);
    g := ThenTick(p, Start(p), g, p.ttl + 1);
    g := ThenLose(p, Start(p), g, 0);
  }

  /** The first instance serves on a store with nothing but its key. */
  lemma {:induction false} FirstServesAlone(p: Params) returns (g: Fleet)
    requires p.Accepted()
    ensures Reaches(p, Start(p), g) && g.now == p.config.epoch && |g.instances| == 2
    ensures Serving(p, g.instances[0], g.now, 0) && g.instances[0].manager.heartbeat.Active?
    ensures g.keys == map[Contested(p) := Record(0, g.now + p.ttl)] && g.grants.Keys == {Contested(p)}
    ensures g.counters == map[] && |g.owners| == 1
  {
    StartIsValid(p);
    ReachesSelf(p, Start(p));
    g := ThenProbeSpecific(p, Start(p), Start(p), 0);
    g := ThenClaim(p, Start(p), g, 0);
    g := ThenRecord(p, Start(p), g, 0);
    g := ThenFinish(p, Start(p), g, 0);
  }

  /** The counter's next id is probed and its key granted. */
  lemma {:induction false} ClaimsFresh(p: Params) returns (g: Fleet)
    requires p.Accepted()
    ensures Reaches(p, Start(p), g) && |g.instances| == 2 && g.now == p.config.epoch + p.ttl + 1
    ensures var key := Key(p.config.datacenterID, 0);
            key in g.keys && g.keys[key] == Record(1, g.now + p.ttl)
    ensures var x := g.instances[0];
            && x.datacenter == p.config.datacenterID && x.generator == G.State(-1, 0, 1, false)
            && x.activity == Granted(0, 1, g.now, false)
            && !x.manager.registered && !x.manager.healthy && !x.manager.heartbeatRunning
  {
    g := GivesUp(p);
    assert p.config.epoch >= 0;
    g := ThenProbe(p, Start(p), g, 0);
    assert g.instances[0].activity == Probing(0, false);
    g := ThenClaim(p, Start(p), g, 0);
  }

  /** The granted id is recorded and handed to the generator. */
  lemma {:induction false} TakesFresh(p: Params) returns (g: Fleet)
    requires p.Accepted()
    ensures Reaches(p, Start(p), g) && |g.instances| == 2 && g.now == p.config.epoch + p.ttl + 1
    ensures var key := Key(p.config.datacenterID, 0);
            key in g.keys && g.keys[key] == Record(1, g.now + p.ttl)
    ensures var x := g.instances[0];
            && x.datacenter == p.config.datacenterID && x.generator == G.State(-1, 0, 0, false) && x.activity == Pushed
            && x.manager.registered && x.manager.workerID == 0 && x.manager.instanceID == 1
            && x.manager.leaseDeadline == g.now + p.ttl && !x.manager.healthy && !x.manager.heartbeatRunning
  {
    g := ClaimsFresh(p);
    g := ThenRecord(p, Start(p), g, 0);
    g := ThenPush(p, Start(p), g, 0);
  }

  /**
   * Recovery works, for every TTL and every setting: after its key has expired an instance is registered,
   * healthy and in step with its generator under a fresh id, whose key is its own, and its gate is open.
   */
  lemma {:induction false} RecoversUnderFreshID(p: Params) returns (g: Fleet)
    requires p.Accepted() && p.slack <= p.ttl
    ensures Reaches(p, Start(p), g) && |g.instances| == 2 && g.now == p.config.epoch + p.ttl + 1
    ensures var x := g.instances[0];
            && x.activity == Idle && x.manager.registered && x.manager.healthy && x.manager.heartbeatRunning
            && x.manager.workerID == x.generator.workerID == 0 && GateOpen(p, x.manager, g.now)
            && Key(x.datacenter, 0) in g.keys
            && g.keys[Key(x.datacenter, 0)] == Record(x.manager.instanceID, g.now + p.ttl)
  {
    g := TakesFresh(p);
    g := ThenFinishInLoop(p, Start(p), g, 0);
    g := ThenRestore(p, Start(p), g, 0);
  }

  lemma {:induction false} ThenClaimUnanswered(p: Params, start: Fleet, f: Fleet, i: nat) returns (g: Fleet)
    requires p.Accepted() && Reaches(p, start, f) && i < |f.instances|
    ensures Reaches(p, start, g) && g == DoClaim(p, f, i, f.now, false)
  {
    g := Then(p, start, f, ClaimUnanswered(i));
  }

  lemma {:induction false} ThenBeatFails(p: Params, start: Fleet, f: Fleet, i: nat) returns (g: Fleet)
    requires p.Accepted() && Reaches(p, start, f) && i < |f.instances|
    ensures Reaches(p, start, g) && g == DoBeatFails(f, i)
  {
    g := Then(p, start, f, BeatFails(i));
  }

  lemma {:induction false} ThenGiveUp(p: Params, start: Fleet, f: Fleet, i: nat) returns (g: Fleet)
    requires p.Accepted() && Reaches(p, start, f) && i < |f.instances|
    ensures Reaches(p, start, g) && g == DoGiveUp(f, i)
  {
    g := Then(p, start, f, GiveUp(i));
  }

  /** A claim takes its key, but its answer is lost. */
  lemma {:induction false} AnswerIsLost(p: Params) returns (g: Fleet)
    requires p.Accepted()
    ensures Reaches(p, Start(p), g) && |g.instances| == 2 && g.now == p.config.epoch + p.ttl && g.counters == map[]
    ensures g.keys == map[Contested(p) := Record(0, g.now)] && g.grants.Keys == {Contested(p)}
    ensures !g.instances[0].manager.registered && g.instances[0].activity == Idle && Untouched(p, g.instances[1])
  {
    StartIsValid(p);
    ReachesSelf(p, Start(p));
    assert p.config.epoch >= 0;
    g := ThenProbeSpecific(p, Start(p), Start(p), 0);
    g := ThenClaimUnanswered(p, Start(p), g, 0);
    g := ThenTick(p, Start(p), g, p.ttl);
  }

  /**
   * A claim whose answer is lost keeps its key from everybody for a TTL: the claimant is not registered,
   * and the other instance finds the key taken and moves on to the counter.
   */
  lemma {:induction false} LostAnswerBlocksKey(p: Params) returns (g: Fleet)
    requires p.Accepted()
    ensures Reaches(p, Start(p), g) && |g.instances| == 2 && g.now == p.config.epoch + p.ttl
    ensures g.keys == map[Contested(p) := Record(0, g.now)]
    ensures !g.instances[0].manager.registered && g.instances[0].activity == Idle
    ensures !g.instances[1].manager.registered && g.instances[1].activity == Probing(0, false)
  {
    g := AnswerIsLost(p);
    g := ThenProbeSpecific(p, Start(p), g, 1);
    g := ThenClaim(p, Start(p), g, 1);
    g := ThenProbe(p, Start(p), g, 1);
  }

  /** One failed heartbeat shuts the gate of a serving instance at once. */
  lemma {:induction false} FailedBeatShutsGate(p: Params) returns (g: Fleet)
    requires p.Accepted()
    ensures Reaches(p, Start(p), g) && |g.instances| == 2 && g.now == p.config.epoch
    ensures g.instances[0].manager.registered && !GateOpen(p, g.instances[0].manager, g.now)
  {
    g := FirstServesAlone(p);
    g := ThenBeatFails(p, Start(p), g, 0);
  }

  /** A registration may end in mid-probe, with nothing registered and no key taken. */
  lemma {:induction false} ProbeMayGiveUp(p: Params) returns (g: Fleet)
    requires p.Accepted()
    ensures Reaches(p, Start(p), g) && |g.instances| == 2 && g.keys == map[]
    ensures g.instances[0].started && g.instances[0].activity == Idle && !g.instances[0].manager.registered
  {
    StartIsValid(p);
    ReachesSelf(p, Start(p));
    g := ThenProbeSpecific(p, Start(p), Start(p), 0);
    g := ThenGiveUp(p, Start(p), g, 0);
  }
}
