/** Runs that break uniqueness as soon as one of the fleet's conditions is given up. */
module FleetLimits {
  import opened Bits
  import G = GeneratorSpec
  import Snowflake
  import opened ManagerSpec
  import opened RedisSpec
  import opened FleetSpec
  import opened FleetInvariant
  import opened FleetTheorems

  ghost predicate Reaches(p: Params, f: Fleet, g: Fleet)
    requires p.Accepted()
  {
    exists steps :: PerformAll(p, f, steps) == g
  }

  lemma {:induction false} ReachesSelf(p: Params, f: Fleet)
    requires p.Accepted()
    ensures Reaches(p, f, f)
  {
    assert PerformAll(p, f, []) == f;
  }

  lemma {:induction false} Then(p: Params, start: Fleet, f: Fleet, step: Step) returns (g: Fleet)
    requires p.Accepted() && Reaches(p, start, f)
    ensures g == Perform(p, f, step) && Reaches(p, start, g)
  {
    g := Perform(p, f, step);
    var steps :| PerformAll(p, start, steps) == f;
    PerformLast(p, start, steps, step);
    assert PerformAll(p, start, steps + [step]) == g;
  }

  // One lemma per kind of step, so that a run mentions only the steps it takes.

  lemma {:induction false} ThenProbeSpecific(p: Params, start: Fleet, f: Fleet, i: nat) returns (g: Fleet)
    requires p.Accepted() && Reaches(p, start, f) && i < |f.instances|
    ensures Reaches(p, start, g) && g == DoProbeSpecific(f, i)
  {
    g := Then(p, start, f, ProbeSpecific(i));
  }

  lemma {:induction false} ThenClaim(p: Params, start: Fleet, f: Fleet, i: nat) returns (g: Fleet)
    requires p.Accepted() && Reaches(p, start, f) && i < |f.instances|
    ensures Reaches(p, start, g) && g == DoClaim(p, f, i, f.now, true)
  {
    g := Then(p, start, f, Claim(i, f.now));
  }

  lemma {:induction false} ThenRecord(p: Params, start: Fleet, f: Fleet, i: nat) returns (g: Fleet)
    requires p.Accepted() && Reaches(p, start, f) && i < |f.instances|
    ensures Reaches(p, start, g) && g == DoRecord(p, f, i)
  {
    g := Then(p, start, f, RecordLocally(i));
  }

  lemma {:induction false} ThenFinish(p: Params, start: Fleet, f: Fleet, i: nat) returns (g: Fleet)
    requires p.Accepted() && Reaches(p, start, f) && i < |f.instances|
    ensures Reaches(p, start, g) && g == DoFinish(f, i, false)
  {
    g := Then(p, start, f, Finish(i));
  }

  lemma {:induction false} ThenBeatRuns(p: Params, start: Fleet, f: Fleet, i: nat) returns (g: Fleet)
    requires p.Accepted() && Reaches(p, start, f) && i < |f.instances|
    ensures Reaches(p, start, g) && g == DoBeatRuns(p, f, i)
  {
    g := Then(p, start, f, BeatRuns(i));
  }

  lemma {:induction false} ThenBeatObserved(p: Params, start: Fleet, f: Fleet, i: nat) returns (g: Fleet)
    requires p.Accepted() && Reaches(p, start, f) && i < |f.instances|
    ensures Reaches(p, start, g) && g == DoBeatObserved(p, f, i)
  {
    g := Then(p, start, f, BeatObserved(i));
  }

  lemma {:induction false} ThenCheckGate(p: Params, start: Fleet, f: Fleet, i: nat) returns (g: Fleet)
    requires p.Accepted() && Reaches(p, start, f) && i < |f.instances|
    ensures Reaches(p, start, g) && g == DoCheckGate(p, f, i)
  {
    g := Then(p, start, f, CheckGate(i));
  }

  lemma {:induction false} ThenAttempt(p: Params, start: Fleet, f: Fleet, i: nat) returns (g: Fleet)
    requires p.Accepted() && Reaches(p, start, f) && i < |f.instances|
    ensures Reaches(p, start, g) && g == DoAttempt(p, f, i)
  {
    g := Then(p, start, f, Attempt(i));
  }

  lemma {:induction false} ThenAnnounce(p: Params, start: Fleet, f: Fleet, i: nat) returns (g: Fleet)
    requires p.Accepted() && Reaches(p, start, f) && i < |f.instances|
    ensures Reaches(p, start, g)
    ensures var x := f.instances[i]; g == With(f, i, x.(manager := x.manager.(shuttingDown := true)))
  {
    g := Then(p, start, f, AnnounceShutdown(i));
  }

  lemma {:induction false} ThenUnregister(p: Params, start: Fleet, f: Fleet, i: nat) returns (g: Fleet)
    requires p.Accepted() && Reaches(p, start, f) && i < |f.instances|
    ensures Reaches(p, start, g) && g == DoUnregisterSection(p, f, i)
  {
    g := Then(p, start, f, UnregisterSection(i));
  }

  lemma {:induction false} ThenDelete(p: Params, start: Fleet, f: Fleet, i: nat) returns (g: Fleet)
    requires p.Accepted() && Reaches(p, start, f) && i < |f.instances|
    ensures Reaches(p, start, g) && g == DoDeleteKey(p, f, i)
  {
    g := Then(p, start, f, DeleteKey(i));
  }

  lemma {:induction false} ThenTick(p: Params, start: Fleet, f: Fleet, ms: nat) returns (g: Fleet)
    requires p.Accepted() && Reaches(p, start, f)
    ensures Reaches(p, start, g) && g == f.(now := f.now + ms)
  {
    g := Then(p, start, f, Tick(ms));
  }

  // The runs below have two instances, both configured with worker id 1 of one datacenter.

  function Both(p: Params): seq<Placement> {
    [Placement(p.config.datacenterID, 1), Placement(p.config.datacenterID, 1)]
  }

  function Start(p: Params): Fleet {
    Launch(p, p.config.epoch, map[], Both(p))
  }

  function Contested(p: Params): Key {
    Key(p.config.datacenterID, 1)
  }

  lemma {:induction false} StartIsValid(p: Params)
    requires p.Accepted()
    ensures ValidLaunch(p, p.config.epoch, map[], Both(p))
    ensures Start(p).instances == [NewInstance(p, Both(p)[0]), NewInstance(p, Both(p)[0])]
  {
    assert Pow2(p.config.layout.workerBits) == 2 * Pow2(p.config.layout.workerBits - 1);
  }

  predicate Untouched(p: Params, x: Instance) {
    x == NewInstance(p, Both(p)[0])
  }

  /** Serving under the contested worker id: registered and healthy, with nothing issued yet. */
  predicate Serving(p: Params, x: Instance, since: int, instanceID: int) {
    && x.datacenter == p.config.datacenterID
    && x.manager.registered && x.manager.healthy && x.manager.workerID == 1 && x.manager.instanceID == instanceID
    && x.manager.leaseDeadline == since + p.ttl
    && !x.manager.shuttingDown
    && x.activity == Idle && !x.full
    && x.generator == G.State(-1, 0, 1, false)
  }

  /** A grantable key that was asked for is granted. */
  lemma {:induction false} ClaimGrants(p: Params, f: Fleet, i: nat)
    requires p.Accepted() && i < |f.instances| && f.now >= 0
    requires f.instances[i].activity.Probing?
    requires Grantable(p, f, Key(f.instances[i].datacenter, f.instances[i].activity.workerID))
    ensures var x := f.instances[i];
            var key := Key(x.datacenter, x.activity.workerID);
            DoClaim(p, f, i, f.now, true)
            == With(GrantKey(p, f, i, key), i,
                    x.(activity := Granted(x.activity.workerID, |f.owners|, f.now, x.activity.specific),
                       lease := f.now + p.ttl, renewed := false))
  {
  }

  /** Everything but instance i, the store's keys and the instance ids is as it was. */
  predicate OnlyInstance(f: Fleet, g: Fleet, i: nat) {
    && g.now == f.now && g.issued == f.issued && |g.instances| == |f.instances|
    && forall j :: 0 <= j < |f.instances| && j != i ==> g.instances[j] == f.instances[j]
  }

  /** The first half of startup: the configured worker id's key is asked for and granted. */
  lemma {:induction false} ClaimConfigured(p: Params, start: Fleet, f: Fleet, i: nat) returns (g: Fleet)
    requires p.Accepted() && Reaches(p, start, f) && i < |f.instances| && f.now >= 0
    requires Untouched(p, f.instances[i]) && Grantable(p, f, Contested(p))
    ensures Reaches(p, start, g) && OnlyInstance(f, g, i)
    ensures g.keys == f.keys[Contested(p) := Record(|f.owners|, f.now + p.ttl)] && Contested(p) in g.grants
    ensures |g.owners| == |f.owners| + 1
    ensures g.instances[i] == f.instances[i].(activity := Granted(1, |f.owners|, f.now, true), started := true,
                                              lease := f.now + p.ttl)
  {
    var probing := ThenProbeSpecific(p, start, f, i);
    var x := f.instances[i].(activity := Probing(1, true), started := true);
    assert probing == With(f, i, x);
    assert probing.instances[i] == x && Grantable(p, probing, Contested(p));
    g := ThenClaim(p, start, probing, i);
    ClaimGrants(p, probing, i);
  }

  /** The second half: the grant is recorded and the manager becomes healthy. */
  lemma {:induction false} CompleteConfigured(p: Params, start: Fleet, f: Fleet, i: nat) returns (g: Fleet)
    requires p.Accepted() && Reaches(p, start, f) && i < |f.instances|
    requires f.instances[i].activity.Granted? && f.instances[i].activity.specific
    ensures Reaches(p, start, g) && OnlyInstance(f, g, i)
    ensures g.keys == f.keys && g.grants == f.grants && g.owners == f.owners
    ensures var x := f.instances[i];
            var m := RecordRegistration(x.manager, x.activity.workerID, x.activity.captured, p.ttl)
                     .(instanceID := x.activity.instanceID);
            g.instances[i] == x.(manager := FinishRegistration(m), activity := Idle)
  {
    g := ThenRecord(p, start, f, i);
    assert g.instances[i].activity == Pushed;
    g := ThenFinish(p, start, g, i);
  }

  /** Startup with the configured worker id, when its key can be granted. */
  lemma {:induction false} StartUp(p: Params, start: Fleet, f: Fleet, i: nat) returns (g: Fleet)
    requires p.Accepted() && Reaches(p, start, f) && i < |f.instances| && f.now >= 0
    requires Untouched(p, f.instances[i]) && Grantable(p, f, Contested(p))
    ensures Reaches(p, start, g) && g.now == f.now && g.issued == f.issued
    ensures |g.instances| == |f.instances| && Serving(p, g.instances[i], f.now, |f.owners|)
    ensures forall j :: 0 <= j < |f.instances| && j != i ==> g.instances[j] == f.instances[j]
    ensures g.keys == f.keys[Contested(p) := Record(|f.owners|, f.now + p.ttl)] && Contested(p) in g.grants
    ensures |g.owners| == |f.owners| + 1
  {
    var claimed := ClaimConfigured(p, start, f, i);
    g := CompleteConfigured(p, start, claimed, i);
  }

  /** A gate check that lets a call pass. */
  lemma {:induction false} PassGate(p: Params, start: Fleet, f: Fleet, i: nat) returns (g: Fleet)
    requires p.Accepted() && Reaches(p, start, f) && i < |f.instances|
    requires GateOpen(p, f.instances[i].manager, f.now)
    ensures Reaches(p, start, g) && g == With(f, i, f.instances[i].(lastGate := f.now))
  {
    g := ThenCheckGate(p, start, f, i);
  }

  /** A generator that has issued nothing starts the present millisecond with sequence number 0. */
  lemma {:induction false} FirstTry(p: Params, now: int)
    requires p.Accepted() && now >= 0
    ensures p.InPlace(p.config.datacenterID) && G.InRange(p.config, G.State(-1, 0, 1, false))
    ensures p.ConfigOf(p.config.datacenterID) == p.config
    ensures G.Try(p.config, G.State(-1, 0, 1, false), now)
            == G.Result(G.State(now, 0, 1, false), G.Issued(Snowflake.Parts(now, p.config.datacenterID, 1, 0)))
  {
    StartIsValid(p);
  }

  /** The next sequence number of the same millisecond, or an overflow wait after the last. */
  lemma {:induction false} NextTry(p: Params, now: int, sequence: nat)
    requires p.Accepted() && now >= 0 && sequence <= p.config.MaxSequence()
    ensures p.InPlace(p.config.datacenterID) && G.InRange(p.config, G.State(now, sequence, 1, false))
    ensures p.ConfigOf(p.config.datacenterID) == p.config
    ensures G.Try(p.config, G.State(now, sequence, 1, false), now)
            == if sequence < p.config.MaxSequence() then
                 G.Result(G.State(now, sequence + 1, 1, false),
                          G.Issued(Snowflake.Parts(now, p.config.datacenterID, 1, sequence + 1)))
               else
                 G.Result(G.State(now, 0, 1, false), G.NeedWait(0))
  {
    StartIsValid(p);
  }

  /** The first identifier of an instance: sequence number 0 of the present millisecond. */
  lemma {:induction false} IssueFirst(p: Params, start: Fleet, f: Fleet, i: nat) returns (g: Fleet)
    requires p.Accepted() && Reaches(p, start, f) && i < |f.instances|
    requires var x := f.instances[i];
             && x.datacenter == p.config.datacenterID && x.generator == G.State(-1, 0, 1, false) && !x.full
             && 0 <= f.now <= x.lastGate + p.issueDelay
    ensures Reaches(p, start, g)
    ensures g == With(f, i, f.instances[i].(generator := G.State(f.now, 0, 1, false)))
                 .(issued := f.issued + [Issue(i, Snowflake.Parts(f.now, p.config.datacenterID, 1, 0))])
  {
    FirstTry(p, f.now);
    g := ThenAttempt(p, start, f, i);
  }

  /** A second instance starts up and issues in the millisecond in which the first one has just issued. */
  lemma {:induction false} SecondIssuesToo(p: Params, start: Fleet, f: Fleet) returns (g: Fleet)
    requires p.Accepted() && p.slack <= p.ttl && Reaches(p, start, f) && f.now >= 0
    requires |f.instances| == 2 && Untouched(p, f.instances[1]) && Grantable(p, f, Contested(p))
    requires f.issued == [Issue(0, Snowflake.Parts(f.now, p.config.datacenterID, 1, 0))]
    ensures Reaches(p, start, g) && !AllDistinct(g.issued)
  {
    g := StartUp(p, start, f, 1);
    g := PassGate(p, start, g, 1);
    g := IssueFirst(p, start, g, 1);
    assert g.issued[0].parts == g.issued[1].parts;
  }

  /** The first instance of the launch, registered at once. */
  lemma {:induction false} FirstServes(p: Params) returns (g: Fleet)
    requires p.Accepted()
    ensures Reaches(p, Start(p), g) && g.now == p.config.epoch && g.issued == [] && |g.instances| == 2
    ensures Serving(p, g.instances[0], g.now, 0) && Untouched(p, g.instances[1])
    ensures g.keys == map[Contested(p) := Record(0, g.now + p.ttl)] && Contested(p) in g.grants
  {
    StartIsValid(p);
    ReachesSelf(p, Start(p));
    g := StartUp(p, Start(p), Start(p), 0);
  }

  /** The first instance has just refreshed its key, for whole seconds, and awaits the answer. */
  lemma {:induction false} BeatInFlight(p: Params) returns (g: Fleet)
    requires p.Accepted()
    ensures Reaches(p, Start(p), g) && g.now == p.config.epoch
    ensures g.issued == [] && |g.instances| == 2 && Untouched(p, g.instances[1])
    ensures var x := g.instances[0];
            x.activity == BeatAnswered(g.now) && Serving(p, x.(activity := Idle), g.now, 0)
    ensures Contested(p) in g.grants
    ensures g.keys == map[Contested(p) := Record(0, p.config.epoch + WholeSeconds(p.ttl))]
  {
    g := FirstServes(p);
    g := ThenBeatRuns(p, Start(p), g, 0);
    assert g.keys[Contested(p)] == Record(0, p.config.epoch + WholeSeconds(p.ttl));
  }

  /** A heartbeat answered as late as allowed sets a deadline counted from then, not from the refresh. */
  lemma {:induction false} LateAnswer(p: Params) returns (g: Fleet)
    requires p.Accepted()
    ensures Reaches(p, Start(p), g) && g.now == p.config.epoch + p.responseDelay
    ensures g.issued == [] && |g.instances| == 2 && Untouched(p, g.instances[1])
    ensures Serving(p, g.instances[0], g.now, 0) && Contested(p) in g.grants
    ensures g.keys == map[Contested(p) := Record(0, p.config.epoch + WholeSeconds(p.ttl))]
  {
    g := BeatInFlight(p);
    g := ThenTick(p, Start(p), g, p.responseDelay);
    g := ThenBeatObserved(p, Start(p), g, 0);
  }

  /** Too little slack: the first instance goes on under a lease deadline that outlasts its key. */
  lemma {:induction false} SlackNeeded(p: Params) returns (g: Fleet)
    requires p.Accepted() && p.slack <= p.ttl
    requires p.slack < p.responseDelay + p.ttl % 1000 + p.issueDelay
    ensures Reaches(p, Start(p), g) && !AllDistinct(g.issued)
  {
    var start := Start(p);
    var expiry := p.config.epoch + WholeSeconds(p.ttl);
    g := LateAnswer(p);
    // the gate closes after lastPass; the collision is at the first moment after expiry and observation
    var lastPass := g.now + p.ttl - p.slack;
    var collision := if expiry + 1 > g.now then expiry + 1 else g.now;
    var pass := if lastPass < collision then lastPass else collision;
    g := ThenTick(p, start, g, pass - g.now);
    g := PassGate(p, start, g, 0);
    g := ThenTick(p, start, g, collision - pass);
    g := IssueFirst(p, start, g, 0);
    g := SecondIssuesToo(p, start, g);
  }

  /** A call that passed the gate is under way when its instance unregisters. */
  lemma {:induction false} UnregisteredUnderCall(p: Params) returns (g: Fleet)
    requires p.Accepted() && p.slack <= p.ttl
    ensures Reaches(p, Start(p), g) && g.now == p.config.epoch
    ensures g.issued == [] && |g.instances| == 2 && Untouched(p, g.instances[1])
    ensures g.keys == map[Contested(p) := Record(0, g.now + p.ttl)] && Contested(p) in g.grants
    ensures var x := g.instances[0];
            && x.datacenter == p.config.datacenterID && x.generator == G.State(-1, 0, 1, false) && !x.full
            && x.lastGate == g.now && x.activity == Deleting(1, 0)
  {
    var start := Start(p);
    g := FirstServes(p);
    g := PassGate(p, start, g, 0);
    g := ThenAnnounce(p, start, g, 0);
    assert Serving(p, g.instances[0].(manager := g.instances[0].manager.(shuttingDown := false)), g.now, 0);
    g := ThenUnregister(p, start, g, 0);
  }

  /** The call is still under way when its instance deletes the key. */
  lemma {:induction false} DeletedUnderCall(p: Params) returns (g: Fleet)
    requires p.Accepted() && p.slack <= p.ttl
    ensures Reaches(p, Start(p), g) && g.now == p.config.epoch
    ensures g.issued == [] && |g.instances| == 2 && Untouched(p, g.instances[1])
    ensures Contested(p) !in g.keys && Contested(p) in g.grants && g.grants[Contested(p)].freed == g.now
    ensures var x := g.instances[0];
            && x.datacenter == p.config.datacenterID && x.generator == G.State(-1, 0, 1, false) && !x.full
            && x.lastGate == g.now
  {
    var f := UnregisteredUnderCall(p);
    assert Visible(f.keys, Contested(p), f.now);
    g := ThenDelete(p, Start(p), f, 0);
  }

  /** Too short a pause after a deletion: a call of the first instance is still under way. */
  lemma {:induction false} RegrantGapNeeded(p: Params) returns (g: Fleet)
    requires p.Accepted() && p.slack <= p.ttl && p.regrantGap <= p.issueDelay
    ensures Reaches(p, Start(p), g) && !AllDistinct(g.issued)
  {
    var start := Start(p);
    g := DeletedUnderCall(p);
    g := ThenTick(p, start, g, p.regrantGap);
    g := IssueFirst(p, start, g, 0);
    g := SecondIssuesToo(p, start, g);
  }

  /** Unregistering while a heartbeat is in flight, when nothing prevents it, deletes the key just refreshed. */
  lemma {:induction false} UnregisteredInFlight(p: Params) returns (g: Fleet)
    requires p.Accepted() && !p.quietUnregister
    ensures Reaches(p, Start(p), g) && g.now == p.config.epoch
    ensures g.issued == [] && |g.instances| == 2 && Untouched(p, g.instances[1])
    ensures Contested(p) !in g.keys && Contested(p) in g.grants && g.grants[Contested(p)].freed == g.now
    ensures var x := g.instances[0];
            && x.datacenter == p.config.datacenterID && x.generator == G.State(-1, 0, 1, false) && !x.full
            && !x.manager.registered && x.activity == BeatAnswered(g.now)
  {
    g := BeatInFlight(p);
    g := ThenAnnounce(p, Start(p), g, 0);
    assert g.instances[0].manager.shuttingDown && Visible(g.keys, Contested(p), g.now);
    g := ThenUnregister(p, Start(p), g, 0);
  }

  /** A heartbeat answered late, after its instance unregistered: healthy again, and the key is gone. */
  lemma {:induction false} AnsweredAfterUnregister(p: Params) returns (g: Fleet)
    requires p.Accepted() && !p.quietUnregister
    ensures Reaches(p, Start(p), g) && g.now == p.config.epoch + p.responseDelay
    ensures g.issued == [] && |g.instances| == 2 && Untouched(p, g.instances[1])
    ensures Contested(p) !in g.keys && Contested(p) in g.grants && g.grants[Contested(p)].freed == p.config.epoch
    ensures var x := g.instances[0];
            && x.datacenter == p.config.datacenterID && x.generator == G.State(-1, 0, 1, false) && !x.full
            && !x.manager.registered && x.manager.healthy && x.manager.leaseDeadline == g.now + p.ttl
  {
    g := UnregisteredInFlight(p);
    g := ThenTick(p, Start(p), g, p.responseDelay);
    g := ThenBeatObserved(p, Start(p), g, 0);
  }

  /**
   * Unregistering over a heartbeat in flight: its answer reopens the gate of an instance without a key, and
   * a call that passes it late is still under way when the key is granted again, unless the pause is longer.
   */
  lemma {:induction false} QuietUnregisterNeeded(p: Params) returns (g: Fleet)
    requires p.Accepted() && p.slack <= p.ttl && !p.quietUnregister && p.regrantGap <= p.issueDelay + p.Aftermath()
    ensures Reaches(p, Start(p), g) && !AllDistinct(g.issued)
  {
    var start := Start(p);
    g := AnsweredAfterUnregister(p);
    // the gate closes after lastPass; the collision is when the key can be granted, or the answer seen
    var lastPass := g.now + p.ttl - p.slack;
    var collision := if p.config.epoch + p.regrantGap > g.now then p.config.epoch + p.regrantGap else g.now;
    var pass := if lastPass < collision then lastPass else collision;
    g := ThenTick(p, start, g, pass - g.now);
    g := PassGate(p, start, g, 0);
    g := ThenTick(p, start, g, collision - pass);
    g := IssueFirst(p, start, g, 0);
    g := SecondIssuesToo(p, start, g);
  }

  /** The identifiers 0..n of one millisecond. */
  function Millisecond(p: Params, now: int, n: nat): (issues: seq<Issue>)
    ensures |issues| == n + 1
    ensures forall k :: 0 <= k <= n ==> issues[k] == Issue(0, Snowflake.Parts(now, p.config.datacenterID, 1, k))
  {
    var last := Issue(0, Snowflake.Parts(now, p.config.datacenterID, 1, n));
    if n == 0 then [last] else Millisecond(p, now, n - 1) + [last]
  }

  lemma {:induction false} IssueMany(p: Params, start: Fleet, f: Fleet, n: nat) returns (g: Fleet)
    requires p.Accepted() && Reaches(p, start, f) && |f.instances| == 2 && f.issued == []
    requires var x := f.instances[0];
             && x.datacenter == p.config.datacenterID && x.generator == G.State(-1, 0, 1, false) && !x.full
             && 0 <= f.now == x.lastGate
    requires n <= p.config.MaxSequence()
    ensures Reaches(p, start, g) && g.issued == Millisecond(p, f.now, n)
    ensures g == f.(instances := g.instances, issued := g.issued)
    ensures g.instances == f.instances[0 := f.instances[0].(generator := G.State(f.now, n, 1, false))]
  {
    if n == 0 {
      FirstTry(p, f.now);
      g := ThenAttempt(p, start, f, 0);
    } else {
      var h := IssueMany(p, start, f, n - 1);
      NextTry(p, f.now, n - 1);
      g := ThenAttempt(p, start, h, 0);
    }
  }

  /** A used-up millisecond without patience: an overflow wait, then sequence number 1 again. */
  lemma {:induction false} StartOver(p: Params, start: Fleet, f: Fleet) returns (g: Fleet)
    requires p.Accepted() && !p.patientRetry && Reaches(p, start, f) && |f.instances| == 2
    requires var x := f.instances[0];
             && x.datacenter == p.config.datacenterID && !x.full && 0 <= f.now == x.lastGate
             && x.generator == G.State(f.now, p.config.MaxSequence(), 1, false)
    ensures Reaches(p, start, g)
    ensures g.issued == f.issued + [Issue(0, Snowflake.Parts(f.now, p.config.datacenterID, 1, 1))]
  {
    assert p.config.MaxSequence() >= 99;
    NextTry(p, f.now, p.config.MaxSequence());
    var h := ThenAttempt(p, start, f, 0);
    assert h.instances[0] == f.instances[0].(generator := G.State(f.now, 0, 1, false), full := true);
    NextTry(p, f.now, 0);
    g := ThenAttempt(p, start, h, 0);
  }

  /** Impatient retries: the clock has not moved on after an overflow wait, and the millisecond starts over. */
  lemma {:induction false} PatientRetryNeeded(p: Params) returns (g: Fleet)
    requires p.Accepted() && p.slack <= p.ttl && !p.patientRetry
    ensures Reaches(p, Start(p), g) && !AllDistinct(g.issued)
  {
    var start := Start(p);
    var m := p.config.MaxSequence();
    assert m >= 99;
    g := FirstServes(p);
    g := PassGate(p, start, g, 0);
    g := IssueMany(p, start, g, m);
    g := StartOver(p, start, g);
    assert g.issued[1].parts == g.issued[m + 1].parts;
  }

  /** No run whatever issues the same parts twice. */
  ghost predicate Safe(p: Params)
    requires p.Accepted()
  {
    forall now, counters, placements, steps :: ValidLaunch(p, now, counters, placements)
      ==> AllDistinct(Reached(p, now, counters, placements, steps).issued)
  }

  lemma {:induction false} UnsafeWhenReached(p: Params, g: Fleet)
    requires p.Accepted() && Reaches(p, Start(p), g) && !AllDistinct(g.issued)
    ensures !Safe(p)
  {
    StartIsValid(p);
    var steps :| PerformAll(p, Start(p), steps) == g;
    assert Reached(p, p.config.epoch, map[], Both(p), steps) == g;
  }

  /**
   * The fleet is safe exactly when it is careful, or when its gates never open: each of the conditions is
   * needed, whatever the generator settings, the TTL, the delays and the pause are.
   */
  lemma {:induction false} SafeExactlyWhenCareful(p: Params)
    requires p.Accepted()
    ensures Safe(p) <==> p.Careful() || p.slack > p.ttl
  {
    if p.Careful() || p.slack > p.ttl {
      forall now, counters, placements, steps | ValidLaunch(p, now, counters, placements)
        ensures AllDistinct(Reached(p, now, counters, placements, steps).issued)
      {
        if p.Careful() {
          ReachedIsSound(p, now, counters, placements, steps);
        } else {
          ReachedIsSilent(p, now, counters, placements, steps);
        }
      }
    } else {
      var g := Unsafe(p);
      UnsafeWhenReached(p, g);
    }
  }

  lemma {:induction false} ReachedIsSilent(p: Params, now: int, counters: map<int, int>, placements: seq<Placement>,
                                           steps: seq<Step>)
    requires p.Accepted() && p.slack > p.ttl && ValidLaunch(p, now, counters, placements)
    ensures Reached(p, now, counters, placements, steps).issued == []
  {
    ReachedIsLeased(p, now, counters, placements, []);
    assert p.config.epoch >= 0;
    StaysSilent(p, Launch(p, now, counters, placements), steps);
  }

  /** A careless fleet with gates that open repeats itself in some run. */
  lemma {:induction false} Unsafe(p: Params) returns (g: Fleet)
    requires p.Accepted() && !p.Careful() && p.slack <= p.ttl
    ensures Reaches(p, Start(p), g) && !AllDistinct(g.issued)
  {
    if p.slack < p.responseDelay + p.ttl % 1000 + p.issueDelay {
      g := SlackNeeded(p);
    } else if !p.patientRetry {
      g := PatientRetryNeeded(p);
    } else if p.quietUnregister {
      g := RegrantGapNeeded(p);
    } else {
      g := QuietUnregisterNeeded(p);
    }
  }
}
