/** Exactly when an open gate can be trusted: for each of its conditions, a run that shows it is needed. */
module FleetGate {
  import opened ManagerSpec
  import opened RedisSpec
  import opened FleetSpec
  import opened FleetTheorems
  import opened FleetLimits

  // ----- Ownership -----

  /** In every reachable state every instance with an open gate owns its worker id. */
  ghost predicate GateMeansOwned(p: Params)
    requires p.Accepted()
  {
    forall now, counters, placements, steps, i: nat :: ValidLaunch(p, now, counters, placements)
      ==> var f := Reached(p, now, counters, placements, steps);
          i < |f.instances| && GateOpen(p, f.instances[i].manager, f.now) ==> Owns(p, f, i)
  }

  /** A run of the launch, put in the terms of the theorems. */
  lemma {:induction false} ReachedFromStart(p: Params, g: Fleet) returns (steps: seq<Step>)
    requires p.Accepted() && Reaches(p, Start(p), g)
    ensures ValidLaunch(p, p.config.epoch, map[], Both(p))
    ensures Reached(p, p.config.epoch, map[], Both(p), steps) == g
  {
    StartIsValid(p);
    steps :| PerformAll(p, Start(p), steps) == g;
  }

  /** The first moment at which the key of the late answer is gone, or the answer's own if that is later. */
  lemma {:induction false} KeyGone(p: Params) returns (g: Fleet)
    requires p.Accepted()
    ensures Reaches(p, Start(p), g) && g.issued == [] && |g.instances| == 2 && Untouched(p, g.instances[1])
    ensures Serving(p, g.instances[0], p.config.epoch + p.responseDelay, 0)
    ensures Contested(p) in g.grants
    ensures g.keys == map[Contested(p) := Record(0, p.config.epoch + WholeSeconds(p.ttl))]
    ensures var expiry, seen := p.config.epoch + WholeSeconds(p.ttl), p.config.epoch + p.responseDelay;
            g.now == if expiry + 1 > seen then expiry + 1 else seen
  {
    g := LateAnswer(p);
    var expiry := p.config.epoch + WholeSeconds(p.ttl);
    if expiry + 1 > g.now {
      g := ThenTick(p, Start(p), g, expiry + 1 - g.now);
    }
  }

  /** The bound on a renewed lease is attained. */
  lemma {:induction false} DeadlineBoundAttained(p: Params) returns (g: Fleet)
    requires p.Accepted()
    ensures Reaches(p, Start(p), g) && |g.instances| == 2 && Contested(p) in g.keys
    ensures g.instances[0].manager.registered && g.instances[0].manager.workerID == 1
    ensures g.instances[0].manager.leaseDeadline == g.keys[Contested(p)].expiry + p.responseDelay + p.ttl % 1000
  {
    g := LateAnswer(p);
  }

  /**
   * An open gate means ownership if and only if the slack covers a late answer and the lost fraction and
   * unregistration does not overtake a heartbeat, or the gate never opens because the slack exceeds the TTL.
   */
  lemma {:induction false} GateMeansOwnedIff(p: Params)
    requires p.Accepted()
    ensures GateMeansOwned(p) <==> p.Trusted() || p.slack > p.ttl
  {
    if p.slack > p.ttl {
      forall now, counters, placements, steps, i: nat | ValidLaunch(p, now, counters, placements)
        ensures var f := Reached(p, now, counters, placements, steps);
                i < |f.instances| ==> !GateOpen(p, f.instances[i].manager, f.now)
      {
        NeverOpen(p, now, counters, placements, steps, i);
      }
    } else if p.Trusted() {
      forall now, counters, placements, steps, i: nat | ValidLaunch(p, now, counters, placements)
        ensures var f := Reached(p, now, counters, placements, steps);
                i < |f.instances| && GateOpen(p, f.instances[i].manager, f.now) ==> Owns(p, f, i)
      {
        var f := Reached(p, now, counters, placements, steps);
        if i < |f.instances| && GateOpen(p, f.instances[i].manager, f.now) {
          GateOpenMeansOwned(p, now, counters, placements, steps, i);
        }
      }
    } else {
      var g := OpenWithoutKey(p);
      var steps := ReachedFromStart(p, g);
      assert !Owns(p, Reached(p, p.config.epoch, map[], Both(p), steps), 0);
    }
  }

  lemma {:induction false} NeverOpen(p: Params, now: int, counters: map<int, int>, placements: seq<Placement>,
                                     steps: seq<Step>, i: nat)
    requires p.Accepted() && p.slack > p.ttl && ValidLaunch(p, now, counters, placements)
    ensures var f := Reached(p, now, counters, placements, steps);
            i < |f.instances| ==> !GateOpen(p, f.instances[i].manager, f.now)
  {
    ReachedIsLeased(p, now, counters, placements, steps);
    if i < |Reached(p, now, counters, placements, steps).instances| {
      NoGateOpens(p, Reached(p, now, counters, placements, steps), i);
    }
  }

  lemma {:induction false} OpenWithoutKey(p: Params) returns (g: Fleet)
    requires p.Accepted() && p.slack <= p.ttl && !p.Trusted()
    ensures Reaches(p, Start(p), g) && |g.instances| == 2
    ensures GateOpen(p, g.instances[0].manager, g.now) && !Owns(p, g, 0)
  {
    if !p.quietUnregister {
      g := AnsweredAfterUnregister(p);
    } else {
      g := KeyGone(p);
    }
  }

  // ----- Disjointness -----

  /** In every reachable state instances of a datacenter with open gates issue under different worker ids. */
  ghost predicate GatesDisjoint(p: Params)
    requires p.Accepted()
  {
    forall now, counters, placements, steps, i: nat, j: nat :: ValidLaunch(p, now, counters, placements)
      ==> var f := Reached(p, now, counters, placements, steps);
          i < j < |f.instances| ==> !Collide(p, f, i, j)
  }

  /**
   * Open gates are disjoint if and only if the slack covers a late answer and the lost fraction, and either
   * unregistration overtakes nothing or a deleted key is left alone for as long as a gate may outlast it; or
   * the gates never open.
   */
  lemma {:induction false} GatesDisjointIff(p: Params)
    requires p.Accepted()
    ensures GatesDisjoint(p) <==> p.Guarded() || p.slack > p.ttl
  {
    if p.Guarded() || p.slack > p.ttl {
      forall now, counters, placements, steps, i: nat, j: nat | ValidLaunch(p, now, counters, placements)
        ensures var f := Reached(p, now, counters, placements, steps);
                i < j < |f.instances| ==> !Collide(p, f, i, j)
      {
        if i < j < |Reached(p, now, counters, placements, steps).instances| {
          if p.Guarded() {
            OpenGatesAreDisjoint(p, now, counters, placements, steps, i, j);
          } else {
            NeverOpen(p, now, counters, placements, steps, i);
          }
        }
      }
    } else {
      var g := OpenTwice(p);
      var steps := ReachedFromStart(p, g);
      assert Collide(p, Reached(p, p.config.epoch, map[], Both(p), steps), 0, 1);
    }
  }

  lemma {:induction false} OpenTwice(p: Params) returns (g: Fleet)
    requires p.Accepted() && !p.Guarded() && p.slack <= p.ttl
    ensures Reaches(p, Start(p), g) && |g.instances| == 2 && Collide(p, g, 0, 1)
  {
    if p.slack < p.responseDelay + p.ttl % 1000 {
      g := KeyGone(p);
    } else {
      g := AnsweredAfterUnregister(p);
      if p.regrantGap > p.responseDelay {
        g := ThenTick(p, Start(p), g, p.regrantGap - p.responseDelay);
      }
    }
    g := StartUp(p, Start(p), g, 1);
  }

  // ----- The gate through recovery -----

  /** In every reachable state the gate is shut while a worker id is being replaced. */
  ghost predicate ShutInTransition(p: Params)
    requires p.Accepted()
  {
    forall now, counters, placements, steps, i: nat :: ValidLaunch(p, now, counters, placements)
      ==> var f := Reached(p, now, counters, placements, steps);
          i < |f.instances| && InTransition(f.instances[i]) ==> !IsHealthy(f.instances[i].manager, f.now).open
  }

  /** The gate stays shut throughout, in all fleets, if and only if unregistration does not overtake a heartbeat. */
  lemma {:induction false} ShutInTransitionIff(p: Params)
    requires p.Accepted()
    ensures ShutInTransition(p) <==> p.quietUnregister
  {
    if p.quietUnregister {
      forall now, counters, placements, steps, i: nat | ValidLaunch(p, now, counters, placements)
        ensures var f := Reached(p, now, counters, placements, steps);
                i < |f.instances| && InTransition(f.instances[i]) ==> !IsHealthy(f.instances[i].manager, f.now).open
      {
        if i < |Reached(p, now, counters, placements, steps).instances| {
          GateShutUntilPushed(p, now, counters, placements, steps, i);
        }
      }
    } else {
      var g := AnsweredAfterUnregister(p);
      var steps := ReachedFromStart(p, g);
      var f := Reached(p, p.config.epoch, map[], Both(p), steps);
      assert InTransition(f.instances[0]) && IsHealthy(f.instances[0].manager, f.now).open;
    }
  }

  // ----- The code's own gate -----

  /** Without slack the gate is the code's own. */
  lemma {:induction false} OwnGate(p: Params, m: Manager, now: int)
    requires p.Accepted() && p.slack == 0
    ensures GateOpen(p, m, now) <==> IsHealthy(m, now).open
  {
  }

  /**
   * Behind the code's own gate no identifier is ever issued twice if and only if answers and attempts take no
   * time, the TTL is whole seconds, attempts are patient, and a deleted key is not granted again at once, nor
   * within a TTL when unregistration overtakes a heartbeat.
   */
  lemma {:induction false} OwnGateSafeIff(p: Params)
    requires p.Accepted() && p.slack == 0
    ensures forall m, now :: GateOpen(p, m, now) <==> IsHealthy(m, now).open
    ensures Safe(p) <==>
              && p.responseDelay == 0 && p.issueDelay == 0 && p.ttl % 1000 == 0 && p.patientRetry
              && p.regrantGap > (if p.quietUnregister then 0 else p.ttl)
  {
    forall m, now
      ensures GateOpen(p, m, now) <==> IsHealthy(m, now).open
    {
      OwnGate(p, m, now);
    }
    SafeExactlyWhenCareful(p);
  }
}
