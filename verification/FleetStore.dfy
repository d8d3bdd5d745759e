/** The steps that write worker keys or issue identifiers, and the invariant over whole runs. */
module FleetStore {
  import G = GeneratorSpec
  import Snowflake
  import opened RedisSpec
  import opened FleetSpec
  import opened FleetLease
  import opened FleetOrphans
  import opened FleetInvariant

  // ----- Granting a key -----

  /** When a key can be granted, nobody may still issue under it. */
  lemma {:induction false} GrantableMeansSpent(p: Params, f: Fleet, key: Key)
    requires p.Accepted() && p.Careful() && LeaseInv(p, f) && Grantable(p, f, key)
    ensures key in f.grants ==> f.grants[key].until < f.now
  {
  }

  lemma {:induction false} GrantKeepsIssues(p: Params, f: Fleet, i: nat, key: Key)
    requires p.Accepted() && p.Careful() && Inv(p, f) && i < |f.instances| && Grantable(p, f, key)
    ensures IssueInv(p, GrantKey(p, f, i, key))
  {
    var g := GrantKey(p, f, i, key);
    GrantableMeansSpent(p, f, key);
    forall j: nat | j < |g.instances|
      ensures InstanceIssues(p, g.now, g.grants, j, g.instances[j])
    {
      assert InstanceIssues(p, f.now, f.grants, j, f.instances[j]);
    }
    forall n | 0 <= n < |g.issued|
      ensures Fenced(g.issued[n], g.grants)
    {
      assert Fenced(f.issued[n], f.grants);
    }
  }

  lemma {:induction false} ClaimKeepsIssues(p: Params, f: Fleet, i: nat, captured: int, answered: bool)
    requires p.Accepted() && p.Careful() && Inv(p, f) && i < |f.instances|
    ensures IssueInv(p, DoClaim(p, f, i, captured, answered))
  {
    var x := f.instances[i];
    assert InstanceIssues(p, f.now, f.grants, i, x);
    var g := DoClaim(p, f, i, captured, answered);
    if x.activity.Probing? && 0 <= captured <= f.now {
      var key := Key(x.datacenter, x.activity.workerID);
      if Visible(f.keys, key, f.now) {
        CalmStep(p, f, g, i);
      } else if Grantable(p, f, key) {
        GrantKeepsIssues(p, f, i, key);
        CalmStep(p, GrantKey(p, f, i, key), g, i);
      }
    }
  }

  // ----- Refreshing and deleting a key -----

  /** Moving only the end of a grant, not below the end of any call under way, keeps who may issue. */
  lemma {:induction false} OtherEnd(p: Params, f: Fleet, g: Fleet, key: Key)
    requires p.Accepted() && IssueInv(p, f) && key in f.grants && key in g.grants
    requires g.now == f.now && g.issued == f.issued && |g.instances| == |f.instances|
    requires forall j :: 0 <= j < |f.instances| ==>
               && Calm(f.instances[j], g.instances[j])
               && g.instances[j].generator.workerID == f.instances[j].generator.workerID
               && (g.instances[j].activity.Granted? || g.instances[j].activity.Pushing? ==>
                     g.instances[j].activity == f.instances[j].activity && g.instances[j].lease == f.instances[j].lease)
    requires g.grants == f.grants[key := g.grants[key]]
    requires g.grants[key].holder == f.grants[key].holder && g.grants[key].since == f.grants[key].since
    requires g.grants[key].until >= f.now + p.issueDelay
    ensures IssueInv(p, g)
  {
    forall j: nat | j < |g.instances|
      ensures InstanceIssues(p, g.now, g.grants, j, g.instances[j])
    {
      assert InstanceIssues(p, f.now, f.grants, j, f.instances[j]);
    }
    forall n | 0 <= n < |g.issued|
      ensures Fenced(g.issued[n], g.grants) && Passed(g.issued[n], g.instances[g.issued[n].instance])
    {
      assert Fenced(f.issued[n], f.grants) && Passed(f.issued[n], f.instances[f.issued[n].instance]);
    }
  }

  lemma {:induction false} BeatRunsKeepsIssues(p: Params, f: Fleet, i: nat)
    requires p.Accepted() && p.Careful() && Inv(p, f) && i < |f.instances|
    ensures IssueInv(p, DoBeatRuns(p, f, i))
  {
    var x := f.instances[i];
    var key := Key(x.datacenter, x.manager.workerID);
    if x.activity == Idle && x.manager.registered && key in f.grants
       && Heartbeat(f.keys, key, x.manager.instanceID, f.now, p.ttl).code == Refreshed {
      OtherEnd(p, f, DoBeatRuns(p, f, i), key);
    }
  }

  lemma {:induction false} UnregisterSectionKeepsIssues(p: Params, f: Fleet, i: nat)
    requires p.Accepted() && p.Careful() && IssueInv(p, f) && i < |f.instances|
    ensures IssueInv(p, DoUnregisterSection(p, f, i))
  {
    var x := f.instances[i];
    assert InstanceIssues(p, f.now, f.grants, i, x);
    var g := DoUnregisterSection(p, f, i);
    if g.grants != f.grants {
      OtherEnd(p, f, g, Key(x.datacenter, x.manager.workerID));
    } else {
      CalmStep(p, f, g, i);
    }
  }

  lemma {:induction false} DeleteKeyKeepsIssues(p: Params, f: Fleet, i: nat)
    requires p.Accepted() && p.Careful() && IssueInv(p, f) && i < |f.instances|
    ensures IssueInv(p, DoDeleteKey(p, f, i))
  {
    var x := f.instances[i];
    if x.activity.Deleting? {
      var g := DoDeleteKey(p, f, i);
      var key := Key(x.datacenter, x.activity.workerID);
      if g.grants != f.grants {
        OtherEnd(p, f, g, key);
      } else {
        CalmStep(p, f, g, i);
      }
    }
  }

  // ----- Issuing -----

  /** What one attempt of a careful instance does to its generator. */
  lemma {:induction false} AttemptMoves(p: Params, x: Instance, now: int)
    requires p.Accepted() && Placed(p, x) && Timely(p, now, x) && p.config.epoch <= now
    requires x.full ==> now > x.generator.lastTimestamp
    ensures var r := G.Try(p.ConfigOf(x.datacenter), x.generator, now);
            && r.state.workerID == x.generator.workerID
            && -1 <= r.state.lastTimestamp <= now && x.generator.lastTimestamp <= r.state.lastTimestamp
            && G.InRange(p.config, r.state)
            && (r.outcome.Issued? ==>
                  && r.outcome.parts == G.PartsOf(p.ConfigOf(x.datacenter), r.state)
                  && r.outcome.parts.timestamp == now
                  && (r.state.lastTimestamp > x.generator.lastTimestamp
                      || (!x.full && r.state.sequence > x.generator.sequence)))
            && (r.outcome.NeedWait? ==>
                  && r.state.lastTimestamp == x.generator.lastTimestamp
                  && (r.outcome.duration == 0 ==>
                        && r.state.sequence == 0 && x.generator.sequence == p.config.MaxSequence()
                        && now == x.generator.lastTimestamp)
                  && (r.outcome.duration != 0 ==> r.state == x.generator))
  {
  }

  /** Two attempts at one millisecond under one key belong to the same instance, and it counted on. */
  lemma {:induction false} AttemptIsFresh(p: Params, f: Fleet, i: nat, parts: Snowflake.Parts, n: nat)
    requires p.Accepted() && IssueInv(p, f) && i < |f.instances| && n < |f.issued|
    requires f.now <= f.instances[i].lastGate + p.issueDelay
    requires KeyOf(parts) == Key(f.instances[i].datacenter, f.instances[i].generator.workerID)
    requires StoreInv(p, f.now, f.keys, f.grants, f.owners) && parts.timestamp == f.now
    requires f.now > f.instances[i].generator.lastTimestamp
             || (!f.instances[i].full && parts.sequence > f.instances[i].generator.sequence)
    ensures f.issued[n].parts != parts
  {
    var t := f.issued[n];
    assert InstanceIssues(p, f.now, f.grants, i, f.instances[i]);
    assert Fenced(t, f.grants);
    assert Passed(t, f.instances[t.instance]);
  }

  /** Instance i may attempt now, and the attempt ends as `r` says. */
  predicate Attempts(p: Params, f: Fleet, i: nat, r: G.Result)
    requires p.Accepted() && i < |f.instances|
  {
    var x := f.instances[i];
    && p.InPlace(x.datacenter) && G.InRange(p.ConfigOf(x.datacenter), x.generator)
    && f.now <= x.lastGate + p.issueDelay && (x.full ==> f.now > x.generator.lastTimestamp)
    && r == G.Try(p.ConfigOf(x.datacenter), x.generator, f.now)
  }

  lemma {:induction false} WaitKeepsIssues(p: Params, f: Fleet, i: nat, r: G.Result)
    requires p.Accepted() && Inv(p, f) && i < |f.instances| && Attempts(p, f, i, r) && r.outcome.NeedWait?
    ensures var x := f.instances[i];
            IssueInv(p, With(f, i, x.(generator := r.state, full := x.full || r.outcome.duration == 0)))
  {
    var x := f.instances[i];
    assert InstanceLease(p, f.now, f.keys, f.owners, i, x);
    assert InstanceIssues(p, f.now, f.grants, i, x);
    AttemptMoves(p, x, f.now);
    var g := With(f, i, x.(generator := r.state, full := x.full || r.outcome.duration == 0));
    forall n | 0 <= n < |g.issued|
      ensures Passed(g.issued[n], g.instances[g.issued[n].instance])
    {
      assert Passed(f.issued[n], f.instances[f.issued[n].instance]);
    }
  }

  /** One more issue, and a generator that has moved up to it. */
  lemma {:induction false} IssuedWith(p: Params, f: Fleet, g: Fleet, i: nat, t: Issue)
    requires p.Accepted() && IssueInv(p, f) && i < |f.instances|
    requires g.now == f.now && g.grants == f.grants && g.issued == f.issued + [t] && |g.instances| == |f.instances|
    requires forall j :: 0 <= j < |f.instances| && j != i ==> g.instances[j] == f.instances[j]
    requires forall u: Issue :: Passed(u, f.instances[i]) ==> Passed(u, g.instances[i])
    requires t.instance == i && t.parts.timestamp <= g.now && Proper(p, t.parts)
    requires Passed(t, g.instances[i]) && Fenced(t, g.grants)
    ensures IssuedInv(p, g.now, g.grants, g.instances, g.issued)
  {
    forall n | 0 <= n < |g.issued|
      ensures Passed(g.issued[n], g.instances[g.issued[n].instance]) && Fenced(g.issued[n], g.grants)
    {
      if n < |f.issued| {
        assert Passed(f.issued[n], f.instances[f.issued[n].instance]);
        assert Fenced(f.issued[n], f.grants);
      }
    }
  }

  lemma {:induction false} IssueKeepsIssues(p: Params, f: Fleet, i: nat, r: G.Result)
    requires p.Accepted() && Inv(p, f) && i < |f.instances| && Attempts(p, f, i, r) && r.outcome.Issued?
    ensures IssueInv(p, DoAttempt(p, f, i))
  {
    var x := f.instances[i];
    assert InstanceLease(p, f.now, f.keys, f.owners, i, x);
    assert InstanceIssues(p, f.now, f.grants, i, x);
    AttemptMoves(p, x, f.now);
    var t := Issue(i, r.outcome.parts);
    var g := DoAttempt(p, f, i);
    assert g.issued == f.issued + [t];
    IssuedWith(p, f, g, i, t);
    forall n | 0 <= n < |f.issued|
      ensures f.issued[n].parts != t.parts
    {
      AttemptIsFresh(p, f, i, t.parts, n);
    }
  }

  lemma {:induction false} AttemptKeepsIssues(p: Params, f: Fleet, i: nat)
    requires p.Accepted() && p.Careful() && Inv(p, f) && i < |f.instances|
    ensures IssueInv(p, DoAttempt(p, f, i))
  {
    var x := f.instances[i];
    assert InstanceLease(p, f.now, f.keys, f.owners, i, x);
    if f.now <= x.lastGate + p.issueDelay && (x.full ==> f.now > x.generator.lastTimestamp) {
      var r := G.Try(p.ConfigOf(x.datacenter), x.generator, f.now);
      if r.outcome.Issued? {
        IssueKeepsIssues(p, f, i, r);
      } else if r.outcome.NeedWait? {
        WaitKeepsIssues(p, f, i, r);
      }
    }
  }

  // ----- Whole runs -----

  lemma {:induction false} BusyKeepsIssues(p: Params, f: Fleet, step: Step)
    requires p.Accepted() && p.Careful() && Inv(p, f)
    requires !step.Tick? && !IsCalm(step) && step.i < |f.instances|
    ensures IssueInv(p, Perform(p, f, step))
  {
    match step
    case Claim(i, captured) => ClaimKeepsIssues(p, f, i, captured, true);
    case ClaimUnanswered(i) => ClaimKeepsIssues(p, f, i, f.now, false);
    case Push(i) => PushKeepsIssues(p, f, i);
    case BeatRuns(i) => BeatRunsKeepsIssues(p, f, i);
    case CheckGate(i) => CheckGateKeepsIssues(p, f, i);
    case Attempt(i) => AttemptKeepsIssues(p, f, i);
    case UnregisterSection(i) => UnregisterSectionKeepsIssues(p, f, i);
    case DeleteKey(i) => DeleteKeyKeepsIssues(p, f, i);
  }

  lemma {:induction false} StepKeeps(p: Params, f: Fleet, step: Step)
    requires p.Accepted() && p.Careful() && Inv(p, f)
    ensures Inv(p, Perform(p, f, step))
  {
    LeaseStepKeeps(p, f, step);
    OrphanStepKeeps(p, f, step);
    if step.Tick? {
      TickKeepsIssues(p, f, step.ms);
    } else if step.i < |f.instances| {
      if IsCalm(step) {
        CalmKeepsIssues(p, f, step);
      } else {
        BusyKeepsIssues(p, f, step);
      }
    }
  }

  lemma {:induction false} LaunchIsSound(p: Params, now: int, counters: map<int, int>, placements: seq<Placement>)
    requires p.Accepted() && ValidLaunch(p, now, counters, placements)
    ensures Inv(p, Launch(p, now, counters, placements))
  {
    LaunchIsLeased(p, now, counters, placements);
    LaunchHasNoOrphans(p, now, counters, placements);
  }

  lemma {:induction false} RunKeeps(p: Params, f: Fleet, steps: seq<Step>)
    requires p.Accepted() && p.Careful() && Inv(p, f)
    ensures Inv(p, PerformAll(p, f, steps))
    decreases |steps|
  {
    if steps != [] {
      RunKeeps(p, f, steps[..|steps| - 1]);
      StepKeeps(p, PerformAll(p, f, steps[..|steps| - 1]), steps[|steps| - 1]);
    }
  }
}
