/** Provisioning one identity on several sites: each site's outcome stands alone, in whatever order the sites come. */
module ProvisionSites {
  import opened Wrappers
  import opened HashChain
  import opened AuditLog
  import opened Fleet
  import opened FleetRuns
  import Node = NodeShim

  ghost predicate DistinctTargets(jobs: seq<Job>) {
    forall i, j | 0 <= i < j < |jobs| :: jobs[i].target.nodeId != jobs[j].target.nodeId
  }

  /** What one job does to its node, given that node's state alone. */
  function Effect(env: Env, n: Node.NodeState, username: string, job: Job): (Node.NodeState, Result) {
    Deliver(env, n, Node.Create(job.target.orgId, username), job.call)
  }

  lemma ProvisionOneEffect(env: Env, s: State, actor: string, luId: string, username: string, job: Job)
    requires Registered(s, job.target.nodeId)
    ensures var t := ProvisionOne(env, s, actor, luId, username, job);
            var (n', res) := Effect(env, s.world[job.target.nodeId], username, job);
            && t.world == s.world[job.target.nodeId := n']
            && t.placements == Upsert(s.placements, Placed(Lookup(s.placements, luId, job.target.nodeId), luId, job.target, res))
            && Grew(s.log, t.log, 1) && Records(t.log[|s.log|], "provision_user", job.target.nodeId, res.Ok?)
  {
  }

  lemma PlacedIsFor(ps: seq<Placement>, luId: string, target: Target, res: Result, luId': string, nodeId: string)
    ensures IsFor(Placed(Lookup(ps, luId, target.nodeId), luId, target, res), luId', nodeId)
       <==> luId' == luId && nodeId == target.nodeId
  {
  }

  /** One job sets the placement of its identity on its node and touches no other placement and no other node. */
  lemma ProvisionOneIsLocal(env: Env, s: State, actor: string, luId: string, username: string, job: Job, luId': string, nodeId: string)
    requires Registered(s, job.target.nodeId)
    ensures var t := ProvisionOne(env, s, actor, luId, username, job);
            var res := Effect(env, s.world[job.target.nodeId], username, job).1;
            Lookup(t.placements, luId', nodeId) ==
              if luId' == luId && nodeId == job.target.nodeId
              then Some(Placed(Lookup(s.placements, luId, nodeId), luId, job.target, res))
              else Lookup(s.placements, luId', nodeId)
  {
    ProvisionOneEffect(env, s, actor, luId, username, job);
    var res := Effect(env, s.world[job.target.nodeId], username, job).1;
    var p := Placed(Lookup(s.placements, luId, job.target.nodeId), luId, job.target, res);
    PlacedIsFor(s.placements, luId, job.target, res, luId', nodeId);
    LookupAfterUpsert(s.placements, p, luId', nodeId);
  }

  ghost predicate Targets(jobs: seq<Job>, nodeId: string) {
    exists k :: 0 <= k < |jobs| && jobs[k].target.nodeId == nodeId
  }

  lemma {:induction false} OtherNodesUntouched(
    env: Env, s: State, actor: string, luId: string, username: string, jobs: seq<Job>, nodeId: string
  )
    requires AllRegistered(s, jobs) && !Targets(jobs, nodeId) && nodeId in s.world
    ensures ProvisionAll(env, s, actor, luId, username, jobs).world[nodeId] == s.world[nodeId]
  {
    if jobs == [] {
    } else {
      var n := |jobs| - 1;
      assert Targets(jobs[..n], nodeId) ==> Targets(jobs, nodeId);
      OtherNodesUntouched(env, s, actor, luId, username, jobs[..n], nodeId);
      ProvisionOneEffect(env, ProvisionAll(env, s, actor, luId, username, jobs[..n]), actor, luId, username, jobs[n]);
    }
  }

  lemma {:induction false} OtherPlacementsUntouched(
    env: Env, s: State, actor: string, luId: string, username: string, jobs: seq<Job>, luId': string, nodeId: string
  )
    requires AllRegistered(s, jobs) && (!Targets(jobs, nodeId) || luId' != luId)
    ensures Lookup(ProvisionAll(env, s, actor, luId, username, jobs).placements, luId', nodeId) == Lookup(s.placements, luId', nodeId)
  {
    if jobs == [] {
    } else {
      var n := |jobs| - 1;
      assert Targets(jobs[..n], nodeId) ==> Targets(jobs, nodeId);
      OtherPlacementsUntouched(env, s, actor, luId, username, jobs[..n], luId', nodeId);
      ProvisionOneIsLocal(env, ProvisionAll(env, s, actor, luId, username, jobs[..n]), actor, luId, username, jobs[n], luId', nodeId);
    }
  }

  /** A node that is not a target keeps its state, and a placement elsewhere or of someone else stays as it was. */
  lemma OthersUntouched(
    env: Env, s: State, actor: string, luId: string, username: string, jobs: seq<Job>, luId': string, nodeId: string
  )
    requires AllRegistered(s, jobs)
    ensures !Targets(jobs, nodeId) && nodeId in s.world ==>
              ProvisionAll(env, s, actor, luId, username, jobs).world[nodeId] == s.world[nodeId]
    ensures !Targets(jobs, nodeId) || luId' != luId ==>
              Lookup(ProvisionAll(env, s, actor, luId, username, jobs).placements, luId', nodeId) == Lookup(s.placements, luId', nodeId)
  {
    if !Targets(jobs, nodeId) && nodeId in s.world {
      OtherNodesUntouched(env, s, actor, luId, username, jobs, nodeId);
    }
    if !Targets(jobs, nodeId) || luId' != luId {
      OtherPlacementsUntouched(env, s, actor, luId, username, jobs, luId', nodeId);
    }
  }

  /** The site of `job` is as if this job alone had run from `s`. */
  ghost predicate SiteDone(env: Env, s: State, t: State, luId: string, username: string, job: Job)
    requires job.target.nodeId in s.world && job.target.nodeId in t.world
  {
    var node := job.target.nodeId;
    var (n', res) := Effect(env, s.world[node], username, job);
    t.world[node] == n' && Lookup(t.placements, luId, node) == Some(Placed(Lookup(s.placements, luId, node), luId, job.target, res))
  }

  lemma SiteStaysDone(env: Env, s: State, before: State, actor: string, luId: string, username: string, done: Job, job: Job)
    requires Registered(before, job.target.nodeId) && done.target.nodeId in s.world && done.target.nodeId in before.world
    requires SiteDone(env, s, before, luId, username, done) && done.target.nodeId != job.target.nodeId
    ensures SiteDone(env, s, ProvisionOne(env, before, actor, luId, username, job), luId, username, done)
  {
    ProvisionOneEffect(env, before, actor, luId, username, job);
    ProvisionOneIsLocal(env, before, actor, luId, username, job, luId, done.target.nodeId);
  }

  lemma SiteGetsDone(env: Env, s: State, before: State, actor: string, luId: string, username: string, job: Job)
    requires Registered(before, job.target.nodeId) && job.target.nodeId in s.world
    requires before.world[job.target.nodeId] == s.world[job.target.nodeId]
    requires Lookup(before.placements, luId, job.target.nodeId) == Lookup(s.placements, luId, job.target.nodeId)
    ensures SiteDone(env, s, ProvisionOne(env, before, actor, luId, username, job), luId, username, job)
  {
    ProvisionOneEffect(env, before, actor, luId, username, job);
    ProvisionOneIsLocal(env, before, actor, luId, username, job, luId, job.target.nodeId);
  }

  lemma LastTargetIsFresh(jobs: seq<Job>)
    requires DistinctTargets(jobs) && jobs != []
    ensures DistinctTargets(jobs[..|jobs| - 1]) && !Targets(jobs[..|jobs| - 1], jobs[|jobs| - 1].target.nodeId)
    ensures jobs[|jobs| - 1] in jobs
  {
  }

  /** Among distinct targets each job finds its own node and placement as they were before the whole call. */
  lemma {:induction false} EachSiteOnItsOwn(
    env: Env, s: State, actor: string, luId: string, username: string, jobs: seq<Job>, k: nat
  )
    requires AllRegistered(s, jobs) && DistinctTargets(jobs) && k < |jobs|
    ensures jobs[k].target.nodeId in s.world
    ensures SiteDone(env, s, ProvisionAll(env, s, actor, luId, username, jobs), luId, username, jobs[k])
  {
    var front, last := jobs[..|jobs| - 1], jobs[|jobs| - 1];
    LastTargetIsFresh(jobs);
    assert jobs[k] in jobs;
    var before := ProvisionAll(env, s, actor, luId, username, front);
    assert SiteDone(env, s, ProvisionOne(env, before, actor, luId, username, last), luId, username, jobs[k]) by {
      if k < |front| {
        EachSiteOnItsOwn(env, s, actor, luId, username, front, k);
        SiteStaysDone(env, s, before, actor, luId, username, jobs[k], last);
      } else {
        OthersUntouched(env, s, actor, luId, username, front, luId, last.target.nodeId);
        SiteGetsDone(env, s, before, actor, luId, username, last);
      }
    }
  }

  ghost predicate SameJobs(jobs: seq<Job>, jobs': seq<Job>) { forall j :: j in jobs <==> j in jobs' }

  lemma SameTargets(jobs: seq<Job>, jobs': seq<Job>, nodeId: string)
    requires SameJobs(jobs, jobs') && Targets(jobs, nodeId)
    ensures Targets(jobs', nodeId)
  {
    var k :| 0 <= k < |jobs| && jobs[k].target.nodeId == nodeId;
    assert jobs[k] in jobs';
    var k' :| 0 <= k' < |jobs'| && jobs'[k'] == jobs[k];
  }

  /** The order of distinct sites does not matter: same nodes, same placement of everyone everywhere. */
  lemma OrderIrrelevant(
    env: Env, s: State, actor: string, luId: string, username: string, jobs: seq<Job>, jobs': seq<Job>, luId': string, nodeId: string
  )
    requires AllRegistered(s, jobs) && AllRegistered(s, jobs')
    requires DistinctTargets(jobs) && DistinctTargets(jobs') && SameJobs(jobs, jobs')
    ensures var t, t' := ProvisionAll(env, s, actor, luId, username, jobs), ProvisionAll(env, s, actor, luId, username, jobs');
            && Lookup(t.placements, luId', nodeId) == Lookup(t'.placements, luId', nodeId)
            && (nodeId in s.world ==> t.world[nodeId] == t'.world[nodeId])
  {
    OthersUntouched(env, s, actor, luId, username, jobs, luId', nodeId);
    OthersUntouched(env, s, actor, luId, username, jobs', luId', nodeId);
    if Targets(jobs, nodeId) {
      var k :| 0 <= k < |jobs| && jobs[k].target.nodeId == nodeId;
      assert jobs[k] in jobs';
      var k' :| 0 <= k' < |jobs'| && jobs'[k'] == jobs[k];
      EachSiteOnItsOwn(env, s, actor, luId, username, jobs, k);
      EachSiteOnItsOwn(env, s, actor, luId, username, jobs', k');
    } else if Targets(jobs', nodeId) {
      SameTargets(jobs', jobs, nodeId);
    }
  }

  /** So a request ends the same way in any order: it commits with the same outcome everywhere, or leaves the tables alone. */
  lemma RequestOrderIrrelevant(
    env: Env, s: State, actor: string, username: string, email: Option<string>, freshId: string, jobs: seq<Job>, jobs': seq<Job>,
    luId: string, nodeId: string
  )
    requires Referenced(s) && DistinctTargets(jobs) && DistinctTargets(jobs') && SameJobs(jobs, jobs')
    ensures var (t, end) := Provision(env, s, actor, username, email, freshId, jobs);
            var (t', end') := Provision(env, s, actor, username, email, freshId, jobs');
            && end == end'
            && (end == Committed ==> Lookup(t.placements, luId, nodeId) == Lookup(t'.placements, luId, nodeId))
            && (end == Committed && nodeId in s.world ==> t.world[nodeId] == t'.world[nodeId])
            && (end != Committed ==> t.(world := s.world) == s == t'.(world := s.world))
  {
    ProvisionCommitsIff(env, s, actor, username, email, freshId, jobs);
    ProvisionCommitsIff(env, s, actor, username, email, freshId, jobs');
    if AllReady(s, jobs) {
      var (s1, own) := GetOrCreate(s, username, email, freshId);
      OrderIrrelevant(env, s1, actor, own, username, jobs, jobs', luId, nodeId);
    }
  }

  ghost predicate TargetsIn(world: map<string, Node.NodeState>, jobs: seq<Job>) {
    forall j | j in jobs :: j.target.nodeId in world
  }

  /** The nodes after a sequence of jobs. */
  ghost function WorldAfter(env: Env, world: map<string, Node.NodeState>, username: string, jobs: seq<Job>): (w: map<string, Node.NodeState>)
    requires TargetsIn(world, jobs)
    ensures w.Keys == world.Keys
  {
    if jobs == [] then world
    else
      var last := jobs[|jobs| - 1];
      assert last in jobs;
      var before := WorldAfter(env, world, username, jobs[..|jobs| - 1]);
      before[last.target.nodeId := Effect(env, before[last.target.nodeId], username, last).0]
  }

  lemma {:induction false} ProvisionWorld(env: Env, s: State, actor: string, luId: string, username: string, jobs: seq<Job>)
    requires AllRegistered(s, jobs)
    ensures TargetsIn(s.world, jobs)
    ensures ProvisionAll(env, s, actor, luId, username, jobs).world == WorldAfter(env, s.world, username, jobs)
  {
    if jobs == [] {
    } else {
      var n := |jobs| - 1;
      var before := ProvisionAll(env, s, actor, luId, username, jobs[..n]);
      assert jobs[n] in jobs;
      ProvisionWorld(env, s, actor, luId, username, jobs[..n]);
      ProvisionOneEffect(env, before, actor, luId, username, jobs[n]);
    }
  }

  /** Does the last job succeed on its node as the jobs before it left it? */
  ghost predicate LastSucceeds(env: Env, world: map<string, Node.NodeState>, username: string, jobs: seq<Job>)
    requires TargetsIn(world, jobs) && jobs != []
  {
    var last := jobs[|jobs| - 1];
    assert last in jobs;
    Effect(env, WorldAfter(env, world, username, jobs[..|jobs| - 1])[last.target.nodeId], username, last).1.Ok?
  }

  /** The log is `start` and one row per job, in order, each telling how the job fared. */
  ghost predicate RowsTell(
    env: Env, world: map<string, Node.NodeState>, start: seq<Entry<Payload>>, log: seq<Entry<Payload>>, username: string, jobs: seq<Job>
  )
    requires TargetsIn(world, jobs)
    decreases |jobs|
  {
    if jobs == [] then log == start
    else
      var n := |log| - 1;
      && n >= 0 && RowsTell(env, world, start, log[..n], username, jobs[..|jobs| - 1])
      && Records(log[n], "provision_user", jobs[|jobs| - 1].target.nodeId, LastSucceeds(env, world, username, jobs))
  }

  lemma LastRow(env: Env, s: State, actor: string, luId: string, username: string, jobs: seq<Job>)
    requires AllRegistered(s, jobs) && jobs != []
    ensures var n := |jobs| - 1;
            var before, t := ProvisionAll(env, s, actor, luId, username, jobs[..n]), ProvisionAll(env, s, actor, luId, username, jobs);
            && TargetsIn(s.world, jobs) && Grew(before.log, t.log, 1)
            && Records(t.log[|before.log|], "provision_user", jobs[n].target.nodeId, LastSucceeds(env, s.world, username, jobs))
  {
    var n := |jobs| - 1;
    ProvisionWorld(env, s, actor, luId, username, jobs);
    ProvisionWorld(env, s, actor, luId, username, jobs[..n]);
    ProvisionOneEffect(env, ProvisionAll(env, s, actor, luId, username, jobs[..n]), actor, luId, username, jobs[n]);
  }

  /** Any targets, repeated or not: one row per target, in order, each telling the outcome of its call. */
  lemma {:induction false} ProvisionRows(env: Env, s: State, actor: string, luId: string, username: string, jobs: seq<Job>, t: State)
    requires AllRegistered(s, jobs) && t == ProvisionAll(env, s, actor, luId, username, jobs)
    ensures TargetsIn(s.world, jobs) && RowsTell(env, s.world, s.log, t.log, username, jobs)
    ensures Grew(s.log, t.log, |jobs|)
  {
    if jobs == [] {
    } else {
      var before := ProvisionAll(env, s, actor, luId, username, jobs[..|jobs| - 1]);
      ProvisionRows(env, s, actor, luId, username, jobs[..|jobs| - 1], before);
      LastRow(env, s, actor, luId, username, jobs);
    }
  }

  /** The last job leaves its placement active exactly if it succeeds. */
  lemma SuccessIsActive(env: Env, s: State, actor: string, luId: string, username: string, jobs: seq<Job>, t: State)
    requires AllRegistered(s, jobs) && jobs != [] && t == ProvisionAll(env, s, actor, luId, username, jobs)
    ensures var placed := Lookup(t.placements, luId, jobs[|jobs| - 1].target.nodeId);
            && TargetsIn(s.world, jobs)
            && placed.Some? && (placed.value.status == Active <==> LastSucceeds(env, s.world, username, jobs))
  {
    var n := |jobs| - 1;
    ProvisionWorld(env, s, actor, luId, username, jobs);
    ProvisionWorld(env, s, actor, luId, username, jobs[..n]);
    ProvisionOneIsLocal(env, ProvisionAll(env, s, actor, luId, username, jobs[..n]), actor, luId, username, jobs[n], luId,
                        jobs[n].target.nodeId);
  }

  /** Provisioning first some jobs and then the others is provisioning all of them. */
  lemma {:induction false} ProvisionAppends(env: Env, s: State, actor: string, luId: string, username: string, first: seq<Job>, rest: seq<Job>)
    requires AllRegistered(s, first + rest)
    ensures AllRegistered(s, first) && AllRegistered(s, rest)
    ensures ProvisionAll(env, s, actor, luId, username, first + rest)
         == ProvisionAll(env, ProvisionAll(env, s, actor, luId, username, first), actor, luId, username, rest)
    decreases |rest|
  {
    assert forall j | j in first || j in rest :: j in first + rest;
    if rest != [] {
      var fewer := rest[..|rest| - 1];
      assert (first + rest)[..|first + rest| - 1] == first + fewer;
      ProvisionAppends(env, s, actor, luId, username, first, fewer);
    } else {
      assert first + rest == first;
    }
  }

  /**
   The row of any job says success exactly when that job leaves its placement active; if no later job is for
   the same node, the placement ends that way.
   */
  lemma RowsTellPlacements(env: Env, s: State, actor: string, luId: string, username: string, first: seq<Job>, rest: seq<Job>)
    requires AllRegistered(s, first + rest) && AllRegistered(s, first) && first != []
    ensures var site := first[|first| - 1].target.nodeId;
            var mid := ProvisionAll(env, s, actor, luId, username, first);
            var t := ProvisionAll(env, s, actor, luId, username, first + rest);
            && Grew(s.log, mid.log, |first|) && Grew(mid.log, t.log, |rest|) && Lookup(mid.placements, luId, site).Some?
            && Records(mid.log[|mid.log| - 1], "provision_user", site, Lookup(mid.placements, luId, site).value.status == Active)
            && (!Targets(rest, site) ==> Lookup(t.placements, luId, site) == Lookup(mid.placements, luId, site))
  {
    var mid := ProvisionAll(env, s, actor, luId, username, first);
    ProvisionAppends(env, s, actor, luId, username, first, rest);
    ProvisionRows(env, s, actor, luId, username, first, mid);
    ProvisionRows(env, mid, actor, luId, username, rest, ProvisionAll(env, mid, actor, luId, username, rest));
    SuccessIsActive(env, s, actor, luId, username, first, mid);
    OthersUntouched(env, mid, actor, luId, username, rest, luId, first[|first| - 1].target.nodeId);
  }
}
