/**
 How many calls each request makes on nodes, how many audit rows it leaves, and what remains of a request that
 rolls back: its calls are not undone, its rows are.
 */
module AuditCounts {
  import opened Wrappers
  import opened HashChain
  import opened AuditLog
  import opened Fleet
  import opened FleetRuns
  import opened ProvisionSites
  import opened DriftReport
  import Node = NodeShim

  // ----- the calls of a provision -----

  /** The jobs whose call is made: those of ready nodes up to the exception that ends the loop. */
  function CallsMade(env: Env, s: State, actor: string, luId: string, username: string, jobs: seq<Job>): (made: seq<Job>)
    ensures |made| <= |jobs|
  {
    if jobs == [] then []
    else
      var front, last := jobs[..|jobs| - 1], jobs[|jobs| - 1];
      var made := CallsMade(env, s, actor, luId, username, front);
      if ProvisionLoop(env, s, actor, luId, username, front).1.Raised? || !Ready(s, last.target.nodeId) then made else made + [last]
  }

  lemma MakesOneMore(env: Env, s: State, actor: string, luId: string, username: string, jobs: seq<Job>, n: nat)
    requires |jobs| == n + 1 && Ready(s, jobs[n].target.nodeId)
    requires !ProvisionLoop(env, s, actor, luId, username, jobs[..n]).1.Raised?
    ensures CallsMade(env, s, actor, luId, username, jobs) == CallsMade(env, s, actor, luId, username, jobs[..n]) + [jobs[n]]
  {
  }

  lemma {:induction false} ReadyMakesAll(env: Env, s: State, actor: string, luId: string, username: string, jobs: seq<Job>)
    requires AllReady(s, jobs)
    ensures CallsMade(env, s, actor, luId, username, jobs) == jobs
  {
    if jobs == [] {
    } else {
      var n := |jobs| - 1;
      assert jobs[n] in jobs && jobs == jobs[..n] + [jobs[n]];
      ReadyMakesAll(env, s, actor, luId, username, jobs[..n]);
      assert !ProvisionLoop(env, s, actor, luId, username, jobs[..n]).1.Raised? by {
        ReadyIsRegistered(s, jobs[..n]);
        ReadyLoop(env, s, actor, luId, username, jobs[..n]);
      }
      MakesOneMore(env, s, actor, luId, username, jobs, n);
    }
  }

  lemma WorldGrows(env: Env, world: map<string, Node.NodeState>, username: string, made: seq<Job>, last: Job)
    requires TargetsIn(world, made) && last.target.nodeId in world
    ensures TargetsIn(world, made + [last])
    ensures var before := WorldAfter(env, world, username, made);
            before[last.target.nodeId := Effect(env, before[last.target.nodeId], username, last).0]
              == WorldAfter(env, world, username, made + [last])
  {
    assert (made + [last])[..|made|] == made;
  }

  lemma NextWorld(env: Env, s: State, phase: Phase, actor: string, luId: string, username: string, job: Job)
    ensures var node := job.target.nodeId;
            ProvisionNext(env, s, phase, actor, luId, username, job).0.world ==
              if phase.Raised? || !Ready(s, node) then s.world
              else s.world[node := Effect(env, s.world[node], username, job).0]
  {
  }

  /** The nodes end up as these calls leave them, whatever becomes of the request. */
  lemma {:induction false} LoopWorld(env: Env, s: State, actor: string, luId: string, username: string, jobs: seq<Job>, made: seq<Job>)
    requires made == CallsMade(env, s, actor, luId, username, jobs)
    ensures TargetsIn(s.world, made)
    ensures ProvisionLoop(env, s, actor, luId, username, jobs).0.world == WorldAfter(env, s.world, username, made)
  {
    if jobs == [] {
    } else {
      var front, last := jobs[..|jobs| - 1], jobs[|jobs| - 1];
      var earlier := CallsMade(env, s, actor, luId, username, front);
      var (before, phase) := ProvisionLoop(env, s, actor, luId, username, front);
      LoopWorld(env, s, actor, luId, username, front, earlier);
      NextWorld(env, before, phase, actor, luId, username, last);
      if made != earlier {
        WorldGrows(env, s.world, username, earlier, last);
      }
    }
  }

  /** The state of the loop once the first target that is not ready has been reached. */
  ghost predicate Stopped(env: Env, s: State, actor: string, luId: string, username: string, jobs: seq<Job>, k: nat) {
    && k < |jobs|
    && var phase, made := ProvisionLoop(env, s, actor, luId, username, jobs).1, CallsMade(env, s, actor, luId, username, jobs);
       && !phase.Clean? && (phase.Unflushed? || Registered(s, jobs[k].target.nodeId) ==> made == jobs[..k])
       && (Registered(s, jobs[k].target.nodeId) ==> phase.Raised?)
       && |made| <= k + 1 && jobs[..k] <= made
  }

  lemma StopsHere(env: Env, s: State, actor: string, luId: string, username: string, jobs: seq<Job>, k: nat)
    requires Referenced(s) && |jobs| == k + 1 && AllReady(s, jobs[..k]) && !Ready(s, jobs[k].target.nodeId)
    ensures Stopped(env, s, actor, luId, username, jobs, k)
  {
    ReadyMakesAll(env, s, actor, luId, username, jobs[..k]);
    ReadyIsRegistered(s, jobs[..k]);
    ReadyLoop(env, s, actor, luId, username, jobs[..k]);
    UnreadyLoop(env, s, actor, luId, username, jobs[..k]);
    var before := ProvisionLoop(env, s, actor, luId, username, jobs[..k]).0;
    LookupFinds(before.placements, luId, jobs[k].target.nodeId);
  }

  lemma NextPhase(env: Env, s: State, phase: Phase, actor: string, luId: string, username: string, job: Job)
    requires !phase.Clean?
    ensures var next := ProvisionNext(env, s, phase, actor, luId, username, job).1;
            && !next.Clean? && (phase.Raised? ==> next.Raised?)
            && (phase.Unflushed? && Ready(s, job.target.nodeId) ==> next.Raised?)
  {
  }

  lemma StaysStopped(env: Env, s: State, actor: string, luId: string, username: string, jobs: seq<Job>, front: seq<Job>, k: nat)
    requires |jobs| > 0 && front == jobs[..|jobs| - 1] && Stopped(env, s, actor, luId, username, front, k)
    ensures Stopped(env, s, actor, luId, username, jobs, k)
  {
    var (before, phase) := ProvisionLoop(env, s, actor, luId, username, front);
    NextPhase(env, before, phase, actor, luId, username, jobs[|jobs| - 1]);
    assert front[..k] == jobs[..k];
  }

  /** Up to the first target that is not ready every call is made; after it at most one, and none if its node is registered. */
  lemma {:induction false} CallsUpToUnready(env: Env, s: State, actor: string, luId: string, username: string, jobs: seq<Job>, k: nat)
    requires Referenced(s) && k < |jobs| && AllReady(s, jobs[..k]) && !Ready(s, jobs[k].target.nodeId)
    ensures Stopped(env, s, actor, luId, username, jobs, k)
  {
    if |jobs| == k + 1 {
      StopsHere(env, s, actor, luId, username, jobs, k);
    } else {
      var front := jobs[..|jobs| - 1];
      assert front[..k] == jobs[..k];
      CallsUpToUnready(env, s, actor, luId, username, front, k);
      StaysStopped(env, s, actor, luId, username, jobs, front, k);
    }
  }

  lemma CallKeepsUser(
    env: Env, world: map<string, Node.NodeState>, username: string, made: seq<Job>, last: Job, site: string, id: string
  )
    requires TargetsIn(world, made) && last.target.nodeId in world && site in world
    requires id in Node.Ids(WorldAfter(env, world, username, made)[site].users)
    ensures TargetsIn(world, made + [last]) && id in Node.Ids(WorldAfter(env, world, username, made + [last])[site].users)
  {
    WorldGrows(env, world, username, made, last);
    CreateKeepsIds(env, WorldAfter(env, world, username, made)[last.target.nodeId], username, last);
  }

  /** A user created by one of the calls is still there after the others: creating never removes anyone. */
  lemma {:induction false} CreatedStay(
    env: Env, world: map<string, Node.NodeState>, username: string, first: seq<Job>, rest: seq<Job>, site: string, id: string
  )
    requires TargetsIn(world, first) && TargetsIn(world, rest) && site in world
    requires id in Node.Ids(WorldAfter(env, world, username, first)[site].users)
    ensures TargetsIn(world, first + rest)
    ensures id in Node.Ids(WorldAfter(env, world, username, first + rest)[site].users)
    decreases |rest|
  {
    if rest == [] {
      assert first + rest == first;
    } else {
      var fewer, last := rest[..|rest| - 1], rest[|rest| - 1];
      assert last in rest;
      CreatedStay(env, world, username, first, fewer, site, id);
      CallKeepsUser(env, world, username, first + fewer, last, site, id);
      assert (first + fewer) + [last] == first + rest;
    }
  }

  lemma CreateKeepsIds(env: Env, n: Node.NodeState, username: string, job: Job)
    ensures Node.Ids(n.users) <= Node.Ids(Effect(env, n, username, job).0.users)
  {
  }

  lemma SuccessCreates(env: Env, world: map<string, Node.NodeState>, username: string, jobs: seq<Job>)
    requires TargetsIn(world, jobs) && jobs != [] && LastSucceeds(env, world, username, jobs)
    ensures var last := jobs[|jobs| - 1];
            last in jobs && last.call.freshId in Node.Ids(WorldAfter(env, world, username, jobs)[last.target.nodeId].users)
  {
    var last := jobs[|jobs| - 1];
    assert last in jobs;
    CreateAddsId(env, WorldAfter(env, world, username, jobs[..|jobs| - 1])[last.target.nodeId], username, last);
  }

  lemma {:induction false} CalledAreReady(
    env: Env, s: State, actor: string, luId: string, username: string, jobs: seq<Job>, made: seq<Job>
  )
    requires made == CallsMade(env, s, actor, luId, username, jobs)
    ensures AllReady(s, made)
  {
    if jobs == [] {
    } else {
      var front := jobs[..|jobs| - 1];
      CalledAreReady(env, s, actor, luId, username, front, CallsMade(env, s, actor, luId, username, front));
    }
  }

  /** A request with a target that is not ready leaves the tables as they were and the nodes as its calls left them. */
  lemma RolledBackWorld(
    env: Env, s: State, actor: string, username: string, email: Option<string>, freshId: string, jobs: seq<Job>, made: seq<Job>, t: State
  )
    requires Referenced(s) && !AllReady(s, jobs) && t == Provision(env, s, actor, username, email, freshId, jobs).0
    requires var (s1, luId) := GetOrCreate(s, username, email, freshId); made == CallsMade(env, s1, actor, luId, username, jobs)
    ensures Provision(env, s, actor, username, email, freshId, jobs).1 == RolledBack && t == s.(world := t.world)
    ensures AllReady(s, made) && TargetsIn(s.world, made) && t.world == WorldAfter(env, s.world, username, made)
  {
    var (s1, luId) := GetOrCreate(s, username, email, freshId);
    ProvisionCommitsIff(env, s, actor, username, email, freshId, jobs);
    LoopWorld(env, s1, actor, luId, username, jobs, made);
    CalledAreReady(env, s1, actor, luId, username, jobs, made);
  }

  /**
   What a rolled-back provision leaves behind, for any targets: if the last of the first calls created a user, on its
   node as the calls before left it, the user is still there after all calls; no table and no audit row knows of it,
   and the next sync of the site reports it as untracked.
   */
  lemma RolledBackUsersRemain(
    env: Env, s: State, actor: string, username: string, email: Option<string>, freshId: string, jobs: seq<Job>,
    first: seq<Job>, rest: seq<Job>, t: State
  )
    requires Referenced(s) && !AllReady(s, jobs) && t == Provision(env, s, actor, username, email, freshId, jobs).0
    requires var (s1, luId) := GetOrCreate(s, username, email, freshId);
             first + rest == CallsMade(env, s1, actor, luId, username, jobs) && first != []
    ensures Provision(env, s, actor, username, email, freshId, jobs).1 == RolledBack && t == s.(world := t.world)
    ensures var site, id := first[|first| - 1].target.nodeId, first[|first| - 1].call.freshId;
            && Registered(t, site) && TargetsIn(s.world, first)
            && (LastSucceeds(env, s.world, username, first) ==>
                  && id in Node.Ids(t.world[site].users)
                  && (id !in RemoteIds(s.placements, site) ==> id in UntrackedIds(Sync(t, site, Delivered).1)))
  {
    var last := first[|first| - 1];
    RolledBackWorld(env, s, actor, username, email, freshId, jobs, first + rest, t);
    assert last in first && forall j | j in first || j in rest :: j in first + rest;
    if LastSucceeds(env, s.world, username, first) {
      SuccessCreates(env, s.world, username, first);
      CreatedStay(env, s.world, username, first, rest, last.target.nodeId, last.call.freshId);
      ReportIsSetDifference(t, last.target.nodeId);
    }
  }

  // ----- the calls of a deprovision -----

  function DeprovisionCalls(
    env: Env, s: State, actor: string, luId: string, username: string, hard: bool, calls: seq<Call>, n: nat
  ): nat
    requires n <= |s.placements| == |calls|
  {
    if n == 0 then 0
    else
      var (before, raised) := DeprovisionLoop(env, s, actor, luId, username, hard, calls, n - 1);
      DeprovisionCalls(env, s, actor, luId, username, hard, calls, n - 1)
        + if !raised && Acts(before, luId, n - 1) && !Sticks(before, luId, n - 1) then 1 else 0
  }

  lemma GrewOn(a: seq<Entry<Payload>>, b: seq<Entry<Payload>>, c: seq<Entry<Payload>>, m: nat, n: nat)
    requires Grew(a, b, m) && Grew(b, c, n)
    ensures Grew(a, c, m + n)
  {
  }

  /** The log of the loop grows by one row per call. */
  lemma {:induction false} DeprovisionLoopRows(
    env: Env, s: State, actor: string, luId: string, username: string, hard: bool, calls: seq<Call>, n: nat, t: State
  )
    requires n <= |s.placements| == |calls|
    requires t == DeprovisionLoop(env, s, actor, luId, username, hard, calls, n).0
    ensures Grew(s.log, t.log, DeprovisionCalls(env, s, actor, luId, username, hard, calls, n))
  {
    if n == 0 {
    } else {
      var before := DeprovisionLoop(env, s, actor, luId, username, hard, calls, n - 1).0;
      DeprovisionLoopRows(env, s, actor, luId, username, hard, calls, n - 1, before);
      DeprovisionOneWrites(env, before, actor, luId, username, hard, n - 1, calls[n - 1]);
      if t != before {
        GrewOn(s.log, before.log, t.log, DeprovisionCalls(env, s, actor, luId, username, hard, calls, n - 1), 1);
      }
    }
  }

  // ----- every request, every run -----

  /** How many mutations of nodes a request attempts. */
  ghost function Attempted(env: Env, s: State, step: Step): nat
    requires Possible(s, step)
  {
    match step
    case ProvisionStep(actor, username, email, freshId, jobs) =>
      var (s1, luId) := GetOrCreate(s, username, email, freshId);
      |CallsMade(env, s1, actor, luId, username, jobs)|
    case DeprovisionStep(actor, luId, hard, calls) =>
      if luId in s.identities then DeprovisionCalls(env, s, actor, luId, s.identities[luId].username, hard, calls, |calls|) else 0
    case BulkCreateStep(_, nodeId, _, users) => if Ready(s, nodeId) then |users| else 0
    case BulkActionStep(_, nodeId, _, _, ids) => if Ready(s, nodeId) then |ids| else 0
    case PerformStep(_, _, nodeId, _, _, _, _, _) => if Ready(s, nodeId) then 1 else 0
    case _ => 0
  }

  ghost predicate RollsBack(env: Env, s: State, step: Step)
    requires Possible(s, step)
  {
    match step
    case ProvisionStep(actor, username, email, freshId, jobs) => Provision(env, s, actor, username, email, freshId, jobs).1 == RolledBack
    case DeprovisionStep(actor, luId, hard, calls) => Deprovision(env, s, actor, luId, hard, calls).1 == RolledBack
    case _ => false
  }

  lemma CommittedRows(env: Env, s: State, actor: string, luId: string, username: string, jobs: seq<Job>, t: State)
    requires AllReady(s, jobs) && AllRegistered(s, jobs) && t == ProvisionAll(env, s, actor, luId, username, jobs)
    ensures Grew(s.log, t.log, |CallsMade(env, s, actor, luId, username, jobs)|)
  {
    ReadyMakesAll(env, s, actor, luId, username, jobs);
    ProvisionRows(env, s, actor, luId, username, jobs, t);
  }

  lemma ProvisionStepRows(env: Env, s: State, actor: string, username: string, email: Option<string>, freshId: string, jobs: seq<Job>)
    requires Referenced(s)
    ensures var (s1, luId) := GetOrCreate(s, username, email, freshId);
            var (t, end) := Provision(env, s, actor, username, email, freshId, jobs);
            Grew(s.log, t.log, if end == RolledBack then 0 else |CallsMade(env, s1, actor, luId, username, jobs)|)
  {
    var (s1, luId) := GetOrCreate(s, username, email, freshId);
    var (t, end) := Provision(env, s, actor, username, email, freshId, jobs);
    ProvisionCommitsIff(env, s, actor, username, email, freshId, jobs);
    if end == Committed {
      CommittedRows(env, s1, actor, luId, username, jobs, t);
    }
  }

  lemma DeprovisionStepRows(env: Env, s: State, actor: string, luId: string, hard: bool, calls: seq<Call>)
    requires |calls| == |s.placements| && luId in s.identities
    ensures var (t, end) := Deprovision(env, s, actor, luId, hard, calls);
            Grew(s.log, t.log, if end == RolledBack then 0
                               else DeprovisionCalls(env, s, actor, luId, s.identities[luId].username, hard, calls, |calls|))
  {
    var username := s.identities[luId].username;
    DeprovisionLoopRows(env, s, actor, luId, username, hard, calls, |calls|,
                        DeprovisionLoop(env, s, actor, luId, username, hard, calls, |calls|).0);
  }

  /** One request adds exactly one row per mutation it attempts, or none if it rolls back. */
  lemma StepRows(env: Env, s: State, step: Step)
    requires Referenced(s) && Possible(s, step)
    ensures Grew(s.log, Do(env, s, step).log, if RollsBack(env, s, step) then 0 else Attempted(env, s, step))
  {
    match step
    case ProvisionStep(actor, username, email, freshId, jobs) => ProvisionStepRows(env, s, actor, username, email, freshId, jobs);
    case DeprovisionStep(actor, luId, hard, calls) =>
      if luId in s.identities {
        DeprovisionStepRows(env, s, actor, luId, hard, calls);
      }
    case BulkCreateStep(actor, nodeId, orgId, users) =>
      if Ready(s, nodeId) {
        BulkCreateRows(env, s, actor, nodeId, orgId, users);
      }
    case BulkActionStep(actor, nodeId, orgId, kind, ids) =>
      if Ready(s, nodeId) {
        BulkActionRows(env, s, actor, nodeId, orgId, kind, ids);
      }
    case PerformStep(actor, action, nodeId, kindName, target, params, op, call) =>
      if Ready(s, nodeId) {
        AttemptWritesOneRow(env, s, actor, action, nodeId, kindName, target, params, op, call);
      }
    case _ =>
  }

  /** The mutations attempted in a run, and those of them attempted by requests that rolled back. */
  ghost function TotalAttempted(env: Env, s: State, steps: seq<Step>): nat
    decreases |steps|
  {
    if steps == [] || !Possible(s, steps[0]) then 0
    else Attempted(env, s, steps[0]) + TotalAttempted(env, Do(env, s, steps[0]), steps[1..])
  }

  ghost function TotalLost(env: Env, s: State, steps: seq<Step>): nat
    decreases |steps|
  {
    if steps == [] || !Possible(s, steps[0]) then 0
    else (if RollsBack(env, s, steps[0]) then Attempted(env, s, steps[0]) else 0) + TotalLost(env, Do(env, s, steps[0]), steps[1..])
  }

  /** Over any run the log grows by exactly the mutations attempted, less those of requests that rolled back. */
  lemma {:induction false} RunRows(env: Env, s: State, steps: seq<Step>, t: State)
    requires Inv(env, s) && Reaches(env, s, steps, t)
    ensures TotalLost(env, s, steps) <= TotalAttempted(env, s, steps)
    ensures Grew(s.log, t.log, TotalAttempted(env, s, steps) - TotalLost(env, s, steps))
    decreases |steps|
  {
    if steps == [] {
    } else {
      var next := Do(env, s, steps[0]);
      StepRows(env, s, steps[0]);
      StepKeepsInv(env, s, steps[0]);
      RunRows(env, next, steps[1..], t);
      GrewOn(s.log, next.log, t.log, if RollsBack(env, s, steps[0]) then 0 else Attempted(env, s, steps[0]),
             TotalAttempted(env, next, steps[1..]) - TotalLost(env, next, steps[1..]));
    }
  }

  // ----- when rows are lost -----

  /** Target `m` is the first whose node is registered, and its adapter can be built. */
  predicate CalledFirst(s: State, jobs: seq<Job>, m: nat) {
    m < |jobs| && Ready(s, jobs[m].target.nodeId) && forall i | 0 <= i < m :: !Registered(s, jobs[i].target.nodeId)
  }

  ghost predicate NoneRegistered(s: State, jobs: seq<Job>) { forall j | j in jobs :: !Registered(s, j.target.nodeId) }

  lemma CalledFirstInFront(s: State, jobs: seq<Job>, n: nat)
    requires |jobs| == n + 1
    ensures (exists m: nat :: CalledFirst(s, jobs, m)) <==>
            (exists m: nat :: CalledFirst(s, jobs[..n], m)) || (NoneRegistered(s, jobs[..n]) && Ready(s, jobs[n].target.nodeId))
  {
    if m: nat :| CalledFirst(s, jobs, m) {
      if m < n {
        assert CalledFirst(s, jobs[..n], m);
      }
    }
    if m: nat :| CalledFirst(s, jobs[..n], m) {
      assert CalledFirst(s, jobs, m);
    }
    if NoneRegistered(s, jobs[..n]) && Ready(s, jobs[n].target.nodeId) {
      assert forall i | 0 <= i < n :: jobs[i] == jobs[..n][i] && jobs[..n][i] in jobs[..n];
      assert CalledFirst(s, jobs, n);
    }
  }

  /** Until a call is made, only a registered target can end the loop. */
  lemma {:induction false} RaisedBeforeCalls(
    env: Env, s: State, actor: string, luId: string, username: string, jobs: seq<Job>, made: seq<Job>, phase: Phase
  )
    requires made == CallsMade(env, s, actor, luId, username, jobs)
    requires phase == ProvisionLoop(env, s, actor, luId, username, jobs).1
    ensures made == [] ==> (phase.Raised? <==> !NoneRegistered(s, jobs))
  {
    if jobs == [] {
    } else {
      var n := |jobs| - 1;
      RaisedBeforeCalls(env, s, actor, luId, username, jobs[..n], CallsMade(env, s, actor, luId, username, jobs[..n]),
                        ProvisionLoop(env, s, actor, luId, username, jobs[..n]).1);
      assert jobs == jobs[..n] + [jobs[n]];
    }
  }

  lemma {:induction false} SomeCallIff(
    env: Env, s: State, actor: string, luId: string, username: string, jobs: seq<Job>, made: seq<Job>
  )
    requires made == CallsMade(env, s, actor, luId, username, jobs)
    ensures made != [] <==> exists m: nat :: CalledFirst(s, jobs, m)
  {
    if jobs == [] {
    } else {
      var n := |jobs| - 1;
      var earlier := CallsMade(env, s, actor, luId, username, jobs[..n]);
      SomeCallIff(env, s, actor, luId, username, jobs[..n], earlier);
      RaisedBeforeCalls(env, s, actor, luId, username, jobs[..n], earlier, ProvisionLoop(env, s, actor, luId, username, jobs[..n]).1);
      CalledFirstInFront(s, jobs, n);
    }
  }

  lemma CalledFirstSame(s: State, t: State, jobs: seq<Job>)
    requires t.nodes == s.nodes && t.world == s.world
    ensures (exists m: nat :: CalledFirst(t, jobs, m)) <==> exists m: nat :: CalledFirst(s, jobs, m)
  {
    if m: nat :| CalledFirst(s, jobs, m) {
      assert CalledFirst(t, jobs, m);
    }
    if m: nat :| CalledFirst(t, jobs, m) {
      assert CalledFirst(s, jobs, m);
    }
  }

  /**
   A provision makes calls and loses their rows exactly if some target is not ready and the first registered
   target is: whatever comes before that one only dooms the commit.
   */
  lemma ProvisionLosesIff(env: Env, s: State, actor: string, username: string, email: Option<string>, freshId: string, jobs: seq<Job>)
    requires Referenced(s) && freshId !in s.identities
    ensures var step := ProvisionStep(actor, username, email, freshId, jobs);
            (RollsBack(env, s, step) && Attempted(env, s, step) > 0 <==>
             !AllReady(s, jobs) && exists m: nat :: CalledFirst(s, jobs, m))
  {
    var (s1, luId) := GetOrCreate(s, username, email, freshId);
    ProvisionCommitsIff(env, s, actor, username, email, freshId, jobs);
    SomeCallIff(env, s1, actor, luId, username, jobs, CallsMade(env, s1, actor, luId, username, jobs));
    CalledFirstSame(s, s1, jobs);
  }

  /** The deprovision acts on placement `i`, and on none before it is it stuck. */
  ghost predicate ActsFirst(s: State, luId: string, i: nat) {
    i < |s.placements| && Acts(s, luId, i) && forall m: nat | m <= i :: !Sticks(s, luId, m)
  }

  lemma ActsFirstIff(s: State, t: State, luId: string, i: nat, raised: bool)
    requires i < |s.placements| == |t.placements| && Acts(t, luId, i) == Acts(s, luId, i) && Sticks(t, luId, i) == Sticks(s, luId, i)
    requires !raised <==> forall m: nat | m < i :: !Sticks(s, luId, m)
    ensures !raised && Acts(t, luId, i) && !Sticks(t, luId, i) <==> ActsFirst(s, luId, i)
  {
  }

  lemma CallsOneMore(
    env: Env, s: State, actor: string, luId: string, username: string, hard: bool, calls: seq<Call>, n: nat
  )
    requires 0 < n <= |s.placements| == |calls|
    ensures DeprovisionCalls(env, s, actor, luId, username, hard, calls, n)
         == DeprovisionCalls(env, s, actor, luId, username, hard, calls, n - 1) + if ActsFirst(s, luId, n - 1) then 1 else 0
  {
    var (before, raised) := DeprovisionLoop(env, s, actor, luId, username, hard, calls, n - 1);
    LoopRaisesIff(env, s, actor, luId, username, hard, calls, n - 1, raised);
    LoopTurns(env, s, actor, luId, username, hard, calls, n);
    ActsFirstIff(s, before, luId, n - 1, raised);
  }

  lemma {:induction false} CallsBeforeStuck(
    env: Env, s: State, actor: string, luId: string, username: string, hard: bool, calls: seq<Call>, n: nat, made: nat
  )
    requires n <= |s.placements| == |calls| && made == DeprovisionCalls(env, s, actor, luId, username, hard, calls, n)
    ensures made > 0 <==> exists i: nat :: i < n && ActsFirst(s, luId, i)
  {
    if n == 0 {
    } else {
      CallsOneMore(env, s, actor, luId, username, hard, calls, n);
      CallsBeforeStuck(env, s, actor, luId, username, hard, calls, n - 1,
                       DeprovisionCalls(env, s, actor, luId, username, hard, calls, n - 1));
    }
  }

  /** A deprovision makes calls and loses their rows exactly if it acts on a placement before the first one it is stuck on. */
  lemma DeprovisionLosesIff(env: Env, s: State, actor: string, luId: string, hard: bool, calls: seq<Call>)
    requires |calls| == |s.placements| && luId in s.identities
    ensures var step := DeprovisionStep(actor, luId, hard, calls);
            (RollsBack(env, s, step) && Attempted(env, s, step) > 0 <==>
             (exists i: nat :: i < |calls| && ActsFirst(s, luId, i)) && exists j: nat :: j < |calls| && Sticks(s, luId, j))
  {
    CallsBeforeStuck(env, s, actor, luId, s.identities[luId].username, hard, calls, |calls|,
                     Attempted(env, s, DeprovisionStep(actor, luId, hard, calls)));
    DeprovisionCommitsIff(env, s, actor, luId, hard, calls);
  }
}
