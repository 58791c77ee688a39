/** What every interleaving of provisioning, reconciliation, actions and out-of-band node changes keeps. */
module FleetRuns {
  import opened Wrappers
  import opened HashChain
  import opened AuditLog
  import opened Fleet
  import Node = NodeShim

  // ----- the invariant -----

  ghost predicate OnePerSite(ps: seq<Placement>) {
    forall i, j | 0 <= i < j < |ps| :: !(ps[i].luId == ps[j].luId && ps[i].nodeId == ps[j].nodeId)
  }

  /** No placement stays pending, and a placement once on its node keeps a remote id. */
  predicate RowOk(p: Placement) {
    && p.status != Pending
    && (p.status == Active || p.status == Missing || p.status == Revoked ==> p.remote.Some?)
  }

  ghost predicate RowsOk(ps: seq<Placement>) { forall p | p in ps :: RowOk(p) }

  ghost predicate Inv(env: Env, s: State) {
    && OnePerSite(s.placements) && RowsOk(s.placements)
    && (forall p | p in s.placements :: Registered(s, p.nodeId))
    && ChainOk(env.hasher, s.log)
  }

  // ----- steps -----

  datatype Step =
    | ProvisionStep(actor: string, username: string, email: Option<string>, freshId: string, jobs: seq<Job>)
    | DeprovisionStep(actor: string, luId: string, hard: bool, calls: seq<Call>)
    | SyncStep(nodeId: string, fault: Fault)
    | BulkCreateStep(actor: string, nodeId: string, orgId: string, users: seq<UserRow>)
    | BulkActionStep(actor: string, nodeId: string, orgId: string, kind: BulkKind, ids: seq<IdRow>)
    | PerformStep(actor: string, action: string, nodeId: string, kindName: string, target: Option<string>,
        params: string, op: Node.Op, call: Call)
    | NodeChanges(nodeId: string, after: Node.NodeState)
    | PutNode(nodeId: string, row: NodeRow, world: Node.NodeState)
    | DropNode(nodeId: string)

  /** A new identity's id is not in use; a deprovision fixes the fate of one call per placement. */
  ghost predicate Possible(s: State, step: Step) {
    match step
    case ProvisionStep(_, _, _, freshId, _) => freshId !in s.identities
    case DeprovisionStep(_, _, _, calls) => |calls| == |s.placements|
    case NodeChanges(nodeId, _) => nodeId in s.world
    case _ => true
  }

  /** The placements that are left when a node is deleted: its own go with it. */
  function PlacedElsewhere(ps: seq<Placement>, nodeId: string): seq<Placement> {
    if ps == [] then []
    else
      var front := PlacedElsewhere(ps[..|ps| - 1], nodeId);
      if ps[|ps| - 1].nodeId == nodeId then front else front + [ps[|ps| - 1]]
  }

  /** A request for a node that is not registered, or whose adapter cannot be built, does nothing. */
  ghost function Do(env: Env, s: State, step: Step): State
    requires Possible(s, step)
  {
    match step
    case ProvisionStep(actor, username, email, freshId, jobs) => Provision(env, s, actor, username, email, freshId, jobs).0
    case DeprovisionStep(actor, luId, hard, calls) => Deprovision(env, s, actor, luId, hard, calls).0
    case SyncStep(nodeId, fault) => if Ready(s, nodeId) then Sync(s, nodeId, fault).0 else s
    case BulkCreateStep(actor, nodeId, orgId, users) =>
      if Ready(s, nodeId) then BulkCreate(env, s, actor, nodeId, orgId, users).0 else s
    case BulkActionStep(actor, nodeId, orgId, kind, ids) =>
      if Ready(s, nodeId) then BulkAction(env, s, actor, nodeId, orgId, kind, ids).0 else s
    case PerformStep(actor, action, nodeId, kindName, target, params, op, call) =>
      if Ready(s, nodeId) then Attempt(env, s, actor, action, nodeId, kindName, target, params, op, call).0 else s
    case NodeChanges(nodeId, after) => s.(world := s.world[nodeId := after])
    case PutNode(nodeId, row, world) =>
      s.(nodes := s.nodes[nodeId := row], world := if nodeId in s.world then s.world else s.world[nodeId := world])
    case DropNode(nodeId) => s.(nodes := s.nodes - {nodeId}, placements := PlacedElsewhere(s.placements, nodeId))
  }

  /** `t` is reached from `s` by these steps. */
  ghost predicate Reaches(env: Env, s: State, steps: seq<Step>, t: State)
    decreases |steps|
  {
    if steps == [] then t == s
    else Possible(s, steps[0]) && Reaches(env, Do(env, s, steps[0]), steps[1..], t)
  }

  // ----- placements -----

  lemma UpsertMembers(ps: seq<Placement>, p: Placement)
    ensures forall q | q in Upsert(ps, p) :: q == p || q in ps
  {
    var updated := Upsert(ps, p);
    match FindPlacement(ps, p.luId, p.nodeId)
    case None =>
    case Some(k) =>
      forall q | q in updated
        ensures q == p || q in ps
      {
        var i :| 0 <= i < |ps| && updated[i] == q;
        assert i == k || q == ps[i];
      }
  }

  lemma UpsertKeepsRows(ps: seq<Placement>, p: Placement)
    requires OnePerSite(ps) && RowsOk(ps) && RowOk(p)
    ensures OnePerSite(Upsert(ps, p)) && RowsOk(Upsert(ps, p))
    ensures forall q | q in Upsert(ps, p) :: q == p || q in ps
  {
    UpsertMembers(ps, p);
    match FindPlacement(ps, p.luId, p.nodeId)
    case None =>
      assert forall i | 0 <= i < |ps| :: ps[i] in ps;
    case Some(k) =>
  }

  lemma {:induction false} FindIsUnique(ps: seq<Placement>, k: nat)
    requires OnePerSite(ps) && k < |ps|
    ensures FindPlacement(ps, ps[k].luId, ps[k].nodeId) == Some(k)
  {
    if k == 0 {
    } else {
      assert !(ps[0].luId == ps[k].luId && ps[0].nodeId == ps[k].nodeId);
      FindIsUnique(ps[1..], k - 1);
    }
  }

  lemma LookupFinds(ps: seq<Placement>, luId: string, nodeId: string)
    ensures Lookup(ps, luId, nodeId).Some? ==>
              Lookup(ps, luId, nodeId).value in ps && IsFor(Lookup(ps, luId, nodeId).value, luId, nodeId)
  {
  }

  lemma {:induction false} LookupAfterAdd(ps: seq<Placement>, p: Placement, luId: string, nodeId: string)
    requires FindPlacement(ps, p.luId, p.nodeId).None?
    ensures Lookup(ps + [p], luId, nodeId) == if IsFor(p, luId, nodeId) then Some(p) else Lookup(ps, luId, nodeId)
  {
    if ps == [] {
    } else {
      assert (ps + [p])[1..] == ps[1..] + [p];
      LookupAfterAdd(ps[1..], p, luId, nodeId);
    }
  }

  lemma {:induction false} LookupAfterSet(ps: seq<Placement>, p: Placement, k: nat, luId: string, nodeId: string)
    requires FindPlacement(ps, p.luId, p.nodeId) == Some(k)
    ensures Lookup(ps[k := p], luId, nodeId) == if IsFor(p, luId, nodeId) then Some(p) else Lookup(ps, luId, nodeId)
  {
    if k > 0 {
      assert ps[k := p][1..] == ps[1..][k - 1 := p];
      LookupAfterSet(ps[1..], p, k - 1, luId, nodeId);
    } else {
      assert ps[0 := p][1..] == ps[1..];
    }
  }

  lemma LookupAfterUpsert(ps: seq<Placement>, p: Placement, luId: string, nodeId: string)
    ensures Lookup(Upsert(ps, p), luId, nodeId) == if IsFor(p, luId, nodeId) then Some(p) else Lookup(ps, luId, nodeId)
  {
    match FindPlacement(ps, p.luId, p.nodeId)
    case None => LookupAfterAdd(ps, p, luId, nodeId);
    case Some(k) => LookupAfterSet(ps, p, k, luId, nodeId);
  }

  // ----- every step keeps the invariant -----

  lemma PlacedRowOk(env: Env, s: State, luId: string, username: string, job: Job)
    requires Registered(s, job.target.nodeId) && RowsOk(s.placements)
    ensures var t := job.target;
            RowOk(Placed(Lookup(s.placements, luId, t.nodeId), luId, t,
                         Deliver(env, s.world[t.nodeId], Node.Create(t.orgId, username), job.call).1))
  {
  }

  lemma AttemptKeepsChain(
    env: Env, s: State, actor: string, action: string, nodeId: string, kind: string, target: Option<string>, params: string,
    op: Node.Op, call: Call
  )
    requires Registered(s, nodeId) && ChainOk(env.hasher, s.log)
    ensures ChainOk(env.hasher, Attempt(env, s, actor, action, nodeId, kind, target, params, op, call).0.log)
  {
    var res := Deliver(env, s.world[nodeId], op, call).1;
    AppendKeepsChain(env.hasher, s.log, RowOf(s, actor, action, nodeId, kind, target, params, call.ts, res));
  }

  lemma ProvisionOneKeepsInv(env: Env, s: State, actor: string, luId: string, username: string, job: Job)
    requires Inv(env, s) && Registered(s, job.target.nodeId)
    ensures Inv(env, ProvisionOne(env, s, actor, luId, username, job))
  {
    var t := job.target;
    var op := Node.Create(t.orgId, username);
    var p := Placed(Lookup(s.placements, luId, t.nodeId), luId, t, Deliver(env, s.world[t.nodeId], op, job.call).1);
    PlacedRowOk(env, s, luId, username, job);
    LookupFinds(s.placements, luId, t.nodeId);
    UpsertKeepsRows(s.placements, p);
    AttemptKeepsChain(env, s, actor, "provision_user", t.nodeId, "user", None, ProvisionParams(env, t.orgId, username), op, job.call);
  }

  lemma {:induction false} ProvisionAllKeepsInv(env: Env, s: State, actor: string, luId: string, username: string, jobs: seq<Job>)
    requires Inv(env, s) && AllRegistered(s, jobs)
    ensures Inv(env, ProvisionAll(env, s, actor, luId, username, jobs))
  {
    if jobs == [] {
    } else {
      var front := jobs[..|jobs| - 1];
      ProvisionAllKeepsInv(env, s, actor, luId, username, front);
      ProvisionOneKeepsInv(env, ProvisionAll(env, s, actor, luId, username, front), actor, luId, username, jobs[|jobs| - 1]);
    }
  }

  lemma DeprovisionOneKeepsInv(
    env: Env, s: State, actor: string, luId: string, username: string, hard: bool, i: nat, call: Call, s': State
  )
    requires Inv(env, s) && i < |s.placements| && s' == DeprovisionOne(env, s, actor, luId, username, hard, i, call)
    ensures Inv(env, s')
  {
    var p := s.placements[i];
    if s' != s {
      var action := if hard then "deprovision_delete" else "deprovision_revoke";
      var op := if hard then Node.Delete(p.remote.value) else Node.Revoke(p.remote.value);
      AttemptKeepsChain(env, s, actor, action, p.nodeId, "user", p.remote,
                        env.dumps([("username", Json.Str(username))]), op, call);
      assert p in s.placements;
      forall q | q in s'.placements
        ensures RowOk(q) && Registered(s, q.nodeId)
      {
        var j :| 0 <= j < |s'.placements| && s'.placements[j] == q;
        assert j == i || q == s.placements[j];
      }
    }
  }

  lemma {:induction false} DeprovisionKeepsInv(
    env: Env, s: State, actor: string, luId: string, username: string, hard: bool, calls: seq<Call>, n: nat, t: State
  )
    requires Inv(env, s) && n <= |s.placements| == |calls|
    requires t == DeprovisionFirst(env, s, actor, luId, username, hard, calls, n)
    ensures Inv(env, t)
  {
    if n == 0 {
    } else {
      var before := DeprovisionFirst(env, s, actor, luId, username, hard, calls, n - 1);
      DeprovisionKeepsInv(env, s, actor, luId, username, hard, calls, n - 1, before);
      DeprovisionOneKeepsInv(env, before, actor, luId, username, hard, n - 1, calls[n - 1], t);
    }
  }

  lemma ReconciledKeepsRows(ps: seq<Placement>, nodeId: string, ids: seq<string>)
    requires OnePerSite(ps) && RowsOk(ps)
    ensures OnePerSite(ReconciledAll(ps, nodeId, ids)) && RowsOk(ReconciledAll(ps, nodeId, ids))
  {
    var qs := ReconciledAll(ps, nodeId, ids);
    forall q | q in qs
      ensures RowOk(q)
    {
      var i :| 0 <= i < |qs| && qs[i] == q;
      assert ps[i] in ps;
    }
  }

  lemma ReconciledKeepsNodes(ps: seq<Placement>, nodeId: string, ids: seq<string>)
    ensures forall q | q in ReconciledAll(ps, nodeId, ids) :: exists p :: p in ps && p.nodeId == q.nodeId
  {
    var qs := ReconciledAll(ps, nodeId, ids);
    forall q | q in qs
      ensures exists p :: p in ps && p.nodeId == q.nodeId
    {
      var i :| 0 <= i < |qs| && qs[i] == q;
      assert ps[i] in ps && ps[i].nodeId == q.nodeId;
    }
  }

  lemma SyncKeepsInv(env: Env, s: State, nodeId: string, fault: Fault)
    requires Inv(env, s) && Registered(s, nodeId)
    ensures Inv(env, Sync(s, nodeId, fault).0)
  {
    if fault.Delivered? {
      var ids := UserIds(s.world[nodeId].users);
      ReconciledKeepsRows(s.placements, nodeId, ids);
      ReconciledKeepsNodes(s.placements, nodeId, ids);
    }
  }

  lemma {:induction false} BulkCreateKeepsInv(env: Env, s: State, actor: string, nodeId: string, orgId: string, rows: seq<UserRow>)
    requires Inv(env, s) && Registered(s, nodeId)
    ensures Inv(env, BulkCreate(env, s, actor, nodeId, orgId, rows).0)
  {
    if rows == [] {
    } else {
      var row := rows[|rows| - 1];
      BulkCreateKeepsInv(env, s, actor, nodeId, orgId, rows[..|rows| - 1]);
      AttemptKeepsChain(env, BulkCreate(env, s, actor, nodeId, orgId, rows[..|rows| - 1]).0, actor, "create_user", nodeId, "user", None,
                        BulkCreateParams(env, orgId, row.name), Node.Create(orgId, row.name), row.call);
    }
  }

  lemma {:induction false} BulkActionKeepsInv(
    env: Env, s: State, actor: string, nodeId: string, orgId: string, k: BulkKind, rows: seq<IdRow>
  )
    requires Inv(env, s) && Registered(s, nodeId)
    ensures Inv(env, BulkAction(env, s, actor, nodeId, orgId, k, rows).0)
  {
    if rows == [] {
    } else {
      var row := rows[|rows| - 1];
      BulkActionKeepsInv(env, s, actor, nodeId, orgId, k, rows[..|rows| - 1]);
      AttemptKeepsChain(env, BulkAction(env, s, actor, nodeId, orgId, k, rows[..|rows| - 1]).0, actor, BulkName(k), nodeId, "user",
                        Some(row.id), env.dumps([("org_id", Json.Str(orgId))]), BulkOp(k, row.id), row.call);
    }
  }

  // ----- requests that roll back -----

  ghost predicate AllReady(s: State, jobs: seq<Job>) { forall j | j in jobs :: Ready(s, j.target.nodeId) }

  /** No placement refers to a node that is gone. */
  ghost predicate Referenced(s: State) { forall p | p in s.placements :: Registered(s, p.nodeId) }

  lemma ReadyIsRegistered(s: State, jobs: seq<Job>)
    requires AllReady(s, jobs)
    ensures AllRegistered(s, jobs)
  {
  }

  lemma {:induction false} ReadyLoop(env: Env, s: State, actor: string, luId: string, username: string, jobs: seq<Job>)
    requires AllReady(s, jobs) && AllRegistered(s, jobs)
    ensures ProvisionLoop(env, s, actor, luId, username, jobs) == (ProvisionAll(env, s, actor, luId, username, jobs), Clean)
  {
    if jobs == [] {
    } else {
      assert jobs[|jobs| - 1] in jobs;
      ReadyLoop(env, s, actor, luId, username, jobs[..|jobs| - 1]);
    }
  }

  lemma ProvisionOneKeepsReferences(env: Env, s: State, actor: string, luId: string, username: string, job: Job)
    requires Referenced(s) && Registered(s, job.target.nodeId)
    ensures Referenced(ProvisionOne(env, s, actor, luId, username, job))
  {
    var t := job.target;
    var res := Deliver(env, s.world[t.nodeId], Node.Create(t.orgId, username), job.call).1;
    LookupFinds(s.placements, luId, t.nodeId);
    UpsertMembers(s.placements, Placed(Lookup(s.placements, luId, t.nodeId), luId, t, res));
  }

  lemma CleanNext(env: Env, s: State, phase: Phase, actor: string, luId: string, username: string, job: Job)
    requires phase.Clean? ==> Referenced(s)
    ensures var (t, next) := ProvisionNext(env, s, phase, actor, luId, username, job);
            next.Clean? ==> phase.Clean? && Ready(s, job.target.nodeId) && Referenced(t)
  {
    if phase.Clean? && Ready(s, job.target.nodeId) {
      ProvisionOneKeepsReferences(env, s, actor, luId, username, job);
    } else if phase.Clean? && Lookup(s.placements, luId, job.target.nodeId).Some? {
      LookupFinds(s.placements, luId, job.target.nodeId);
    }
  }

  lemma ReadyGrows(s: State, jobs: seq<Job>, n: nat)
    requires |jobs| == n + 1 && AllReady(s, jobs[..n]) && Ready(s, jobs[n].target.nodeId)
    ensures AllReady(s, jobs)
  {
    assert jobs == jobs[..n] + [jobs[n]];
  }

  /** One target that is not ready keeps the loop from ending clean. */
  lemma {:induction false} UnreadyLoop(env: Env, s: State, actor: string, luId: string, username: string, jobs: seq<Job>)
    requires Referenced(s)
    ensures var (t, phase) := ProvisionLoop(env, s, actor, luId, username, jobs);
            phase.Clean? ==> AllReady(s, jobs) && Referenced(t)
  {
    if jobs == [] {
    } else {
      var n := |jobs| - 1;
      var (before, phase) := ProvisionLoop(env, s, actor, luId, username, jobs[..n]);
      UnreadyLoop(env, s, actor, luId, username, jobs[..n]);
      CleanNext(env, before, phase, actor, luId, username, jobs[n]);
      if phase.Clean? && Ready(s, jobs[n].target.nodeId) {
        ReadyGrows(s, jobs, n);
      }
    }
  }

  /** A provision commits exactly if every target is registered and its adapter can be built; then it is the plain sequence of calls. */
  lemma ProvisionCommitsIff(
    env: Env, s: State, actor: string, username: string, email: Option<string>, freshId: string, jobs: seq<Job>
  )
    requires Referenced(s)
    ensures var (t, end) := Provision(env, s, actor, username, email, freshId, jobs);
            && (end == Committed <==> AllReady(s, jobs))
            && (end == Committed ==>
                  var (s1, luId) := GetOrCreate(s, username, email, freshId);
                  AllRegistered(s1, jobs) && t == ProvisionAll(env, s1, actor, luId, username, jobs))
            && (end != Committed ==> t == s.(world := t.world))
  {
    var (s1, luId) := GetOrCreate(s, username, email, freshId);
    UnreadyLoop(env, s1, actor, luId, username, jobs);
    if AllReady(s, jobs) {
      ReadyLoop(env, s1, actor, luId, username, jobs);
    }
  }

  lemma SticksLater(s: State, t: State, luId: string, i: nat)
    requires i < |s.placements| && SameKeys(s.placements, t.placements) && t.nodes == s.nodes && t.world.Keys == s.world.Keys
    ensures Acts(t, luId, i) == Acts(s, luId, i) && Sticks(t, luId, i) == Sticks(s, luId, i)
  {
    assert forall node :: node in t.world <==> node in t.world.Keys;
  }

  lemma DeprovisionOneKeepsKeys(env: Env, s: State, actor: string, luId: string, username: string, hard: bool, i: nat, call: Call)
    requires i < |s.placements|
    ensures SameKeys(s.placements, DeprovisionOne(env, s, actor, luId, username, hard, i, call).placements)
  {
    DeprovisionOneWrites(env, s, actor, luId, username, hard, i, call);
  }

  lemma KeysStay(ps: seq<Placement>, qs: seq<Placement>, rs: seq<Placement>)
    requires SameKeys(ps, qs) && SameKeys(qs, rs)
    ensures SameKeys(ps, rs)
  {
  }

  lemma TurnKeepsKeys(
    env: Env, s: State, actor: string, luId: string, username: string, hard: bool, calls: seq<Call>, n: nat
  )
    requires 0 < n <= |s.placements| == |calls|
    ensures SameKeys(DeprovisionLoop(env, s, actor, luId, username, hard, calls, n - 1).0.placements,
                     DeprovisionLoop(env, s, actor, luId, username, hard, calls, n).0.placements)
  {
    var before := DeprovisionLoop(env, s, actor, luId, username, hard, calls, n - 1).0;
    DeprovisionOneKeepsKeys(env, before, actor, luId, username, hard, n - 1, calls[n - 1]);
  }

  lemma {:induction false} LoopKeepsKeys(
    env: Env, s: State, actor: string, luId: string, username: string, hard: bool, calls: seq<Call>, n: nat
  )
    requires n <= |s.placements| == |calls|
    ensures SameKeys(s.placements, DeprovisionLoop(env, s, actor, luId, username, hard, calls, n).0.placements)
  {
    if n == 0 {
    } else {
      LoopKeepsKeys(env, s, actor, luId, username, hard, calls, n - 1);
      TurnKeepsKeys(env, s, actor, luId, username, hard, calls, n);
      KeysStay(s.placements, DeprovisionLoop(env, s, actor, luId, username, hard, calls, n - 1).0.placements,
               DeprovisionLoop(env, s, actor, luId, username, hard, calls, n).0.placements);
    }
  }

  /** One turn of the loop, in terms of the placements there were at the start. */
  lemma LoopTurns(
    env: Env, s: State, actor: string, luId: string, username: string, hard: bool, calls: seq<Call>, n: nat
  )
    requires 0 < n <= |s.placements| == |calls|
    ensures var (before, raised) := DeprovisionLoop(env, s, actor, luId, username, hard, calls, n - 1);
            && Acts(before, luId, n - 1) == Acts(s, luId, n - 1) && Sticks(before, luId, n - 1) == Sticks(s, luId, n - 1)
            && DeprovisionLoop(env, s, actor, luId, username, hard, calls, n) ==
                 if raised || Sticks(s, luId, n - 1) then (before, true)
                 else (DeprovisionOne(env, before, actor, luId, username, hard, n - 1, calls[n - 1]), false)
  {
    LoopKeepsKeys(env, s, actor, luId, username, hard, calls, n - 1);
    SticksLater(s, DeprovisionLoop(env, s, actor, luId, username, hard, calls, n - 1).0, luId, n - 1);
  }

  lemma {:induction false} LoopRaisesIff(
    env: Env, s: State, actor: string, luId: string, username: string, hard: bool, calls: seq<Call>, n: nat, raised: bool
  )
    requires n <= |s.placements| == |calls| && raised == DeprovisionLoop(env, s, actor, luId, username, hard, calls, n).1
    ensures !raised <==> forall i: nat | i < n :: !Sticks(s, luId, i)
  {
    if n == 0 {
    } else {
      LoopTurns(env, s, actor, luId, username, hard, calls, n);
      LoopRaisesIff(env, s, actor, luId, username, hard, calls, n - 1,
                    DeprovisionLoop(env, s, actor, luId, username, hard, calls, n - 1).1);
    }
  }

  lemma {:induction false} LoopIsFirst(
    env: Env, s: State, actor: string, luId: string, username: string, hard: bool, calls: seq<Call>, n: nat, t: State
  )
    requires n <= |s.placements| == |calls| && (t, false) == DeprovisionLoop(env, s, actor, luId, username, hard, calls, n)
    ensures t == DeprovisionFirst(env, s, actor, luId, username, hard, calls, n)
  {
    if n == 0 {
    } else {
      LoopIsFirst(env, s, actor, luId, username, hard, calls, n - 1,
                  DeprovisionLoop(env, s, actor, luId, username, hard, calls, n - 1).0);
    }
  }

  /** A deprovision commits exactly if no placement it would act on is on a node whose adapter cannot be built. */
  lemma DeprovisionCommitsIff(env: Env, s: State, actor: string, luId: string, hard: bool, calls: seq<Call>)
    requires |calls| == |s.placements| && luId in s.identities
    ensures var (t, end) := Deprovision(env, s, actor, luId, hard, calls);
            && (end == Committed <==> forall i: nat | i < |calls| :: !Sticks(s, luId, i))
            && (end == Committed ==>
                  t == DeprovisionFirst(env, s, actor, luId, s.identities[luId].username, hard, calls, |calls|))
            && (end != Committed ==> t == s.(world := t.world))
  {
    var username := s.identities[luId].username;
    var (t, raised) := DeprovisionLoop(env, s, actor, luId, username, hard, calls, |calls|);
    LoopRaisesIff(env, s, actor, luId, username, hard, calls, |calls|, raised);
    if !raised {
      LoopIsFirst(env, s, actor, luId, username, hard, calls, |calls|, t);
    }
  }

  lemma {:induction false} ElsewhereMembers(ps: seq<Placement>, nodeId: string)
    requires OnePerSite(ps)
    ensures OnePerSite(PlacedElsewhere(ps, nodeId))
    ensures forall p :: p in PlacedElsewhere(ps, nodeId) <==> p in ps && p.nodeId != nodeId
  {
    if ps == [] {
    } else {
      var front, last := ps[..|ps| - 1], ps[|ps| - 1];
      ElsewhereMembers(front, nodeId);
      assert ps == front + [last];
      var rest := PlacedElsewhere(front, nodeId);
      forall i | 0 <= i < |rest|
        ensures !IsFor(rest[i], last.luId, last.nodeId)
      {
        assert rest[i] in rest && rest[i] in front;
        var k :| 0 <= k < |front| && front[k] == rest[i];
        assert front[k] == ps[k];
      }
    }
  }

  lemma WorldKeepsInv(env: Env, s: State, world: map<string, Node.NodeState>)
    requires Inv(env, s) && world.Keys == s.world.Keys
    ensures Inv(env, s.(world := world))
  {
    assert forall node :: node in world <==> node in world.Keys;
  }

  lemma ProvisionKeepsInv(env: Env, s: State, actor: string, username: string, email: Option<string>, freshId: string, jobs: seq<Job>)
    requires Inv(env, s)
    ensures Inv(env, Provision(env, s, actor, username, email, freshId, jobs).0)
  {
    var t := Provision(env, s, actor, username, email, freshId, jobs).0;
    ProvisionCommitsIff(env, s, actor, username, email, freshId, jobs);
    if AllReady(s, jobs) {
      var (s1, luId) := GetOrCreate(s, username, email, freshId);
      ProvisionAllKeepsInv(env, s1, actor, luId, username, jobs);
    } else {
      WorldKeepsInv(env, s, t.world);
    }
  }

  lemma DeprovisionRequestKeepsInv(env: Env, s: State, actor: string, luId: string, hard: bool, calls: seq<Call>)
    requires Inv(env, s) && |calls| == |s.placements|
    ensures Inv(env, Deprovision(env, s, actor, luId, hard, calls).0)
  {
    if luId in s.identities {
      var (t, end) := Deprovision(env, s, actor, luId, hard, calls);
      DeprovisionCommitsIff(env, s, actor, luId, hard, calls);
      if end == Committed {
        DeprovisionKeepsInv(env, s, actor, luId, s.identities[luId].username, hard, calls, |calls|, t);
      } else {
        WorldKeepsInv(env, s, t.world);
      }
    }
  }

  lemma DropKeepsInv(env: Env, s: State, nodeId: string)
    requires Inv(env, s)
    ensures Inv(env, s.(nodes := s.nodes - {nodeId}, placements := PlacedElsewhere(s.placements, nodeId)))
  {
    ElsewhereMembers(s.placements, nodeId);
  }

  lemma StepKeepsInv(env: Env, s: State, step: Step)
    requires Inv(env, s) && Possible(s, step)
    ensures Inv(env, Do(env, s, step))
  {
    match step
    case ProvisionStep(actor, username, email, freshId, jobs) => ProvisionKeepsInv(env, s, actor, username, email, freshId, jobs);
    case DeprovisionStep(actor, luId, hard, calls) => DeprovisionRequestKeepsInv(env, s, actor, luId, hard, calls);
    case SyncStep(nodeId, fault) =>
      if Ready(s, nodeId) {
        SyncKeepsInv(env, s, nodeId, fault);
      }
    case BulkCreateStep(actor, nodeId, orgId, users) =>
      if Ready(s, nodeId) {
        BulkCreateKeepsInv(env, s, actor, nodeId, orgId, users);
      }
    case BulkActionStep(actor, nodeId, orgId, kind, ids) =>
      if Ready(s, nodeId) {
        BulkActionKeepsInv(env, s, actor, nodeId, orgId, kind, ids);
      }
    case PerformStep(actor, action, nodeId, kindName, target, params, op, call) =>
      if Ready(s, nodeId) {
        AttemptKeepsChain(env, s, actor, action, nodeId, kindName, target, params, op, call);
      }
    case NodeChanges(_, _) =>
    case PutNode(_, _, _) =>
    case DropNode(nodeId) => DropKeepsInv(env, s, nodeId);
  }

  /**
   Over all interleavings, with adapters failing at will, nodes changing behind the control plane's back and
   nodes registered, edited and deleted: one placement per identity and site, none pending, remote ids kept,
   every placement on a registered node, and a verified audit chain.
   */
  lemma {:induction false} RunsKeepInv(env: Env, s: State, steps: seq<Step>, t: State)
    requires Inv(env, s) && Reaches(env, s, steps, t)
    ensures Inv(env, t)
    decreases |steps|
  {
    if steps == [] {
    } else {
      StepKeepsInv(env, s, steps[0]);
      RunsKeepInv(env, Do(env, s, steps[0]), steps[1..], t);
    }
  }

  lemma StepKeepsIndex(env: Env, s: State, step: Step)
    requires Indexed(s) && Possible(s, step)
    ensures Indexed(Do(env, s, step))
  {
    if step.ProvisionStep? {
      GetOrCreateKeepsIndex(s, step.username, step.email, step.freshId);
    }
  }

  /** Usernames stay unique over all of them, too. */
  lemma {:induction false} RunsKeepIndex(env: Env, s: State, steps: seq<Step>, t: State)
    requires Indexed(s) && Reaches(env, s, steps, t)
    ensures Indexed(t)
    decreases |steps|
  {
    if steps == [] {
    } else {
      StepKeepsIndex(env, s, steps[0]);
      RunsKeepIndex(env, Do(env, s, steps[0]), steps[1..], t);
    }
  }

  /** In particular from empty tables, with the program's own hashing, serialisation and the modelled node. */
  lemma FreshFleetStaysSound(
    sha: Sha, nodes: map<string, NodeRow>, world: map<string, Node.NodeState>, steps: seq<Step>, t: State
  )
    requires Reaches(RealEnv(sha), State(map[], map[], nodes, world, [], []), steps, t)
    ensures OnePerSite(t.placements) && RowsOk(t.placements) && ChainOk(AuditHasher(sha), t.log) && Indexed(t)
  {
    RunsKeepInv(RealEnv(sha), State(map[], map[], nodes, world, [], []), steps, t);
    RunsKeepIndex(RealEnv(sha), State(map[], map[], nodes, world, [], []), steps, t);
  }

  // ----- one audit row per mutation attempted -----

  /** The log grew by these rows and no other change. */
  ghost predicate Grew(before: seq<Entry<Payload>>, after: seq<Entry<Payload>>, n: nat) {
    |after| == |before| + n && after[..|before|] == before
  }

  /** Row `e` records this outcome on this node. */
  predicate Records(e: Entry<Payload>, action: string, nodeId: string, ok: bool) {
    && e.payload.action == action && e.payload.nodeId == Some(nodeId)
    && e.payload.result == (if ok then "success" else "failure") && (e.payload.detail.None? <==> ok)
  }

  lemma AttemptWritesOneRow(
    env: Env, s: State, actor: string, action: string, nodeId: string, kind: string, target: Option<string>, params: string,
    op: Node.Op, call: Call
  )
    requires Registered(s, nodeId)
    ensures var (t, res) := Attempt(env, s, actor, action, nodeId, kind, target, params, op, call);
            Grew(s.log, t.log, 1) && Records(t.log[|s.log|], action, nodeId, res.Ok?)
  {
  }

  /** The log grew by one row per outcome, each recording its outcome. */
  ghost predicate RecordsAll(
    before: seq<Entry<Payload>>, after: seq<Entry<Payload>>, action: string, nodeId: string, outcomes: seq<Outcome>
  ) {
    && Grew(before, after, |outcomes|)
    && forall j | 0 <= j < |outcomes| :: Records(after[|before| + j], action, nodeId, outcomes[j].ok)
  }

  lemma RecordsGrow(
    start: seq<Entry<Payload>>, before: seq<Entry<Payload>>, after: seq<Entry<Payload>>, action: string, nodeId: string,
    outcomes: seq<Outcome>, o: Outcome
  )
    requires RecordsAll(start, before, action, nodeId, outcomes)
    requires Grew(before, after, 1) && Records(after[|before|], action, nodeId, o.ok)
    ensures RecordsAll(start, after, action, nodeId, outcomes + [o])
  {
  }

  /** A bulk create writes one row per user, in order, telling the outcome reported for that user. */
  lemma {:induction false} BulkCreateRows(env: Env, s: State, actor: string, nodeId: string, orgId: string, rows: seq<UserRow>)
    requires Registered(s, nodeId)
    ensures var (t, outcomes) := BulkCreate(env, s, actor, nodeId, orgId, rows);
            |outcomes| == |rows| && RecordsAll(s.log, t.log, "create_user", nodeId, outcomes)
  {
    if rows == [] {
    } else {
      var n := |rows| - 1;
      var (before, outcomes) := BulkCreate(env, s, actor, nodeId, orgId, rows[..n]);
      BulkCreateRows(env, s, actor, nodeId, orgId, rows[..n]);
      var params, op := BulkCreateParams(env, orgId, rows[n].name), Node.Create(orgId, rows[n].name);
      AttemptWritesOneRow(env, before, actor, "create_user", nodeId, "user", None, params, op, rows[n].call);
      var (t, res) := Attempt(env, before, actor, "create_user", nodeId, "user", None, params, op, rows[n].call);
      RecordsGrow(s.log, before.log, t.log, "create_user", nodeId, outcomes, Outcome(rows[n].name, res.Ok?));
    }
  }

  /** And so does a bulk action. */
  lemma {:induction false} BulkActionRows(
    env: Env, s: State, actor: string, nodeId: string, orgId: string, k: BulkKind, rows: seq<IdRow>
  )
    requires Registered(s, nodeId)
    ensures var (t, outcomes) := BulkAction(env, s, actor, nodeId, orgId, k, rows);
            |outcomes| == |rows| && RecordsAll(s.log, t.log, BulkName(k), nodeId, outcomes)
  {
    if rows == [] {
    } else {
      var n := |rows| - 1;
      var (before, outcomes) := BulkAction(env, s, actor, nodeId, orgId, k, rows[..n]);
      BulkActionRows(env, s, actor, nodeId, orgId, k, rows[..n]);
      var params, op := env.dumps([("org_id", Json.Str(orgId))]), BulkOp(k, rows[n].id);
      AttemptWritesOneRow(env, before, actor, BulkName(k), nodeId, "user", Some(rows[n].id), params, op, rows[n].call);
      var (t, res) := Attempt(env, before, actor, BulkName(k), nodeId, "user", Some(rows[n].id), params, op, rows[n].call);
      RecordsGrow(s.log, before.log, t.log, BulkName(k), nodeId, outcomes, Outcome(rows[n].id, res.Ok?));
    }
  }

  function CountSuccess(es: seq<Entry<Payload>>): nat {
    if es == [] then 0 else CountSuccess(es[..|es| - 1]) + if es[|es| - 1].payload.result == "success" then 1 else 0
  }

  lemma {:induction false} CountsAgree(rows: seq<Entry<Payload>>, action: string, nodeId: string, outcomes: seq<Outcome>)
    requires |rows| == |outcomes| && forall j | 0 <= j < |rows| :: Records(rows[j], action, nodeId, outcomes[j].ok)
    ensures CountSuccess(rows) == CountOk(outcomes)
  {
    if rows == [] {
    } else {
      var n := |rows| - 1;
      CountsAgree(rows[..n], action, nodeId, outcomes[..n]);
      assert Records(rows[n], action, nodeId, outcomes[n].ok);
      assert "success"[0] != "failure"[0];
    }
  }

  /** The count a bulk request returns is the number of success rows it wrote. */
  lemma BulkCountsMatchAudit(
    env: Env, s: State, actor: string, nodeId: string, orgId: string, users: seq<UserRow>, k: BulkKind, ids: seq<IdRow>
  )
    requires Registered(s, nodeId)
    ensures var (t, outcomes) := BulkCreate(env, s, actor, nodeId, orgId, users);
            |t.log| >= |s.log| && CountOk(outcomes) == CountSuccess(t.log[|s.log|..])
    ensures var (t, outcomes) := BulkAction(env, s, actor, nodeId, orgId, k, ids);
            |t.log| >= |s.log| && CountOk(outcomes) == CountSuccess(t.log[|s.log|..])
  {
    BulkCreateRows(env, s, actor, nodeId, orgId, users);
    BulkActionRows(env, s, actor, nodeId, orgId, k, ids);
    var (t, outcomes) := BulkCreate(env, s, actor, nodeId, orgId, users);
    var (t', outcomes') := BulkAction(env, s, actor, nodeId, orgId, k, ids);
    CountsAgree(t.log[|s.log|..], "create_user", nodeId, outcomes);
    CountsAgree(t'.log[|s.log|..], BulkName(k), nodeId, outcomes');
  }

  /** Only a bulk delete removes the user; the other kinds set or clear exactly their flag. */
  lemma BulkKindsDiffer(n: Node.NodeState, k: BulkKind, id: string, freshId: string, at: nat)
    requires Node.Find(n.users, id) == Some(at) && Node.DistinctIds(n.users)
    ensures var users := Node.Apply(n, BulkOp(k, id), freshId).0.users;
            match k
            case BulkDelete => Node.Ids(users) == Node.Ids(n.users) - {id}
            case BulkRevoke => users == n.users[at := n.users[at].(revoked := true, hasProfile := false)]
            case BulkDisable => users == n.users[at := n.users[at].(disabled := true)]
            case BulkEnable => users == n.users[at := n.users[at].(disabled := false)]
  {
    if k == BulkDelete {
      Node.IdsAfterDelete(n.users, at);
    }
  }

  /** How many placements a deprovision acts on. */
  function CountActed(s: State, luId: string, n: nat): nat
    requires n <= |s.placements|
  {
    if n == 0 then 0 else CountActed(s, luId, n - 1) + if Acts(s, luId, n - 1) then 1 else 0
  }

  /** Deprovisioning never changes a placement's identity, node or remote id. */
  ghost predicate SameKeys(ps: seq<Placement>, qs: seq<Placement>) {
    |ps| == |qs| && forall i | 0 <= i < |ps| :: ps[i].luId == qs[i].luId && ps[i].nodeId == qs[i].nodeId && ps[i].remote == qs[i].remote
  }

  ghost predicate Deprovisioned(s: State, t: State, n: nat) {
    Grew(s.log, t.log, n) && SameKeys(s.placements, t.placements)
    && t.nodes == s.nodes && forall node :: node in t.world <==> node in s.world
  }

  lemma DeprovisionOneWrites(env: Env, s: State, actor: string, luId: string, username: string, hard: bool, i: nat, call: Call)
    requires i < |s.placements|
    ensures Deprovisioned(s, DeprovisionOne(env, s, actor, luId, username, hard, i, call), if Acts(s, luId, i) then 1 else 0)
  {
  }

  /** The row tells how the call fared; a success marks the placement revoked, a failure only notes the error. */
  lemma DeprovisionRowTells(env: Env, s: State, actor: string, luId: string, username: string, hard: bool, i: nat, call: Call)
    requires i < |s.placements| && Acts(s, luId, i)
    ensures var t := DeprovisionOne(env, s, actor, luId, username, hard, i, call);
            var (p, p') := (s.placements[i], t.placements[i]);
            && Records(t.log[|s.log|], if hard then "deprovision_delete" else "deprovision_revoke", p.nodeId, p'.lastError.None?)
            && t.log[|s.log|].payload.targetId == p.remote
            && p' == if p'.lastError.None? then p.(status := Revoked, lastError := None) else p.(lastError := p'.lastError)
  {
  }

  lemma DeprovisionedMore(s: State, before: State, t: State, luId: string, i: nat, n: nat)
    requires i < |s.placements| && Deprovisioned(s, before, n)
    requires i < |before.placements| && Deprovisioned(before, t, if Acts(before, luId, i) then 1 else 0)
    ensures Deprovisioned(s, t, n + if Acts(s, luId, i) then 1 else 0)
  {
  }

  /** Deprovisioning writes one row per placement of the identity that has a remote id. */
  lemma {:induction false} DeprovisionRows(
    env: Env, s: State, actor: string, luId: string, username: string, hard: bool, calls: seq<Call>, n: nat, t: State
  )
    requires n <= |s.placements| == |calls|
    requires t == DeprovisionFirst(env, s, actor, luId, username, hard, calls, n)
    ensures Deprovisioned(s, t, CountActed(s, luId, n))
  {
    if n == 0 {
    } else {
      var before := DeprovisionFirst(env, s, actor, luId, username, hard, calls, n - 1);
      DeprovisionRows(env, s, actor, luId, username, hard, calls, n - 1, before);
      DeprovisionOneWrites(env, before, actor, luId, username, hard, n - 1, calls[n - 1]);
      DeprovisionedMore(s, before, t, luId, n - 1, CountActed(s, luId, n - 1));
    }
  }

  // ----- identities -----

  /** The username index and the identity table agree. */
  predicate Indexed(s: State) {
    && (forall n | n in s.names :: s.names[n] in s.identities && s.identities[s.names[n]].username == n)
    && forall id | id in s.identities :: s.identities[id].username in s.names && s.names[s.identities[id].username] == id
  }

  lemma GetOrCreateKeepsIndex(s: State, username: string, email: Option<string>, freshId: string)
    requires Indexed(s) && freshId !in s.identities
    ensures Indexed(GetOrCreate(s, username, email, freshId).0)
  {
  }

  /** One identity per username: asking again finds it, and only an empty email is ever filled in. */
  lemma OneIdentityPerName(s: State, username: string, email: Option<string>, freshId: string, email': Option<string>, freshId': string)
    requires Indexed(s) && freshId !in s.identities
    ensures var (t, id) := GetOrCreate(s, username, email, freshId);
            && Indexed(t) && id in t.identities && t.identities[id].username == username
            && (username in s.names ==> id == s.names[username])
            && (forall other | other in t.identities && other != id :: other in s.identities)
            && (forall other | other in s.identities && other != id :: other in t.identities && t.identities[other] == s.identities[other])
            && (id in s.identities && Truthy(s.identities[id].email) ==> t.identities[id] == s.identities[id])
            && (Truthy(email) ==> Truthy(t.identities[id].email))
            && GetOrCreate(t, username, email', freshId').1 == id
  {
    GetOrCreateKeepsIndex(s, username, email, freshId);
  }
}
