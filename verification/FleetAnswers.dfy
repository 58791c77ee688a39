/** What single calls, requests and reports of the fleet say and leave, field by field. */
module FleetAnswers {
  import opened Wrappers
  import opened Text
  import opened HashChain
  import opened AuditLog
  import opened Fleet
  import opened FleetRuns
  import opened ProvisionSites
  import opened DriftReport
  import Json
  import Node = NodeShim

  // ----- one call and its row -----

  /** A call succeeds exactly if it reaches the node, the node agrees, and the answer comes back; an error tells which of these failed. */
  lemma CallOutcome(env: Env, n: Node.NodeState, op: Node.Op, call: Call)
    ensures var (n', res) := Deliver(env, n, op, call);
            var (done, reply) := env.node(n, op, call.freshId);
            && n' == (if call.fault.Unsent? then n else done)
            && (res.Ok? <==> call.fault.Delivered? && reply.Good?) && (res.Ok? ==> res.id == reply.id)
            && (!call.fault.Delivered? ==> res == AdapterError(call.fault.text))
            && (call.fault.Delivered? && reply.Bad? ==>
                  res == AdapterError("node shim " + NatText(reply.code) + ": " + reply.text))
  {
  }

  /**
   The row says when, who, what, on which node, about whom and how it ended: the user that the node returned
   when none was given, and the error text of a failure.
   */
  lemma RowSays(
    env: Env, s: State, actor: string, action: string, nodeId: string, kind: string, target: Option<string>, params: string,
    op: Node.Op, call: Call
  )
    requires Registered(s, nodeId)
    ensures var (t, res) := Attempt(env, s, actor, action, nodeId, kind, target, params, op, call);
            && Grew(s.log, t.log, 1) && t == s.(world := t.world, log := t.log)
            && t.world == s.world[nodeId := Deliver(env, s.world[nodeId], op, call).0] && res == Deliver(env, s.world[nodeId], op, call).1
            && var e := t.log[|s.log|];
               var p := e.payload;
               && e.prevHash == Head(s.log) && e.entryHash == env.hasher.digest(Head(s.log) + env.hasher.text(p))
               && p.ts == call.ts && p.actor == actor && p.action == action && p.params == params && p.requestId == None
               && p.nodeId == Some(nodeId) && p.nodeName == Some(s.nodes[nodeId].name) && p.targetType == Some(kind)
               && p.targetId == (if target.Some? then target else if res.Ok? then res.id else None)
               && p.result == (if res.Ok? then "success" else "failure")
               && p.detail == (if res.Ok? then None else Some(res.text))
  {
  }

  /** Read back, the parameters recorded give what the request was about. */
  lemma ParamsTell(sha: Sha, orgId: string, name: string)
    ensures Json.ReadObject(ProvisionParams(RealEnv(sha), orgId, name))
         == Some([("org_id", Json.Str(orgId)), ("username", Json.Str(name))])
    ensures Json.ReadObject(BulkCreateParams(RealEnv(sha), orgId, name))
         == Some([("bulk", Json.Bool(true)), ("name", Json.Str(name)), ("org_id", Json.Str(orgId))])
  {
    Json.ReadUndoesPrint([("org_id", Json.Str(orgId)), ("username", Json.Str(name))]);
    Json.ReadUndoesPrint([("bulk", Json.Bool(true)), ("name", Json.Str(name)), ("org_id", Json.Str(orgId))]);
  }

  /** The action recorded for a bulk request is the one carried out. */
  lemma BulkNameTells(k: BulkKind, id: string)
    ensures BulkName(k) == "bulk_delete" <==> BulkOp(k, id) == Node.Delete(id)
    ensures BulkName(k) == "bulk_revoke" <==> BulkOp(k, id) == Node.Revoke(id)
    ensures BulkName(k) == "bulk_disable" <==> BulkOp(k, id) == Node.SetDisabled(id, true)
    ensures BulkName(k) == "bulk_enable" <==> BulkOp(k, id) == Node.SetDisabled(id, false)
  {
    assert |"bulk_delete"| == |"bulk_revoke"| == |"bulk_enable"| == 11 && |"bulk_disable"| == 12;
    assert "bulk_delete"[5] == 'd' && "bulk_revoke"[5] == 'r' && "bulk_enable"[5] == 'e';
  }

  /** Each user of a bulk create is asked for in the organisation given, in order, and the row says who asked. */
  lemma BulkCreateAsks(env: Env, s: State, actor: string, nodeId: string, orgId: string, rows: seq<UserRow>, last: UserRow)
    requires Registered(s, nodeId)
    ensures var (before, outcomes) := BulkCreate(env, s, actor, nodeId, orgId, rows);
            var (after, outcomes') := BulkCreate(env, s, actor, nodeId, orgId, rows + [last]);
            var (n', res) := Deliver(env, before.world[nodeId], Node.Create(orgId, last.name), last.call);
            && after.world == before.world[nodeId := n'] && outcomes' == outcomes + [Outcome(last.name, res.Ok?)]
            && Grew(before.log, after.log, 1)
            && var p := after.log[|before.log|].payload;
               && p.ts == last.call.ts && p.actor == actor && p.params == BulkCreateParams(env, orgId, last.name)
               && p.targetType == Some("user") && p.targetId == (if res.Ok? then res.id else None)
  {
    assert (rows + [last])[..|rows|] == rows;
  }

  /** Each user of a bulk action is dealt with as its kind says, in order, and the row names it and who asked. */
  lemma BulkActionAsks(
    env: Env, s: State, actor: string, nodeId: string, orgId: string, k: BulkKind, rows: seq<IdRow>, last: IdRow
  )
    requires Registered(s, nodeId)
    ensures var (before, outcomes) := BulkAction(env, s, actor, nodeId, orgId, k, rows);
            var (after, outcomes') := BulkAction(env, s, actor, nodeId, orgId, k, rows + [last]);
            var (n', res) := Deliver(env, before.world[nodeId], BulkOp(k, last.id), last.call);
            && after.world == before.world[nodeId := n'] && outcomes' == outcomes + [Outcome(last.id, res.Ok?)]
            && Grew(before.log, after.log, 1)
            && var p := after.log[|before.log|].payload;
               && p.ts == last.call.ts && p.actor == actor && p.params == env.dumps([("org_id", Json.Str(orgId))])
               && p.targetType == Some("user") && p.targetId == Some(last.id)
  {
    assert (rows + [last])[..|rows|] == rows;
  }

  // ----- provisioning and deprovisioning -----

  /**
   One target asks its node for the user in the organisation given, and records that. Success makes the placement active
   there with the new remote id and no error; failure marks it failed with the error and keeps what it had.
   */
  lemma TargetLeaves(env: Env, s: State, actor: string, luId: string, username: string, job: Job)
    requires Registered(s, job.target.nodeId)
    ensures var (site, org) := (job.target.nodeId, job.target.orgId);
            var t := ProvisionOne(env, s, actor, luId, username, job);
            var (before, after) := (Lookup(s.placements, luId, site), Lookup(t.placements, luId, site));
            var (n', res) := Deliver(env, s.world[site], Node.Create(org, username), job.call);
            && t.world == s.world[site := n'] && after.Some? && after.value.luId == luId && after.value.nodeId == site
            && Grew(s.log, t.log, 1) && t.log[|s.log|].payload.actor == actor
            && t.log[|s.log|].payload.params == ProvisionParams(env, org, username)
            && (res.Ok? ==>
                  && after.value.remote == res.id && after.value.orgId == org
                  && after.value.status == Active && after.value.lastError == None)
            && (res.AdapterError? ==>
                  && after.value.status == Failed && after.value.lastError == Some(res.text)
                  && after.value.remote == (if before.Some? then before.value.remote else None)
                  && after.value.orgId == (if before.Some? then before.value.orgId else org))
  {
    ProvisionOneEffect(env, s, actor, luId, username, job);
    ProvisionOneIsLocal(env, s, actor, luId, username, job, luId, job.target.nodeId);
    LookupFinds(ProvisionOne(env, s, actor, luId, username, job).placements, luId, job.target.nodeId);
  }

  /** A target that is not a registered node makes no call; its placement fails and keeps its remote id and organisation. */
  lemma UnknownTargetLeaves(env: Env, s: State, phase: Phase, actor: string, luId: string, username: string, job: Job)
    requires !phase.Raised? && !Registered(s, job.target.nodeId)
    ensures var (site, org) := (job.target.nodeId, job.target.orgId);
            var t := ProvisionNext(env, s, phase, actor, luId, username, job).0;
            var (before, after) := (Lookup(s.placements, luId, site), Lookup(t.placements, luId, site));
            && t == s.(placements := t.placements)
            && after == Some(if before.Some? then before.value.(status := Failed, lastError := Some("node not found"))
                             else Placement(luId, site, org, None, Failed, Some("node not found")))
  {
    var before := Lookup(s.placements, luId, job.target.nodeId);
    LookupFinds(s.placements, luId, job.target.nodeId);
    LookupAfterUpsert(s.placements, Placed(before, luId, job.target, AdapterError("node not found")), luId, job.target.nodeId);
  }

  /** A new identity gets the fresh id, the name and the email given; a known one at most an email where it had none. */
  lemma IdentityLeft(s: State, username: string, email: Option<string>, freshId: string)
    requires FleetRuns.Indexed(s)
    ensures var (t, id) := GetOrCreate(s, username, email, freshId);
            && t == s.(identities := t.identities, names := t.names)
            && (username !in s.names ==> id == freshId && t.identities == s.identities[freshId := Identity(username, email)])
            && (username in s.names ==>
                  && id == s.names[username] && t.names == s.names && t.identities.Keys == s.identities.Keys
                  && t.identities[id].email ==
                       if Truthy(email) && !Truthy(s.identities[id].email) then email else s.identities[id].email)
  {
  }

  /** The placement is the identity's, on a registered node, with a remote id to end. */
  predicate Asked(s: State, luId: string, p: Placement) {
    p.luId == luId && p.nodeId in s.nodes && p.nodeId in s.world && p.remote.Some?
  }

  /** An unknown identity is reported and changes nothing; a known one is deprovisioned or rolled back. */
  lemma DeprovisionEnds(env: Env, s: State, actor: string, luId: string, hard: bool, calls: seq<Call>)
    requires |calls| == |s.placements|
    ensures var (t, end) := Deprovision(env, s, actor, luId, hard, calls);
            && (end == NotFound <==> luId !in s.identities) && (end == NotFound ==> t == s)
            && (end == RolledBack <==>
                luId in s.identities && exists p | p in s.placements && Asked(s, luId, p) :: s.nodes[p.nodeId].defect.Some?)
  {
    if luId in s.identities {
      DeprovisionCommitsIff(env, s, actor, luId, hard, calls);
      forall i: nat | i < |calls|
        ensures Sticks(s, luId, i) <==> Asked(s, luId, s.placements[i]) && s.nodes[s.placements[i].nodeId].defect.Some?
      {
      }
    }
  }

  /** A placement acted on asks its node to delete or to revoke the remote id, and the row names that id and who asked. */
  lemma DeprovisionAsks(env: Env, s: State, actor: string, luId: string, username: string, hard: bool, i: nat, call: Call)
    requires i < |s.placements| && Asked(s, luId, s.placements[i])
    ensures var p := s.placements[i];
            var t := DeprovisionOne(env, s, actor, luId, username, hard, i, call);
            var (n', res) := Deliver(env, s.world[p.nodeId], if hard then Node.Delete(p.remote.value) else Node.Revoke(p.remote.value), call);
            && t.world == s.world[p.nodeId := n'] && Grew(s.log, t.log, 1)
            && t.log[|s.log|].payload.actor == actor && t.log[|s.log|].payload.targetId == p.remote
            && t.log[|s.log|].payload.params == env.dumps([("username", Json.Str(username))])
            && t.placements == s.placements[i := if res.Ok? then p.(status := Revoked, lastError := None)
                                                 else p.(lastError := Some(res.text))]
  {
  }

  /** A deprovision revokes each placement asked for, or notes why it could not; every other placement stays as it is. */
  lemma {:induction false} DeprovisionLeaves(
    env: Env, s: State, actor: string, luId: string, username: string, hard: bool, calls: seq<Call>, n: nat, i: nat
  )
    requires n <= |s.placements| == |calls| && i < |s.placements|
    ensures var t := DeprovisionFirst(env, s, actor, luId, username, hard, calls, n);
            var (p, p') := (s.placements[i], t.placements[i]);
            if i < n && Asked(s, luId, p)
            then p' == p.(status := Revoked, lastError := None) || (p'.lastError.Some? && p' == p.(lastError := p'.lastError))
            else p' == p
  {
    if n == 0 {
    } else {
      DeprovisionLeaves(env, s, actor, luId, username, hard, calls, n - 1, i);
      DeprovisionLeaves(env, s, actor, luId, username, hard, calls, n - 1, n - 1);
    }
  }

  // ----- reconciliation -----

  /** After a sync of a node that answers, presence alone decides each placement's status; nothing else of it changes but the error. */
  lemma SyncDecides(s: State, nodeId: string, i: nat)
    requires Registered(s, nodeId) && i < |s.placements|
    ensures var t := Sync(s, nodeId, Delivered).0;
            var p := s.placements[i];
            var tied := p.nodeId == nodeId && p.remote.Some? && p.remote.value != "";
            && t == s.(placements := t.placements) && |t.placements| == |s.placements|
            && t.placements[i] ==
                 if !tied then p
                 else if p.remote.value in Node.Ids(s.world[nodeId].users) then p.(status := Active, lastError := None)
                 else p.(status := Missing)
  {
    UserIdsAreTheIds(s.world[nodeId].users);
  }

  /** A node that does not answer changes nothing, and its report says so, with the placements tracked and the error. */
  lemma SilentNodeReport(s: State, nodeId: string, fault: Fault)
    requires Registered(s, nodeId) && !fault.Delivered?
    ensures var (t, r) := Sync(s, nodeId, fault);
            && t == s && !r.reachable && r.error == Some(fault.text) && !InSync(r)
            && r.tracked == CountOn(s.placements, nodeId) && r.present == 0 && r.missing == [] && r.untracked == []
  {
  }

  /** The report of a node that answers carries no error, and names each untracked user as the node does. */
  lemma ReportNames(s: State, nodeId: string, d: Drift)
    requires Registered(s, nodeId) && d in Sync(s, nodeId, Delivered).1.untracked
    ensures Sync(s, nodeId, Delivered).1.error == None && Sync(s, nodeId, Delivered).1.reachable
    ensures exists u :: u in s.world[nodeId].users && u.id == d.remote && d.username == Some(u.name)
  {
    var users := s.world[nodeId].users;
    var ids := UserIds(users);
    UserIdsAreTheIds(users);
    UntrackedMembers(ids, TrackedOn(s.placements, nodeId, ids), users);
    NameBelongs(users, d.remote);
  }

  lemma {:induction false} NameBelongs(users: seq<Node.User>, id: string)
    requires id in Node.Ids(users)
    ensures exists u :: u in users && u.id == id && u.name == NameOf(users, id)
  {
    var front, last := users[..|users| - 1], users[|users| - 1];
    assert users == front + [last];
    if last.id != id {
      NameBelongs(front, id);
    }
  }

  /** The lists of a report follow the order of the placements and of the node's users. */
  lemma ReportsInOrder(ps: seq<Placement>, p: Placement, nodeId: string, ids: seq<string>, users: seq<Node.User>, u: Node.User)
    ensures MissingOn(ps, nodeId, ids) <= MissingOn(ps + [p], nodeId, ids)
    ensures UserIds(users) <= UserIds(users + [u])
  {
    assert (ps + [p])[..|ps|] == ps && (users + [u])[..|users|] == users;
  }

  lemma UntrackedInOrder(ids: seq<string>, id: string, tracked: set<string>, users: seq<Node.User>)
    ensures UntrackedOn(ids, tracked, users) <= UntrackedOn(ids + [id], tracked, users)
  {
    assert (ids + [id])[..|ids|] == ids;
  }

  /** Where an id occurs twice on a node, the name told is that of its last user. */
  lemma NameIsLast(users: seq<Node.User>, u: Node.User, id: string)
    ensures NameOf(users + [u], id) == if u.id == id then u.name else NameOf(users, id)
  {
    assert (users + [u])[..|users|] == users;
  }

  /** In a sweep a node whose adapter cannot be built is not reachable, its report carries that error, and nothing changes. */
  lemma DefectReport(s: State, nodeId: string, fault: Fault)
    requires Registered(s, nodeId) && s.nodes[nodeId].defect.Some?
    ensures var (t, r) := Sweep(s, nodeId, fault);
            t == s && r == Report(false, 0, 0, [], [], s.nodes[nodeId].defect) && !InSync(r)
  {
  }

  /** A swept node shows as in sync exactly if its adapter can be built, it answers, and both sides know the same ids. */
  lemma SweptInSyncIff(s: State, nodeId: string, fault: Fault)
    requires Registered(s, nodeId)
    ensures InSync(Sweep(s, nodeId, fault).1) <==>
            && s.nodes[nodeId].defect.None? && fault.Delivered?
            && RemoteIds(s.placements, nodeId) == Node.Ids(s.world[nodeId].users)
  {
    InSyncIffSameIds(s, nodeId, fault);
  }

  /** And so does every entry of a whole sweep, whatever happens at the other nodes. */
  lemma SweepEntryInSyncIff(s: State, nodeIds: seq<string>, faults: seq<Fault>, i: nat)
    requires |nodeIds| == |faults| && AllKnown(s, nodeIds) && i < |nodeIds|
    ensures nodeIds[i] in nodeIds
    ensures var node, r := nodeIds[i], SyncAll(s, nodeIds, faults).1[i];
            && (InSync(r) <==>
                && s.nodes[node].defect.None? && faults[i].Delivered?
                && RemoteIds(s.placements, node) == Node.Ids(s.world[node].users))
            && (s.nodes[node].defect.Some? ==> !r.reachable && r.error == s.nodes[node].defect)
            && (s.nodes[node].defect.None? && !faults[i].Delivered? ==> !r.reachable && r.error == Some(faults[i].text))
  {
    SweepReportsEachAlone(s, nodeIds, faults, i);
    SweptInSyncIff(s, nodeIds[i], faults[i]);
  }
}
