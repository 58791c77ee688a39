/** What a drift report means, and how provisioning and deprovisioning show up in the next one. */
module DriftReport {
  import opened Wrappers
  import opened HashChain
  import opened AuditLog
  import opened Fleet
  import opened FleetRuns
  import opened ProvisionSites
  import Node = NodeShim

  // ----- the sets compared -----

  /** The remote ids that placements claim on a node. */
  function RemoteIds(ps: seq<Placement>, nodeId: string): set<string> {
    set p | p in ps && p.nodeId == nodeId && Truthy(p.remote) :: p.remote.value
  }

  predicate Distinct(ids: seq<string>) {
    forall i, j | 0 <= i < j < |ids| :: ids[i] != ids[j]
  }

  lemma {:induction false} UserIdsAreTheIds(users: seq<Node.User>)
    ensures Distinct(UserIds(users)) && forall id :: id in UserIds(users) <==> id in Node.Ids(users)
  {
    if users == [] {
    } else {
      var front, last := users[..|users| - 1], users[|users| - 1];
      UserIdsAreTheIds(front);
      assert users == front + [last];
      forall id
        ensures id in Node.Ids(users) <==> id in Node.Ids(front) || id == last.id
      {
        if id in Node.Ids(front) {
          var u :| u in front && u.id == id;
          assert u in users;
        }
        assert last in users;
      }
    }
  }

  // ----- the counts are exact -----

  function CountUntied(ps: seq<Placement>, nodeId: string): nat {
    if ps == [] then 0
    else CountUntied(ps[..|ps| - 1], nodeId) + if ps[|ps| - 1].nodeId == nodeId && !Truthy(ps[|ps| - 1].remote) then 1 else 0
  }

  lemma {:induction false} TrackedSplits(ps: seq<Placement>, nodeId: string, ids: seq<string>)
    ensures CountOn(ps, nodeId) == CountPresent(ps, nodeId, ids) + |MissingOn(ps, nodeId, ids)| + CountUntied(ps, nodeId)
  {
    if ps == [] {
    } else {
      TrackedSplits(ps[..|ps| - 1], nodeId, ids);
    }
  }

  lemma {:induction false} UntrackedIgnores(ids: seq<string>, tracked: set<string>, users: seq<Node.User>, x: string)
    requires x !in ids
    ensures UntrackedOn(ids, tracked, users) == UntrackedOn(ids, tracked - {x}, users)
  {
    if ids == [] {
    } else {
      UntrackedIgnores(ids[..|ids| - 1], tracked, users, x);
    }
  }

  lemma {:induction false} IdsSplit(ids: seq<string>, tracked: set<string>, users: seq<Node.User>)
    requires Distinct(ids) && forall x | x in tracked :: x in ids
    ensures |ids| == |tracked| + |UntrackedOn(ids, tracked, users)|
    decreases |ids|
  {
    if ids == [] {
      assert tracked == {};
    } else {
      var front, last := ids[..|ids| - 1], ids[|ids| - 1];
      assert ids == front + [last] && last !in front;
      UntrackedIgnores(front, tracked, users, last);
      IdsSplit(front, tracked - {last}, users);
    }
  }

  /** Tracked = present + missing + placements without a remote id; node users = tracked ids found + untracked. */
  lemma ReportCountsExact(s: State, nodeId: string)
    requires Registered(s, nodeId)
    ensures var r := Sync(s, nodeId, Delivered).1;
            var ids := UserIds(s.world[nodeId].users);
            && r.reachable && r.tracked == r.present + |r.missing| + CountUntied(s.placements, nodeId)
            && |ids| == |TrackedOn(s.placements, nodeId, ids)| + |r.untracked|
  {
    var users := s.world[nodeId].users;
    UserIdsAreTheIds(users);
    TrackedSplits(s.placements, nodeId, UserIds(users));
    IdsSplit(UserIds(users), TrackedOn(s.placements, nodeId, UserIds(users)), users);
  }

  // ----- what the lists hold -----

  lemma {:induction false} MissingMembers(ps: seq<Placement>, nodeId: string, ids: seq<string>)
    ensures forall x :: x in MissingOn(ps, nodeId, ids) <==> x in RemoteIds(ps, nodeId) && x !in ids
  {
    if ps == [] {
    } else {
      var front, last := ps[..|ps| - 1], ps[|ps| - 1];
      MissingMembers(front, nodeId, ids);
      assert ps == front + [last];
      assert RemoteIds(ps, nodeId)
          == RemoteIds(front, nodeId) + if last.nodeId == nodeId && Truthy(last.remote) then {last.remote.value} else {};
    }
  }

  lemma {:induction false} UntrackedMembers(ids: seq<string>, tracked: set<string>, users: seq<Node.User>)
    ensures forall d ::
      d in UntrackedOn(ids, tracked, users) <==>
      d.remote in ids && d.remote !in tracked && d.username == Some(NameOf(users, d.remote))
  {
    if ids == [] {
    } else {
      UntrackedMembers(ids[..|ids| - 1], tracked, users);
      assert ids == ids[..|ids| - 1] + [ids[|ids| - 1]];
    }
  }

  lemma TrackedAreClaimed(ps: seq<Placement>, nodeId: string, ids: seq<string>)
    ensures forall x :: x in TrackedOn(ps, nodeId, ids) <==> x in RemoteIds(ps, nodeId) && x in ids
  {
  }

  function MissingIds(r: Report): set<string> { set x | x in r.missing }

  function UntrackedIds(r: Report): set<string> { set d | d in r.untracked :: d.remote }

  lemma EmptyLists(r: Report)
    ensures r.missing == [] <==> MissingIds(r) == {}
    ensures r.untracked == [] <==> UntrackedIds(r) == {}
  {
    if r.missing != [] {
      assert r.missing[0] in MissingIds(r);
    }
    if r.untracked != [] {
      assert r.untracked[0] in r.untracked && r.untracked[0].remote in UntrackedIds(r);
    }
  }

  /** Missing is what placements claim and the node lacks; untracked is what the node has and no placement claims. */
  lemma ReportIsSetDifference(s: State, nodeId: string)
    requires Registered(s, nodeId)
    ensures var r := Sync(s, nodeId, Delivered).1;
            var claimed, actual := RemoteIds(s.placements, nodeId), Node.Ids(s.world[nodeId].users);
            MissingIds(r) == claimed - actual && UntrackedIds(r) == actual - claimed
  {
    var users := s.world[nodeId].users;
    var ids := UserIds(users);
    var tracked := TrackedOn(s.placements, nodeId, ids);
    UserIdsAreTheIds(users);
    MissingMembers(s.placements, nodeId, ids);
    TrackedAreClaimed(s.placements, nodeId, ids);
    UntrackedMembers(ids, tracked, users);
    forall x | x in Node.Ids(users) - RemoteIds(s.placements, nodeId)
      ensures x in UntrackedIds(Sync(s, nodeId, Delivered).1)
    {
      assert Drift(x, Some(NameOf(users, x))) in UntrackedOn(ids, tracked, users);
    }
  }

  /** A node is in sync exactly when it answers and the two id sets are equal. */
  lemma InSyncIffSameIds(s: State, nodeId: string, fault: Fault)
    requires Registered(s, nodeId)
    ensures InSync(Sync(s, nodeId, fault).1)
       <==> fault.Delivered? && RemoteIds(s.placements, nodeId) == Node.Ids(s.world[nodeId].users)
  {
    if fault.Delivered? {
      ReportIsSetDifference(s, nodeId);
      EmptyLists(Sync(s, nodeId, Delivered).1);
      DifferencesEmptyIffEqual(RemoteIds(s.placements, nodeId), Node.Ids(s.world[nodeId].users));
    }
  }

  lemma DifferencesEmptyIffEqual(a: set<string>, b: set<string>)
    ensures a - b == {} && b - a == {} <==> a == b
  {
  }

  // ----- a second sync changes nothing -----

  lemma {:induction false} ReconciledReportsSame(ps: seq<Placement>, nodeId: string, ids: seq<string>, site: string, siteIds: seq<string>)
    ensures var qs := ReconciledAll(ps, nodeId, ids);
            && CountOn(qs, site) == CountOn(ps, site) && CountPresent(qs, site, siteIds) == CountPresent(ps, site, siteIds)
            && MissingOn(qs, site, siteIds) == MissingOn(ps, site, siteIds)
  {
    if ps == [] {
    } else {
      var front := ps[..|ps| - 1];
      ReconciledReportsSame(front, nodeId, ids, site, siteIds);
      assert ReconciledAll(ps, nodeId, ids)[..|ps| - 1] == ReconciledAll(front, nodeId, ids);
    }
  }

  lemma ReconciledClaimsSame(ps: seq<Placement>, nodeId: string, ids: seq<string>, site: string)
    ensures RemoteIds(ReconciledAll(ps, nodeId, ids), site) == RemoteIds(ps, site)
  {
  }

  /** Syncing one node leaves every node's next report as it would have been. */
  lemma SyncLeavesReports(s: State, nodeId: string, fault: Fault, site: string, siteFault: Fault)
    requires Registered(s, nodeId) && Registered(s, site)
    ensures Sync(Sync(s, nodeId, fault).0, site, siteFault).1 == Sync(s, site, siteFault).1
  {
    if fault.Delivered? {
      var ids, siteIds := UserIds(s.world[nodeId].users), UserIds(s.world[site].users);
      var qs := ReconciledAll(s.placements, nodeId, ids);
      ReconciledReportsSame(s.placements, nodeId, ids, site, siteIds);
      ReconciledClaimsSame(s.placements, nodeId, ids, site);
      TrackedAreClaimed(s.placements, site, siteIds);
      TrackedAreClaimed(qs, site, siteIds);
      assert TrackedOn(qs, site, siteIds) == TrackedOn(s.placements, site, siteIds);
    }
  }

  /** Syncing an unchanged node again changes no placement and gives the same report. */
  lemma SyncIdempotent(s: State, nodeId: string)
    requires Registered(s, nodeId)
    ensures var (t, r) := Sync(s, nodeId, Delivered);
            Sync(t, nodeId, Delivered) == (t, r)
  {
    var ids := UserIds(s.world[nodeId].users);
    var qs := ReconciledAll(s.placements, nodeId, ids);
    SyncLeavesReports(s, nodeId, Delivered, nodeId, Delivered);
    assert ReconciledAll(qs, nodeId, ids) == qs;
  }

  lemma SweepLeavesReports(s: State, nodeId: string, fault: Fault, site: string, siteFault: Fault)
    requires Registered(s, nodeId) && Registered(s, site)
    ensures Sweep(Sweep(s, nodeId, fault).0, site, siteFault).1 == Sweep(s, site, siteFault).1
  {
    SyncLeavesReports(s, nodeId, fault, site, siteFault);
  }

  lemma {:induction false} SweepsLeaveReports(s: State, nodeIds: seq<string>, faults: seq<Fault>, site: string, siteFault: Fault, t: State)
    requires |nodeIds| == |faults| && AllKnown(s, nodeIds) && t == SyncAll(s, nodeIds, faults).0
    requires Registered(s, site)
    ensures Sweep(t, site, siteFault).1 == Sweep(s, site, siteFault).1
    decreases |nodeIds|
  {
    if nodeIds == [] {
    } else {
      var k := |nodeIds| - 1;
      var before := SyncAll(s, nodeIds[..k], faults[..k]).0;
      assert nodeIds[k] in nodeIds;
      SweepsLeaveReports(s, nodeIds[..k], faults[..k], site, siteFault, before);
      SweepLeavesReports(before, nodeIds[k], faults[k], site, siteFault);
    }
  }

  lemma SweepEndsWith(s: State, nodeIds: seq<string>, faults: seq<Fault>, k: nat)
    requires |nodeIds| == |faults| == k + 1 && AllKnown(s, nodeIds) && Registered(s, nodeIds[k])
    ensures SyncAll(s, nodeIds, faults).1 == SyncAll(s, nodeIds[..k], faults[..k]).1 + [Sweep(s, nodeIds[k], faults[k]).1]
  {
    SweepsLeaveReports(s, nodeIds[..k], faults[..k], nodeIds[k], faults[k], SyncAll(s, nodeIds[..k], faults[..k]).0);
  }

  /** A sweep reports on each node as if it were swept alone, whatever happens at the others. */
  lemma {:induction false} SweepReportsEachAlone(s: State, nodeIds: seq<string>, faults: seq<Fault>, i: nat)
    requires |nodeIds| == |faults| && AllKnown(s, nodeIds) && i < |nodeIds|
    ensures nodeIds[i] in nodeIds && SyncAll(s, nodeIds, faults).1[i] == Sweep(s, nodeIds[i], faults[i]).1
    decreases |nodeIds|
  {
    var k := |nodeIds| - 1;
    assert nodeIds[k] in nodeIds;
    SweepEndsWith(s, nodeIds, faults, k);
    if i < k {
      SweepReportsEachAlone(s, nodeIds[..k], faults[..k], i);
    }
  }

  // ----- provisioning as the next report sees it -----

  /** The claims on a site by placements other than one identity's. */
  function ClaimsOfOthers(ps: seq<Placement>, luId: string, nodeId: string): set<string> {
    set p | p in ps && p.nodeId == nodeId && p.luId != luId && Truthy(p.remote) :: p.remote.value
  }

  function OwnClaim(ps: seq<Placement>, luId: string, nodeId: string): set<string> {
    var own := Lookup(ps, luId, nodeId);
    if own.Some? && Truthy(own.value.remote) then {own.value.remote.value} else {}
  }

  lemma ClaimsSplit(ps: seq<Placement>, luId: string, nodeId: string)
    requires OnePerSite(ps)
    ensures RemoteIds(ps, nodeId) == ClaimsOfOthers(ps, luId, nodeId) + OwnClaim(ps, luId, nodeId)
  {
  }

  lemma OthersClaimAsBefore(ps: seq<Placement>, p: Placement)
    ensures ClaimsOfOthers(Upsert(ps, p), p.luId, p.nodeId) == ClaimsOfOthers(ps, p.luId, p.nodeId)
  {
    var qs := Upsert(ps, p);
    var at := FindPlacement(ps, p.luId, p.nodeId);
    forall q: Placement | q.nodeId == p.nodeId && q.luId != p.luId
      ensures q in qs <==> q in ps
    {
      if at.Some? {
        if q in qs {
          var i :| 0 <= i < |qs| && qs[i] == q;
          assert qs[i] == ps[i];
        }
        if q in ps {
          var i :| 0 <= i < |ps| && ps[i] == q;
          assert qs[i] == ps[i];
        }
      }
    }
  }

  lemma CreateAddsId(env: Env, n: Node.NodeState, username: string, job: Job)
    requires Effect(env, n, username, job).1.Ok?
    ensures Effect(env, n, username, job).1 == Ok(Some(job.call.freshId))
    ensures Node.Ids(Effect(env, n, username, job).0.users) == Node.Ids(n.users) + {job.call.freshId}
  {
  }

  /** After a successful provision the claims are those of others and the new id; the node has one id more. */
  lemma SetsAfterProvision(env: Env, s: State, actor: string, luId: string, username: string, job: Job)
    requires Inv(env, s) && Registered(s, job.target.nodeId) && job.call.freshId != ""
    requires Effect(env, s.world[job.target.nodeId], username, job).1.Ok?
    ensures var t := ProvisionOne(env, s, actor, luId, username, job);
            var site := job.target.nodeId;
            && site in t.world
            && RemoteIds(t.placements, site) == ClaimsOfOthers(s.placements, luId, site) + {job.call.freshId}
            && Node.Ids(t.world[site].users) == Node.Ids(s.world[site].users) + {job.call.freshId}
  {
    var site := job.target.nodeId;
    var t := ProvisionOne(env, s, actor, luId, username, job);
    var (n', res) := Effect(env, s.world[site], username, job);
    ProvisionOneEffect(env, s, actor, luId, username, job);
    ProvisionOneIsLocal(env, s, actor, luId, username, job, luId, site);
    ProvisionOneKeepsInv(env, s, actor, luId, username, job);
    CreateAddsId(env, s.world[site], username, job);
    var p := Placed(Lookup(s.placements, luId, site), luId, job.target, res);
    PlacedIsFor(s.placements, luId, job.target, res, luId, site);
    OthersClaimAsBefore(s.placements, p);
    ClaimsSplit(t.placements, luId, site);
    assert OwnClaim(t.placements, luId, site) == {job.call.freshId};
  }

  lemma SetsStayEqual(env: Env, s: State, actor: string, luId: string, username: string, job: Job)
    requires Inv(env, s) && Registered(s, job.target.nodeId) && job.call.freshId != ""
    requires Effect(env, s.world[job.target.nodeId], username, job).1.Ok?
    requires InSync(Sync(s, job.target.nodeId, Delivered).1) && OwnClaim(s.placements, luId, job.target.nodeId) == {}
    ensures var t, site := ProvisionOne(env, s, actor, luId, username, job), job.target.nodeId;
            Registered(t, site) && RemoteIds(t.placements, site) == Node.Ids(t.world[site].users)
  {
    InSyncIffSameIds(s, job.target.nodeId, Delivered);
    SetsAfterProvision(env, s, actor, luId, username, job);
    ClaimsSplit(s.placements, luId, job.target.nodeId);
  }

  /** Provisioning someone new to an in-sync node keeps it in sync. */
  lemma ProvisionKeepsInSync(env: Env, s: State, actor: string, luId: string, username: string, job: Job)
    requires Inv(env, s) && Registered(s, job.target.nodeId) && job.call.freshId != ""
    requires Effect(env, s.world[job.target.nodeId], username, job).1.Ok?
    requires InSync(Sync(s, job.target.nodeId, Delivered).1) && OwnClaim(s.placements, luId, job.target.nodeId) == {}
    ensures InSync(Sync(ProvisionOne(env, s, actor, luId, username, job), job.target.nodeId, Delivered).1)
  {
    var site := job.target.nodeId;
    SetsStayEqual(env, s, actor, luId, username, job);
    InSyncIffSameIds(ProvisionOne(env, s, actor, luId, username, job), site, Delivered);
  }

  /**
   Provisioning again someone present on an in-sync node leaves nothing missing, and makes the replaced
   id untracked exactly when no other placement claims it; no other id becomes untracked.
   */
  lemma ReprovisionUntracksReplacedId(env: Env, s: State, actor: string, luId: string, username: string, job: Job, replaced: string)
    requires Inv(env, s) && Registered(s, job.target.nodeId) && job.call.freshId != ""
    requires Effect(env, s.world[job.target.nodeId], username, job).1.Ok?
    requires InSync(Sync(s, job.target.nodeId, Delivered).1) && OwnClaim(s.placements, luId, job.target.nodeId) == {replaced}
    requires job.call.freshId !in Node.Ids(s.world[job.target.nodeId].users)
    ensures var r := Sync(ProvisionOne(env, s, actor, luId, username, job), job.target.nodeId, Delivered).1;
            r.reachable && r.missing == [] && UntrackedIds(r) == {replaced} - ClaimsOfOthers(s.placements, luId, job.target.nodeId)
  {
    var site := job.target.nodeId;
    var t := ProvisionOne(env, s, actor, luId, username, job);
    InSyncIffSameIds(s, site, Delivered);
    SetsAfterProvision(env, s, actor, luId, username, job);
    ClaimsSplit(s.placements, luId, site);
    ReportIsSetDifference(t, site);
    EmptyLists(Sync(t, site, Delivered).1);
  }

  /**
   A failed provision keeps the placement's remote id and organisation and marks it failed. The next report
   is as before, unless only the reply was lost: then the user created shows up as untracked.
   */
  lemma FailedProvisionReports(env: Env, s: State, actor: string, luId: string, username: string, job: Job)
    requires Inv(env, s) && Registered(s, job.target.nodeId)
    requires Effect(env, s.world[job.target.nodeId], username, job).1.AdapterError?
    ensures var site := job.target.nodeId;
            var t := ProvisionOne(env, s, actor, luId, username, job);
            var existing, error := Lookup(s.placements, luId, site), Effect(env, s.world[site], username, job).1.text;
            && site in t.world && RemoteIds(t.placements, site) == RemoteIds(s.placements, site)
            && Lookup(t.placements, luId, site) ==
                 Some(if existing.Some? then existing.value.(status := Failed, lastError := Some(error))
                      else Placement(luId, site, job.target.orgId, None, Failed, Some(error)))
            && (var before, after := Sync(s, site, Delivered).1, Sync(t, site, Delivered).1;
                && (t.world[site].users == s.world[site].users ==>
                      MissingIds(after) == MissingIds(before) && UntrackedIds(after) == UntrackedIds(before))
                && (Node.Ids(t.world[site].users) == Node.Ids(s.world[site].users) + {job.call.freshId}
                    && job.call.freshId !in RemoteIds(s.placements, site) ==>
                      UntrackedIds(after) == UntrackedIds(before) + {job.call.freshId}))
  {
    var site := job.target.nodeId;
    var t := ProvisionOne(env, s, actor, luId, username, job);
    ProvisionOneEffect(env, s, actor, luId, username, job);
    ProvisionOneIsLocal(env, s, actor, luId, username, job, luId, site);
    ProvisionOneKeepsInv(env, s, actor, luId, username, job);
    var p := Placed(Lookup(s.placements, luId, site), luId, job.target, Effect(env, s.world[site], username, job).1);
    PlacedIsFor(s.placements, luId, job.target, Effect(env, s.world[site], username, job).1, luId, site);
    OthersClaimAsBefore(s.placements, p);
    ClaimsSplit(s.placements, luId, site);
    ClaimsSplit(t.placements, luId, site);
    ReportIsSetDifference(s, site);
    ReportIsSetDifference(t, site);
  }

  // ----- deprovisioning as the next sync sees it -----

  /** Sync keeps a placement revoked exactly when it does not look at it: node silent, other node, or no remote id. */
  lemma RevokedSurvivesSyncIff(s: State, nodeId: string, fault: Fault, i: nat)
    requires Registered(s, nodeId) && i < |s.placements|
    ensures Sync(s, nodeId, fault).0.placements[i].status == Revoked
       <==> s.placements[i].status == Revoked
            && (!fault.Delivered? || s.placements[i].nodeId != nodeId || !Truthy(s.placements[i].remote))
  {
  }

  /**
   A successful deprovision marks the placement revoked and keeps its remote id. The next sync shows a
   deleted user as missing, and a user whose profile was only revoked as active again.
   */
  lemma DeprovisionThenSync(env: Env, s: State, actor: string, luId: string, username: string, hard: bool, i: nat, call: Call)
    requires i < |s.placements| && Acts(s, luId, i) && Truthy(s.placements[i].remote)
    requires var p := s.placements[i];
             && Node.DistinctIds(s.world[p.nodeId].users) && p.remote.value in Node.Ids(s.world[p.nodeId].users)
             && Deliver(env, s.world[p.nodeId], if hard then Node.Delete(p.remote.value) else Node.Revoke(p.remote.value), call).1.Ok?
    ensures var site := s.placements[i].nodeId;
            var t := DeprovisionOne(env, s, actor, luId, username, hard, i, call);
            && t.placements[i] == s.placements[i].(status := Revoked, lastError := None)
            && Sync(t, site, Delivered).0.placements[i].status == if hard then Missing else Active
  {
    var p := s.placements[i];
    var t := DeprovisionOne(env, s, actor, luId, username, hard, i, call);
    UserIdsAreTheIds(t.world[p.nodeId].users);
  }
}
