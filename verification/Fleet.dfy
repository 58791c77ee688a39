/**
 Cross-site provisioning, drift reconciliation and audited node actions: the control plane's tables
 next to the nodes themselves. Every adapter call may fail, before or after it takes effect.
 */
module Fleet {
  import opened Wrappers
  import opened Text
  import opened HashChain
  import opened AuditLog
  import Json
  import Node = NodeShim
  import NodeHealth

  datatype PlacementStatus = Pending | Active | Failed | Revoked | Missing

  /**
   A registered node. With a `defect` no call ever starts: the adapter cannot be built from its credentials,
   or it does not implement the call, and the exception is not caught where adapter errors are.
   */
  datatype NodeRow = NodeRow(name: string, region: string, health: NodeHealth.Health, defect: Option<string>)

  datatype Identity = Identity(username: string, email: Option<string>)

  datatype Placement = Placement(
    luId: string, nodeId: string, orgId: string, remote: Option<string>, status: PlacementStatus, lastError: Option<string>)

  /** `names` is the unique index on usernames; `world` is the true state of each node. */
  datatype State = State(
    identities: map<string, Identity>, names: map<string, string>, nodes: map<string, NodeRow>,
    world: map<string, Node.NodeState>, placements: seq<Placement>, log: seq<Entry<Payload>>)

  /** Neither null nor empty. */
  predicate Truthy(o: Option<string>) { o.Some? && o.value != "" }

  predicate Registered(s: State, nodeId: string) { nodeId in s.nodes && nodeId in s.world }

  predicate Ready(s: State, nodeId: string) { Registered(s, nodeId) && s.nodes[nodeId].defect.None? }

  /** How a request on the tables ends; a rolled-back one leaves them as they were, but not the nodes it called. */
  datatype Ended = Committed | RolledBack | NotFound

  /** How rows are hashed, how `params` are serialised and how a node behaves; every result holds for any choice. */
  datatype Env = Env(hasher: Hasher<Payload>, dumps: seq<Json.Field> -> string, node: Node.Behaviour)

  /** The choice the program makes, with the modelled node. */
  function RealEnv(sha: Sha): Env {
    Node.ApplyMeetsContract();
    Env(AuditHasher(sha), Json.PrintObject, Node.Apply)
  }

  // ----- adapter calls -----

  datatype Fault = Delivered | Unsent(text: string) | LostReply(text: string)

  /** One adapter call: how it fares, the id a created user gets, and the time of its audit row. */
  datatype Call = Call(fault: Fault, freshId: string, ts: string)

  datatype Result = Ok(id: Option<string>) | AdapterError(text: string)

  function Deliver(env: Env, n: Node.NodeState, op: Node.Op, call: Call): (Node.NodeState, Result) {
    match call.fault
    case Unsent(text) => (n, AdapterError(text))
    case LostReply(text) => (env.node(n, op, call.freshId).0, AdapterError(text))
    case Delivered =>
      var (n', reply) := env.node(n, op, call.freshId);
      match reply
      case Good(id) => (n', Ok(id))
      case Bad(code, text) => (n', AdapterError("node shim " + NatText(code) + ": " + text))
  }

  /** The audit row of a call: a success without a given target names the user that the node returned. */
  function RowOf(
    s: State, actor: string, action: string, nodeId: string, kind: string, target: Option<string>, params: string,
    ts: string, res: Result
  ): Payload
    requires nodeId in s.nodes
  {
    var name := Some(s.nodes[nodeId].name);
    match res
    case Ok(id) =>
      Payload(ts, actor, action, Some(nodeId), name, Some(kind), if target.None? then id else target, "success", None, params, None)
    case AdapterError(text) =>
      Payload(ts, actor, action, Some(nodeId), name, Some(kind), target, "failure", Some(text), params, None)
  }

  /** One audited mutation of a node. */
  function Attempt(
    env: Env, s: State, actor: string, action: string, nodeId: string, kind: string, target: Option<string>,
    params: string, op: Node.Op, call: Call
  ): (State, Result)
    requires Registered(s, nodeId)
  {
    var (n', res) := Deliver(env, s.world[nodeId], op, call);
    (s.(world := s.world[nodeId := n'],
        log := Append(env.hasher, s.log, RowOf(s, actor, action, nodeId, kind, target, params, call.ts, res))), res)
  }

  // ----- provisioning -----

  datatype Target = Target(nodeId: string, orgId: string)

  datatype Job = Job(target: Target, call: Call)

  predicate IsFor(p: Placement, luId: string, nodeId: string) { p.luId == luId && p.nodeId == nodeId }

  /** The position of the first placement of an identity on a node. */
  function FindPlacement(ps: seq<Placement>, luId: string, nodeId: string): (r: Option<nat>)
    ensures r.Some? ==> r.value < |ps| && IsFor(ps[r.value], luId, nodeId)
    ensures r.None? ==> forall p | p in ps :: !IsFor(p, luId, nodeId)
  {
    if ps == [] then None
    else if IsFor(ps[0], luId, nodeId) then Some(0)
    else
      match FindPlacement(ps[1..], luId, nodeId)
      case None => None
      case Some(k) => Some(k + 1)
  }

  function Lookup(ps: seq<Placement>, luId: string, nodeId: string): Option<Placement> {
    match FindPlacement(ps, luId, nodeId)
    case None => None
    case Some(k) => Some(ps[k])
  }

  /** Replace the row found, or add one. */
  function Upsert(ps: seq<Placement>, p: Placement): seq<Placement> {
    match FindPlacement(ps, p.luId, p.nodeId)
    case None => ps + [p]
    case Some(k) => ps[k := p]
  }

  /** The placement after a create call: a failure keeps the old remote id and organisation. */
  function Placed(existing: Option<Placement>, luId: string, target: Target, res: Result): Placement {
    var p := if existing.Some? then existing.value else Placement(luId, target.nodeId, target.orgId, None, Pending, None);
    match res
    case Ok(id) => p.(remote := id, orgId := target.orgId, status := Active, lastError := None)
    case AdapterError(text) => p.(status := Failed, lastError := Some(text))
  }

  function ProvisionParams(env: Env, orgId: string, username: string): string {
    env.dumps([("org_id", Json.Str(orgId)), ("username", Json.Str(username))])
  }

  function ProvisionOne(env: Env, s: State, actor: string, luId: string, username: string, job: Job): State
    requires Registered(s, job.target.nodeId)
  {
    var t := job.target;
    var (s1, res) := Attempt(env, s, actor, "provision_user", t.nodeId, "user", None, ProvisionParams(env, t.orgId, username),
                             Node.Create(t.orgId, username), job.call);
    s1.(placements := Upsert(s.placements, Placed(Lookup(s.placements, luId, t.nodeId), luId, t, res)))
  }

  ghost predicate AllRegistered(s: State, jobs: seq<Job>) {
    forall j | j in jobs :: Registered(s, j.target.nodeId)
  }

  function ProvisionAll(env: Env, s: State, actor: string, luId: string, username: string, jobs: seq<Job>): (r: State)
    requires AllRegistered(s, jobs)
    ensures r.nodes == s.nodes && r.world.Keys == s.world.Keys && r.identities == s.identities && r.names == s.names
  {
    if jobs == [] then s
    else
      var before := ProvisionAll(env, s, actor, luId, username, jobs[..|jobs| - 1]);
      ProvisionOne(env, before, actor, luId, username, jobs[|jobs| - 1])
  }

  /** The identity with this username, created if there is none; an empty email is filled in. */
  function GetOrCreate(s: State, username: string, email: Option<string>, freshId: string): (State, string) {
    if username in s.names && s.names[username] in s.identities then
      var id := s.names[username];
      var lu := s.identities[id];
      (if Truthy(email) && !Truthy(lu.email) then s.(identities := s.identities[id := lu.(email := email)]) else s, id)
    else
      (s.(identities := s.identities[freshId := Identity(username, email)], names := s.names[username := freshId]), freshId)
  }

  /**
   A row that refers to no registered node is waiting for the next flush, which will violate its foreign key;
   or an exception has left the loop.
   */
  datatype Phase = Clean | Unflushed | Raised

  /** One target of the loop: an unregistered node, an adapter that cannot be built, or a call. */
  function ProvisionNext(env: Env, s: State, phase: Phase, actor: string, luId: string, username: string, job: Job): (r: (State, Phase))
    ensures r.0.nodes == s.nodes && r.0.world.Keys == s.world.Keys && r.0.identities == s.identities && r.0.names == s.names
  {
    var node := job.target.nodeId;
    var existing := Lookup(s.placements, luId, node);
    if phase.Raised? then (s, Raised)
    else if !Registered(s, node) then
      (s.(placements := Upsert(s.placements, Placed(existing, luId, job.target, AdapterError("node not found")))),
       if existing.None? then Unflushed else phase)
    else if s.nodes[node].defect.Some? then (s, Raised)
    else (ProvisionOne(env, s, actor, luId, username, job), if phase.Unflushed? then Raised else Clean)
  }

  function ProvisionLoop(env: Env, s: State, actor: string, luId: string, username: string, jobs: seq<Job>): (r: (State, Phase))
    ensures r.0.nodes == s.nodes && r.0.world.Keys == s.world.Keys && r.0.identities == s.identities && r.0.names == s.names
  {
    if jobs == [] then (s, Clean)
    else
      var (before, phase) := ProvisionLoop(env, s, actor, luId, username, jobs[..|jobs| - 1]);
      ProvisionNext(env, before, phase, actor, luId, username, jobs[|jobs| - 1])
  }

  function Provision(
    env: Env, s: State, actor: string, username: string, email: Option<string>, freshId: string, jobs: seq<Job>
  ): (State, Ended)
  {
    var (s1, luId) := GetOrCreate(s, username, email, freshId);
    var (t, phase) := ProvisionLoop(env, s1, actor, luId, username, jobs);
    if phase.Clean? then (t, Committed) else (s.(world := t.world), RolledBack)
  }

  // ----- deprovisioning -----

  /** Placement `i` is one that a deprovision of the identity makes a call for. */
  predicate Acts(s: State, luId: string, i: nat)
    requires i < |s.placements|
  {
    s.placements[i].luId == luId && Registered(s, s.placements[i].nodeId) && s.placements[i].remote.Some?
  }

  function DeprovisionOne(
    env: Env, s: State, actor: string, luId: string, username: string, hard: bool, i: nat, call: Call
  ): (r: State)
    requires i < |s.placements|
    ensures |r.placements| == |s.placements| && r.nodes == s.nodes && r.world.Keys == s.world.Keys
    ensures r.identities == s.identities && r.names == s.names
  {
    var p := s.placements[i];
    if !Acts(s, luId, i) then s
    else
      var action := if hard then "deprovision_delete" else "deprovision_revoke";
      var op := if hard then Node.Delete(p.remote.value) else Node.Revoke(p.remote.value);
      var (s1, res) := Attempt(env, s, actor, action, p.nodeId, "user", p.remote, env.dumps([("username", Json.Str(username))]), op, call);
      var p' := match res
        case Ok(_) => p.(status := Revoked, lastError := None)
        case AdapterError(text) => p.(lastError := Some(text));
      s1.(placements := s.placements[i := p'])
  }

  /** The first `n` placements in table order. */
  function DeprovisionFirst(
    env: Env, s: State, actor: string, luId: string, username: string, hard: bool, calls: seq<Call>, n: nat
  ): (r: State)
    requires n <= |s.placements| == |calls|
    ensures |r.placements| == |s.placements| && r.nodes == s.nodes && r.world.Keys == s.world.Keys
    ensures r.identities == s.identities && r.names == s.names
  {
    if n == 0 then s
    else
      DeprovisionOne(env, DeprovisionFirst(env, s, actor, luId, username, hard, calls, n - 1),
                     actor, luId, username, hard, n - 1, calls[n - 1])
  }

  /** The adapter of placement `i`'s node cannot take the call. */
  predicate Sticks(s: State, luId: string, i: nat)
    requires i < |s.placements|
  {
    Acts(s, luId, i) && s.nodes[s.placements[i].nodeId].defect.Some?
  }

  /** The same loop as the code runs it: the flag says that an exception has left it. */
  function DeprovisionLoop(
    env: Env, s: State, actor: string, luId: string, username: string, hard: bool, calls: seq<Call>, n: nat
  ): (r: (State, bool))
    requires n <= |s.placements| == |calls|
    ensures |r.0.placements| == |s.placements| && r.0.nodes == s.nodes && r.0.world.Keys == s.world.Keys
    ensures r.0.identities == s.identities && r.0.names == s.names
  {
    if n == 0 then (s, false)
    else
      var (before, raised) := DeprovisionLoop(env, s, actor, luId, username, hard, calls, n - 1);
      if raised || Sticks(before, luId, n - 1) then (before, true)
      else (DeprovisionOne(env, before, actor, luId, username, hard, n - 1, calls[n - 1]), false)
  }

  /** Not found is the LookupError of an unknown identity. */
  function Deprovision(env: Env, s: State, actor: string, luId: string, hard: bool, calls: seq<Call>): (State, Ended)
    requires |s.placements| == |calls|
  {
    if luId !in s.identities then (s, NotFound)
    else
      var (t, raised) := DeprovisionLoop(env, s, actor, luId, s.identities[luId].username, hard, calls, |calls|);
      if raised then (s.(world := t.world), RolledBack) else (t, Committed)
  }

  // ----- drift reconciliation -----

  datatype Drift = Drift(remote: string, username: Option<string>)

  datatype Report = Report(
    reachable: bool, tracked: nat, present: nat, missing: seq<string>, untracked: seq<Drift>, error: Option<string>)

  predicate InSync(r: Report) { r.reachable && r.missing == [] && r.untracked == [] }

  /** The keys of `{u.id: u for u in users}`: distinct ids in order of first occurrence. */
  function UserIds(users: seq<Node.User>): seq<string> {
    if users == [] then []
    else
      var front := UserIds(users[..|users| - 1]);
      var id := users[|users| - 1].id;
      if id in front then front else front + [id]
  }

  /** Its values: the last user with an id wins. */
  function NameOf(users: seq<Node.User>, id: string): string {
    if users == [] then ""
    else if users[|users| - 1].id == id then users[|users| - 1].name
    else NameOf(users[..|users| - 1], id)
  }

  /** A placement after reconciliation with the ids on its node. */
  function Reconciled(p: Placement, nodeId: string, ids: seq<string>): Placement {
    if p.nodeId != nodeId || !Truthy(p.remote) then p
    else if p.remote.value in ids then p.(status := Active, lastError := None)
    else p.(status := Missing)
  }

  function ReconciledAll(ps: seq<Placement>, nodeId: string, ids: seq<string>): (r: seq<Placement>)
    ensures |r| == |ps|
    ensures forall i | 0 <= i < |ps| :: r[i] == Reconciled(ps[i], nodeId, ids)
  {
    seq(|ps|, i requires 0 <= i < |ps| => Reconciled(ps[i], nodeId, ids))
  }

  predicate IsPresent(p: Placement, nodeId: string, ids: seq<string>) {
    p.nodeId == nodeId && Truthy(p.remote) && p.remote.value in ids
  }

  predicate IsMissing(p: Placement, nodeId: string, ids: seq<string>) {
    p.nodeId == nodeId && Truthy(p.remote) && p.remote.value !in ids
  }

  function CountOn(ps: seq<Placement>, nodeId: string): nat {
    if ps == [] then 0 else CountOn(ps[..|ps| - 1], nodeId) + if ps[|ps| - 1].nodeId == nodeId then 1 else 0
  }

  function CountPresent(ps: seq<Placement>, nodeId: string, ids: seq<string>): nat {
    if ps == [] then 0
    else CountPresent(ps[..|ps| - 1], nodeId, ids) + if IsPresent(ps[|ps| - 1], nodeId, ids) then 1 else 0
  }

  function MissingOn(ps: seq<Placement>, nodeId: string, ids: seq<string>): seq<string> {
    if ps == [] then []
    else
      var front := MissingOn(ps[..|ps| - 1], nodeId, ids);
      if IsMissing(ps[|ps| - 1], nodeId, ids) then front + [ps[|ps| - 1].remote.value] else front
  }

  function TrackedOn(ps: seq<Placement>, nodeId: string, ids: seq<string>): set<string> {
    set p | p in ps && IsPresent(p, nodeId, ids) :: p.remote.value
  }

  lemma TrackedGrows(ps: seq<Placement>, p: Placement, nodeId: string, ids: seq<string>)
    ensures TrackedOn(ps + [p], nodeId, ids)
         == TrackedOn(ps, nodeId, ids) + if IsPresent(p, nodeId, ids) then {p.remote.value} else {}
  {
  }

  function UntrackedOn(ids: seq<string>, tracked: set<string>, users: seq<Node.User>): seq<Drift> {
    if ids == [] then []
    else
      var front := UntrackedOn(ids[..|ids| - 1], tracked, users);
      var id := ids[|ids| - 1];
      if id in tracked then front else front + [Drift(id, Some(NameOf(users, id)))]
  }

  function Sync(s: State, nodeId: string, fault: Fault): (State, Report)
    requires Registered(s, nodeId)
  {
    var tracked := CountOn(s.placements, nodeId);
    match fault
    case Unsent(text) => (s, Report(false, tracked, 0, [], [], Some(text)))
    case LostReply(text) => (s, Report(false, tracked, 0, [], [], Some(text)))
    case Delivered =>
      var users := s.world[nodeId].users;
      var ids := UserIds(users);
      (s.(placements := ReconciledAll(s.placements, nodeId, ids)),
       Report(true, tracked, CountPresent(s.placements, nodeId, ids), MissingOn(s.placements, nodeId, ids),
              UntrackedOn(ids, TrackedOn(s.placements, nodeId, ids), users), None))
  }

  ghost predicate AllKnown(s: State, nodeIds: seq<string>) { forall n | n in nodeIds :: Registered(s, n) }

  /** A node of a sweep: what is raised instead of a report becomes a report that has counted nothing. */
  function Sweep(s: State, nodeId: string, fault: Fault): (r: (State, Report))
    requires Registered(s, nodeId)
    ensures r.0.nodes == s.nodes && r.0.world == s.world
  {
    var defect := s.nodes[nodeId].defect;
    if defect.Some? then (s, Report(false, 0, 0, [], [], defect)) else Sync(s, nodeId, fault)
  }

  /** Every node in turn; a failure at one node only shows in that node's report. */
  function SyncAll(s: State, nodeIds: seq<string>, faults: seq<Fault>): (r: (State, seq<Report>))
    requires |nodeIds| == |faults| && AllKnown(s, nodeIds)
    ensures r.0.nodes == s.nodes && r.0.world == s.world && |r.1| == |nodeIds|
  {
    if nodeIds == [] then (s, [])
    else
      var k := |nodeIds| - 1;
      assert nodeIds[k] in nodeIds;
      var (before, reports) := SyncAll(s, nodeIds[..k], faults[..k]);
      var (after, report) := Sweep(before, nodeIds[k], faults[k]);
      (after, reports + [report])
  }

  // ----- single and bulk actions -----

  datatype UserRow = UserRow(name: string, call: Call)

  datatype Outcome = Outcome(subject: string, ok: bool)

  function BulkCreateParams(env: Env, orgId: string, name: string): string {
    env.dumps([("bulk", Json.Bool(true)), ("name", Json.Str(name)), ("org_id", Json.Str(orgId))])
  }

  function BulkCreate(
    env: Env, s: State, actor: string, nodeId: string, orgId: string, rows: seq<UserRow>
  ): (r: (State, seq<Outcome>))
    requires Registered(s, nodeId)
    ensures r.0.nodes == s.nodes && r.0.world.Keys == s.world.Keys
    ensures r.0.identities == s.identities && r.0.names == s.names && r.0.placements == s.placements
  {
    if rows == [] then (s, [])
    else
      var (before, outcomes) := BulkCreate(env, s, actor, nodeId, orgId, rows[..|rows| - 1]);
      var row := rows[|rows| - 1];
      var (after, res) := Attempt(env, before, actor, "create_user", nodeId, "user", None, BulkCreateParams(env, orgId, row.name),
                                  Node.Create(orgId, row.name), row.call);
      (after, outcomes + [Outcome(row.name, res.Ok?)])
  }

  datatype BulkKind = BulkDelete | BulkRevoke | BulkDisable | BulkEnable

  datatype IdRow = IdRow(id: string, call: Call)

  function BulkName(k: BulkKind): string {
    match k
    case BulkDelete => "bulk_delete"
    case BulkRevoke => "bulk_revoke"
    case BulkDisable => "bulk_disable"
    case BulkEnable => "bulk_enable"
  }

  function BulkOp(k: BulkKind, id: string): Node.Op {
    match k
    case BulkDelete => Node.Delete(id)
    case BulkRevoke => Node.Revoke(id)
    case BulkDisable => Node.SetDisabled(id, true)
    case BulkEnable => Node.SetDisabled(id, false)
  }

  function BulkAction(
    env: Env, s: State, actor: string, nodeId: string, orgId: string, k: BulkKind, rows: seq<IdRow>
  ): (r: (State, seq<Outcome>))
    requires Registered(s, nodeId)
    ensures r.0.nodes == s.nodes && r.0.world.Keys == s.world.Keys
    ensures r.0.identities == s.identities && r.0.names == s.names && r.0.placements == s.placements
  {
    if rows == [] then (s, [])
    else
      var (before, outcomes) := BulkAction(env, s, actor, nodeId, orgId, k, rows[..|rows| - 1]);
      var row := rows[|rows| - 1];
      var (after, res) := Attempt(env, before, actor, BulkName(k), nodeId, "user", Some(row.id),
                                  env.dumps([("org_id", Json.Str(orgId))]), BulkOp(k, row.id), row.call);
      (after, outcomes + [Outcome(row.id, res.Ok?)])
  }

  function CountOk(outcomes: seq<Outcome>): nat {
    if outcomes == [] then 0 else CountOk(outcomes[..|outcomes| - 1]) + if outcomes[|outcomes| - 1].ok then 1 else 0
  }

  // ----- an exception leaves the loops -----

  lemma {:induction false} RaisedStays(env: Env, s: State, actor: string, luId: string, username: string, jobs: seq<Job>, i: nat)
    requires i <= |jobs| && ProvisionLoop(env, s, actor, luId, username, jobs[..i]).1.Raised?
    ensures ProvisionLoop(env, s, actor, luId, username, jobs) == ProvisionLoop(env, s, actor, luId, username, jobs[..i])
  {
    if i < |jobs| {
      assert jobs[..|jobs| - 1][..i] == jobs[..i];
      RaisedStays(env, s, actor, luId, username, jobs[..|jobs| - 1], i);
    } else {
      assert jobs[..i] == jobs;
    }
  }

  lemma {:induction false} StuckStays(
    env: Env, s: State, actor: string, luId: string, username: string, hard: bool, calls: seq<Call>, i: nat, n: nat
  )
    requires i <= n <= |s.placements| == |calls|
    requires DeprovisionLoop(env, s, actor, luId, username, hard, calls, i).1
    ensures DeprovisionLoop(env, s, actor, luId, username, hard, calls, n)
         == DeprovisionLoop(env, s, actor, luId, username, hard, calls, i)
  {
    if i < n {
      StuckStays(env, s, actor, luId, username, hard, calls, i, n - 1);
    }
  }

  // ----- the services -----

  class ControlPlane {
    const env: Env
    var identities: map<string, Identity>
    var names: map<string, string>
    var nodes: map<string, NodeRow>
    var world: map<string, Node.NodeState>
    var placements: seq<Placement>
    var log: seq<Entry<Payload>>

    ghost function Snapshot(): State
      reads this
    {
      State(identities, names, nodes, world, placements, log)
    }

    constructor (env: Env, nodes: map<string, NodeRow>, world: map<string, Node.NodeState>)
      ensures this.env == env && Snapshot() == State(map[], map[], nodes, world, [], [])
    {
      this.env, this.nodes, this.world := env, nodes, world;
      identities, names, placements, log := map[], map[], [], [];
    }

    /** The call through a node's adapter and the audit row of its outcome. */
    method CallAndAudit(
      actor: string, action: string, nodeId: string, kind: string, target: Option<string>, params: string, op: Node.Op, call: Call
    ) returns (res: Result)
      requires Registered(Snapshot(), nodeId)
      modifies this`world, this`log
      ensures (Snapshot(), res) == Attempt(env, old(Snapshot()), actor, action, nodeId, kind, target, params, op, call)
    {
      var (n', outcome) := Deliver(env, world[nodeId], op, call);
      world := world[nodeId := n'];
      var name := nodes[nodeId].name;
      match outcome {
        case Ok(id) =>
          var shown := if target.None? then id else target;
          log := Append(env.hasher, log,
            Payload(call.ts, actor, action, Some(nodeId), Some(name), Some(kind), shown, "success", None, params, None));
        case AdapterError(text) =>
          log := Append(env.hasher, log,
            Payload(call.ts, actor, action, Some(nodeId), Some(name), Some(kind), target, "failure", Some(text), params, None));
      }
      return outcome;
    }

    /** A single action; None is the exception of an adapter that cannot be built. */
    method Perform(
      actor: string, action: string, nodeId: string, kind: string, target: Option<string>, params: string, op: Node.Op, call: Call
    ) returns (res: Option<Result>)
      requires Registered(Snapshot(), nodeId)
      modifies this`world, this`log
      ensures res.Some? <==> Ready(old(Snapshot()), nodeId)
      ensures if res.None? then Snapshot() == old(Snapshot())
              else (Snapshot(), res.value) == Attempt(env, old(Snapshot()), actor, action, nodeId, kind, target, params, op, call)
    {
      if nodes[nodeId].defect.Some? {
        return None;
      }
      var done := CallAndAudit(actor, action, nodeId, kind, target, params, op, call);
      return Some(done);
    }

    method GetOrCreateLogical(username: string, email: Option<string>, freshId: string) returns (luId: string)
      modifies this`identities, this`names
      ensures (Snapshot(), luId) == GetOrCreate(old(Snapshot()), username, email, freshId)
    {
      if username in names && names[username] in identities {
        luId := names[username];
        if Truthy(email) && !Truthy(identities[luId].email) {
          identities := identities[luId := identities[luId].(email := email)];
        }
        return;
      }
      luId := freshId;
      identities := identities[luId := Identity(username, email)];
      names := names[username := luId];
    }

    method ProvisionTarget(actor: string, luId: string, username: string, job: Job, unflushed: bool) returns (phase: Phase)
      modifies this`world, this`log, this`placements
      ensures (Snapshot(), phase)
           == ProvisionNext(env, old(Snapshot()), if unflushed then Unflushed else Clean, actor, luId, username, job)
    {
      var t := job.target;
      var at := FindPlacement(placements, luId, t.nodeId);
      var placement := if at.Some? then placements[at.value]
                       else Placement(luId, t.nodeId, t.orgId, None, Pending, None);
      phase := if unflushed then Unflushed else Clean;
      if t.nodeId !in nodes || t.nodeId !in world {
        placement := placement.(status := Failed, lastError := Some("node not found"));
        phase := if at.None? then Unflushed else phase;
      } else if nodes[t.nodeId].defect.Some? {
        return Raised;
      } else {
        var res := CallAndAudit(actor, "provision_user", t.nodeId, "user", None, ProvisionParams(env, t.orgId, username),
                                Node.Create(t.orgId, username), job.call);
        match res {
          case Ok(id) =>
            placement := placement.(remote := id, orgId := t.orgId, status := Active, lastError := None);
          case AdapterError(text) =>
            placement := placement.(status := Failed, lastError := Some(text));
        }
        if unflushed {
          phase := Raised;
        }
      }
      placements := if at.Some? then placements[at.value := placement] else placements + [placement];
    }

    method ProvisionTargets(actor: string, luId: string, username: string, jobs: seq<Job>) returns (phase: Phase)
      modifies this`world, this`log, this`placements
      ensures (Snapshot(), phase) == ProvisionLoop(env, old(Snapshot()), actor, luId, username, jobs)
    {
      phase := Clean;
      var i := 0;
      while i < |jobs| && !phase.Raised?
        invariant 0 <= i <= |jobs|
        invariant (Snapshot(), phase) == ProvisionLoop(env, old(Snapshot()), actor, luId, username, jobs[..i])
      {
        assert jobs[..i + 1][..i] == jobs[..i];
        phase := ProvisionTarget(actor, luId, username, jobs[i], phase.Unflushed?);
        i := i + 1;
      }
      if phase.Raised? {
        RaisedStays(env, old(Snapshot()), actor, luId, username, jobs, i);
      } else {
        assert jobs[..i] == jobs;
      }
    }

    method ProvisionUser(actor: string, username: string, email: Option<string>, freshId: string, jobs: seq<Job>) returns (end: Ended)
      modifies this
      ensures (Snapshot(), end) == Provision(env, old(Snapshot()), actor, username, email, freshId, jobs)
    {
      var tables := (identities, names, placements, log);
      var luId := GetOrCreateLogical(username, email, freshId);
      var phase := ProvisionTargets(actor, luId, username, jobs);
      if !phase.Clean? {
        identities, names, placements, log := tables.0, tables.1, tables.2, tables.3;
        return RolledBack;
      }
      return Committed;
    }

    method DeprovisionPlacement(actor: string, luId: string, username: string, hard: bool, i: nat, call: Call) returns (raised: bool)
      requires i < |placements|
      modifies this`world, this`log, this`placements
      ensures raised <==> Sticks(old(Snapshot()), luId, i)
      ensures Snapshot() == if raised then old(Snapshot())
                            else DeprovisionOne(env, old(Snapshot()), actor, luId, username, hard, i, call)
    {
      var p := placements[i];
      if p.luId != luId || p.nodeId !in nodes || p.nodeId !in world || p.remote.None? {
        return false;
      }
      if nodes[p.nodeId].defect.Some? {
        return true;
      }
      var action := if hard then "deprovision_delete" else "deprovision_revoke";
      var op := if hard then Node.Delete(p.remote.value) else Node.Revoke(p.remote.value);
      var res := CallAndAudit(actor, action, p.nodeId, "user", p.remote, env.dumps([("username", Json.Str(username))]), op, call);
      match res {
        case Ok(_) => p := p.(status := Revoked, lastError := None);
        case AdapterError(text) => p := p.(lastError := Some(text));
      }
      placements := placements[i := p];
      return false;
    }

    method DeprovisionUser(actor: string, luId: string, hard: bool, calls: seq<Call>) returns (end: Ended)
      requires |placements| == |calls|
      modifies this`world, this`log, this`placements
      ensures (Snapshot(), end) == Deprovision(env, old(Snapshot()), actor, luId, hard, calls)
    {
      if luId !in identities {
        return NotFound;
      }
      var tables := (placements, log);
      var username := identities[luId].username;
      var i, raised := 0, false;
      while i < |calls| && !raised
        invariant 0 <= i <= |calls| == |placements|
        invariant (Snapshot(), raised) == DeprovisionLoop(env, old(Snapshot()), actor, luId, username, hard, calls, i)
      {
        raised := DeprovisionPlacement(actor, luId, username, hard, i, calls[i]);
        i := i + 1;
      }
      if raised {
        StuckStays(env, old(Snapshot()), actor, luId, username, hard, calls, i, |calls|);
        placements, log := tables.0, tables.1;
        return RolledBack;
      }
      return Committed;
    }

    /** Compare every placement on the node with the ids found there, and set its status. */
    method ReconcilePlacements(nodeId: string, ids: seq<string>) returns (present: nat, missing: seq<string>, tracked: set<string>)
      modifies this`placements
      ensures placements == ReconciledAll(old(placements), nodeId, ids)
      ensures present == CountPresent(old(placements), nodeId, ids) && missing == MissingOn(old(placements), nodeId, ids)
      ensures tracked == TrackedOn(old(placements), nodeId, ids)
    {
      present, missing, tracked := 0, [], {};
      ghost var before := placements;
      for i := 0 to |placements|
        invariant |placements| == |before|
        invariant forall j | 0 <= j < |before| :: placements[j] == if j < i then Reconciled(before[j], nodeId, ids) else before[j]
        invariant present == CountPresent(before[..i], nodeId, ids) && missing == MissingOn(before[..i], nodeId, ids)
        invariant tracked == TrackedOn(before[..i], nodeId, ids)
      {
        var p := placements[i];
        assert before[..i + 1][..i] == before[..i] && before[..i + 1] == before[..i] + [p];
        if p.nodeId == nodeId {
          if Truthy(p.remote) && p.remote.value in ids {
            placements := placements[i := p.(status := Active, lastError := None)];
            present := present + 1;
            tracked := tracked + {p.remote.value};
          } else if Truthy(p.remote) {
            placements := placements[i := p.(status := Missing)];
            missing := missing + [p.remote.value];
          }
        }
        TrackedGrows(before[..i], p, nodeId, ids);
      }
      assert before[..|before|] == before;
    }

    /** None is the exception of an adapter that cannot be built. */
    method SyncNode(nodeId: string, fault: Fault) returns (report: Option<Report>)
      requires Registered(Snapshot(), nodeId)
      modifies this`placements
      ensures report.Some? <==> Ready(old(Snapshot()), nodeId)
      ensures if report.None? then Snapshot() == old(Snapshot())
              else (Snapshot(), report.value) == Sync(old(Snapshot()), nodeId, fault)
    {
      var onNode := CountOn(placements, nodeId);
      if nodes[nodeId].defect.Some? {
        return None;
      }
      if !fault.Delivered? {
        return Some(Report(false, onNode, 0, [], [], Some(fault.text)));
      }
      var users := world[nodeId].users;
      var ids := UserIds(users);
      var present, missing, tracked := ReconcilePlacements(nodeId, ids);
      var untracked: seq<Drift> := [];
      for i := 0 to |ids|
        invariant untracked == UntrackedOn(ids[..i], tracked, users)
      {
        assert ids[..i + 1][..i] == ids[..i];
        if ids[i] !in tracked {
          untracked := untracked + [Drift(ids[i], Some(NameOf(users, ids[i])))];
        }
      }
      assert ids[..|ids|] == ids;
      return Some(Report(true, onNode, present, missing, untracked, None));
    }

    method SyncAllNodes(nodeIds: seq<string>, faults: seq<Fault>) returns (reports: seq<Report>)
      requires |nodeIds| == |faults| && AllKnown(Snapshot(), nodeIds)
      modifies this`placements
      ensures (Snapshot(), reports) == SyncAll(old(Snapshot()), nodeIds, faults)
    {
      reports := [];
      for i := 0 to |nodeIds|
        invariant world == old(world) && nodes == old(nodes)
        invariant (Snapshot(), reports) == SyncAll(old(Snapshot()), nodeIds[..i], faults[..i])
      {
        assert nodeIds[i] in nodeIds;
        assert nodeIds[..i + 1][..i] == nodeIds[..i] && faults[..i + 1][..i] == faults[..i];
        var report := SyncNode(nodeIds[i], faults[i]);
        reports := reports + [if report.Some? then report.value else Report(false, 0, 0, [], [], nodes[nodeIds[i]].defect)];
      }
      assert nodeIds[..|nodeIds|] == nodeIds && faults[..|faults|] == faults;
    }

    method BulkCreateUsers(actor: string, nodeId: string, orgId: string, rows: seq<UserRow>)
      returns (raised: bool, created: nat, results: seq<Outcome>)
      requires Registered(Snapshot(), nodeId)
      modifies this`world, this`log
      ensures raised <==> !Ready(old(Snapshot()), nodeId)
      ensures if raised then Snapshot() == old(Snapshot())
              else (Snapshot(), results) == BulkCreate(env, old(Snapshot()), actor, nodeId, orgId, rows)
      ensures created == CountOk(results)
    {
      raised, created, results := nodes[nodeId].defect.Some?, 0, [];
      if raised {
        return;
      }
      for i := 0 to |rows|
        invariant (Snapshot(), results) == BulkCreate(env, old(Snapshot()), actor, nodeId, orgId, rows[..i])
      {
        assert rows[..i + 1][..i] == rows[..i];
        var res := CallAndAudit(actor, "create_user", nodeId, "user", None, BulkCreateParams(env, orgId, rows[i].name),
                                Node.Create(orgId, rows[i].name), rows[i].call);
        results := results + [Outcome(rows[i].name, res.Ok?)];
      }
      assert rows[..|rows|] == rows;
      created := CountOk(results);
    }

    method BulkUserAction(actor: string, nodeId: string, orgId: string, k: BulkKind, rows: seq<IdRow>)
      returns (raised: bool, ok: nat, results: seq<Outcome>)
      requires Registered(Snapshot(), nodeId)
      modifies this`world, this`log
      ensures raised <==> !Ready(old(Snapshot()), nodeId)
      ensures if raised then Snapshot() == old(Snapshot())
              else (Snapshot(), results) == BulkAction(env, old(Snapshot()), actor, nodeId, orgId, k, rows)
      ensures ok == CountOk(results)
    {
      raised, ok, results := nodes[nodeId].defect.Some?, 0, [];
      if raised {
        return;
      }
      for i := 0 to |rows|
        invariant (Snapshot(), results) == BulkAction(env, old(Snapshot()), actor, nodeId, orgId, k, rows[..i])
      {
        assert rows[..i + 1][..i] == rows[..i];
        var res := CallAndAudit(actor, BulkName(k), nodeId, "user", Some(rows[i].id), env.dumps([("org_id", Json.Str(orgId))]),
                                BulkOp(k, rows[i].id), rows[i].call);
        results := results + [Outcome(rows[i].id, res.Ok?)];
      }
      assert rows[..|rows|] == rows;
      ok := CountOk(results);
    }
  }
}
