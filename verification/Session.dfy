/**
 Login, second factor, session tokens and principal management as one state machine, and the class
 that carries the endpoints out step by step. Password hashing and TOTP are arbitrary functions;
 a bearer text decodes to a token exactly when the server issued that token. Each request
 reads one clock.
 */
module Session {
  import opened Wrappers
  import opened Identity
  import RL = RateLimit

  datatype Scope = Full | Mfa | Enroll

  datatype Token = Token(sub: string, scope: Scope, exp: int)

  /** What the environment fixes: limits, token lifetimes in minutes, the two checks. */
  datatype Env = Env(
    limits: RL.Limits, fullTtl: nat, stepTtl: nat,
    passwordOk: (string, string) -> bool, totpOk: (string, string, real) -> bool)

  /**
   `names` is the unique index on usernames and `nodes` the registered nodes, that bindings may refer to, with their names; `issued` and
   `ops` record every token issued and every limiter operation so far.
   */
  datatype State = State(
    clock: real, limiter: RL.State, principals: map<string, Principal>, names: map<string, string>,
    nodes: map<string, string>, issued: set<Token>, ops: seq<RL.Op>)

  datatype Reply = Issued(token: Token) | Enrolled(secret: string) | Done | Status(code: nat)

  function Expiry(now: real, minutes: nat): int { (now + (60 * minutes) as real).Floor }

  // ----- tokens -----

  /** `exp` is the first instant at which the token is no longer accepted (section 4.1.4 of RFC 7519). */
  predicate Decodes(s: State, t: Token, now: real) { t in s.issued && t.exp as real > now }

  predicate Admits(s: State, bearer: Option<Token>, now: real) {
    && bearer.Some? && Decodes(s, bearer.value, now)
    && bearer.value.sub in s.principals && !s.principals[bearer.value.sub].disabled
  }

  // ----- the role guard -----

  datatype Route = Route(verb: string, template: string, nodeId: Option<string>)

  datatype Verdict = Allowed(sub: string) | Denied(code: nat)

  function Guard(s: State, bearer: Option<Token>, route: Route, now: real): Verdict {
    if !Admits(s, bearer, now) || bearer.value.scope != Full then Denied(401)
    else if !RoleAtLeast(EffectiveRole(s.principals[bearer.value.sub], route.nodeId),
                         RequiredRole(route.verb, route.template)) then Denied(403)
    else Allowed(bearer.value.sub)
  }

  // ----- login and second factor -----

  function LimiterKey(identifier: string, ip: string): string { identifier + ":" + ip }

  function Limited(env: Env, s: State, op: RL.Op): State {
    s.(limiter := RL.Apply(env.limits, s.limiter, op), ops := s.ops + [op])
  }

  function Issue(s: State, t: Token): State { s.(issued := s.issued + {t}) }

  predicate Authenticates(env: Env, s: State, username: string, password: string) {
    && username in s.names && s.names[username] in s.principals
    && !s.principals[s.names[username]].disabled
    && env.passwordOk(s.principals[s.names[username]].passwordHash, password)
  }

  function LoginStep(env: Env, s: State, username: string, password: string, ip: string, now: real): (State, Reply) {
    var key := LimiterKey(username, ip);
    if RL.Blocked(s.limiter, key, now) > 0.0 then (s, Status(429))
    else if !Authenticates(env, s, username, password) then
      (Limited(env, s, RL.Failure(key, now)), Status(401))
    else
      var id := s.names[username];
      var scope := if s.principals[id].mfaEnabled then Mfa else Enroll;
      var t := Token(id, scope, Expiry(now, env.stepTtl));
      (Issue(Limited(env, s, RL.Reset(key)), t), Issued(t))
  }

  function EnrollStep(s: State, bearer: Option<Token>, secret: string, now: real): (State, Reply) {
    if !Admits(s, bearer, now) || bearer.value.scope == Full then (s, Status(401))
    else if bearer.value.scope != Enroll then (s, Status(400))
    else
      var id := bearer.value.sub;
      var p := s.principals[id];
      (s.(principals := s.principals[id := p.(totpSecret := Some(secret), mfaEnabled := false)]), Enrolled(secret))
  }

  predicate TotpMatches(env: Env, p: Principal, code: string, now: real) {
    p.totpSecret.Some? && env.totpOk(p.totpSecret.value, code, now)
  }

  function VerifyStep(env: Env, s: State, bearer: Option<Token>, code: string, ip: string, now: real): (State, Reply) {
    if !Admits(s, bearer, now) || bearer.value.scope == Full then (s, Status(401))
    else
      var id := bearer.value.sub;
      var p := s.principals[id];
      var key := LimiterKey("mfa:" + p.username, ip);
      if RL.Blocked(s.limiter, key, now) > 0.0 then (s, Status(429))
      else if !TotpMatches(env, p, code, now) then
        (Limited(env, s, RL.Failure(key, now)), Status(401))
      else
        var t := Token(id, Full, Expiry(now, env.fullTtl));
        var p' := if bearer.value.scope == Enroll then p.(mfaEnabled := true) else p;
        (Issue(Limited(env, s, RL.Reset(key)).(principals := s.principals[id := p']), t), Issued(t))
  }

  // ----- principal and node management -----

  datatype Action =
    | CreatePrincipal(id: string, username: string, passwordHash: string, role: Role)
    | UpdatePrincipal(id: string, newHash: Option<string>, newRole: Option<Role>, newDisabled: Option<bool>, resetMfa: bool)
    | DeletePrincipal(id: string)
    | SetBinding(id: string, nodeId: string, role: Role)
    | DeleteBinding(id: string, nodeId: string)
    | CreateNode(nodeId: string, name: string)
    | RenameNode(nodeId: string, name: string)
    | DeleteNode(nodeId: string)

  const PRINCIPALS := "/api/v1" + "/principals"
  const NODES := "/api/v1" + "/nodes"

  /** Only the routes that delete a binding, or edit or delete a node, carry a node id in their path. */
  function RouteOf(a: Action): Route {
    match a
    case CreatePrincipal(_, _, _, _) => Route("POST", PRINCIPALS + "", None)
    case UpdatePrincipal(_, _, _, _, _) => Route("PATCH", PRINCIPALS + "/{principal_id}", None)
    case DeletePrincipal(_) => Route("DELETE", PRINCIPALS + "/{principal_id}", None)
    case SetBinding(_, _, _) => Route("PUT", PRINCIPALS + "/{principal_id}/bindings", None)
    case DeleteBinding(_, nodeId) => Route("DELETE", PRINCIPALS + "/{principal_id}/bindings/{node_id}", Some(nodeId))
    case CreateNode(_, _) => Route("POST", NODES, None)
    case RenameNode(nodeId, _) => Route("PATCH", "/api/v1" + "/nodes/{node_id}", Some(nodeId))
    case DeleteNode(nodeId) => Route("DELETE", "/api/v1" + "/nodes/{node_id}", Some(nodeId))
  }

  function Updated(p: Principal, newHash: Option<string>, newRole: Option<Role>, newDisabled: Option<bool>, resetMfa: bool): Principal {
    var p1 := if newHash.Some? then p.(passwordHash := newHash.value) else p;
    var p2 := if resetMfa then p1.(totpSecret := None, mfaEnabled := false) else p1;
    var p3 := if newRole.Some? then p2.(globalRole := newRole.value) else p2;
    if newDisabled.Some? then p3.(disabled := newDisabled.value) else p3
  }

  /** The first binding for a node gets the role; without one a binding is added. */
  function Bound(bs: seq<Binding>, nodeId: string, role: Role): seq<Binding> {
    if bs == [] then [Binding(nodeId, role)]
    else if bs[0].nodeId == nodeId then [Binding(nodeId, role)] + bs[1..]
    else [bs[0]] + Bound(bs[1..], nodeId, role)
  }

  function Unbound(bs: seq<Binding>, nodeId: string): seq<Binding> {
    if bs == [] then [] else if bs[0].nodeId == nodeId then bs[1..] else [bs[0]] + Unbound(bs[1..], nodeId)
  }

  predicate BoundTo(bs: seq<Binding>, nodeId: string) { exists b :: b in bs && b.nodeId == nodeId }

  /** The bindings that are left when a node is gone. */
  function BoundElsewhere(bs: seq<Binding>, nodeId: string): seq<Binding> {
    if bs == [] then []
    else
      var front := BoundElsewhere(bs[..|bs| - 1], nodeId);
      if bs[|bs| - 1].nodeId == nodeId then front else front + [bs[|bs| - 1]]
  }

  /** 500 is the foreign-key violation of a new binding to a node that is not registered. */
  function Apply(s: State, a: Action): (State, Reply) {
    match a
    case CreatePrincipal(id, username, hash, role) =>
      if username in s.names then (s, Status(409))
      else (s.(principals := s.principals[id := Principal(username, hash, role, false, None, false, [])],
               names := s.names[username := id]), Done)
    case UpdatePrincipal(id, newHash, newRole, newDisabled, resetMfa) =>
      if id !in s.principals then (s, Status(404))
      else (s.(principals := s.principals[id := Updated(s.principals[id], newHash, newRole, newDisabled, resetMfa)]), Done)
    case DeletePrincipal(id) =>
      if id !in s.principals then (s, Status(404))
      else (s.(principals := s.principals - {id}, names := s.names - {s.principals[id].username}), Done)
    case SetBinding(id, nodeId, role) =>
      if id !in s.principals then (s, Status(404))
      else
        var p := s.principals[id];
        if !BoundTo(p.bindings, nodeId) && nodeId !in s.nodes then (s, Status(500))
        else (s.(principals := s.principals[id := p.(bindings := Bound(p.bindings, nodeId, role))]), Done)
    case DeleteBinding(id, nodeId) =>
      if id !in s.principals then (s, Status(404))
      else
        var p := s.principals[id];
        (s.(principals := s.principals[id := p.(bindings := Unbound(p.bindings, nodeId))]), Done)
    case CreateNode(nodeId, name) =>
      if name in s.nodes.Values then (s, Status(409)) else (s.(nodes := s.nodes[nodeId := name]), Done)
    case RenameNode(nodeId, name) =>
      if nodeId !in s.nodes then (s, Status(404))
      else if name != s.nodes[nodeId] && name in s.nodes.Values then (s, Status(409))
      else (s.(nodes := s.nodes[nodeId := name]), Done)
    case DeleteNode(nodeId) =>
      if nodeId !in s.nodes then (s, Status(404))
      else
        (s.(nodes := s.nodes - {nodeId},
            principals := map id | id in s.principals ::
              s.principals[id].(bindings := BoundElsewhere(s.principals[id].bindings, nodeId))), Done)
  }

  function ManageStep(s: State, bearer: Option<Token>, a: Action, now: real): (State, Reply) {
    match Guard(s, bearer, RouteOf(a), now)
    case Denied(code) => (s, Status(code))
    case Allowed(_) => Apply(s, a)
  }

  // ----- the endpoints -----

  class ControlPlane {
    const env: Env
    const limiter: RL.Limiter
    var principals: map<string, Principal>
    var names: map<string, string>
    var nodes: map<string, string>
    var issued: set<Token>
    ghost var ops: seq<RL.Op>

    ghost predicate Valid()
      reads this, limiter
    {
      limiter.limits == env.limits
    }

    ghost function Snapshot(clock: real): State
      reads this, limiter
    {
      State(clock, limiter.state, principals, names, nodes, issued, ops)
    }

    constructor (env: Env, principals: map<string, Principal>, names: map<string, string>, nodes: map<string, string>)
      ensures this.env == env && Valid() && fresh(limiter)
      ensures forall c :: Snapshot(c) == State(c, map[], principals, names, nodes, {}, [])
    {
      this.env := env;
      limiter := new RL.Limiter(env.limits);
      this.principals, this.names, this.nodes := principals, names, nodes;
      issued, ops := {}, [];
    }

    method RecordFailure(key: string, now: real)
      requires Valid()
      modifies this`ops, limiter
      ensures Valid() && Snapshot(now) == Limited(env, old(Snapshot(now)), RL.Failure(key, now))
    {
      limiter.RecordFailure(key, now);
      ops := ops + [RL.Failure(key, now)];
    }

    method Reset(key: string, ghost now: real)
      requires Valid()
      modifies this`ops, limiter
      ensures Valid() && Snapshot(now) == Limited(env, old(Snapshot(now)), RL.Reset(key))
    {
      limiter.ResetKey(key);
      ops := ops + [RL.Reset(key)];
    }

    method Login(username: string, password: string, ip: string, now: real) returns (r: Reply)
      requires Valid()
      modifies this, limiter
      ensures Valid() && (Snapshot(now), r) == LoginStep(env, old(Snapshot(now)), username, password, ip, now)
    {
      var key := LimiterKey(username, ip);
      var wait := limiter.BlockedFor(key, now);
      if wait > 0.0 {
        return Status(429);
      }
      var ok := false;
      if username in names && names[username] in principals {
        var p := principals[names[username]];
        ok := !p.disabled && env.passwordOk(p.passwordHash, password);
      }
      if !ok {
        RecordFailure(key, now);
        return Status(401);
      }
      var id := names[username];
      Reset(key, now);
      var t := Token(id, if principals[id].mfaEnabled then Mfa else Enroll, Expiry(now, env.stepTtl));
      issued := issued + {t};
      return Issued(t);
    }

    method MfaEnroll(bearer: Option<Token>, secret: string, now: real) returns (r: Reply)
      requires Valid()
      modifies this
      ensures Valid() && (Snapshot(now), r) == EnrollStep(old(Snapshot(now)), bearer, secret, now)
    {
      var ok := Preauthorised(bearer, now);
      if !ok {
        return Status(401);
      }
      if bearer.value.scope != Enroll {
        return Status(400);
      }
      var id := bearer.value.sub;
      principals := principals[id := principals[id].(totpSecret := Some(secret), mfaEnabled := false)];
      return Enrolled(secret);
    }

    method Preauthorised(bearer: Option<Token>, now: real) returns (ok: bool)
      ensures ok <==> Admits(Snapshot(now), bearer, now) && bearer.value.scope != Full
    {
      if bearer.None? || bearer.value !in issued || bearer.value.exp as real <= now {
        return false;
      }
      if bearer.value.scope == Full || bearer.value.sub !in principals {
        return false;
      }
      ok := !principals[bearer.value.sub].disabled;
    }

    method MfaVerify(bearer: Option<Token>, code: string, ip: string, now: real) returns (r: Reply)
      requires Valid()
      modifies this, limiter
      ensures Valid() && (Snapshot(now), r) == VerifyStep(env, old(Snapshot(now)), bearer, code, ip, now)
    {
      var ok := Preauthorised(bearer, now);
      if !ok {
        return Status(401);
      }
      var id := bearer.value.sub;
      var p := principals[id];
      var key := LimiterKey("mfa:" + p.username, ip);
      var wait := limiter.BlockedFor(key, now);
      if wait > 0.0 {
        return Status(429);
      }
      if p.totpSecret.None? || !env.totpOk(p.totpSecret.value, code, now) {
        RecordFailure(key, now);
        return Status(401);
      }
      assert principals == principals[id := p];
      if bearer.value.scope == Enroll {
        principals := principals[id := p.(mfaEnabled := true)];
      }
      Reset(key, now);
      var t := Token(id, Full, Expiry(now, env.fullTtl));
      issued := issued + {t};
      return Issued(t);
    }

    method RbacGuard(bearer: Option<Token>, route: Route, now: real) returns (v: Verdict)
      ensures v == Guard(Snapshot(now), bearer, route, now)
    {
      if bearer.None? || bearer.value !in issued || bearer.value.exp as real <= now || bearer.value.scope != Full {
        return Denied(401);
      }
      var sub := bearer.value.sub;
      if sub !in principals || principals[sub].disabled {
        return Denied(401);
      }
      var have := ComputeEffectiveRole(principals[sub], route.nodeId);
      if !RoleAtLeast(have, RequiredRole(route.verb, route.template)) {
        return Denied(403);
      }
      return Allowed(sub);
    }

    method Manage(bearer: Option<Token>, a: Action, now: real) returns (r: Reply)
      requires Valid()
      modifies this
      ensures Valid() && (Snapshot(now), r) == ManageStep(old(Snapshot(now)), bearer, a, now)
    {
      var v := RbacGuard(bearer, RouteOf(a), now);
      if v.Denied? {
        return Status(v.code);
      }
      match a {
        case CreatePrincipal(id, username, hash, role) =>
          if username in names {
            return Status(409);
          }
          principals := principals[id := Principal(username, hash, role, false, None, false, [])];
          names := names[username := id];
        case UpdatePrincipal(id, newHash, newRole, newDisabled, resetMfa) =>
          if id !in principals {
            return Status(404);
          }
          var p := principals[id];
          if newHash.Some? {
            p := p.(passwordHash := newHash.value);
          }
          if resetMfa {
            p := p.(totpSecret := None, mfaEnabled := false);
          }
          if newRole.Some? {
            p := p.(globalRole := newRole.value);
          }
          if newDisabled.Some? {
            p := p.(disabled := newDisabled.value);
          }
          principals := principals[id := p];
        case DeletePrincipal(id) =>
          if id !in principals {
            return Status(404);
          }
          names := names - {principals[id].username};
          principals := principals - {id};
        case SetBinding(id, nodeId, role) =>
          if id !in principals {
            return Status(404);
          }
          if !BoundTo(principals[id].bindings, nodeId) && nodeId !in nodes {
            return Status(500);
          }
          principals := principals[id := principals[id].(bindings := Bound(principals[id].bindings, nodeId, role))];
        case DeleteBinding(id, nodeId) =>
          if id !in principals {
            return Status(404);
          }
          principals := principals[id := principals[id].(bindings := Unbound(principals[id].bindings, nodeId))];
        case CreateNode(nodeId, name) =>
          if name in nodes.Values {
            return Status(409);
          }
          nodes := nodes[nodeId := name];
        case RenameNode(nodeId, name) =>
          if nodeId !in nodes {
            return Status(404);
          }
          if name != nodes[nodeId] && name in nodes.Values {
            return Status(409);
          }
          nodes := nodes[nodeId := name];
        case DeleteNode(nodeId) =>
          if nodeId !in nodes {
            return Status(404);
          }
          nodes := nodes - {nodeId};
          principals := map id | id in principals :: principals[id].(bindings := BoundElsewhere(principals[id].bindings, nodeId));
      }
      return Done;
    }
  }
}
