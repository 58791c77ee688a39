/** What each endpoint answers and changes, by what the caller presents and what the tables hold. */
module SessionAnswers {
  import opened Wrappers
  import opened Identity
  import opened Session
  import RL = RateLimit

  // ----- the role guard -----

  /** The principal holds the role globally or on the site that the path names. */
  predicate Holds(p: Principal, nodeId: Option<string>, role: Role) {
    p.globalRole == role || (nodeId.Some? && nodeId.value != "" && Binding(nodeId.value, role) in p.bindings)
  }

  /** A session token that the server issued, that has not expired, of a principal that exists and is enabled. */
  predicate LiveSession(s: State, bearer: Option<Token>, now: real) {
    && bearer.Some? && bearer.value in s.issued && bearer.value.exp as real > now && bearer.value.scope == Full
    && bearer.value.sub in s.principals && !s.principals[bearer.value.sub].disabled
  }

  /**
   Who gets through: an admin everywhere, an operator wherever no admin is asked for, anyone else to read there.
   Without a live session the answer is 401, without the role 403.
   */
  lemma GuardAnswers(s: State, bearer: Option<Token>, route: Route, now: real)
    ensures Guard(s, bearer, route, now) == Denied(401) <==> !LiveSession(s, bearer, now)
    ensures LiveSession(s, bearer, now) ==>
              var p := s.principals[bearer.value.sub];
              var admitted := Holds(p, route.nodeId, Admin)
                           || (!IsAdminRoute(route.verb, route.template)
                               && (route.verb == "GET" || Holds(p, route.nodeId, Operator)));
              Guard(s, bearer, route, now) == if admitted then Allowed(bearer.value.sub) else Denied(403)
  {
    if LiveSession(s, bearer, now) {
      RolesSuffice(s.principals[bearer.value.sub], route.nodeId);
    }
  }

  /** The highest of the roles held: admin if one is, else operator if one is, else viewer. */
  lemma RolesSuffice(p: Principal, nodeId: Option<string>)
    ensures EffectiveRole(p, nodeId)
         == if Holds(p, nodeId, Admin) then Admin else if Holds(p, nodeId, Operator) then Operator else Viewer
    ensures RoleAtLeast(Admin, Operator) && RoleAtLeast(Operator, Viewer) && !RoleAtLeast(Viewer, Operator) && !RoleAtLeast(Operator, Admin)
  {
    if nodeId.Some? {
      RaisedIsHighest(p.globalRole, p.bindings, nodeId.value);
    }
  }

  // ----- login and second factor -----

  /** A key is locked as long as its lockout lasts. */
  predicate Locked(s: State, key: string, now: real) { key in s.limiter && s.limiter[key].lockedUntil > now }

  /** A token lives for its minutes, cut to whole seconds. */
  predicate LivesFor(t: Token, now: real, minutes: nat) {
    now + (60 * minutes) as real - 1.0 < t.exp as real <= now + (60 * minutes) as real
  }

  lemma ExpiryLives(sub: string, scope: Scope, now: real, minutes: nat)
    ensures LivesFor(Token(sub, scope, Expiry(now, minutes)), now, minutes)
  {
  }

  /**
   Login: 429 while the key is locked; a step token exactly for the right password of an enabled principal, for the second
   factor if that is enabled and for enrolment if not; else 401. Success drops the key's failures, a refusal adds one.
   */
  lemma LoginAnswers(env: Env, s: State, username: string, password: string, ip: string, now: real)
    ensures var (t, r) := LoginStep(env, s, username, password, ip, now);
            var key, locked := username + ":" + ip, Locked(s, username + ":" + ip, now);
            var right := username in s.names && s.names[username] in s.principals
                      && !s.principals[s.names[username]].disabled
                      && env.passwordOk(s.principals[s.names[username]].passwordHash, password);
            && (r == Status(429) <==> locked) && (r.Issued? <==> !locked && right) && (r == Status(401) <==> !locked && !right)
            && t.principals == s.principals && t.names == s.names && t.nodes == s.nodes
            && (locked ==> t == s)
            && (r == Status(401) ==> t.issued == s.issued && t.limiter == s.limiter[key := RL.Fail(env.limits, RL.SlotOf(s.limiter, key), now)])
            && (r.Issued? ==>
                  && t.issued == s.issued + {r.token} && t.limiter == s.limiter - {key}
                  && r.token.sub == s.names[username] && LivesFor(r.token, now, env.stepTtl)
                  && r.token.scope == if s.principals[s.names[username]].mfaEnabled then Mfa else Enroll)
  {
  }

  /** A step token that lives, of a principal that exists and is enabled. */
  predicate LiveStep(s: State, bearer: Option<Token>, now: real) {
    && bearer.Some? && bearer.value in s.issued && bearer.value.exp as real > now && bearer.value.scope != Full
    && bearer.value.sub in s.principals && !s.principals[bearer.value.sub].disabled
  }

  /** Enrolment: the secret told is the one stored, unconfirmed, for a live enroll token; 400 for a live token of the other step; else 401. */
  lemma EnrollAnswers(s: State, bearer: Option<Token>, secret: string, now: real)
    ensures var (t, r) := EnrollStep(s, bearer, secret, now);
            var live := LiveStep(s, bearer, now);
            && (r == Status(401) <==> !live) && (r == Status(400) <==> live && bearer.value.scope == Mfa)
            && (r.Enrolled? <==> live && bearer.value.scope == Enroll) && (!r.Enrolled? ==> t == s)
            && (r.Enrolled? ==>
                  var id := bearer.value.sub;
                  && t == s.(principals := t.principals) && t.principals.Keys == s.principals.Keys
                  && t.principals[id] == s.principals[id].(totpSecret := Some(r.secret), mfaEnabled := false)
                  && r.secret == secret && forall other | other in s.principals && other != id :: t.principals[other] == s.principals[other])
  {
  }

  /**
   Verification: a session exactly for a live step token, an open key and a code that matches the stored secret; the
   enroll step confirms the factor. 401 for a token that is not live or a wrong code, 429 while the key is locked.
   */
  lemma VerifyAnswers(env: Env, s: State, bearer: Option<Token>, code: string, ip: string, now: real)
    ensures var (t, r) := VerifyStep(env, s, bearer, code, ip, now);
            if !LiveStep(s, bearer, now) then (t, r) == (s, Status(401))
            else
              var id := bearer.value.sub;
              var p := s.principals[id];
              var key := "mfa:" + p.username + ":" + ip;
              var right := p.totpSecret.Some? && env.totpOk(p.totpSecret.value, code, now);
              && (r == Status(429) <==> Locked(s, key, now)) && (r == Status(429) ==> t == s)
              && (r.Issued? <==> !Locked(s, key, now) && right)
              && (r == Status(401) <==> !Locked(s, key, now) && !right)
              && (r == Status(401) ==>
                    t.principals == s.principals && t.issued == s.issued
                    && t.limiter == s.limiter[key := RL.Fail(env.limits, RL.SlotOf(s.limiter, key), now)])
              && (r.Issued? ==>
                    && t.issued == s.issued + {r.token} && t.limiter == s.limiter - {key}
                    && r.token.sub == id && r.token.scope == Full && LivesFor(r.token, now, env.fullTtl)
                    && t.principals == s.principals[id := if bearer.value.scope == Enroll then p.(mfaEnabled := true) else p])
  {
  }

  // ----- management -----

  /** A refused management request changes nothing, and is refused as not found, conflicting or violating a foreign key. */
  lemma ManageRefuses(s: State, a: Action)
    ensures var (t, r) := Apply(s, a);
            && (r != Done ==> t == s)
            && (r == Status(404) <==>
                match a
                case CreatePrincipal(_, _, _, _) => false
                case CreateNode(_, _) => false
                case RenameNode(nodeId, _) => nodeId !in s.nodes
                case DeleteNode(nodeId) => nodeId !in s.nodes
                case _ => a.id !in s.principals)
            && (r == Status(409) <==>
                || (a.CreatePrincipal? && a.username in s.names)
                || (a.CreateNode? && exists n :: n in s.nodes && s.nodes[n] == a.name)
                || (a.RenameNode? && a.nodeId in s.nodes && s.nodes[a.nodeId] != a.name && exists n :: n in s.nodes && s.nodes[n] == a.name))
            && (r == Status(500) <==>
                a.SetBinding? && a.id in s.principals && a.nodeId !in s.nodes
                && forall b | b in s.principals[a.id].bindings :: b.nodeId != a.nodeId)
            && (r == Done || r == Status(404) || r == Status(409) || r == Status(500))
  {
  }

  /** A management request is carried out behind the guard of its route, and otherwise gets the guard's refusal. */
  lemma ManageGuarded(s: State, bearer: Option<Token>, a: Action, now: real)
    ensures var v := Guard(s, bearer, RouteOf(a), now);
            ManageStep(s, bearer, a, now) == if v.Denied? then (s, Status(v.code)) else Apply(s, a)
  {
  }

  /** What a management request that is carried out leaves. */
  lemma ManageChanges(s: State, a: Action)
    requires Apply(s, a).1 == Done
    ensures var t := Apply(s, a).0;
            && t == s.(principals := t.principals, names := t.names, nodes := t.nodes)
            && match a
               case CreatePrincipal(id, username, hash, role) =>
                 && t.principals == s.principals[id := Principal(username, hash, role, false, None, false, [])]
                 && t.names == s.names[username := id] && t.nodes == s.nodes
               case UpdatePrincipal(id, newHash, newRole, newDisabled, resetMfa) =>
                 && t.names == s.names && t.nodes == s.nodes && t.principals.Keys == s.principals.Keys
                 && (forall other | other in s.principals && other != id :: t.principals[other] == s.principals[other])
                 && var (p, q) := (s.principals[id], t.principals[id]);
                    && q.username == p.username && q.bindings == p.bindings
                    && q.passwordHash == (if newHash.Some? then newHash.value else p.passwordHash)
                    && q.globalRole == (if newRole.Some? then newRole.value else p.globalRole)
                    && q.disabled == (if newDisabled.Some? then newDisabled.value else p.disabled)
                    && q.totpSecret == (if resetMfa then None else p.totpSecret)
                    && q.mfaEnabled == (p.mfaEnabled && !resetMfa)
               case DeletePrincipal(id) =>
                 t.principals == s.principals - {id} && t.names == s.names - {s.principals[id].username} && t.nodes == s.nodes
               case CreateNode(nodeId, name) =>
                 t.nodes == s.nodes[nodeId := name] && t.principals == s.principals && t.names == s.names
               case RenameNode(nodeId, name) =>
                 t.nodes == s.nodes[nodeId := name] && t.principals == s.principals && t.names == s.names
               case DeleteNode(nodeId) => t.nodes == s.nodes - {nodeId} && t.principals.Keys == s.principals.Keys && t.names == s.names
               case _ =>
                 && t.names == s.names && t.nodes == s.nodes && t.principals.Keys == s.principals.Keys
                 && (forall other | other in s.principals && other != a.id :: t.principals[other] == s.principals[other])
                 && t.principals[a.id] == s.principals[a.id].(bindings := t.principals[a.id].bindings)
  {
  }
}
