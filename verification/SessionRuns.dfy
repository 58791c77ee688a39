/** What every run of the login, second-factor and management endpoints guarantees. */
module SessionRuns {
  import opened Wrappers
  import opened Identity
  import opened Session
  import RL = RateLimit

  datatype Step =
    | LoginReq(username: string, password: string, ip: string, now: real)
    | EnrollReq(bearer: Option<Token>, secret: string, now: real)
    | VerifyReq(bearer: Option<Token>, code: string, ip: string, now: real)
    | ManageReq(bearer: Option<Token>, action: Action, now: real)

  function Do(env: Env, s: State, step: Step): (State, Reply) {
    var s' := s.(clock := step.now);
    match step
    case LoginReq(username, password, ip, now) => LoginStep(env, s', username, password, ip, now)
    case EnrollReq(bearer, secret, now) => EnrollStep(s', bearer, secret, now)
    case VerifyReq(bearer, code, ip, now) => VerifyStep(env, s', bearer, code, ip, now)
    case ManageReq(bearer, action, now) => ManageStep(s', bearer, action, now)
  }

  function Exec(env: Env, s: State, steps: seq<Step>): State {
    if steps == [] then s else Do(env, Exec(env, s, steps[..|steps| - 1]), steps[|steps| - 1]).0
  }

  /** Any table of principals; no token or limiter entry yet. */
  ghost predicate Initial(s: State) {
    s.clock >= 0.0 && s.limiter == map[] && s.issued == {} && s.ops == []
  }

  /** The clock never runs back. */
  ghost predicate OnTime(s: State, steps: seq<Step>, end: real) {
    if steps == [] then s.clock <= end
    else steps[|steps| - 1].now <= end && OnTime(s, steps[..|steps| - 1], steps[|steps| - 1].now)
  }

  function Seconds(minutes: nat): real { (60 * minutes) as real }

  // ----- the limiter in a run -----

  ghost predicate LimiterInv(env: Env, s: State) {
    s.limiter == RL.Run(env.limits, map[], s.ops) && RL.GuardedRun(env.limits, s.ops, s.clock)
  }

  lemma {:induction false} GuardedRunLater(l: RL.Limits, ops: seq<RL.Op>, c: real, c': real)
    requires RL.GuardedRun(l, ops, c) && c <= c'
    ensures RL.GuardedRun(l, ops, c')
  {
    if ops != [] && ops[|ops| - 1].Reset? {
      GuardedRunLater(l, ops[..|ops| - 1], c, c');
    }
  }

  lemma LimitedKeepsInv(env: Env, s: State, op: RL.Op)
    requires LimiterInv(env, s)
    requires op.Failure? ==> op.now == s.clock >= 0.0 && RL.Blocked(s.limiter, op.key, op.now) == 0.0
    ensures LimiterInv(env, Limited(env, s, op))
  {
  }

  lemma {:induction false} ClockNotNegative(l: RL.Limits, ops: seq<RL.Op>, c: real)
    requires RL.GuardedRun(l, ops, c)
    ensures c >= 0.0
  {
    if ops == [] {
    } else {
      var last := ops[|ops| - 1];
      ClockNotNegative(l, ops[..|ops| - 1], if last.Failure? then last.now else c);
    }
  }

  /** `op`, if any, is the one limiter operation between two states; a failure is counted only while its key is open. */
  ghost predicate LimiterMoves(env: Env, s: State, t: State, op: Option<RL.Op>, now: real) {
    if op.None? then t.limiter == s.limiter && t.ops == s.ops
    else && t.limiter == RL.Apply(env.limits, s.limiter, op.value) && t.ops == s.ops + [op.value]
         && (op.value.Failure? ==> op.value.now == now && RL.Blocked(s.limiter, op.value.key, now) == 0.0)
  }

  lemma ManageLeavesLimiter(s: State, bearer: Option<Token>, a: Action, now: real)
    ensures var t := ManageStep(s, bearer, a, now).0;
            t.limiter == s.limiter && t.ops == s.ops && t.issued == s.issued && t.clock == s.clock
  {
  }

  /** A request performs at most one limiter operation. */
  lemma StepLimiterOp(env: Env, s: State, step: Step) returns (op: Option<RL.Op>)
    ensures LimiterMoves(env, s, Do(env, s, step).0, op, step.now) && Do(env, s, step).0.clock == step.now
  {
    var t := Do(env, s, step).0;
    op := None;
    match step
    case ManageReq(bearer, action, now) => ManageLeavesLimiter(s.(clock := now), bearer, action, now);
    case EnrollReq(_, _, _) =>
    case _ =>
      if t.ops != s.ops {
        op := Some(t.ops[|s.ops|]);
      }
  }

  lemma MovesKeepLimiterInv(env: Env, s: State, t: State, op: Option<RL.Op>)
    requires LimiterInv(env, s) && s.clock <= t.clock && LimiterMoves(env, s, t, op, t.clock)
    ensures LimiterInv(env, t)
  {
    GuardedRunLater(env.limits, s.ops, s.clock, t.clock);
    ClockNotNegative(env.limits, s.ops, s.clock);
    if op.Some? {
      LimitedKeepsInv(env, s.(clock := t.clock), op.value);
    }
  }

  lemma {:induction false} RunKeepsInv(env: Env, s: State, steps: seq<Step>, end: real)
    requires Initial(s) && OnTime(s, steps, end)
    ensures LimiterInv(env, Exec(env, s, steps)) && Exec(env, s, steps).clock <= end
  {
    if steps == [] {
    } else {
      var front, last := steps[..|steps| - 1], steps[|steps| - 1];
      var before := Exec(env, s, front);
      RunKeepsInv(env, s, front, last.now);
      var op := StepLimiterOp(env, before, last);
      MovesKeepLimiterInv(env, before, Do(env, before, last).0, op);
    }
  }

  // ----- every token goes back to requests that earned it -----

  /** Request `k` is a login that proves the password of `sub` and is granted a token for it. */
  ghost predicate PasswordStep(env: Env, s: State, steps: seq<Step>, k: nat, sub: string) {
    && k < |steps| && steps[k].LoginReq?
    && var before := Exec(env, s, steps[..k]);
       var r := Do(env, before, steps[k]).1;
       && Authenticates(env, before, steps[k].username, steps[k].password)
       && before.names[steps[k].username] == sub && r.Issued? && r.token.sub == sub
  }

  /** Request `k` is a verification by `sub` itself that matches its stored TOTP secret and is granted a session. */
  ghost predicate TotpStep(env: Env, s: State, steps: seq<Step>, k: nat, sub: string) {
    && k < |steps| && steps[k].VerifyReq? && steps[k].bearer.Some? && steps[k].bearer.value.sub == sub
    && var before := Exec(env, s, steps[..k]);
       var r := Do(env, before, steps[k]).1;
       && sub in before.principals && TotpMatches(env, before.principals[sub], steps[k].code, steps[k].now)
       && r.Issued? && r.token.sub == sub
  }

  ghost predicate StepBacked(env: Env, s: State, steps: seq<Step>, t: Token, i: nat) {
    PasswordStep(env, s, steps, i, t.sub) && t.exp as real <= steps[i].now + Seconds(env.stepTtl)
  }

  /** The password came first, the code while the step token lived. */
  ghost predicate FullBacked(env: Env, s: State, steps: seq<Step>, t: Token, i: nat, j: nat) {
    && i < j && PasswordStep(env, s, steps, i, t.sub) && TotpStep(env, s, steps, j, t.sub)
    && steps[i].now <= steps[j].now < steps[i].now + Seconds(env.stepTtl)
    && t.exp as real <= steps[j].now + Seconds(env.fullTtl)
  }

  ghost predicate Backed(env: Env, s: State, steps: seq<Step>, t: Token) {
    if t.scope == Full then exists i: nat, j: nat :: FullBacked(env, s, steps, t, i, j)
    else exists i: nat :: StepBacked(env, s, steps, t, i)
  }

  lemma PasswordStepStays(env: Env, s: State, steps: seq<Step>, n: nat, k: nat, sub: string)
    requires n <= |steps| && PasswordStep(env, s, steps[..n], k, sub)
    ensures PasswordStep(env, s, steps, k, sub)
  {
    assert steps[..n][..k] == steps[..k];
  }

  lemma TotpStepStays(env: Env, s: State, steps: seq<Step>, n: nat, k: nat, sub: string)
    requires n <= |steps| && TotpStep(env, s, steps[..n], k, sub)
    ensures TotpStep(env, s, steps, k, sub)
  {
    assert steps[..n][..k] == steps[..k];
  }

  lemma BackedStays(env: Env, s: State, steps: seq<Step>, n: nat, t: Token)
    requires n <= |steps| && Backed(env, s, steps[..n], t)
    ensures Backed(env, s, steps, t)
  {
    if t.scope == Full {
      var i: nat, j: nat :| FullBacked(env, s, steps[..n], t, i, j);
      PasswordStepStays(env, s, steps, n, i, t.sub);
      TotpStepStays(env, s, steps, n, j, t.sub);
      assert FullBacked(env, s, steps, t, i, j);
    } else {
      var i: nat :| StepBacked(env, s, steps[..n], t, i);
      PasswordStepStays(env, s, steps, n, i, t.sub);
      assert StepBacked(env, s, steps, t, i);
    }
  }

  lemma {:induction false} EarlierStep(s: State, steps: seq<Step>, end: real, k: nat)
    requires OnTime(s, steps, end) && k < |steps|
    ensures steps[k].now <= end
  {
    var n := |steps| - 1;
    if k < n {
      EarlierStep(s, steps[..n], steps[n].now, k);
    }
  }

  /** A new token comes from a granted login, or from a verification by the holder of a live step token. */
  lemma NewToken(env: Env, s: State, step: Step, t: Token)
    requires t in Do(env, s, step).0.issued && t !in s.issued
    ensures Do(env, s, step).1 == Issued(t)
    ensures if t.scope == Full then
              && step.VerifyReq? && step.bearer.Some? && step.bearer.value in s.issued
              && step.bearer.value.scope != Full && step.bearer.value.sub == t.sub
              && step.bearer.value.exp as real > step.now
              && t.sub in s.principals && TotpMatches(env, s.principals[t.sub], step.code, step.now)
              && t.exp as real <= step.now + Seconds(env.fullTtl)
            else
              && step.LoginReq? && Authenticates(env, s, step.username, step.password)
              && s.names[step.username] == t.sub && t.exp as real <= step.now + Seconds(env.stepTtl)
  {
    if step.ManageReq? {
      ManageLeavesLimiter(s.(clock := step.now), step.bearer, step.action, step.now);
    }
  }

  lemma {:induction false} TokensAreBacked(env: Env, s: State, steps: seq<Step>, end: real, t: Token)
    requires Initial(s) && OnTime(s, steps, end) && t in Exec(env, s, steps).issued
    ensures Backed(env, s, steps, t)
  {
    var n := |steps| - 1;
    var before := Exec(env, s, steps[..n]);
    if t in before.issued {
      TokensAreBacked(env, s, steps[..n], steps[n].now, t);
      BackedStays(env, s, steps, n, t);
    } else {
      NewToken(env, before, steps[n], t);
      if t.scope == Full {
        var ticket := steps[n].bearer.value;
        TokensAreBacked(env, s, steps[..n], steps[n].now, ticket);
        var i: nat :| StepBacked(env, s, steps[..n], ticket, i);
        PasswordStepStays(env, s, steps, n, i, t.sub);
        EarlierStep(s, steps[..n], steps[n].now, i);
        assert FullBacked(env, s, steps, t, i, n);
      } else {
        assert StepBacked(env, s, steps, t, n);
      }
    }
  }

  // ----- the guarantees -----

  lemma AllowedMeans(s: State, bearer: Option<Token>, route: Route, now: real, sub: string)
    requires Guard(s, bearer, route, now) == Allowed(sub)
    ensures bearer.Some? && bearer.value in s.issued && bearer.value.scope == Full
    ensures bearer.value.sub == sub && bearer.value.exp as real > now
    ensures sub in s.principals && !s.principals[sub].disabled
    ensures RoleAtLeast(EffectiveRole(s.principals[sub], route.nodeId), RequiredRole(route.verb, route.template))
  {
  }

  /**
   Every guarded request accepted at `now`, after any run, comes from an existing, enabled principal of
   sufficient role that was granted a session for a matching code within the session lifetime, and before
   that a step token for its password within that plus the step lifetime.
   */
  lemma AcceptedRequestIsBacked(env: Env, s: State, steps: seq<Step>, bearer: Option<Token>, route: Route, now: real, sub: string)
    requires Initial(s) && OnTime(s, steps, now)
    requires Guard(Exec(env, s, steps), bearer, route, now) == Allowed(sub)
    ensures var ps := Exec(env, s, steps).principals;
            && sub in ps && !ps[sub].disabled
            && RoleAtLeast(EffectiveRole(ps[sub], route.nodeId), RequiredRole(route.verb, route.template))
    ensures exists i: nat, j: nat ::
              && i < j && PasswordStep(env, s, steps, i, sub) && TotpStep(env, s, steps, j, sub)
              && steps[i].now <= steps[j].now <= now
              && steps[j].now > now - Seconds(env.fullTtl)
              && steps[i].now > now - Seconds(env.fullTtl) - Seconds(env.stepTtl)
  {
    var t := bearer.value;
    AllowedMeans(Exec(env, s, steps), bearer, route, now, sub);
    TokensAreBacked(env, s, steps, now, t);
    var i: nat, j: nat :| FullBacked(env, s, steps, t, i, j);
    EarlierStep(s, steps, now, j);
  }

  /**
   The other direction: right credentials and then a right code, in time and not locked out, open a session
   that is admitted at exactly the instants before its expiry while the principal is there and enabled.
   A principal without a second factor passes through enrolment first.
   */
  lemma SessionOpens(
    env: Env, s: State, username: string, password: string, ip: string, secret: string, code: string, at: real, later: real
  )
    requires Authenticates(env, s, username, password) && Indexed(s)
    requires RL.Blocked(s.limiter, LimiterKey(username, ip), at) == 0.0
    requires at <= later && later < Expiry(at, env.stepTtl) as real
    requires RL.Blocked(s.limiter, LimiterKey("mfa:" + username, ip), later) == 0.0
    requires var p := s.principals[s.names[username]];
             if p.mfaEnabled then TotpMatches(env, p, code, later) else env.totpOk(secret, code, later)
    ensures var (s1, r1) := Do(env, s, LoginReq(username, password, ip, at));
            && r1.Issued?
            && var s2 := if r1.token.scope == Mfa then s1 else Do(env, s1, EnrollReq(Some(r1.token), secret, later)).0;
               var (s3, r3) := Do(env, s2, VerifyReq(Some(r1.token), code, ip, later));
               && r3 == Issued(Token(s.names[username], Full, Expiry(later, env.fullTtl)))
               && s3.principals[s.names[username]].mfaEnabled
               && forall t: real :: Admits(s3, Some(r3.token), t) <==> t < Expiry(later, env.fullTtl) as real
  {
    assert |LimiterKey("mfa:" + username, ip)| != |LimiterKey(username, ip)|;
  }

  /** The failed attempts that a run counted under one limiter key since its last reset. */
  function Failures(env: Env, s: State, steps: seq<Step>, key: string): seq<real> {
    RL.TimesSinceReset(key, Exec(env, s, steps).ops)
  }

  /** In every run these are rate-bounded. */
  lemma GuessesBounded(
    env: Env, s: State, steps: seq<Step>, end: real, key: string, times: seq<real>, n: nat, g: real, i: nat, j: nat, k: nat
  )
    requires n == env.limits.maxAttempts >= 1 && g == RL.Gap(env.limits) && j == i + k * n && j < |times|
    requires Initial(s) && OnTime(s, steps, end) && times == Failures(env, s, steps, key)
    ensures times[j] - times[i] >= k as real * g
  {
    var final := Exec(env, s, steps);
    RunKeepsInv(env, s, steps, end);
    RL.GuessRateBounded(env.limits, final.ops, final.clock, key, n, g, i, j, k);
  }

  /** And they cost the limiter's exact price. */
  lemma GuessesPriced(env: Env, s: State, steps: seq<Step>, end: real, key: string, times: seq<real>, i: nat, m: nat)
    requires env.limits.maxAttempts >= 1 && i + m < |times|
    requires Initial(s) && OnTime(s, steps, end) && times == Failures(env, s, steps, key)
    ensures times[i + m] - times[i] >= RL.Price(env.limits, m)
  {
    var final := Exec(env, s, steps);
    RunKeepsInv(env, s, steps, end);
    RL.GuessPriceBounded(env.limits, final.ops, final.clock, key, i, m);
  }

  /** A refused password or code is always counted, and an attempt under lockout is never evaluated. */
  lemma RefusalsAreCounted(env: Env, s: State, step: Step, key: string)
    requires step.LoginReq? || step.VerifyReq?
    requires key == if step.LoginReq? then LimiterKey(step.username, step.ip)
                    else if step.bearer.Some? && step.bearer.value.sub in s.principals then
                      LimiterKey("mfa:" + s.principals[step.bearer.value.sub].username, step.ip)
                    else ""
    requires step.VerifyReq? ==> Admits(s, step.bearer, step.now) && step.bearer.value.scope != Full
    ensures var (s', r) := Do(env, s, step);
            && (RL.Blocked(s.limiter, key, step.now) > 0.0 <==> r == Status(429))
            && (r == Status(429) ==> s' == s.(clock := step.now))
            && (r == Status(401) ==> s'.ops == s.ops + [RL.Failure(key, step.now)])
            && (r != Status(429) && r != Status(401) ==> r.Issued? && s'.ops == s.ops + [RL.Reset(key)])
  {
  }

  // ----- who can change what -----

  /** The part of a principal that decides what it may do. */
  function Authority(s: State, id: string): Option<Principal> {
    if id in s.principals then Some(s.principals[id].(totpSecret := None, mfaEnabled := false)) else None
  }

  /** The principal that an action is about, if it is about one. */
  function Subject(a: Action): Option<string> {
    match a
    case CreatePrincipal(id, _, _, _) => Some(id)
    case UpdatePrincipal(id, _, _, _, _) => Some(id)
    case DeletePrincipal(id) => Some(id)
    case SetBinding(id, _, _) => Some(id)
    case DeleteBinding(id, _) => Some(id)
    case _ => None
  }

  /** The site that an action's path names. */
  function Site(a: Action): Option<string> {
    match a
    case DeleteBinding(_, nodeId) => Some(nodeId)
    case RenameNode(nodeId, _) => Some(nodeId)
    case DeleteNode(nodeId) => Some(nodeId)
    case _ => None
  }

  /** The action is about this principal, or deletes a node it has a binding for. */
  predicate Touches(s: State, a: Action, id: string) {
    Subject(a) == Some(id) || (a.DeleteNode? && id in s.principals && BoundTo(s.principals[id].bindings, a.nodeId))
  }

  /** An admin everywhere, or of the site that the path names. */
  predicate MayManage(p: Principal, a: Action) {
    p.globalRole == Admin || (Site(a).Some? && Site(a).value != "" && Binding(Site(a).value, Admin) in p.bindings)
  }

  /** Request `k` is an admin's accepted management request. */
  ghost predicate AdminStep(env: Env, s: State, steps: seq<Step>, k: nat) {
    && k < |steps| && steps[k].ManageReq?
    && var before := Exec(env, s, steps[..k]);
       var v := Guard(before, steps[k].bearer, RouteOf(steps[k].action), steps[k].now);
       v.Allowed? && v.sub in before.principals && MayManage(before.principals[v.sub], steps[k].action)
  }

  ghost predicate TouchingStep(env: Env, s: State, steps: seq<Step>, k: nat, id: string) {
    AdminStep(env, s, steps, k) && Touches(Exec(env, s, steps[..k]), steps[k].action, id)
  }

  ghost predicate NamingStep(env: Env, s: State, steps: seq<Step>, k: nat, id: string) {
    AdminStep(env, s, steps, k) && Subject(steps[k].action) == Some(id)
  }

  lemma ManagementRoutesNeedAdmin(a: Action)
    ensures RequiredRole(RouteOf(a).verb, RouteOf(a).template) == Admin && RouteOf(a).nodeId == Site(a)
  {
    var route := RouteOf(a);
    if a.CreateNode? || a.RenameNode? || a.DeleteNode? {
      AdminRoutes("/api/v1", "", route.verb);
    } else {
      var suffix := match a
        case CreatePrincipal(_, _, _, _) => ""
        case SetBinding(_, _, _) => "/{principal_id}/bindings"
        case DeleteBinding(_, _) => "/{principal_id}/bindings/{node_id}"
        case _ => "/{principal_id}";
      assert route.template == "/api/v1" + "/principals" + suffix;
      AdminRoutes("/api/v1", suffix, route.verb);
    }
  }

  /** A live session gets through to a management route exactly if it is that of a global admin, or of an admin of the site in the path. */
  lemma ManagementNeedsAdmin(s: State, bearer: Option<Token>, a: Action, now: real)
    requires Admits(s, bearer, now) && bearer.value.scope == Full
    ensures Guard(s, bearer, RouteOf(a), now).Allowed? <==> MayManage(s.principals[bearer.value.sub], a)
  {
    var p := s.principals[bearer.value.sub];
    ManagementRoutesNeedAdmin(a);
    if Site(a).Some? {
      RaisedIsHighest(p.globalRole, p.bindings, Site(a).value);
    }
  }

  lemma AllowedIsAdminStep(env: Env, s: State, steps: seq<Step>, k: nat)
    requires k < |steps| && steps[k].ManageReq?
    requires Guard(Exec(env, s, steps[..k]), steps[k].bearer, RouteOf(steps[k].action), steps[k].now).Allowed?
    ensures AdminStep(env, s, steps, k)
  {
    ManagementNeedsAdmin(Exec(env, s, steps[..k]), steps[k].bearer, steps[k].action, steps[k].now);
  }

  lemma {:induction false} UnboundStay(bs: seq<Binding>, nodeId: string)
    requires !BoundTo(bs, nodeId)
    ensures BoundElsewhere(bs, nodeId) == bs
  {
    if bs == [] {
    } else {
      var front, last := bs[..|bs| - 1], bs[|bs| - 1];
      assert forall b | b in front :: b in bs;
      UnboundStay(front, nodeId);
      assert last in bs && bs == front + [last];
    }
  }

  lemma ManagedAuthority(s: State, bearer: Option<Token>, a: Action, now: real, id: string)
    requires Authority(ManageStep(s, bearer, a, now).0, id) != Authority(s, id)
    ensures Touches(s, a, id) && Guard(s, bearer, RouteOf(a), now).Allowed?
  {
    if a.DeleteNode? && id in s.principals && !BoundTo(s.principals[id].bindings, a.nodeId) {
      UnboundStay(s.principals[id].bindings, a.nodeId);
    }
  }

  /** One request changes the authority of at most the principals it touches. */
  lemma AuthorityChangeIsManaged(env: Env, s: State, step: Step, id: string)
    requires Authority(Do(env, s, step).0, id) != Authority(s, id)
    ensures step.ManageReq? && Touches(s, step.action, id)
    ensures Guard(s, step.bearer, RouteOf(step.action), step.now).Allowed?
  {
    if step.ManageReq? {
      ManagedAuthority(s.(clock := step.now), step.bearer, step.action, step.now, id);
    }
  }

  lemma TouchingStepStays(env: Env, s: State, steps: seq<Step>, n: nat, k: nat, id: string)
    requires n <= |steps| && TouchingStep(env, s, steps[..n], k, id)
    ensures TouchingStep(env, s, steps, k, id)
  {
    assert steps[..n][..k] == steps[..k];
  }

  /** Over any run, whoever gained, lost or changed authority did so through an admin's accepted request that touches them. */
  lemma {:induction false} AuthorityChangesByAdmin(env: Env, s: State, steps: seq<Step>, id: string)
    requires Authority(Exec(env, s, steps), id) != Authority(s, id)
    ensures exists k: nat :: TouchingStep(env, s, steps, k, id)
  {
    var n := |steps| - 1;
    var before := Exec(env, s, steps[..n]);
    if Authority(before, id) != Authority(s, id) {
      AuthorityChangesByAdmin(env, s, steps[..n], id);
      var k: nat :| TouchingStep(env, s, steps[..n], k, id);
      TouchingStepStays(env, s, steps, n, k, id);
    } else {
      AuthorityChangeIsManaged(env, before, steps[n], id);
      AllowedIsAdminStep(env, s, steps, n);
      assert TouchingStep(env, s, steps, n, id);
    }
  }

  /** No admin's request of the run is about this principal. */
  ghost predicate LeftAlone(env: Env, s: State, steps: seq<Step>, id: string) {
    forall k: nat :: !NamingStep(env, s, steps, k, id)
  }

  /** The request is no accepted management request about this principal. */
  predicate Spares(s: State, step: Step, id: string) {
    step.ManageReq? && Subject(step.action) == Some(id) ==> Guard(s, step.bearer, RouteOf(step.action), step.now).Denied?
  }

  lemma LeftAloneSplits(env: Env, s: State, steps: seq<Step>, id: string)
    requires LeftAlone(env, s, steps, id) && steps != []
    ensures var n := |steps| - 1;
            LeftAlone(env, s, steps[..n], id) && Spares(Exec(env, s, steps[..n]), steps[n], id)
  {
    var n := |steps| - 1;
    forall k: nat
      ensures !NamingStep(env, s, steps[..n], k, id)
    {
      assert k < n ==> steps[..n][..k] == steps[..k];
      assert !NamingStep(env, s, steps, k, id);
    }
    assert !NamingStep(env, s, steps, n, id);
    if !Spares(Exec(env, s, steps[..n]), steps[n], id) {
      AllowedIsAdminStep(env, s, steps, n);
    }
  }

  ghost predicate LockedOut(s: State, id: string) { id in s.principals ==> s.principals[id].disabled }

  lemma ManageSpares(s: State, bearer: Option<Token>, a: Action, now: real, id: string)
    requires Subject(a) == Some(id) ==> Guard(s, bearer, RouteOf(a), now).Denied?
    ensures var t := ManageStep(s, bearer, a, now).0;
            && (id in t.principals <==> id in s.principals)
            && (id in t.principals ==> t.principals[id] == s.principals[id].(bindings := t.principals[id].bindings))
  {
  }

  lemma LockedOutStep(env: Env, s: State, step: Step, id: string)
    requires LockedOut(s, id) && Spares(s, step, id)
    ensures LockedOut(Do(env, s, step).0, id)
  {
    if step.ManageReq? {
      ManageSpares(s.(clock := step.now), step.bearer, step.action, step.now, id);
    }
  }

  lemma NoTokenWhileLockedOut(env: Env, s: State, step: Step, id: string)
    requires LockedOut(s, id)
    ensures forall token: Token | token.sub == id :: token in Do(env, s, step).0.issued <==> token in s.issued
  {
    if step.ManageReq? {
      ManageLeavesLimiter(s.(clock := step.now), step.bearer, step.action, step.now);
    }
  }

  /**
   Whoever is disabled or deleted stays so over any run in which no admin manages them, gets no request
   through however long their tokens still live, and is issued no further token.
   */
  lemma {:induction false} LockedOutUntilAdmin(
    env: Env, s: State, steps: seq<Step>, id: string, bearer: Option<Token>, route: Route, now: real
  )
    requires LockedOut(s, id) && LeftAlone(env, s, steps, id)
    ensures var t := Exec(env, s, steps);
            && LockedOut(t, id) && Guard(t, bearer, route, now) != Allowed(id)
            && forall token: Token | token.sub == id :: token in t.issued <==> token in s.issued
  {
    if steps == [] {
    } else {
      var n := |steps| - 1;
      var before := Exec(env, s, steps[..n]);
      LeftAloneSplits(env, s, steps, id);
      LockedOutUntilAdmin(env, s, steps[..n], id, bearer, route, now);
      LockedOutStep(env, before, steps[n], id);
      NoTokenWhileLockedOut(env, before, steps[n], id);
    }
  }

  function Else<T>(o: Option<T>, fallback: T): T { if o.Some? then o.value else fallback }

  lemma UpdateDecidesLogin(
    env: Env, s: State, id: string, newHash: Option<string>, newRole: Option<Role>, newDisabled: Option<bool>, resetMfa: bool,
    password: string
  )
    requires Indexed(s) && id in s.principals
    ensures var p := s.principals[id];
            var t := Apply(s, UpdatePrincipal(id, newHash, newRole, newDisabled, resetMfa)).0;
            Authenticates(env, t, p.username, password) <==>
            !Else(newDisabled, p.disabled) && env.passwordOk(Else(newHash, p.passwordHash), password)
  {
  }

  lemma RoleSuffices(p: Principal, nodeId: Option<string>, need: Role)
    ensures RoleAtLeast(EffectiveRole(p, nodeId), need) <==>
            RoleAtLeast(p.globalRole, need)
            || (nodeId.Some? && nodeId.value != "" && exists b | b in p.bindings && b.nodeId == nodeId.value :: RoleAtLeast(b.role, need))
  {
    if nodeId.Some? {
      RaisedIsHighest(p.globalRole, p.bindings, nodeId.value);
    }
  }

  /**
   An update holds from the next request on: login takes the new password and no other, a session that was
   already open is judged by the new role and stops when the principal is disabled.
   */
  lemma UpdateTakesEffect(
    env: Env, s: State, id: string, newHash: Option<string>, newRole: Option<Role>, newDisabled: Option<bool>, resetMfa: bool,
    password: string, token: Token, route: Route, now: real
  )
    requires Indexed(s) && id in s.principals
    requires token.sub == id && token.scope == Full && Decodes(s, token, now)
    ensures var p := s.principals[id];
            var t := Apply(s, UpdatePrincipal(id, newHash, newRole, newDisabled, resetMfa)).0;
            var disabled := Else(newDisabled, p.disabled);
            && (Authenticates(env, t, p.username, password)
                <==> !disabled && env.passwordOk(Else(newHash, p.passwordHash), password))
            && (Guard(t, Some(token), route, now) == Denied(401) <==> disabled)
            && (Guard(t, Some(token), route, now) == Allowed(id) <==>
                !disabled && (RoleAtLeast(Else(newRole, p.globalRole), RequiredRole(route.verb, route.template))
                              || (route.nodeId.Some? && route.nodeId.value != ""
                                  && exists b | b in p.bindings && b.nodeId == route.nodeId.value ::
                                       RoleAtLeast(b.role, RequiredRole(route.verb, route.template)))))
  {
    UpdateDecidesLogin(env, s, id, newHash, newRole, newDisabled, resetMfa, password);
    RoleSuffices(Updated(s.principals[id], newHash, newRole, newDisabled, resetMfa), route.nodeId,
               RequiredRole(route.verb, route.template));
  }

  /** A deleted principal's login and sessions end, and the username is free again. */
  lemma DeleteTakesEffect(
    env: Env, s: State, id: string, password: string, bearer: Option<Token>, now: real,
    freshId: string, newHash: string, role: Role
  )
    requires Indexed(s) && id in s.principals && freshId != id
    ensures var t := Apply(s, DeletePrincipal(id)).0;
            var name := s.principals[id].username;
            && LockedOut(t, id) && !Authenticates(env, t, name, password)
            && (forall other | other != id :: Authority(t, other) == Authority(s, other))
            && var (u, r) := Apply(t, CreatePrincipal(freshId, name, newHash, role));
               && r == Done && LockedOut(u, id)
               && (Authenticates(env, u, name, password) <==> env.passwordOk(newHash, password))
               && (bearer.Some? && bearer.value.sub == id ==> !Admits(u, bearer, now))
               && u.principals[freshId].globalRole == role && u.principals[freshId].bindings == []
               && !u.principals[freshId].mfaEnabled
  {
  }

  // ----- the second factor over runs -----

  predicate Enabled(s: State, id: string) { id in s.principals && s.principals[id].mfaEnabled }

  /** Request `k` confirms an enrolment of `id` with a code that matches the secret stored then. */
  ghost predicate ConfirmStep(env: Env, s: State, steps: seq<Step>, k: nat, id: string) {
    && k < |steps| && steps[k].VerifyReq? && steps[k].bearer.Some?
    && steps[k].bearer.value.sub == id && steps[k].bearer.value.scope == Enroll
    && var before := Exec(env, s, steps[..k]);
       id in before.principals && TotpMatches(env, before.principals[id], steps[k].code, steps[k].now)
  }

  lemma ManageNeverEnables(s: State, bearer: Option<Token>, a: Action, now: real, id: string)
    requires !Enabled(s, id)
    ensures !Enabled(ManageStep(s, bearer, a, now).0, id)
  {
  }

  lemma EnabledByCode(env: Env, s: State, step: Step, id: string)
    requires !Enabled(s, id) && Enabled(Do(env, s, step).0, id)
    ensures step.VerifyReq? && step.bearer.Some? && step.bearer.value.sub == id && step.bearer.value.scope == Enroll
    ensures id in s.principals && TotpMatches(env, s.principals[id], step.code, step.now)
  {
    if step.ManageReq? {
      ManageNeverEnables(s.(clock := step.now), step.bearer, step.action, step.now, id);
    }
  }

  /** Over any run a second factor becomes enabled only by a code that matches the stored secret. */
  lemma {:induction false} MfaEnabledByCodeOnly(env: Env, s: State, steps: seq<Step>, id: string)
    requires !Enabled(s, id) && Enabled(Exec(env, s, steps), id)
    ensures exists k: nat :: ConfirmStep(env, s, steps, k, id)
  {
    var n := |steps| - 1;
    var before := Exec(env, s, steps[..n]);
    if Enabled(before, id) {
      MfaEnabledByCodeOnly(env, s, steps[..n], id);
      var k: nat :| ConfirmStep(env, s, steps[..n], k, id);
      assert steps[..n][..k] == steps[..k];
      assert ConfirmStep(env, s, steps, k, id);
    } else {
      EnabledByCode(env, before, steps[n], id);
      assert ConfirmStep(env, s, steps, n, id);
    }
  }

  predicate NoFactor(s: State, id: string) {
    id in s.principals ==> s.principals[id].totpSecret.None? && !s.principals[id].mfaEnabled
  }

  /** Request `k` stores a new secret for `id`. */
  ghost predicate EnrolStep(env: Env, s: State, steps: seq<Step>, k: nat, id: string) {
    && k < |steps| && steps[k].EnrollReq? && steps[k].bearer.Some? && steps[k].bearer.value.sub == id
    && Do(env, Exec(env, s, steps[..k]), steps[k]).1.Enrolled?
  }

  lemma NoFactorStep(env: Env, s: State, step: Step, id: string)
    requires NoFactor(s, id) && Spares(s, step, id)
    requires step.EnrollReq? && step.bearer.Some? && step.bearer.value.sub == id ==> !Do(env, s, step).1.Enrolled?
    ensures NoFactor(Do(env, s, step).0, id)
    ensures forall t: Token | t.sub == id && t in Do(env, s, step).0.issued && t !in s.issued :: t.scope == Enroll
  {
    if step.ManageReq? {
      ManageSpares(s.(clock := step.now), step.bearer, step.action, step.now, id);
      ManageLeavesLimiter(s.(clock := step.now), step.bearer, step.action, step.now);
    }
  }

  /** Until the principal enrols or an admin acts, it stays without a factor and is issued nothing but enroll tokens. */
  lemma {:induction false} NoFactorUntilEnrolment(env: Env, s: State, steps: seq<Step>, id: string)
    requires NoFactor(s, id) && LeftAlone(env, s, steps, id)
    requires forall k: nat :: !EnrolStep(env, s, steps, k, id)
    ensures NoFactor(Exec(env, s, steps), id)
    ensures forall t: Token | t.sub == id && t in Exec(env, s, steps).issued && t !in s.issued :: t.scope == Enroll
  {
    if steps == [] {
    } else {
      var n := |steps| - 1;
      LeftAloneSplits(env, s, steps, id);
      forall k: nat
        ensures !EnrolStep(env, s, steps[..n], k, id)
      {
        assert k < n ==> steps[..n][..k] == steps[..k];
        assert !EnrolStep(env, s, steps, k, id);
      }
      NoFactorUntilEnrolment(env, s, steps[..n], id);
      assert !EnrolStep(env, s, steps, n, id);
      NoFactorStep(env, Exec(env, s, steps[..n]), steps[n], id);
    }
  }

  /** After an MFA reset no run opens a session for the principal until it enrols again, and every login sends it there. */
  lemma ResetForcesEnrolment(
    env: Env, s: State, id: string, newHash: Option<string>, newRole: Option<Role>, newDisabled: Option<bool>, steps: seq<Step>
  )
    requires id in s.principals
    requires var t := Apply(s, UpdatePrincipal(id, newHash, newRole, newDisabled, true)).0;
             LeftAlone(env, t, steps, id) && forall k: nat :: !EnrolStep(env, t, steps, k, id)
    ensures var t := Apply(s, UpdatePrincipal(id, newHash, newRole, newDisabled, true)).0;
            var u := Exec(env, t, steps);
            && NoFactor(u, id)
            && forall token: Token | token.sub == id && token in u.issued && token !in s.issued :: token.scope == Enroll
  {
    NoFactorUntilEnrolment(env, Apply(s, UpdatePrincipal(id, newHash, newRole, newDisabled, true)).0, steps, id);
  }

  /** No enroll token of `id` is still alive. */
  ghost predicate NoneEnrolling(s: State, id: string) {
    forall t: Token | t in s.issued && t.sub == id && t.scope == Enroll :: t.exp as real <= s.clock
  }

  predicate SameFactor(s: State, t: State, id: string) {
    && id in s.principals && id in t.principals
    && t.principals[id].totpSecret == s.principals[id].totpSecret && t.principals[id].mfaEnabled == s.principals[id].mfaEnabled
  }

  /** An action that removes or replaces the principal or resets its factor. */
  predicate ClearsFactor(a: Action, id: string) {
    Subject(a) == Some(id) && (a.CreatePrincipal? || a.DeletePrincipal? || (a.UpdatePrincipal? && a.resetMfa))
  }

  ghost predicate ClearingStep(env: Env, s: State, steps: seq<Step>, k: nat, id: string) {
    AdminStep(env, s, steps, k) && ClearsFactor(steps[k].action, id)
  }

  lemma FactorManaged(s: State, bearer: Option<Token>, a: Action, now: real, id: string)
    requires Enabled(s, id) && (ClearsFactor(a, id) ==> Guard(s, bearer, RouteOf(a), now).Denied?)
    ensures SameFactor(s, ManageStep(s, bearer, a, now).0, id)
  {
  }

  lemma FactorStep(env: Env, s: State, step: Step, id: string)
    requires Enabled(s, id) && NoneEnrolling(s, id) && s.clock <= step.now
    requires step.ManageReq? && ClearsFactor(step.action, id) ==> Guard(s, step.bearer, RouteOf(step.action), step.now).Denied?
    ensures SameFactor(s, Do(env, s, step).0, id) && NoneEnrolling(Do(env, s, step).0, id)
  {
    match step
    case ManageReq(bearer, action, now) =>
      FactorManaged(s.(clock := now), bearer, action, now, id);
      ManageLeavesLimiter(s.(clock := now), bearer, action, now);
    case LoginReq(_, _, _, _) =>
    case EnrollReq(_, _, _) =>
    case VerifyReq(_, _, _, _) =>
  }

  /** No admin's request of the run clears the factor. */
  ghost predicate NeverCleared(env: Env, s: State, steps: seq<Step>, id: string) {
    forall k: nat :: !ClearingStep(env, s, steps, k, id)
  }

  lemma NeverClearedSplits(env: Env, s: State, steps: seq<Step>, id: string)
    requires NeverCleared(env, s, steps, id) && steps != []
    ensures var n := |steps| - 1;
            var before, last := Exec(env, s, steps[..n]), steps[n];
            && NeverCleared(env, s, steps[..n], id)
            && (last.ManageReq? && ClearsFactor(last.action, id) ==>
                  Guard(before, last.bearer, RouteOf(last.action), last.now).Denied?)
  {
    var n := |steps| - 1;
    forall k: nat
      ensures !ClearingStep(env, s, steps[..n], k, id)
    {
      assert k < n ==> steps[..n][..k] == steps[..k];
      assert !ClearingStep(env, s, steps, k, id);
    }
    assert !ClearingStep(env, s, steps, n, id);
    if steps[n].ManageReq? && Guard(Exec(env, s, steps[..n]), steps[n].bearer, RouteOf(steps[n].action), steps[n].now).Allowed? {
      AllowedIsAdminStep(env, s, steps, n);
    }
  }

  lemma StepClock(env: Env, s: State, step: Step)
    ensures Do(env, s, step).0.clock == step.now
  {
    var op := StepLimiterOp(env, s, step);
  }

  /** An enabled second factor stays what it is over any run in which no admin clears it, if no enroll token is alive at the start. */
  lemma {:induction false} SecondFactorKept(env: Env, s: State, steps: seq<Step>, end: real, id: string)
    requires Enabled(s, id) && NoneEnrolling(s, id) && OnTime(s, steps, end) && NeverCleared(env, s, steps, id)
    ensures SameFactor(s, Exec(env, s, steps), id) && NoneEnrolling(Exec(env, s, steps), id)
    ensures Exec(env, s, steps).clock <= end
  {
    if steps == [] {
    } else {
      var n := |steps| - 1;
      var before := Exec(env, s, steps[..n]);
      NeverClearedSplits(env, s, steps, id);
      SecondFactorKept(env, s, steps[..n], steps[n].now, id);
      FactorStep(env, before, steps[n], id);
      StepClock(env, before, steps[n]);
    }
  }

  /** Without an admin an enabled factor can be replaced by the next request exactly while an enroll token of the enabled principal lives. */
  lemma SecondFactorReplaceableIff(env: Env, s: State, id: string)
    requires Enabled(s, id)
    ensures (exists step: Step :: !step.ManageReq? && s.clock <= step.now && !SameFactor(s, Do(env, s, step).0, id))
       <==> !NoneEnrolling(s, id) && !s.principals[id].disabled
  {
    if !NoneEnrolling(s, id) && !s.principals[id].disabled {
      var t: Token :| t in s.issued && t.sub == id && t.scope == Enroll && t.exp as real > s.clock;
      assert !SameFactor(s, Do(env, s, EnrollReq(Some(t), "", s.clock)).0, id);
    }
    if NoneEnrolling(s, id) {
      forall step: Step | !step.ManageReq? && s.clock <= step.now
        ensures SameFactor(s, Do(env, s, step).0, id)
      {
        FactorStep(env, s, step, id);
      }
    }
  }

  // ----- the principal table -----

  predicate OneBindingPerSite(bs: seq<Binding>) {
    forall i, j | 0 <= i < j < |bs| :: bs[i].nodeId != bs[j].nodeId
  }

  function Higher(a: Role, b: Role): Role { if Rank(b) > Rank(a) then b else a }

  lemma TailDistinct(bs: seq<Binding>)
    requires OneBindingPerSite(bs) && bs != []
    ensures OneBindingPerSite(bs[1..]) && forall b | b in bs[1..] :: b.nodeId != bs[0].nodeId
    ensures forall b :: b in bs <==> b == bs[0] || b in bs[1..]
  {
    assert bs == [bs[0]] + bs[1..];
    assert forall i | 0 <= i < |bs[1..]| :: bs[1..][i] == bs[i + 1];
  }

  lemma ConsDistinct(b: Binding, rest: seq<Binding>)
    requires OneBindingPerSite(rest) && forall c | c in rest :: c.nodeId != b.nodeId
    ensures OneBindingPerSite([b] + rest)
  {
    assert forall i | 0 <= i < |rest| :: rest[i] in rest;
  }

  lemma {:induction false} BoundMembers(bs: seq<Binding>, nodeId: string, role: Role)
    requires OneBindingPerSite(bs)
    ensures OneBindingPerSite(Bound(bs, nodeId, role))
    ensures forall b :: b in Bound(bs, nodeId, role) <==> b == Binding(nodeId, role) || (b in bs && b.nodeId != nodeId)
  {
    if bs == [] {
    } else {
      TailDistinct(bs);
      if bs[0].nodeId != nodeId {
        BoundMembers(bs[1..], nodeId, role);
        ConsDistinct(bs[0], Bound(bs[1..], nodeId, role));
      } else {
        ConsDistinct(Binding(nodeId, role), bs[1..]);
      }
    }
  }

  lemma {:induction false} UnboundMembers(bs: seq<Binding>, nodeId: string)
    requires OneBindingPerSite(bs)
    ensures OneBindingPerSite(Unbound(bs, nodeId))
    ensures forall b :: b in Unbound(bs, nodeId) <==> b in bs && b.nodeId != nodeId
  {
    if bs == [] {
    } else {
      TailDistinct(bs);
      if bs[0].nodeId != nodeId {
        UnboundMembers(bs[1..], nodeId);
        ConsDistinct(bs[0], Unbound(bs[1..], nodeId));
      }
    }
  }

  /** Only the bindings of one site count towards the role on it. */
  lemma RaisedByMembers(role: Role, bs: seq<Binding>, cs: seq<Binding>, nodeId: string)
    requires forall b: Binding | b.nodeId == nodeId :: b in bs <==> b in cs
    ensures Raised(role, bs, nodeId) == Raised(role, cs, nodeId)
  {
    RaisedIsHighest(role, bs, nodeId);
    RaisedIsHighest(role, cs, nodeId);
    var a, b := Raised(role, bs, nodeId), Raised(role, cs, nodeId);
    assert a != role ==> Binding(nodeId, a) in cs;
    assert b != role ==> Binding(nodeId, b) in bs;
  }

  /** Setting a binding makes the role on that site the higher of it and the global role; removing it leaves the global one. */
  lemma BindingDecidesSiteRole(p: Principal, nodeId: string, role: Role, site: string)
    requires OneBindingPerSite(p.bindings) && nodeId != "" && site != ""
    ensures EffectiveRole(p.(bindings := Bound(p.bindings, nodeId, role)), Some(site))
         == if site == nodeId then Higher(p.globalRole, role) else EffectiveRole(p, Some(site))
    ensures EffectiveRole(p.(bindings := Unbound(p.bindings, nodeId)), Some(site))
         == if site == nodeId then p.globalRole else EffectiveRole(p, Some(site))
  {
    var bound, unbound := Bound(p.bindings, nodeId, role), Unbound(p.bindings, nodeId);
    BoundMembers(p.bindings, nodeId, role);
    UnboundMembers(p.bindings, nodeId);
    if site == nodeId {
      RaisedByMembers(p.globalRole, bound, [Binding(nodeId, role)], nodeId);
      RaisedByMembers(p.globalRole, unbound, [], nodeId);
      assert [Binding(nodeId, role)][..0] == [];
    } else {
      RaisedByMembers(p.globalRole, bound, p.bindings, site);
      RaisedByMembers(p.globalRole, unbound, p.bindings, site);
    }
  }

  /** The username index and the principal table agree; bindings are unique per site and refer to registered nodes; node names are unique. */
  predicate Indexed(s: State) {
    && (forall n | n in s.names :: s.names[n] in s.principals && s.principals[s.names[n]].username == n)
    && (forall id | id in s.principals :: s.principals[id].username in s.names && s.names[s.principals[id].username] == id)
    && (forall id | id in s.principals :: BindingsOk(s.principals[id].bindings, s.nodes.Keys))
    && forall m, n | m in s.nodes && n in s.nodes && s.nodes[m] == s.nodes[n] :: m == n
  }

  predicate BindingsOk(bs: seq<Binding>, nodes: set<string>) {
    OneBindingPerSite(bs) && forall b | b in bs :: b.nodeId in nodes
  }

  lemma {:induction false} ElsewhereMembers(bs: seq<Binding>, nodeId: string)
    requires OneBindingPerSite(bs)
    ensures OneBindingPerSite(BoundElsewhere(bs, nodeId))
    ensures forall b :: b in BoundElsewhere(bs, nodeId) <==> b in bs && b.nodeId != nodeId
  {
    if bs == [] {
    } else {
      var front, last := bs[..|bs| - 1], bs[|bs| - 1];
      ElsewhereMembers(front, nodeId);
      assert bs == front + [last];
      var rest := BoundElsewhere(front, nodeId);
      forall i | 0 <= i < |rest|
        ensures rest[i].nodeId != last.nodeId
      {
        assert rest[i] in rest && rest[i] in front;
      }
    }
  }

  lemma DeleteNodeKeepsIndex(s: State, nodeId: string)
    requires Indexed(s) && nodeId in s.nodes
    ensures Indexed(Apply(s, DeleteNode(nodeId)).0)
  {
    forall id | id in s.principals
      ensures BindingsOk(BoundElsewhere(s.principals[id].bindings, nodeId), (s.nodes - {nodeId}).Keys)
    {
      ElsewhereMembers(s.principals[id].bindings, nodeId);
    }
  }

  /** Replacing a row by one of the same username keeps the index. */
  lemma ReplaceKeepsIndex(s: State, id: string, p: Principal)
    requires Indexed(s) && id in s.principals
    requires p.username == s.principals[id].username && BindingsOk(p.bindings, s.nodes.Keys)
    ensures Indexed(s.(principals := s.principals[id := p]))
  {
  }

  lemma CreateKeepsIndex(s: State, a: Action)
    requires Indexed(s) && a.CreatePrincipal? && a.id !in s.principals
    ensures Indexed(Apply(s, a).0)
  {
  }

  lemma DeleteKeepsIndex(s: State, id: string)
    requires Indexed(s)
    ensures Indexed(Apply(s, DeletePrincipal(id)).0)
  {
  }

  lemma NameKeepsIndex(s: State, nodeId: string, name: string)
    requires Indexed(s) && (name !in s.nodes.Values || (nodeId in s.nodes && s.nodes[nodeId] == name))
    ensures Indexed(s.(nodes := s.nodes[nodeId := name]))
  {
  }

  lemma ApplyKeepsIndex(s: State, a: Action)
    requires Indexed(s) && (a.CreatePrincipal? ==> a.id !in s.principals)
    ensures Indexed(Apply(s, a).0)
  {
    match a
    case CreatePrincipal(_, _, _, _) => CreateKeepsIndex(s, a);
    case DeletePrincipal(id) => DeleteKeepsIndex(s, id);
    case UpdatePrincipal(id, newHash, newRole, newDisabled, resetMfa) =>
      if id in s.principals {
        ReplaceKeepsIndex(s, id, Updated(s.principals[id], newHash, newRole, newDisabled, resetMfa));
      }
    case SetBinding(id, nodeId, role) =>
      if Apply(s, a).1 == Done {
        var p := s.principals[id];
        BoundMembers(p.bindings, nodeId, role);
        ReplaceKeepsIndex(s, id, p.(bindings := Bound(p.bindings, nodeId, role)));
      }
    case DeleteBinding(id, nodeId) =>
      if id in s.principals {
        var p := s.principals[id];
        UnboundMembers(p.bindings, nodeId);
        ReplaceKeepsIndex(s, id, p.(bindings := Unbound(p.bindings, nodeId)));
      }
    case CreateNode(nodeId, name) =>
      if Apply(s, a).1 == Done {
        NameKeepsIndex(s, nodeId, name);
      }
    case RenameNode(nodeId, name) =>
      if Apply(s, a).1 == Done {
        NameKeepsIndex(s, nodeId, name);
      }
    case DeleteNode(nodeId) =>
      if nodeId in s.nodes {
        DeleteNodeKeepsIndex(s, nodeId);
      }
  }

  /** Logins and second factors change nobody's username or bindings. */
  ghost predicate SameShape(s: State, t: State) {
    && t.names == s.names && t.nodes == s.nodes && t.principals.Keys == s.principals.Keys
    && forall id | id in s.principals ::
         t.principals[id].username == s.principals[id].username && t.principals[id].bindings == s.principals[id].bindings
  }

  lemma LoginKeepsShape(env: Env, s: State, username: string, password: string, ip: string, now: real)
    ensures SameShape(s, LoginStep(env, s, username, password, ip, now).0)
  {
  }

  lemma EnrollKeepsShape(s: State, bearer: Option<Token>, secret: string, now: real)
    ensures SameShape(s, EnrollStep(s, bearer, secret, now).0)
  {
  }

  lemma VerifyKeepsShape(env: Env, s: State, bearer: Option<Token>, code: string, ip: string, now: real)
    ensures SameShape(s, VerifyStep(env, s, bearer, code, ip, now).0)
  {
  }

  lemma OtherStepsKeepShape(env: Env, s: State, step: Step)
    requires !step.ManageReq?
    ensures SameShape(s, Do(env, s, step).0)
  {
    match step
    case LoginReq(username, password, ip, now) => LoginKeepsShape(env, s.(clock := now), username, password, ip, now);
    case EnrollReq(bearer, secret, now) => EnrollKeepsShape(s.(clock := now), bearer, secret, now);
    case VerifyReq(bearer, code, ip, now) => VerifyKeepsShape(env, s.(clock := now), bearer, code, ip, now);
  }

  lemma SameShapeKeepsIndex(s: State, t: State)
    requires Indexed(s) && SameShape(s, t)
    ensures Indexed(t)
  {
  }

  lemma StepKeepsIndex(env: Env, s: State, step: Step)
    requires Indexed(s) && (step.ManageReq? && step.action.CreatePrincipal? ==> step.action.id !in s.principals)
    ensures Indexed(Do(env, s, step).0)
  {
    if step.ManageReq? {
      ApplyKeepsIndex(s.(clock := step.now), step.action);
    } else {
      OtherStepsKeepShape(env, s, step);
      SameShapeKeepsIndex(s, Do(env, s, step).0);
    }
  }

  /** New principals get ids that are not in use, as random UUIDs are. */
  ghost predicate FreshIds(env: Env, s: State, steps: seq<Step>) {
    forall k: nat | k < |steps| && steps[k].ManageReq? && steps[k].action.CreatePrincipal? ::
      steps[k].action.id !in Exec(env, s, steps[..k]).principals
  }

  lemma FreshIdsSplit(env: Env, s: State, steps: seq<Step>, n: nat)
    requires FreshIds(env, s, steps) && |steps| == n + 1
    ensures FreshIds(env, s, steps[..n])
    ensures steps[n].ManageReq? && steps[n].action.CreatePrincipal? ==> steps[n].action.id !in Exec(env, s, steps[..n]).principals
  {
    forall k: nat | k < n && steps[..n][k].ManageReq? && steps[..n][k].action.CreatePrincipal?
      ensures steps[..n][k].action.id !in Exec(env, s, steps[..n][..k]).principals
    {
      assert steps[..n][..k] == steps[..k] && steps[..n][k] == steps[k];
    }
  }

  /** In every run usernames and node names stay unique, bindings stay unique per site, and they refer to registered nodes. */
  lemma {:induction false} RunKeepsIndex(env: Env, s: State, steps: seq<Step>)
    requires Indexed(s) && FreshIds(env, s, steps)
    ensures Indexed(Exec(env, s, steps))
  {
    if steps == [] {
    } else {
      var n := |steps| - 1;
      FreshIdsSplit(env, s, steps, n);
      RunKeepsIndex(env, s, steps[..n]);
      StepKeepsIndex(env, Exec(env, s, steps[..n]), steps[n]);
    }
  }

  // ----- when two limiter keys are one -----

  /** Two keys coincide exactly if one address carries the end of the other identifier across the colon. */
  lemma KeysCoincideIff(a: string, i: string, b: string, j: string)
    requires |i| <= |j|
    ensures LimiterKey(a, i) == LimiterKey(b, j)
       <==> (a == b && i == j) || exists c: string :: a == b + ":" + c && j == c + ":" + i
  {
    var key := LimiterKey(a, i);
    assert key[..|a|] == a && key[|a|] == ':' && key[|a| + 1..] == i;
    assert LimiterKey(b, j)[..|b|] == b && LimiterKey(b, j)[|b| + 1..] == j;
    if key == LimiterKey(b, j) && |i| < |j| {
      var d := |j| - |i| - 1;
      assert j[d..] == key[|b| + 1 + d..] == ":" + i;
      assert a == b + ":" + j[..d] && j == j[..d] + ":" + i;
    }
    forall c: string | a == b + ":" + c && j == c + ":" + i
      ensures key == LimiterKey(b, j)
    {
      assert (b + ":" + c) + ":" + i == b + ":" + (c + ":" + i);
    }
  }

  /** From one address without a colon, identifiers decide: a login as `mfa:u` and the second factor of `u` share a key. */
  lemma KeysAtOneAddress(a: string, b: string, i: string, j: string)
    requires ':' !in i && ':' !in j
    ensures LimiterKey(a, i) == LimiterKey(b, j) <==> a == b && i == j
  {
    if |i| <= |j| {
      KeysCoincideIff(a, i, b, j);
      assert forall c: string :: ':' in c + ":" + i;
    } else {
      KeysCoincideIff(b, j, a, i);
      assert forall c: string :: ':' in c + ":" + j;
    }
  }
}
