/** Principals, roles and the decision which role a guarded route asks for. */
module Identity {
  import opened Wrappers

  datatype Role = Viewer | Operator | Admin

  function Rank(r: Role): nat {
    match r
    case Viewer => 1
    case Operator => 2
    case Admin => 3
  }

  predicate RoleAtLeast(have: Role, need: Role) { Rank(have) >= Rank(need) }

  datatype Binding = Binding(nodeId: string, role: Role)

  datatype Principal = Principal(
    username: string, passwordHash: string, globalRole: Role, disabled: bool,
    totpSecret: Option<string>, mfaEnabled: bool, bindings: seq<Binding>)

  /** The role after raising `role` by every binding for the node in turn. */
  function Raised(role: Role, bindings: seq<Binding>, nodeId: string): Role {
    if bindings == [] then role
    else
      var raised := Raised(role, bindings[..|bindings| - 1], nodeId);
      var b := bindings[|bindings| - 1];
      if b.nodeId == nodeId && Rank(b.role) > Rank(raised) then b.role else raised
  }

  /** An absent and an empty node id both mean no particular site. */
  function EffectiveRole(p: Principal, nodeId: Option<string>): Role {
    if nodeId.Some? && nodeId.value != "" then Raised(p.globalRole, p.bindings, nodeId.value) else p.globalRole
  }

  method ComputeEffectiveRole(p: Principal, nodeId: Option<string>) returns (role: Role)
    ensures role == EffectiveRole(p, nodeId)
  {
    role := p.globalRole;
    if nodeId.Some? && nodeId.value != "" {
      for i := 0 to |p.bindings|
        invariant role == Raised(p.globalRole, p.bindings[..i], nodeId.value)
      {
        var b := p.bindings[i];
        assert p.bindings[..i + 1][..i] == p.bindings[..i];
        if b.nodeId == nodeId.value && Rank(b.role) > Rank(role) {
          role := b.role;
        }
      }
      assert p.bindings[..|p.bindings|] == p.bindings;
    }
  }

  /** The effective role is the highest of the global role and the site's bindings, and no more. */
  lemma {:induction false} RaisedIsHighest(role: Role, bindings: seq<Binding>, nodeId: string)
    ensures RoleAtLeast(Raised(role, bindings, nodeId), role)
    ensures forall b | b in bindings && b.nodeId == nodeId :: RoleAtLeast(Raised(role, bindings, nodeId), b.role)
    ensures Raised(role, bindings, nodeId) == role || Binding(nodeId, Raised(role, bindings, nodeId)) in bindings
  {
    if bindings == [] {
    } else {
      var front, last := bindings[..|bindings| - 1], bindings[|bindings| - 1];
      RaisedIsHighest(role, front, nodeId);
      assert bindings == front + [last];
    }
  }

  // ----- which role a route needs -----

  predicate FoundAt(s: string, part: string, i: int) {
    0 <= i <= |s| - |part| && s[i..i + |part|] == part
  }

  predicate Contains(s: string, part: string) {
    exists i | 0 <= i <= |s| :: FoundAt(s, part, i)
  }

  predicate EndsWith(s: string, tail: string) {
    |tail| <= |s| && s[|s| - |tail|..] == tail
  }

  predicate IsAdminRoute(verb: string, template: string) {
    || Contains(template, "/principals")
    || (verb == "POST" && EndsWith(template, "/nodes"))
    || ((verb == "PATCH" || verb == "DELETE") && EndsWith(template, "/nodes/{node_id}"))
  }

  function RequiredRole(verb: string, template: string): Role {
    if IsAdminRoute(verb, template) then Admin
    else if verb == "GET" then Viewer
    else Operator
  }

  /** The routes for admins: those with the principals in their path, and the registry's create, edit and delete. */
  lemma AdminRoutesIff(verb: string, template: string)
    ensures IsAdminRoute(verb, template) <==>
            || (exists a: string, b: string :: template == a + "/principals" + b)
            || (verb == "POST" && exists a: string :: template == a + "/nodes")
            || ((verb == "PATCH" || verb == "DELETE") && exists a: string :: template == a + "/nodes/{node_id}")
  {
    ContainsIff(template, "/principals");
    EndsWithIff(template, "/nodes");
    EndsWithIff(template, "/nodes/{node_id}");
  }

  lemma ContainsIff(s: string, part: string)
    ensures Contains(s, part) <==> exists a: string, b: string :: s == a + part + b
  {
    if Contains(s, part) {
      var i :| 0 <= i <= |s| && FoundAt(s, part, i);
      assert s == s[..i] + part + s[i + |part|..];
    }
    forall a: string, b: string | s == a + part + b
      ensures Contains(s, part)
    {
      assert FoundAt(s, part, |a|);
    }
  }

  lemma EndsWithIff(s: string, tail: string)
    ensures EndsWith(s, tail) <==> exists a: string :: s == a + tail
  {
    if EndsWith(s, tail) {
      assert s == s[..|s| - |tail|] + tail;
    }
    forall a: string | s == a + tail
      ensures EndsWith(s, tail)
    {
      assert s[|s| - |tail|..] == tail;
    }
  }

  /** Whatever surrounds it, a principal route is for admins; so is the registry's own lifecycle; reads never need more than viewer. */
  lemma AdminRoutes(prefix: string, suffix: string, verb: string)
    ensures RequiredRole(verb, prefix + "/principals" + suffix) == Admin
    ensures RequiredRole("POST", prefix + "/nodes") == Admin
    ensures RequiredRole("PATCH", prefix + "/nodes/{node_id}") == Admin
    ensures RequiredRole("DELETE", prefix + "/nodes/{node_id}") == Admin
    ensures forall t | !Contains(t, "/principals") :: RequiredRole("GET", t) == Viewer
    ensures forall m, t | m != "GET" :: RoleAtLeast(RequiredRole(m, t), Operator)
  {
    var t := prefix + "/principals" + suffix;
    assert FoundAt(t, "/principals", |prefix|);
    var a, b := prefix + "/nodes", prefix + "/nodes/{node_id}";
    assert a[|a| - |"/nodes"|..] == "/nodes";
    assert b[|b| - |"/nodes/{node_id}"|..] == "/nodes/{node_id}";
  }
}
