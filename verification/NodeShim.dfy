/**
 A node as its shim exposes it: users, live sessions and organisations, the mutations on
 them, and what these keep over any sequence of calls.
 */
module NodeShim {
  import opened Wrappers

  datatype User = User(id: string, name: string, orgId: string, disabled: bool, revoked: bool, hasProfile: bool)

  /** A VPN session of a user. */
  datatype Link = Link(userId: string, serverId: string)

  datatype NodeState = NodeState(orgs: set<string>, users: seq<User>, links: seq<Link>)

  datatype Op =
    | Create(orgId: string, name: string)
    | SetDisabled(id: string, disabled: bool)
    | Delete(id: string)
    | IssueProfile(id: string)
    | Revoke(id: string)

  /** A success carries the id of the user it returns, if it returns one. */
  datatype NodeReply = Good(id: Option<string>) | Bad(code: nat, text: string)

  /** The position of the first user with this id. */
  function Find(users: seq<User>, id: string): (r: Option<nat>)
    ensures r.Some? ==> r.value < |users| && users[r.value].id == id
    ensures r.None? ==> forall u | u in users :: u.id != id
  {
    if users == [] then None
    else if users[0].id == id then Some(0)
    else
      match Find(users[1..], id)
      case None => None
      case Some(k) => Some(k + 1)
  }

  /** The links of everyone but one user. */
  function WithoutUser(links: seq<Link>, id: string): (r: seq<Link>)
    ensures forall l :: l in r <==> l in links && l.userId != id
  {
    if links == [] then []
    else
      var rest := WithoutUser(links[1..], id);
      if links[0].userId == id then rest else [links[0]] + rest
  }

  /** One call; a created user gets `freshId`. */
  function Apply(n: NodeState, op: Op, freshId: string): (NodeState, NodeReply) {
    match op
    case Create(orgId, name) =>
      if orgId !in n.orgs then (n, Bad(404, "org not found"))
      else if name == "" then (n, Bad(400, "name required"))
      else (n.(users := n.users + [User(freshId, name, orgId, false, false, false)]), Good(Some(freshId)))
    case SetDisabled(id, disabled) =>
      var at := Find(n.users, id);
      if at.None? then (n, Bad(404, "user not found"))
      else (n.(users := n.users[at.value := n.users[at.value].(disabled := disabled)]), Good(Some(id)))
    case Delete(id) =>
      var at := Find(n.users, id);
      if at.None? then (n, Bad(404, "user not found"))
      else (n.(users := n.users[..at.value] + n.users[at.value + 1..], links := WithoutUser(n.links, id)), Good(None))
    case IssueProfile(id) =>
      var at := Find(n.users, id);
      if at.None? then (n, Bad(404, "user not found"))
      else if n.users[at.value].revoked then (n, Bad(409, "user is revoked"))
      else (n.(users := n.users[at.value := n.users[at.value].(hasProfile := true)]), Good(None))
    case Revoke(id) =>
      var at := Find(n.users, id);
      if at.None? then (n, Bad(404, "user not found"))
      else (n.(users := n.users[at.value := n.users[at.value].(revoked := true, hasProfile := false)],
               links := WithoutUser(n.links, id)), Good(Some(id)))
  }

  function LiveIds(users: seq<User>): set<string> { set u | u in users && !u.disabled && !u.revoked :: u.id }

  /** The sessions a node reports: those of users neither disabled nor revoked. */
  function LiveLinks(n: NodeState): (r: seq<Link>)
    ensures forall l :: l in r <==> l in n.links && exists u :: u in n.users && u.id == l.userId && !u.disabled && !u.revoked
  {
    FilterLinks(n.links, LiveIds(n.users))
  }

  function FilterLinks(links: seq<Link>, ids: set<string>): (r: seq<Link>)
    ensures forall l :: l in r <==> l in links && l.userId in ids
  {
    if links == [] then []
    else
      var rest := FilterLinks(links[1..], ids);
      if links[0].userId in ids then [links[0]] + rest else rest
  }

  function Ids(users: seq<User>): set<string> { set u | u in users :: u.id }

  ghost predicate DistinctIds(users: seq<User>) {
    forall i, j | 0 <= i < j < |users| :: users[i].id != users[j].id
  }

  /** A create removes no user; a successful call changes the user list as it says. */
  ghost predicate Follows(n: NodeState, op: Op, freshId: string, n': NodeState, r: NodeReply) {
    && (op.Create? ==> Ids(n.users) <= Ids(n'.users))
    && (r.Good? ==>
          match op
          case Create(orgId, name) =>
            r.id == Some(freshId) && n'.users == n.users + [User(freshId, name, orgId, false, false, false)]
          case Delete(id) => DistinctIds(n.users) ==> Ids(n'.users) == Ids(n.users) - {id}
          case _ => Ids(n'.users) == Ids(n.users))
  }

  /** What a caller may rely on of a node. */
  ghost predicate Contract(node: (NodeState, Op, string) -> (NodeState, NodeReply)) {
    forall n, op, freshId :: Follows(n, op, freshId, node(n, op, freshId).0, node(n, op, freshId).1)
  }

  type Behaviour = f: (NodeState, Op, string) -> (NodeState, NodeReply) | Contract(f)
    ghost witness (ApplyMeetsContract(); Apply)

  class MockNode {
    var state: NodeState

    constructor (seeded: NodeState)
      ensures state == seeded
    {
      state := seeded;
    }

    method Lookup(id: string) returns (at: Option<nat>)
      ensures at == Find(state.users, id)
    {
      for i := 0 to |state.users|
        invariant Find(state.users, id) == match Find(state.users[i..], id) case None => None case Some(k) => Some(k + i)
      {
        if state.users[i].id == id {
          return Some(i);
        }
      }
      return None;
    }

    method Call(op: Op, freshId: string) returns (r: NodeReply)
      modifies this
      ensures (state, r) == Apply(old(state), op, freshId)
    {
      if op.Create? {
        if op.orgId !in state.orgs {
          return Bad(404, "org not found");
        }
        if op.name == "" {
          return Bad(400, "name required");
        }
        state := state.(users := state.users + [User(freshId, op.name, op.orgId, false, false, false)]);
        return Good(Some(freshId));
      }
      var at := Lookup(op.id);
      if at.None? {
        return Bad(404, "user not found");
      }
      var i := at.value;
      var user := state.users[i];
      match op {
        case SetDisabled(id, disabled) =>
          state := state.(users := state.users[i := user.(disabled := disabled)]);
          return Good(Some(id));
        case Delete(id) =>
          state := state.(users := state.users[..i] + state.users[i + 1..]);
          state := state.(links := WithoutUser(state.links, id));
          return Good(None);
        case IssueProfile(_) =>
          if user.revoked {
            return Bad(409, "user is revoked");
          }
          state := state.(users := state.users[i := user.(hasProfile := true)]);
          return Good(None);
        case Revoke(id) =>
          state := state.(users := state.users[i := user.(revoked := true, hasProfile := false)]);
          state := state.(links := WithoutUser(state.links, id));
          return Good(Some(id));
        case Create(_, _) =>
          assert false;
      }
    }
  }

  // ----- what calls keep -----

  lemma SameIdsAfterSet(users: seq<User>, k: nat, u: User)
    requires k < |users| && u.id == users[k].id
    ensures Ids(users[k := u]) == Ids(users)
  {
    var after := users[k := u];
    forall id
      ensures id in Ids(after) <==> id in Ids(users)
    {
      if id in Ids(after) {
        var i :| 0 <= i < |after| && after[i].id == id;
        assert users[i] in users && users[i].id == id;
      }
      if id in Ids(users) {
        var i :| 0 <= i < |users| && users[i].id == id;
        assert after[i] in after && after[i].id == id;
      }
    }
  }

  lemma IdsAfterDelete(users: seq<User>, k: nat)
    requires k < |users| && DistinctIds(users)
    ensures Ids(users[..k] + users[k + 1..]) == Ids(users) - {users[k].id}
  {
  }

  lemma ApplyFollows(n: NodeState, op: Op, freshId: string)
    ensures Follows(n, op, freshId, Apply(n, op, freshId).0, Apply(n, op, freshId).1)
  {
    if Apply(n, op, freshId).1.Good? && !op.Create? {
      var k := Find(n.users, op.id).value;
      if !op.Delete? {
        SameIdsAfterSet(n.users, k, Apply(n, op, freshId).0.users[k]);
      } else if DistinctIds(n.users) {
        IdsAfterDelete(n.users, k);
      }
    }
  }

  /** The modelled node keeps the contract. */
  lemma ApplyMeetsContract()
    ensures Contract(Apply)
  {
    forall n: NodeState, op: Op, freshId: string
      ensures Follows(n, op, freshId, Apply(n, op, freshId).0, Apply(n, op, freshId).1)
    {
      ApplyFollows(n, op, freshId);
    }
  }

  // ----- what the endpoints answer -----

  /** When a call is refused, with what, and that a refusal changes nothing. */
  lemma RefusesIff(n: NodeState, op: Op, freshId: string)
    ensures var (n', r) := Apply(n, op, freshId);
            && (r.Bad? ==> n' == n)
            && (r == Bad(404, "org not found") <==> op.Create? && op.orgId !in n.orgs)
            && (r == Bad(400, "name required") <==> op.Create? && op.orgId in n.orgs && op.name == "")
            && (r == Bad(404, "user not found") <==> !op.Create? && forall u | u in n.users :: u.id != op.id)
            && (r == Bad(409, "user is revoked") <==>
                op.IssueProfile? && exists i :: 0 <= i < |n.users| && IsFirst(n.users, i, op.id) && n.users[i].revoked)
            && (r.Bad? ==> r.code == 404 || r.code == 400 || r.code == 409)
  {
    assert "org not found"[0] != "user not found"[0];
    if !op.Create? && Find(n.users, op.id).Some? {
      FindsFirst(n.users, op.id);
    }
  }

  predicate IsFirst(users: seq<User>, i: nat, id: string)
    requires i < |users|
  {
    users[i].id == id && forall j | 0 <= j < i :: users[j].id != id
  }

  lemma {:induction false} FindsFirst(users: seq<User>, id: string)
    requires Find(users, id).Some?
    ensures IsFirst(users, Find(users, id).value, id)
  {
    if users[0].id == id {
    } else {
      FindsFirst(users[1..], id);
      var k := Find(users[1..], id).value;
      assert forall j | 1 <= j < k + 1 :: users[j] == users[1..][j - 1];
    }
  }

  /** What a call that succeeds does: a new user last, or one field of the user with the id changed, or the user gone. */
  lemma Serves(n: NodeState, op: Op, freshId: string, i: nat)
    requires Apply(n, op, freshId).1.Good? && (!op.Create? ==> i < |n.users| && IsFirst(n.users, i, op.id))
    ensures var (n', r) := Apply(n, op, freshId);
            n'.orgs == n.orgs &&
            match op
            case Create(orgId, name) =>
              r.id == Some(freshId) && n'.links == n.links && n'.users == n.users + [User(freshId, name, orgId, false, false, false)]
            case SetDisabled(id, disabled) =>
              r.id == Some(id) && n'.links == n.links && n'.users == n.users[i := n.users[i].(disabled := disabled)]
            case IssueProfile(_) => r.id == None && n'.links == n.links && n'.users == n.users[i := n.users[i].(hasProfile := true)]
            case Revoke(id) => r.id == Some(id) && n'.users == n.users[i := n.users[i].(revoked := true, hasProfile := false)]
            case Delete(_) => r.id == None && n'.users == n.users[..i] + n.users[i + 1..]
  {
    if !op.Create? {
      FindsFirst(n.users, op.id);
      var k := Find(n.users, op.id).value;
      assert k == i;
    }
  }

  /** Ids are unique; a revoked user holds no profile and has no session. */
  ghost predicate NodeInv(n: NodeState) {
    && DistinctIds(n.users)
    && (forall u | u in n.users && u.revoked :: !u.hasProfile)
    && forall u, l | u in n.users && u.revoked && l in n.links :: l.userId != u.id
  }

  /** A created user gets an id that is not in use, as random UUIDs are. */
  ghost predicate FreshFor(n: NodeState, op: Op, freshId: string) {
    op.Create? ==> freshId !in Ids(n.users) && forall l | l in n.links :: l.userId != freshId
  }

  lemma ApplyKeepsInv(n: NodeState, op: Op, freshId: string)
    requires NodeInv(n) && FreshFor(n, op, freshId)
    ensures NodeInv(Apply(n, op, freshId).0)
  {
  }

  predicate IsRevoked(n: NodeState, id: string) { exists u :: u in n.users && u.id == id && u.revoked }

  lemma ApplyKeepsRevoked(n: NodeState, op: Op, freshId: string, id: string)
    requires NodeInv(n) && IsRevoked(n, id) && op != Delete(id)
    ensures IsRevoked(Apply(n, op, freshId).0, id)
  {
    var n' := Apply(n, op, freshId).0;
    var i :| 0 <= i < |n.users| && n.users[i].id == id && n.users[i].revoked;
    if op.Delete? && Find(n.users, op.id).Some? {
      var k := Find(n.users, op.id).value;
      assert n.users[i] == n'.users[if i < k then i else i - 1];
      assert n.users[i] in n'.users;
    } else {
      assert n'.users[i] in n'.users && n'.users[i].id == id && n'.users[i].revoked;
    }
  }

  /** One call of a run: the operation, and the id a created user gets. */
  datatype Request = Request(op: Op, freshId: string)

  function Serve(n: NodeState, rs: seq<Request>): NodeState {
    if rs == [] then n else Apply(Serve(n, rs[..|rs| - 1]), rs[|rs| - 1].op, rs[|rs| - 1].freshId).0
  }

  ghost predicate AllFresh(n: NodeState, rs: seq<Request>) {
    if rs == [] then true
    else
      var front, last := rs[..|rs| - 1], rs[|rs| - 1];
      AllFresh(n, front) && FreshFor(Serve(n, front), last.op, last.freshId)
  }

  lemma {:induction false} ServeKeepsInv(n: NodeState, rs: seq<Request>)
    requires NodeInv(n) && AllFresh(n, rs)
    ensures NodeInv(Serve(n, rs))
  {
    if rs == [] {
    } else {
      var front, last := rs[..|rs| - 1], rs[|rs| - 1];
      ServeKeepsInv(n, front);
      ApplyKeepsInv(Serve(n, front), last.op, last.freshId);
    }
  }

  lemma RevokedShowsNoLinks(n: NodeState, id: string)
    requires NodeInv(n) && IsRevoked(n, id)
    ensures forall l | l in LiveLinks(n) :: l.userId != id
  {
  }

  /** Revocation is for good: over any calls only a deletion ends it, and until then no session of the user is live. */
  lemma {:induction false} RevokedForGood(n: NodeState, rs: seq<Request>, id: string)
    requires NodeInv(n) && AllFresh(n, rs) && IsRevoked(n, id)
    requires forall r | r in rs :: r.op != Delete(id)
    ensures IsRevoked(Serve(n, rs), id)
    ensures forall l | l in LiveLinks(Serve(n, rs)) :: l.userId != id
  {
    if rs != [] {
      var front, last := rs[..|rs| - 1], rs[|rs| - 1];
      assert last in rs && forall r | r in front :: r in rs;
      RevokedForGood(n, front, id);
      ServeKeepsInv(n, front);
      ApplyKeepsRevoked(Serve(n, front), last.op, last.freshId, id);
    }
    ServeKeepsInv(n, rs);
    RevokedShowsNoLinks(Serve(n, rs), id);
  }

  lemma {:induction false} FilterWithout(links: seq<Link>, ids: set<string>, id: string)
    ensures FilterLinks(links, ids - {id}) == WithoutUser(FilterLinks(links, ids), id)
    ensures FilterLinks(WithoutUser(links, id), ids - {id}) == WithoutUser(FilterLinks(links, ids), id)
  {
    if links == [] {
    } else {
      FilterWithout(links[1..], ids, id);
    }
  }

  lemma LiveIdsAfter(n: NodeState, op: Op, freshId: string, at: nat)
    requires DistinctIds(n.users) && at < |n.users| && Find(n.users, n.users[at].id) == Some(at)
    requires var id := n.users[at].id; op == SetDisabled(id, true) || op == Revoke(id) || op == Delete(id)
    ensures LiveIds(Apply(n, op, freshId).0.users) == LiveIds(n.users) - {n.users[at].id}
  {
    var id, before, after := n.users[at].id, n.users, Apply(n, op, freshId).0.users;
    forall i | 0 <= i < |before| && i != at
      ensures before[i] in after && before[i].id != id
    {
      assert before[i] == after[if op.Delete? && i > at then i - 1 else i];
    }
    forall u | u in after && u.id != id
      ensures u in before
    {
    }
    assert forall u | u in after && u.id == id :: u.disabled || u.revoked;
  }

  /**
   Disabling, revoking and deleting a user end exactly that user's sessions and leave the others in order.
   Enabling undoes disabling altogether.
   */
  lemma SessionsEndExactly(n: NodeState, op: Op, freshId: string, id: string)
    requires DistinctIds(n.users) && Find(n.users, id).Some?
    requires op == SetDisabled(id, true) || op == Revoke(id) || op == Delete(id)
    ensures LiveLinks(Apply(n, op, freshId).0) == WithoutUser(LiveLinks(n), id)
    ensures op.SetDisabled? && !n.users[Find(n.users, id).value].disabled ==>
              Apply(Apply(n, op, freshId).0, SetDisabled(id, false), freshId).0 == n
  {
    var at := Find(n.users, id).value;
    LiveIdsAfter(n, op, freshId, at);
    FilterWithout(n.links, LiveIds(n.users), id);
    if op.SetDisabled? {
      var n' := Apply(n, op, freshId).0;
      assert Find(n'.users, id).Some? by {
        assert n'.users[at] in n'.users && n'.users[at].id == id;
      }
      assert Find(n'.users, id).value == at;
      assert n'.users[at := n.users[at]] == n.users;
    }
  }

  /** Sessions keep their order, whoever is taken out or shown. */
  lemma LinksInOrder(a: seq<Link>, b: seq<Link>, id: string, ids: set<string>)
    ensures WithoutUser(a + b, id) == WithoutUser(a, id) + WithoutUser(b, id)
    ensures FilterLinks(a + b, ids) == FilterLinks(a, ids) + FilterLinks(b, ids)
  {
    LeftInOrder(a, b, id);
    ShownInOrder(a, b, ids);
  }

  lemma {:induction false} LeftInOrder(a: seq<Link>, b: seq<Link>, id: string)
    ensures WithoutUser(a + b, id) == WithoutUser(a, id) + WithoutUser(b, id)
  {
    if a == [] {
      assert a + b == b;
    } else {
      assert (a + b)[1..] == a[1..] + b;
      LeftInOrder(a[1..], b, id);
    }
  }

  lemma {:induction false} ShownInOrder(a: seq<Link>, b: seq<Link>, ids: set<string>)
    ensures FilterLinks(a + b, ids) == FilterLinks(a, ids) + FilterLinks(b, ids)
  {
    if a == [] {
      assert a + b == b;
    } else {
      assert (a + b)[1..] == a[1..] + b;
      ShownInOrder(a[1..], b, ids);
    }
  }
}
