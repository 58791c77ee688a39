/** The cross-site profile bundle: which profiles it holds, in which order and under which names. */
module Bundle {
  import opened Wrappers
  import opened Text
  import opened NodeHealth
  import opened Fleet

  function HealthRank(h: Health): nat {
    match h
    case Reachable => 0
    case Degraded => 1
    case Unknown => 2
    case Down => 3
  }

  datatype Pair = Pair(placement: Placement, node: NodeRow)

  function Rank(p: Pair): nat { HealthRank(p.node.health) }

  predicate Selects(nodes: map<string, NodeRow>, luId: string, p: Placement) {
    p.luId == luId && Truthy(p.remote) && p.status == Active && p.nodeId in nodes
  }

  function Selected(nodes: map<string, NodeRow>, luId: string, ps: seq<Placement>): seq<Pair> {
    if ps == [] then []
    else
      var front := Selected(nodes, luId, ps[..|ps| - 1]);
      var p := ps[|ps| - 1];
      if Selects(nodes, luId, p) then front + [Pair(p, nodes[p.nodeId])] else front
  }

  /** The library's stable sort by health rank, as insertion behind everything of no greater rank. */
  function Insert(xs: seq<Pair>, x: Pair): seq<Pair> {
    if xs == [] then [x]
    else if Rank(xs[|xs| - 1]) <= Rank(x) then xs + [x]
    else Insert(xs[..|xs| - 1], x) + [xs[|xs| - 1]]
  }

  function StableSort(xs: seq<Pair>): seq<Pair> {
    if xs == [] then [] else Insert(StableSort(xs[..|xs| - 1]), xs[|xs| - 1])
  }

  // ----- names -----

  /** At least two digits. */
  function Pad2(n: nat): string { if n < 10 then "0" + NatText(n) else NatText(n) }

  function EntryName(idx: nat, p: Pair, username: string): string {
    Pad2(idx + 1) + "-" + (p.node.region + "-" + p.node.name + "-" + username + ".tar")
  }

  /** Numbers follow the sorted position, also past sites whose profile could not be issued. */
  function Names(pairs: seq<Pair>, issued: seq<bool>, username: string): seq<string>
    requires |pairs| == |issued|
  {
    if pairs == [] then []
    else
      var n := |pairs| - 1;
      var front := Names(pairs[..n], issued[..n], username);
      if issued[n] then front + [EntryName(n, pairs[n], username)] else front
  }

  method SelectPairs(nodes: map<string, NodeRow>, ps: seq<Placement>, luId: string) returns (pairs: seq<Pair>)
    ensures pairs == Selected(nodes, luId, ps)
  {
    pairs := [];
    for i := 0 to |ps|
      invariant pairs == Selected(nodes, luId, ps[..i])
    {
      assert ps[..i + 1][..i] == ps[..i];
      if ps[i].luId == luId && Truthy(ps[i].remote) && ps[i].status == Active {
        if ps[i].nodeId in nodes {
          pairs := pairs + [Pair(ps[i], nodes[ps[i].nodeId])];
        }
      }
    }
    assert ps[..|ps|] == ps;
  }

  function Fates(n: nat, fate: nat -> bool): (r: seq<bool>)
    ensures |r| == n && forall i | 0 <= i < n :: r[i] == fate(i)
  {
    seq(n, i requires 0 <= i < n => fate(i))
  }

  /** The LookupError of an unknown identity, and what an adapter that cannot be built raises. */
  datatype Reply = Entries(names: seq<string>) | UnknownIdentity | AdapterRaised

  ghost predicate AllBuildable(pairs: seq<Pair>) { forall p | p in pairs :: p.node.defect.None? }

  /** `fate` tells for each sorted position whether the profile could be issued. */
  method BuildIdentityBundle(
    identities: map<string, Identity>, nodes: map<string, NodeRow>, ps: seq<Placement>, luId: string, fate: nat -> bool
  ) returns (reply: Reply)
    ensures reply == UnknownIdentity <==> luId !in identities
    ensures luId in identities ==> (reply == AdapterRaised <==> !AllBuildable(Selected(nodes, luId, ps)))
    ensures reply.Entries? ==>
              var pairs := StableSort(Selected(nodes, luId, ps));
              reply.names == ["README.txt"] + Names(pairs, Fates(|pairs|, fate), identities[luId].username)
  {
    if luId !in identities {
      return UnknownIdentity;
    }
    var username := identities[luId].username;
    var selected := SelectPairs(nodes, ps, luId);
    var pairs := StableSort(selected);
    SortKeepsMembers(selected);
    var names: seq<string> := [];
    for i := 0 to |pairs|
      invariant names == Names(pairs[..i], Fates(i, fate), username)
      invariant AllBuildable(pairs[..i])
    {
      assert pairs[..i + 1][..i] == pairs[..i] && pairs[..i + 1] == pairs[..i] + [pairs[i]];
      assert Fates(i + 1, fate)[..i] == Fates(i, fate);
      if pairs[i].node.defect.Some? {
        assert pairs[i] in selected;
        return AdapterRaised;
      }
      if fate(i) {
        names := names + [EntryName(i, pairs[i], username)];
      }
    }
    assert pairs[..|pairs|] == pairs;
    return Entries(["README.txt"] + names);
  }

  // ----- selection and order -----

  lemma {:induction false} SelectedExactly(nodes: map<string, NodeRow>, luId: string, ps: seq<Placement>)
    ensures forall x :: x in Selected(nodes, luId, ps) <==>
              && x.placement in ps && x.placement.luId == luId && x.placement.status == Active
              && x.placement.remote.Some? && x.placement.remote.value != ""
              && x.placement.nodeId in nodes && x.node == nodes[x.placement.nodeId]
  {
    if ps == [] {
    } else {
      SelectedExactly(nodes, luId, ps[..|ps| - 1]);
      assert ps == ps[..|ps| - 1] + [ps[|ps| - 1]];
    }
  }

  ghost predicate Ordered(xs: seq<Pair>) {
    forall i, j | 0 <= i < j < |xs| :: Rank(xs[i]) <= Rank(xs[j])
  }

  /** The pairs of one rank, in order. */
  function OfRank(xs: seq<Pair>, r: nat): seq<Pair> {
    if xs == [] then []
    else
      var front := OfRank(xs[..|xs| - 1], r);
      if Rank(xs[|xs| - 1]) == r then front + [xs[|xs| - 1]] else front
  }

  lemma {:induction false} InsertMembers(xs: seq<Pair>, x: Pair)
    ensures multiset(Insert(xs, x)) == multiset(xs) + multiset{x}
    ensures forall y | y in Insert(xs, x) :: y == x || y in xs
  {
    if xs == [] {
    } else {
      assert xs == xs[..|xs| - 1] + [xs[|xs| - 1]];
      InsertMembers(xs[..|xs| - 1], x);
    }
  }

  lemma {:induction false} InsertOrdered(xs: seq<Pair>, x: Pair)
    requires Ordered(xs)
    ensures Ordered(Insert(xs, x))
  {
    if xs != [] && Rank(x) < Rank(xs[|xs| - 1]) {
      var front, last := xs[..|xs| - 1], xs[|xs| - 1];
      InsertOrdered(front, x);
      InsertMembers(front, x);
      forall i | 0 <= i < |Insert(front, x)|
        ensures Rank(Insert(front, x)[i]) <= Rank(last)
      {
        assert Insert(front, x)[i] in Insert(front, x);
      }
    }
  }

  lemma OfRankGrows(xs: seq<Pair>, x: Pair, r: nat)
    ensures OfRank(xs + [x], r) == if Rank(x) == r then OfRank(xs, r) + [x] else OfRank(xs, r)
  {
  }

  /** An inserted pair comes behind all others of its rank. */
  lemma {:induction false} InsertIsStable(xs: seq<Pair>, x: Pair, r: nat)
    ensures OfRank(Insert(xs, x), r) == if Rank(x) == r then OfRank(xs, r) + [x] else OfRank(xs, r)
  {
    if xs == [] || Rank(xs[|xs| - 1]) <= Rank(x) {
      OfRankGrows(xs, x, r);
    } else {
      var front, last := xs[..|xs| - 1], xs[|xs| - 1];
      InsertIsStable(front, x, r);
      OfRankGrows(Insert(front, x), last, r);
      if Rank(x) == r {
        assert OfRank(xs, r) == OfRank(front, r);
      }
    }
  }

  /** The bundle order: nondecreasing health rank, nothing lost or added, and ties in placement order. */
  lemma {:induction false} StableSortCorrect(xs: seq<Pair>, r: nat)
    ensures Ordered(StableSort(xs)) && multiset(StableSort(xs)) == multiset(xs)
    ensures OfRank(StableSort(xs), r) == OfRank(xs, r)
  {
    if xs == [] {
    } else {
      var front, last := xs[..|xs| - 1], xs[|xs| - 1];
      assert xs == front + [last];
      StableSortCorrect(front, r);
      InsertOrdered(StableSort(front), last);
      InsertMembers(StableSort(front), last);
      InsertIsStable(StableSort(front), last, r);
    }
  }

  lemma {:induction false} SortKeepsMembers(xs: seq<Pair>)
    ensures forall x :: x in StableSort(xs) <==> x in xs
  {
    StableSortCorrect(xs, 0);
    forall x
      ensures x in StableSort(xs) <==> x in xs
    {
      assert x in StableSort(xs) <==> x in multiset(StableSort(xs));
      assert x in xs <==> x in multiset(xs);
    }
  }

  /** Reachable sites come first, then degraded ones, those not yet probed, and last those that are down. */
  lemma HealthOrder(xs: seq<Pair>, i: nat, j: nat)
    requires i < j < |StableSort(xs)|
    ensures var a, b := StableSort(xs)[i].node.health, StableSort(xs)[j].node.health;
            a == b || a == Reachable || b == Down || (a == Degraded && b == Unknown)
  {
    StableSortCorrect(xs, 0);
  }

  // ----- the names -----

  lemma ReadPad2(n: nat)
    ensures ReadDigits(Pad2(n)) == Some(n) && AllDigits(Pad2(n)) && |Pad2(n)| > 0
  {
    ReadDigitsOfNatText(n);
    if n < 10 {
      assert NatText(n) == [DigitChar(n)];
      assert Pad2(n) == ['0', DigitChar(n)];
      assert Pad2(n)[..1] == ['0'];
    }
  }

  lemma DigitsEndAtDash(a: string, b: string, i: nat)
    requires AllDigits(a) && i <= |a|
    ensures (a + "-" + b)[i] == '-' <==> i == |a|
  {
    assert i < |a| ==> a[i] in a;
  }

  lemma DashSplits(a: string, b: string, a': string, b': string)
    requires AllDigits(a) && AllDigits(a') && a + "-" + b == a' + "-" + b'
    ensures a == a'
  {
    var i := if |a| <= |a'| then |a| else |a'|;
    DigitsEndAtDash(a, b, i);
    DigitsEndAtDash(a', b', i);
    assert (a + "-" + b)[..i] == a && (a' + "-" + b')[..i] == a';
  }

  lemma NamesDiffer(i: nat, j: nat, p: Pair, q: Pair, username: string)
    requires EntryName(i, p, username) == EntryName(j, q, username)
    ensures i == j
  {
    ReadPad2(i + 1);
    ReadPad2(j + 1);
    DashSplits(Pad2(i + 1), p.node.region + "-" + p.node.name + "-" + username + ".tar",
               Pad2(j + 1), q.node.region + "-" + q.node.name + "-" + username + ".tar");
  }

  /** Every name after the README comes from a position whose profile was issued. */
  lemma {:induction false} NamesComeFrom(pairs: seq<Pair>, issued: seq<bool>, username: string, name: string)
    requires |pairs| == |issued| && name in Names(pairs, issued, username)
    ensures exists i :: 0 <= i < |pairs| && issued[i] && name == EntryName(i, pairs[i], username)
  {
    var n := |pairs| - 1;
    if name in Names(pairs[..n], issued[..n], username) {
      NamesComeFrom(pairs[..n], issued[..n], username, name);
      var i :| 0 <= i < n && issued[..n][i] && name == EntryName(i, pairs[..n][i], username);
      assert issued[i] && name == EntryName(i, pairs[i], username);
    } else {
      assert issued[n] && name == EntryName(n, pairs[n], username);
    }
  }

  lemma {:induction false} NamesHold(pairs: seq<Pair>, issued: seq<bool>, username: string, i: nat)
    requires |pairs| == |issued| && i < |pairs| && issued[i]
    ensures EntryName(i, pairs[i], username) in Names(pairs, issued, username)
  {
    var n := |pairs| - 1;
    if i < n {
      NamesHold(pairs[..n], issued[..n], username, i);
    }
  }

  /** The names are those of exactly the positions whose profile was issued. */
  lemma NamesExactly(pairs: seq<Pair>, issued: seq<bool>, username: string, name: string)
    requires |pairs| == |issued|
    ensures name in Names(pairs, issued, username) <==>
            exists i :: 0 <= i < |pairs| && issued[i] && name == EntryName(i, pairs[i], username)
  {
    if name in Names(pairs, issued, username) {
      NamesComeFrom(pairs, issued, username, name);
    }
    if i :| 0 <= i < |pairs| && issued[i] && name == EntryName(i, pairs[i], username) {
      NamesHold(pairs, issued, username, i);
    }
  }

  /** Selection and names follow the order of the placements and of the sorted sites. */
  lemma BundleInOrder(
    nodes: map<string, NodeRow>, luId: string, ps: seq<Placement>, p: Placement,
    pairs: seq<Pair>, pair: Pair, issued: seq<bool>, ok: bool, username: string
  )
    requires |pairs| == |issued|
    ensures Selected(nodes, luId, ps) <= Selected(nodes, luId, ps + [p])
    ensures Names(pairs, issued, username) <= Names(pairs + [pair], issued + [ok], username)
  {
    assert (ps + [p])[..|ps|] == ps && (pairs + [pair])[..|pairs|] == pairs && (issued + [ok])[..|issued|] == issued;
  }

  /** A name is its position, counted from one in at least two digits, then region, site and user. */
  lemma EntryNameTells(idx: nat, p: Pair, username: string) returns (number: string)
    ensures EntryName(idx, p, username) == number + "-" + (p.node.region + "-" + p.node.name + "-" + username + ".tar")
    ensures ReadInt(number) == Some(idx + 1) && AllDigits(number) && |number| >= 2 && (idx + 1 >= 100 ==> number[0] != '0')
  {
    number := Pad2(idx + 1);
    ReadPad2(idx + 1);
    assert number[0] in number && number[|number| - 1] in number;
    StripNothing(number);
    NatTextStarts(idx + 1);
  }

  lemma {:induction false} NatTextStarts(n: nat)
    ensures (n > 0 ==> NatText(n)[0] != '0') && (n >= 10 ==> |NatText(n)| >= 2)
  {
    if n < 10 {
    } else {
      NatTextStarts(n / 10);
      assert NatText(n) == NatText(n / 10) + [DigitChar(n % 10)];
    }
  }

  ghost predicate AllDiffer(names: seq<string>) {
    forall i, j | 0 <= i < j < |names| :: names[i] != names[j]
  }

  lemma LastNameIsNew(pairs: seq<Pair>, issued: seq<bool>, username: string)
    requires |pairs| == |issued| > 0
    ensures var n := |pairs| - 1;
            EntryName(n, pairs[n], username) !in ["README.txt"] + Names(pairs[..n], issued[..n], username)
  {
    var n := |pairs| - 1;
    var last := EntryName(n, pairs[n], username);
    var front := Names(pairs[..n], issued[..n], username);
    ReadPad2(n + 1);
    assert last[0] == Pad2(n + 1)[0] && Pad2(n + 1)[0] in Pad2(n + 1);
    assert "README.txt"[0] == 'R';
    if last in front {
      NamesComeFrom(pairs[..n], issued[..n], username, last);
      var i :| 0 <= i < n && issued[..n][i] && last == EntryName(i, pairs[..n][i], username);
      NamesDiffer(i, n, pairs[i], pairs[n], username);
    }
  }

  /** For any number of sites, with any of them skipped, the names in the archive are pairwise distinct. */
  lemma {:induction false} NamesDistinct(pairs: seq<Pair>, issued: seq<bool>, username: string)
    requires |pairs| == |issued|
    ensures AllDiffer(["README.txt"] + Names(pairs, issued, username))
  {
    if pairs == [] {
    } else {
      var n := |pairs| - 1;
      var before := ["README.txt"] + Names(pairs[..n], issued[..n], username);
      NamesDistinct(pairs[..n], issued[..n], username);
      LastNameIsNew(pairs, issued, username);
      if issued[n] {
        assert ["README.txt"] + Names(pairs, issued, username) == before + [EntryName(n, pairs[n], username)];
      }
    }
  }
}
