/** The health roll-up: probe results folded into a node's status, with a threshold between a blip and an outage. */
module NodeHealth {
  import opened Wrappers

  datatype Health = Reachable | Degraded | Unknown | Down

  /** What a probe finds; a probe that times out or raises finds the node down. */
  datatype Probe = Answers | Impaired | Silent

  datatype Record = Record(status: Health, consecutiveFailures: nat)

  const NEW_NODE := Record(Unknown, 0)

  function StatusOf(p: Probe): Health {
    match p
    case Answers => Reachable
    case Impaired => Degraded
    case Silent => Down
  }

  function Fold(threshold: int, r: Record, p: Probe): Record {
    if p == Answers then Record(Reachable, 0)
    else if r.consecutiveFailures + 1 >= threshold then Record(Down, r.consecutiveFailures + 1)
    else Record(StatusOf(p), r.consecutiveFailures + 1)
  }

  class MonitoredNode {
    var status: Health
    var consecutiveFailures: nat

    constructor ()
      ensures Record(status, consecutiveFailures) == NEW_NODE
    {
      status, consecutiveFailures := Unknown, 0;
    }

    method CheckNode(threshold: int, result: Probe)
      modifies this
      ensures Record(status, consecutiveFailures) == Fold(threshold, old(Record(status, consecutiveFailures)), result)
    {
      if result == Answers {
        consecutiveFailures := 0;
        status := Reachable;
      } else {
        consecutiveFailures := consecutiveFailures + 1;
        if consecutiveFailures >= threshold {
          status := Down;
        } else {
          status := StatusOf(result);
        }
      }
    }
  }

  function After(threshold: int, probes: seq<Probe>): Record {
    if probes == [] then NEW_NODE else Fold(threshold, After(threshold, probes[..|probes| - 1]), probes[|probes| - 1])
  }

  /** The last `n` probes all failed, and no more than those. */
  ghost predicate FailingSuffix(probes: seq<Probe>, n: nat) {
    && n <= |probes| && (forall i | |probes| - n <= i < |probes| :: probes[i] != Answers)
    && (n < |probes| ==> probes[|probes| - n - 1] == Answers)
  }

  /** After any probes the counter is the length of the maximal failing suffix, and it and the last probe give the status. */
  lemma {:induction false} RollUp(threshold: int, probes: seq<Probe>)
    ensures var r := After(threshold, probes);
            && FailingSuffix(probes, r.consecutiveFailures)
            && (r.status == Unknown <==> probes == [])
            && (r.status == Degraded <==> 0 < r.consecutiveFailures < threshold && probes[|probes| - 1] == Impaired)
            && (probes != [] ==>
                 && (r.status == Reachable <==> r.consecutiveFailures == 0)
                 && (r.status == Down <==> r.consecutiveFailures > 0
                                           && (r.consecutiveFailures >= threshold || probes[|probes| - 1] == Silent)))
  {
    if probes == [] {
    } else {
      RollUp(threshold, probes[..|probes| - 1]);
    }
  }

  // ----- sweeps over all nodes -----

  /** What a sweep finds at each node; None is the exception of an adapter that cannot be built. */
  type Findings = map<string, Option<Probe>>

  type Table = map<string, Record>

  predicate Complete(f: Findings) { forall n | n in f :: f[n].Some? }

  /** A sweep commits all its results or, after an exception, none. */
  function Swept(threshold: int, t: Table, f: Findings): (r: Table)
    requires f.Keys == t.Keys
    ensures r.Keys == t.Keys
  {
    if Complete(f) then map n | n in t :: Fold(threshold, t[n], f[n].value) else t
  }

  ghost predicate Lists(order: seq<string>, t: Table) {
    (forall n :: n in order <==> n in t) && forall i, j | 0 <= i < j < |order| :: order[i] != order[j]
  }

  method SweepOnce(threshold: int, t: Table, order: seq<string>, f: Findings) returns (after: Table, checked: Option<nat>)
    requires f.Keys == t.Keys && Lists(order, t)
    ensures after == Swept(threshold, t, f)
    ensures checked == if Complete(f) then Some(|order|) else None
  {
    after := t;
    assert forall i | 0 <= i < |order| :: order[i] in t.Keys && order[i] in f.Keys;
    for i := 0 to |order|
      invariant after.Keys == t.Keys
      invariant forall j | 0 <= j < i :: f[order[j]].Some? && after[order[j]] == Fold(threshold, t[order[j]], f[order[j]].value)
      invariant forall j | i <= j < |order| :: after[order[j]] == t[order[j]]
    {
      var found := f[order[i]];
      if found.None? {
        return t, None;
      }
      after := after[order[i] := Fold(threshold, after[order[i]], found.value)];
    }
    forall n | n in t
      ensures f[n].Some? && after[n] == Fold(threshold, t[n], f[n].value)
    {
      assert n in order;
    }
    checked := Some(|order|);
  }

  ghost predicate Covering(fs: seq<Findings>, nodes: set<string>) { forall f | f in fs :: f.Keys == nodes }

  ghost function RunSweeps(threshold: int, t: Table, fs: seq<Findings>): (r: Table)
    requires Covering(fs, t.Keys)
    ensures r.Keys == t.Keys
  {
    if fs == [] then t
    else
      assert fs[|fs| - 1] in fs;
      Swept(threshold, RunSweeps(threshold, t, fs[..|fs| - 1]), fs[|fs| - 1])
  }

  /** The probes of a node in the sweeps that were not broken off anywhere. */
  ghost function Kept(fs: seq<Findings>, nodes: set<string>, n: string): seq<Probe>
    requires Covering(fs, nodes) && n in nodes
  {
    if fs == [] then []
    else
      var last := fs[|fs| - 1];
      assert last in fs && n in last.Keys;
      Kept(fs[..|fs| - 1], nodes, n) + if Complete(last) then [last[n].value] else []
  }

  function NewTable(nodes: set<string>): (t: Table)
    ensures t.Keys == nodes
  {
    map n | n in nodes :: NEW_NODE
  }

  /** Over any sweeps, a node's record is the roll-up of exactly its probes in the unbroken ones. */
  lemma {:induction false} SweepsRollUp(threshold: int, nodes: set<string>, fs: seq<Findings>, n: string)
    requires Covering(fs, nodes) && n in nodes
    ensures RunSweeps(threshold, NewTable(nodes), fs)[n] == After(threshold, Kept(fs, nodes, n))
  {
    if fs == [] {
    } else {
      var front, last := fs[..|fs| - 1], fs[|fs| - 1];
      assert last in fs && n in last.Keys;
      SweepsRollUp(threshold, nodes, front, n);
      if Complete(last) {
        assert Kept(fs, nodes, n)[..|Kept(front, nodes, n)|] == Kept(front, nodes, n);
      } else {
        assert Kept(fs, nodes, n) == Kept(front, nodes, n);
      }
    }
  }

  /** So one node whose adapter cannot be built keeps every node's record as it is. */
  lemma {:induction false} OneNodeStopsAll(threshold: int, t: Table, fs: seq<Findings>, bad: string)
    requires Covering(fs, t.Keys) && bad in t && forall f: Findings | f in fs :: bad in f && f[bad].None?
    ensures RunSweeps(threshold, t, fs) == t
  {
    if fs == [] {
    } else {
      assert fs[|fs| - 1] in fs;
      OneNodeStopsAll(threshold, t, fs[..|fs| - 1], bad);
    }
  }
}
