/**
 The audit log: the canonical text of a row, the table with its append operation, chain verification,
 and the guarantees of the hash chain for audit rows. SHA-256 is an arbitrary function.
 */
module AuditLog {
  import opened Wrappers
  import opened Text
  import opened Json
  import opened HashChain

  type Sha = string -> HexDigest

  /** The hashed fields; `ts` is the ISO text of the instant and `params` a JSON text. */
  datatype Payload = Payload(
    ts: string, actor: string, action: string, nodeId: Option<string>, nodeName: Option<string>,
    targetType: Option<string>, targetId: Option<string>, result: string, detail: Option<string>,
    params: string, requestId: Option<string>)

  /** A table row; the sequence number orders the rows but is not hashed. */
  datatype Row = Row(seqNo: int, entry: Entry<Payload>)

  function Fields(p: Payload): seq<Field> {
    [("action", Str(p.action)), ("actor", Str(p.actor)), ("detail", OrNull(p.detail)), ("node_id", OrNull(p.nodeId)),
     ("node_name", OrNull(p.nodeName)), ("params", Str(p.params)), ("request_id", OrNull(p.requestId)),
     ("result", Str(p.result)), ("target_id", OrNull(p.targetId)), ("target_type", OrNull(p.targetType)), ("ts", Str(p.ts))]
  }

  function Canonical(p: Payload): string { PrintObject(Fields(p)) }

  function AuditHasher(sha: Sha): Hasher<Payload> { Hasher(sha, Canonical) }

  function Entries(rows: seq<Row>): (es: seq<Entry<Payload>>)
    ensures |es| == |rows|
  {
    seq(|rows|, i requires 0 <= i < |rows| => rows[i].entry)
  }

  // ----- the canonical text -----

  predicate TextLess(a: string, b: string) {
    if b == "" then false
    else if a == "" then true
    else a[0] < b[0] || (a[0] == b[0] && TextLess(a[1..], b[1..]))
  }

  const KEYS := ["action", "actor", "detail", "node_id", "node_name", "params", "request_id", "result", "target_id", "target_type", "ts"]

  lemma FirstKeysSorted()
    ensures forall i | 0 <= i < 5 :: TextLess(KEYS[i], KEYS[i + 1])
  {
  }

  lemma MiddleKeysSorted()
    ensures forall i | 5 <= i < 8 :: TextLess(KEYS[i], KEYS[i + 1])
  {
  }

  lemma LastKeysSorted()
    ensures forall i | 8 <= i < 10 :: TextLess(KEYS[i], KEYS[i + 1])
  {
  }

  /** The members come in strictly increasing key order, as `sort_keys` puts them. */
  lemma KeysSorted(p: Payload)
    ensures |Fields(p)| == 11 && forall i | 0 <= i < 11 :: Fields(p)[i].0 == KEYS[i]
    ensures forall i | 0 <= i < 10 :: TextLess(KEYS[i], KEYS[i + 1])
  {
    FirstKeysSorted();
    MiddleKeysSorted();
    LastKeysSorted();
  }

  /** Under each of the eleven keys stands the field of that name. */
  predicate Tells(fs: seq<Field>, p: Payload) {
    && ("actor", Str(p.actor)) in fs && ("action", Str(p.action)) in fs && ("result", Str(p.result)) in fs
    && ("ts", Str(p.ts)) in fs && ("params", Str(p.params)) in fs && ("detail", OrNull(p.detail)) in fs
    && ("node_id", OrNull(p.nodeId)) in fs && ("node_name", OrNull(p.nodeName)) in fs
    && ("target_id", OrNull(p.targetId)) in fs && ("target_type", OrNull(p.targetType)) in fs
    && ("request_id", OrNull(p.requestId)) in fs
  }

  lemma FieldsTell(p: Payload)
    ensures |Fields(p)| == 11 && Tells(Fields(p), p)
  {
    var fs := Fields(p);
    assert fs[0].0 == "action" && fs[1].0 == "actor" && fs[2].0 == "detail" && fs[3].0 == "node_id" && fs[4].0 == "node_name";
    assert fs[5].0 == "params" && fs[6].0 == "request_id" && fs[7].0 == "result" && fs[8].0 == "target_id";
    assert fs[9].0 == "target_type" && fs[10].0 == "ts";
  }

  /** Read back, the canonical text gives under each of the eleven keys the field of that name, and nothing else. */
  lemma CanonicalTells(p: Payload) returns (fs: seq<Field>)
    ensures ReadObject(Canonical(p)) == Some(fs) && |fs| == 11 && Tells(fs, p)
  {
    fs := Fields(p);
    ReadUndoesPrint(fs);
    FieldsTell(p);
  }

  /** No two payloads share a canonical text: `null` never reads like `"null"`, quotes never end a text early. */
  lemma CanonicalInjective(p: Payload, q: Payload)
    requires Canonical(p) == Canonical(q)
    ensures p == q
  {
    ReadUndoesPrint(Fields(p));
    ReadUndoesPrint(Fields(q));
    var f, g := Fields(p), Fields(q);
    assert f[0] == g[0] && f[1] == g[1] && f[2] == g[2] && f[3] == g[3] && f[4] == g[4] && f[5] == g[5];
    assert f[6] == g[6] && f[7] == g[7] && f[8] == g[8] && f[9] == g[9] && f[10] == g[10];
  }

  lemma AuditHasherInjective(sha: Sha)
    ensures Injective(AuditHasher(sha))
  {
    forall p, q | AuditHasher(sha).text(p) == AuditHasher(sha).text(q)
      ensures p == q
    {
      CanonicalInjective(p, q);
    }
  }

  // ----- the table -----

  datatype ChainStatus = ChainStatus(ok: bool, count: nat, brokenAt: Option<int>, detail: Option<string>)

  class AuditTable {
    const hasher: Hasher<Payload>
    var rows: seq<Row>
    var lastSeq: int

    ghost predicate Valid()
      reads this
    {
      && ChainOk(hasher, Entries(rows))
      && (forall i, j | 0 <= i < j < |rows| :: rows[i].seqNo < rows[j].seqNo)
      && forall i | 0 <= i < |rows| :: rows[i].seqNo <= lastSeq
    }

    constructor (sha: Sha)
      ensures Valid() && rows == [] && hasher == AuditHasher(sha)
    {
      hasher := AuditHasher(sha);
      rows, lastSeq := [], 0;
    }

    method HeadHash() returns (h: string)
      ensures h == Head(Entries(rows))
    {
      h := if |rows| == 0 then GENESIS_HASH else rows[|rows| - 1].entry.entryHash;
    }

    method AppendEntry(p: Payload) returns (row: Row)
      requires Valid()
      modifies this`rows, this`lastSeq
      ensures Valid()
      ensures rows == old(rows) + [row]
      ensures Entries(rows) == Append(hasher, old(Entries(rows)), p)
    {
      var prev := HeadHash();
      var e := Entry(p, prev, hasher.digest(HashedText(hasher, prev, p)));
      lastSeq := lastSeq + 1;
      row := Row(lastSeq, e);
      rows := rows + [row];
      AppendKeepsChain(hasher, old(Entries(rows)), p);
      assert Entries(rows) == Append(hasher, old(Entries(rows)), p);
    }
  }

  /** Recompute the chain over rows in sequence order and report the first break. */
  method VerifyChain(h: Hasher<Payload>, rows: seq<Row>) returns (r: ChainStatus)
    ensures r.count == |rows|
    ensures r.ok <==> ChainOk(h, Entries(rows))
    ensures r.ok ==> r.brokenAt == None && r.detail == None
    ensures !r.ok ==> exists k: nat | k < |rows| ::
              && ChainOk(h, Entries(rows)[..k]) && !ChainOk(h, Entries(rows)[..k + 1])
              && r.brokenAt == Some(rows[k].seqNo)
              && r.detail == Some(if rows[k].entry.prevHash != Head(Entries(rows)[..k]) then "prev_hash mismatch"
                                  else "entry_hash mismatch (row tampered)")
  {
    var prev: string := GENESIS_HASH;
    ghost var es := Entries(rows);
    for i := 0 to |rows|
      invariant prev == Head(es[..i])
      invariant ChainOk(h, es[..i])
    {
      var e := rows[i].entry;
      assert es[..i + 1][..i] == es[..i];
      assert Links(h, es[..i + 1], i) <==> e == Sealed(h, prev, e.payload);
      if e.prevHash != prev {
        BrokenHere(h, es, i);
        return ChainStatus(false, |rows|, Some(rows[i].seqNo), Some("prev_hash mismatch"));
      }
      if h.digest(HashedText(h, prev, e.payload)) != e.entryHash {
        BrokenHere(h, es, i);
        return ChainStatus(false, |rows|, Some(rows[i].seqNo), Some("entry_hash mismatch (row tampered)"));
      }
      ChainGrows(h, es, i);
      prev := e.entryHash;
    }
    assert es[..|rows|] == es;
    r := ChainStatus(true, |rows|, None, None);
  }

  // ----- what a verified audit log pins down -----

  /** Two verified audit logs with one head hash agree row by row in every hashed field, or a flaw is exhibited. */
  lemma SameHeadSameRows(sha: Sha, a: seq<Row>, b: seq<Row>) returns (f: Flaw)
    requires ChainOk(AuditHasher(sha), Entries(a)) && ChainOk(AuditHasher(sha), Entries(b))
    requires Head(Entries(a)) == Head(Entries(b))
    ensures f == NoFlaw ==> |a| == |b| && forall i | 0 <= i < |a| :: a[i].entry == b[i].entry
    ensures f != NoFlaw ==> Exhibits(AuditHasher(sha), f, Texts(AuditHasher(sha), Entries(a)) + Texts(AuditHasher(sha), Entries(b)))
  {
    AuditHasherInjective(sha);
    f := SameHeadSameLog(AuditHasher(sha), Entries(a), Entries(b));
    if f == NoFlaw {
      assert forall i | 0 <= i < |a| :: a[i].entry == Entries(a)[i] == Entries(b)[i];
    }
  }

  /** Audit rows reordered, repeated or omitted verify exactly while they follow the original log. */
  lemma ShuffledRowsVerifyIffPrefix(sha: Sha, log: seq<Row>, drawn: seq<Row>) returns (f: Flaw)
    requires ChainOk(AuditHasher(sha), Entries(log))
    requires forall r | r in drawn :: exists s :: s in log && s.entry == r.entry
    ensures f == NoFlaw ==> forall k: nat | k <= |drawn| ::
              ChainOk(AuditHasher(sha), Entries(drawn)[..k]) <==> Entries(drawn)[..k] <= Entries(log)
    ensures f != NoFlaw ==> Exhibits(AuditHasher(sha), f, Texts(AuditHasher(sha), Entries(log)))
  {
    forall e | e in Entries(drawn)
      ensures e in Entries(log)
    {
      var i :| 0 <= i < |drawn| && drawn[i].entry == e;
      assert drawn[i] in drawn;
      var s :| s in log && s.entry == e;
      var j :| 0 <= j < |log| && log[j] == s;
      assert Entries(log)[j] == e;
    }
    AuditHasherInjective(sha);
    f := DrawnVerifiesIffPrefix(AuditHasher(sha), Entries(log), Entries(drawn));
  }
}
