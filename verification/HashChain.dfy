/**
 A hash chain of entries: linking, appending, and what a verified chain pins down. The digest is an
 arbitrary function of the hashed text. Nothing assumes that it is free of collisions: each
 result either holds or exhibits a collision, or a preimage of the genesis hash, among the texts
 that the chains at hand hash.
 */
module HashChain {
  import opened Text

  const GENESIS_HASH: HexDigest := Zeros(64)

  function Zeros(n: nat): (s: string)
    ensures |s| == n && forall c | c in s :: c == '0'
  {
    if n == 0 then "" else "0" + Zeros(n - 1)
  }

  /** The digest of texts and the text of a payload. */
  datatype Hasher<!P> = Hasher(digest: string -> HexDigest, text: P -> string)

  ghost predicate Injective<P(!new)>(h: Hasher<P>) {
    forall p, q | h.text(p) == h.text(q) :: p == q
  }

  datatype Entry<+P> = Entry(payload: P, prevHash: string, entryHash: string)

  /** The text whose digest is an entry's hash. */
  function HashedText<P>(h: Hasher<P>, prev: string, p: P): string { prev + h.text(p) }

  function Sealed<P>(h: Hasher<P>, prev: string, p: P): Entry<P> {
    Entry(p, prev, h.digest(HashedText(h, prev, p)))
  }

  function Head<P>(es: seq<Entry<P>>): string {
    if es == [] then GENESIS_HASH else es[|es| - 1].entryHash
  }

  function Append<P>(h: Hasher<P>, es: seq<Entry<P>>, p: P): seq<Entry<P>> {
    es + [Sealed(h, Head(es), p)]
  }

  /** Entry `i` continues the chain formed by the entries before it. */
  ghost predicate Links<P>(h: Hasher<P>, es: seq<Entry<P>>, i: nat)
    requires i < |es|
  {
    es[i] == Sealed(h, Head(es[..i]), es[i].payload)
  }

  ghost predicate ChainOk<P>(h: Hasher<P>, es: seq<Entry<P>>) {
    forall i: nat | i < |es| :: Links(h, es, i)
  }

  lemma LinksInPrefix<P>(h: Hasher<P>, es: seq<Entry<P>>, n: nat, i: nat)
    requires i < n <= |es|
    ensures Links(h, es[..n], i) <==> Links(h, es, i)
  {
  }

  lemma ChainOfPrefix<P>(h: Hasher<P>, es: seq<Entry<P>>, n: nat)
    requires n <= |es| && ChainOk(h, es)
    ensures ChainOk(h, es[..n])
  {
    forall i: nat | i < n
      ensures Links(h, es[..n], i)
    {
      LinksInPrefix(h, es, n, i);
    }
  }

  lemma ChainGrows<P>(h: Hasher<P>, es: seq<Entry<P>>, n: nat)
    requires n < |es| && ChainOk(h, es[..n]) && Links(h, es, n)
    ensures ChainOk(h, es[..n + 1])
  {
    var grown := es[..n + 1];
    forall i: nat | i < |grown|
      ensures Links(h, grown, i)
    {
      LinksInPrefix(h, es, n + 1, i);
      if i < n {
        LinksInPrefix(h, es, n, i);
      }
    }
  }

  lemma BrokenHere<P>(h: Hasher<P>, es: seq<Entry<P>>, n: nat)
    requires n < |es| && !Links(h, es, n)
    ensures !ChainOk(h, es[..n + 1]) && !ChainOk(h, es)
  {
    LinksInPrefix(h, es, n + 1, n);
  }

  // ----- appending -----

  lemma AppendKeepsChain<P>(h: Hasher<P>, es: seq<Entry<P>>, p: P)
    requires ChainOk(h, es)
    ensures ChainOk(h, Append(h, es, p))
  {
    var all := Append(h, es, p);
    assert all[..|es|] == es;
    ChainGrows(h, all, |es|);
    assert all[..|es| + 1] == all;
  }

  function AppendAll<P>(h: Hasher<P>, es: seq<Entry<P>>, ps: seq<P>): seq<Entry<P>> {
    if ps == [] then es else Append(h, AppendAll(h, es, ps[..|ps| - 1]), ps[|ps| - 1])
  }

  /** Every serial run of appends keeps what was there and verifies, with one entry per payload in order. */
  lemma {:induction false} AppendRunVerifies<P>(h: Hasher<P>, es: seq<Entry<P>>, ps: seq<P>)
    requires ChainOk(h, es)
    ensures var all := AppendAll(h, es, ps);
            && ChainOk(h, all) && |all| == |es| + |ps| && all[..|es|] == es
            && forall i | 0 <= i < |ps| :: all[|es| + i].payload == ps[i]
  {
    if ps == [] {
    } else {
      var front := ps[..|ps| - 1];
      var before := AppendAll(h, es, front);
      AppendRunVerifies(h, es, front);
      AppendKeepsChain(h, before, ps[|ps| - 1]);
      assert AppendAll(h, es, ps)[..|es|] == before[..|es|];
    }
  }

  lemma HashedTextInjective<P(!new)>(h: Hasher<P>, prev: string, p: P, prev': string, p': P)
    requires Injective(h)
    requires |prev| == |prev'| && HashedText(h, prev, p) == HashedText(h, prev', p')
    ensures prev == prev' && p == p'
  {
    assert prev == HashedText(h, prev, p)[..|prev|] && prev' == HashedText(h, prev', p')[..|prev'|];
    assert h.text(p) == HashedText(h, prev, p)[|prev|..];
    assert h.text(p') == HashedText(h, prev', p')[|prev'|..];
  }

  // ----- what a verified chain pins down -----

  /** A failure of the hash function, exhibited. */
  datatype Flaw = NoFlaw | Collision(x: string, y: string) | GenesisPreimage(x: string)

  /** The texts that a log hashes. */
  function Texts<P>(h: Hasher<P>, es: seq<Entry<P>>): set<string> {
    set i | 0 <= i < |es| :: HashedText(h, es[i].prevHash, es[i].payload)
  }

  ghost predicate Exhibits<P>(h: Hasher<P>, f: Flaw, texts: set<string>) {
    match f
    case NoFlaw => false
    case Collision(x, y) => x in texts && y in texts && x != y && h.digest(x) == h.digest(y)
    case GenesisPreimage(x) => x in texts && h.digest(x) == GENESIS_HASH
  }

  lemma HeadIsDigest<P>(h: Hasher<P>, es: seq<Entry<P>>)
    requires ChainOk(h, es)
    ensures |Head(es)| == 64
    ensures es != [] ==> Head(es) == h.digest(HashedText(h, es[|es| - 1].prevHash, es[|es| - 1].payload))
    ensures es != [] ==> HashedText(h, es[|es| - 1].prevHash, es[|es| - 1].payload) in Texts(h, es)
  {
    if es != [] {
      assert Links(h, es, |es| - 1);
    }
  }

  /** Where the last texts agree, the last entries and the heads before them do. */
  lemma SameTextSameLast<P(!new)>(h: Hasher<P>, a: seq<Entry<P>>, b: seq<Entry<P>>, m: nat, n: nat)
    requires Injective(h) && ChainOk(h, a) && ChainOk(h, b) && |a| == m + 1 && |b| == n + 1
    requires HashedText(h, a[m].prevHash, a[m].payload) == HashedText(h, b[n].prevHash, b[n].payload)
    ensures a[m] == b[n] && ChainOk(h, a[..m]) && ChainOk(h, b[..n]) && Head(a[..m]) == Head(b[..n])
  {
    assert Links(h, a, m) && Links(h, b, n);
    ChainOfPrefix(h, a, m);
    ChainOfPrefix(h, b, n);
    HeadIsDigest(h, a[..m]);
    HeadIsDigest(h, b[..n]);
    HashedTextInjective(h, a[m].prevHash, a[m].payload, b[n].prevHash, b[n].payload);
  }

  /** Two verified logs with one head hash are the same log, or walking both back exhibits a flaw. */
  lemma {:induction false} SameHeadSameLog<P(!new)>(h: Hasher<P>, a: seq<Entry<P>>, b: seq<Entry<P>>) returns (f: Flaw)
    requires Injective(h)
    requires ChainOk(h, a) && ChainOk(h, b) && Head(a) == Head(b)
    ensures f == NoFlaw ==> a == b
    ensures f != NoFlaw ==> Exhibits(h, f, Texts(h, a) + Texts(h, b))
    decreases |a|
  {
    HeadIsDigest(h, a);
    HeadIsDigest(h, b);
    if a == [] && b == [] {
      return NoFlaw;
    } else if a == [] {
      return GenesisPreimage(HashedText(h, b[|b| - 1].prevHash, b[|b| - 1].payload));
    } else if b == [] {
      return GenesisPreimage(HashedText(h, a[|a| - 1].prevHash, a[|a| - 1].payload));
    }
    var m, n := |a| - 1, |b| - 1;
    var x, y := HashedText(h, a[m].prevHash, a[m].payload), HashedText(h, b[n].prevHash, b[n].payload);
    if x != y {
      return Collision(x, y);
    }
    SameTextSameLast(h, a, b, m, n);
    f := SameHeadSameLog(h, a[..m], b[..n]);
    assert a == a[..m] + [a[m]] && b == b[..n] + [b[n]];
    TextsOfPrefix(h, a, m);
    TextsOfPrefix(h, b, n);
  }

  lemma TextsOfPrefix<P>(h: Hasher<P>, es: seq<Entry<P>>, n: nat)
    requires n <= |es|
    ensures Texts(h, es[..n]) <= Texts(h, es)
  {
  }

  /** Two prefixes of one verified log with one head hash have one length, or exhibit a flaw. */
  lemma SameHeadSameLength<P(!new)>(h: Hasher<P>, es: seq<Entry<P>>, m: nat, n: nat) returns (f: Flaw)
    requires Injective(h)
    requires ChainOk(h, es) && m <= |es| && n <= |es| && Head(es[..m]) == Head(es[..n])
    ensures f == NoFlaw ==> m == n
    ensures f != NoFlaw ==> Exhibits(h, f, Texts(h, es))
  {
    ChainOfPrefix(h, es, m);
    ChainOfPrefix(h, es, n);
    f := SameHeadSameLog(h, es[..m], es[..n]);
    TextsOfPrefix(h, es, m);
    TextsOfPrefix(h, es, n);
    if f == NoFlaw {
      assert |es[..m]| == |es[..n]|;
    }
  }

  /** The entry hashes of a verified log are pairwise distinct and none is the genesis hash, or a flaw is exhibited. */
  lemma EntryHashesDistinct<P(!new)>(h: Hasher<P>, es: seq<Entry<P>>, i: nat, j: nat) returns (f: Flaw)
    requires Injective(h)
    requires ChainOk(h, es) && i < j < |es|
    ensures f == NoFlaw ==> es[i].entryHash != es[j].entryHash && es[i].entryHash != GENESIS_HASH
    ensures f != NoFlaw ==> Exhibits(h, f, Texts(h, es))
  {
    f := NoFlaw;
    if es[i].entryHash == es[j].entryHash {
      f := SameHeadSameLength(h, es, i + 1, j + 1);
    } else if es[i].entryHash == GENESIS_HASH {
      f := SameHeadSameLength(h, es, 0, i + 1);
    }
  }

  /** If all but the last drawn entry follow the log and the drawn chain verifies, the last one follows it too. */
  lemma LastDrawnFollows<P(!new)>(h: Hasher<P>, log: seq<Entry<P>>, drawn: seq<Entry<P>>) returns (f: Flaw)
    requires Injective(h)
    requires ChainOk(h, log) && ChainOk(h, drawn)
    requires drawn != [] && drawn[..|drawn| - 1] <= log && drawn[|drawn| - 1] in log
    ensures f == NoFlaw ==> drawn <= log
    ensures f != NoFlaw ==> Exhibits(h, f, Texts(h, log))
  {
    var n := |drawn| - 1;
    var m :| 0 <= m < |log| && log[m] == drawn[n];
    assert Links(h, drawn, n) && Links(h, log, m);
    assert drawn[..n] == log[..n];
    f := SameHeadSameLength(h, log, n, m);
    assert f == NoFlaw ==> drawn == log[..n] + [log[n]];
  }

  /**
   Rows drawn from a verified log in any order, with repeats and omissions, verify up to a point
   exactly as long as they are a prefix of that log; so the reported break is the first departure.
   */
  lemma {:induction false} DrawnVerifiesIffPrefix<P(!new)>(h: Hasher<P>, log: seq<Entry<P>>, drawn: seq<Entry<P>>) returns (f: Flaw)
    requires Injective(h)
    requires ChainOk(h, log) && forall e | e in drawn :: e in log
    ensures f == NoFlaw ==> forall k: nat | k <= |drawn| :: ChainOk(h, drawn[..k]) <==> drawn[..k] <= log
    ensures f != NoFlaw ==> Exhibits(h, f, Texts(h, log))
    decreases |drawn|
  {
    var n := |drawn| - 1;
    if drawn == [] {
      assert forall k: nat | k <= |drawn| :: drawn[..k] == [];
      return NoFlaw;
    }
    f := DrawnVerifiesIffPrefix(h, log, drawn[..n]);
    if f != NoFlaw {
      return;
    }
    assert forall k: nat | k <= n :: drawn[..n][..k] == drawn[..k];
    if ChainOk(h, drawn) {
      ChainOfPrefix(h, drawn, n);
      assert drawn[..n][..n] == drawn[..n];
      assert drawn[n] in drawn;
      f := LastDrawnFollows(h, log, drawn);
    }
    if drawn <= log {
      ChainOfPrefix(h, log, n + 1);
      assert log[..n + 1] == drawn;
    }
    assert drawn[..n + 1] == drawn;
    assert forall k: nat | k <= |drawn| :: k <= n || drawn[..k] == drawn;
  }
}
