/**
 HMAC request authentication of a node: signing, stateless verification and the evicting
 single-use nonce cache. SHA-256 and HMAC-SHA256 are arbitrary functions.
 */
module HmacAuth {
  import opened Wrappers
  import opened Text

  const H_TOKEN := "Auth-Token"
  const H_TIMESTAMP := "Auth-Timestamp"
  const H_NONCE := "Auth-Nonce"
  const H_SIGNATURE := "Auth-Signature"
  const DEFAULT_MAX_SKEW := 300

  predicate IsAscii(s: string) { forall c | c in s :: c < 128 as char }

  /** A base64 HMAC is never empty and is ASCII. */
  type Signature = s: string | s != "" && IsAscii(s) witness "="

  datatype Crypto = Crypto(bodyHash: seq<byte> -> HexDigest, hmac: (string, string) -> Signature)

  // ----- signing -----

  function SignedString(
    c: Crypto, token: string, timestamp: string, nonce: string, verb: string, path: string, body: seq<byte>
  ): string {
    token + "&" + (timestamp + "&" + (nonce + "&" + (Upper(verb) + "&" + (path + "&" + c.bodyHash(body)))))
  }

  function SignRequest(
    c: Crypto, token: string, secret: string, verb: string, path: string, body: seq<byte>,
    timestamp: int, nonce: string
  ): seq<(string, string)> {
    var ts := IntText(timestamp);
    [(H_TOKEN, token), (H_TIMESTAMP, ts), (H_NONCE, nonce),
     (H_SIGNATURE, c.hmac(secret, SignedString(c, token, ts, nonce, verb, path, body)))]
  }

  // ----- stateless verification -----

  datatype Request = Request(verb: string, path: string, headers: seq<(string, string)>, body: seq<byte>)
  datatype VerifyResult = VerifyResult(ok: bool, token: Option<string>, error: Option<string>)

  /** `hmac.compare_digest` raises TypeError on a non-ASCII text; nothing catches it. */
  datatype Outcome = Returned(result: VerifyResult) | RaisedTypeError

  datatype Ticket = Ticket(token: string, nonce: string, ts: int)

  /** What the checks that read no shared state conclude. */
  datatype Gate = Stop(outcome: Outcome) | Reached(ticket: Ticket)

  datatype Config = Config(crypto: Crypto, secret: string, skew: int, ttl: int)

  /** Header names in lower case; a later header overrides an earlier one of the same name. */
  function Lowered(headers: seq<(string, string)>): map<string, string> {
    if headers == [] then map[]
    else
      var last := headers[|headers| - 1];
      Lowered(headers[..|headers| - 1])[Lower(last.0) := last.1]
  }

  /** An absent header and an empty one are refused alike, so both read as the empty text. */
  function Header(h: map<string, string>, name: string): string {
    if Lower(name) in h then h[Lower(name)] else ""
  }

  function Refused(token: Option<string>, error: string): Outcome {
    Returned(VerifyResult(false, token, Some(error)))
  }

  function Distance(a: int, b: int): int { if a >= b then a - b else b - a }

  function CheckStateless(cfg: Config, req: Request, now: int): Gate {
    var h := Lowered(req.headers);
    var token, timestamp := Header(h, H_TOKEN), Header(h, H_TIMESTAMP);
    var nonce, signature := Header(h, H_NONCE), Header(h, H_SIGNATURE);
    if token == "" || timestamp == "" || nonce == "" || signature == "" then
      Stop(Refused(None, "missing auth headers"))
    else match ReadInt(timestamp)
      case None => Stop(Refused(None, "bad timestamp"))
      case Some(ts) =>
        if Distance(now, ts) > cfg.skew then
          Stop(Refused(Some(token), "timestamp outside allowed skew"))
        else if !IsAscii(signature) then
          Stop(RaisedTypeError)
        else if cfg.crypto.hmac(cfg.secret, SignedText(cfg, req)) != signature then
          Stop(Refused(Some(token), "bad signature"))
        else
          Reached(Ticket(token, nonce, ts))
  }

  /** The signed string that the verifier rebuilds from a presented request. */
  function SignedText(cfg: Config, req: Request): string {
    var h := Lowered(req.headers);
    SignedString(cfg.crypto, Header(h, H_TOKEN), Header(h, H_TIMESTAMP), Header(h, H_NONCE),
                 req.verb, req.path, req.body)
  }

  // ----- the nonce cache -----

  function Evicted(store: map<string, int>, ttl: int, now: int): map<string, int> {
    map n | n in store && now - store[n] <= ttl :: store[n]
  }

  function Recorded(store: map<string, int>, ttl: int, nonce: string, ts: int): map<string, int> {
    Evicted(store, ttl, ts)[nonce := ts]
  }

  class NonceCache {
    const ttl: int
    var store: map<string, int>

    constructor (ttl: int := DEFAULT_MAX_SKEW * 2)
      ensures this.ttl == ttl && store == map[]
    {
      this.ttl := ttl;
      store := map[];
    }

    method Evict(now: int)
      modifies this
      ensures store == Evicted(old(store), ttl, now)
    {
      var expired := set n | n in store && now - store[n] > ttl;
      ghost var all := expired;
      while expired != {}
        invariant expired <= all
        invariant store == old(store) - (all - expired)
      {
        var n :| n in expired;
        store := store - {n};
        expired := expired - {n};
      }
    }

    predicate Seen(nonce: string)
      reads this
    {
      nonce in store
    }

    method Add(nonce: string, ts: int)
      modifies this
      ensures store == Recorded(old(store), ttl, nonce, ts)
    {
      Evict(ts);
      store := store[nonce := ts];
    }
  }

  /** One verification against a store: the answer and the store it leaves. */
  function Verify(cfg: Config, store: map<string, int>, req: Request, now: int): (Outcome, map<string, int>) {
    match CheckStateless(cfg, req, now)
    case Stop(o) => (o, store)
    case Reached(t) =>
      if t.nonce in store then (Refused(Some(t.token), "nonce replay detected"), store)
      else (Returned(VerifyResult(true, Some(t.token), None)), Recorded(store, cfg.ttl, t.nonce, t.ts))
  }

  method VerifyRequest(cfg: Config, req: Request, seenNonce: NonceCache?, now: int) returns (o: Outcome)
    requires seenNonce != null ==> seenNonce.ttl == cfg.ttl
    modifies seenNonce
    ensures seenNonce != null ==> (o, seenNonce.store) == Verify(cfg, old(seenNonce.store), req, now)
    ensures seenNonce == null ==> o == Verify(cfg, map[], req, now).0
  {
    match CheckStateless(cfg, req, now) {
      case Stop(early) => return early;
      case Reached(t) =>
        if seenNonce != null {
          if seenNonce.Seen(t.nonce) {
            return Refused(Some(t.token), "nonce replay detected");
          }
          seenNonce.Add(t.nonce, t.ts);
        }
        return Returned(VerifyResult(true, Some(t.token), None));
    }
  }

  // ----- the signed string has a left inverse -----

  datatype Signed = Signed(
    token: string, timestamp: string, nonce: string, verb: string, path: string, bodyHash: string)

  function Cut(s: string): Option<(string, string)> {
    if s == "" then None
    else if s[0] == '&' then Some(("", s[1..]))
    else
      var (a, b) :- Cut(s[1..]);
      Some(([s[0]] + a, b))
  }

  function ParseSigned(s: string): Option<Signed> {
    var (token, r1) :- Cut(s);
    var (timestamp, r2) :- Cut(r1);
    var (nonce, r3) :- Cut(r2);
    var (verb, r4) :- Cut(r3);
    if |r4| < 65 then None
    else Some(Signed(token, timestamp, nonce, verb, r4[..|r4| - 65], r4[|r4| - 64..]))
  }

  lemma {:induction false} CutUndoesJoin(a: string, b: string)
    requires '&' !in a
    ensures Cut(a + "&" + b) == Some((a, b))
  {
    if a == "" {
      assert (a + "&" + b)[1..] == b;
    } else {
      CutUndoesJoin(a[1..], b);
      assert (a + "&" + b)[1..] == a[1..] + "&" + b;
      assert [a[0]] + a[1..] == a;
    }
  }

  /** Parsing recovers every component; the path may hold any character. */
  lemma ParseUndoesSignedString(
    c: Crypto, token: string, timestamp: string, nonce: string, verb: string, path: string, body: seq<byte>
  )
    requires '&' !in token && '&' !in timestamp && '&' !in nonce && '&' !in verb
    ensures ParseSigned(SignedString(c, token, timestamp, nonce, verb, path, body))
         == Some(Signed(token, timestamp, nonce, Upper(verb), path, c.bodyHash(body)))
  {
    var hash := c.bodyHash(body);
    var r4 := path + "&" + hash;
    var r3 := Upper(verb) + "&" + r4;
    var r2 := nonce + "&" + r3;
    var r1 := timestamp + "&" + r2;
    CutUndoesJoin(token, r1);
    CutUndoesJoin(timestamp, r2);
    CutUndoesJoin(nonce, r3);
    CutUndoesJoin(Upper(verb), r4);
    assert r4[..|r4| - 65] == path && r4[|r4| - 64..] == hash;
  }

  /** Without the side condition two different requests can share one signed string. */
  lemma SignedStringAmbiguous(c: Crypto, path: string, body: seq<byte>)
    ensures SignedString(c, "t&1", "2", "n", "GET", path, body) == SignedString(c, "t", "1", "2&n", "GET", path, body)
  {
  }

  // ----- when the signed string is unambiguous -----

  /** The four components signed before the path. */
  datatype Lead = Lead(token: string, timestamp: string, nonce: string, verb: string)

  function SignedLead(c: Crypto, a: Lead, path: string, body: seq<byte>): string {
    SignedString(c, a.token, a.timestamp, a.nonce, a.verb, path, body)
  }

  predicate PlainLead(a: Lead) { '&' !in a.token && '&' !in a.timestamp && '&' !in a.nonce && '&' !in a.verb }

  predicate SameLead(a: Lead, b: Lead) {
    a.token == b.token && a.timestamp == b.timestamp && a.nonce == b.nonce && Upper(a.verb) == Upper(b.verb)
  }

  function Ampersands(s: string): nat { multiset(s)['&'] }

  function LeadAmpersands(a: Lead): nat {
    Ampersands(a.token) + Ampersands(a.timestamp) + Ampersands(a.nonce) + Ampersands(Upper(a.verb))
  }

  lemma JoinAmpersands(a: string, b: string)
    ensures Ampersands(a + "&" + b) == Ampersands(a) + 1 + Ampersands(b)
  {
  }

  lemma SignedAmpersands(c: Crypto, a: Lead, path: string, body: seq<byte>)
    ensures Ampersands(SignedLead(c, a, path, body))
         == LeadAmpersands(a) + Ampersands(path) + Ampersands(c.bodyHash(body)) + 5
  {
    var hash := c.bodyHash(body);
    JoinAmpersands(path, hash);
    JoinAmpersands(Upper(a.verb), path + "&" + hash);
    JoinAmpersands(a.nonce, Upper(a.verb) + "&" + (path + "&" + hash));
    JoinAmpersands(a.timestamp, a.nonce + "&" + (Upper(a.verb) + "&" + (path + "&" + hash)));
    JoinAmpersands(a.token, a.timestamp + "&" + (a.nonce + "&" + (Upper(a.verb) + "&" + (path + "&" + hash))));
  }

  lemma SignedEndsWithHash(c: Crypto, a: Lead, path: string, body: seq<byte>)
    ensures var text := SignedLead(c, a, path, body);
            |text| >= 64 && text[|text| - 64..] == c.bodyHash(body)
  {
  }

  lemma UpperKeepsAmpersands(s: string)
    ensures '&' in s <==> '&' in Upper(s)
  {
    forall i | 0 <= i < |s|
      ensures s[i] == '&' <==> Upper(s)[i] == '&'
    {
    }
  }

  lemma PlainIffNoAmpersands(a: Lead)
    ensures PlainLead(a) <==> LeadAmpersands(a) == 0
  {
    UpperKeepsAmpersands(a.verb);
  }

  lemma SameTextSameHash(c: Crypto, a: Lead, path: string, body: seq<byte>, b: Lead, path': string, body': seq<byte>)
    requires SignedLead(c, b, path', body') == SignedLead(c, a, path, body)
    ensures c.bodyHash(body') == c.bodyHash(body)
  {
    SignedEndsWithHash(c, a, path, body);
    SignedEndsWithHash(c, b, path', body');
  }

  lemma SameTextSameAmpersands(c: Crypto, a: Lead, path: string, body: seq<byte>, b: Lead, path': string, body': seq<byte>)
    requires SignedLead(c, b, path', body') == SignedLead(c, a, path, body) && c.bodyHash(body') == c.bodyHash(body)
    ensures LeadAmpersands(b) + Ampersands(path') == LeadAmpersands(a) + Ampersands(path)
  {
    SignedAmpersands(c, a, path, body);
    SignedAmpersands(c, b, path', body');
  }

  /** Whatever signs to the text of a plain list is plain itself, unless the path gives an `&` away. */
  lemma PlainForcesPlain(c: Crypto, a: Lead, path: string, body: seq<byte>, b: Lead, path': string, body': seq<byte>)
    requires PlainLead(a) && SignedLead(c, b, path', body') == SignedLead(c, a, path, body)
    requires '&' !in path || path' == path
    ensures PlainLead(b)
  {
    SameTextSameHash(c, a, path, body, b, path', body');
    SameTextSameAmpersands(c, a, path, body, b, path', body');
    PlainIffNoAmpersands(a);
    PlainIffNoAmpersands(b);
  }

  lemma ParsePlain(c: Crypto, a: Lead, path: string, body: seq<byte>)
    requires PlainLead(a)
    ensures ParseSigned(SignedLead(c, a, path, body))
         == Some(Signed(a.token, a.timestamp, a.nonce, Upper(a.verb), path, c.bodyHash(body)))
  {
    ParseUndoesSignedString(c, a.token, a.timestamp, a.nonce, a.verb, path, body);
  }

  lemma UpperJoins(x: string, y: string)
    ensures Upper(x + "&" + y) == Upper(x) + "&" + Upper(y) && Upper(Upper(y)) == Upper(y)
  {
    assert UpperChar('&') == '&';
    assert Upper(x + "&" + y)[..|x|] == Upper(x);
  }

  lemma JoinAssociates(x: string, y: string, z: string)
    ensures (x + "&" + y) + "&" + z == x + "&" + (y + "&" + z)
  {
  }

  lemma SplitAt(s: string) returns (x: string, y: string)
    requires '&' in s
    ensures s == x + "&" + y
  {
    var i :| 0 <= i < |s| && s[i] == '&';
    x, y := s[..i], s[i + 1..];
  }

  /** A list that is not plain shares its text with another one: move the boundary to the `&` inside a component. */
  lemma Resplit(c: Crypto, a: Lead, path: string, body: seq<byte>) returns (b: Lead)
    requires !PlainLead(a)
    ensures SignedLead(c, b, path, body) == SignedLead(c, a, path, body) && !SameLead(a, b)
  {
    var r4 := path + "&" + c.bodyHash(body);
    var r3 := Upper(a.verb) + "&" + r4;
    var r2 := a.nonce + "&" + r3;
    if '&' in a.token {
      var x, y := SplitAt(a.token);
      b := a.(token := x, timestamp := y + "&" + a.timestamp);
      JoinAssociates(x, y, a.timestamp + "&" + r2);
      JoinAssociates(y, a.timestamp, r2);
    } else if '&' in a.timestamp {
      var x, y := SplitAt(a.timestamp);
      b := a.(token := a.token + "&" + x, timestamp := y);
      JoinAssociates(x, y, r2);
      JoinAssociates(a.token, x, y + "&" + r2);
    } else if '&' in a.nonce {
      var x, y := SplitAt(a.nonce);
      b := a.(timestamp := a.timestamp + "&" + x, nonce := y);
      JoinAssociates(x, y, r3);
      JoinAssociates(a.timestamp, x, y + "&" + r3);
    } else {
      var x, y := SplitAt(a.verb);
      b := a.(nonce := a.nonce + "&" + Upper(x), verb := Upper(y));
      UpperJoins(x, y);
      JoinAssociates(Upper(x), Upper(y), r4);
      JoinAssociates(a.nonce, Upper(x), Upper(y) + "&" + r4);
    }
  }

  // ----- the path can give a boundary away -----

  /** A part of the path between separators, followed by one, that upper-casing leaves alone: it can pass for a method. */
  predicate MethodLike(path: string, i: nat, j: nat) {
    i <= j < |path| && path[j] == '&' && (i == 0 || path[i - 1] == '&') && Upper(path[i..j]) == path[i..j]
  }

  predicate Resplittable(path: string) { exists i: nat, j: nat | i <= j < |path| :: MethodLike(path, i, j) }

  function Joined(a: Lead): string { a.token + "&" + (a.timestamp + "&" + (a.nonce + "&" + Upper(a.verb))) }

  lemma JoinedAmpersands(a: Lead)
    ensures Ampersands(Joined(a)) == LeadAmpersands(a) + 3
  {
    JoinAmpersands(a.nonce, Upper(a.verb));
    JoinAmpersands(a.timestamp, a.nonce + "&" + Upper(a.verb));
    JoinAmpersands(a.token, a.timestamp + "&" + (a.nonce + "&" + Upper(a.verb)));
  }

  lemma SignedIsJoined(c: Crypto, a: Lead, path: string, body: seq<byte>)
    ensures SignedLead(c, a, path, body) == (Joined(a) + "&" + path) + "&" + c.bodyHash(body)
  {
    var r4 := path + "&" + c.bodyHash(body);
    JoinAssociates(Joined(a), path, c.bodyHash(body));
    JoinAssociates(a.nonce, Upper(a.verb), r4);
    JoinAssociates(a.timestamp, a.nonce + "&" + Upper(a.verb), r4);
    JoinAssociates(a.token, a.timestamp + "&" + (a.nonce + "&" + Upper(a.verb)), r4);
  }

  lemma SameTextSameFront(c: Crypto, a: Lead, path: string, body: seq<byte>, b: Lead, path': string, body': seq<byte>)
    requires SignedLead(c, b, path', body') == SignedLead(c, a, path, body)
    ensures Joined(b) + "&" + path' == Joined(a) + "&" + path
  {
    SignedIsJoined(c, a, path, body);
    SignedIsJoined(c, b, path', body');
    var text, x, y := SignedLead(c, a, path, body), Joined(a) + "&" + path, Joined(b) + "&" + path';
    assert x == text[..|text| - 65] && y == text[..|text| - 65];
  }

  lemma PrefixAmpersands(s: string, n: nat)
    requires n <= |s|
    ensures Ampersands(s[..n]) <= Ampersands(s)
  {
    assert s == s[..n] + s[n..];
  }

  /** With more separators in front of its path, one reading's lead reaches into the other's path, up to a separator. */
  lemma LongerLead(x: string, path: string, y: string, path': string) returns (j: nat)
    requires y + "&" + path' == x + "&" + path && Ampersands(y) > Ampersands(x)
    ensures j < |path| && path[j] == '&' && y == x + "&" + path[..j]
  {
    var text := x + "&" + path;
    assert y == text[..|y|] && text[|y|] == '&';
    if |y| <= |x| {
      assert y == x[..|y|];
      PrefixAmpersands(x, |y|);
    }
    j := |y| - |x| - 1;
    assert path[j] == text[|y|];
  }

  lemma JoinedEnds(a: Lead) returns (r: string)
    ensures Joined(a) == r + "&" + Upper(a.verb)
  {
    r := a.token + "&" + (a.timestamp + "&" + a.nonce);
    JoinAssociates(a.timestamp, a.nonce, Upper(a.verb));
    JoinAssociates(a.token, a.timestamp + "&" + a.nonce, Upper(a.verb));
  }

  lemma UpperEnds(verb: string, k: nat)
    requires k <= |verb|
    ensures Upper(Upper(verb)[k..]) == Upper(verb)[k..]
  {
  }

  /** The end of an upper-cased method that lies in the path is method-like. */
  lemma MethodInPath(x: string, path: string, j: nat, r: string, verb: string)
    requires j < |path| && path[j] == '&' && x + "&" + path[..j] == r + "&" + Upper(verb)
    ensures Resplittable(path)
  {
    var y, start := x + "&" + path[..j], |r| + 1;
    assert y[start..] == Upper(verb) && y[|r|] == '&';
    var i := if start > |x| + 1 then start - |x| - 1 else 0;
    var k := |x| + 1 + i - start;
    UpperEnds(verb, k);
    assert path[i..j] == y[|x| + 1 + i..] == Upper(verb)[k..];
    assert i > 0 ==> path[i - 1] == y[|r|];
    assert MethodLike(path, i, j);
  }

  lemma MoreAmpersands(a: Lead, b: Lead)
    requires PlainLead(a) && !PlainLead(b)
    ensures Ampersands(Joined(b)) > Ampersands(Joined(a))
  {
    JoinedAmpersands(a);
    JoinedAmpersands(b);
    PlainIffNoAmpersands(a);
    PlainIffNoAmpersands(b);
  }

  lemma LongerLeadResplits(x: string, path: string, r: string, verb: string, path': string)
    requires (r + "&" + Upper(verb)) + "&" + path' == x + "&" + path && Ampersands(r + "&" + Upper(verb)) > Ampersands(x)
    ensures Resplittable(path)
  {
    var j := LongerLead(x, path, r + "&" + Upper(verb), path');
    MethodInPath(x, path, j, r, verb);
  }

  lemma OtherLeadResplits(a: Lead, path: string, b: Lead, path': string)
    requires PlainLead(a) && !PlainLead(b) && Joined(b) + "&" + path' == Joined(a) + "&" + path
    ensures Resplittable(path)
  {
    MoreAmpersands(a, b);
    var r := JoinedEnds(b);
    LongerLeadResplits(Joined(a), path, r, b.verb, path');
  }

  /** A text that a plain list signs reads in another way only if its path is resplittable. */
  lemma OtherReadingResplits(c: Crypto, a: Lead, path: string, body: seq<byte>, b: Lead, path': string, body': seq<byte>)
    requires PlainLead(a) && !PlainLead(b) && SignedLead(c, b, path', body') == SignedLead(c, a, path, body)
    ensures Resplittable(path)
  {
    SameTextSameFront(c, a, path, body, b, path', body');
    OtherLeadResplits(a, path, b, path');
  }

  /** Plain components and a path that is not resplittable fix every component of the text. */
  lemma TextDetermines(c: Crypto, a: Lead, path: string, body: seq<byte>, b: Lead, path': string, body': seq<byte>)
    requires PlainLead(a) && !Resplittable(path) && SignedLead(c, b, path', body') == SignedLead(c, a, path, body)
    ensures SameLead(a, b) && path' == path && c.bodyHash(body') == c.bodyHash(body)
  {
    if !PlainLead(b) {
      OtherReadingResplits(c, a, path, body, b, path', body');
    }
    ParsePlain(c, a, path, body);
    ParsePlain(c, b, path', body');
  }

  /** What stands before a method-like part of the path, read as part of the nonce. */
  function LongerNonce(a: Lead, path: string, i: nat): string
    requires i <= |path|
  {
    a.nonce + "&" + if i == 0 then Upper(a.verb) else Upper(a.verb) + "&" + path[..i - 1]
  }

  /** The other reading: the same token and timestamp, a longer nonce, the part of the path as method, the rest as path. */
  lemma ResplitPath(c: Crypto, a: Lead, path: string, body: seq<byte>, i: nat, j: nat)
    requires i <= j < |path| && MethodLike(path, i, j)
    ensures var b := a.(nonce := LongerNonce(a, path, i), verb := path[i..j]);
            SignedLead(c, b, path[j + 1..], body) == SignedLead(c, a, path, body) && b.nonce != a.nonce
  {
    var verb, part, rest, hash := Upper(a.verb), path[i..j], path[j + 1..], c.bodyHash(body);
    assert |LongerNonce(a, path, i)| > |a.nonce|;
    JoinAssociates(part, rest, hash);
    if i == 0 {
      assert path == part + "&" + rest;
      JoinAssociates(a.nonce, verb, part + "&" + (rest + "&" + hash));
    } else {
      var pre := path[..i - 1];
      assert path == pre + "&" + (part + "&" + rest);
      JoinAssociates(pre, part + "&" + rest, hash);
      JoinAssociates(verb, pre, part + "&" + (rest + "&" + hash));
      JoinAssociates(a.nonce, verb + "&" + pre, part + "&" + (rest + "&" + hash));
    }
  }

  /**
   The signed text fixes the four components in front of a known path exactly when none of them holds an `&`. It
   fixes them and the path, whatever path and body are presented, exactly when moreover the path is not resplittable.
   */
  lemma UnambiguousIff(c: Crypto, a: Lead, path: string, body: seq<byte>)
    ensures (forall b: Lead | SignedLead(c, b, path, body) == SignedLead(c, a, path, body) :: SameLead(a, b)) <==> PlainLead(a)
    ensures (forall b: Lead, path': string, body': seq<byte> | SignedLead(c, b, path', body') == SignedLead(c, a, path, body) ::
               SameLead(a, b) && path' == path)
            <==> PlainLead(a) && !Resplittable(path)
  {
    if PlainLead(a) {
      forall b: Lead | SignedLead(c, b, path, body) == SignedLead(c, a, path, body)
        ensures SameLead(a, b)
      {
        PlainForcesPlain(c, a, path, body, b, path, body);
        ParsePlain(c, a, path, body);
        ParsePlain(c, b, path, body);
      }
      if Resplittable(path) {
        var i: nat, j: nat :| i <= j < |path| && MethodLike(path, i, j);
        ResplitPath(c, a, path, body, i, j);
      } else {
        forall b: Lead, path': string, body': seq<byte> | SignedLead(c, b, path', body') == SignedLead(c, a, path, body)
          ensures SameLead(a, b) && path' == path
        {
          TextDetermines(c, a, path, body, b, path', body');
        }
      }
    } else {
      var b := Resplit(c, a, path, body);
    }
  }

  // ----- a signed request verifies -----

  predicate Carries(h: map<string, string>, signed: seq<(string, string)>) {
    forall kv | kv in signed :: Lower(kv.0) in h && h[Lower(kv.0)] == kv.1
  }

  lemma HeaderNamesDiffer()
    ensures Lower(H_TOKEN) != Lower(H_NONCE) && Lower(H_TIMESTAMP) != Lower(H_SIGNATURE)
    ensures |H_TOKEN| == |H_NONCE| != |H_TIMESTAMP| == |H_SIGNATURE|
  {
    assert Lower(H_TOKEN)[5] != Lower(H_NONCE)[5];
    assert Lower(H_TIMESTAMP)[5] != Lower(H_SIGNATURE)[5];
  }

  /** The four headers survive any re-casing of their names, whatever headers come before them. */
  lemma RecasedHeadersCarry(signed: seq<(string, string)>, extra: seq<(string, string)>, sent: seq<(string, string)>)
    requires |signed| == |sent| == 4
    requires signed[0].0 == H_TOKEN && signed[1].0 == H_TIMESTAMP && signed[2].0 == H_NONCE && signed[3].0 == H_SIGNATURE
    requires forall i | 0 <= i < 4 :: Lower(sent[i].0) == Lower(signed[i].0) && sent[i].1 == signed[i].1
    ensures Carries(Lowered(extra + sent), signed)
  {
    HeaderNamesDiffer();
    var all := extra + sent;
    var n := |extra|;
    assert all[..n + 4] == all && all[..n] == extra;
    assert all[..n + 4][..n + 3] == all[..n + 3] && all[..n + 3][..n + 2] == all[..n + 2];
    assert all[..n + 2][..n + 1] == all[..n + 1] && all[..n + 1][..n] == all[..n];
    assert Lowered(all[..n + 1]) == Lowered(extra)[Lower(sent[0].0) := sent[0].1];
    assert Lowered(all[..n + 2]) == Lowered(all[..n + 1])[Lower(sent[1].0) := sent[1].1];
    assert Lowered(all[..n + 3]) == Lowered(all[..n + 2])[Lower(sent[2].0) := sent[2].1];
    assert Lowered(all) == Lowered(all[..n + 3])[Lower(sent[3].0) := sent[3].1];
  }

  /** As an HTTP stack hands them on, with their names in lower case. */
  lemma LowerCaseHeadersCarry(token: string, timestamp: string, nonce: string, signature: string)
    ensures Carries(Lowered([("auth-token", token), ("auth-timestamp", timestamp), ("auth-nonce", nonce), ("auth-signature", signature)]),
                    [(H_TOKEN, token), (H_TIMESTAMP, timestamp), (H_NONCE, nonce), (H_SIGNATURE, signature)])
  {
    var signed := [(H_TOKEN, token), (H_TIMESTAMP, timestamp), (H_NONCE, nonce), (H_SIGNATURE, signature)];
    var sent := [("auth-token", token), ("auth-timestamp", timestamp), ("auth-nonce", nonce), ("auth-signature", signature)];
    assert Lower("auth-token") == Lower(H_TOKEN) && Lower("auth-timestamp") == Lower(H_TIMESTAMP);
    assert Lower("auth-nonce") == Lower(H_NONCE) && Lower("auth-signature") == Lower(H_SIGNATURE);
    RecasedHeadersCarry(signed, [], sent);
    assert [] + sent == sent;
  }

  lemma CarriedHeaders(h: map<string, string>, signed: seq<(string, string)>)
    requires |signed| == 4 && Carries(h, signed)
    requires signed[0].0 == H_TOKEN && signed[1].0 == H_TIMESTAMP && signed[2].0 == H_NONCE && signed[3].0 == H_SIGNATURE
    ensures Header(h, H_TOKEN) == signed[0].1 && Header(h, H_TIMESTAMP) == signed[1].1
    ensures Header(h, H_NONCE) == signed[2].1 && Header(h, H_SIGNATURE) == signed[3].1
  {
    assert signed[0] in signed && signed[1] in signed && signed[2] in signed && signed[3] in signed;
  }

  lemma SignedRequestReachesCache(
    cfg: Config, token: string, verb: string, timestamp: int, nonce: string, req: Request, now: int
  )
    requires token != "" && nonce != ""
    requires Carries(Lowered(req.headers), SignRequest(cfg.crypto, token, cfg.secret, verb, req.path, req.body, timestamp, nonce))
    requires Upper(req.verb) == Upper(verb)
    requires Distance(now, timestamp) <= cfg.skew
    ensures CheckStateless(cfg, req, now) == Reached(Ticket(token, nonce, timestamp))
  {
    var signed := SignRequest(cfg.crypto, token, cfg.secret, verb, req.path, req.body, timestamp, nonce);
    var h := Lowered(req.headers);
    CarriedHeaders(h, signed);
    assert SignedText(cfg, req) == SignedString(cfg.crypto, token, IntText(timestamp), nonce, verb, req.path, req.body);
    ReadIntOfIntText(timestamp);
  }

  /** Sign then verify succeeds for every nonempty token and nonce, in-skew timestamp, unseen nonce and header casing. */
  lemma VerifyAcceptsSigned(
    cfg: Config, store: map<string, int>, token: string, verb: string, timestamp: int, nonce: string,
    req: Request, now: int
  )
    requires token != "" && nonce != "" && nonce !in store
    requires Carries(Lowered(req.headers), SignRequest(cfg.crypto, token, cfg.secret, verb, req.path, req.body, timestamp, nonce))
    requires Upper(req.verb) == Upper(verb)
    requires Distance(now, timestamp) <= cfg.skew
    ensures Verify(cfg, store, req, now).0 == Returned(VerifyResult(true, Some(token), None))
    ensures Verify(cfg, store, req, now).1 == Recorded(store, cfg.ttl, nonce, timestamp)
  {
    SignedRequestReachesCache(cfg, token, verb, timestamp, nonce, req, now);
  }

  // ----- when verification raises -----

  predicate Present(h: map<string, string>, name: string) { Lower(name) in h && h[Lower(name)] != "" }

  predicate HasAllHeaders(req: Request) {
    var h := Lowered(req.headers);
    Present(h, H_TOKEN) && Present(h, H_TIMESTAMP) && Present(h, H_NONCE) && Present(h, H_SIGNATURE)
  }

  /** The timestamp reads as an integer no further than the skew from the clock. */
  predicate Timely(cfg: Config, req: Request, now: int) {
    var ts := ReadInt(Header(Lowered(req.headers), H_TIMESTAMP));
    ts.Some? && -cfg.skew <= now - ts.value <= cfg.skew
  }

  /** The signature presented is the HMAC of the presented components under the configured secret. */
  predicate SignedRight(cfg: Config, req: Request) {
    var h := Lowered(req.headers);
    Header(h, H_SIGNATURE)
      == cfg.crypto.hmac(cfg.secret, SignedString(cfg.crypto, Header(h, H_TOKEN), Header(h, H_TIMESTAMP), Header(h, H_NONCE),
                                                  req.verb, req.path, req.body))
  }

  /** A request is accepted exactly if it is complete, timely, rightly signed and its nonce is not stored; only then the store changes. */
  lemma AcceptsIff(cfg: Config, store: map<string, int>, req: Request, now: int)
    ensures var (o, store') := Verify(cfg, store, req, now);
            var h := Lowered(req.headers);
            && (o.Returned? && o.result.ok <==>
                HasAllHeaders(req) && Timely(cfg, req, now) && SignedRight(cfg, req) && Header(h, H_NONCE) !in store)
            && (o.Returned? && o.result.ok ==> o.result.token == Some(Header(h, H_TOKEN)) && o.result.error == None)
            && (!(o.Returned? && o.result.ok) ==> store' == store)
  {
  }

  /** Every refusal says the first thing that is wrong, and names the token once the clock has been checked. */
  lemma RefusesIff(cfg: Config, store: map<string, int>, req: Request, now: int)
    ensures var o := Verify(cfg, store, req, now).0;
            var h := Lowered(req.headers);
            var token, readable := Some(Header(h, H_TOKEN)), ReadInt(Header(h, H_TIMESTAMP)).Some?;
            var late := HasAllHeaders(req) && readable && !Timely(cfg, req, now);
            var timely := HasAllHeaders(req) && Timely(cfg, req, now);
            && (o == Refused(None, "missing auth headers") <==> !HasAllHeaders(req))
            && (o == Refused(None, "bad timestamp") <==> HasAllHeaders(req) && !readable)
            && (o == Refused(token, "timestamp outside allowed skew") <==> late)
            && (o == Refused(token, "bad signature") <==>
                timely && !SignedRight(cfg, req) && forall c | c in Header(h, H_SIGNATURE) :: c < 128 as char)
            && (o == Refused(token, "nonce replay detected") <==> timely && SignedRight(cfg, req) && Header(h, H_NONCE) in store)
  {
    assert "bad timestamp"[4] != "bad signature"[4];
    assert |"missing auth headers"| == 20 && |"bad timestamp"| == 13 && |"timestamp outside allowed skew"| == 30;
    assert |"bad signature"| == 13 && |"nonce replay detected"| == 21;
  }

  /** It raises exactly when a request gets as far as the comparison with a signature that is not ASCII. */
  lemma RaisesIff(cfg: Config, store: map<string, int>, req: Request, now: int)
    ensures var h := Lowered(req.headers);
            var ts := ReadInt(Header(h, H_TIMESTAMP));
            Verify(cfg, store, req, now).0 == RaisedTypeError <==>
            HasAllHeaders(req) && ts.Some? && Distance(now, ts.value) <= cfg.skew && !IsAscii(Header(h, H_SIGNATURE))
  {
  }

  /** A signed request in skew raises as soon as its signature is replaced by a text that is not ASCII. */
  lemma NonAsciiSignatureRaises(
    cfg: Config, store: map<string, int>, token: string, verb: string, timestamp: int, nonce: string,
    req: Request, signature: string, now: int
  )
    requires token != "" && nonce != "" && !IsAscii(signature) && Distance(now, timestamp) <= cfg.skew
    requires req.headers == SignRequest(cfg.crypto, token, cfg.secret, verb, req.path, req.body, timestamp, nonce)[..3]
                            + [(H_SIGNATURE, signature)]
    ensures Verify(cfg, store, req, now).0 == RaisedTypeError
  {
    var signed := req.headers;
    assert Carries(Lowered(signed), signed) by {
      assert [] + signed == signed;
      RecasedHeadersCarry(signed, [], signed);
    }
    CarriedHeaders(Lowered(signed), signed);
    ReadIntOfIntText(timestamp);
    assert signature != "";
    RaisesIff(cfg, store, req, now);
  }
}
