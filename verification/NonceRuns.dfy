/**
 Whole runs of the request verifier: what single-use nonces give, and why the cache's time to
 live must be twice the allowed clock skew.
 */
module NonceRuns {
  import opened Wrappers
  import opened Text
  import opened HmacAuth

  /** A request together with the verifier's clock when it is checked. */
  datatype Event = Event(req: Request, now: int)

  predicate Accepted(o: Outcome) { o.Returned? && o.result.ok }

  ghost predicate Monotone(es: seq<Event>) {
    forall i, j | 0 <= i < j < |es| :: es[i].now <= es[j].now
  }

  ghost predicate From(clock: int, es: seq<Event>) {
    Monotone(es) && forall i | 0 <= i < |es| :: clock <= es[i].now
  }

  /** Verification with the evicting cache, request after request. */
  function Run(cfg: Config, store: map<string, int>, es: seq<Event>): (os: seq<Outcome>)
    ensures |os| == |es|
    decreases |es|
  {
    if es == [] then []
    else
      var (o, next) := Verify(cfg, store, es[0].req, es[0].now);
      [o] + Run(cfg, next, es[1..])
  }

  /** The reference: every accepted nonce is remembered for ever. */
  function VerifyIdeal(cfg: Config, used: set<string>, req: Request, now: int): (Outcome, set<string>) {
    match CheckStateless(cfg, req, now)
    case Stop(o) => (o, used)
    case Reached(t) =>
      if t.nonce in used then (Refused(Some(t.token), "nonce replay detected"), used)
      else (Returned(VerifyResult(true, Some(t.token), None)), used + {t.nonce})
  }

  function RunIdeal(cfg: Config, used: set<string>, es: seq<Event>): (os: seq<Outcome>)
    ensures |os| == |es|
    decreases |es|
  {
    if es == [] then []
    else
      var (o, next) := VerifyIdeal(cfg, used, es[0].req, es[0].now);
      [o] + RunIdeal(cfg, next, es[1..])
  }

  /** The store after a run. */
  function Final(cfg: Config, store: map<string, int>, es: seq<Event>): map<string, int>
    decreases |es|
  {
    if es == [] then store
    else Final(cfg, Verify(cfg, store, es[0].req, es[0].now).1, es[1..])
  }

  /** The ticket of a genuine request: what the verifier extracts from it whenever the clock allows. */
  function TicketOf(cfg: Config, req: Request): Option<Ticket> {
    match ReadInt(Header(Lowered(req.headers), H_TIMESTAMP))
    case None => None
    case Some(ts) =>
      match CheckStateless(cfg.(skew := 0), req, ts)
      case Reached(t) => Some(t)
      case Stop(_) => None
  }

  lemma ReachedIffGenuineAndInSkew(cfg: Config, req: Request, now: int, t: Ticket)
    ensures CheckStateless(cfg, req, now) == Reached(t)
       <==> TicketOf(cfg, req) == Some(t) && Distance(now, t.ts) <= cfg.skew
  {
  }

  /** Among genuine requests of the run a nonce belongs to one timestamp. */
  ghost predicate NonceFixesTimestamp(cfg: Config, es: seq<Event>) {
    forall i, j | 0 <= i < |es| && 0 <= j < |es| ::
      var a, b := TicketOf(cfg, es[i].req), TicketOf(cfg, es[j].req);
      a.Some? && b.Some? && a.value.nonce == b.value.nonce ==> a.value.ts == b.value.ts
  }

  // ----- eviction is invisible -----

  /** What is no longer stored can no longer pass the clock check. */
  ghost predicate Covers(cfg: Config, store: map<string, int>, used: set<string>, clock: int, es: seq<Event>) {
    && store.Keys <= used
    && forall i | 0 <= i < |es| ::
         var t := TicketOf(cfg, es[i].req);
         t.Some? && t.value.nonce in used ==>
           (t.value.nonce in store && store[t.value.nonce] == t.value.ts) || t.value.ts < clock - cfg.skew
  }

  lemma CoversStep(cfg: Config, store: map<string, int>, used: set<string>, clock: int, es: seq<Event>)
    requires cfg.ttl >= 2 * cfg.skew
    requires es != [] && From(clock, es) && NonceFixesTimestamp(cfg, es) && Covers(cfg, store, used, clock, es)
    ensures var e := es[0];
            var (o, store') := Verify(cfg, store, e.req, e.now);
            var (o', used') := VerifyIdeal(cfg, used, e.req, e.now);
            o == o' && Covers(cfg, store', used', e.now, es[1..])
  {
  }

  lemma {:induction false} RunsAgree(cfg: Config, store: map<string, int>, used: set<string>, clock: int, es: seq<Event>)
    requires cfg.ttl >= 2 * cfg.skew
    requires From(clock, es) && NonceFixesTimestamp(cfg, es) && Covers(cfg, store, used, clock, es)
    ensures Run(cfg, store, es) == RunIdeal(cfg, used, es)
    decreases |es|
  {
    if es == [] {
    } else {
      CoversStep(cfg, store, used, clock, es);
      var e := es[0];
      RunsAgree(cfg, Verify(cfg, store, e.req, e.now).1, VerifyIdeal(cfg, used, e.req, e.now).1, e.now, es[1..]);
    }
  }

  /** With a time to live of twice the skew, eviction never changes an answer. */
  lemma EvictionInvisible(cfg: Config, es: seq<Event>)
    requires cfg.ttl >= 2 * cfg.skew
    requires Monotone(es) && NonceFixesTimestamp(cfg, es)
    ensures Run(cfg, map[], es) == RunIdeal(cfg, {}, es)
  {
    if es != [] {
      RunsAgree(cfg, map[], {}, es[0].now, es);
    }
  }

  // ----- no double accept -----

  ghost predicate Accepts(cfg: Config, store: map<string, int>, es: seq<Event>, i: nat, nonce: string, ts: int) {
    && i < |es| && Accepted(Run(cfg, store, es)[i])
    && TicketOf(cfg, es[i].req).Some?
    && TicketOf(cfg, es[i].req).value.nonce == nonce && TicketOf(cfg, es[i].req).value.ts == ts
  }

  ghost predicate DoubleAccept(cfg: Config, store: map<string, int>, es: seq<Event>) {
    exists i: nat, j: nat, nonce, ts ::
      i < j && Accepts(cfg, store, es, i, nonce, ts) && Accepts(cfg, store, es, j, nonce, ts)
  }

  lemma AcceptsLater(cfg: Config, store: map<string, int>, es: seq<Event>, i: nat, nonce: string, ts: int)
    requires 0 < i && es != []
    ensures Accepts(cfg, store, es, i, nonce, ts)
       <==> Accepts(cfg, Verify(cfg, store, es[0].req, es[0].now).1, es[1..], i - 1, nonce, ts)
  {
  }

  /** The pair is stored, or its timestamp is already out of skew. */
  predicate Spent(cfg: Config, store: map<string, int>, clock: int, nonce: string, ts: int) {
    (nonce in store && store[nonce] == ts) || ts < clock - cfg.skew
  }

  /** A spent pair is refused and stays spent. */
  lemma SpentStep(cfg: Config, store: map<string, int>, clock: int, e: Event, nonce: string, ts: int)
    requires cfg.ttl >= 2 * cfg.skew && clock <= e.now && Spent(cfg, store, clock, nonce, ts)
    ensures Spent(cfg, Verify(cfg, store, e.req, e.now).1, e.now, nonce, ts)
    ensures !Accepts(cfg, store, [e], 0, nonce, ts)
  {
  }

  lemma {:induction false} SpentStaysSpent(
    cfg: Config, store: map<string, int>, clock: int, es: seq<Event>, nonce: string, ts: int, i: nat
  )
    requires cfg.ttl >= 2 * cfg.skew && From(clock, es) && Spent(cfg, store, clock, nonce, ts)
    ensures !Accepts(cfg, store, es, i, nonce, ts)
    decreases |es|
  {
    if i < |es| {
      SpentStep(cfg, store, clock, es[0], nonce, ts);
      if i > 0 {
        AcceptsLater(cfg, store, es, i, nonce, ts);
        SpentStaysSpent(cfg, Verify(cfg, store, es[0].req, es[0].now).1, es[0].now, es[1..], nonce, ts, i - 1);
      } else {
        assert Run(cfg, store, es)[0] == Run(cfg, store, [es[0]])[0];
      }
    }
  }

  /** An accepted pair is spent from then on. */
  lemma AcceptSpends(cfg: Config, store: map<string, int>, es: seq<Event>, nonce: string, ts: int)
    requires Accepts(cfg, store, es, 0, nonce, ts)
    ensures Spent(cfg, Verify(cfg, store, es[0].req, es[0].now).1, es[0].now, nonce, ts)
  {
  }

  lemma {:induction false} NotAcceptedTwice(
    cfg: Config, store: map<string, int>, clock: int, es: seq<Event>, i: nat, j: nat, nonce: string, ts: int
  )
    requires cfg.ttl >= 2 * cfg.skew && From(clock, es) && i < j
    requires Accepts(cfg, store, es, i, nonce, ts)
    ensures !Accepts(cfg, store, es, j, nonce, ts)
    decreases |es|
  {
    var next := Verify(cfg, store, es[0].req, es[0].now).1;
    AcceptsLater(cfg, store, es, j, nonce, ts);
    if i == 0 {
      AcceptSpends(cfg, store, es, nonce, ts);
      SpentStaysSpent(cfg, next, es[0].now, es[1..], nonce, ts, j - 1);
    } else {
      AcceptsLater(cfg, store, es, i, nonce, ts);
      NotAcceptedTwice(cfg, next, es[0].now, es[1..], i - 1, j - 1, nonce, ts);
    }
  }

  // ----- the factor two is tight -----

  /** One honest signing. */
  datatype Signing = Signing(token: string, verb: string, path: string, body: seq<byte>, timestamp: int, nonce: string)

  function TextOf(c: Crypto, s: Signing): string {
    SignedString(c, s.token, IntText(s.timestamp), s.nonce, s.verb, s.path, s.body)
  }

  /** The request that carries a signing. */
  function RequestOf(cfg: Config, s: Signing): Request {
    Request(s.verb, s.path, SignRequest(cfg.crypto, s.token, cfg.secret, s.verb, s.path, s.body, s.timestamp, s.nonce), s.body)
  }

  function Ping(cfg: Config, ts: int, nonce: string): Request { RequestOf(cfg, Signing("t", "GET", "/v1/ping", [], ts, nonce)) }

  /** An early timestamp, a late one that evicts it, and the early one again, all at one instant. */
  function EvictingRun(cfg: Config, now: int): seq<Event> {
    var early, late := Event(Ping(cfg, now - cfg.skew, "a"), now), Event(Ping(cfg, now + cfg.skew, "b"), now);
    [early, late, early]
  }

  lemma SignedReachesCache(cfg: Config, s: Signing, now: int)
    requires s.token != "" && s.nonce != "" && Distance(now, s.timestamp) <= cfg.skew
    ensures CheckStateless(cfg, RequestOf(cfg, s), now) == Reached(Ticket(s.token, s.nonce, s.timestamp))
  {
    var req := RequestOf(cfg, s);
    assert [] + req.headers == req.headers;
    RecasedHeadersCarry(req.headers, [], req.headers);
    SignedRequestReachesCache(cfg, s.token, s.verb, s.timestamp, s.nonce, req, now);
  }

  /** If the middle event's timestamp evicts the first event's nonce, the third event repeats the first one's success. */
  lemma EvictedIsAccepted(cfg: Config, e: Event, middle: Event, t: Ticket, t': Ticket)
    requires e.now == middle.now && t'.ts - t.ts > cfg.ttl && t.nonce != t'.nonce
    requires CheckStateless(cfg, e.req, e.now) == Reached(t)
    requires CheckStateless(cfg, middle.req, middle.now) == Reached(t')
    ensures var os := Run(cfg, map[], [e, middle, e]);
            Accepted(os[0]) && Accepted(os[2])
  {
    assert [e, middle, e][1..] == [middle, e] && [middle, e][1..] == [e];
    var s1 := Verify(cfg, map[], e.req, e.now).1;
    var s2 := Verify(cfg, s1, middle.req, middle.now).1;
    assert s1 == map[t.nonce := t.ts] && s2 == map[t'.nonce := t'.ts];
    assert Run(cfg, map[], [e, middle, e])[2] == Run(cfg, s1, [middle, e])[1] == Run(cfg, s2, [e])[0];
  }

  /** The set that never forgets refuses it. */
  lemma RememberedIsRefused(cfg: Config, e: Event, middle: Event, t: Ticket, t': Ticket)
    requires CheckStateless(cfg, e.req, e.now) == Reached(t)
    requires CheckStateless(cfg, middle.req, middle.now) == Reached(t')
    ensures !Accepted(RunIdeal(cfg, {}, [e, middle, e])[2])
  {
    assert [e, middle, e][1..] == [middle, e] && [middle, e][1..] == [e];
    var u1 := VerifyIdeal(cfg, {}, e.req, e.now).1;
    var u2 := VerifyIdeal(cfg, u1, middle.req, middle.now).1;
    assert RunIdeal(cfg, {}, [e, middle, e])[2] == RunIdeal(cfg, u1, [middle, e])[1] == RunIdeal(cfg, u2, [e])[0];
  }

  lemma EvictedNonceReturns(cfg: Config, e: Event, middle: Event, t: Ticket, t': Ticket)
    requires e.now == middle.now && t'.ts - t.ts > cfg.ttl && t.nonce != t'.nonce
    requires CheckStateless(cfg, e.req, e.now) == Reached(t)
    requires CheckStateless(cfg, middle.req, middle.now) == Reached(t')
    ensures Monotone([e, middle, e]) && NonceFixesTimestamp(cfg, [e, middle, e])
    ensures DoubleAccept(cfg, map[], [e, middle, e])
    ensures Run(cfg, map[], [e, middle, e]) != RunIdeal(cfg, {}, [e, middle, e])
  {
    ReachedIffGenuineAndInSkew(cfg, e.req, e.now, t);
    ReachedIffGenuineAndInSkew(cfg, middle.req, middle.now, t');
    EvictedIsAccepted(cfg, e, middle, t, t');
    RememberedIsRefused(cfg, e, middle, t, t');
    assert Accepts(cfg, map[], [e, middle, e], 0, t.nonce, t.ts) && Accepts(cfg, map[], [e, middle, e], 2, t.nonce, t.ts);
  }

  lemma ShortTtlDoubleAccepts(cfg: Config, now: int)
    requires 0 <= cfg.skew && cfg.ttl < 2 * cfg.skew
    ensures Monotone(EvictingRun(cfg, now)) && NonceFixesTimestamp(cfg, EvictingRun(cfg, now))
    ensures DoubleAccept(cfg, map[], EvictingRun(cfg, now))
    ensures Run(cfg, map[], EvictingRun(cfg, now)) != RunIdeal(cfg, {}, EvictingRun(cfg, now))
  {
    SignedReachesCache(cfg, Signing("t", "GET", "/v1/ping", [], now - cfg.skew, "a"), now);
    SignedReachesCache(cfg, Signing("t", "GET", "/v1/ping", [], now + cfg.skew, "b"), now);
    var es := EvictingRun(cfg, now);
    assert "a" != "b" by { assert "a"[0] != "b"[0]; }
    EvictedNonceReturns(cfg, es[0], es[1], Ticket("t", "a", now - cfg.skew), Ticket("t", "b", now + cfg.skew));
  }

  /** Single use of (nonce, timestamp) holds in every run exactly when the time to live is at least twice the skew. */
  lemma SingleUseIffTtlTwiceSkew(cfg: Config)
    requires 0 <= cfg.skew
    ensures (forall es: seq<Event> | Monotone(es) :: !DoubleAccept(cfg, map[], es)) <==> cfg.ttl >= 2 * cfg.skew
  {
    if cfg.ttl >= 2 * cfg.skew {
      forall es: seq<Event> | Monotone(es)
        ensures !DoubleAccept(cfg, map[], es)
      {
        forall i: nat, j: nat, nonce, ts | i < j && Accepts(cfg, map[], es, i, nonce, ts)
          ensures !Accepts(cfg, map[], es, j, nonce, ts)
        {
          NotAcceptedTwice(cfg, map[], es[0].now, es, i, j, nonce, ts);
        }
      }
    } else {
      ShortTtlDoubleAccepts(cfg, 0);
    }
  }

  /** So does agreement with the cache that never forgets. */
  lemma EvictionInvisibleIffTtlTwiceSkew(cfg: Config)
    requires 0 <= cfg.skew
    ensures (forall es: seq<Event> | Monotone(es) && NonceFixesTimestamp(cfg, es) :: Run(cfg, map[], es) == RunIdeal(cfg, {}, es))
       <==> cfg.ttl >= 2 * cfg.skew
  {
    if cfg.ttl >= 2 * cfg.skew {
      forall es: seq<Event> | Monotone(es) && NonceFixesTimestamp(cfg, es)
        ensures Run(cfg, map[], es) == RunIdeal(cfg, {}, es)
      {
        EvictionInvisible(cfg, es);
      }
    } else {
      ShortTtlDoubleAccepts(cfg, 0);
    }
  }

  // ----- the store stays small -----

  ghost predicate Bounded(cfg: Config, store: map<string, int>, now: int) {
    forall n | n in store :: store[n] <= now + cfg.skew
  }

  /** Right after an accept every stored timestamp lies in [now - skew - ttl, now + skew]. */
  lemma {:induction false} StoreWindowAfterAccept(cfg: Config, store: map<string, int>, clock: int, es: seq<Event>)
    requires 0 <= cfg.ttl && es != [] && From(clock, es) && Bounded(cfg, store, clock)
    requires Accepted(Run(cfg, store, es)[|es| - 1])
    ensures forall n | n in Final(cfg, store, es) ::
              es[|es| - 1].now - cfg.skew - cfg.ttl <= Final(cfg, store, es)[n] <= es[|es| - 1].now + cfg.skew
    decreases |es|
  {
    var e := es[0];
    var next := Verify(cfg, store, e.req, e.now).1;
    assert Bounded(cfg, next, e.now);
    if |es| > 1 {
      assert es[1..][|es[1..]| - 1] == es[|es| - 1];
      StoreWindowAfterAccept(cfg, next, e.now, es[1..]);
    }
  }

  // ----- honest signers and replays -----

  predicate PlainSigning(s: Signing) { '&' !in s.token && '&' !in s.nonce && '&' !in s.verb }

  function LeadOf(s: Signing): Lead { Lead(s.token, IntText(s.timestamp), s.nonce, s.verb) }

  function PresentedLead(req: Request): Lead {
    var h := Lowered(req.headers);
    Lead(Header(h, H_TOKEN), Header(h, H_TIMESTAMP), Header(h, H_NONCE), req.verb)
  }

  /** Every genuine request of the run carries a text that an honest signer signed. */
  ghost predicate Unforged(cfg: Config, honest: set<Signing>, es: seq<Event>) {
    forall i | 0 <= i < |es| && TicketOf(cfg, es[i].req).Some? ::
      exists s :: s in honest && TextOf(cfg.crypto, s) == SignedText(cfg, es[i].req)
  }

  /** A signing whose text has no other reading. */
  predicate ClearSigning(s: Signing) { PlainSigning(s) && !Resplittable(s.path) }

  ghost predicate FreshNonces(honest: set<Signing>) {
    && (forall s | s in honest :: ClearSigning(s))
    && forall s, s' | s in honest && s' in honest && s.nonce == s'.nonce :: s == s'
  }

  /** Whoever presents the text of a clear signing repeats it component by component. */
  lemma GenuineRepeatsSigning(cfg: Config, s: Signing, req: Request)
    requires TicketOf(cfg, req).Some? && ClearSigning(s) && TextOf(cfg.crypto, s) == SignedText(cfg, req)
    ensures TicketOf(cfg, req) == Some(Ticket(s.token, s.nonce, s.timestamp))
    ensures Upper(req.verb) == Upper(s.verb) && req.path == s.path
    ensures cfg.crypto.bodyHash(req.body) == cfg.crypto.bodyHash(s.body)
  {
    ReadIntOfIntText(s.timestamp);
    ReadIntHasNo(IntText(s.timestamp), '&');
    TextDetermines(cfg.crypto, LeadOf(s), s.path, s.body, PresentedLead(req), req.path, req.body);
  }

  lemma FreshNoncesFixTimestamps(cfg: Config, honest: set<Signing>, es: seq<Event>)
    requires FreshNonces(honest) && Unforged(cfg, honest, es)
    ensures NonceFixesTimestamp(cfg, es)
  {
    forall i, j | 0 <= i < |es| && 0 <= j < |es| && TicketOf(cfg, es[i].req).Some? && TicketOf(cfg, es[j].req).Some?
      ensures var a, b := TicketOf(cfg, es[i].req).value, TicketOf(cfg, es[j].req).value;
              a.nonce == b.nonce ==> a.ts == b.ts
    {
      var s :| s in honest && TextOf(cfg.crypto, s) == SignedText(cfg, es[i].req);
      var s' :| s' in honest && TextOf(cfg.crypto, s') == SignedText(cfg, es[j].req);
      GenuineRepeatsSigning(cfg, s, es[i].req);
      GenuineRepeatsSigning(cfg, s', es[j].req);
    }
  }

  /** However the network replays them, each honestly signed request is accepted at most once. */
  lemma HonestRequestAcceptedOnce(cfg: Config, honest: set<Signing>, es: seq<Event>, i: nat, j: nat)
    requires cfg.ttl >= 2 * cfg.skew && Monotone(es)
    requires FreshNonces(honest) && Unforged(cfg, honest, es)
    requires i < j < |es| && Accepted(Run(cfg, map[], es)[i]) && Accepted(Run(cfg, map[], es)[j])
    ensures TicketOf(cfg, es[i].req).Some? && TicketOf(cfg, es[j].req).Some?
    ensures TicketOf(cfg, es[i].req).value.nonce != TicketOf(cfg, es[j].req).value.nonce
  {
    AcceptedIsGenuine(cfg, map[], es, i);
    AcceptedIsGenuine(cfg, map[], es, j);
    FreshNoncesFixTimestamps(cfg, honest, es);
    var t := TicketOf(cfg, es[i].req).value;
    assert Accepts(cfg, map[], es, i, t.nonce, t.ts);
    NotAcceptedTwice(cfg, map[], es[0].now, es, i, j, t.nonce, t.ts);
  }

  lemma {:induction false} AcceptedIsGenuine(cfg: Config, store: map<string, int>, es: seq<Event>, i: nat)
    requires i < |es| && Accepted(Run(cfg, store, es)[i])
    ensures TicketOf(cfg, es[i].req).Some?
    ensures Distance(es[i].now, TicketOf(cfg, es[i].req).value.ts) <= cfg.skew
    decreases |es|
  {
    var e := es[0];
    if i > 0 {
      AcceptedIsGenuine(cfg, Verify(cfg, store, e.req, e.now).1, es[1..], i - 1);
    } else {
      ReachedIffGenuineAndInSkew(cfg, e.req, e.now, CheckStateless(cfg, e.req, e.now).ticket);
    }
  }

  // ----- when one signing can be used twice -----

  ghost predicate AcceptsText(cfg: Config, es: seq<Event>, i: nat, text: string) {
    i < |es| && Accepted(Run(cfg, map[], es)[i]) && SignedText(cfg, es[i].req) == text
  }

  ghost predicate UsedTwice(cfg: Config, es: seq<Event>, text: string) {
    exists i: nat, j: nat :: i < j && AcceptsText(cfg, es, i, text) && AcceptsText(cfg, es, j, text)
  }

  /** With a sufficient time to live, whatever run of requests there is, the text of a clear signing is accepted at most once. */
  lemma ClearTextUsedOnce(cfg: Config, s: Signing, es: seq<Event>)
    requires cfg.ttl >= 2 * cfg.skew && Monotone(es) && ClearSigning(s)
    ensures !UsedTwice(cfg, es, TextOf(cfg.crypto, s))
  {
    var text := TextOf(cfg.crypto, s);
    forall i: nat, j: nat | i < j && AcceptsText(cfg, es, i, text)
      ensures !AcceptsText(cfg, es, j, text)
    {
      AcceptedIsGenuine(cfg, map[], es, i);
      GenuineRepeatsSigning(cfg, s, es[i].req);
      assert Accepts(cfg, map[], es, i, s.nonce, s.timestamp);
      if AcceptsText(cfg, es, j, text) {
        AcceptedIsGenuine(cfg, map[], es, j);
        GenuineRepeatsSigning(cfg, s, es[j].req);
        NotAcceptedTwice(cfg, map[], es[0].now, es, i, j, s.nonce, s.timestamp);
      }
    }
  }

  /** The other reading of a text whose path is resplittable. */
  function OtherReading(s: Signing, i: nat, j: nat): Signing
    requires i <= j < |s.path|
  {
    s.(nonce := LongerNonce(LeadOf(s), s.path, i), verb := s.path[i..j], path := s.path[j + 1..])
  }

  /** It needs no secret: the request for it differs from the honest one in method, path and nonce header only. */
  lemma OtherReadingReusesSignature(cfg: Config, s: Signing, i: nat, j: nat)
    requires i <= j < |s.path| && MethodLike(s.path, i, j)
    ensures var other := OtherReading(s, i, j);
            && TextOf(cfg.crypto, other) == TextOf(cfg.crypto, s) && other.nonce != s.nonce
            && RequestOf(cfg, other).headers == RequestOf(cfg, s).headers[2 := (H_NONCE, other.nonce)]
  {
    ResplitPath(cfg.crypto, LeadOf(s), s.path, s.body, i, j);
  }

  /** A request carries the text that was signed. */
  lemma CarriesText(cfg: Config, s: Signing)
    ensures SignedText(cfg, RequestOf(cfg, s)) == TextOf(cfg.crypto, s)
  {
    var req := RequestOf(cfg, s);
    assert [] + req.headers == req.headers;
    RecasedHeadersCarry(req.headers, [], req.headers);
    CarriedHeaders(Lowered(req.headers), req.headers);
  }

  /** Whatever the time to live: the honest request and then its other reading are both accepted, under one signature. */
  lemma ResplitAcceptedTwice(cfg: Config, s: Signing, i: nat, j: nat)
    requires s.token != "" && s.nonce != "" && 0 <= cfg.skew && i <= j < |s.path| && MethodLike(s.path, i, j)
    ensures var es := [Event(RequestOf(cfg, s), s.timestamp), Event(RequestOf(cfg, OtherReading(s, i, j)), s.timestamp)];
            Monotone(es) && AcceptsText(cfg, es, 0, TextOf(cfg.crypto, s)) && AcceptsText(cfg, es, 1, TextOf(cfg.crypto, s))
  {
    var other := OtherReading(s, i, j);
    OtherReadingReusesSignature(cfg, s, i, j);
    SignedReachesCache(cfg, s, s.timestamp);
    SignedReachesCache(cfg, other, s.timestamp);
    CarriesText(cfg, s);
    CarriesText(cfg, other);
    TwoNoncesAccepted(cfg, Event(RequestOf(cfg, s), s.timestamp), Event(RequestOf(cfg, other), s.timestamp),
                      Ticket(s.token, s.nonce, s.timestamp), Ticket(other.token, other.nonce, other.timestamp));
  }

  lemma TwoNoncesAccepted(cfg: Config, e: Event, e': Event, t: Ticket, t': Ticket)
    requires t.nonce != t'.nonce
    requires CheckStateless(cfg, e.req, e.now) == Reached(t) && CheckStateless(cfg, e'.req, e'.now) == Reached(t')
    ensures Accepted(Run(cfg, map[], [e, e'])[0]) && Accepted(Run(cfg, map[], [e, e'])[1])
  {
    assert [e, e'][1..] == [e'];
    var s1 := Verify(cfg, map[], e.req, e.now).1;
    assert s1 == map[t.nonce := t.ts];
    assert Run(cfg, map[], [e, e'])[1] == Run(cfg, s1, [e'])[0];
  }

  /** With a shorter time to live any signing can be used twice: another request evicts its nonce in between. */
  lemma EvictedTextUsedTwice(cfg: Config, s: Signing) returns (es: seq<Event>)
    requires s.token != "" && s.nonce != "" && 0 <= cfg.skew && cfg.ttl < 2 * cfg.skew
    ensures Monotone(es) && UsedTwice(cfg, es, TextOf(cfg.crypto, s))
  {
    var now := s.timestamp + cfg.skew;
    var late := s.(timestamp := now + cfg.skew, nonce := s.nonce + "'");
    assert |late.nonce| > |s.nonce|;
    var e, middle := Event(RequestOf(cfg, s), now), Event(RequestOf(cfg, late), now);
    SignedReachesCache(cfg, s, now);
    SignedReachesCache(cfg, late, now);
    CarriesText(cfg, s);
    EvictedIsAccepted(cfg, e, middle, Ticket(s.token, s.nonce, s.timestamp), Ticket(late.token, late.nonce, late.timestamp));
    es := [e, middle, e];
    assert AcceptsText(cfg, es, 0, TextOf(cfg.crypto, s)) && AcceptsText(cfg, es, 2, TextOf(cfg.crypto, s));
  }

  /**
   A signing with plain token, nonce and method is usable at most once in every run of requests exactly if the time
   to live is at least twice the skew and its path is not resplittable.
   */
  lemma SigningUsedOnceIff(cfg: Config, s: Signing)
    requires PlainSigning(s) && s.token != "" && s.nonce != "" && 0 <= cfg.skew
    ensures (forall es: seq<Event> | Monotone(es) :: !UsedTwice(cfg, es, TextOf(cfg.crypto, s)))
       <==> cfg.ttl >= 2 * cfg.skew && !Resplittable(s.path)
  {
    if cfg.ttl < 2 * cfg.skew {
      var es := EvictedTextUsedTwice(cfg, s);
    } else if Resplittable(s.path) {
      var i: nat, j: nat :| i <= j < |s.path| && MethodLike(s.path, i, j);
      ResplitAcceptedTwice(cfg, s, i, j);
    } else {
      forall es: seq<Event> | Monotone(es)
        ensures !UsedTwice(cfg, es, TextOf(cfg.crypto, s))
      {
        ClearTextUsedOnce(cfg, s, es);
      }
    }
  }
}
