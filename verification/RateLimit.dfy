/**
 The login rate limiter: a pruned list of failure times and a lockout per key, as the code keeps it,
 and the bound that it puts on guessing over whole runs. Time is a real number of seconds.
 */
module RateLimit {
  datatype Limits = Limits(maxAttempts: int, window: real, lockout: real)

  /** Failure times kept for a key and the end of its lockout. */
  datatype Slot = Slot(fails: seq<real>, lockedUntil: real)

  type State = map<string, Slot>

  const FRESH := Slot([], 0.0)

  function SlotOf(s: State, key: string): Slot { if key in s then s[key] else FRESH }

  function Max(a: real, b: real): real { if a >= b then a else b }

  function Min(a: real, b: real): real { if a <= b then a else b }

  /** Seconds left in the lockout of a key. */
  function Blocked(s: State, key: string, now: real): (wait: real)
    ensures wait >= 0.0
  {
    if key in s then Max(0.0, s[key].lockedUntil - now) else 0.0
  }

  /** The times less than a window before `now`. */
  function Within(ts: seq<real>, window: real, now: real): (r: seq<real>)
    ensures |r| <= |ts|
    ensures forall t | t in r :: t in ts && now - t < window
  {
    if ts == [] then []
    else
      var front := Within(ts[..|ts| - 1], window, now);
      if now - ts[|ts| - 1] < window then front + [ts[|ts| - 1]] else front
  }

  function Fail(l: Limits, slot: Slot, now: real): Slot {
    var fails := Within(slot.fails, l.window, now) + [now];
    if |fails| >= l.maxAttempts then Slot([], now + l.lockout) else Slot(fails, slot.lockedUntil)
  }

  datatype Op = Failure(key: string, now: real) | Reset(key: string)

  function Apply(l: Limits, s: State, op: Op): State {
    match op
    case Failure(key, now) => s[key := Fail(l, SlotOf(s, key), now)]
    case Reset(key) => s - {key}
  }

  // ----- the module state -----

  class Limiter {
    const limits: Limits
    var state: State

    constructor (limits: Limits)
      ensures this.limits == limits && state == map[]
    {
      this.limits := limits;
      state := map[];
    }

    method BlockedFor(key: string, now: real) returns (wait: real)
      ensures wait == Blocked(state, key, now)
    {
      if key !in state {
        return 0.0;
      }
      var left := state[key].lockedUntil - now;
      wait := if left > 0.0 then left else 0.0;
    }

    method RecordFailure(key: string, now: real)
      modifies this
      ensures state == Apply(limits, old(state), Failure(key, now))
    {
      var slot := if key in state then state[key] else FRESH;
      var fails: seq<real> := [];
      for i := 0 to |slot.fails|
        invariant fails == Within(slot.fails[..i], limits.window, now)
      {
        assert slot.fails[..i + 1][..i] == slot.fails[..i];
        if now - slot.fails[i] < limits.window {
          fails := fails + [slot.fails[i]];
        }
      }
      assert slot.fails[..|slot.fails|] == slot.fails;
      fails := fails + [now];
      var lockedUntil := slot.lockedUntil;
      if |fails| >= limits.maxAttempts {
        lockedUntil := now + limits.lockout;
        fails := [];
      }
      state := state[key := Slot(fails, lockedUntil)];
    }

    method ResetKey(key: string)
      modifies this
      ensures state == Apply(limits, old(state), Reset(key))
    {
      state := state - {key};
    }
  }

  // ----- runs -----

  function Run(l: Limits, s: State, ops: seq<Op>): State {
    if ops == [] then s else Apply(l, Run(l, s, ops[..|ops| - 1]), ops[|ops| - 1])
  }

  // ----- one key's failures since the last reset -----

  /** The slot after a sequence of failures with no reset among them. */
  function After(l: Limits, times: seq<real>): Slot {
    if times == [] then FRESH else Fail(l, After(l, times[..|times| - 1]), times[|times| - 1])
  }

  ghost predicate Ascending(times: seq<real>) {
    forall i, j | 0 <= i <= j < |times| :: times[i] <= times[j]
  }

  /** Failure `i` is recorded when the lockout that the earlier ones left has passed. */
  ghost predicate OpenAt(l: Limits, times: seq<real>, i: nat)
    requires i < |times|
  {
    After(l, times[..i]).lockedUntil <= times[i]
  }

  /** Each failure is recorded only when the key is not blocked; the clock starts after time zero. */
  ghost predicate Guarded(l: Limits, times: seq<real>) {
    Ascending(times) && forall i: nat | i < |times| :: OpenAt(l, times, i)
  }

  /** Does failure `j` trigger a lockout? */
  predicate LocksAt(l: Limits, times: seq<real>, j: nat)
    requires j < |times|
  {
    |Within(After(l, times[..j]).fails, l.window, times[j])| + 1 >= l.maxAttempts
  }

  /** The failures after the last one that triggered a lockout. */
  function SinceLockout(l: Limits, times: seq<real>): (r: seq<real>)
    ensures |r| <= |times| && r == times[|times| - |r|..]
  {
    if times == [] || LocksAt(l, times, |times| - 1) then [] else SinceLockout(l, times[..|times| - 1]) + [times[|times| - 1]]
  }

  lemma {:induction false} WithinMember(ts: seq<real>, window: real, now: real, t: real)
    requires t in ts && now - t < window
    ensures t in Within(ts, window, now)
  {
    if t != ts[|ts| - 1] {
      assert t in ts[..|ts| - 1];
      WithinMember(ts[..|ts| - 1], window, now, t);
    }
  }

  /** Pruning twice as time passes is pruning once. */
  lemma {:induction false} WithinWithin(ts: seq<real>, window: real, t: real, now: real)
    requires t <= now
    ensures Within(Within(ts, window, t), window, now) == Within(ts, window, now)
  {
    if ts == [] {
    } else {
      var front, last := ts[..|ts| - 1], ts[|ts| - 1];
      WithinWithin(front, window, t, now);
      if t - last < window {
        var w := Within(ts, window, t);
        assert w[..|w| - 1] == Within(front, window, t);
      }
    }
  }

  /** What the limiter stores: the latest failure, and the earlier ones since the last lockout within its window. */
  function Recent(l: Limits, since: seq<real>): seq<real> {
    if since == [] then []
    else Within(since[..|since| - 1], l.window, since[|since| - 1]) + [since[|since| - 1]]
  }

  lemma UnlockedGrows(l: Limits, times: seq<real>)
    requires times != [] && !LocksAt(l, times, |times| - 1)
    ensures var n := |times| - 1;
            && After(l, times).fails == Within(After(l, times[..n]).fails, l.window, times[n]) + [times[n]]
            && SinceLockout(l, times) == SinceLockout(l, times[..n]) + [times[n]]
  {
  }

  /** The stored list is exactly that filter of the full failure history. */
  lemma {:induction false} StoredListIsRecent(l: Limits, times: seq<real>)
    requires Ascending(times)
    ensures After(l, times).fails == Recent(l, SinceLockout(l, times))
  {
    if times != [] && !LocksAt(l, times, |times| - 1) {
      var front, now := times[..|times| - 1], times[|times| - 1];
      var since := SinceLockout(l, front);
      StoredListIsRecent(l, front);
      assert since != [] ==> since[|since| - 1] <= now;
      PrunedRecent(l, since, now);
      UnlockedGrows(l, times);
      assert (since + [now])[..|since|] == since;
    }
  }

  lemma PrunedRecent(l: Limits, since: seq<real>, now: real)
    requires since != [] ==> since[|since| - 1] <= now
    ensures Within(Recent(l, since), l.window, now) == Within(since, l.window, now)
  {
    if since != [] {
      var earlier, last := since[..|since| - 1], since[|since| - 1];
      var kept := Within(earlier, l.window, last);
      WithinWithin(earlier, l.window, last, now);
      assert (kept + [last])[..|kept|] == kept;
    }
  }

  /** The list stays shorter than the limit, and a lockout never outlasts the lockout period. */
  lemma {:induction false} SlotBounds(l: Limits, times: seq<real>)
    requires Ascending(times)
    ensures l.maxAttempts >= 1 ==> |After(l, times).fails| < l.maxAttempts
    ensures l.maxAttempts < 1 ==> After(l, times).fails == []
    ensures times != [] ==> After(l, times).lockedUntil <= Max(0.0, times[|times| - 1] + l.lockout)
  {
    if times == [] {
    } else {
      SlotBounds(l, times[..|times| - 1]);
    }
  }

  lemma AfterGrows(l: Limits, times: seq<real>, t: real)
    ensures After(l, times + [t]) == Fail(l, After(l, times), t)
  {
  }

  // ----- how fast failures can come -----

  /** The least time that separates a failure from the one `maxAttempts` later. */
  function Gap(l: Limits): real {
    if l.maxAttempts == 1 then l.lockout else Min(l.window, l.lockout)
  }

  lemma {:induction false} WithinKeepsSuffix(ts: seq<real>, window: real, now: real, k: nat)
    requires k <= |ts| && forall j | k <= j < |ts| :: now - ts[j] < window
    ensures Within(ts, window, now) == Within(ts[..k], window, now) + ts[k..]
  {
    if k < |ts| {
      var front := ts[..|ts| - 1];
      WithinKeepsSuffix(front, window, now, k);
      assert front[..k] == ts[..k] && front[k..] + [ts[|ts| - 1]] == ts[k..];
    } else {
      assert ts[..k] == ts;
    }
  }

  predicate EndsWith(a: seq<real>, tail: seq<real>) { |tail| <= |a| && a[|a| - |tail|..] == tail }

  lemma WithinKeepsTail(a: seq<real>, tail: seq<real>, window: real, now: real)
    requires EndsWith(a, tail) && forall t | t in tail :: now - t < window
    ensures EndsWith(Within(a, window, now) + [now], tail + [now])
  {
    var k := |a| - |tail|;
    forall j | k <= j < |a|
      ensures now - a[j] < window
    {
      assert a[j] == a[k..][j - k] && a[j] in tail;
    }
    WithinKeepsSuffix(a, window, now, k);
  }

  lemma UnlockedStep(l: Limits, times: seq<real>, m: nat)
    requires m < |times| && !LocksAt(l, times, m)
    ensures After(l, times[..m + 1]).fails == Within(After(l, times[..m]).fails, l.window, times[m]) + [times[m]]
  {
    assert times[..m + 1] == times[..m] + [times[m]];
    AfterGrows(l, times[..m], times[m]);
  }

  lemma AscendingSlice(times: seq<real>, i: nat, m: nat)
    requires Ascending(times) && i <= m < |times|
    ensures forall t | t in times[i..m] :: times[i] <= t
    ensures times[i..m + 1] == times[i..m] + [times[m]]
    ensures m > 0 ==> times[m - 1] <= times[m]
  {
  }

  /** While nothing locks and the window has not passed, the list holds every failure. */
  lemma {:induction false} UnlockedFailuresStay(l: Limits, times: seq<real>, i: nat, m: nat)
    requires Ascending(times) && i <= m < |times|
    requires times[m] - times[i] < l.window
    requires forall j: nat | i <= j <= m :: !LocksAt(l, times, j)
    ensures EndsWith(After(l, times[..m + 1]).fails, times[i..m + 1])
  {
    UnlockedStep(l, times, m);
    AscendingSlice(times, i, m);
    if i < m {
      UnlockedFailuresStay(l, times, i, m - 1);
      WithinKeepsTail(After(l, times[..m]).fails, times[i..m], l.window, times[m]);
    }
  }

  /** A failure that locks keeps the next one away for the lockout period. */
  lemma LockSeparates(l: Limits, times: seq<real>, j: nat)
    requires Guarded(l, times) && j + 1 < |times| && LocksAt(l, times, j)
    ensures times[j] + l.lockout <= times[j + 1]
  {
    assert times[..j + 1][..j] == times[..j] && times[..j + 1][j] == times[j];
    assert After(l, times[..j + 1]).lockedUntil == times[j] + l.lockout;
    assert OpenAt(l, times, j + 1);
  }

  /** `maxAttempts - 1` later a window has passed, or `maxAttempts` later a lockout. */
  lemma WindowOrLockoutPasses(l: Limits, times: seq<real>, i: nat)
    requires l.maxAttempts >= 1 && Guarded(l, times) && i + l.maxAttempts < |times|
    ensures times[i + l.maxAttempts] - times[i] >= l.lockout
         || (l.maxAttempts > 1 && times[i + l.maxAttempts - 1] - times[i] >= l.window)
  {
    var m := i + l.maxAttempts - 1;
    if l.maxAttempts == 1 {
      LockSeparates(l, times, i);
    } else if j: nat :| i <= j <= m && LocksAt(l, times, j) {
      LockSeparates(l, times, j);
    } else if times[m] - times[i] < l.window {
      SlotBounds(l, times[..m + 1]);
      UnlockedFailuresStay(l, times, i, m);
      assert false;
    }
  }

  lemma GapHolds(l: Limits, times: seq<real>, i: nat)
    requires l.maxAttempts >= 1 && Guarded(l, times) && i + l.maxAttempts < |times|
    ensures times[i + l.maxAttempts] - times[i] >= Gap(l)
  {
    WindowOrLockoutPasses(l, times, i);
  }

  /** `k` steps of `n`, and of `g`, as sums. */
  function Steps(k: nat, n: nat): nat { if k == 0 then 0 else Steps(k - 1, n) + n }

  function Spans(k: nat, g: real): real { if k == 0 then 0.0 else Spans(k - 1, g) + g }

  lemma {:induction false} SumsAreProducts(k: nat, n: nat, g: real)
    ensures Steps(k, n) == k * n && Spans(k, g) == k as real * g
  {
    if k == 0 {
    } else {
      SumsAreProducts(k - 1, n, g);
    }
  }

  lemma {:induction false} FailureRateInSteps(l: Limits, times: seq<real>, i: nat, k: nat)
    requires l.maxAttempts >= 1 && Guarded(l, times) && i + Steps(k, l.maxAttempts) < |times|
    ensures times[i + Steps(k, l.maxAttempts)] - times[i] >= Spans(k, Gap(l))
    decreases k
  {
    if k == 0 {
    } else {
      FailureRateInSteps(l, times, i, k - 1);
      GapHolds(l, times, i + Steps(k - 1, l.maxAttempts));
    }
  }

  /** Over any guarded run, k * maxAttempts failures take at least k gaps. */
  lemma FailureRateBounded(l: Limits, times: seq<real>, n: nat, g: real, i: nat, j: nat, k: nat)
    requires n == l.maxAttempts >= 1 && g == Gap(l)
    requires Guarded(l, times) && j == i + k * n && j < |times|
    ensures times[j] - times[i] >= k as real * g
  {
    SumsAreProducts(k, n, g);
    assert j == i + Steps(k, n);
    FailureRateInSteps(l, times, i, k);
  }

  // ----- the exact price of failures -----

  /**
   The least time in which `m` failures can follow a failure: `maxAttempts` failures cost a lockout, and
   one less cost a window; the last burst is free.
   */
  function Price(l: Limits, m: nat): real
    requires l.maxAttempts >= 1
  {
    if m < l.maxAttempts then 0.0
    else if l.maxAttempts == 1 then l.lockout + Price(l, m - 1)
    else Min(l.window + Price(l, m - (l.maxAttempts - 1)), l.lockout + Price(l, m - l.maxAttempts))
  }

  /** No guarded run is faster. */
  lemma {:induction false} NoneFaster(l: Limits, times: seq<real>, i: nat, m: nat)
    requires l.maxAttempts >= 1 && Guarded(l, times) && i + m < |times|
    ensures times[i + m] - times[i] >= Price(l, m)
    decreases m
  {
    var n := l.maxAttempts;
    if m >= n {
      WindowOrLockoutPasses(l, times, i);
      NoneFaster(l, times, i + n, m - n);
      if n > 1 {
        NoneFaster(l, times, i + n - 1, m - (n - 1));
      }
    }
  }

  function Copies(n: nat, t: real): (r: seq<real>)
    ensures |r| == n && forall x | x in r :: x == t
  {
    if n == 0 then [] else Copies(n - 1, t) + [t]
  }

  /** Is it cheaper to stay one short of the lockout and wait for the window? */
  predicate Waits(l: Limits, m: nat)
    requires m >= l.maxAttempts >= 1
  {
    l.maxAttempts > 1 && l.window + Price(l, m - (l.maxAttempts - 1)) <= l.lockout + Price(l, m - l.maxAttempts)
  }

  /** The cheapest `m + 1` failures from `t` on: a burst, the wait that is cheaper, and the rest. */
  function Cheapest(l: Limits, t: real, m: nat): (times: seq<real>)
    requires l.maxAttempts >= 1
    ensures |times| == m + 1 && times[0] == t
    decreases m
  {
    if m < l.maxAttempts then StartsAt(m + 1, t); Copies(m + 1, t)
    else if Waits(l, m) then
      StartsAt(l.maxAttempts - 1, t);
      Copies(l.maxAttempts - 1, t) + Cheapest(l, t + l.window, m - (l.maxAttempts - 1))
    else
      StartsAt(l.maxAttempts, t);
      Copies(l.maxAttempts, t) + Cheapest(l, t + l.lockout, m - l.maxAttempts)
  }

  lemma StartsAt(n: nat, t: real)
    requires n > 0
    ensures Copies(n, t)[0] == t
  {
    assert Copies(n, t)[0] in Copies(n, t);
  }

  lemma {:induction false} CheapestEnds(l: Limits, t: real, m: nat)
    requires l.maxAttempts >= 1
    ensures Cheapest(l, t, m)[m] == t + Price(l, m)
    decreases m
  {
    if m >= l.maxAttempts {
      if Waits(l, m) {
        CheapestEnds(l, t + l.window, m - (l.maxAttempts - 1));
      } else {
        CheapestEnds(l, t + l.lockout, m - l.maxAttempts);
      }
    } else {
      assert Copies(m + 1, t)[m] in Copies(m + 1, t);
    }
  }

  predicate LastAtMost(times: seq<real>, t: real) { times != [] ==> times[|times| - 1] <= t }

  lemma AscendingGrows(times: seq<real>, t: real)
    requires Ascending(times) && LastAtMost(times, t)
    ensures Ascending(times + [t])
  {
  }

  lemma OpenBefore(l: Limits, times: seq<real>, t: real, i: nat)
    requires i < |times| && OpenAt(l, times, i)
    ensures OpenAt(l, times + [t], i)
  {
    assert (times + [t])[..i] == times[..i];
  }

  lemma GuardedGrows(l: Limits, times: seq<real>, t: real)
    requires Guarded(l, times) && After(l, times).lockedUntil <= t
    requires LastAtMost(times, t)
    ensures Guarded(l, times + [t])
  {
    AscendingGrows(times, t);
    forall i: nat | i < |times + [t]|
      ensures OpenAt(l, times + [t], i)
    {
      if i < |times| {
        OpenBefore(l, times, t, i);
      } else {
        assert (times + [t])[..i] == times;
      }
    }
  }

  /** At `t` the key is open and nothing in its list is recent any more. */
  ghost predicate FreshAt(l: Limits, times: seq<real>, t: real) {
    && Guarded(l, times) && LastAtMost(times, t)
    && After(l, times).lockedUntil <= t && Within(After(l, times).fails, l.window, t) == []
  }

  lemma WithinCopies(l: Limits, n: nat, t: real)
    requires l.window > 0.0
    ensures Within(Copies(n, t), l.window, t) == Copies(n, t)
  {
    var copies := Copies(n, t);
    forall j | 0 <= j < |copies|
      ensures t - copies[j] < l.window
    {
      assert copies[j] in copies;
    }
    WithinKeepsSuffix(copies, l.window, t, 0);
  }

  lemma {:induction false} PrunedCopies(n: nat, t: real, window: real, now: real)
    requires now - t >= window
    ensures Within(Copies(n, t), window, now) == []
  {
    if n == 0 {
    } else {
      PrunedCopies(n - 1, t, window, now);
      assert Copies(n, t)[..n - 1] == Copies(n - 1, t);
    }
  }

  /** What a burst of `r` failures at `t` leaves: a list short of the limit, or a lockout. */
  ghost predicate BurstDone(l: Limits, times: seq<real>, t: real, r: nat) {
    && Guarded(l, times) && times != [] && times[|times| - 1] == t
    && if r < l.maxAttempts then After(l, times).fails == Copies(r, t) && After(l, times).lockedUntil <= t
       else After(l, times) == Slot([], t + l.lockout)
  }

  lemma BurstStarts(l: Limits, times: seq<real>, t: real)
    requires FreshAt(l, times, t) && l.maxAttempts >= 1
    ensures BurstDone(l, times + [t], t, 1)
  {
    GuardedGrows(l, times, t);
    AfterGrows(l, times, t);
    assert Copies(1, t) == [t];
  }

  lemma BurstGrows(l: Limits, times: seq<real>, t: real, r: nat)
    requires BurstDone(l, times, t, r) && 1 <= r < l.maxAttempts && l.window > 0.0
    ensures BurstDone(l, times + [t], t, r + 1)
  {
    GuardedGrows(l, times, t);
    AfterGrows(l, times, t);
    WithinCopies(l, r, t);
  }

  lemma CopiesSplit(times: seq<real>, t: real, r: nat)
    requires r > 0
    ensures times + Copies(r, t) == (times + Copies(r - 1, t)) + [t]
    ensures r == 1 ==> times + Copies(r - 1, t) == times
  {
  }

  lemma {:induction false} BurstFills(l: Limits, times: seq<real>, t: real, r: nat, whole: seq<real>)
    requires FreshAt(l, times, t) && 1 <= r <= l.maxAttempts && l.window > 0.0
    requires whole == times + Copies(r, t)
    ensures BurstDone(l, whole, t, r)
  {
    CopiesSplit(times, t, r);
    if r > 1 {
      var shorter := times + Copies(r - 1, t);
      BurstFills(l, times, t, r - 1, shorter);
      BurstGrows(l, shorter, t, r - 1);
    } else {
      BurstStarts(l, times, t);
    }
  }

  lemma FreshAfterBurst(l: Limits, times: seq<real>, t: real, r: nat, next: real)
    requires BurstDone(l, times, t, r) && 1 <= r <= l.maxAttempts && l.window > 0.0 && l.lockout >= 0.0
    requires next == if r < l.maxAttempts then t + l.window else t + l.lockout
    ensures FreshAt(l, times, next)
  {
    PrunedCopies(r, t, l.window, t + l.window);
  }

  /** How long the burst is that `Cheapest` starts with, and when the next one comes. */
  function BurstLength(l: Limits, m: nat): (r: nat)
    requires m >= l.maxAttempts >= 1
    ensures 1 <= r <= l.maxAttempts
  {
    if Waits(l, m) then l.maxAttempts - 1 else l.maxAttempts
  }

  function NextBurst(l: Limits, t: real, m: nat): real
    requires m >= l.maxAttempts >= 1
  {
    if Waits(l, m) then t + l.window else t + l.lockout
  }

  lemma CheapestSplits(l: Limits, times: seq<real>, t: real, m: nat)
    requires m >= l.maxAttempts >= 1
    ensures times + Cheapest(l, t, m)
         == (times + Copies(BurstLength(l, m), t)) + Cheapest(l, NextBurst(l, t, m), m - BurstLength(l, m))
  {
  }

  lemma NextIsFresh(l: Limits, times: seq<real>, t: real, m: nat)
    requires FreshAt(l, times, t) && m >= l.maxAttempts >= 1 && l.window > 0.0 && l.lockout >= 0.0
    ensures FreshAt(l, times + Copies(BurstLength(l, m), t), NextBurst(l, t, m))
  {
    var r := BurstLength(l, m);
    BurstFills(l, times, t, r, times + Copies(r, t));
    FreshAfterBurst(l, times + Copies(r, t), t, r, NextBurst(l, t, m));
  }

  lemma {:induction false} CheapestGuarded(l: Limits, times: seq<real>, t: real, m: nat, whole: seq<real>)
    requires FreshAt(l, times, t) && l.maxAttempts >= 1 && l.window > 0.0 && l.lockout >= 0.0
    requires whole == times + Cheapest(l, t, m)
    ensures Guarded(l, whole)
    decreases m
  {
    if m < l.maxAttempts {
      BurstFills(l, times, t, m + 1, whole);
    } else {
      NextIsFresh(l, times, t, m);
      CheapestSplits(l, times, t, m);
      CheapestGuarded(l, times + Copies(BurstLength(l, m), t), NextBurst(l, t, m), m - BurstLength(l, m), whole);
    }
  }

  /** The price is exact: for every number of failures some guarded run pays no more. */
  lemma PriceAttained(l: Limits, m: nat) returns (times: seq<real>)
    requires l.maxAttempts >= 1 && l.window > 0.0 && l.lockout >= 0.0
    ensures Guarded(l, times) && |times| == m + 1
    ensures times[m] - times[0] == Price(l, m)
  {
    times := Cheapest(l, 0.0, m);
    assert times == [] + times;
    CheapestGuarded(l, [], 0.0, m, times);
    CheapestEnds(l, 0.0, m);
  }

  lemma {:induction false} PriceOfGaps(l: Limits, k: nat)
    requires l.maxAttempts >= 1 && l.lockout <= l.window && l.lockout >= 0.0
    ensures Price(l, Steps(k, l.maxAttempts)) == Spans(k, l.lockout)
  {
    if k == 0 {
    } else {
      PriceOfGaps(l, k - 1);
      PriceGrows(l, Steps(k - 1, l.maxAttempts));
    }
  }

  lemma {:induction false} PriceGrows(l: Limits, m: nat)
    requires l.maxAttempts >= 1 && l.window >= 0.0 && l.lockout >= 0.0
    ensures 0.0 <= Price(l, m) <= Price(l, m + 1)
    decreases m
  {
    var n := l.maxAttempts;
    if m >= n {
      PriceGrows(l, m - n);
      if n > 1 {
        PriceGrows(l, m - (n - 1));
      }
    }
  }

  /** With a lockout no longer than the window, the bound by gaps is met exactly, for every number of gaps. */
  lemma BoundAttained(l: Limits, n: nat, g: real, k: nat) returns (times: seq<real>)
    requires n == l.maxAttempts >= 1 && g == Gap(l) && 0.0 <= l.lockout <= l.window && l.window > 0.0
    ensures Guarded(l, times) && |times| == k * n + 1
    ensures times[|times| - 1] - times[0] == k as real * g
  {
    SumsAreProducts(k, n, g);
    times := PriceAttained(l, Steps(k, n));
    PriceOfGaps(l, k);
  }

  /** With a shorter window it is met for one gap; for more of them `Price` is what counts. */
  lemma BoundAttainedByWindow(l: Limits) returns (times: seq<real>)
    requires l.maxAttempts >= 2 && 0.0 < l.window < l.lockout
    ensures Guarded(l, times) && |times| == l.maxAttempts + 1
    ensures times[l.maxAttempts] - times[0] == Gap(l)
  {
    times := PriceAttained(l, l.maxAttempts);
  }

  // ----- from operations on many keys to one key's failures -----

  /** The failure times of a key since its last reset. */
  function TimesSinceReset(key: string, ops: seq<Op>): seq<real> {
    if ops == [] then []
    else
      var front := TimesSinceReset(key, ops[..|ops| - 1]);
      match ops[|ops| - 1]
      case Failure(k, now) => if k == key then front + [now] else front
      case Reset(k) => if k == key then [] else front
  }

  /** A key's slot is what its own failures since its last reset make it; other keys never touch it. */
  lemma {:induction false} SlotFollowsOwnHistory(l: Limits, ops: seq<Op>, key: string)
    ensures SlotOf(Run(l, map[], ops), key) == After(l, TimesSinceReset(key, ops))
  {
    if ops == [] {
    } else {
      var front := ops[..|ops| - 1];
      SlotFollowsOwnHistory(l, front, key);
      var times := TimesSinceReset(key, ops);
      if ops[|ops| - 1].Failure? && ops[|ops| - 1].key == key {
        assert times[..|times| - 1] == TimesSinceReset(key, front);
      }
    }
  }

  /** Every failure is recorded only while its key is not locked, on a clock that never runs back. */
  ghost predicate GuardedRun(l: Limits, ops: seq<Op>, clock: real) {
    if ops == [] then clock >= 0.0
    else
      var front, last := ops[..|ops| - 1], ops[|ops| - 1];
      match last
      case Failure(key, now) =>
        && now <= clock && SlotOf(Run(l, map[], front), key).lockedUntil <= now && GuardedRun(l, front, now)
      case Reset(_) => GuardedRun(l, front, clock)
  }

  lemma {:induction false} GuardedRunGuardsKey(l: Limits, ops: seq<Op>, clock: real, key: string)
    requires GuardedRun(l, ops, clock)
    ensures Guarded(l, TimesSinceReset(key, ops))
    ensures LastAtMost(TimesSinceReset(key, ops), clock)
  {
    if ops == [] {
    } else {
      var front, last := ops[..|ops| - 1], ops[|ops| - 1];
      match last
      case Failure(k, now) =>
        GuardedRunGuardsKey(l, front, now, key);
        if k == key {
          var times := TimesSinceReset(key, front);
          SlotFollowsOwnHistory(l, front, key);
          GuardedGrows(l, times, now);
        }
      case Reset(_) =>
        GuardedRunGuardsKey(l, front, clock, key);
    }
  }

  /**
   In any serial run on any keys, guarded as the login route guards it, the failures of a key since its
   last reset come no faster than `maxAttempts` per gap.
   */
  lemma GuessRateBounded(l: Limits, ops: seq<Op>, clock: real, key: string, n: nat, g: real, i: nat, j: nat, k: nat)
    requires n == l.maxAttempts >= 1 && g == Gap(l) && GuardedRun(l, ops, clock)
    requires j == i + k * n && j < |TimesSinceReset(key, ops)|
    ensures TimesSinceReset(key, ops)[j] - TimesSinceReset(key, ops)[i] >= k as real * g
  {
    GuardedRunGuardsKey(l, ops, clock, key);
    FailureRateBounded(l, TimesSinceReset(key, ops), n, g, i, j, k);
  }

  /** The exact price holds inside any such run, too. */
  lemma GuessPriceBounded(l: Limits, ops: seq<Op>, clock: real, key: string, i: nat, m: nat)
    requires l.maxAttempts >= 1 && GuardedRun(l, ops, clock) && i + m < |TimesSinceReset(key, ops)|
    ensures TimesSinceReset(key, ops)[i + m] - TimesSinceReset(key, ops)[i] >= Price(l, m)
  {
    GuardedRunGuardsKey(l, ops, clock, key);
    NoneFaster(l, TimesSinceReset(key, ops), i, m);
  }

  /** In every guarded run, with any operations on any keys, no one is told to wait longer than the lockout period. */
  lemma WaitBounded(l: Limits, ops: seq<Op>, key: string, now: real)
    requires GuardedRun(l, ops, now)
    ensures Blocked(Run(l, map[], ops), key, now) <= Max(0.0, l.lockout)
  {
    GuardedRunGuardsKey(l, ops, now, key);
    SlotFollowsOwnHistory(l, ops, key);
    SlotBounds(l, TimesSinceReset(key, ops));
  }

  // ----- the exact wait -----

  /** The end of the last lockout that a history triggered. */
  function LockEnd(l: Limits, times: seq<real>): real {
    if times == [] then 0.0
    else if LocksAt(l, times, |times| - 1) then times[|times| - 1] + l.lockout
    else LockEnd(l, times[..|times| - 1])
  }

  lemma {:induction false} LockedUntilLockEnd(l: Limits, times: seq<real>)
    ensures After(l, times).lockedUntil == LockEnd(l, times)
  {
    if times == [] {
    } else {
      LockedUntilLockEnd(l, times[..|times| - 1]);
    }
  }

  lemma {:induction false} KnownIffFailed(l: Limits, ops: seq<Op>, key: string)
    ensures key in Run(l, map[], ops) <==> TimesSinceReset(key, ops) != []
  {
    if ops == [] {
    } else {
      KnownIffFailed(l, ops[..|ops| - 1], key);
    }
  }

  /** After any operations the wait is what is left of the lockout that the key's failures since its last reset triggered last. */
  lemma WaitIsRestOfLockout(l: Limits, ops: seq<Op>, key: string, now: real)
    ensures var times := TimesSinceReset(key, ops);
            var left := LockEnd(l, times) - now;
            Blocked(Run(l, map[], ops), key, now) == if times != [] && left > 0.0 then left else 0.0
  {
    SlotFollowsOwnHistory(l, ops, key);
    KnownIffFailed(l, ops, key);
    LockedUntilLockEnd(l, TimesSinceReset(key, ops));
  }
}
