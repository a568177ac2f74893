/**
 The fixed-window rate limiter: a stored counter per key that the Lua script increments and gives an
 expiry on its first increment. Times are milliseconds; the window is cut down to whole seconds.
 */
module RateLimit {
  import opened Wrappers

  // ---------- one counter ----------

  /** The counter of a key as stored; once its deadline has passed it is as good as absent. */
  datatype Counter = Absent | Live(count: nat, deadline: nat)

  /** The script's effect at time now, with a window of `window` milliseconds. */
  function Hit(c: Counter, now: nat, window: nat): Counter {
    if c.Live? && now < c.deadline then Live(c.count + 1, c.deadline) else Live(1, now + window)
  }

  predicate Admits(limit: nat, c: Counter, now: nat, window: nat) {
    Hit(c, now, window).count <= limit
  }

  /** Which of the calls at the given times are allowed. */
  function Allowed(limit: nat, window: nat, c: Counter, times: seq<nat>): (r: seq<bool>)
    ensures |r| == |times|
    decreases |times|
  {
    if times == [] then []
    else [Admits(limit, c, times[0], window)] + Allowed(limit, window, Hit(c, times[0], window), times[1..])
  }

  ghost predicate Ordered(times: seq<nat>) {
    forall i, j :: 0 <= i < j < |times| ==> times[i] <= times[j]
  }

  // ---------- each window admits its first calls ----------

  /** When the window of call i began: at its first call, which came after the previous window's end. */
  function WindowStart(times: seq<nat>, window: nat, i: nat): nat
    requires i < |times|
  {
    if i == 0 then times[0]
    else
      var previous := WindowStart(times, window, i - 1);
      if times[i] < previous + window then previous else times[i]
  }

  /** The earlier calls of the same window. */
  ghost function EarlierInWindow(times: seq<nat>, window: nat, i: nat): set<nat>
    requires i < |times|
  {
    set j: nat | j < i && WindowStart(times, window, j) == WindowStart(times, window, i)
  }

  /** The counter before call i. */
  function CounterAt(window: nat, c: Counter, times: seq<nat>, i: nat): Counter
    requires i <= |times|
  {
    if i == 0 then c else Hit(CounterAt(window, c, times, i - 1), times[i - 1], window)
  }

  lemma {:induction false} CounterAtShift(window: nat, c: Counter, times: seq<nat>, i: nat)
    requires 0 < i <= |times|
    ensures CounterAt(window, c, times, i) == CounterAt(window, Hit(c, times[0], window), times[1..], i - 1)
  {
    if i > 1 {
      CounterAtShift(window, c, times, i - 1);
    }
  }

  lemma {:induction false} AllowedAt(limit: nat, window: nat, c: Counter, times: seq<nat>, i: nat)
    requires i < |times|
    ensures Allowed(limit, window, c, times)[i] == Admits(limit, CounterAt(window, c, times, i), times[i], window)
    decreases |times|
  {
    if i > 0 {
      CounterAtShift(window, c, times, i);
      AllowedAt(limit, window, Hit(c, times[0], window), times[1..], i - 1);
    }
  }

  lemma {:induction false} StartsIncrease(times: seq<nat>, window: nat, j: nat, i: nat)
    requires j <= i < |times| && Ordered(times)
    ensures WindowStart(times, window, j) <= WindowStart(times, window, i) <= times[i]
  {
    if j < i {
      StartsIncrease(times, window, j, i - 1);
    } else if i > 0 {
      StartsIncrease(times, window, i - 1, i - 1);
    }
  }

  /** After call i the counter holds the number of calls of its window so far. */
  lemma {:induction false} CounterCountsWindow(window: nat, times: seq<nat>, i: nat)
    requires window > 0 && i < |times| && Ordered(times)
    ensures CounterAt(window, Absent, times, i + 1)
         == Live(|EarlierInWindow(times, window, i)| + 1, WindowStart(times, window, i) + window)
  {
    var earlier := EarlierInWindow(times, window, i);
    if i == 0 {
      assert earlier == {};
    } else {
      CounterCountsWindow(window, times, i - 1);
      var previous := WindowStart(times, window, i - 1);
      if times[i] < previous + window {
        assert earlier == EarlierInWindow(times, window, i - 1) + {i - 1};
      } else {
        forall j: nat | j < i ensures WindowStart(times, window, j) < WindowStart(times, window, i) {
          StartsIncrease(times, window, j, i - 1);
        }
        assert earlier == {};
      }
    }
  }

  /** Each window admits exactly its first `limit` calls. */
  lemma WindowAdmitsItsFirstCalls(limit: nat, window: nat, times: seq<nat>, i: nat)
    requires window > 0 && i < |times| && Ordered(times)
    ensures Allowed(limit, window, Absent, times)[i] <==> |EarlierInWindow(times, window, i)| < limit
  {
    AllowedAt(limit, window, Absent, times, i);
    CounterCountsWindow(window, times, i);
  }

  // ---------- sliding intervals ----------

  /** How many calls with a time in [a, b) are allowed. */
  function AllowedIn(limit: nat, window: nat, c: Counter, times: seq<nat>, a: nat, b: int): nat
    decreases |times|
  {
    if times == [] then 0
    else (if a <= times[0] < b && Admits(limit, c, times[0], window) then 1 else 0)
         + AllowedIn(limit, window, Hit(c, times[0], window), times[1..], a, b)
  }

  /** `limit` for every window that fits into `length`, the last one possibly cut short. */
  function Quota(limit: nat, window: nat, length: int): nat
    requires window > 0
    decreases if length > 0 then length else 0
  {
    if length <= 0 then 0 else limit + Quota(limit, window, length - window)
  }

  lemma {:induction false} QuotaGrows(limit: nat, window: nat, shorter: int, longer: int)
    requires window > 0 && shorter <= longer
    ensures Quota(limit, window, shorter) <= Quota(limit, window, longer)
    decreases if longer > 0 then longer else 0
  {
    if shorter > 0 {
      QuotaGrows(limit, window, shorter - window, longer - window);
    }
  }

  function Left(limit: nat, c: Counter): nat {
    if c.Live? && c.count < limit then limit - c.count else 0
  }

  lemma {:induction false} NothingAllowedLater(limit: nat, window: nat, c: Counter, times: seq<nat>, a: nat, b: int)
    requires Ordered(times) && (times != [] ==> b <= times[0])
    ensures AllowedIn(limit, window, c, times, a, b) == 0
    decreases |times|
  {
    if times != [] {
      NothingAllowedLater(limit, window, Hit(c, times[0], window), times[1..], a, b);
    }
  }

  /** With a running window that ends at the deadline, what is left of it and the windows after it. */
  lemma {:induction false} AllowedFromRunningWindow(limit: nat, window: nat, c: Counter, times: seq<nat>, a: nat,
                                                    b: int)
    requires limit >= 1 && window > 0 && c.Live? && Ordered(times)
    ensures AllowedIn(limit, window, c, times, a, b) <= Left(limit, c) + Quota(limit, window, b - c.deadline)
    decreases |times|
  {
    if times != [] {
      var t := times[0];
      if t >= b {
        NothingAllowedLater(limit, window, c, times, a, b);
      } else {
        AllowedFromRunningWindow(limit, window, Hit(c, t, window), times[1..], a, b);
        if t >= c.deadline {
          QuotaGrows(limit, window, b - t, b - c.deadline);
          assert Quota(limit, window, b - t) == limit + Quota(limit, window, b - t - window);
        }
      }
    }
  }

  lemma {:induction false} EmptyInterval(limit: nat, window: nat, c: Counter, times: seq<nat>, a: nat)
    ensures AllowedIn(limit, window, c, times, a, a) == 0
    decreases |times|
  {
    if times != [] {
      EmptyInterval(limit, window, Hit(c, times[0], window), times[1..], a);
    }
  }

  function Max(x: nat, y: nat): nat {
    if x < y then y else x
  }

  /**
   The sharp bound for an interval of the given length: either it catches the first call of a window, or
   at most limit - 1 calls of the window running when it starts.
   */
  function Bound(limit: nat, window: nat, length: nat): nat
    requires limit >= 1 && window > 0
  {
    if length == 0 then 0
    else Max(Quota(limit, window, length), limit - 1 + Quota(limit, window, length - 1))
  }

  /** Over any run, from any counter, an interval admits no more than the bound, wherever it starts. */
  lemma {:induction false} AllowedInAnyInterval(limit: nat, window: nat, c: Counter, times: seq<nat>, a: nat,
                                                length: nat)
    requires limit >= 1 && window > 0 && Ordered(times) && (c.Live? ==> c.count >= 1)
    ensures AllowedIn(limit, window, c, times, a, a + length) <= Bound(limit, window, length)
    decreases |times|
  {
    var b := a + length;
    if length == 0 {
      EmptyInterval(limit, window, c, times, a);
    } else if times != [] {
      var t := times[0];
      if t >= b {
        NothingAllowedLater(limit, window, c, times, a, b);
      } else if t < a {
        AllowedInAnyInterval(limit, window, Hit(c, t, window), times[1..], a, length);
      } else if c.Live? && t < c.deadline {
        AllowedFromRunningWindow(limit, window, c, times, a, b);
        QuotaGrows(limit, window, b - c.deadline, length - 1);
      } else {
        AllowedFromRunningWindow(limit, window, Hit(c, t, window), times[1..], a, b);
        QuotaGrows(limit, window, b - t, length);
        assert Quota(limit, window, b - t) == limit + Quota(limit, window, b - t - window);
      }
    }
  }

  // ---------- the bound is reached ----------

  function Repeat(t: nat, n: nat): (r: seq<nat>)
    ensures |r| == n && forall i :: 0 <= i < n ==> r[i] == t
  {
    seq(n, i => t)
  }

  /** `limit` calls at the start of every window that begins before b. */
  function Bursts(limit: nat, window: nat, t: nat, b: int): seq<nat>
    requires window > 0
    decreases if t < b then b - t else 0
  {
    if t >= b then [] else Repeat(t, limit) + Bursts(limit, window, t + window, b)
  }

  lemma JoinOrdered(x: seq<nat>, y: seq<nat>, t: nat)
    requires Ordered(x) && Ordered(y)
    requires (forall i :: 0 <= i < |x| ==> x[i] <= t) && (forall i :: 0 <= i < |y| ==> t <= y[i])
    ensures Ordered(x + y)
  {
  }

  lemma {:induction false} BurstsAreOrdered(limit: nat, window: nat, t: nat, b: int)
    requires window > 0
    ensures Ordered(Bursts(limit, window, t, b))
    ensures forall i :: 0 <= i < |Bursts(limit, window, t, b)| ==> t <= Bursts(limit, window, t, b)[i]
    decreases if t < b then b - t else 0
  {
    if t < b {
      BurstsAreOrdered(limit, window, t + window, b);
      JoinOrdered(Repeat(t, limit), Bursts(limit, window, t + window, b), t);
    }
  }

  /** n calls at one moment inside a running window. */
  lemma {:induction false} Burst(limit: nat, window: nat, c: Counter, t: nat, n: nat, rest: seq<nat>, a: nat, b: int)
    requires c.Live? && t < c.deadline && c.count + n <= limit && a <= t < b
    ensures AllowedIn(limit, window, c, Repeat(t, n) + rest, a, b)
         == n + AllowedIn(limit, window, Live(c.count + n, c.deadline), rest, a, b)
    decreases n
  {
    if n == 0 {
      assert Repeat(t, n) + rest == rest;
    } else {
      assert (Repeat(t, n) + rest)[1..] == Repeat(t, n - 1) + rest;
      Burst(limit, window, Hit(c, t, window), t, n - 1, rest, a, b);
    }
  }

  /** A burst that opens a window. */
  lemma OpeningBurst(limit: nat, window: nat, c: Counter, t: nat, rest: seq<nat>, a: nat, b: int)
    requires limit >= 1 && window > 0 && (c.Live? ==> c.deadline <= t) && a <= t < b
    ensures AllowedIn(limit, window, c, Repeat(t, limit) + rest, a, b)
         == limit + AllowedIn(limit, window, Live(limit, t + window), rest, a, b)
  {
    assert (Repeat(t, limit) + rest)[1..] == Repeat(t, limit - 1) + rest;
    Burst(limit, window, Live(1, t + window), t, limit - 1, rest, a, b);
  }

  /** All the bursts are admitted, which fills the quota. */
  lemma {:induction false} BurstsFillQuota(limit: nat, window: nat, c: Counter, t: nat, a: nat, b: int)
    requires limit >= 1 && window > 0 && (c.Live? ==> c.deadline <= t) && a <= t
    ensures AllowedIn(limit, window, c, Bursts(limit, window, t, b), a, b) == Quota(limit, window, b - t)
    decreases if t < b then b - t else 0
  {
    if t < b {
      OpeningBurst(limit, window, c, t, Bursts(limit, window, t + window, b), a, b);
      BurstsFillQuota(limit, window, Live(limit, t + window), t + window, a, b);
      assert b - t - window == b - (t + window);
    }
  }

  /** One call before the interval, limit - 1 at its start just before the window ends, then bursts. */
  function LateBursts(limit: nat, window: nat, length: nat): seq<nat>
    requires limit >= 1 && window >= 2
  {
    [0] + (Repeat(window - 1, limit - 1) + Bursts(limit, window, window, window - 1 + length))
  }

  lemma LateBurstsAreOrdered(limit: nat, window: nat, length: nat)
    requires limit >= 1 && window >= 2
    ensures Ordered(LateBursts(limit, window, length))
  {
    var late, bursts := Repeat(window - 1, limit - 1), Bursts(limit, window, window, window - 1 + length);
    BurstsAreOrdered(limit, window, window, window - 1 + length);
    JoinOrdered(late, bursts, window - 1);
    JoinOrdered([0], late + bursts, 0);
  }

  lemma LateBurstsFillQuota(limit: nat, window: nat, length: nat)
    requires limit >= 1 && window >= 2 && length >= 1
    ensures AllowedIn(limit, window, Absent, LateBursts(limit, window, length), window - 1, window - 1 + length)
         == limit - 1 + Quota(limit, window, length - 1)
  {
    var a, b := window - 1, window - 1 + length;
    var bursts := Bursts(limit, window, window, b);
    assert LateBursts(limit, window, length)[1..] == Repeat(a, limit - 1) + bursts;
    Burst(limit, window, Live(1, window), a, limit - 1, bursts, a, b);
    BurstsFillQuota(limit, window, Live(limit, window), window, a, b);
  }

  /** For windows of one moment the quota is the larger part of the bound. */
  lemma {:induction false} QuotaOfMoments(limit: nat, length: nat)
    requires length >= 1
    ensures Quota(limit, 1, length) == limit + Quota(limit, 1, length - 1)
  {
  }

  /** For every limit, window and length some run and some interval reach the bound. */
  lemma BoundIsReached(limit: nat, window: nat, length: nat) returns (times: seq<nat>, a: nat)
    requires limit >= 1 && window > 0
    ensures Ordered(times)
    ensures AllowedIn(limit, window, Absent, times, a, a + length) == Bound(limit, window, length)
  {
    if window >= 2 && length >= 1 && Quota(limit, window, length) < limit - 1 + Quota(limit, window, length - 1) {
      times, a := LateBursts(limit, window, length), window - 1;
      LateBurstsAreOrdered(limit, window, length);
      LateBurstsFillQuota(limit, window, length);
    } else {
      times, a := Bursts(limit, window, 0, length), 0;
      BurstsAreOrdered(limit, window, 0, length);
      BurstsFillQuota(limit, window, Absent, 0, 0, length);
      if window == 1 && length >= 1 {
        QuotaOfMoments(limit, length);
      }
    }
  }

  // ---------- windows as configured ----------

  /** The bound for one window length, and for one or at least two moments more. */
  lemma BoundNearOneWindow(limit: nat, window: nat, extra: nat)
    requires limit >= 1 && window >= 2 && extra < window
    ensures Bound(limit, window, window + extra)
         == if extra == 0 then 2 * limit - 1 else if extra == 1 then 2 * limit else 3 * limit - 1
  {
    assert Quota(limit, window, window) == limit + Quota(limit, window, 0);
    assert Quota(limit, window, window - 1) == limit + Quota(limit, window, -1);
    if extra >= 1 {
      assert Quota(limit, window, window + extra) == limit + (limit + Quota(limit, window, extra - window));
    }
    if extra >= 2 {
      assert Quota(limit, window, window + extra - 1) == limit + (limit + Quota(limit, window, extra - 1 - window));
    }
  }

  /** Any half-open interval of one window length admits at most 2 * limit - 1 calls. */
  lemma AllowedInOneWindowLength(limit: nat, window: nat, times: seq<nat>, a: nat)
    requires limit >= 1 && window > 0 && Ordered(times)
    ensures AllowedIn(limit, window, Absent, times, a, a + window) <= 2 * limit - 1
  {
    AllowedInAnyInterval(limit, window, Absent, times, a, window);
    assert Quota(limit, window, window) == limit + Quota(limit, window, 0);
    QuotaGrows(limit, window, window - 1, window);
  }

  /** With both ends counted it is 2 * limit. */
  lemma AllowedInClosedInterval(limit: nat, window: nat, times: seq<nat>, a: nat)
    requires limit >= 1 && window > 0 && Ordered(times)
    ensures AllowedIn(limit, window, Absent, times, a, a + window + 1) <= 2 * limit
  {
    AllowedInAnyInterval(limit, window, Absent, times, a, window + 1);
    assert Quota(limit, window, window + 1) == limit + (limit + Quota(limit, window, 1 - window));
    assert Quota(limit, window, window) == limit + Quota(limit, window, 0);
  }

  /** int(window.Seconds()) seconds, in milliseconds. */
  function Truncated(configured: nat): nat {
    configured / 1000 * 1000
  }

  /** What can pass in one window as configured, whose fraction of a second is lost. */
  function ConfiguredBound(limit: nat, configured: nat): nat
    requires limit >= 1
  {
    if configured % 1000 == 0 then 2 * limit - 1 else if configured % 1000 == 1 then 2 * limit else 3 * limit - 1
  }

  lemma ConfiguredBoundIsTheBound(limit: nat, configured: nat)
    requires limit >= 1 && configured >= 1000
    ensures Truncated(configured) >= 1000
    ensures Bound(limit, Truncated(configured), configured) == ConfiguredBound(limit, configured)
  {
    var window, extra := Truncated(configured), configured % 1000;
    assert configured == window + extra && window >= 1000;
    BoundNearOneWindow(limit, window, extra);
  }

  /** No run lets more through, in any interval as long as the configured window. */
  lemma AllowedInConfiguredWindow(limit: nat, configured: nat, times: seq<nat>, a: nat)
    requires limit >= 1 && configured >= 1000 && Ordered(times)
    ensures AllowedIn(limit, Truncated(configured), Absent, times, a, a + configured)
         <= ConfiguredBound(limit, configured)
  {
    ConfiguredBoundIsTheBound(limit, configured);
    AllowedInAnyInterval(limit, Truncated(configured), Absent, times, a, configured);
  }

  /** And some run lets that many through, for every configuration. */
  lemma ConfiguredBoundIsReached(limit: nat, configured: nat) returns (times: seq<nat>, a: nat)
    requires limit >= 1 && configured >= 1000
    ensures Ordered(times)
    ensures AllowedIn(limit, Truncated(configured), Absent, times, a, a + configured)
         == ConfiguredBound(limit, configured)
  {
    ConfiguredBoundIsTheBound(limit, configured);
    times, a := BoundIsReached(limit, Truncated(configured), configured);
  }

  /** How many calls of a run are allowed within the given length from a on. */
  function AllowedFor(limit: nat, window: nat, times: seq<nat>, a: nat, length: nat): nat {
    AllowedIn(limit, window, Absent, times, a, a + length)
  }

  /** No run lets more than the bound through in any interval of the length. */
  ghost predicate KeepsWithin(limit: nat, window: nat, length: nat, bound: nat) {
    forall times, a: nat :: Ordered(times) ==> AllowedFor(limit, window, times, a, length) <= bound
  }

  /** The bound for one window holds as configured exactly if the configured window has no fraction of a second. */
  lemma WholeSecondsKeepTheBound(limit: nat, configured: nat)
    requires limit >= 1 && configured >= 1000
    ensures KeepsWithin(limit, Truncated(configured), configured, 2 * limit - 1) <==> configured % 1000 == 0
  {
    if configured % 1000 == 0 {
      forall times, a: nat | Ordered(times)
        ensures AllowedFor(limit, Truncated(configured), times, a, configured) <= 2 * limit - 1
      {
        AllowedInConfiguredWindow(limit, configured, times, a);
      }
    } else {
      var times, a := ConfiguredBoundIsReached(limit, configured);
      assert AllowedFor(limit, Truncated(configured), times, a, configured) > 2 * limit - 1;
    }
  }

  // ---------- the store and the limiter ----------

  datatype Action = Login | Register

  datatype Key = Key(action: Action, email: int)

  /** The part of Valkey the script touches: values and, separately, the expiries of keys. */
  class Store {
    var values: map<Key, nat>
    var deadlines: map<Key, nat>

    /** Between scripts no counter is without an expiry. */
    ghost predicate Valid()
      reads this
    {
      values.Keys == deadlines.Keys && forall k :: k in values ==> values[k] >= 1
    }

    ghost function Counter(key: Key): Counter
      reads this
    {
      if key in values && key in deadlines then Live(values[key], deadlines[key]) else Absent
    }

    constructor ()
      ensures Valid() && forall k :: Counter(k) == Absent
    {
      values, deadlines := map[], map[];
    }

    /** INCR: an expired key is gone before the command runs. */
    method Incr(key: Key, now: nat) returns (current: nat)
      modifies this
      ensures var expired := key in old(deadlines) && old(deadlines)[key] <= now;
              && current == (if key in old(values) && !expired then old(values)[key] else 0) + 1
              && values == old(values)[key := current]
              && deadlines == if expired then old(deadlines) - {key} else old(deadlines)
    {
      if key in deadlines && deadlines[key] <= now {
        values := values - {key};
        deadlines := deadlines - {key};
      }
      current := if key in values then values[key] + 1 else 1;
      values := values[key := current];
    }

    /** EXPIRE with a positive number of seconds. */
    method Expire(key: Key, now: nat, seconds: nat)
      requires seconds > 0 && key in values
      modifies this`deadlines
      ensures deadlines == old(deadlines)[key := now + seconds * 1000]
    {
      deadlines := deadlines[key := now + seconds * 1000];
    }

    method IncrWithExpiry(key: Key, now: nat, seconds: nat) returns (current: nat)
      requires Valid() && seconds > 0
      modifies this
      ensures Valid()
      ensures Counter(key) == Hit(old(Counter(key)), now, seconds * 1000) && current == Counter(key).count
      ensures forall k :: k != key ==> Counter(k) == old(Counter(k))
    {
      current := Incr(key, now);
      if current == 1 {
        Expire(key, now, seconds);
      }
    }
  }

  class Limiter {
    const limit: nat
    const windowMs: nat
    const store: Store

    /** The configuration is only accepted with limit >= 1 and a window of at least a second. */
    constructor (store: Store, limit: nat, windowMs: nat)
      requires limit >= 1 && windowMs >= 1000
      ensures this.store == store && this.limit == limit && this.windowMs == windowMs
    {
      this.store, this.limit, this.windowMs := store, limit, windowMs;
    }

    method Allow(key: Key, now: nat) returns (r: Result<(), Key>)
      requires store.Valid() && windowMs >= 1000
      modifies store
      ensures store.Valid()
      ensures store.Counter(key) == Hit(old(store.Counter(key)), now, Truncated(windowMs))
      ensures r == if Admits(limit, old(store.Counter(key)), now, Truncated(windowMs)) then Ok(()) else Err(key)
      ensures forall k :: k != key ==> store.Counter(k) == old(store.Counter(k))
    {
      var ttlSeconds := windowMs / 1000;
      var result := store.IncrWithExpiry(key, now, ttlSeconds);
      if result > limit {
        return Err(key);
      }
      return Ok(());
    }
  }
}
