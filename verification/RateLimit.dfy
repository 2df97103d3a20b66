/**
 The fixed-window rate limiter (rate-limit.middleware.ts; the wallet service has the same one), with its in-memory
 and its Redis store.  All limiters of a process share one store, hence one counter per key.
 */
module RateLimit {
  import opened Prelude

  datatype Window = Window(count: int, resetAt: int)

  /** `eager`: does a counter already expire at the instant resetAt?  The in-memory store keeps it for that instant. */
  predicate Expired(w: Window, now: int, eager: bool) {
    now > w.resetAt || (eager && now == w.resetAt)
  }

  function Hit(windows: map<string, Window>, key: string, windowMs: int, now: int, eager: bool): Window {
    if key !in windows || Expired(windows[key], now, eager) then Window(1, now + windowMs)
    else windows[key].(count := windows[key].count + 1)
  }

  class InMemoryStore {
    var store: map<string, Window>

    constructor ()
      ensures store == map[]
    {
      store := map[];
    }

    method Increment(key: string, windowMs: int, now: int) returns (r: Window)
      modifies this
      ensures r == Hit(old(store), key, windowMs, now, false) && store == old(store)[key := r]
      ensures r == if key in old(store) && now <= old(store)[key].resetAt
                   then Window(old(store)[key].count + 1, old(store)[key].resetAt)
                   else Window(1, now + windowMs)
    {
      if key !in store || now > store[key].resetAt {
        store := store[key := Window(1, now + windowMs)];
      } else {
        store := store[key := store[key].(count := store[key].count + 1)];
      }
      r := store[key];
    }
  }

  /** The counters Redis holds, with their expiry instants; a counter may be gone at that instant (eager) or only after it. */
  class RedisStore {
    const eager: bool
    var keys: map<string, Window>

    ghost predicate Valid()
      reads this
    {
      forall k :: k in keys ==> keys[k].count >= 1
    }

    constructor (eager: bool)
      ensures Valid() && keys == map[] && this.eager == eager
    {
      this.eager, keys := eager, map[];
    }

    /** INCR; PEXPIRE on the first hit only; PTTL, from which the caller computes resetAt. */
    method Increment(key: string, windowMs: int, now: int) returns (r: Window)
      requires Valid() && windowMs > 0
      modifies this`keys
      ensures Valid() && r == Hit(old(keys), key, windowMs, now, eager) && keys == old(keys)[key := r]
      ensures r == if key in old(keys) && (now < old(keys)[key].resetAt || (!eager && now == old(keys)[key].resetAt))
                   then Window(old(keys)[key].count + 1, old(keys)[key].resetAt)
                   else Window(1, now + windowMs)
    {
      var count, expireAt := 1, now;
      if key in keys && !Expired(keys[key], now, eager) {
        count, expireAt := keys[key].count + 1, keys[key].resetAt;
      }
      if count == 1 {
        expireAt := now + windowMs;
      }
      keys := keys[key := Window(count, expireAt)];
      var pttl := expireAt - now;
      r := Window(count, now + Max(pttl, 0));
    }
  }

  /** The middleware's decision, with the seconds it puts in Retry-After. */
  method Decide(w: Window, maxRequests: int, now: int) returns (admitted: bool, retryAfter: int)
    ensures admitted <==> w.count <= maxRequests
    ensures !admitted ==> 1000 * (retryAfter - 1) < w.resetAt - now <= 1000 * retryAfter
  {
    admitted, retryAfter := true, 0;
    if w.count > maxRequests {
      admitted, retryAfter := false, CeilSeconds(w.resetAt - now);
    }
  }

  function CeilSeconds(ms: int): int {
    -((-ms) / 1000)
  }

  /** A client that waits exactly Retry-After finds the in-memory window over iff the wait was rounded up. */
  lemma RetryAfterSuffices(w: Window, now: int)
    requires now <= w.resetAt
    ensures Expired(w, now + 1000 * CeilSeconds(w.resetAt - now), false) <==> (w.resetAt - now) % 1000 != 0
  {
  }

  // ---- Runs ---------------------------------------------------------------------------------

  /** A request that limiter `limiter`, configured with `max`, handles at time `at`. */
  datatype Request = Request(key: string, limiter: nat, max: int, at: int)

  function Run(rs: seq<Request>, windowMs: int, eager: bool): map<string, Window> {
    if |rs| == 0 then map[]
    else
      var before := Run(rs[..|rs| - 1], windowMs, eager);
      var r := rs[|rs| - 1];
      before[r.key := Hit(before, r.key, windowMs, r.at, eager)]
  }

  predicate LastAdmitted(rs: seq<Request>, windowMs: int, eager: bool)
    requires |rs| > 0
  {
    var r := rs[|rs| - 1];
    Run(rs, windowMs, eager)[r.key].count <= r.max
  }

  /** How many requests for the key the limiters `who` admitted at times in [lo, hi]. */
  function Admitted(rs: seq<Request>, windowMs: int, eager: bool, key: string, who: set<nat>, lo: int, hi: int): nat {
    if |rs| == 0 then 0
    else
      var r := rs[|rs| - 1];
      Admitted(rs[..|rs| - 1], windowMs, eager, key, who, lo, hi)
      + if r.key == key && r.limiter in who && lo <= r.at <= hi && LastAdmitted(rs, windowMs, eager) then 1 else 0
  }

  ghost predicate InOrder(rs: seq<Request>) {
    forall i, j :: 0 <= i < j < |rs| ==> rs[i].at <= rs[j].at
  }

  ghost predicate Capped(rs: seq<Request>, who: set<nat>, max: int) {
    forall i :: 0 <= i < |rs| && rs[i].limiter in who ==> rs[i].max <= max
  }

  /** The time of the last request for the key. */
  ghost function LastFor(rs: seq<Request>, key: string): int {
    if |rs| == 0 then 0
    else if rs[|rs| - 1].key == key then rs[|rs| - 1].at
    else LastFor(rs[..|rs| - 1], key)
  }

  /**
   What a run has admitted in [t, t + windowMs], by where the key's current window began.  `first` is what the window
   loses when it began before t: its first request was admitted outside the interval - a fact the bound can use only if
   no second window can begin at the far end, that is for the store that keeps a counter at the instant it resets.
   */
  ghost predicate Bounded(rs: seq<Request>, windowMs: int, eager: bool, key: string, who: set<nat>, t: int, max: int) {
    var a := Admitted(rs, windowMs, eager, key, who, t, t + windowMs);
    var windows := Run(rs, windowMs, eager);
    var first := if eager then 0 else 1;
    if key !in windows then a == 0
    else
      var w := windows[key];
      var start := w.resetAt - windowMs;
      && w.count >= 1
      && start <= LastFor(rs, key) <= w.resetAt - (if eager then 1 else 0)
      && (a > 0 ==> LastFor(rs, key) >= t)
      && (start < t ==> a <= Min(w.count, max) - first)
      && (start == t ==> a <= Min(w.count, max))
      && (t < start <= t + windowMs ==> a <= max - first + Min(w.count, max))
      && (t + windowMs < start ==> a <= 2 * max - first)
  }

  lemma {:induction false} LastForInOrder(rs: seq<Request>, key: string, now: int, windowMs: int, eager: bool)
    requires forall i :: 0 <= i < |rs| ==> rs[i].at <= now
    requires key in Run(rs, windowMs, eager)
    ensures LastFor(rs, key) <= now
  {
    if rs[|rs| - 1].key != key {
      LastForInOrder(rs[..|rs| - 1], key, now, windowMs, eager);
    }
  }

  lemma {:induction false} RunIsBounded(rs: seq<Request>, windowMs: int, eager: bool, key: string, who: set<nat>, t: int, max: int)
    requires windowMs > 0 && max >= 1 && InOrder(rs) && Capped(rs, who, max)
    ensures Bounded(rs, windowMs, eager, key, who, t, max)
  {
    if |rs| > 0 {
      var rest := rs[..|rs| - 1];
      var r := rs[|rs| - 1];
      RunIsBounded(rest, windowMs, eager, key, who, t, max);
      if key in Run(rest, windowMs, eager) {
        LastForInOrder(rest, key, r.at, windowMs, eager);
      }
    }
  }

  /**
   A fixed window is a sliding bound: whatever the arrival times, in any closed interval of windowMs milliseconds the
   limiters `who`, none of which allows more than max, together admit at most 2 * max requests per key - one less
   with the store that keeps a counter at the instant it resets.  With a single limiter in `who` this is its own limit;
   with all of them, the largest.
   */
  lemma SlidingBound(rs: seq<Request>, windowMs: int, eager: bool, key: string, who: set<nat>, t: int, max: int)
    requires windowMs > 0 && max >= 1 && InOrder(rs) && Capped(rs, who, max)
    ensures Admitted(rs, windowMs, eager, key, who, t, t + windowMs) <= 2 * max - (if eager then 0 else 1)
  {
    RunIsBounded(rs, windowMs, eager, key, who, t, max);
  }

  /** Within one window, limiters sharing the counter admit together no more than the largest limit, and each no more than its own. */
  lemma WindowBound(rs: seq<Request>, windowMs: int, eager: bool, key: string, who: set<nat>, max: int)
    requires windowMs > 0 && max >= 1 && InOrder(rs) && Capped(rs, who, max) && key in Run(rs, windowMs, eager)
    ensures var w := Run(rs, windowMs, eager)[key];
            Admitted(rs, windowMs, eager, key, who, w.resetAt - windowMs, w.resetAt) <= Min(w.count, max)
  {
    RunIsBounded(rs, windowMs, eager, key, who, Run(rs, windowMs, eager)[key].resetAt - windowMs, max);
  }

  // ---- The bound is reached -----------------------------------------------------------------

  const KEY: string := "rl"

  function Burst(n: nat, max: int, at: int): seq<Request> {
    seq(n, _ => Request(KEY, 0, max, at))
  }

  /** One more request inside a live window with room for it is admitted. */
  lemma OneMoreAdmitted(rs: seq<Request>, windowMs: int, eager: bool, r: Request, lo: int, hi: int)
    requires r.key == KEY && r.limiter == 0 && lo <= r.at <= hi
    requires var ws := Run(rs, windowMs, eager);
             KEY in ws && !Expired(ws[KEY], r.at, eager) && ws[KEY].count + 1 <= r.max
    ensures var ws, ws' := Run(rs, windowMs, eager), Run(rs + [r], windowMs, eager);
            KEY in ws' && ws'[KEY] == Window(ws[KEY].count + 1, ws[KEY].resetAt)
    ensures Admitted(rs + [r], windowMs, eager, KEY, {0}, lo, hi) == Admitted(rs, windowMs, eager, KEY, {0}, lo, hi) + 1
  {
    assert (rs + [r])[..|rs|] == rs;
  }

  /** n requests at one instant inside a live window with room for them are all admitted. */
  lemma {:induction false} BurstAdmitted(rs: seq<Request>, windowMs: int, eager: bool, n: nat, max: int, at: int, lo: int, hi: int)
    requires var ws := Run(rs, windowMs, eager);
             KEY in ws && !Expired(ws[KEY], at, eager) && ws[KEY].count + n <= max
    requires lo <= at <= hi
    ensures var ws, ws' := Run(rs, windowMs, eager), Run(rs + Burst(n, max, at), windowMs, eager);
            KEY in ws' && ws'[KEY] == Window(ws[KEY].count + n, ws[KEY].resetAt)
    ensures Admitted(rs + Burst(n, max, at), windowMs, eager, KEY, {0}, lo, hi) == Admitted(rs, windowMs, eager, KEY, {0}, lo, hi) + n
  {
    if n == 0 {
      assert rs + Burst(0, max, at) == rs;
    } else {
      var r := Request(KEY, 0, max, at);
      BurstAdmitted(rs, windowMs, eager, n - 1, max, at, lo, hi);
      OneMoreAdmitted(rs + Burst(n - 1, max, at), windowMs, eager, r, lo, hi);
      assert rs + Burst(n, max, at) == rs + Burst(n - 1, max, at) + [r];
    }
  }

  /** One request that opens a window. */
  lemma Opens(rs: seq<Request>, windowMs: int, eager: bool, max: int, at: int, lo: int, hi: int)
    requires max >= 1
    requires KEY in Run(rs, windowMs, eager) ==> Expired(Run(rs, windowMs, eager)[KEY], at, eager)
    ensures var ws := Run(rs + Burst(1, max, at), windowMs, eager);
            KEY in ws && ws[KEY] == Window(1, at + windowMs)
    ensures Admitted(rs + Burst(1, max, at), windowMs, eager, KEY, {0}, lo, hi)
            == Admitted(rs, windowMs, eager, KEY, {0}, lo, hi) + if lo <= at <= hi then 1 else 0
  {
    assert (rs + Burst(1, max, at))[..|rs|] == rs;
  }

  lemma BurstInOrder(rs: seq<Request>, n: nat, max: int, at: int)
    requires InOrder(rs) && Capped(rs, {0}, max) && forall i :: 0 <= i < |rs| ==> rs[i].at <= at
    ensures var longer := rs + Burst(n, max, at);
            InOrder(longer) && Capped(longer, {0}, max) && forall i :: 0 <= i < |longer| ==> longer[i].at <= at
  {
  }

  /** A window started at `open` and filled up at `fill`. */
  lemma Filled(rs: seq<Request>, windowMs: int, eager: bool, max: int, open: int, fill: int, lo: int, hi: int)
    returns (longer: seq<Request>)
    requires max >= 1 && windowMs > 0 && InOrder(rs) && Capped(rs, {0}, max)
    requires forall i :: 0 <= i < |rs| ==> rs[i].at <= open
    requires KEY in Run(rs, windowMs, eager) ==> Expired(Run(rs, windowMs, eager)[KEY], open, eager)
    requires open <= fill < open + windowMs + (if eager then 0 else 1) && lo <= fill <= hi
    ensures InOrder(longer) && Capped(longer, {0}, max) && forall i :: 0 <= i < |longer| ==> longer[i].at <= fill
    ensures KEY in Run(longer, windowMs, eager) && Run(longer, windowMs, eager)[KEY] == Window(max, open + windowMs)
    ensures Admitted(longer, windowMs, eager, KEY, {0}, lo, hi)
            == Admitted(rs, windowMs, eager, KEY, {0}, lo, hi) + max - (if lo <= open <= hi then 0 else 1)
  {
    var started := rs + Burst(1, max, open);
    Opens(rs, windowMs, eager, max, open, lo, hi);
    BurstInOrder(rs, 1, max, open);
    longer := started + Burst(max - 1, max, fill);
    BurstAdmitted(started, windowMs, eager, max - 1, max, fill, lo, hi);
    BurstInOrder(started, max - 1, max, fill);
  }

  /** The run admits, within a closed window that starts at t, as many requests as the sliding bound allows. */
  ghost predicate Attains(rs: seq<Request>, t: int, windowMs: int, eager: bool, max: int) {
    && InOrder(rs) && Capped(rs, {0}, max)
    && Admitted(rs, windowMs, eager, KEY, {0}, t, t + windowMs) == 2 * max - (if eager then 0 else 1)
  }

  /** Both bounds are sharp, for every limit and every window length. */
  lemma SlidingBoundIsSharp(windowMs: int, eager: bool, max: int)
    requires windowMs > 0 && max >= 1
    ensures exists rs, t :: Attains(rs, t, windowMs, eager, max)
  {
    var t := if eager then 0 else 1;
    var hi := t + windowMs;
    var once := Filled([], windowMs, eager, max, 0, t, t, hi);
    var twice := Filled(once, windowMs, eager, max, hi, hi, t, hi);
    assert Attains(twice, t, windowMs, eager, max);
  }
}
