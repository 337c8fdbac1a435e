/** Fixed-window rate limiting: both limiters against one that never cleans up, and what it guarantees. */
module RateLimits {
  import opened Prelude

  datatype Window = Window(start: int, count: nat)

  datatype Call = Call(key: string, now: int)

  datatype Decision = Decision(allowed: bool, remaining: int, retryAfterSeconds: int)

  /** Math.max(1, Math.ceil(ms / 1000)). */
  function RetrySeconds(ms: int): int {
    Max(1, -((-ms) / 1000))
  }

  predicate Expired(w: Window, now: int, windowMs: nat) {
    now - w.start >= windowMs
  }

  /** The window a call falls into, counting the call. */
  function Next(current: Option<Window>, now: int, windowMs: nat): Window {
    if current.None? || Expired(current.value, now, windowMs) then Window(now, 1)
    else Window(current.value.start, current.value.count + 1)
  }

  function Decide(w: Window, now: int, limit: int, windowMs: nat): Decision {
    Decision(w.count <= limit, Max(0, limit - w.count), RetrySeconds(w.start + windowMs - now))
  }

  // FixedWindowRateLimiter, with its cleanup.

  function Cleanup(buckets: map<string, Window>, now: int, windowMs: nat): map<string, Window> {
    map k | k in buckets && !Expired(buckets[k], now, windowMs) :: buckets[k]
  }

  function Consume(buckets: map<string, Window>, c: Call, windowMs: nat): map<string, Window> {
    var current := Lookup(buckets, c.key);
    var kept := if current.None? || Expired(current.value, c.now, windowMs) then Cleanup(buckets, c.now, windowMs) else buckets;
    kept[c.key := Next(current, c.now, windowMs)]
  }

  // consumeAuthAttempt, with a saturating count and its own cleanup.

  const MAX_TRACKED_KEYS := 10_000

  datatype Attempts = Attempts(count: nat, resetAt: int)

  function CleanupAttempts(attempts: map<string, Attempts>, now: int): map<string, Attempts> {
    if |attempts| > MAX_TRACKED_KEYS then map k | k in attempts && attempts[k].resetAt > now :: attempts[k]
    else attempts
  }

  function ConsumeAttempt(attempts: map<string, Attempts>, c: Call, limit: int, windowMs: nat): (map<string, Attempts>, bool, int) {
    var kept := CleanupAttempts(attempts, c.now);
    if c.key !in kept || kept[c.key].resetAt <= c.now then
      (kept[c.key := Attempts(1, c.now + windowMs)], true, 0)
    else if kept[c.key].count >= limit then
      (kept, false, RetrySeconds(kept[c.key].resetAt - c.now))
    else
      (kept[c.key := Attempts(kept[c.key].count + 1, kept[c.key].resetAt)], true, 0)
  }

  // The reference limiter: no cleanup, one window per key ever seen.

  function Track(windows: map<string, Window>, c: Call, windowMs: nat): map<string, Window> {
    windows[c.key := Next(Lookup(windows, c.key), c.now, windowMs)]
  }

  predicate Ordered(calls: seq<Call>) {
    forall i, j :: 0 <= i < j < |calls| ==> calls[i].now <= calls[j].now
  }

  /** The reference state after the first `n` calls. */
  function StateAt(calls: seq<Call>, n: nat, windowMs: nat): map<string, Window>
    requires n <= |calls|
  {
    if n == 0 then map[] else Track(StateAt(calls, n - 1, windowMs), calls[n - 1], windowMs)
  }

  function BucketsAt(calls: seq<Call>, n: nat, windowMs: nat): map<string, Window>
    requires n <= |calls|
  {
    if n == 0 then map[] else Consume(BucketsAt(calls, n - 1, windowMs), calls[n - 1], windowMs)
  }

  function AttemptsAt(calls: seq<Call>, n: nat, limit: int, windowMs: nat): map<string, Attempts>
    requires n <= |calls|
  {
    if n == 0 then map[] else ConsumeAttempt(AttemptsAt(calls, n - 1, limit, windowMs), calls[n - 1], limit, windowMs).0
  }

  /** The window of call `i` in the reference limiter. */
  function WindowOf(calls: seq<Call>, i: nat, windowMs: nat): Window
    requires i < |calls|
  {
    Next(Lookup(StateAt(calls, i, windowMs), calls[i].key), calls[i].now, windowMs)
  }

  function DecisionOf(calls: seq<Call>, i: nat, limit: int, windowMs: nat): Decision
    requires i < |calls|
  {
    Decide(WindowOf(calls, i, windowMs), calls[i].now, limit, windowMs)
  }

  /** Cleanup only ever forgets windows that have expired. */
  predicate SameLive(buckets: map<string, Window>, windows: map<string, Window>, now: int, windowMs: nat) {
    && (forall k :: k in buckets ==> k in windows && buckets[k] == windows[k])
    && (forall k :: k in windows && k !in buckets ==> Expired(windows[k], now, windowMs))
  }

  predicate SameAttempts(attempts: map<string, Attempts>, windows: map<string, Window>, now: int, limit: int, windowMs: nat) {
    && (forall k :: k in attempts ==>
          && k in windows
          && attempts[k].resetAt == windows[k].start + windowMs
          && attempts[k].count == Min(windows[k].count, limit))
    && (forall k :: k in windows && k !in attempts ==> Expired(windows[k], now, windowMs))
    && (forall k :: k in windows ==> windows[k].count >= 1)
  }

  lemma ConsumeRefines(buckets: map<string, Window>, windows: map<string, Window>, before: int, c: Call, windowMs: nat)
    requires SameLive(buckets, windows, before, windowMs) && before <= c.now
    ensures SameLive(Consume(buckets, c, windowMs), Track(windows, c, windowMs), c.now, windowMs)
    ensures Consume(buckets, c, windowMs)[c.key] == Track(windows, c, windowMs)[c.key]
  {
  }

  lemma CleanupRefines(attempts: map<string, Attempts>, windows: map<string, Window>, before: int, now: int, limit: int, windowMs: nat)
    requires SameAttempts(attempts, windows, before, limit, windowMs) && before <= now
    ensures SameAttempts(CleanupAttempts(attempts, now), windows, now, limit, windowMs)
  {
  }

  lemma AttemptRefines(attempts: map<string, Attempts>, windows: map<string, Window>, before: int, c: Call, limit: int, windowMs: nat)
    requires SameAttempts(attempts, windows, before, limit, windowMs) && before <= c.now && limit >= 1
    ensures
      var (attempts', allowed, retry) := ConsumeAttempt(attempts, c, limit, windowMs);
      var w := Next(Lookup(windows, c.key), c.now, windowMs);
      && SameAttempts(attempts', Track(windows, c, windowMs), c.now, limit, windowMs)
      && allowed == Decide(w, c.now, limit, windowMs).allowed
      && (!allowed ==> retry == Decide(w, c.now, limit, windowMs).retryAfterSeconds)
  {
    CleanupRefines(attempts, windows, before, c.now, limit, windowMs);
  }

  lemma {:induction false} BucketsRefine(calls: seq<Call>, n: nat, windowMs: nat)
    requires n <= |calls| && Ordered(calls)
    ensures n > 0 ==> SameLive(BucketsAt(calls, n, windowMs), StateAt(calls, n, windowMs), calls[n - 1].now, windowMs)
  {
    if n == 0 {
    } else {
      BucketsRefine(calls, n - 1, windowMs);
      var before := if n > 1 then calls[n - 2].now else calls[n - 1].now;
      ConsumeRefines(BucketsAt(calls, n - 1, windowMs), StateAt(calls, n - 1, windowMs), before, calls[n - 1], windowMs);
    }
  }

  lemma {:induction false} AttemptsRefine(calls: seq<Call>, n: nat, limit: int, windowMs: nat)
    requires n <= |calls| && Ordered(calls) && limit >= 1
    ensures n > 0 ==>
      SameAttempts(AttemptsAt(calls, n, limit, windowMs), StateAt(calls, n, windowMs), calls[n - 1].now, limit, windowMs)
  {
    if n == 0 {
    } else {
      AttemptsRefine(calls, n - 1, limit, windowMs);
      var before := if n > 1 then calls[n - 2].now else calls[n - 1].now;
      AttemptRefines(AttemptsAt(calls, n - 1, limit, windowMs), StateAt(calls, n - 1, windowMs), before, calls[n - 1],
                     limit, windowMs);
    }
  }

  /**
   * The two limiters agree: on any sequence of calls in time order, over any keys, with the same
   * window and a limit of at least one, both decide every call as the limiter that never cleans up
   * does, and give the same waiting time on refusal.
   */
  lemma LimitersAgree(calls: seq<Call>, i: nat, limit: int, windowMs: nat)
    requires i < |calls| && Ordered(calls) && limit >= 1
    ensures
      var c := calls[i];
      var fixed := Decide(Consume(BucketsAt(calls, i, windowMs), c, windowMs)[c.key], c.now, limit, windowMs);
      var (_, allowed, retry) := ConsumeAttempt(AttemptsAt(calls, i, limit, windowMs), c, limit, windowMs);
      && fixed == DecisionOf(calls, i, limit, windowMs)
      && allowed == fixed.allowed
      && (!allowed ==> retry == fixed.retryAfterSeconds)
  {
    var c := calls[i];
    BucketsRefine(calls, i, windowMs);
    AttemptsRefine(calls, i, limit, windowMs);
    var before := if i > 0 then calls[i - 1].now else c.now;
    ConsumeRefines(BucketsAt(calls, i, windowMs), StateAt(calls, i, windowMs), before, c, windowMs);
    AttemptRefines(AttemptsAt(calls, i, limit, windowMs), StateAt(calls, i, windowMs), before, c, limit, windowMs);
  }

  /** With a limit of zero they differ: the first attempt is always let through. */
  lemma ZeroLimitDiffers(c: Call, windowMs: nat)
    ensures ConsumeAttempt(map[], c, 0, windowMs).1
    ensures !Decide(Consume(map[], c, windowMs)[c.key], c.now, 0, windowMs).allowed
  {
  }

  // Bounds.

  /** Seen from call `i`, its key's window is still the same one, further filled, or starts a window length later. */
  lemma {:induction false} Later(calls: seq<Call>, i: nat, n: nat, windowMs: nat)
    requires i < n <= |calls| && Ordered(calls)
    ensures
      var key := calls[i].key;
      var w := WindowOf(calls, i, windowMs);
      key in StateAt(calls, n, windowMs)
      && var v := StateAt(calls, n, windowMs)[key];
      || (v.start == w.start && v.count >= w.count)
      || v.start >= w.start + windowMs
    decreases n
  {
    if i < n - 1 {
      Later(calls, i, n - 1, windowMs);
    }
  }

  /** Two calls of one key in the same window have different counts; otherwise their windows are disjoint. */
  lemma CallsApart(calls: seq<Call>, i: nat, j: nat, windowMs: nat)
    requires i < j < |calls| && Ordered(calls) && calls[i].key == calls[j].key
    ensures
      var v, w := WindowOf(calls, i, windowMs), WindowOf(calls, j, windowMs);
      (v.start == w.start && v.count < w.count) || v.start + windowMs <= w.start
  {
    Later(calls, i, j, windowMs);
  }

  lemma {:induction false} StartsInPast(calls: seq<Call>, n: nat, key: string, windowMs: nat)
    requires n <= |calls| && Ordered(calls) && key in StateAt(calls, n, windowMs)
    ensures n > 0 && StateAt(calls, n, windowMs)[key].start <= calls[n - 1].now
    ensures StateAt(calls, n, windowMs)[key].count >= 1
  {
    if n > 0 && calls[n - 1].key != key {
      StartsInPast(calls, n - 1, key, windowMs);
    } else if n > 0 && key in StateAt(calls, n - 1, windowMs) {
      StartsInPast(calls, n - 1, key, windowMs);
    }
  }

  lemma CallInItsWindow(calls: seq<Call>, i: nat, windowMs: nat)
    requires i < |calls| && Ordered(calls) && windowMs > 0
    ensures
      var w := WindowOf(calls, i, windowMs);
      w.start <= calls[i].now < w.start + windowMs && w.count >= 1
  {
    if calls[i].key in StateAt(calls, i, windowMs) {
      StartsInPast(calls, i, calls[i].key, windowMs);
    }
  }

  /** The allowed calls of one key in the window starting at `start`. */
  function AllowedIn(calls: seq<Call>, key: string, start: int, limit: int, windowMs: nat): set<nat> {
    set i: nat | i < |calls| && calls[i].key == key && WindowOf(calls, i, windowMs).start == start
                 && DecisionOf(calls, i, limit, windowMs).allowed
  }

  lemma {:induction false} DistinctCountsBound(calls: seq<Call>, s: set<nat>, n: nat, windowMs: nat)
    requires forall i :: i in s ==> i < |calls| && 1 <= WindowOf(calls, i, windowMs).count <= n
    requires forall i, j :: i in s && j in s && i != j ==>
      WindowOf(calls, i, windowMs).count != WindowOf(calls, j, windowMs).count
    ensures |s| <= n
    decreases n
  {
    if i :| i in s && WindowOf(calls, i, windowMs).count == n {
      DistinctCountsBound(calls, s - {i}, n - 1, windowMs);
    } else if n > 0 {
      DistinctCountsBound(calls, s, n - 1, windowMs);
    } else {
      assert s == {};
    }
  }

  /** Each window lets at most `limit` calls of a key through. */
  lemma WindowBound(calls: seq<Call>, key: string, start: int, limit: nat, windowMs: nat)
    requires Ordered(calls) && windowMs > 0
    ensures |AllowedIn(calls, key, start, limit, windowMs)| <= limit
  {
    var s := AllowedIn(calls, key, start, limit, windowMs);
    forall i | i in s ensures 1 <= WindowOf(calls, i, windowMs).count <= limit {
      CallInItsWindow(calls, i, windowMs);
    }
    forall i, j | i in s && j in s && i != j
      ensures WindowOf(calls, i, windowMs).count != WindowOf(calls, j, windowMs).count
    {
      if i < j { CallsApart(calls, i, j, windowMs); } else { CallsApart(calls, j, i, windowMs); }
    }
    DistinctCountsBound(calls, s, limit, windowMs);
  }

  /** The allowed calls of one key in the half-open interval of one window length from `begin`. */
  function AllowedDuring(calls: seq<Call>, key: string, begin: int, limit: int, windowMs: nat): set<nat> {
    set i: nat | i < |calls| && calls[i].key == key && begin <= calls[i].now < begin + windowMs
                 && DecisionOf(calls, i, limit, windowMs).allowed
  }

  /** No three windows of a key have calls within one window length. */
  lemma AtMostTwoWindows(calls: seq<Call>, i: nat, j: nat, k: nat, begin: int, windowMs: nat)
    requires Ordered(calls) && windowMs > 0 && i < |calls| && j < |calls| && k < |calls|
    requires calls[i].key == calls[j].key == calls[k].key
    requires begin <= calls[i].now < begin + windowMs && begin <= calls[j].now < begin + windowMs
    requires begin <= calls[k].now < begin + windowMs
    ensures
      var a, b, c := WindowOf(calls, i, windowMs).start, WindowOf(calls, j, windowMs).start, WindowOf(calls, k, windowMs).start;
      a == b || b == c || a == c
  {
    CallInItsWindow(calls, i, windowMs);
    CallInItsWindow(calls, j, windowMs);
    CallInItsWindow(calls, k, windowMs);
    Apart(calls, i, j, windowMs);
    Apart(calls, j, k, windowMs);
    Apart(calls, i, k, windowMs);
  }

  lemma Apart(calls: seq<Call>, i: nat, j: nat, windowMs: nat)
    requires i < |calls| && j < |calls| && Ordered(calls) && calls[i].key == calls[j].key
    ensures
      var a, b := WindowOf(calls, i, windowMs).start, WindowOf(calls, j, windowMs).start;
      a == b || a + windowMs <= b || b + windowMs <= a
  {
    if i < j { CallsApart(calls, i, j, windowMs); }
    if j < i { CallsApart(calls, j, i, windowMs); }
  }

  /** Every window was opened by a call made at its start. */
  lemma {:induction false} WindowOpened(calls: seq<Call>, i: nat, windowMs: nat) returns (opener: nat)
    requires i < |calls|
    ensures opener <= i && calls[opener].key == calls[i].key
    ensures WindowOf(calls, opener, windowMs) == Window(WindowOf(calls, i, windowMs).start, 1)
    ensures calls[opener].now == WindowOf(calls, i, windowMs).start
  {
    var key := calls[i].key;
    var current := Lookup(StateAt(calls, i, windowMs), key);
    if current.None? || Expired(current.value, calls[i].now, windowMs) {
      opener := i;
    } else {
      var before := LastCall(calls, i, key, windowMs);
      opener := WindowOpened(calls, before, windowMs);
    }
  }

  lemma {:induction false} LastCall(calls: seq<Call>, n: nat, key: string, windowMs: nat) returns (i: nat)
    requires n <= |calls| && key in StateAt(calls, n, windowMs)
    ensures i < n && calls[i].key == key && WindowOf(calls, i, windowMs) == StateAt(calls, n, windowMs)[key]
  {
    if calls[n - 1].key == key {
      i := n - 1;
    } else {
      i := LastCall(calls, n - 1, key, windowMs);
    }
  }

  /**
   * Any half-open interval of one window length contains at most twice the limit, less one, of
   * allowed calls per key: when it holds calls of two windows, the call that opened the earlier one
   * lies before it.
   */
  lemma IntervalBound(calls: seq<Call>, key: string, begin: int, limit: nat, windowMs: nat)
    requires Ordered(calls) && windowMs > 0 && limit >= 1
    ensures |AllowedDuring(calls, key, begin, limit, windowMs)| <= 2 * limit - 1
  {
    var s := AllowedDuring(calls, key, begin, limit, windowMs);
    if i :| i in s {
      var a := WindowOf(calls, i, windowMs).start;
      var first := AllowedIn(calls, key, a, limit, windowMs);
      WindowBound(calls, key, a, limit, windowMs);
      if j :| j in s && j !in first {
        Apart(calls, i, j, windowMs);
        if a < WindowOf(calls, j, windowMs).start {
          TwoWindows(calls, key, i, j, begin, limit, windowMs);
        } else {
          TwoWindows(calls, key, j, i, begin, limit, windowMs);
        }
      } else {
        SubsetBound(s, first, {});
      }
    }
  }

  lemma TwoWindows(calls: seq<Call>, key: string, i: nat, j: nat, begin: int, limit: nat, windowMs: nat)
    requires Ordered(calls) && windowMs > 0 && limit >= 1
    requires i in AllowedDuring(calls, key, begin, limit, windowMs) && j in AllowedDuring(calls, key, begin, limit, windowMs)
    requires WindowOf(calls, i, windowMs).start + windowMs <= WindowOf(calls, j, windowMs).start
    ensures |AllowedDuring(calls, key, begin, limit, windowMs)| <= 2 * limit - 1
  {
    var s := AllowedDuring(calls, key, begin, limit, windowMs);
    var a, b := WindowOf(calls, i, windowMs).start, WindowOf(calls, j, windowMs).start;
    var first, second := AllowedIn(calls, key, a, limit, windowMs), AllowedIn(calls, key, b, limit, windowMs);
    WindowBound(calls, key, a, limit, windowMs);
    WindowBound(calls, key, b, limit, windowMs);
    var opener := WindowOpened(calls, i, windowMs);
    CallInItsWindow(calls, j, windowMs);
    assert opener in first && opener !in s;
    forall k | k in s ensures k in (first - {opener}) + second {
      AtMostTwoWindows(calls, i, j, k, begin, windowMs);
    }
    SubsetBound(s, first - {opener}, second);
  }

  lemma SubsetBound(s: set<nat>, a: set<nat>, b: set<nat>)
    requires s <= a + b
    ensures |s| <= |a| + |b|
  {
    var t := a + b;
    assert t == s + (t - s);
    assert a + b == a + (b - a) && b == (b - a) + (a * b);
  }

  /** One call that opens a window, the rest of the limit at its very end, and the whole limit right after. */
  function Burst(key: string, start: int, limit: nat, windowMs: nat): seq<Call>
    requires limit >= 1 && windowMs > 1
  {
    seq(2 * limit, i => Call(key, if i == 0 then start else if i < limit then start + windowMs - 1 else start + windowMs))
  }

  lemma {:induction false} BurstFills(key: string, start: int, limit: nat, windowMs: nat, n: nat)
    requires limit >= 1 && windowMs > 1 && 1 <= n <= 2 * limit
    ensures Lookup(StateAt(Burst(key, start, limit, windowMs), n, windowMs), key) ==
            Some(if n <= limit then Window(start, n) else Window(start + windowMs, n - limit))
    decreases n
  {
    if n == 1 {
      assert StateAt(Burst(key, start, limit, windowMs), 0, windowMs) == map[];
    } else {
      BurstFills(key, start, limit, windowMs, n - 1);
    }
  }

  function Range(low: nat, high: nat): set<nat> {
    if high <= low then {} else Range(low, high - 1) + {high - 1}
  }

  lemma {:induction false} RangeCount(low: nat, high: nat)
    requires low <= high
    ensures |Range(low, high)| == high - low
    ensures forall i: nat :: i in Range(low, high) <==> low <= i < high
    decreases high
  {
    if high == low {
    } else {
      RangeCount(low, high - 1);
    }
  }

  lemma BurstAllowed(key: string, start: int, limit: nat, windowMs: nat, i: nat)
    requires limit >= 1 && windowMs > 1 && 1 <= i < 2 * limit
    ensures DecisionOf(Burst(key, start, limit, windowMs), i, limit, windowMs).allowed
  {
    var calls := Burst(key, start, limit, windowMs);
    BurstFills(key, start, limit, windowMs, i);
    var w := WindowOf(calls, i, windowMs);
    assert calls[i].now == if i < limit then start + windowMs - 1 else start + windowMs;
    assert w.count <= limit;
  }

  lemma BurstOrdered(key: string, start: int, limit: nat, windowMs: nat)
    requires limit >= 1 && windowMs > 1
    ensures Ordered(Burst(key, start, limit, windowMs))
  {
  }

  lemma InDuring(calls: seq<Call>, key: string, begin: int, limit: int, windowMs: nat, i: nat)
    requires i < |calls|
    ensures i in AllowedDuring(calls, key, begin, limit, windowMs) <==>
            calls[i].key == key && begin <= calls[i].now < begin + windowMs && DecisionOf(calls, i, limit, windowMs).allowed
  {
  }

  lemma BurstCallDuring(key: string, start: int, limit: nat, windowMs: nat, i: nat)
    requires limit >= 1 && windowMs > 1 && i < 2 * limit
    ensures i in AllowedDuring(Burst(key, start, limit, windowMs), key, start + 1, limit, windowMs) <==> 1 <= i
  {
    InDuring(Burst(key, start, limit, windowMs), key, start + 1, limit, windowMs, i);
    if i >= 1 {
      BurstAllowed(key, start, limit, windowMs, i);
    }
  }

  lemma BurstDuring(key: string, start: int, limit: nat, windowMs: nat)
    requires limit >= 1 && windowMs > 1
    ensures AllowedDuring(Burst(key, start, limit, windowMs), key, start + 1, limit, windowMs) == Range(1, 2 * limit)
  {
    var during, range := AllowedDuring(Burst(key, start, limit, windowMs), key, start + 1, limit, windowMs), Range(1, 2 * limit);
    RangeCount(1, 2 * limit);
    forall i | i in during ensures i in range {
      BurstCallDuring(key, start, limit, windowMs, i);
    }
    forall i | i in range ensures i in during {
      BurstCallDuring(key, start, limit, windowMs, i);
    }
  }

  /** The interval bound is reached for every limit and every window of more than a millisecond. */
  lemma IntervalBoundIsReached(key: string, start: int, limit: nat, windowMs: nat)
    requires limit >= 1 && windowMs > 1
    ensures Ordered(Burst(key, start, limit, windowMs))
    ensures |AllowedDuring(Burst(key, start, limit, windowMs), key, start + 1, limit, windowMs)| == 2 * limit - 1
  {
    BurstOrdered(key, start, limit, windowMs);
    BurstDuring(key, start, limit, windowMs);
    RangeCount(1, 2 * limit);
  }

  // What a decision says.

  /** The calls of one key in the window of call `i`, up to call `n`. */
  function CallsInWindow(calls: seq<Call>, i: nat, n: nat, windowMs: nat): set<nat>
    requires i < |calls|
  {
    set j: nat | j < |calls| && j < n && calls[j].key == calls[i].key
                 && WindowOf(calls, j, windowMs).start == WindowOf(calls, i, windowMs).start
  }

  /** A window counts its calls: each one once. */
  lemma {:induction false} CountIsCalls(calls: seq<Call>, i: nat, windowMs: nat)
    requires i < |calls| && Ordered(calls) && windowMs > 0
    ensures WindowOf(calls, i, windowMs).count == |CallsInWindow(calls, i, i + 1, windowMs)|
    decreases i
  {
    var key := calls[i].key;
    var current := Lookup(StateAt(calls, i, windowMs), key);
    var these := CallsInWindow(calls, i, i + 1, windowMs);
    if current.None? || Expired(current.value, calls[i].now, windowMs) {
      forall j | j in these ensures j == i {
        if j < i {
          CallsApart(calls, j, i, windowMs);
          CallInItsWindow(calls, j, windowMs);
        }
      }
      assert these == {i};
    } else {
      var last := LastCallOf(calls, i, key, windowMs);
      CountIsCalls(calls, last, windowMs);
      forall j | j in these && j != i ensures j in CallsInWindow(calls, last, last + 1, windowMs) {
        assert j <= last;
      }
      assert these == CallsInWindow(calls, last, last + 1, windowMs) + {i};
    }
  }

  lemma {:induction false} LastCallOf(calls: seq<Call>, n: nat, key: string, windowMs: nat) returns (i: nat)
    requires n <= |calls| && key in StateAt(calls, n, windowMs)
    ensures i < n && calls[i].key == key && WindowOf(calls, i, windowMs) == StateAt(calls, n, windowMs)[key]
    ensures forall j :: i < j < n ==> calls[j].key != key
  {
    if calls[n - 1].key == key {
      i := n - 1;
    } else {
      i := LastCallOf(calls, n - 1, key, windowMs);
    }
  }

  /** A call is allowed exactly when it is among the first `limit` of its key in its window. */
  lemma AllowedIffAmongFirst(calls: seq<Call>, i: nat, limit: int, windowMs: nat)
    requires i < |calls| && Ordered(calls) && windowMs > 0
    ensures DecisionOf(calls, i, limit, windowMs).allowed <==> |CallsInWindow(calls, i, i + 1, windowMs)| <= limit
  {
    CountIsCalls(calls, i, windowMs);
  }

  /** What `remaining` promises: of the later calls of the key in the same window, just that many more are allowed. */
  lemma RemainingIsWhatIsLeft(calls: seq<Call>, i: nat, j: nat, limit: int, windowMs: nat)
    requires i < j < |calls| && Ordered(calls) && windowMs > 0
    requires calls[i].key == calls[j].key && WindowOf(calls, i, windowMs).start == WindowOf(calls, j, windowMs).start
    ensures
      var later := CallsInWindow(calls, i, j + 1, windowMs) - CallsInWindow(calls, i, i + 1, windowMs);
      DecisionOf(calls, j, limit, windowMs).allowed <==> |later| <= DecisionOf(calls, i, limit, windowMs).remaining
  {
    CountIsCalls(calls, i, windowMs);
    CountIsCalls(calls, j, windowMs);
    var first, all := CallsInWindow(calls, i, i + 1, windowMs), CallsInWindow(calls, i, j + 1, windowMs);
    assert all == CallsInWindow(calls, j, j + 1, windowMs);
    assert first <= all && j in all - first;
    assert |all - first| == |all| - |first| && |all - first| >= 1 by {
      assert all == first + (all - first);
    }
  }

  /** The waiting time is the least whole number of seconds, at least one, after which the window has ended. */
  lemma RetryAfterIsLeast(calls: seq<Call>, i: nat, limit: int, windowMs: nat)
    requires i < |calls| && Ordered(calls) && windowMs > 0
    ensures
      var now, end := calls[i].now, WindowOf(calls, i, windowMs).start + windowMs;
      var retry := DecisionOf(calls, i, limit, windowMs).retryAfterSeconds;
      && retry >= 1 && now + 1000 * retry >= end
      && 1000 * (retry - 1) < windowMs
      && forall n :: 1 <= n < retry ==> now + 1000 * n < end
  {
    CallInItsWindow(calls, i, windowMs);
  }

  lemma {:induction false} UntouchedWindow(calls: seq<Call>, i: nat, j: nat, windowMs: nat)
    requires i < j <= |calls|
    requires forall k :: i < k < j ==> calls[k].key != calls[i].key
    ensures Lookup(StateAt(calls, j, windowMs), calls[i].key) == Some(WindowOf(calls, i, windowMs))
    decreases j
  {
    if i < j - 1 {
      UntouchedWindow(calls, i, j - 1, windowMs);
    }
  }

  /**
   * Waiting is enough: after a refusal, and with no call on that key in between (whatever other keys
   * do), the next call made `retryAfterSeconds` or more later is allowed.
   */
  lemma RetryAfterSuffices(calls: seq<Call>, i: nat, j: nat, limit: int, windowMs: nat)
    requires i < j < |calls| && Ordered(calls) && limit >= 1
    requires calls[i].key == calls[j].key && forall k :: i < k < j ==> calls[k].key != calls[i].key
    requires !DecisionOf(calls, i, limit, windowMs).allowed
    requires calls[j].now >= calls[i].now + 1000 * DecisionOf(calls, i, limit, windowMs).retryAfterSeconds
    ensures DecisionOf(calls, j, limit, windowMs).allowed
  {
    UntouchedWindow(calls, i, j, windowMs);
  }

  /** After a refusal nothing on that key is let through before its window ends. */
  lemma RefusedUntilWindowEnds(calls: seq<Call>, i: nat, j: nat, limit: int, windowMs: nat)
    requires i < j < |calls| && Ordered(calls) && calls[i].key == calls[j].key
    requires !DecisionOf(calls, i, limit, windowMs).allowed && DecisionOf(calls, j, limit, windowMs).allowed
    ensures calls[j].now >= WindowOf(calls, i, windowMs).start + windowMs
  {
    CallsApart(calls, i, j, windowMs);
    if calls[j].key in StateAt(calls, j, windowMs) {
      StartsInPast(calls, j, calls[j].key, windowMs);
    }
  }
}
