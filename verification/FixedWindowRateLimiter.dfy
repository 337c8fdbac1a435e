/** The collab server's limiter and the web server's sign-in limiter, each over its own map. */
module FixedWindowRateLimiter {
  import opened Prelude
  import opened RateLimits

  class FixedWindowRateLimiter {
    const limit: int
    const windowMs: nat
    var buckets: map<string, Window>

    constructor (limit: int, windowMs: nat)
      ensures this.limit == limit && this.windowMs == windowMs && buckets == map[]
    {
      this.limit := limit;
      this.windowMs := windowMs;
      buckets := map[];
    }

    method Consume(key: string, now: int) returns (d: Decision)
      modifies this
      ensures buckets == RateLimits.Consume(old(buckets), Call(key, now), windowMs)
      ensures key in buckets && d == Decide(buckets[key], now, limit, windowMs)
    {
      var bucket := ReadBucket(key, now);
      bucket := bucket.(count := bucket.count + 1);
      buckets := buckets[key := bucket];
      var retryAfterSeconds := RetrySeconds(bucket.start + windowMs - now);
      var remaining := Max(0, limit - bucket.count);
      d := Decision(bucket.count <= limit, remaining, retryAfterSeconds);
    }

    method ReadBucket(key: string, now: int) returns (w: Window)
      modifies this
      ensures var current := Lookup(old(buckets), key);
              if current.None? || Expired(current.value, now, windowMs)
              then w == Window(now, 0) && buckets == RateLimits.Cleanup(old(buckets), now, windowMs)
              else w == current.value && buckets == old(buckets)
    {
      if key !in buckets || now - buckets[key].start >= windowMs {
        Cleanup(now);
        return Window(now, 0);
      }
      return buckets[key];
    }

    method Cleanup(now: int)
      modifies this
      ensures buckets == RateLimits.Cleanup(old(buckets), now, windowMs)
    {
      ghost var all := buckets;
      var todo := buckets.Keys;
      while todo != {}
        invariant todo <= buckets.Keys <= all.Keys
        invariant forall k :: k in buckets ==> buckets[k] == all[k]
        invariant forall k :: k in all && k !in todo ==> (k in buckets <==> !Expired(all[k], now, windowMs))
        decreases todo
      {
        var key :| key in todo;
        todo := todo - {key};
        if now - buckets[key].start >= windowMs {
          buckets := buckets - {key};
        }
      }
    }
  }

  class AuthAttempts {
    const windowMs: nat
    var attempts: map<string, Attempts>

    constructor (windowMs: nat)
      ensures this.windowMs == windowMs && attempts == map[]
    {
      this.windowMs := windowMs;
      attempts := map[];
    }

    method ConsumeAuthAttempt(key: string, now: int, limit: int) returns (allowed: bool, retryAfterSeconds: int)
      modifies this
      ensures (attempts, allowed, retryAfterSeconds) == ConsumeAttempt(old(attempts), Call(key, now), limit, windowMs)
    {
      if |attempts| > MAX_TRACKED_KEYS {
        DropExpired(now);
      }
      if key !in attempts || attempts[key].resetAt <= now {
        attempts := attempts[key := Attempts(1, now + windowMs)];
        return true, 0;
      }
      var current := attempts[key];
      if current.count >= limit {
        return false, RetrySeconds(current.resetAt - now);
      }
      attempts := attempts[key := current.(count := current.count + 1)];
      return true, 0;
    }

    method DropExpired(now: int)
      modifies this
      ensures attempts == map k | k in old(attempts) && old(attempts)[k].resetAt > now :: old(attempts)[k]
    {
      ghost var all := attempts;
      var todo := attempts.Keys;
      while todo != {}
        invariant todo <= attempts.Keys <= all.Keys
        invariant forall k :: k in attempts ==> attempts[k] == all[k]
        invariant forall k :: k in all && k !in todo ==> (k in attempts <==> all[k].resetAt > now)
        decreases todo
      {
        var key :| key in todo;
        todo := todo - {key};
        if attempts[key].resetAt <= now {
          attempts := attempts - {key};
        }
      }
    }

    method ClearAuthAttempts(key: string)
      modifies this
      ensures attempts == old(attempts) - {key}
    {
      attempts := attempts - {key};
    }
  }
}
