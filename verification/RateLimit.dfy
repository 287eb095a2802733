// Fixed-window rate limiting: the process-local store, the Redis script, and how much they let through.
module RateLimit {
  import opened Common
  import opened Spacing

  const MS: nat := 1000000   // nanoseconds in a millisecond

  datatype Bucket = Bucket(count: nat, resetAt: Time)

  // The bucket after one request at `now`.
  function Hit(b: Option<Bucket>, window: int, now: Time): Bucket {
    if b.None? || b.value.resetAt <= now then Bucket(1, now + window) else b.value.(count := b.value.count + 1)
  }

  predicate Ascending(ts: seq<Time>) {
    forall i, j :: 0 <= i < j < |ts| ==> ts[i] <= ts[j]
  }

  // ---------- the requests of one key ----------

  function BucketAfter(ts: seq<Time>, window: int): Option<Bucket> {
    if ts == [] then None
    else Some(Hit(BucketAfter(ts[..|ts| - 1], window), window, ts[|ts| - 1]))
  }

  // Whether the last of these requests was let through.
  predicate Admitted(ts: seq<Time>, limit: int, window: int) {
    ts != [] && BucketAfter(ts, window).value.count <= limit
  }

  // When the window serving the last request opened.
  function OpenedAt(ts: seq<Time>, window: int): Time
    requires ts != []
  {
    BucketAfter(ts, window).value.resetAt - window
  }

  // Requests so far that were served by the window opened at s.
  function ServedBy(ts: seq<Time>, window: int, s: Time): nat {
    if ts == [] then 0
    else ServedBy(ts[..|ts| - 1], window, s) + if OpenedAt(ts, window) == s then 1 else 0
  }

  lemma {:induction false} WindowHolds(ts: seq<Time>, window: int)
    requires Ascending(ts) && window > 0 && ts != []
    ensures OpenedAt(ts, window) <= ts[|ts| - 1] < OpenedAt(ts, window) + window
    ensures forall s :: s > OpenedAt(ts, window) ==> ServedBy(ts, window, s) == 0
    ensures BucketAfter(ts, window).value.count == ServedBy(ts, window, OpenedAt(ts, window))
  {
    var n := |ts| - 1;
    if n > 0 {
      WindowHolds(ts[..n], window);
      assert ts[n - 1] <= ts[n];
    } else {
      assert BucketAfter(ts[..n], window) == None;
      assert BucketAfter(ts, window) == Some(Bucket(1, ts[n] + window));
    }
  }

  // Each window lets through exactly its first `limit` requests.
  lemma FirstOfEachWindow(ts: seq<Time>, limit: int, window: int)
    requires Ascending(ts) && window > 0 && ts != []
    ensures Admitted(ts, limit, window) <==> ServedBy(ts[..|ts| - 1], window, OpenedAt(ts, window)) < limit
  {
    WindowHolds(ts, window);
  }

  function AdmittedIn(ts: seq<Time>, limit: int, window: int, lo: Time, hi: Time): nat {
    if ts == [] then 0
    else
      AdmittedIn(ts[..|ts| - 1], limit, window, lo, hi)
        + if lo <= ts[|ts| - 1] < hi && Admitted(ts, limit, window) then 1 else 0
  }

  // When windows opened.
  function Openings(ts: seq<Time>, window: int): seq<Time> {
    if ts == [] then []
    else
      var n := |ts| - 1;
      Openings(ts[..n], window) + if BucketAfter(ts, window).value.count == 1 then [ts[n]] else []
  }

  lemma {:induction false} OpeningsSpaced(ts: seq<Time>, window: nat)
    requires Ascending(ts) && window > 0
    ensures Spaced(Openings(ts, window), window)
    ensures ts != [] ==> Openings(ts, window) != [] && Openings(ts, window)[|Openings(ts, window)| - 1] == OpenedAt(ts, window)
    ensures ts != [] ==> BucketAfter(ts, window).value.count >= 1
  {
    if ts != [] {
      var n := |ts| - 1;
      OpeningsSpaced(ts[..n], window);
      OneHit(ts, window);
      assert n > 0 ==> ts[n - 1] <= ts[n];
      hide BucketAfter, Hit;
    }
  }

  // One request more opens a window or is counted by the current one.
  lemma OneHit(ts: seq<Time>, window: nat)
    requires ts != [] && window > 0
    ensures var n := |ts| - 1;
            if BucketAfter(ts[..n], window).None? || BucketAfter(ts[..n], window).value.resetAt <= ts[n]
            then BucketAfter(ts, window) == Some(Bucket(1, ts[n] + window)) && OpenedAt(ts, window) == ts[n]
            else
              && n > 0 && OpenedAt(ts, window) == OpenedAt(ts[..n], window) && BucketAfter(ts, window).Some?
              && BucketAfter(ts, window).value == BucketAfter(ts[..n], window).value.(count := BucketAfter(ts[..n], window).value.count + 1)
  {
  }

  // What the current window may still let through.
  function Slack(ts: seq<Time>, limit: nat, window: int, lo: Time, hi: Time): nat {
    if ts == [] || !(lo - window < OpenedAt(ts, window) < hi) then 0
    else limit - Min(limit, BucketAfter(ts, window).value.count)
  }

  // What one more request adds: nothing, a request out of the current window's slack, or a window.
  lemma OneMore(ts: seq<Time>, limit: nat, window: nat, lo: Time, hi: Time)
    requires Ascending(ts) && window > 0 && ts != []
    ensures var n := |ts| - 1;
            var before, after := Openings(ts[..n], window), Openings(ts, window);
            var spent := AdmittedIn(ts, limit, window, lo, hi) - AdmittedIn(ts[..n], limit, window, lo, hi);
            var slack, slack' := Slack(ts[..n], limit, window, lo, hi), Slack(ts, limit, window, lo, hi);
            var more := CountIn(after, lo - window + 1, hi) - CountIn(before, lo - window + 1, hi);
            && (more == 0 || more == 1)
            && spent + slack' <= if more == 1 then limit else slack
  {
    var n := |ts| - 1;
    WindowHolds(ts, window);
    OpeningsSpaced(ts[..n], window);
    OneHit(ts, window);
    hide Hit, BucketAfter, Spaced, OpenedAt;
    var before := Openings(ts[..n], window);
    if BucketAfter(ts, window).value.count == 1 {
      assert (before + [ts[n]])[..|before|] == before;
    } else {
      assert before + [] == before;
    }
  }

  // Requests let through in [lo, hi) belong to windows opened in (lo - window, hi), `limit` each.
  lemma {:induction false} LimitPerWindow(ts: seq<Time>, limit: nat, window: nat, lo: Time, hi: Time)
    requires Ascending(ts) && window > 0
    ensures AdmittedIn(ts, limit, window, lo, hi) + Slack(ts, limit, window, lo, hi)
              <= limit * CountIn(Openings(ts, window), lo - window + 1, hi)
  {
    if ts != [] {
      var n := |ts| - 1;
      LimitPerWindow(ts[..n], limit, window, lo, hi);
      OneMore(ts, limit, window, lo, hi);
      Distribute(limit, CountIn(Openings(ts[..n], window), lo - window + 1, hi));
    }
  }

  lemma Distribute(a: nat, m: nat)
    ensures a * (m + 1) == a * m + a
  {
  }

  // Any interval of length T lets through at most limit * (ceil(T / window) + 1) requests.
  lemma RateBound(ts: seq<Time>, limit: nat, window: nat, lo: Time, length: nat)
    requires Ascending(ts) && window > 0
    ensures AdmittedIn(ts, limit, window, lo, lo + length) <= limit * (CeilDiv(length, window) + 1)
  {
    LimitPerWindow(ts, limit, window, lo, lo + length);
    WindowsTouching(ts, window, lo, length);
    Monotone(limit, CountIn(Openings(ts, window), lo - window + 1, lo + length), CeilDiv(length, window) + 1);
  }

  lemma Monotone(a: nat, m: nat, k: nat)
    requires m <= k
    ensures a * m <= a * k
  {
  }

  lemma WindowsTouching(ts: seq<Time>, window: nat, lo: Time, length: nat)
    requires Ascending(ts) && window > 0
    ensures CountIn(Openings(ts, window), lo - window + 1, lo + length) <= CeilDiv(length, window) + 1
  {
    OpeningsSpaced(ts, window);
    var stretch := length + window - 1;
    assert lo - window + 1 + stretch == lo + length;
    AtMostCeil(Openings(ts, window), window, lo - window + 1, stretch);
    CeilShift(length, window);
  }

  lemma CeilShift(a: nat, b: nat)
    requires b > 0
    ensures CeilDiv(a + b - 1, b) <= CeilDiv(a, b) + 1
  {
    var r, q := CeilDiv(a + b - 1, b), CeilDiv(a, b);
    assert (r - 1) * b < a + b - 1 <= q * b + b;
    Distribute(b, q);
    assert (r - 1) * b < (q + 1) * b;
  }

  // A refused request told to wait until the window resets is let through at that instant, and the
  // wait is positive and no longer than the window.
  lemma RetryIsHonest(ts: seq<Time>, limit: int, window: int, reread: Time)
    requires Ascending(ts) && window > 0 && limit >= 1 && ts != [] && !Admitted(ts, limit, window)
    requires ts[|ts| - 1] <= reread
    ensures var wait := BucketAfter(ts, window).value.resetAt - reread;
            && wait <= window
            && (wait > 0 <==> reread < OpenedAt(ts, window) + window)
            && Admitted(ts + [reread + wait], limit, window)
  {
    WindowHolds(ts, window);
    var at := BucketAfter(ts, window).value.resetAt;
    assert (ts + [at])[..|ts|] == ts;
  }

  // ---------- Redis ----------

  // A counter key: its count and, in milliseconds, when it expires (None: never).
  datatype RedisKey = RedisKey(count: nat, expires: Option<int>)

  predicate Live(k: Option<RedisKey>, nowMs: int) {
    k.Some? && (k.value.expires.None? || nowMs < k.value.expires.value)
  }

  // The script: INCR, PEXPIRE on the first hit (which deletes the key when not positive), PTTL.
  function Script(k: Option<RedisKey>, ttlMs: int, nowMs: int): (Option<RedisKey>, (nat, int)) {
    var current := if Live(k, nowMs) then k.value.count + 1 else 1;
    var armed :=
      if current != 1 then Some(RedisKey(current, k.value.expires))
      else if ttlMs <= 0 then None
      else Some(RedisKey(1, Some(nowMs + ttlMs)));
    var pttl := if armed.None? then -2 else if armed.value.expires.None? then -1 else armed.value.expires.value - nowMs;
    (armed, (current, pttl))
  }

  function RedisAllow(k: Option<RedisKey>, limit: int, window: nat, nowMs: int): (Option<RedisKey>, (bool, int)) {
    var (k', (count, ttl)) := Script(k, window / MS, nowMs);
    if count <= limit then (k', (true, 0))
    else (k', (false, if ttl * MS < 0 then window else ttl * MS))
  }

  function RedisAfter(ts: seq<int>, window: nat): Option<RedisKey> {
    if ts == [] then None
    else RedisAllow(RedisAfter(ts[..|ts| - 1], window), 0, window, ts[|ts| - 1]).0
  }

  predicate RedisAdmitted(ts: seq<int>, limit: int, window: nat) {
    ts != [] && RedisAllow(RedisAfter(ts[..|ts| - 1], window), limit, window, ts[|ts| - 1]).1.0
  }

  // The same instants, in nanoseconds.
  function InNanos(ts: seq<int>): (r: seq<Time>)
    ensures |r| == |ts| && forall i :: 0 <= i < |r| ==> r[i] == ts[i] * MS
  {
    seq(|ts|, i requires 0 <= i < |ts| => ts[i] * MS)
  }

  // What the key and the bucket say is the same.
  ghost predicate Mirrors(k: Option<RedisKey>, b: Option<Bucket>) {
    if b.None? then k.None?
    else k.Some? && k.value.expires.Some? && k.value.count == b.value.count && k.value.expires.value * MS == b.value.resetAt
  }

  lemma {:induction false} RedisMirrors(ts: seq<int>, window: nat)
    requires window >= MS
    ensures Mirrors(RedisAfter(ts, window), BucketAfter(InNanos(ts), window / MS * MS))
    ensures ts != [] ==> BucketAfter(InNanos(ts), window / MS * MS).value.count >= 1
  {
    if ts != [] {
      var n := |ts| - 1;
      RedisMirrors(ts[..n], window);
      assert InNanos(ts)[..n] == InNanos(ts[..n]);
    }
  }

  // On the same millisecond timestamps the Redis script lets through what the memory store would
  // with the window cut to whole milliseconds: the same requests when the window is whole. Below one
  // millisecond it counts nothing.
  lemma RedisAgrees(ts: seq<int>, limit: int, window: nat)
    requires ts != []
    ensures window >= MS ==> (RedisAdmitted(ts, limit, window) <==> Admitted(InNanos(ts), limit, window / MS * MS))
    ensures window % MS == 0 && window > 0 ==> (RedisAdmitted(ts, limit, window) <==> Admitted(InNanos(ts), limit, window))
    ensures window < MS ==> (RedisAdmitted(ts, limit, window) <==> limit >= 1)
  {
    var n := |ts| - 1;
    if window >= MS {
      RedisMirrors(ts[..n], window);
      assert InNanos(ts)[..n] == InNanos(ts[..n]);
      assert window % MS == 0 ==> window / MS * MS == window;
    } else {
      NothingCounted(ts[..n], window);
    }
  }

  lemma {:induction false} NothingCounted(ts: seq<int>, window: nat)
    requires window < MS
    ensures RedisAfter(ts, window) == None
  {
    if ts != [] {
      NothingCounted(ts[..|ts| - 1], window);
    }
  }

  // A request the script refuses is told to wait exactly until the key's window ends, when one is let
  // through; one it lets through waits for nothing.
  lemma RedisRetryIsHonest(ts: seq<int>, limit: int, window: nat)
    requires ts != [] && Ascending(ts) && window >= MS && limit >= 1
    ensures var n := |ts| - 1;
            var (ok, wait) := RedisAllow(RedisAfter(ts[..n], window), limit, window, ts[n]).1;
            && (ok ==> wait == 0)
            && (!ok ==>
                  && 0 < wait <= window && wait % MS == 0
                  && ts[n] * MS + wait == BucketAfter(InNanos(ts), window / MS * MS).value.resetAt
                  && RedisAdmitted(ts + [ts[n] + wait / MS], limit, window))
  {
    var n := |ts| - 1;
    RedisMirrors(ts[..n], window);
    RedisMirrors(ts, window);
    var k := RedisAfter(ts, window);
    var nanos, w := InNanos(ts), window / MS * MS;
    assert nanos[..n] == InNanos(ts[..n]);
    WindowHolds(nanos, w);
    var (ok, wait) := RedisAllow(RedisAfter(ts[..n], window), limit, window, ts[n]).1;
    if !ok {
      assert (ts + [ts[n] + wait / MS])[..|ts|] == ts;
    }
  }

  // ---------- the stores ----------

  // A store that fails lets the request through.
  function Permit(r: Reply<(bool, Time), ()>): (v: (bool, Time))
    ensures r.Err? ==> v.0 && v.1 == 0
  {
    match r
    case Ok(v) => v
    case Err(_) => (true, 0)
  }

  class MemoryStore {
    var buckets: map<string, Bucket>
    ghost var served: map<string, seq<Time>>   // the requests of each key, in order

    ghost const windows: string -> int         // each key is always used with the same window

    // Every bucket is what its key's requests made of it.
    ghost predicate Valid()
      reads this
    {
      && buckets.Keys == served.Keys
      && forall key :: key in buckets ==> Some(buckets[key]) == BucketAfter(served[key], windows(key))
    }

    constructor (ghost windows: string -> int)
      ensures Valid() && served == map[] && this.windows == windows
    {
      buckets, served, this.windows := map[], map[], windows;
    }

    // `reread` is the clock when the wait is computed.
    method Allow(key: string, limit: int, window: int, now: Time, reread: Time) returns (ok: bool, retry: Time)
      requires Valid() && window == windows(key)
      modifies this
      ensures Valid()
      ensures served == old(served)[key := (if key in old(served) then old(served)[key] else []) + [now]]
      ensures ok == Admitted(served[key], limit, window)
      ensures retry == if ok then 0 else BucketAfter(served[key], window).value.resetAt - reread
    {
      ghost var before := if key in served then served[key] else [];
      assert (before + [now])[..|before|] == before;
      assert BucketAfter(before, window) == if key in buckets then Some(buckets[key]) else None;
      var b;
      if key !in buckets || now >= buckets[key].resetAt {
        b := Bucket(0, now + window);
      } else {
        b := buckets[key];
      }
      b := b.(count := b.count + 1);
      assert BucketAfter(before + [now], window) == Some(b);
      buckets := buckets[key := b];
      served := served[key := before + [now]];
      if b.count <= limit {
        return true, 0;
      }
      return false, b.resetAt - reread;
    }
  }
}
