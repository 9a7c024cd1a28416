/** The request limiter on expiring counters (core/utils/rate_limit). */
module RateLimit {
  import opened Prelude
  import opened RedisStore
  import opened Windows

  type Period = p: int | p > 0 witness 1

  /** One call of is_rate_limited; path is already sanitized. The limit and the period come with the call. */
  datatype Call = Call(who: string, path: string, limit: int, period: Period, at: int)

  function WindowStart(t: int, period: Period): int {
    t - t % period
  }

  lemma StartOfWindow(t: int, period: Period)
    ensures WindowStart(t, period) == (t / period) * period
    ensures WindowStart(t, period) <= t < WindowStart(t, period) + period
  {
  }

  predicate IsOn(c: Call, who: string, path: string) {
    c.who == who && c.path == path
  }

  /** No call of the log is later than now. */
  predicate IsPast(log: seq<Call>, now: int) {
    forall i: nat | i < |log| :: log[i].at <= now
  }

  predicate InOrder(log: seq<Call>) {
    forall i: nat, j: nat | i < j < |log| :: log[i].at <= log[j].at
  }

  // ─── What a counter holds ───────────────────────────────────────────────────

  /** The count and the expiry of a key; a count of 0 says that the key was never set. */
  datatype Held = Held(count: nat, expiresAt: int)

  /** The call counts on the key of the window that starts at start. */
  predicate Hits(c: Call, who: string, path: string, start: int) {
    IsOn(c, who, path) && WindowStart(c.at, c.period) == start
  }

  /** The key of a window after the calls of the log: the first hit, and every hit that finds the key
      expired, starts it again with its own period. */
  function Kept(log: seq<Call>, who: string, path: string, start: int): Held
    decreases |log|
  {
    if log == [] then Held(0, 0)
    else
      var n := |log| - 1;
      var k, c := Kept(log[..n], who, path, start), log[n];
      if !Hits(c, who, path, start) then k
      else if k.count > 0 && c.at < k.expiresAt then Held(k.count + 1, k.expiresAt)
      else Held(1, c.at + c.period)
  }

  /** The count a call at now finds. */
  function Live(log: seq<Call>, who: string, path: string, start: int, now: int): nat {
    var k := Kept(log, who, path, start);
    if now < k.expiresAt then k.count else 0
  }

  lemma KeptAfter(log: seq<Call>, c: Call, who: string, path: string, start: int)
    ensures Kept(log + [c], who, path, start)
            == var k := Kept(log, who, path, start);
               if !Hits(c, who, path, start) then k
               else if k.count > 0 && c.at < k.expiresAt then Held(k.count + 1, k.expiresAt)
               else Held(1, c.at + c.period)
  {
    assert (log + [c])[..|log|] == log;
  }

  // ─── When the counter is right ──────────────────────────────────────────────

  function IsSince(log: seq<Call>, who: string, path: string, start: int): nat -> bool {
    (i: nat) => i < |log| && IsOn(log[i], who, path) && log[i].at >= start
  }

  function SinceOne(log: seq<Call>, who: string, path: string, start: int): nat -> int {
    (i: nat) => if IsSince(log, who, path, start)(i) then 1 else 0
  }

  /** The true number of calls of the caller on the path since start. */
  function CallsSince(log: seq<Call>, who: string, path: string, start: int): int {
    SumTo(|log|, SinceOne(log, who, path, start))
  }

  lemma CallsSinceMeans(log: seq<Call>, who: string, path: string, start: int)
    ensures CallsSince(log, who, path, start)
            == |set i: nat | i < |log| && log[i].who == who && log[i].path == path && log[i].at >= start|
  {
    var p := (i: nat) => i < |log| && log[i].who == who && log[i].path == path && log[i].at >= start;
    assert forall i: nat | i < |log| :: IsSince(log, who, path, start)(i) <==> p(i);
    SumIsCount(|log|, SinceOne(log, who, path, start), p);
    assert (set i: nat | i < |log| && p(i))
        == set i: nat | i < |log| && log[i].who == who && log[i].path == path && log[i].at >= start;
  }

  function FirstSince(log: seq<Call>, who: string, path: string, start: int): Option<nat> {
    First(|log|, IsSince(log, who, path, start))
  }

  predicate AllHit(log: seq<Call>, who: string, path: string, start: int) {
    forall i: nat | i < |log| && IsSince(log, who, path, start)(i) :: Hits(log[i], who, path, start)
  }

  /** Every call since start counts on its key, and the key its first call set has not expired. */
  predicate IsIntact(log: seq<Call>, who: string, path: string, start: int, now: int) {
    var f := FirstSince(log, who, path, start);
    AllHit(log, who, path, start) && (f.Some? ==> now < log[f.value].at + log[f.value].period)
  }

  /** No call since start came after the key of the first one expired. */
  predicate NoneLate(log: seq<Call>, who: string, path: string, start: int) {
    var f := FirstSince(log, who, path, start);
    f.Some? ==>
      forall i: nat | i < |log| && IsSince(log, who, path, start)(i) ::
          log[i].at < log[f.value].at + log[f.value].period
  }

  lemma SinceAfter(log: seq<Call>, c: Call, who: string, path: string, start: int)
    ensures var log' := log + [c];
            var f, f' := FirstSince(log, who, path, start), FirstSince(log', who, path, start);
            var isSince := IsOn(c, who, path) && c.at >= start;
            && CallsSince(log', who, path, start) == CallsSince(log, who, path, start) + (if isSince then 1 else 0)
            && f' == (if f.Some? then f else if isSince then Some(|log|) else None)
  {
    var log' := log + [c];
    forall i: nat | i < |log| ensures IsSince(log', who, path, start)(i) <==> IsSince(log, who, path, start)(i) {
      assert log'[i] == log[i];
    }
    assert IsSince(log', who, path, start)(|log|) <==> IsOn(c, who, path) && c.at >= start;
    SumSame(|log|, SinceOne(log, who, path, start), SinceOne(log', who, path, start));
    SameFirst(|log|, IsSince(log, who, path, start), IsSince(log', who, path, start));
  }

  lemma PredicatesAfter(log: seq<Call>, c: Call, who: string, path: string, start: int)
    ensures AllHit(log + [c], who, path, start)
            <==> AllHit(log, who, path, start) && (IsOn(c, who, path) && c.at >= start ==> Hits(c, who, path, start))
    ensures FirstSince(log, who, path, start).Some? ==>
              var first := log[FirstSince(log, who, path, start).value];
              NoneLate(log + [c], who, path, start)
              <==> && NoneLate(log, who, path, start)
                   && (IsOn(c, who, path) && c.at >= start ==> c.at < first.at + first.period)
  {
    var log' := log + [c];
    SinceAfter(log, c, who, path, start);
    forall i: nat | i < |log| ensures IsSince(log', who, path, start)(i) <==> IsSince(log, who, path, start)(i) {
      assert log'[i] == log[i];
    }
    assert log'[|log|] == c;
    assert IsSince(log', who, path, start)(|log|) <==> IsOn(c, who, path) && c.at >= start;
  }

  /** The stored count never exceeds the true one, and equals it when nothing missed or restarted the key. */
  lemma {:induction false} KeptIsRightWhen(log: seq<Call>, who: string, path: string, start: int)
    ensures var k, n := Kept(log, who, path, start), CallsSince(log, who, path, start);
            var f := FirstSince(log, who, path, start);
            && k.count <= n
            && (f.None? <==> n == 0)
            && (f.Some? ==>
                  && (k.count == n <==> AllHit(log, who, path, start) && NoneLate(log, who, path, start))
                  && (k.count == n ==> k.expiresAt == log[f.value].at + log[f.value].period))
    decreases |log|
  {
    if log != [] {
      var init, c := log[..|log| - 1], log[|log| - 1];
      assert log == init + [c];
      KeptIsRightWhen(init, who, path, start);
      KeptAfter(init, c, who, path, start);
      SinceAfter(init, c, who, path, start);
      PredicatesAfter(init, c, who, path, start);
      StartOfWindow(c.at, c.period);
      if FirstSince(init, who, path, start).None? {
        NothingSince(init, who, path, start);
      }
    }
  }

  lemma NothingSince(log: seq<Call>, who: string, path: string, start: int)
    requires FirstSince(log, who, path, start).None?
    ensures AllHit(log, who, path, start) && NoneLate(log, who, path, start)
  {
  }

  /** The count a call finds is the true number of calls since the start of the window exactly when each of
      them counted on the same key and the key the first of them set is still there. */
  lemma LiveIsRightExactlyWhen(log: seq<Call>, who: string, path: string, start: int, now: int)
    requires IsPast(log, now)
    ensures Live(log, who, path, start, now) == CallsSince(log, who, path, start)
            <==> IsIntact(log, who, path, start, now)
    ensures Live(log, who, path, start, now) <= CallsSince(log, who, path, start)
  {
    KeptIsRightWhen(log, who, path, start);
    if FirstSince(log, who, path, start).None? {
      NothingSince(log, who, path, start);
    }
  }

  // ─── The limiter ────────────────────────────────────────────────────────────

  /** The key of a window is what the log makes it. */
  ghost predicate IsKept(entries: map<Name, Entry>, log: seq<Call>, who: string, path: string, start: int) {
    var name, k := RateKey(who, path, start), Kept(log, who, path, start);
    if k.count == 0 then name !in entries
    else name in entries && entries[name] == Entry(Counter(k.count), Some(k.expiresAt))
  }

  class RateLimiter {
    const redis: Redis
    ghost var log: seq<Call>

    ghost predicate Valid()
      reads this, redis
    {
      && (forall who: string, path: string, start: int :: IsKept(redis.entries, log, who, path, start))
      && IsPast(log, redis.now) && InOrder(log)
    }

    constructor (redis: Redis)
      requires forall name: Name :: name in redis.entries ==> !name.RateKey?
      ensures Valid() && this.redis == redis && log == []
    {
      this.redis := redis;
      log := [];
    }

    method Wait(seconds: nat)
      requires Valid()
      modifies redis`now
      ensures Valid() && redis.now == old(redis.now) + seconds
    {
      redis.Pass(seconds);
    }

    /** is_rate_limited: refuses exactly when the key of the current window holds the limit; and that is the
        number of calls made in the window exactly when the window is intact. The keys of anything else are
        left alone. */
    method IsRateLimited(who: string, path: string, limit: int, period: Period) returns (limited: bool)
      requires Valid()
      modifies this`log, redis`entries
      ensures Valid()
      ensures log == old(log) + [Call(who, path, limit, period, redis.now)]
      ensures var start := WindowStart(redis.now, period);
              && (limited <==> Live(old(log), who, path, start, redis.now) >= limit)
              && (IsIntact(old(log), who, path, start, redis.now) ==>
                    (limited <==> CallsSince(old(log), who, path, start) >= limit))
      ensures forall name: Name :: !name.RateKey? || name.who != who || name.path != path ==>
                (name in redis.entries <==> name in old(redis.entries))
                && (name in redis.entries ==> redis.entries[name] == old(redis.entries)[name])
    {
      var now := redis.now;
      var start := WindowStart(now, period);
      ghost var call, before := Call(who, path, limit, period, now), redis.entries;
      LiveIsRightExactlyWhen(log, who, path, start, now);
      assert IsKept(before, log, who, path, start);
      var key := RateKey(who, path, start);
      var count := redis.Incr(key);
      if count == 1 {
        redis.Expire(key, period);
      }
      limited := count > limit;
      CallKeeps(before, redis.entries, log, call);
      log := log + [call];
    }
  }

  /** A call that moves its own key as the log says leaves every key right. */
  lemma CallKeeps(entries: map<Name, Entry>, entries': map<Name, Entry>, log: seq<Call>, call: Call)
    requires forall who: string, path: string, start: int :: IsKept(entries, log, who, path, start)
    requires var start := WindowStart(call.at, call.period);
             var k := Kept(log, call.who, call.path, start);
             var restarts := k.count == 0 || k.expiresAt <= call.at;
             entries' == entries[RateKey(call.who, call.path, start) :=
               if restarts then Entry(Counter(1), Some(call.at + call.period))
                   else Entry(Counter(k.count + 1), Some(k.expiresAt))]
    ensures forall who: string, path: string, start: int :: IsKept(entries', log + [call], who, path, start)
  {
    forall who: string, path: string, start: int ensures IsKept(entries', log + [call], who, path, start) {
      assert IsKept(entries, log, who, path, start);
      KeptAfter(log, call, who, path, start);
    }
  }

  /** A caller's period changes from 10 to 100 seconds between a call at 5 and one at 20. The second call is let
      through with a limit of 1, although the window it belongs to already holds the first. */
  method ChangedPeriodLetsThrough(who: string, path: string) returns (limited: bool, ghost log: seq<Call>)
    ensures !limited
    ensures log == [Call(who, path, 1, 10, 5)]
    ensures WindowStart(20, 100) == 0 && CallsSince(log, who, path, 0) == 1 && !IsIntact(log, who, path, 0, 20)
  {
    var limiter := OneCallAndWait(who, path);
    log := limiter.log;
    OneCallExpires(who, path);
    limited := limiter.IsRateLimited(who, path, 1, 100);
  }

  method OneCallAndWait(who: string, path: string) returns (limiter: RateLimiter)
    ensures fresh(limiter) && fresh(limiter.redis) && limiter.Valid()
    ensures limiter.redis.now == 20 && limiter.log == [Call(who, path, 1, 10, 5)]
  {
    var redis := new Redis(5);
    limiter := new RateLimiter(redis);
    var first := limiter.IsRateLimited(who, path, 1, 10);
    limiter.Wait(15);
  }

  lemma OneCallExpires(who: string, path: string)
    ensures var log := [Call(who, path, 1, 10, 5)];
            Live(log, who, path, 0, 20) == 0 && CallsSince(log, who, path, 0) == 1 && !IsIntact(log, who, path, 0, 20)
  {
    var c := Call(who, path, 1, 10, 5);
    assert WindowStart(5, 10) == 0;
    AfterOneCall(c, who, path, 0);
    LiveIsRightExactlyWhen([c], who, path, 0, 20);
  }

  lemma AfterOneCall(c: Call, who: string, path: string, start: int)
    requires Hits(c, who, path, start)
    ensures Kept([c], who, path, start) == Held(1, c.at + c.period)
    ensures CallsSince([c], who, path, start) == 1
  {
    var none: seq<Call> := [];
    StartOfWindow(c.at, c.period);
    KeptAfter(none, c, who, path, start);
    SinceAfter(none, c, who, path, start);
    assert none + [c] == [c];
  }

  // ─── What the limit means ───────────────────────────────────────────────────

  /** The calls of one caller on one path, in windows of one length. */
  function CallsOf(log: seq<Call>, who: string, path: string, limit: int, period: Period): Calls {
    Calls(|log|,
          (i: nat) => i < |log| && IsOn(log[i], who, path),
          (i: nat) => if i < |log| then log[i].at else 0,
          limit, period)
  }

  /** Call i of the log was let through: IsRateLimited answered false. */
  predicate WasAllowed(log: seq<Call>, i: nat)
    requires i < |log|
  {
    var c := log[i];
    Live(log[..i], c.who, c.path, WindowStart(c.at, c.period), c.at) < c.limit
  }

  predicate IsWithin(log: seq<Call>, i: nat, who: string, path: string, lo: int, hi: int) {
    i < |log| && IsOn(log[i], who, path) && lo <= log[i].at < hi
  }

  function AllowedOne(log: seq<Call>, who: string, path: string, lo: int, hi: int): nat -> int {
    (i: nat) => if IsWithin(log, i, who, path, lo, hi) && WasAllowed(log, i) then 1 else 0
  }

  /** The calls let through for one caller and path in the interval [lo, hi). */
  function AllowedWithin(log: seq<Call>, who: string, path: string, lo: int, hi: int): int {
    SumTo(|log|, AllowedOne(log, who, path, lo, hi))
  }

  /** Every call of the interval fell into the windows of this period, found its window intact, and came
      with no higher limit. */
  ghost predicate Agrees(log: seq<Call>, who: string, path: string, limit: int, period: Period, lo: int, hi: int) {
    forall i: nat | IsWithin(log, i, who, path, lo, hi) ::
      && log[i].limit <= limit
      && WindowStart(log[i].at, log[i].period) == WindowStart(log[i].at, period)
      && IsIntact(log[..i], who, path, WindowStart(log[i].at, period), log[i].at)
  }

  /** Within a window, counting since its start is counting in it. */
  lemma SinceIsInWindow(log: seq<Call>, i: nat, who: string, path: string, limit: int, period: Period)
    requires InOrder(log) && i < |log|
    ensures CallsSince(log[..i], who, path, WindowStart(log[i].at, period))
            == CountBefore(CallsOf(log, who, path, limit, period), i, log[i].at / period)
  {
    var c, w := CallsOf(log, who, path, limit, period), log[i].at / period;
    var start := WindowStart(log[i].at, period);
    StartOfWindow(log[i].at, period);
    forall k: nat | k < i ensures SinceOne(log[..i], who, path, start)(k) == CountsIn(c, w)(k) {
      InWindow(c, w, log[k].at);
      assert log[..i][k] == log[k] && log[k].at <= log[i].at && c.at(k) == log[k].at;
      assert c.mine(k) <==> IsOn(log[k], who, path);
      assert log[k].at >= start <==> Window(c, c.at(k)) == w;
      assert IsSince(log[..i], who, path, start)(k) <==> IsOn(log[k], who, path) && log[k].at >= start;
    }
    SumSame(i, SinceOne(log[..i], who, path, start), CountsIn(c, w));
  }

  lemma AllowedPasses(log: seq<Call>, i: nat, who: string, path: string, limit: int, period: Period)
    requires InOrder(log) && i < |log| && IsOn(log[i], who, path) && log[i].limit <= limit && WasAllowed(log, i)
    requires WindowStart(log[i].at, log[i].period) == WindowStart(log[i].at, period)
    requires IsIntact(log[..i], who, path, WindowStart(log[i].at, period), log[i].at)
    ensures Passes(CallsOf(log, who, path, limit, period), i)
  {
    LiveIsRightExactlyWhen(log[..i], who, path, WindowStart(log[i].at, period), log[i].at);
    SinceIsInWindow(log, i, who, path, limit, period);
  }

  lemma AllowedAtMostPassed(log: seq<Call>, who: string, path: string, limit: int, period: Period, lo: int, hi: int)
    requires InOrder(log) && Agrees(log, who, path, limit, period, lo, hi)
    ensures AllowedWithin(log, who, path, lo, hi) <= PassedWithin(CallsOf(log, who, path, limit, period), lo, hi)
  {
    var c := CallsOf(log, who, path, limit, period);
    forall i: nat | i < |log| ensures AllowedOne(log, who, path, lo, hi)(i) <= PassesWithin(c, lo, hi)(i) {
      if IsWithin(log, i, who, path, lo, hi) && WasAllowed(log, i) {
        AllowedPasses(log, i, who, path, limit, period);
      }
    }
    SumAtMost(|log|, AllowedOne(log, who, path, lo, hi), PassesWithin(c, lo, hi));
  }

  /** At most limit calls pass in an aligned window whose calls agree. */
  lemma LimitInWindow(log: seq<Call>, who: string, path: string, limit: int, period: Period, window: int)
    requires InOrder(log) && Agrees(log, who, path, limit, period, window * period, window * period + period)
    ensures AllowedWithin(log, who, path, window * period, window * period + period) <= Cap(limit)
  {
    AllowedAtMostPassed(log, who, path, limit, period, window * period, window * period + period);
    WindowBound(CallsOf(log, who, path, limit, period), window);
  }

  /** At most (m + 1) * limit calls pass in an interval as long as m periods, wherever it starts, if its calls agree. */
  lemma LimitBounds(log: seq<Call>, who: string, path: string, limit: int, period: Period, start: int, m: nat)
    requires InOrder(log) && Agrees(log, who, path, limit, period, start, start + m * period)
    ensures AllowedWithin(log, who, path, start, start + m * period) <= (m + 1) * Cap(limit)
  {
    AllowedAtMostPassed(log, who, path, limit, period, start, start + m * period);
    RollingBound(CallsOf(log, who, path, limit, period), start, m);
  }

  /** The calls agree from the first window on in which the period is steady: an earlier change of period
      leaves no trace. */
  lemma SteadyAgrees(log: seq<Call>, who: string, path: string, limit: int, period: Period, lo: int, hi: int)
    requires InOrder(log)
    requires forall i: nat | IsWithin(log, i, who, path, WindowStart(lo, period), hi) ::
               log[i].period == period && log[i].limit <= limit
    ensures Agrees(log, who, path, limit, period, lo, hi)
  {
    StartOfWindow(lo, period);
    forall i: nat | IsWithin(log, i, who, path, lo, hi)
      ensures IsIntact(log[..i], who, path, WindowStart(log[i].at, period), log[i].at)
    {
      SteadyIsIntact(log, i, who, path, period, lo, hi);
    }
  }

  lemma SteadyIsIntact(log: seq<Call>, i: nat, who: string, path: string, period: Period, lo: int, hi: int)
    requires InOrder(log) && IsWithin(log, i, who, path, lo, hi)
    requires forall k: nat | IsWithin(log, k, who, path, WindowStart(lo, period), hi) :: log[k].period == period
    ensures IsIntact(log[..i], who, path, WindowStart(log[i].at, period), log[i].at)
  {
    var start := WindowStart(log[i].at, period);
    StartOfWindow(log[i].at, period);
    LaterWindow(lo, log[i].at, period);
    forall k: nat | k < i && IsOn(log[k], who, path) && log[k].at >= start
      ensures log[k].period == period && WindowStart(log[k].at, period) == start
    {
      assert IsWithin(log, k, who, path, WindowStart(lo, period), hi);
      StartOfWindow(log[k].at, period);
      SameWindow(log[k].at, log[i].at, period);
    }
  }

  lemma LaterWindow(s: int, t: int, period: Period)
    requires s <= t
    ensures WindowStart(s, period) <= WindowStart(t, period)
  {
    StartOfWindow(s, period);
    StartOfWindow(t, period);
    if t / period < s / period { Multiples(period, t / period, s / period); }
  }

  lemma SameWindow(s: int, t: int, period: Period)
    requires WindowStart(t, period) <= s <= t
    ensures WindowStart(s, period) == WindowStart(t, period)
  {
    StartOfWindow(s, period);
    StartOfWindow(t, period);
    QuotientIsUnique(s, period, t / period, s - (t / period) * period);
  }
}
