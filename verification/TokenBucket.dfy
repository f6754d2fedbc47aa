/** The integer token bucket: exact refill with a carried remainder, and the earliest retry time. */
module TokenBucket {
  import opened Integers
  import opened Process

  datatype RatePolicy = RatePolicy(capacity: U32, refillTokens: U32, intervalMs: I64)
  datatype Bucket = Bucket(tokens: U32, remainder: U64, updatedAt: I64)
  datatype SchedulerError = InvalidInput

  predicate ValidPolicy(p: RatePolicy) {
    p.capacity > 0 && p.refillTokens > 0 && p.intervalMs > 0
  }

  function Min(a: int, b: int): int {
    if a <= b then a else b
  }

  function SaturatingMul128(a: int, b: int): int {
    Min(a * b, U128_MAX)
  }

  function SaturatingAdd128(a: int, b: int): int {
    Min(a + b, U128_MAX)
  }

  function SaturatingAdd32(a: U32, b: U32): U32 {
    Min(a + b, U32_MAX)
  }

  /** Refills at `now`. A time difference beyond i64 wraps to a negative number and is refused. */
  function Refill(s: Bucket, p: RatePolicy, now: I64): Result<Bucket, SchedulerError> {
    if now < s.updatedAt || !ValidPolicy(p) then Err(InvalidInput)
    else if s.tokens >= p.capacity then Ok(Bucket(p.capacity, 0, now))
    else if now - s.updatedAt > I64_MAX then Err(InvalidInput)
    else
      var numerator := SaturatingAdd128(SaturatingMul128(now - s.updatedAt, p.refillTokens), s.remainder);
      NumeratorFits(now - s.updatedAt, p.refillTokens, s.remainder);
      var added: U32 := Min(numerator / p.intervalMs, U32_MAX);
      var tokens: U32 := Min(SaturatingAdd32(s.tokens, added), p.capacity);
      Ok(Bucket(tokens, if tokens == p.capacity then 0 else numerator % p.intervalMs, now))
  }

  /** None of the saturating operations saturates in range. */
  lemma NumeratorFits(elapsed: int, refill: U32, remainder: U64)
    requires 0 <= elapsed <= I64_MAX
    ensures 0 <= elapsed * refill <= 0x7fff_ffff_ffff_ffff * 0xffff_ffff
    ensures SaturatingAdd128(SaturatingMul128(elapsed, refill), remainder) == elapsed * refill + remainder
  {
    MulMonotone(elapsed, I64_MAX, refill);
    MulMonotone(refill, U32_MAX, I64_MAX);
  }

  lemma MulMonotone(a: int, b: int, c: int)
    requires 0 <= a <= b && 0 <= c
    ensures 0 <= a * c <= b * c
  {
  }

  // ---------------------------------------------------------------- exact meaning

  /** Whole tokens earned by `numerator`, without any width limit. */
  function Earned(s: Bucket, p: RatePolicy, now: I64): int
    requires p.intervalMs > 0
  {
    ((now - s.updatedAt) * p.refillTokens + s.remainder) / p.intervalMs
  }

  /** A time at which the clock difference fits. */
  predicate InRange(s: Bucket, now: I64) {
    s.updatedAt <= now && now - s.updatedAt <= I64_MAX
  }

  /** The width-limited refill is the ideal one: whole tokens up to capacity, the rest carried. */
  lemma {:induction false} RefillIsIdeal(s: Bucket, p: RatePolicy, now: I64)
    requires ValidPolicy(p) && InRange(s, now)
    ensures Refill(s, p, now).Ok?
    ensures var r := Refill(s, p, now).value;
            && r.updatedAt == now
            && r.tokens == Min(s.tokens + Earned(s, p, now), p.capacity)
            && (r.tokens == p.capacity ==> r.remainder == 0)
            && (r.tokens < p.capacity ==>
                  r.remainder == ((now - s.updatedAt) * p.refillTokens + s.remainder) % p.intervalMs)
  {
    NumeratorFits(now - s.updatedAt, p.refillTokens, s.remainder);
    DivNonNegative((now - s.updatedAt) * p.refillTokens + s.remainder, p.intervalMs);
  }

  lemma DivNonNegative(n: int, c: int)
    requires n >= 0 && c > 0
    ensures n / c >= 0
  {
  }

  /** Splitting a numerator in two carries the remainder over. */
  lemma {:induction false} DivSplit(n: int, x: int, c: int)
    requires c > 0
    ensures (n + x) / c == n / c + (n % c + x) / c
    ensures (n + x) % c == (n % c + x) % c
  {
    var q, k := n / c, (n % c + x) / c;
    var r := (n % c + x) % c;
    assert n + x == c * q + c * k + r;
    assert c * q + c * k == c * (q + k);
    DivUnique(n + x, c, q + k, r);
  }

  lemma {:induction false} DivUnique(n: int, c: int, q: int, r: int)
    requires c > 0 && n == c * q + r && 0 <= r < c
    ensures n / c == q && n % c == r
  {
    var q', r' := n / c, n % c;
    assert n == c * q' + r';
    assert c * (q - q') == -((q' - q) * c);
    assert c * (q - q') == r' - r by { assert c * q - c * q' == c * (q - q'); }
    if q - q' >= 1 {
      MulMonotone(1, q - q', c);
    } else if q' - q >= 1 {
      MulMonotone(1, q' - q, c);
    }
  }

  /** A refill is refused exactly for a clock that ran back, a zero in the policy, or a wait beyond i64. */
  lemma {:induction false} RefillCases(s: Bucket, p: RatePolicy, now: I64)
    ensures Refill(s, p, now).Err? <==>
      || now < s.updatedAt || p.capacity == 0 || p.refillTokens == 0 || p.intervalMs <= 0
      || (s.tokens < p.capacity && now - s.updatedAt > 0x7fff_ffff_ffff_ffff)
    ensures Refill(s, p, now).Ok? && s.tokens >= p.capacity ==> Refill(s, p, now).value == Bucket(p.capacity, 0, now)
    ensures Refill(s, p, now).Ok? && s.tokens < p.capacity ==>
      var units := (now - s.updatedAt) * p.refillTokens + s.remainder;
      Refill(s, p, now).value ==
        if s.tokens + units / p.intervalMs >= p.capacity then Bucket(p.capacity, 0, now)
        else Bucket(s.tokens + units / p.intervalMs, units % p.intervalMs, now)
  {
    if Refill(s, p, now).Ok? && s.tokens < p.capacity {
      RefillIsIdeal(s, p, now);
    }
  }

  // ---------------------------------------------------------------- path independence

  /** Refilling on the way changes nothing. */
  lemma {:induction false} RefillPathIndependent(s: Bucket, p: RatePolicy, t1: I64, t2: I64)
    requires InRange(s, t2) && s.updatedAt <= t1 <= t2
    ensures Refill(s, p, t1).Ok? <==> Refill(s, p, t2).Ok?
    ensures Refill(s, p, t1).Ok? ==> Refill(Refill(s, p, t1).value, p, t2) == Refill(s, p, t2)
  {
    if ValidPolicy(p) {
      RefillIsIdeal(s, p, t1);
      RefillIsIdeal(s, p, t2);
      var mid := Refill(s, p, t1).value;
      RefillIsIdeal(mid, p, t2);
      var n := (t1 - s.updatedAt) * p.refillTokens + s.remainder;
      var x := (t2 - t1) * p.refillTokens;
      assert (t2 - s.updatedAt) * p.refillTokens + s.remainder == n + x by {
        Distribute(t1 - s.updatedAt, t2 - t1, p.refillTokens);
      }
      DivSplit(n, x, p.intervalMs);
      NumeratorFits(t2 - t1, p.refillTokens, mid.remainder);
      NumeratorFits(t1 - s.updatedAt, p.refillTokens, s.remainder);
      if mid.tokens == p.capacity {
        DivNonNegative(n % p.intervalMs + x, p.intervalMs);
      }
      hide Refill;
    }
  }

  lemma Distribute(a: int, b: int, c: int)
    ensures (a + b) * c == a * c + b * c
  {
  }

  /** A refill on the way to `t2`, if it succeeds, does not change the refill at `t2`. */
  predicate SameThrough(s: Bucket, p: RatePolicy, t1: I64, t2: I64) {
    Refill(s, p, t1).Ok? ==> Refill(Refill(s, p, t1).value, p, t2) == Refill(s, p, t2)
  }

  /** The two ends of the clock: no time in between is in range of both. */
  predicate Extremes(s: Bucket, t2: I64) {
    t2 - s.updatedAt == U64_MAX
  }

  /** The longest fitting wait does not fill the bucket. */
  predicate StaysBelow(s: Bucket, p: RatePolicy)
    requires ValidPolicy(p) && s.updatedAt <= 0
  {
    s.tokens + Earned(s, p, s.updatedAt + I64_MAX) < p.capacity
  }

  /**
   Refills on the way never matter exactly when the policy is refused or the bucket full anyway, the
   clock difference fits the signed width, or it spans the whole clock and no refill on the way
   fills the bucket.
   */
  lemma {:induction false} PathIndependentIff(s: Bucket, p: RatePolicy, t2: I64)
    requires s.updatedAt <= t2
    ensures (forall t1: I64 | s.updatedAt <= t1 <= t2 :: SameThrough(s, p, t1, t2))
            <==> !ValidPolicy(p) || s.tokens >= p.capacity || InRange(s, t2) || (Extremes(s, t2) && StaysBelow(s, p))
  {
    if !ValidPolicy(p) || s.tokens >= p.capacity {
    } else if InRange(s, t2) {
      forall t1: I64 | s.updatedAt <= t1 <= t2 ensures SameThrough(s, p, t1, t2) {
        RefillPathIndependent(s, p, t1, t2);
      }
    } else {
      var t: I64 := s.updatedAt + I64_MAX;
      RefillIsIdeal(s, p, t);
      if !Extremes(s, t2) {
        RefillIsIdeal(Refill(s, p, t).value, p, t2);
        assert !SameThrough(s, p, t, t2);
      } else if !StaysBelow(s, p) {
        assert !SameThrough(s, p, t, t2);
      } else {
        forall t1: I64 | s.updatedAt <= t1 <= t2 ensures SameThrough(s, p, t1, t2) {
          if InRange(s, t1) {
            RefillIsIdeal(s, p, t1);
            EarnedGrows(s, p, t1, t);
          }
        }
      }
    }
  }

  /** Later is more. */
  lemma {:induction false} EarnedGrows(s: Bucket, p: RatePolicy, t1: I64, t2: I64)
    requires ValidPolicy(p) && s.updatedAt <= t1 <= t2
    ensures Earned(s, p, t1) <= Earned(s, p, t2)
  {
    MulMonotone(t1 - s.updatedAt, t2 - s.updatedAt, p.refillTokens);
    var n, x := (t1 - s.updatedAt) * p.refillTokens + s.remainder, (t2 - t1) * p.refillTokens;
    Distribute(t1 - s.updatedAt, t2 - t1, p.refillTokens);
    DivSplit(n, x, p.intervalMs);
    MulMonotone(0, t2 - t1, p.refillTokens);
    DivNonNegative(n % p.intervalMs + x, p.intervalMs);
  }

  predicate Nondecreasing(from: I64, times: seq<I64>) {
    && (forall i | 0 <= i < |times| :: from <= times[i])
    && (forall i, j | 0 <= i < j < |times| :: times[i] <= times[j])
  }

  function RefillAll(s: Bucket, p: RatePolicy, times: seq<I64>): Result<Bucket, SchedulerError>
    decreases |times|
  {
    if times == [] then Ok(s)
    else
      var r := Refill(s, p, times[0]);
      if r.Err? then r else RefillAll(r.value, p, times[1..])
  }

  /** Any nondecreasing series of refills equals one refill at its last time. */
  lemma {:induction false} AnyScheduleIsOneRefill(s: Bucket, p: RatePolicy, times: seq<I64>)
    requires times != [] && Nondecreasing(s.updatedAt, times) && InRange(s, times[|times| - 1])
    ensures RefillAll(s, p, times) == Refill(s, p, times[|times| - 1])
    decreases |times|
  {
    var last := times[|times| - 1];
    if |times| == 1 {
      assert times[1..] == [];
    } else {
      RefillPathIndependent(s, p, times[0], last);
      var r := Refill(s, p, times[0]);
      if r.Ok? {
        var rest := times[1..];
        assert forall i | 0 <= i < |rest| :: rest[i] == times[i + 1];
        assert r.value.updatedAt == times[0];
        AnyScheduleIsOneRefill(r.value, p, rest);
      }
    }
  }

  // ---------------------------------------------------------------- what can be spent

  /** One acquisition attempt: refill, then take a token if there is one. */
  function Acquire(s: Bucket, p: RatePolicy, now: I64): (Bucket, bool) {
    var r := Refill(s, p, now);
    if r.Err? then (s, false)
    else if r.value.tokens == 0 then (r.value, false)
    else (r.value.(tokens := r.value.tokens - 1), true)
  }

  /** A token is taken exactly when the refill succeeds and leaves one; an attempt without one keeps the refill. */
  lemma {:induction false} AcquireTakesIff(s: Bucket, p: RatePolicy, now: I64)
    ensures Acquire(s, p, now).1 <==> Refill(s, p, now).Ok? && Refill(s, p, now).value.tokens > 0
    ensures var (after, took) := Acquire(s, p, now);
            if Refill(s, p, now).Err? then after == s
            else
              var full := Refill(s, p, now).value;
              && after.tokens == full.tokens - (if took then 1 else 0)
              && after.remainder == full.remainder && after.updatedAt == now
  {
    RefillCases(s, p, now);
  }

  function AcquireAll(s: Bucket, p: RatePolicy, times: seq<I64>): (Bucket, nat) {
    if times == [] then (s, 0)
    else
      var (s1, n) := AcquireAll(s, p, times[..|times| - 1]);
      var (s2, ok) := Acquire(s1, p, times[|times| - 1]);
      (s2, if ok then n + 1 else n)
  }

  /** Tokens and carried remainder, in units of 1/interval token. */
  function Worth(s: Bucket, p: RatePolicy): int {
    Min(s.tokens, p.capacity) * p.intervalMs + s.remainder
  }

  /** Whole tokens out of `n` units are worth no more than `n`, whether they fit or not. */
  lemma {:induction false} WholeTokens(tokens: nat, cap: nat, n: nat, c: nat)
    requires c > 0 && tokens < cap
    ensures if tokens + n / c < cap then (tokens + n / c) * c + n % c == tokens * c + n
            else cap * c <= tokens * c + n
  {
    var q := n / c;
    assert n == q * c + n % c;
    Distribute(tokens, q, c);
    if tokens + q >= cap {
      MulMonotone(cap, tokens + q, c);
    }
  }

  lemma {:induction false} RefillGains(s: Bucket, p: RatePolicy, now: I64)
    requires ValidPolicy(p) && InRange(s, now)
    ensures var r := Refill(s, p, now).value;
            Worth(r, p) <= Worth(s, p) + (now - s.updatedAt) * p.refillTokens && r.updatedAt == now
  {
    RefillIsIdeal(s, p, now);
    hide Refill;
    var n := (now - s.updatedAt) * p.refillTokens + s.remainder;
    MulMonotone(0, now - s.updatedAt, p.refillTokens);
    if s.tokens < p.capacity {
      WholeTokens(s.tokens, p.capacity, n, p.intervalMs);
    } else {
      DivNonNegative(n, p.intervalMs);
    }
  }

  /** Over any run of attempts, spent tokens are paid for by the start and the elapsed time. */
  lemma {:induction false} SpentIsPaidFor(s: Bucket, p: RatePolicy, times: seq<I64>)
    requires ValidPolicy(p) && Nondecreasing(s.updatedAt, times)
    requires times != [] ==> InRange(s, times[|times| - 1])
    ensures var (s', n) := AcquireAll(s, p, times);
            && s'.updatedAt == (if times == [] then s.updatedAt else times[|times| - 1])
            && n * p.intervalMs + Worth(s', p) <= Worth(s, p) + (s'.updatedAt - s.updatedAt) * p.refillTokens
    decreases |times|
  {
    if times != [] {
      var k := |times| - 1;
      var now := times[k];
      SpentIsPaidFor(s, p, times[..k]);
      var (s1, n) := AcquireAll(s, p, times[..k]);
      assert InRange(s1, now);
      RefillIsIdeal(s1, p, now);
      RefillGains(s1, p, now);
      var r := Refill(s1, p, now).value;
      hide Refill;
      TakeCosts(r, p);
      Distribute(s1.updatedAt - s.updatedAt, now - s1.updatedAt, p.refillTokens);
      Distribute(n, 1, p.intervalMs);
    }
  }

  lemma {:induction false} TakeCosts(r: Bucket, p: RatePolicy)
    requires ValidPolicy(p) && r.tokens <= p.capacity
    ensures r.tokens > 0 ==> Worth(r.(tokens := r.tokens - 1), p) == Worth(r, p) - p.intervalMs
  {
    if r.tokens > 0 {
      Distribute(r.tokens - 1, 1, p.intervalMs);
    }
  }

  /** Never more than the capacity plus what the elapsed time earned. */
  lemma {:induction false} SpendingBound(s: Bucket, p: RatePolicy, times: seq<I64>)
    requires ValidPolicy(p) && times != [] && Nondecreasing(s.updatedAt, times) && InRange(s, times[|times| - 1])
    ensures AcquireAll(s, p, times).1 <= p.capacity + Earned(s, p, times[|times| - 1])
  {
    SpentIsPaidFor(s, p, times);
    var (s', n) := AcquireAll(s, p, times);
    var earned := (s'.updatedAt - s.updatedAt) * p.refillTokens + s.remainder;
    hide AcquireAll;
    WorthBounds(s, p);
    WorthBounds(s', p);
    hide Worth;
    BoundFromWorth(n, p.capacity, p.intervalMs, earned);
  }

  /** Less than one token is carried, and nothing at all when full: what every refill leaves behind. */
  predicate Settled(s: Bucket, p: RatePolicy) {
    s.remainder < p.intervalMs && (s.tokens >= p.capacity ==> s.remainder == 0)
  }

  lemma {:induction false} AcquireSettles(s: Bucket, p: RatePolicy, now: I64)
    requires ValidPolicy(p) && InRange(s, now)
    ensures Settled(Refill(s, p, now).value, p) && Settled(Acquire(s, p, now).0, p)
  {
    RefillIsIdeal(s, p, now);
  }

  /** From a settled bucket: never more than the capacity plus the whole tokens of the elapsed time alone. */
  lemma {:induction false} SpendingBoundExact(s: Bucket, p: RatePolicy, times: seq<I64>)
    requires ValidPolicy(p) && Settled(s, p)
    requires times != [] && Nondecreasing(s.updatedAt, times) && InRange(s, times[|times| - 1])
    ensures AcquireAll(s, p, times).1 <= p.capacity + (times[|times| - 1] - s.updatedAt) * p.refillTokens / p.intervalMs
  {
    SpentIsPaidFor(s, p, times);
    var (s', n) := AcquireAll(s, p, times);
    hide AcquireAll;
    SettledWorth(s, p);
    WorthBounds(s', p);
    hide Worth;
    BoundFromWorth(n, p.capacity, p.intervalMs, (s'.updatedAt - s.updatedAt) * p.refillTokens);
  }

  lemma {:induction false} SettledWorth(s: Bucket, p: RatePolicy)
    requires ValidPolicy(p) && Settled(s, p)
    ensures Worth(s, p) <= p.capacity * p.intervalMs
  {
    if s.tokens < p.capacity {
      MulMonotone(s.tokens + 1, p.capacity, p.intervalMs);
      Distribute(s.tokens, 1, p.intervalMs);
    }
  }

  lemma {:induction false} WorthBounds(s: Bucket, p: RatePolicy)
    requires ValidPolicy(p)
    ensures 0 <= Worth(s, p) <= p.capacity * p.intervalMs + s.remainder
  {
    MulMonotone(Min(s.tokens, p.capacity), p.capacity, p.intervalMs);
  }

  lemma {:induction false} BoundFromWorth(n: int, capacity: int, interval: int, earned: int)
    requires interval > 0 && n * interval <= capacity * interval + earned
    ensures n <= capacity + earned / interval
  {
    Distribute(n, -capacity, interval);
    DivAtLeast(n - capacity, earned, interval);
  }

  lemma {:induction false} DivAtLeast(k: int, n: int, c: int)
    requires c > 0 && k * c <= n
    ensures k <= n / c
  {
    var q := n / c;
    assert n == q * c + n % c;
    if k > q {
      MulMonotone(1, k - q, c);
      Distribute(k, -q, c);
    }
  }

  // ---------------------------------------------------------------- earliest retry

  function TokenRetryAt(s: Bucket, p: RatePolicy, now: I64): Option<I64>
    requires p.refillTokens > 0
  {
    if s.tokens > 0 then Some(now)
    else if p.intervalMs < 0 then None
    else
      var remaining := if p.intervalMs >= s.remainder then p.intervalMs - s.remainder else 0;
      var delay := Min(remaining + (p.refillTokens - 1), U64_MAX) / p.refillTokens;
      if delay > I64_MAX || now + delay > I64_MAX then None
      else
        DivNonNegative(Min(remaining + (p.refillTokens - 1), U64_MAX), p.refillTokens);
        Some(now + delay)
  }

  /** Rounding up: `delay` refills reach `remaining`, fewer do not. */
  lemma {:induction false} CeilingDivision(remaining: int, refill: int, elapsed: int)
    requires remaining >= 0 && refill > 0 && elapsed >= 0
    ensures elapsed * refill >= remaining <==> elapsed >= (remaining + (refill - 1)) / refill
  {
    var d := (remaining + (refill - 1)) / refill;
    assert remaining + (refill - 1) == d * refill + (remaining + (refill - 1)) % refill;
    if elapsed >= d {
      Distribute(elapsed, -d, refill);
      MulMonotone(0, elapsed - d, refill);
    } else {
      Distribute(d, -elapsed, refill);
      MulMonotone(1, d - elapsed, refill);
    }
  }

  /**
   The returned time is the earliest at which the carried remainder and the refills since `now` make up an
   interval: `now` itself while a token is left, and none when the clock ends before.
   */
  lemma {:induction false} RetryIsLeast(s: Bucket, p: RatePolicy, now: I64, t: I64)
    requires p.refillTokens > 0 && now <= t
    ensures var retry := TokenRetryAt(s, p, now);
            && (retry.Some? ==> retry.value >= now)
            && (retry.Some? && retry.value <= t <==>
                  s.tokens > 0 || (p.intervalMs >= 0 && (t - now) * p.refillTokens + s.remainder >= p.intervalMs))
  {
    if s.tokens == 0 && p.intervalMs >= 0 {
      var remaining := if p.intervalMs >= s.remainder then p.intervalMs - s.remainder else 0;
      RetryDelay(s, p, now, remaining);
      hide TokenRetryAt;
      MulMonotone(0, t - now, p.refillTokens);
      CeilingDivision(remaining, p.refillTokens, t - now);
      var delay, earned := (remaining + (p.refillTokens - 1)) / p.refillTokens, (t - now) * p.refillTokens;
      EarliestByDelay(TokenRetryAt(s, p, now), now, t, delay, earned, s.remainder, p.intervalMs);
    }
  }

  lemma {:induction false} EarliestByDelay(retry: Option<I64>, now: I64, t: I64, delay: nat, earned: nat,
                                           remainder: nat, interval: nat)
    requires now <= t && retry == if now + delay > I64_MAX then None else Some(now + delay)
    requires earned >= (if interval >= remainder then interval - remainder else 0) <==> t - now >= delay
    ensures retry.Some? && retry.value <= t <==> earned + remainder >= interval
    ensures retry.Some? ==> retry.value >= now
  {
  }

  lemma {:induction false} RetryDelay(s: Bucket, p: RatePolicy, now: I64, remaining: nat)
    requires p.refillTokens > 0 && s.tokens == 0 && p.intervalMs >= 0
    requires remaining == if p.intervalMs >= s.remainder then p.intervalMs - s.remainder else 0
    ensures var delay := (remaining + (p.refillTokens - 1)) / p.refillTokens;
            && 0 <= delay <= remaining
            && TokenRetryAt(s, p, now) == if now + delay > I64_MAX then None else Some(now + delay)
  {
    DivNonNegative(remaining + (p.refillTokens - 1), p.refillTokens);
    CeilingDivision(remaining, p.refillTokens, remaining);
    MulMonotone(1, p.refillTokens, remaining);
  }

  /**
   For an empty bucket refilled at `now`, a refill at any later time yields a token exactly from the
   returned time on; no time at all when there is none.
   */
  lemma {:induction false} RetryIsEarliest(s: Bucket, p: RatePolicy, t: I64)
    requires ValidPolicy(p) && s.tokens == 0 && s.remainder < p.intervalMs && InRange(s, t)
    ensures var retry := TokenRetryAt(s, p, s.updatedAt);
            Refill(s, p, t).Ok?
            && (Refill(s, p, t).value.tokens >= 1 <==> retry.Some? && retry.value <= t)
  {
    RefillIsIdeal(s, p, t);
    var elapsed := t - s.updatedAt;
    var remaining := p.intervalMs - s.remainder;
    var delay := (remaining + (p.refillTokens - 1)) / p.refillTokens;
    CeilingDivision(remaining, p.refillTokens, elapsed);
    var n := elapsed * p.refillTokens + s.remainder;
    NumeratorFits(elapsed, p.refillTokens, s.remainder);
    hide Refill;
    if n >= p.intervalMs {
      DivAtLeast(1, n, p.intervalMs);
    } else {
      DivUnique(n, p.intervalMs, 0, n);
    }
  }
}
