/** Buckets of pkg/iratesce: limiters with a whole number of nanoseconds per token, and the take of tokens
    from several buckets with its rollback. */
module Buckets {
  import opened Rates

  datatype BucketKey = BucketKey(rateLimitName: nat, rest: nat)
  datatype BucketState = BucketState(period: int, maxTokensPerPeriod: nat, takenTokens: nat)
  datatype Bucket = Bucket(limiter: Limiter, state: BucketState)

  type BucketMap = map<BucketKey, Bucket>
  type Defaults = map<nat, BucketState>

  /** A period is an int64. */
  predicate ValidState(state: BucketState) {
    -MAX_DURATION - 1 <= state.period <= MAX_DURATION
  }

  function Every(interval: int): Limit {
    if interval <= 0 then Inf else Rate(1.0 / (interval as real / SECOND as real))
  }

  /** Go division truncates. */
  function TruncDiv(a: int, b: int): int
    requires b > 0
  {
    if a >= 0 then a / b else -(-a / b)
  }

  function LimitOf(state: BucketState): Limit {
    if state.maxTokensPerPeriod > 0 then Every(TruncDiv(state.period, state.maxTokensPerPeriod)) else Rate(0.0)
  }

  function Reset(state: BucketState, now: int): Limiter {
    AllowN(Limiter(LimitOf(state), state.maxTokensPerPeriod, 0.0, ZERO_TIME), now, state.takenTokens).0
  }

  function NewBucket(state: BucketState, now: int): Bucket {
    Bucket(Reset(state, now), state)
  }

  /** The tokens that are missing, in whole tokens. */
  function Missing(l: Limiter, now: int): nat {
    var value := l.burst as real - TokensAt(l, now);
    if value < 0.0 then 0 else value.Floor
  }

  /* ---------- limiters that a reset makes ---------- */

  predicate Whole(x: real) {
    x == x.Floor as real
  }

  /** Tokens counted in k-ths. */
  function Units(tokens: real, k: int): real {
    tokens * k as real
  }

  /** A token takes a whole number k of nanoseconds, the bucket fills in a representable duration, and
      the tokens are a whole number of k-ths. */
  predicate ProperAt(l: Limiter, k: int) {
    && k >= 1 && l.limit == Every(k)
    && l.burst >= 0 && l.burst * k <= MAX_DURATION
    && l.tokens >= 0.0 && Whole(Units(l.tokens, k))
  }

  ghost predicate Proper(l: Limiter) {
    && l.burst >= 0
    && (l.limit.Rate? && l.limit.perSecond != 0.0 ==> exists k :: ProperAt(l, k))
  }

  function Refilling(l: Limiter): bool {
    l.limit.Rate? && l.limit.perSecond != 0.0
  }

  lemma UnitsAdd(a: real, b: real, k: int)
    ensures Units(a + b, k) == Units(a, k) + Units(b, k)
  {
  }

  lemma UnitsOfInt(n: int, k: int)
    ensures Units(n as real, k) == (n * k) as real
  {
  }

  lemma UnitsOrder(a: real, b: real, k: int)
    requires k >= 1
    ensures a < b <==> Units(a, k) < Units(b, k)
  {
    if a < b {
      MulLess(a, b, k as real);
    } else if b < a {
      MulLess(b, a, k as real);
    }
  }

  lemma UnitsMin(a: real, b: real, k: int)
    requires k >= 1
    ensures Units(Min(a, b), k) == Min(Units(a, k), Units(b, k))
  {
    hide Units;
    UnitsOrder(a, b, k);
    UnitsOrder(b, a, k);
  }

  lemma GainOfEvery(k: int, d: int)
    requires k >= 1
    ensures Every(k).perSecond > 0.0
    ensures Units(Gain(Every(k).perSecond, d), k) == d as real
    ensures d >= 0 ==> Gain(Every(k).perSecond, d) >= 0.0
  {
    var s := SECOND as real;
    var kr := k as real;
    assert 1.0 / (kr / s) == s / kr;
    assert d as real / s * (s / kr) == d as real / kr;
    DivMul(d as real, kr);
  }

  lemma WholeSum(x: real, d: int)
    requires Whole(x)
    ensures Whole(x + d as real)
  {
    assert x + d as real == (x.Floor + d) as real;
  }

  /** The tokens in k-ths are whole at any time. */
  lemma TokensInUnits(l: Limiter, k: int, now: int)
    requires ProperAt(l, k)
    ensures
      var elapsed := Sub(now, Earlier(now, l.last));
      && elapsed >= 0
      && TokensAt(l, now) == Min(l.tokens + Gain(l.limit.perSecond, elapsed), l.burst as real)
      && Units(TokensAt(l, now), k) == Min(Units(l.tokens, k) + elapsed as real, (l.burst * k) as real)
    ensures Whole(Units(TokensAt(l, now), k)) && 0.0 <= TokensAt(l, now) <= l.burst as real
  {
    var elapsed := Sub(now, Earlier(now, l.last));
    var g := Gain(l.limit.perSecond, elapsed);
    GainOfEvery(k, elapsed);
    hide Gain, Units;
    UnitsMin(l.tokens + g, l.burst as real, k);
    UnitsAdd(l.tokens, g, k);
    UnitsOfInt(l.burst, k);
    WholeSum(Units(l.tokens, k), elapsed);
  }

  lemma WaitInUnits(k: int, missing: real)
    requires k >= 1
    ensures SECOND as real * (missing / Every(k).perSecond) == Units(missing, k)
  {
    var s := SECOND as real;
    var kr := k as real;
    assert 1.0 / (kr / s) == s / kr;
    assert missing / (s / kr) == missing * kr / s;
  }

  /** No truncation happens: a proper limiter waits exactly if tokens are missing. */
  lemma WaitIsExact(k: int, tokens: real)
    requires k >= 1 && Whole(Units(tokens, k))
    ensures Wait(Every(k).perSecond, tokens) <= 0 <==> tokens >= 0.0
  {
    GainOfEvery(k, 1);
    if tokens < 0.0 {
      WaitInUnits(k, -tokens);
      UnitsAdd(tokens, -tokens, k);
      UnitsOrder(tokens, 0.0, k);
      hide Units, Every;
      var m := Units(tokens, k).Floor;
      assert Units(-tokens, k) == (-m) as real;
      assert m < 0;
      assert DurationFromTokens(Every(k).perSecond, -tokens) == -m;
    }
  }

  lemma WholeDifference(t: real, n: int, k: int)
    requires Whole(Units(t, k))
    ensures Whole(Units(t - n as real, k))
  {
    assert t - n as real == t + (-n) as real;
    UnitsAdd(t, (-n) as real, k);
    UnitsOfInt(-n, k);
    WholeSum(Units(t, k), -n * k);
  }

  /** allowN of a proper limiter: granted exactly if the tokens are there. */
  lemma AllowProper(l: Limiter, k: int, now: int, n: int)
    requires ProperAt(l, k)
    ensures
      var t := TokensAt(l, now);
      AllowN(l, now, n) == if t >= n as real then (l.(last := now, tokens := t - n as real), true)
                           else (l.(last := Earlier(now, l.last)), false)
    ensures ProperAt(AllowN(l, now, n).0, k)
  {
    TokensInUnits(l, k, now);
    WholeDifference(TokensAt(l, now), n, k);
    WaitIsExact(k, TokensAt(l, now) - n as real);
    GainOfEvery(k, 1);
    hide TokensAt, Wait, Whole, Units, Gain, Every;
  }

  lemma AllowKeepsProper(l: Limiter, now: int, n: int)
    requires Proper(l)
    ensures Proper(AllowN(l, now, n).0)
  {
    if Refilling(l) {
      var k :| ProperAt(l, k);
      AllowProper(l, k, now, n);
    }
  }

  /** Every reset makes a proper limiter. */
  lemma ResetIsProper(state: BucketState, now: int)
    requires ValidState(state)
    ensures Proper(Reset(state, now))
  {
    var l := Limiter(LimitOf(state), state.maxTokensPerPeriod, 0.0, ZERO_TIME);
    if Refilling(l) {
      var k := TruncDiv(state.period, state.maxTokensPerPeriod);
      assert l.burst * k <= state.period;
      assert ProperAt(l, k);
    }
    AllowKeepsProper(l, now, state.takenTokens);
  }

  /** For the buckets of this package the bound holds without the nanosecond: in any window at most the
      burst plus the rate times the window. */
  lemma ProperWindowBound(l: Limiter, before: seq<Request>, window: seq<Request>)
    requires Proper(l) && Refilling(l) && window != [] && InOrder(l.last, before + window)
    ensures Granted(Rates.After(l, before), window) as real
      <= l.burst as real + Gain(l.limit.perSecond, window[|window| - 1].at - window[0].at)
  {
    var k :| ProperAt(l, k);
    ProperIsSane(l, k);
    RunKeepsSane(l, before, window);
    var l' := Rates.After(l, before);
    RunKeepsProper(l, k, before);
    RunKeepsProper(l', k, window);
    WindowBalance(l', window);
    TokensInUnits(Rates.After(l', window), k, window[|window| - 1].at);
    TokensInUnits(l', k, window[0].at);
    hide Gain, TokensAt, Rates.After, Granted, Sane, InOrder, ProperAt, Units, Whole;
  }

  lemma ProperIsSane(l: Limiter, k: int)
    requires ProperAt(l, k)
    ensures Sane(l)
  {
    GainOfEvery(k, 1);
    UnitsOrder(0.0, Gain(l.limit.perSecond, 1), k);
  }

  lemma {:induction false} RunKeepsProper(l: Limiter, k: int, reqs: seq<Request>)
    requires ProperAt(l, k)
    ensures ProperAt(Rates.After(l, reqs), k)
    decreases |reqs|
  {
    if reqs != [] {
      AllowProper(l, k, reqs[0].at, reqs[0].n);
      RunKeepsProper(AllowN(l, reqs[0].at, reqs[0].n).0, k, reqs[1..]);
    }
  }

  /** A state that was set is read back at the same time, for a rate that is neither zero nor infinite. */
  lemma SetStateIsReadBack(state: BucketState, now: int)
    requires ValidState(state) && LimitOf(state).Rate? && state.maxTokensPerPeriod > 0
    requires now - ZERO_TIME >= MAX_DURATION
    ensures Missing(Reset(state, now), now) == if state.takenTokens <= state.maxTokensPerPeriod then state.takenTokens else 0
  {
    var l := Limiter(LimitOf(state), state.maxTokensPerPeriod, 0.0, ZERO_TIME);
    var k := TruncDiv(state.period, state.maxTokensPerPeriod);
    assert l.burst * k <= state.period;
    assert ProperAt(l, k);
    TokensInUnits(l, k, now);
    FullBucket(l, k, now);
    AllowProper(l, k, now, state.takenTokens);
    var m := Reset(state, now);
    TokensInUnits(m, k, now);
    if state.takenTokens <= state.maxTokensPerPeriod {
      GainZero(m.limit.perSecond);
    } else {
      assert m == l;
    }
    hide Units, Whole, Gain, AllowN, TokensAt;
  }

  /** A limiter that nothing was taken from for the longest duration is full. */
  lemma FullBucket(l: Limiter, k: int, now: int)
    requires ProperAt(l, k) && now - l.last >= MAX_DURATION
    ensures TokensAt(l, now) == l.burst as real
  {
    TokensInUnits(l, k, now);
    UnitsOfInt(l.burst, k);
    UnitsOrder(l.tokens, 0.0, k);
    UnitsOrder(TokensAt(l, now), l.burst as real, k);
    assert Units(0.0, k) == 0.0;
    hide Units, Whole, Gain, TokensAt;
  }
}
