/** How fast a bucket that was reset fills again. */
module BucketRefill {
  import opened Rates
  import opened Buckets

  /** The nanoseconds for one token. */
  function Interval(state: BucketState): int
    requires state.maxTokensPerPeriod > 0
  {
    state.period / state.maxTokensPerPeriod
  }

  /** The tokens that a reset leaves: a request for more than the bucket holds takes nothing. */
  function Left(state: BucketState): int {
    if state.takenTokens <= state.maxTokensPerPeriod then state.maxTokensPerPeriod - state.takenTokens else state.maxTokensPerPeriod
  }

  lemma IntervalIs(state: BucketState)
    requires ValidState(state) && state.maxTokensPerPeriod > 0 && state.period >= state.maxTokensPerPeriod
    ensures Interval(state) >= 1 && Interval(state) == TruncDiv(state.period, state.maxTokensPerPeriod)
    ensures state.maxTokensPerPeriod * Interval(state) <= MAX_DURATION
  {
  }

  lemma ResetIs(state: BucketState, now: int)
    requires ValidState(state) && state.maxTokensPerPeriod > 0 && state.period >= state.maxTokensPerPeriod
    requires now - ZERO_TIME >= MAX_DURATION
    ensures
      var k := Interval(state);
      var l := Reset(state, now);
      && ProperAt(l, k) && l.burst == state.maxTokensPerPeriod
      && TokensAt(l, now) == Left(state) as real
      && (l.last == now || (l.tokens == 0.0 && now - l.last >= MAX_DURATION))
  {
    var k := Interval(state);
    var l := Limiter(LimitOf(state), state.maxTokensPerPeriod, 0.0, ZERO_TIME);
    IntervalIs(state);
    assert Units(0.0, k) == 0.0;
    assert ProperAt(l, k);
    FullBucket(l, k, now);
    AllowProper(l, k, now, state.takenTokens);
    var m := Reset(state, now);
    hide Units, Whole, Gain, AllowN, TokensAt, Every;
    if state.takenTokens <= state.maxTokensPerPeriod {
      AtLast(m, k);
    } else {
      assert m == l.(last := Earlier(now, l.last)) == l;
    }
  }

  lemma AtLast(l: Limiter, k: int)
    requires ProperAt(l, k) && l.tokens <= l.burst as real
    ensures TokensAt(l, l.last) == l.tokens
  {
    TokensInUnits(l, k, l.last);
    GainZero(l.limit.perSecond);
    hide Units, Whole, Gain, TokensAt;
  }

  lemma Quotient(n: int, left: int, d: int, k: int)
    requires k >= 1
    ensures n * k <= left * k + d <==> n <= left + d / k
  {
    var q := d / k;
    assert q * k <= d < (q + 1) * k;
    if n <= left + q {
      assert (n - left) * k <= q * k;
    } else {
      assert (q + 1) * k <= (n - left) * k;
    }
  }

  lemma EnoughInUnits(tokens: real, n: int, k: int)
    requires k >= 1
    ensures tokens >= n as real <==> Units(tokens, k) >= (n * k) as real
  {
    UnitsOrder(tokens, n as real, k);
    UnitsOfInt(n, k);
    hide Units;
  }

  /** The tokens of a bucket some time after its reset, in k-ths. */
  lemma RefilledUnits(state: BucketState, now: int, later: int)
    requires ValidState(state) && state.maxTokensPerPeriod > 0 && state.period >= state.maxTokensPerPeriod
    requires now - ZERO_TIME >= MAX_DURATION && later >= now
    ensures
      var k := Interval(state);
      Units(TokensAt(Reset(state, now), later), k)
      == Min((Left(state) * k + (later - now)) as real, (state.maxTokensPerPeriod * k) as real)
  {
    var k := Interval(state);
    var l := Reset(state, now);
    IntervalIs(state);
    ResetIs(state, now);
    TokensInUnits(l, k, now);
    TokensInUnits(l, k, later);
    UnitsOfInt(Left(state), k);
    UnitsOfInt(state.maxTokensPerPeriod, k);
    assert Units(0.0, k) == 0.0;
    LeftFits(state, k);
    hide Reset, Interval, TokensAt, Units, Whole, Gain, ProperAt;
  }

  lemma LeftFits(state: BucketState, k: int)
    requires k >= 1
    ensures 0 <= Left(state) * k <= state.maxTokensPerPeriod * k
  {
    assert Left(state) <= state.maxTokensPerPeriod;
  }

  lemma FillingAnswers(state: BucketState, now: int, later: int, n: int)
    requires ValidState(state) && state.maxTokensPerPeriod > 0 && state.period >= state.maxTokensPerPeriod
    requires now - ZERO_TIME >= MAX_DURATION && later >= now
    ensures AllowN(Reset(state, now), later, n).1 <==>
      n <= state.maxTokensPerPeriod && n <= Left(state) + (later - now) / Interval(state)
  {
    var k := Interval(state);
    var l := Reset(state, now);
    hide *;
    IntervalIs(state);
    ResetIs(state, now);
    RefilledUnits(state, now, later);
    AllowProper(l, k, later, n);
    var granted := AllowN(l, later, n).1;
    assert granted <==> TokensAt(l, later) >= n as real;
    EnoughInUnits(TokensAt(l, later), n, k);
    Quotient(n, Left(state), later - now, k);
    Quotient(n, state.maxTokensPerPeriod, 0, k);
    NotLess((Left(state) * k + (later - now)) as real, (state.maxTokensPerPeriod * k) as real, (n * k) as real);
  }

  lemma NotLess(a: real, b: real, n: real)
    ensures Min(a, b) >= n <==> a >= n && b >= n
  {
  }

  lemma EmptyAnswers(state: BucketState, now: int, later: int, n: int)
    requires state.maxTokensPerPeriod == 0
    ensures AllowN(Reset(state, now), later, n).1 <==> n <= 0
  {
    hide TokensAt, Wait;
  }

  lemma UnlimitedAnswers(state: BucketState, now: int, later: int, n: int)
    requires state.maxTokensPerPeriod > 0 && state.period < state.maxTokensPerPeriod
    ensures AllowN(Reset(state, now), later, n).1
  {
    assert TruncDiv(state.period, state.maxTokensPerPeriod) <= 0;
    hide TokensAt, Wait;
  }

  /** A bucket that was reset gains exactly one token for each `period / maxTokensPerPeriod` nanoseconds, up to
      its maximum: a first request at a later time is granted exactly if so many tokens are there.  A period too
      short for that grants everything, and without tokens per period nothing is granted. */
  lemma RefillIsExact(state: BucketState, now: int, later: int, n: int)
    requires ValidState(state) && now - ZERO_TIME >= MAX_DURATION && later >= now
    ensures AllowN(Reset(state, now), later, n).1 <==>
      if state.maxTokensPerPeriod == 0 then n <= 0
      else if state.period < state.maxTokensPerPeriod then true
      else n <= state.maxTokensPerPeriod && n <= Left(state) + (later - now) / Interval(state)
  {
    hide *;
    if state.maxTokensPerPeriod == 0 {
      EmptyAnswers(state, now, later, n);
    } else if state.period < state.maxTokensPerPeriod {
      UnlimitedAnswers(state, now, later, n);
    } else {
      FillingAnswers(state, now, later, n);
    }
  }

  /** A state that was set is read back at the same time as what it took: nothing if it took more than the bucket
      holds, if tokens come without limit, or if there are none at all. */
  lemma StateReadsBackExactly(state: BucketState, now: int)
    requires ValidState(state) && now - ZERO_TIME >= MAX_DURATION
    ensures Missing(Reset(state, now), now) ==
      if state.period >= state.maxTokensPerPeriod && state.takenTokens <= state.maxTokensPerPeriod then state.takenTokens else 0
  {
    if state.maxTokensPerPeriod > 0 && state.period >= state.maxTokensPerPeriod {
      IntervalIs(state);
      SetStateIsReadBack(state, now);
      hide Missing, Reset, Interval;
    } else if state.maxTokensPerPeriod == 0 {
      NothingMissing(state, now);
      hide Missing, Reset;
    } else {
      assert TruncDiv(state.period, state.maxTokensPerPeriod) <= 0;
      assert Reset(state, now) == Limiter(Inf, state.maxTokensPerPeriod, 0.0, ZERO_TIME);
      assert Sub(now, ZERO_TIME) > 0;
    }
  }

  lemma NothingMissing(state: BucketState, now: int)
    requires state.maxTokensPerPeriod == 0
    ensures Missing(Reset(state, now), now) == 0
  {
    var l := Reset(state, now);
    assert l.limit == Rate(0.0) && l.burst == 0 && l.tokens == 0.0;
    assert TokensAt(l, now) == 0.0;
  }
}
