/** The objects of pkg/iratesce: a bucket with its limiter, and the map of buckets, updated in place. */
module RatesObject {
  import opened Options
  import opened Rates
  import opened Buckets
  import opened TakeTokens

  /** bucketType; the limiter is part of the bucket. */
  class BucketObject {
    var limit: Limit
    var burst: int
    var tokens: real
    var last: int
    var state: BucketState

    ghost function LimiterView(): Limiter
      reads this
    {
      Limiter(limit, burst, tokens, last)
    }

    ghost function View(): Bucket
      reads this
    {
      Bucket(LimiterView(), state)
    }

    constructor (state: BucketState, now: int)
      ensures View() == NewBucket(state, now)
    {
      this.state := state;
      new;
      ResetLimiter(now);
    }

    method Advance(now: int) returns (newLast: int, newTokens: real)
      ensures newLast == Earlier(now, last) && newTokens == TokensAt(LimiterView(), now)
    {
      newLast := last;
      if now < newLast {
        newLast := now;
      }
      var elapsed := Sub(now, newLast);
      match limit {
        case Inf =>
          newTokens := if elapsed > 0 then burst as real else tokens;
        case Rate(r) =>
          newTokens := tokens + TokensFromDuration(r, elapsed);
      }
      if newTokens > burst as real {
        newTokens := burst as real;
      }
    }

    /** reserveN with maxFutureReserve 0, of which allowN uses the answer only. */
    method AllowN(now: int, n: int) returns (ok: bool)
      modifies this
      ensures (LimiterView(), ok) == Rates.AllowN(old(LimiterView()), now, n) && state == old(state)
    {
      if limit.Inf? {
        return true;
      }
      var r := limit.perSecond;
      if r == 0.0 {
        if burst >= n {
          burst := burst - n;
          return true;
        }
        return false;
      }
      var newLast, newTokens := Advance(now);
      newTokens := newTokens - n as real;
      var waitDuration := 0;
      if newTokens < 0.0 {
        waitDuration := DurationFromTokens(r, -newTokens);
      }
      ok := n <= burst && waitDuration <= 0;
      if ok {
        last := now;
        tokens := newTokens;
      } else {
        last := newLast;
      }
    }

    /** reset: a new limiter of the state's rate, from which the state's tokens are taken. */
    method ResetLimiter(now: int)
      modifies this
      ensures LimiterView() == Reset(state, now) && state == old(state)
    {
      var interval := Rate(0.0);
      if state.maxTokensPerPeriod > 0 {
        interval := Every(TruncDiv(state.period, state.maxTokensPerPeriod));
      }
      limit, burst, tokens, last := interval, state.maxTokensPerPeriod, 0.0, ZERO_TIME;
      var ok := AllowN(now, state.takenTokens);
    }

    method ResetToState(state: BucketState, now: int)
      modifies this
      ensures View() == NewBucket(state, now)
    {
      this.state := state;
      ResetLimiter(now);
    }

    /** recalcBuketState: how many tokens are missing now, in whole tokens. */
    method RecalcState(now: int)
      modifies this`state
      ensures state == old(state).(takenTokens := Missing(LimiterView(), now))
    {
      var newLast, newTokens := Advance(now);
      var value := burst as real - newTokens;
      if value < 0.0 {
        value := 0.0;
      }
      state := state.(takenTokens := value.Floor);
    }
  }

  class BucketsObject {
    var buckets: map<BucketKey, BucketObject>
    var defaultStates: Defaults

    constructor ()
      ensures Valid() && View() == map[] && defaultStates == map[]
    {
      buckets, defaultStates := map[], map[];
    }

    /** No two keys share a bucket. */
    ghost predicate Valid()
      reads this
    {
      forall k, l | k in buckets && l in buckets && k != l :: buckets[k] != buckets[l]
    }

    ghost function View(): BucketMap
      reads this, buckets.Values
    {
      map k | k in buckets :: buckets[k].View()
    }

    /** Buckets are added, not replaced. */
    twostate predicate Grown()
      reads this
    {
      && old(buckets).Keys <= buckets.Keys
      && forall k | k in buckets :: if k in old(buckets) then buckets[k] == old(buckets[k]) else fresh(buckets[k])
    }

    method BucketByKey(key: BucketKey, now: int) returns (found: bool)
      requires Valid()
      modifies this`buckets
      ensures Valid() && Grown() && View() == ByKey(old(View()), defaultStates, key, now)
      ensures found <==> key in buckets
      ensures found <==> key in old(buckets) || key.rateLimitName in defaultStates
    {
      if key in buckets {
        return true;
      }
      if key.rateLimitName !in defaultStates {
        return false;
      }
      var bucket := new BucketObject(defaultStates[key.rateLimitName], now);
      buckets := buckets[key := bucket];
      return true;
    }

    /** allowN on the bucket of a key, if there is one. */
    method AllowKey(key: BucketKey, t: int, n: int) returns (ok: bool)
      requires Valid()
      modifies buckets.Values
      ensures (View(), ok) == Allow(old(View()), key, t, n)
    {
      if key !in buckets {
        return true;
      }
      ok := buckets[key].AllowN(t, n);
      assert View() == old(View())[key := buckets[key].View()];
    }

    /** One turn of either loop of TakeTokens. */
    method AskKey(key: BucketKey, now: int, t: int, n: int) returns (ok: bool)
      requires Valid()
      modifies this`buckets, buckets.Values
      ensures Valid() && Grown()
      ensures (View(), ok) == Allow(ByKey(old(View()), defaultStates, key, now), key, t, n)
      ensures key in old(buckets) || key.rateLimitName !in defaultStates ==> (View(), ok) == Allow(old(View()), key, t, n)
      ensures key in buckets || key.rateLimitName !in defaultStates
    {
      var found := BucketByKey(key, now);
      ok := AllowKey(key, t, n);
    }

    /** The loop that takes.  `clock[i]` is what the clock shows when the i-th bucket is made. */
    method Ask(keys: seq<BucketKey>, n: int, t: int, clock: seq<int>) returns (keyIdx: nat)
      requires Valid() && ValidCall(Call(defaultStates, keys, clock, t, n))
      modifies this`buckets, buckets.Values
      ensures Valid() && Grown()
      ensures (View(), keyIdx) == Asked(old(View()), Call(defaultStates, keys, clock, t, n), |keys|)
      ensures forall i | 0 <= i < keyIdx :: keys[i] in buckets || keys[i].rateLimitName !in defaultStates
    {
      hide Allow, ByKey, View;
      ghost var c := Call(defaultStates, keys, clock, t, n);
      keyIdx := 0;
      while keyIdx < |keys|
        invariant 0 <= keyIdx <= |keys| && Valid() && Grown()
        invariant Asked(old(View()), c, keyIdx) == (View(), keyIdx)
        invariant forall i | 0 <= i < keyIdx :: keys[i] in buckets || keys[i].rateLimitName !in defaultStates
      {
        var ok := AskKey(keys[keyIdx], clock[keyIdx], t, n);
        if !ok {
          AskedStops(old(View()), c, keyIdx, |keys|);
          return;
        }
        keyIdx := keyIdx + 1;
      }
    }

    /** The loop that gives back. */
    method GiveBack(keys: seq<BucketKey>, n: int, t: int, clock: seq<int>, keyIdx: nat)
      requires Valid() && keyIdx <= |keys| == |clock|
      requires forall i | 0 <= i < keyIdx :: keys[i] in buckets || keys[i].rateLimitName !in defaultStates
      modifies this`buckets, buckets.Values
      ensures Valid() && Grown()
      ensures View() == GivenBack(old(View()), Call(defaultStates, keys, clock, t, n), keyIdx)
    {
      hide Allow, ByKey, View;
      ghost var c := Call(defaultStates, keys, clock, t, n);
      for i := 0 to keyIdx
        invariant Valid() && Grown()
        invariant View() == GivenBack(old(View()), c, i)
      {
        var ok := AskKey(keys[i], t, t, -n);
      }
    }

    method TakeTokens(keys: seq<BucketKey>, n: int, t: int, clock: seq<int>) returns (ok: bool, excLimit: Option<nat>)
      requires Valid() && ValidCall(Call(defaultStates, keys, clock, t, n))
      modifies this`buckets, buckets.Values
      ensures Valid() && Grown()
      ensures (View(), excLimit) == Take(old(View()), Call(defaultStates, keys, clock, t, n))
      ensures ok == excLimit.None?
    {
      ok, excLimit := true, None;
      var keyIdx := Ask(keys, n, t, clock);
      if keyIdx < |keys| {
        ok := false;
        excLimit := Some(keys[keyIdx].rateLimitName);
        GiveBack(keys, n, t, clock, keyIdx);
      }
    }

    method SetDefaultBucketState(rateLimitName: nat, bucketState: BucketState)
      modifies this`defaultStates
      ensures defaultStates == old(defaultStates)[rateLimitName := bucketState]
    {
      defaultStates := defaultStates[rateLimitName := bucketState];
    }

    /** Every bucket of the rate limit is reset; the others are not touched. */
    method ResetRateBuckets(rateLimitName: nat, bucketState: BucketState, now: int)
      requires Valid()
      modifies buckets.Values
      ensures forall k | k in buckets ::
        buckets[k].View() == if rateLimitName in defaultStates && k.rateLimitName == rateLimitName
                             then NewBucket(bucketState, now) else old(buckets[k].View())
    {
      if rateLimitName !in defaultStates {
        return;
      }
      var todo := buckets.Keys;
      while todo != {}
        invariant todo <= buckets.Keys
        invariant forall k | k in buckets ::
          buckets[k].View() == if k !in todo && k.rateLimitName == rateLimitName
                               then NewBucket(bucketState, now) else old(buckets[k].View())
        decreases todo
      {
        var key :| key in todo;
        if key.rateLimitName == rateLimitName {
          buckets[key].ResetToState(bucketState, now);
        }
        todo := todo - {key};
      }
    }

    method SetBucketState(key: BucketKey, state: BucketState, now: int) returns (found: bool)
      requires Valid()
      modifies this`buckets, buckets.Values
      ensures Valid() && Grown()
      ensures found == (key in old(buckets) || key.rateLimitName in defaultStates)
      ensures found ==> key in buckets && buckets[key].View() == NewBucket(state, now)
      ensures forall k | k in old(buckets) && k != key :: buckets[k].View() == old(buckets[k].View())
    {
      found := BucketByKey(key, now);
      if found {
        buckets[key].ResetToState(state, now);
      }
    }

    /** GetBucketState: the state with the tokens missing now; the limiter does not change. */
    method GetBucketState(key: BucketKey, now: int) returns (state: Option<BucketState>)
      requires Valid()
      modifies this`buckets, buckets.Values
      ensures Valid() && Grown()
      ensures state.Some? == (key in old(buckets) || key.rateLimitName in defaultStates)
      ensures state.Some? ==> key in buckets && state.value == buckets[key].state
                              && state.value.takenTokens == Missing(buckets[key].LimiterView(), now)
      ensures key in old(buckets) ==> buckets[key].LimiterView() == old(buckets[key].LimiterView())
    {
      var found := BucketByKey(key, now);
      if !found {
        return None;
      }
      buckets[key].RecalcState(now);
      return Some(buckets[key].state);
    }
  }
}
