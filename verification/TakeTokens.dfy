/** TakeTokens of pkg/iratesce: all buckets or none.  A bucket that does not exist is made when its key is
    looked up; `clock[i]` is what the clock then shows for the i-th key. */
module TakeTokens {
  import opened Options
  import opened Rates
  import opened Buckets

  /** bucketByKey: the map with the bucket of the key, if the key has one at all. */
  function ByKey(bs: BucketMap, defaults: Defaults, key: BucketKey, now: int): BucketMap {
    if key in bs || key.rateLimitName !in defaults then bs
    else bs[key := NewBucket(defaults[key.rateLimitName], now)]
  }

  /** allowN on the bucket of a key; a key without a bucket does not matter. */
  function Allow(bs: BucketMap, key: BucketKey, t: int, n: int): (BucketMap, bool) {
    if key !in bs then (bs, true)
    else
      var (l, ok) := AllowN(bs[key].limiter, t, n);
      (bs[key := bs[key].(limiter := l)], ok)
  }

  datatype Call = Call(defaults: Defaults, keys: seq<BucketKey>, clock: seq<int>, t: int, n: int)

  /** The clock does not go back, and periods are int64. */
  predicate ValidCall(c: Call) {
    && |c.keys| == |c.clock|
    && (forall i | 0 <= i < |c.clock| :: c.t <= c.clock[i])
    && (forall name | name in c.defaults :: ValidState(c.defaults[name]))
  }

  /** The loop of TakeTokens over the first `i` keys: the buckets, and how many keys were granted. */
  function Asked(bs: BucketMap, c: Call, i: nat): (r: (BucketMap, nat))
    requires ValidCall(c) && i <= |c.keys|
    ensures r.1 <= i
  {
    if i == 0 then (bs, 0)
    else
      var (b, done) := Asked(bs, c, i - 1);
      if done < i - 1 then (b, done)
      else
        var (b', ok) := Allow(ByKey(b, c.defaults, c.keys[i - 1], c.clock[i - 1]), c.keys[i - 1], c.t, c.n);
        (b', if ok then i else i - 1)
  }

  /** The rollback over the first `i` keys. */
  function GivenBack(bs: BucketMap, c: Call, i: nat): BucketMap
    requires i <= |c.keys|
  {
    if i == 0 then bs else Allow(GivenBack(bs, c, i - 1), c.keys[i - 1], c.t, -c.n).0
  }

  /** TakeTokens: the buckets, and the rate limit that was exceeded. */
  function Take(bs: BucketMap, c: Call): (BucketMap, Option<nat>)
    requires ValidCall(c)
  {
    var (b, done) := Asked(bs, c, |c.keys|);
    if done == |c.keys| then (b, None)
    else (GivenBack(b, c, done), Some(c.keys[done].rateLimitName))
  }

  lemma {:induction false} AskedStops(bs: BucketMap, c: Call, done: nat, i: nat)
    requires ValidCall(c) && done < i <= |c.keys| && Asked(bs, c, done + 1).1 == done
    ensures Asked(bs, c, i) == Asked(bs, c, done + 1)
  {
    if i > done + 1 {
      AskedStops(bs, c, done, i - 1);
    }
  }

  /* ---------- what a bucket can grant ---------- */

  function Count(keys: seq<BucketKey>, i: nat, key: BucketKey): nat
    requires i <= |keys|
  {
    if i == 0 then 0 else Count(keys, i - 1, key) + if keys[i - 1] == key then 1 else 0
  }

  /** The limiter holds `need` tokens at the time t. */
  function Enough(l: Limiter, t: int, need: int): bool {
    match l.limit
    case Inf => true
    case Rate(r) => if r == 0.0 then l.burst >= need else TokensAt(l, t) >= need as real
  }

  /** The limiter after it granted `need` tokens at the time t. */
  function Taken(l: Limiter, t: int, need: int): Limiter {
    match l.limit
    case Inf => l
    case Rate(r) =>
      if r == 0.0 then l.(burst := l.burst - need) else l.(last := t, tokens := TokensAt(l, t) - need as real)
  }

  /** The limiter after `c` grants of n tokens. */
  function Granted(l: Limiter, t: int, n: int, c: nat): Limiter {
    if c == 0 then l else Taken(l, t, n * c)
  }

  /** What a refusal may do: move the time of the last update back to t. */
  function Refused(l: Limiter, t: int): Limiter {
    if Refilling(l) then l.(last := Earlier(t, l.last)) else l
  }

  lemma {:induction false} ReAsk(l: Limiter, k: int, t: int, need: int)
    requires ProperAt(l, k) && need >= 0 && Enough(l, t, need)
    ensures ProperAt(Taken(l, t, need), k) && TokensAt(Taken(l, t, need), t) == TokensAt(l, t) - need as real
  {
    AllowProper(l, k, t, need);
    TokensInUnits(l, k, t);
    GainOfEvery(k, 0);
    assert AllowN(l, t, need).0 == Taken(l, t, need);
    TokensInUnits(Taken(l, t, need), k, t);
    GainZero(l.limit.perSecond);
    GainOfEvery(k, 1);
    hide TokensAt, AllowN, Units, Whole, Gain;
  }

  /** The next grant of n tokens after c grants. */
  lemma AskAgain(l: Limiter, t: int, n: int, c: nat)
    requires Proper(l) && n >= 0 && (c == 0 || Enough(l, t, n * c))
    ensures
      var now := Granted(l, t, n, c);
      AllowN(now, t, n) == if Enough(l, t, n * (c + 1)) then (Granted(l, t, n, c + 1), true) else (Refused(now, t), false)
  {
    var need := n * c;
    assert n * (c + 1) == need + n;
    if Refilling(l) {
      var k :| ProperAt(l, k);
      if c == 0 {
        AllowProper(l, k, t, n);
      } else {
        assert need >= 0;
        ReAsk(l, k, t, need);
        AllowProper(Taken(l, t, need), k, t, n);
        hide TokensAt, AllowN, ProperAt, Whole, Units;
      }
    }
  }

  /** One step of the rollback after c + 1 grants. */
  lemma GiveOneBack(l: Limiter, t: int, n: int, c: nat)
    requires Proper(l) && n >= 0 && Enough(l, t, n * (c + 1))
    ensures AllowN(Taken(l, t, n * (c + 1)), t, -n) == (Taken(l, t, n * c), true)
  {
    var need := n * c;
    assert n * (c + 1) == need + n;
    assert need >= 0;
    if Refilling(l) {
      var k :| ProperAt(l, k);
      ReAsk(l, k, t, need + n);
      AllowProper(Taken(l, t, need + n), k, t, -n);
      TokensInUnits(l, k, t);
      hide TokensAt, AllowN, ProperAt, Whole, Units;
    }
  }

  lemma EnoughIsMonotone(l: Limiter, t: int, n: int, c: nat, d: nat)
    requires n >= 0 && c <= d && Enough(l, t, n * d)
    ensures Enough(l, t, n * c)
  {
    assert n * c <= n * d;
  }

  /* ---------- equal from some time on ---------- */

  /** From the time t on, the limiters hold the same tokens. */
  ghost predicate Same(a: Limiter, b: Limiter, t: int) {
    && a.limit == b.limit && a.burst == b.burst
    && a.last <= t && b.last <= t
    && (Refilling(a) ==> forall u | u >= t :: TokensAt(a, u) == TokensAt(b, u))
    && (!Refilling(a) ==> a == b)
  }

  /** Updating a limiter without taking anything is invisible from then on. */
  lemma SettledIsSame(l: Limiter, t: int)
    requires Proper(l) && l.last <= t
    ensures Same(Taken(l, t, 0), l, t)
  {
    if Refilling(l) {
      var k :| ProperAt(l, k);
      AskNothing(l, k, t);
      forall u | u >= t
        ensures TokensAt(Taken(l, t, 0), u) == TokensAt(l, u)
      {
        SettledTokens(l, k, t, u);
      }
    }
  }

  lemma AskNothing(l: Limiter, k: int, t: int)
    requires ProperAt(l, k)
    ensures Enough(l, t, 0) && ProperAt(Taken(l, t, 0), k)
  {
    TokensInUnits(l, k, t);
    GainOfEvery(k, 1);
    ReAsk(l, k, t, 0);
  }

  lemma SettledTokens(l: Limiter, k: int, t: int, u: int)
    requires ProperAt(l, k) && l.last <= t <= u
    ensures TokensAt(Taken(l, t, 0), u) == TokensAt(l, u)
  {
    AskNothing(l, k, t);
    var m := Taken(l, t, 0);
    TokensInUnits(l, k, t);
    TokensInUnits(l, k, u);
    TokensInUnits(m, k, u);
    GainOfEvery(k, 1);
    assert Units(m.tokens, k) == Units(TokensAt(l, t), k);
    assert Units(l.tokens, k) >= 0.0 by { UnitsOrder(l.tokens, 0.0, k); }
    assert Units(TokensAt(m, u), k) == Units(TokensAt(l, u), k) by {
      hide TokensAt, Units, Gain, ProperAt;
    }
    UnitsOrder(TokensAt(m, u), TokensAt(l, u), k);
    UnitsOrder(TokensAt(l, u), TokensAt(m, u), k);
    hide TokensAt, Units, Gain, ProperAt;
  }

  /** Equal limiters answer every later request alike and stay equal. */
  lemma SameAnswer(a: Limiter, b: Limiter, t: int, u: int, n: int)
    requires Same(a, b, t) && u >= t
    ensures AllowN(a, u, n).1 == AllowN(b, u, n).1
    ensures Same(AllowN(a, u, n).0, AllowN(b, u, n).0, u)
  {
    assert Refilling(a) ==> TokensAt(a, u) == TokensAt(b, u);
    hide TokensAt, Wait;
  }

  lemma {:induction false} SameAnswers(a: Limiter, b: Limiter, t: int, reqs: seq<Request>)
    requires Same(a, b, t) && InOrder(t, reqs)
    ensures Rates.Granted(a, reqs) == Rates.Granted(b, reqs)
    decreases |reqs|
  {
    if reqs != [] {
      var u := reqs[0].at;
      SameAnswer(a, b, t, u, reqs[0].n);
      hide Same, AllowN;
      SameAnswers(AllowN(a, u, reqs[0].n).0, AllowN(b, u, reqs[0].n).0, u, reqs[1..]);
    }
  }

  /* ---------- the loop ---------- */

  ghost predicate AllProper(bs: BucketMap) {
    forall key | key in bs :: Proper(bs[key].limiter)
  }

  function First(keys: seq<BucketKey>, key: BucketKey): (i: nat)
    requires key in keys
    ensures i < |keys| && keys[i] == key && forall j | 0 <= j < i :: keys[j] != key
  {
    if keys[0] == key then 0 else 1 + First(keys[1..], key)
  }

  lemma {:induction false} CountIsZero(keys: seq<BucketKey>, i: nat, key: BucketKey)
    requires i <= |keys|
    ensures Count(keys, i, key) == 0 <==> key !in keys[..i]
  {
    if i > 0 {
      CountIsZero(keys, i - 1, key);
      assert keys[..i] == keys[..i - 1] + [keys[i - 1]];
    }
  }

  predicate HasBucket(bs: BucketMap, c: Call, key: BucketKey) {
    key in bs || (key in c.keys && key.rateLimitName in c.defaults)
  }

  /** The bucket of a key before the call took anything from it. */
  function Origin(bs: BucketMap, c: Call, key: BucketKey): Bucket
    requires ValidCall(c) && HasBucket(bs, c, key)
  {
    if key in bs then bs[key] else NewBucket(c.defaults[key.rateLimitName], c.clock[First(c.keys, key)])
  }

  lemma OriginIsProper(bs: BucketMap, c: Call, key: BucketKey)
    requires ValidCall(c) && AllProper(bs) && HasBucket(bs, c, key)
    ensures Proper(Origin(bs, c, key).limiter)
  {
    if key !in bs {
      ResetIsProper(c.defaults[key.rateLimitName], c.clock[First(c.keys, key)]);
    }
  }

  /** After i granted keys: every bucket granted n tokens per occurrence of its key. */
  predicate GrantedBucket(bs: BucketMap, c: Call, i: nat, key: BucketKey, bucket: Bucket)
    requires ValidCall(c) && i <= |c.keys| && HasBucket(bs, c, key)
  {
    var o := Origin(bs, c, key);
    var m := Count(c.keys, i, key);
    bucket == o.(limiter := Granted(o.limiter, c.t, c.n, m)) && (m > 0 ==> Enough(o.limiter, c.t, c.n * m))
  }

  ghost predicate GrantedBuckets(bs: BucketMap, c: Call, i: nat, b: BucketMap)
    requires ValidCall(c) && i <= |c.keys|
  {
    && (forall key :: key in b <==> key in bs || (Count(c.keys, i, key) > 0 && key.rateLimitName in c.defaults))
    && (forall key | key in b :: HasBucket(bs, c, key) && GrantedBucket(bs, c, i, key, b[key]))
  }

  /** The maps differ at most in the bucket of the key. */
  ghost predicate OnlyKey(b: BucketMap, b': BucketMap, key: BucketKey) {
    forall k | k != key :: (k in b' <==> k in b) && (k in b ==> b'[k] == b[k])
  }

  /** bucketByKey for the i-th key. */
  lemma LookedUp(bs: BucketMap, c: Call, i: nat, b: BucketMap)
    requires ValidCall(c) && i < |c.keys| && GrantedBuckets(bs, c, i, b)
    ensures
      var key := c.keys[i];
      var b' := ByKey(b, c.defaults, key, c.clock[i]);
      && (key in b' <==> HasBucket(bs, c, key))
      && (key in b' ==> GrantedBucket(bs, c, i, key, b'[key]))
      && OnlyKey(b, b', key)
  {
    var key := c.keys[i];
    CountIsZero(c.keys, i, key);
    if key !in b && key.rateLimitName in c.defaults {
      assert key !in c.keys[..i];
      assert forall j | 0 <= j < i :: c.keys[..i][j] == c.keys[j];
      assert First(c.keys, key) == i;
    }
  }

  lemma OtherBucket(bs: BucketMap, c: Call, i: nat, key: BucketKey, bucket: Bucket)
    requires ValidCall(c) && i < |c.keys| && HasBucket(bs, c, key)
    requires key != c.keys[i] && GrantedBucket(bs, c, i, key, bucket)
    ensures GrantedBucket(bs, c, i + 1, key, bucket)
  {
  }

  lemma AskedBucket(bs: BucketMap, c: Call, i: nat, bucket: Bucket)
    requires ValidCall(c) && i < |c.keys| && HasBucket(bs, c, c.keys[i]) && AllProper(bs) && c.n >= 0
    requires GrantedBucket(bs, c, i, c.keys[i], bucket)
    ensures
      var key := c.keys[i];
      var o := Origin(bs, c, key);
      var (l, ok) := AllowN(bucket.limiter, c.t, c.n);
      && ok == Enough(o.limiter, c.t, c.n * Count(c.keys, i + 1, key))
      && (if ok then GrantedBucket(bs, c, i + 1, key, bucket.(limiter := l))
          else bucket.(limiter := l) == o.(limiter := Refused(Granted(o.limiter, c.t, c.n, Count(c.keys, i, key)), c.t)))
  {
    var key := c.keys[i];
    OriginIsProper(bs, c, key);
    AskAgain(Origin(bs, c, key).limiter, c.t, c.n, Count(c.keys, i, key));
    hide Enough, Refused, AllowN, Proper, Origin;
  }

  lemma OneMoreGranted(bs: BucketMap, c: Call, i: nat, b: BucketMap, b': BucketMap)
    requires ValidCall(c) && i < |c.keys| && GrantedBuckets(bs, c, i, b) && OnlyKey(b, b', c.keys[i])
    requires c.keys[i] in b' <==> HasBucket(bs, c, c.keys[i])
    requires c.keys[i] in b' ==> GrantedBucket(bs, c, i + 1, c.keys[i], b'[c.keys[i]])
    ensures GrantedBuckets(bs, c, i + 1, b')
  {
    hide Granted, Enough, Origin;
    var key := c.keys[i];
    forall k | k in b'
      ensures HasBucket(bs, c, k) && GrantedBucket(bs, c, i + 1, k, b'[k])
    {
      if k != key {
        OtherBucket(bs, c, i, k, b[k]);
      }
    }
    hide GrantedBucket;
  }

  /** The i-th key is granted exactly if its bucket had enough for this occurrence and those before. */
  lemma AskOne(bs: BucketMap, c: Call, i: nat, b: BucketMap)
    requires ValidCall(c) && i < |c.keys| && AllProper(bs) && c.n >= 0 && GrantedBuckets(bs, c, i, b)
    ensures
      var key := c.keys[i];
      var (b', ok) := Allow(ByKey(b, c.defaults, key, c.clock[i]), key, c.t, c.n);
      && ok == (HasBucket(bs, c, key) ==> Enough(Origin(bs, c, key).limiter, c.t, c.n * Count(c.keys, i + 1, key)))
      && (ok ==> GrantedBuckets(bs, c, i + 1, b'))
      && (!ok ==> HasBucket(bs, c, key) && key in b' && OnlyKey(b, b', key)
                  && b'[key] == Origin(bs, c, key).(limiter :=
                       Refused(Granted(Origin(bs, c, key).limiter, c.t, c.n, Count(c.keys, i, key)), c.t)))
  {
    hide Enough, Granted, Refused, AllowN, Proper, AllProper, Origin, ByKey, GrantedBucket, GrantedBuckets, HasBucket, Count;
    var key := c.keys[i];
    LookedUp(bs, c, i, b);
    var b1 := ByKey(b, c.defaults, key, c.clock[i]);
    var (b', ok) := Allow(b1, key, c.t, c.n);
    assert OnlyKey(b, b', key);
    hide OnlyKey;
    if HasBucket(bs, c, key) {
      AskedBucket(bs, c, i, b1[key]);
    }
    if ok {
      if !HasBucket(bs, c, key) {
        assert b' == b1;
      }
      OneMoreGranted(bs, c, i, b, b');
    }
  }

  /** The bucket of the i-th key has enough for this occurrence and those before. */
  predicate KeyEnough(bs: BucketMap, c: Call, i: nat)
    requires ValidCall(c) && i < |c.keys|
  {
    HasBucket(bs, c, c.keys[i]) ==>
      Enough(Origin(bs, c, c.keys[i]).limiter, c.t, c.n * Count(c.keys, i + 1, c.keys[i]))
  }

  /** After a refusal at the key `done`: everything before is granted, the refused bucket is not. */
  ghost predicate RefusedBuckets(bs: BucketMap, c: Call, done: nat, b: BucketMap)
    requires ValidCall(c) && done < |c.keys|
  {
    var key := c.keys[done];
    && !KeyEnough(bs, c, done)
    && HasBucket(bs, c, key) && key in b
    && b[key] == Origin(bs, c, key).(limiter :=
         Refused(Granted(Origin(bs, c, key).limiter, c.t, c.n, Count(c.keys, done, key)), c.t))
    && exists b0 :: GrantedBuckets(bs, c, done, b0) && OnlyKey(b0, b, key)
  }

  lemma {:induction false} AskedBuckets(bs: BucketMap, c: Call, i: nat)
    requires ValidCall(c) && i <= |c.keys| && AllProper(bs) && c.n >= 0
    ensures
      var (b, done) := Asked(bs, c, i);
      && (forall j | 0 <= j < done :: KeyEnough(bs, c, j))
      && (if done == i then GrantedBuckets(bs, c, i, b) else RefusedBuckets(bs, c, done, b))
  {
    hide Enough, Granted, Refused, AllowN, Proper, AllProper, Origin, ByKey, GrantedBucket, OnlyKey, HasBucket, Count;
    if i == 0 {
      assert GrantedBuckets(bs, c, 0, bs) by { NothingAsked(bs, c); }
    } else {
      AskedBuckets(bs, c, i - 1);
      var (b, done) := Asked(bs, c, i - 1);
      if done == i - 1 {
        AskOne(bs, c, i - 1, b);
        hide GrantedBuckets;
      } else {
        hide GrantedBuckets, KeyEnough, RefusedBuckets;
      }
    }
  }

  lemma NothingAsked(bs: BucketMap, c: Call)
    requires ValidCall(c)
    ensures GrantedBuckets(bs, c, 0, bs)
  {
  }

  lemma {:induction false} CountGrows(keys: seq<BucketKey>, i: nat, j: nat, key: BucketKey)
    requires i <= j <= |keys|
    ensures Count(keys, i, key) <= Count(keys, j, key)
    decreases j
  {
    if i < j {
      CountGrows(keys, i, j - 1, key);
    }
  }

  /* ---------- the rollback ---------- */

  /** A bucket that existed: what is left of its grants after i keys were given back. */
  predicate PartlyBack(bs: BucketMap, c: Call, done: nat, i: nat, key: BucketKey, b: BucketMap)
    requires i <= done <= |c.keys| && key in bs
  {
    var m := Count(c.keys, done, key);
    && key in b && b[key].state == bs[key].state
    && Count(c.keys, i, key) <= m
    && b[key].limiter == if m == 0 then bs[key].limiter else Taken(bs[key].limiter, c.t, c.n * (m - Count(c.keys, i, key)))
  }

  lemma RefusedIsGranted(bs: BucketMap, c: Call, done: nat, b: BucketMap, key: BucketKey)
    requires ValidCall(c) && done < |c.keys| && RefusedBuckets(bs, c, done, b)
    requires key in bs && bs[key].limiter.last <= c.t
    ensures PartlyBack(bs, c, done, 0, key, b)
    ensures var m := Count(c.keys, done, key); m > 0 ==> Enough(bs[key].limiter, c.t, c.n * m)
  {
    var b0 :| GrantedBuckets(bs, c, done, b0) && OnlyKey(b0, b, c.keys[done]);
    assert key in b0 && GrantedBucket(bs, c, done, key, b0[key]);
    hide GrantedBuckets, Enough;
  }

  lemma {:induction false} GivenBackBucket(bs: BucketMap, c: Call, done: nat, i: nat, b: BucketMap, key: BucketKey)
    requires ValidCall(c) && i <= done < |c.keys| && c.n >= 0 && AllProper(bs)
    requires key in bs && PartlyBack(bs, c, done, 0, key, b)
    requires var m := Count(c.keys, done, key); m > 0 ==> Enough(bs[key].limiter, c.t, c.n * m)
    ensures PartlyBack(bs, c, done, i, key, GivenBack(b, c, i))
  {
    if i > 0 {
      GivenBackBucket(bs, c, done, i - 1, b, key);
      CountGrows(c.keys, i, done, key);
      if c.keys[i - 1] == key {
        var m := Count(c.keys, done, key);
        var left := m - Count(c.keys, i, key);
        EnoughIsMonotone(bs[key].limiter, c.t, c.n, left + 1, m);
        GiveOneBack(bs[key].limiter, c.t, c.n, left);
      }
      hide Enough, Taken, AllowN, Proper;
    }
  }

  /** A request for a negative number is always granted. */
  lemma NegativeIsGranted(l: Limiter, t: int, n: int)
    requires Proper(l) && n < 0
    ensures AllowN(l, t, n).1
  {
    if Refilling(l) {
      var k :| ProperAt(l, k);
      AllowProper(l, k, t, n);
      TokensInUnits(l, k, t);
    }
  }

  lemma {:induction false} AskedKeepsProper(bs: BucketMap, c: Call, i: nat)
    requires ValidCall(c) && i <= |c.keys| && AllProper(bs)
    ensures AllProper(Asked(bs, c, i).0)
    ensures c.n < 0 ==> Asked(bs, c, i).1 == i
  {
    if i > 0 {
      AskedKeepsProper(bs, c, i - 1);
      var (b, done) := Asked(bs, c, i - 1);
      var key := c.keys[i - 1];
      if key !in b && key.rateLimitName in c.defaults {
        ResetIsProper(c.defaults[key.rateLimitName], c.clock[i - 1]);
      }
      var b1 := ByKey(b, c.defaults, key, c.clock[i - 1]);
      if key in b1 {
        AllowKeepsProper(b1[key].limiter, c.t, c.n);
        if c.n < 0 {
          NegativeIsGranted(b1[key].limiter, c.t, c.n);
        }
      }
      hide Proper, AllowN, Reset;
    }
  }

  /* ---------- main results ---------- */

  /** A refusal takes nothing: every bucket that existed holds, from now on, exactly the tokens it would
      hold without the call, however often its key occurs in the list. */
  lemma RefusalTakesNothing(bs: BucketMap, c: Call, key: BucketKey)
    requires ValidCall(c) && AllProper(bs) && Take(bs, c).1.Some?
    requires key in bs && bs[key].limiter.last <= c.t
    ensures
      var b := Take(bs, c).0;
      key in b && b[key].state == bs[key].state && Same(b[key].limiter, bs[key].limiter, c.t)
  {
    if c.n < 0 {
      AskedKeepsProper(bs, c, |c.keys|);
    } else {
      AskedBuckets(bs, c, |c.keys|);
      var (b, done) := Asked(bs, c, |c.keys|);
      RefusedIsGranted(bs, c, done, b, key);
      GivenBackBucket(bs, c, done, done, b, key);
      SettledIsSame(bs[key].limiter, c.t);
      hide Taken, Asked, RefusedBuckets, Enough;
    }
  }

  /** Tokens are taken exactly if every bucket has enough for all occurrences of its key. */
  lemma TakenExactlyIfEnough(bs: BucketMap, c: Call)
    requires ValidCall(c) && AllProper(bs) && c.n >= 0
    ensures Take(bs, c).1.None? <==>
      forall key | key in c.keys && HasBucket(bs, c, key) ::
        Enough(Origin(bs, c, key).limiter, c.t, c.n * Count(c.keys, |c.keys|, key))
  {
    hide Granted, ByKey, AllowN, Proper, Origin, GivenBack, Refused;
    AskedBuckets(bs, c, |c.keys|);
    var (b, done) := Asked(bs, c, |c.keys|);
    if done == |c.keys| {
      forall key | key in c.keys && HasBucket(bs, c, key)
        ensures Enough(Origin(bs, c, key).limiter, c.t, c.n * Count(c.keys, |c.keys|, key))
      {
        CountIsZero(c.keys, |c.keys|, key);
        assert c.keys[..|c.keys|] == c.keys;
        assert key in b;
      }
    } else {
      var key := c.keys[done];
      CountGrows(c.keys, done + 1, |c.keys|, key);
      if Enough(Origin(bs, c, key).limiter, c.t, c.n * Count(c.keys, |c.keys|, key)) {
        EnoughIsMonotone(Origin(bs, c, key).limiter, c.t, c.n, Count(c.keys, done + 1, key), Count(c.keys, |c.keys|, key));
      }
    }
  }

  /** When tokens are taken, each bucket loses n tokens per occurrence of its key, and no other changes. */
  lemma TakenFromAll(bs: BucketMap, c: Call, key: BucketKey)
    requires ValidCall(c) && AllProper(bs) && c.n >= 0 && Take(bs, c).1.None?
    requires key in Take(bs, c).0
    ensures HasBucket(bs, c, key)
    ensures var o := Origin(bs, c, key);
      Take(bs, c).0[key] == o.(limiter := Granted(o.limiter, c.t, c.n, Count(c.keys, |c.keys|, key)))
  {
    AskedBuckets(bs, c, |c.keys|);
  }

  /** The reported limit is that of the first key that could not be granted. */
  lemma ReportedLimitIsTheFirst(bs: BucketMap, c: Call) returns (i: nat)
    requires ValidCall(c) && AllProper(bs) && Take(bs, c).1.Some?
    ensures i < |c.keys| && Take(bs, c).1.value == c.keys[i].rateLimitName
    ensures !KeyEnough(bs, c, i) && forall j | 0 <= j < i :: KeyEnough(bs, c, j)
  {
    AskedKeepsProper(bs, c, |c.keys|);
    AskedBuckets(bs, c, |c.keys|);
    i := Asked(bs, c, |c.keys|).1;
    hide KeyEnough;
  }

  lemma {:induction false} GivenBackKeepsProper(bs: BucketMap, c: Call, i: nat)
    requires i <= |c.keys| && AllProper(bs)
    ensures AllProper(GivenBack(bs, c, i))
  {
    if i > 0 {
      GivenBackKeepsProper(bs, c, i - 1);
      var b := GivenBack(bs, c, i - 1);
      if c.keys[i - 1] in b {
        AllowKeepsProper(b[c.keys[i - 1]].limiter, c.t, -c.n);
      }
      hide Proper, AllowN;
    }
  }

  lemma TakeKeepsProper(bs: BucketMap, c: Call)
    requires ValidCall(c) && AllProper(bs)
    ensures AllProper(Take(bs, c).0)
  {
    AskedKeepsProper(bs, c, |c.keys|);
    var (b, done) := Asked(bs, c, |c.keys|);
    GivenBackKeepsProper(b, c, done);
  }
}
