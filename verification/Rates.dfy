/** The token buckets of pkg/iratesce.  Times and durations are nanoseconds; float64 is modelled by real,
    and the truncation of a wait to whole nanoseconds is kept. */
module Rates {

  const SECOND := 1_000_000_000
  const MAX_DURATION := 0x7FFF_FFFF_FFFF_FFFF
  const INF_DURATION := MAX_DURATION
  /** The zero time.Time, in nanoseconds of the Unix clock. */
  const ZERO_TIME := -62_135_596_800 * SECOND

  datatype Limit = Inf | Rate(perSecond: real)

  datatype Limiter = Limiter(limit: Limit, burst: int, tokens: real, last: int)

  function Min(a: real, b: real): real {
    if a <= b then a else b
  }

  /** time.Time.Sub saturates. */
  function Sub(a: int, b: int): int {
    if a - b > MAX_DURATION then MAX_DURATION
    else if a - b < -MAX_DURATION - 1 then -MAX_DURATION - 1
    else a - b
  }

  /** The tokens of a duration, for a positive rate. */
  function Gain(r: real, d: int): real {
    d as real / SECOND as real * r
  }

  function TokensFromDuration(r: real, d: int): real {
    if r <= 0.0 then 0.0 else Gain(r, d)
  }

  function Truncate(x: real): int {
    if x >= 0.0 then x.Floor else -((-x).Floor)
  }

  function DurationFromTokens(r: real, tokens: real): int {
    if r <= 0.0 then INF_DURATION else Truncate(SECOND as real * (tokens / r))
  }

  function Earlier(now: int, last: int): int {
    if now < last then now else last
  }

  /** advance: the tokens at `now`.  An infinite rate fills the bucket at once. */
  function TokensAt(l: Limiter, now: int): real {
    var elapsed := Sub(now, Earlier(now, l.last));
    match l.limit
    case Inf => if elapsed > 0 then l.burst as real else Min(l.tokens, l.burst as real)
    case Rate(r) => Min(l.tokens + TokensFromDuration(r, elapsed), l.burst as real)
  }

  function Wait(r: real, tokens: real): int {
    if tokens < 0.0 then DurationFromTokens(r, -tokens) else 0
  }

  /** reserveN with no future reservation allowed: the limiter afterwards, and the answer of allowN. */
  function AllowN(l: Limiter, now: int, n: int): (Limiter, bool) {
    match l.limit
    case Inf => (l, true)
    case Rate(r) =>
      if r == 0.0 then
        if l.burst >= n then (l.(burst := l.burst - n), true) else (l, false)
      else
        var tokens := TokensAt(l, now) - n as real;
        if n <= l.burst && Wait(r, tokens) <= 0
        then (l.(last := now, tokens := tokens), true)
        else (l.(last := Earlier(now, l.last)), false)
  }

  /* ---------- arithmetic of rates ---------- */

  lemma GainAdds(r: real, a: int, b: int)
    ensures Gain(r, a + b) == Gain(r, a) + Gain(r, b)
  {
    var s := SECOND as real;
    assert (a + b) as real == a as real + b as real;
    assert (a as real + b as real) / s == a as real / s + b as real / s;
  }

  lemma GainGrows(r: real, a: int, b: int)
    requires r >= 0.0 && a <= b
    ensures Gain(r, a) <= Gain(r, b)
  {
    var s := SECOND as real;
    assert a as real / s <= b as real / s;
  }

  lemma GainZero(r: real)
    ensures Gain(r, 0) == 0.0
  {
  }

  lemma MulLess(a: real, b: real, r: real)
    ensures a < b && r > 0.0 ==> a * r < b * r
  {
  }

  lemma DivMul(a: real, r: real)
    requires r > 0.0
    ensures a / r * r == a
  {
  }

  /** A wait that truncates to nothing is shorter than a nanosecond. */
  lemma ShortWait(r: real, tokens: real)
    requires r > 0.0 && Wait(r, tokens) <= 0
    ensures tokens > -Gain(r, 1)
  {
    if tokens < 0.0 {
      var q := -tokens / r;
      DivMul(-tokens, r);
      assert SECOND as real * q < 1.0;
      assert Gain(r, 1) == 1.0 / SECOND as real * r;
      MulLess(q, 1.0 / SECOND as real, r);
    } else {
      MulLess(0.0, 1.0 / SECOND as real, r);
    }
  }

  /* ---------- how many tokens a window grants ---------- */

  datatype Request = Request(at: int, n: int)

  predicate InOrder(from: int, reqs: seq<Request>) {
    && (forall i | 0 <= i < |reqs| :: from <= reqs[i].at)
    && (forall i, j | 0 <= i < j < |reqs| :: reqs[i].at <= reqs[j].at)
  }

  function After(l: Limiter, reqs: seq<Request>): Limiter
    decreases |reqs|
  {
    if reqs == [] then l else After(AllowN(l, reqs[0].at, reqs[0].n).0, reqs[1..])
  }

  /** The sum of the granted requests. */
  function Granted(l: Limiter, reqs: seq<Request>): int
    decreases |reqs|
  {
    if reqs == [] then 0
    else
      var (l', ok) := AllowN(l, reqs[0].at, reqs[0].n);
      (if ok then reqs[0].n else 0) + Granted(l', reqs[1..])
  }

  /** A limiter with a positive rate never owes a nanosecond's worth of tokens. */
  predicate Sane(l: Limiter) {
    l.limit.Rate? && l.limit.perSecond > 0.0 && l.burst >= 0 && l.tokens > -Gain(l.limit.perSecond, 1)
  }

  lemma AllowKeepsSane(l: Limiter, now: int, n: int)
    requires Sane(l) && now >= l.last
    ensures var (l', ok) := AllowN(l, now, n);
      Sane(l') && l'.limit == l.limit && l'.burst == l.burst && l'.last <= now
    ensures var (l', ok) := AllowN(l, now, n);
      if ok then l'.last == now && l'.tokens == TokensAt(l, now) - n as real else l' == l
  {
    var r := l.limit.perSecond;
    if AllowN(l, now, n).1 {
      ShortWait(r, TokensAt(l, now) - n as real);
    }
  }

  /** Tokens grow by at most the rate. */
  lemma TokensGrowByRate(l: Limiter, a: int, b: int)
    requires Sane(l) && l.last <= a <= b
    ensures TokensAt(l, b) <= TokensAt(l, a) + Gain(l.limit.perSecond, b - a)
    ensures TokensAt(l, a) <= TokensAt(l, b)
  {
    var r := l.limit.perSecond;
    GainAdds(r, Sub(a, l.last), b - a);
    GainGrows(r, Sub(b, l.last), Sub(a, l.last) + (b - a));
    GainGrows(r, Sub(a, l.last), Sub(b, l.last));
    GainGrows(r, 0, b - a);
    GainZero(r);
    hide Gain;
  }

  lemma FreshTokens(l: Limiter)
    requires Sane(l)
    ensures TokensAt(l, l.last) == Min(l.tokens, l.burst as real)
  {
    GainZero(l.limit.perSecond);
  }

  lemma {:induction false} WindowBalance(l: Limiter, reqs: seq<Request>)
    requires Sane(l) && reqs != [] && InOrder(l.last, reqs)
    ensures
      var end := reqs[|reqs| - 1].at;
      && After(l, reqs).last <= end
      && Sane(After(l, reqs)) && After(l, reqs).limit == l.limit
      && Granted(l, reqs) as real + TokensAt(After(l, reqs), end)
           <= TokensAt(l, reqs[0].at) + Gain(l.limit.perSecond, end - reqs[0].at)
    decreases |reqs|
  {
    var r := l.limit.perSecond;
    var t := reqs[0].at;
    var (l', ok) := AllowN(l, t, reqs[0].n);
    AllowKeepsSane(l, t, reqs[0].n);
    if ok {
      FreshTokens(l');
    }
    if |reqs| == 1 {
      GainZero(r);
      assert reqs[1..] == [];
    } else {
      var rest := reqs[1..];
      var u := rest[0].at;
      var end := rest[|rest| - 1].at;
      assert InOrder(l'.last, rest);
      WindowBalance(l', rest);
      TokensGrowByRate(l', t, u);
      GainAdds(r, u - t, end - u);
      hide Gain, TokensAt, AllowN, Sane;
    }
  }

  /** In any window of any run at non-decreasing times, a limiter with a finite positive rate grants less
      than its burst, plus the rate times the window, plus a nanosecond's worth. */
  lemma WindowBound(l: Limiter, before: seq<Request>, window: seq<Request>)
    requires Sane(l) && window != [] && InOrder(l.last, before + window)
    ensures
      Granted(After(l, before), window) as real
        < l.burst as real + Gain(l.limit.perSecond, window[|window| - 1].at - window[0].at) + Gain(l.limit.perSecond, 1)
  {
    RunKeepsSane(l, before, window);
    var l' := After(l, before);
    WindowBalance(l', window);
    TokensAboveDebt(After(l', window), window[|window| - 1].at);
    assert TokensAt(l', window[0].at) <= l'.burst as real;
    hide Gain, TokensAt, After, Granted, Sane, InOrder;
  }

  lemma TokensAboveDebt(l: Limiter, now: int)
    requires Sane(l) && l.last <= now
    ensures TokensAt(l, now) > -Gain(l.limit.perSecond, 1)
  {
    TokensGrowByRate(l, l.last, now);
    FreshTokens(l);
    MulLess(0.0, 1.0 / SECOND as real, l.limit.perSecond);
  }

  lemma {:induction false} RunKeepsSane(l: Limiter, before: seq<Request>, window: seq<Request>)
    requires Sane(l) && InOrder(l.last, before + window)
    ensures var l' := After(l, before);
      Sane(l') && l'.limit == l.limit && l'.burst == l.burst && InOrder(l'.last, window)
    decreases |before|
  {
    if before == [] {
      assert before + window == window;
    } else {
      var (l', ok) := AllowN(l, before[0].at, before[0].n);
      assert (before + window)[0] == before[0];
      AllowKeepsSane(l, before[0].at, before[0].n);
      assert (before + window)[1..] == before[1..] + window;
      assert InOrder(l'.last, before[1..] + window);
      RunKeepsSane(l', before[1..], window);
    }
  }

  /** The last term is needed: at 1.5 tokens per nanosecond two tokens are granted at once, with burst 1. */
  lemma NanosecondTermIsNeeded() returns (l: Limiter, window: seq<Request>)
    ensures Sane(l) && InOrder(l.last, window) && |window| == 2 && window[0].at == window[1].at
    ensures Granted(l, window) > l.burst
  {
    l := Limiter(Rate(1_500_000_000.0), 1, 1.0, 0);
    window := [Request(0, 1), Request(0, 1)];
    var l1 := Limiter(Rate(1_500_000_000.0), 1, 0.0, 0);
    assert AllowN(l, 0, 1) == (l1, true);
    assert Wait(1_500_000_000.0, -1.0) == 0 by {
      assert 1.0 / 1_500_000_000.0 * 1_000_000_000.0 < 1.0;
    }
    var l2 := Limiter(Rate(1_500_000_000.0), 1, -1.0, 0);
    assert AllowN(l1, 0, 1) == (l2, true);
    assert window[1..] == [Request(0, 1)] && window[1..][1..] == [];
    assert Granted(l2, []) == 0;
  }
}
