/** The one-pass indicator kernels over exact reals, against their mathematical definitions.

    Rounding and non-finite inputs are not part of this model.
 */
module Kernels {
  import opened Wrappers

  /** A missing parameter takes its default, zero is an error. */
  function Window(given: Option<nat>, default: nat): Result<nat> {
    var n := if given.Some? then given.value else default;
    if n == 0 then Err else Ok(n)
  }

  // ---- Sums and means ----

  /** The sum of data[lo..hi]. */
  function Sum(data: seq<real>, lo: nat, hi: nat): real
    requires lo <= hi <= |data|
  {
    if lo == hi then 0.0 else Sum(data, lo, hi - 1) + data[hi - 1]
  }

  lemma {:induction false} SumDropsFirst(data: seq<real>, lo: nat, hi: nat)
    requires lo < hi <= |data|
    ensures Sum(data, lo + 1, hi) == Sum(data, lo, hi) - data[lo]
  {
    if lo + 1 < hi { SumDropsFirst(data, lo, hi - 1); }
  }

  /** The first index of the window of length n that ends before hi. */
  function From(n: nat, hi: nat): nat { if hi >= n then hi - n else 0 }

  function Mean(data: seq<real>, n: nat, i: nat): Option<real>
    requires 0 < n && i < |data|
  {
    if i + 1 >= n then Some(Sum(data, i + 1 - n, i + 1) / (n as real)) else None
  }

  predicate AllWithin(data: seq<real>, lo: nat, hi: nat, a: real, b: real)
    requires lo <= hi <= |data|
  {
    forall k | lo <= k < hi :: a <= data[k] <= b
  }

  lemma {:induction false} SumWithin(data: seq<real>, lo: nat, hi: nat, a: real, b: real)
    requires lo <= hi <= |data| && AllWithin(data, lo, hi, a, b)
    ensures a * ((hi - lo) as real) <= Sum(data, lo, hi) <= b * ((hi - lo) as real)
  {
    if lo < hi {
      SumWithin(data, lo, hi - 1, a, b);
      assert (hi - lo) as real == (hi - 1 - lo) as real + 1.0;
    }
  }

  /** A mean lies within the bounds of its window. */
  lemma MeanWithin(data: seq<real>, n: nat, i: nat, a: real, b: real)
    requires 0 < n <= i + 1 <= |data| && AllWithin(data, i + 1 - n, i + 1, a, b)
    ensures a <= Mean(data, n, i).value <= b
  {
    SumWithin(data, i + 1 - n, i + 1, a, b);
    MeanBounds(Sum(data, i + 1 - n, i + 1), n as real, a, b);
    hide Sum;
  }

  lemma MeanBounds(s: real, r: real, a: real, b: real)
    requires r > 0.0 && a * r <= s <= b * r
    ensures a <= s / r <= b
  {
    var m := s / r;
    assert m * r == s;
    assert m < a ==> (a - m) * r > 0.0;
    assert m > b ==> (m - b) * r > 0.0;
  }

  lemma Divides(x: real, y: real, r: real)
    requires x <= y && r > 0.0
    ensures x / r <= y / r
  {}

  /** One running sum, from which each value leaves when the window has passed it. */
  method Sma(data: seq<real>, n: nat) returns (out: seq<Option<real>>)
    requires n > 0
    ensures |out| == |data| && forall i | 0 <= i < |data| :: out[i] == Mean(data, n, i)
  {
    out := [];
    var sum := 0.0;
    for i := 0 to |data|
      invariant |out| == i && sum == Sum(data, From(n, i), i)
      invariant forall k | 0 <= k < i :: out[k] == Mean(data, n, k)
    {
      sum := sum + data[i];
      assert sum == Sum(data, From(n, i), i + 1);
      if i >= n {
        SumDropsFirst(data, i - n, i + 1);
        sum := sum - data[i - n];
      }
      out := out + [if i + 1 >= n then Some(sum / (n as real)) else None];
    }
  }

  // ---- Exponential average ----

  function Alpha(n: nat): real { 2.0 / (n as real + 1.0) }

  /** One step of exponential smoothing. */
  function Mix(alpha: real, x: real, previous: real): real { alpha * x + (1.0 - alpha) * previous }

  function Ema(data: seq<real>, alpha: real, i: nat): real
    requires i < |data|
  {
    if i == 0 then data[0] else Mix(alpha, data[i], Ema(data, alpha, i - 1))
  }

  method EmaVec(data: seq<real>, n: nat) returns (out: seq<real>)
    ensures |out| == |data| && forall i | 0 <= i < |data| :: out[i] == Ema(data, Alpha(n), i)
  {
    var alpha := Alpha(n);
    hide Alpha, Mix;
    out := [];
    var prev: Option<real> := None;
    for i := 0 to |data|
      invariant |out| == i && prev == if i == 0 then None else Some(Ema(data, Alpha(n), i - 1))
      invariant forall k | 0 <= k < i :: out[k] == Ema(data, Alpha(n), k)
    {
      var cur := if prev.None? then data[i] else Mix(alpha, data[i], prev.value);
      out := out + [cur];
      prev := Some(cur);
    }
  }

  lemma Blend(alpha: real, x: real, y: real, a: real, b: real)
    requires 0.0 <= alpha <= 1.0 && a <= x <= b && a <= y <= b
    ensures a <= Mix(alpha, x, y) <= b
  {
    assert alpha * x + (1.0 - alpha) * y - a == alpha * (x - a) + (1.0 - alpha) * (y - a);
    assert b - (alpha * x + (1.0 - alpha) * y) == alpha * (b - x) + (1.0 - alpha) * (b - y);
    Products(alpha, x - a, 1.0 - alpha, y - a);
    Products(alpha, b - x, 1.0 - alpha, b - y);
  }

  lemma AlphaRange(n: nat)
    requires n > 0
    ensures 0.0 < Alpha(n) <= 1.0
  {}

  /** The average never leaves the range of the values seen so far. */
  lemma {:induction false} EmaWithin(data: seq<real>, n: nat, i: nat, a: real, b: real)
    requires n > 0 && i < |data| && AllWithin(data, 0, i + 1, a, b)
    ensures a <= Ema(data, Alpha(n), i) <= b
  {
    if i > 0 {
      EmaWithin(data, n, i - 1, a, b);
      AlphaRange(n);
      Blend(Alpha(n), data[i], Ema(data, Alpha(n), i - 1), a, b);
    }
  }

  function Times(a: real, b: real): real { a * b }

  function Pow(x: real, n: nat): real { if n == 0 then 1.0 else Times(x, Pow(x, n - 1)) }

  /** The weight of value k in the average at i. */
  function Weight(alpha: real, k: nat, i: nat): real
    requires k <= i
  {
    if k == 0 then Pow(1.0 - alpha, i) else Times(alpha, Pow(1.0 - alpha, i - k))
  }

  /** The weighted sum of the values before `end`, as the average at i weighs them. */
  function Weighted(data: seq<real>, alpha: real, i: nat, end: nat): real
    requires end <= i + 1 <= |data|
  {
    if end == 0 then 0.0 else Weighted(data, alpha, i, end - 1) + Times(Weight(alpha, end - 1, i), data[end - 1])
  }

  function WeightSum(alpha: real, i: nat, end: nat): real
    requires end <= i + 1
  {
    if end == 0 then 0.0 else WeightSum(alpha, i, end - 1) + Weight(alpha, end - 1, i)
  }

  lemma Swap(a: real, b: real, c: real)
    ensures Times(a, Times(b, c)) == Times(b, Times(a, c))
  {}

  lemma WeightDecays(alpha: real, k: nat, i: nat)
    requires k < i
    ensures Weight(alpha, k, i) == Times(1.0 - alpha, Weight(alpha, k, i - 1))
  {
    hide Times;
    var q := 1.0 - alpha;
    if k > 0 {
      assert Pow(q, i - k) == Times(q, Pow(q, i - 1 - k));
      Swap(alpha, q, Pow(q, i - 1 - k));
    }
  }

  lemma ScaleTerm(q: real, sum: real, w: real, x: real)
    ensures Times(q, sum) + Times(Times(q, w), x) == Times(q, sum + Times(w, x))
    ensures Times(q, sum) + Times(q, w) == Times(q, sum + w)
  {
    Associate(q, w, x);
    Distribute(q, sum, w * x);
  }

  lemma {:induction false} WeightedDecays(data: seq<real>, alpha: real, i: nat, end: nat)
    requires 0 < i && end <= i < |data|
    ensures Weighted(data, alpha, i, end) == Times(1.0 - alpha, Weighted(data, alpha, i - 1, end))
    ensures WeightSum(alpha, i, end) == Times(1.0 - alpha, WeightSum(alpha, i - 1, end))
  {
    if end == 0 {
      assert Times(1.0 - alpha, 0.0) == 0.0;
    } else {
      hide Times, Weight;
      WeightedDecays(data, alpha, i, end - 1);
      WeightDecays(alpha, end - 1, i);
      ScaleTerm(1.0 - alpha, Weighted(data, alpha, i - 1, end - 1), Weight(alpha, end - 1, i - 1), data[end - 1]);
      ScaleTerm(1.0 - alpha, WeightSum(alpha, i - 1, end - 1), Weight(alpha, end - 1, i - 1), data[end - 1]);
      assert Weighted(data, alpha, i, end) == Times(1.0 - alpha, Weighted(data, alpha, i - 1, end));
      assert WeightSum(alpha, i, end) == Times(1.0 - alpha, WeightSum(alpha, i - 1, end));
    }
  }

  lemma Distribute(q: real, a: real, b: real)
    ensures q * (a + b) == q * a + q * b
  {}

  lemma Associate(q: real, w: real, x: real)
    ensures (q * w) * x == q * (w * x)
  {}

  lemma LastWeight(alpha: real, i: nat)
    ensures Weight(alpha, i, i) == if i == 0 then 1.0 else alpha
  {
    assert Pow(1.0 - alpha, 0) == 1.0;
  }

  lemma MixIsTimes(alpha: real, x: real, previous: real)
    ensures Mix(alpha, x, previous) == Times(1.0 - alpha, previous) + Times(alpha, x)
    ensures Times(1.0 - alpha, 1.0) + alpha == 1.0 && Times(1.0, x) == x
  {}

  /** The recursion is the weighted mean of all values so far, with weights that sum to one. */
  lemma {:induction false} EmaIsWeightedMean(data: seq<real>, alpha: real, i: nat)
    requires i < |data|
    ensures Ema(data, alpha, i) == Weighted(data, alpha, i, i + 1) && WeightSum(alpha, i, i + 1) == 1.0
  {
    hide Times, Mix, Weight;
    LastWeight(alpha, i);
    if i == 0 {
      MixIsTimes(alpha, data[0], 0.0);
      assert Weighted(data, alpha, 0, 1) == Weighted(data, alpha, 0, 0) + Times(1.0, data[0]);
      assert WeightSum(alpha, 0, 1) == WeightSum(alpha, 0, 0) + 1.0;
    } else {
      EmaIsWeightedMean(data, alpha, i - 1);
      WeightedDecays(data, alpha, i, i);
      MixIsTimes(alpha, data[i], Ema(data, alpha, i - 1));
      assert Weighted(data, alpha, i, i + 1) == Weighted(data, alpha, i, i) + Times(alpha, data[i]);
      assert WeightSum(alpha, i, i + 1) == WeightSum(alpha, i, i) + alpha;
    }
  }

  /** The ages of the values, weighted as the average weighs them, have the mean (n - 1) / 2, as those of a simple mean
      of n values have: (1 - alpha) / alpha is the mean age under weights that fall by 1 - alpha. */
  lemma AlphaMeans(n: nat)
    requires n > 0
    ensures (1.0 - Alpha(n)) / Alpha(n) == (n as real - 1.0) / 2.0
  {
    var r := n as real + 1.0;
    assert Alpha(n) * r == 2.0;
    var x := (1.0 - Alpha(n)) / Alpha(n);
    assert x * Alpha(n) == 1.0 - Alpha(n);
    Associate(x, Alpha(n), r);
    Distribute(r, 1.0, -Alpha(n));
    assert x * 2.0 == r - 2.0;
  }

  // ---- MACD ----

  function Minus(a: seq<real>, b: seq<real>): seq<real>
    requires |a| == |b|
  {
    seq(|a|, i requires 0 <= i < |a| => a[i] - b[i])
  }

  function EmaLine(data: seq<real>, n: nat): seq<real> {
    seq(|data|, i requires 0 <= i < |data| => Ema(data, Alpha(n), i))
  }

  function MacdLine(data: seq<real>, fast: nat, slow: nat): seq<real> { Minus(EmaLine(data, fast), EmaLine(data, slow)) }

  datatype Macd = Macd(line: seq<real>, signal: seq<real>, hist: seq<real>)

  method MacdOf(data: seq<real>, fast: Option<nat>, slow: Option<nat>, signal: Option<nat>) returns (r: Result<Macd>)
    ensures r.Err? <==> fast == Some(0) || slow == Some(0) || signal == Some(0)
    ensures r.Ok? ==>
              && r.value.line == MacdLine(data, if fast == None then 12 else fast.value, if slow == None then 26 else slow.value)
              && r.value.signal == EmaLine(r.value.line, if signal == None then 9 else signal.value)
              && r.value.hist == Minus(r.value.line, r.value.signal)
  {
    var f, s, g := Window(fast, 12), Window(slow, 26), Window(signal, 9);
    if f.Err? || s.Err? || g.Err? { return Err; }
    var ef := EmaVec(data, f.value);
    var es := EmaVec(data, s.value);
    assert ef == EmaLine(data, f.value) && es == EmaLine(data, s.value);
    var line := Minus(ef, es);
    var sig := EmaVec(line, g.value);
    assert sig == EmaLine(line, g.value);
    r := Ok(Macd(line, sig, Minus(line, sig)));
  }

  function Shifted(data: seq<real>, c: real): seq<real> { seq(|data|, i requires 0 <= i < |data| => data[i] + c) }

  lemma MixShifts(alpha: real, x: real, p: real, c: real)
    ensures Mix(alpha, x + c, p + c) == Mix(alpha, x, p) + c
  {
    Distribute(alpha, x, c);
    Distribute(1.0 - alpha, p, c);
  }

  lemma {:induction false} EmaShifts(data: seq<real>, c: real, alpha: real, i: nat)
    requires i < |data|
    ensures Ema(Shifted(data, c), alpha, i) == Ema(data, alpha, i) + c
  {
    if i > 0 {
      EmaShifts(data, c, alpha, i - 1);
      var x, p := data[i], Ema(data, alpha, i - 1);
      MixShifts(alpha, x, p, c);
    }
    hide Mix;
  }

  /** The level of the series does not matter to MACD. */
  lemma MacdIgnoresLevel(data: seq<real>, c: real, fast: nat, slow: nat)
    ensures MacdLine(Shifted(data, c), fast, slow) == MacdLine(data, fast, slow)
  {
    forall i | 0 <= i < |data|
      ensures Ema(Shifted(data, c), Alpha(fast), i) - Ema(Shifted(data, c), Alpha(slow), i)
           == Ema(data, Alpha(fast), i) - Ema(data, Alpha(slow), i)
    {
      EmaShifts(data, c, Alpha(fast), i);
      EmaShifts(data, c, Alpha(slow), i);
    }
  }

  function Flat(v: real, k: nat): seq<real> { seq(k, _ => v) }

  lemma {:induction false} EmaOfFlat(data: seq<real>, alpha: real, v: real, i: nat)
    requires i < |data| && forall j | 0 <= j <= i :: data[j] == v
    ensures Ema(data, alpha, i) == v
  {
    if i > 0 {
      EmaOfFlat(data, alpha, v, i - 1);
      assert Mix(alpha, v, v) == v;
    }
  }

  /** A jump after any number of equal values shows in MACD by the difference of the two factors, upwards when the
      first period is the shorter one. */
  lemma MacdOfJump(v: real, k: nat, jump: real, fast: nat, slow: nat)
    requires k > 0
    ensures MacdLine(Flat(v, k) + [v + jump], fast, slow)[k] == (2.0 / (fast as real + 1.0) - 2.0 / (slow as real + 1.0)) * jump
    ensures MacdLine(Flat(v, k) + [v + jump], fast, slow)[..k] == Flat(0.0, k)
  {
    var data := Flat(v, k) + [v + jump];
    forall n: nat, i | 0 <= i < k ensures Ema(data, Alpha(n), i) == v { EmaOfFlat(data, Alpha(n), v, i); }
    forall n: nat ensures Ema(data, Alpha(n), k) == v + Alpha(n) * jump {
      JumpMix(Alpha(n), v, jump);
    }
    hide Ema;
    Distribute(jump, Alpha(fast), -Alpha(slow));
  }

  lemma JumpMix(alpha: real, v: real, jump: real)
    ensures Mix(alpha, v + jump, v) == v + alpha * jump
  {}

  // ---- RSI ----

  function Gain(d: real): real { if d > 0.0 then d else 0.0 }

  function Wilder(n: nat): real
    requires n > 0
  {
    1.0 / (n as real)
  }

  /** Wilder's average of the gains, or with sign -1 of the losses, up to i. */
  function Average(data: seq<real>, n: nat, sign: real, i: nat): real
    requires n > 0 && i < |data|
  {
    if i == 0 then 0.0
    else
      Mix(Wilder(n), Gain(sign * (data[i] - data[i - 1])), Average(data, n, sign, i - 1))
  }

  function Score(gain: real, loss: real): real
    requires gain >= 0.0 && loss >= 0.0
  {
    if loss == 0.0 then if gain == 0.0 then 50.0 else 100.0
    else 100.0 - 100.0 / (1.0 + gain / loss)
  }

  lemma {:induction false} AverageIsNotNegative(data: seq<real>, n: nat, sign: real, i: nat)
    requires n > 0 && i < |data|
    ensures Average(data, n, sign, i) >= 0.0
  {
    if i > 0 {
      AverageIsNotNegative(data, n, sign, i - 1);
      var alpha := Wilder(n);
      assert 0.0 < alpha <= 1.0;
      Products(alpha, Gain(sign * (data[i] - data[i - 1])), 1.0 - alpha, Average(data, n, sign, i - 1));
    }
  }

  lemma Products(a: real, x: real, b: real, y: real)
    requires a >= 0.0 && x >= 0.0 && b >= 0.0 && y >= 0.0
    ensures a * x + b * y >= 0.0
  {}

  function Rsi(data: seq<real>, n: nat, i: nat): real
    requires n > 0 && i < |data|
  {
    AverageIsNotNegative(data, n, 1.0, i);
    AverageIsNotNegative(data, n, -1.0, i);
    if i == 0 then 50.0 else Score(Average(data, n, 1.0, i), Average(data, n, -1.0, i))
  }

  /** A move is a gain or a loss, of its own size. */
  lemma GainMeans(d: real)
    ensures Gain(d) - Gain(-d) == d && Gain(d) >= 0.0 && (Gain(d) == 0.0 || Gain(-d) == 0.0)
  {}

  /** Wilder's smoothing: n times the new average is n - 1 times the old one and the new gain, or loss. */
  lemma AverageMeans(data: seq<real>, n: nat, i: nat)
    requires n > 0 && 0 < i < |data|
    ensures var d := data[i] - data[i - 1];
            && n as real * Average(data, n, 1.0, i) == (n as real - 1.0) * Average(data, n, 1.0, i - 1) + (if d > 0.0 then d else 0.0)
            && n as real * Average(data, n, -1.0, i) == (n as real - 1.0) * Average(data, n, -1.0, i - 1) + (if d < 0.0 then -d else 0.0)
    ensures Average(data, n, 1.0, 0) == 0.0 && Average(data, n, -1.0, 0) == 0.0 && Rsi(data, n, 0) == 50.0
  {
    var d := data[i] - data[i - 1];
    assert 1.0 * d == d && -1.0 * d == -d;
    WilderMix(n, Gain(d), Average(data, n, 1.0, i - 1));
    WilderMix(n, Gain(-d), Average(data, n, -1.0, i - 1));
    hide Mix, Wilder;
  }

  lemma WilderMix(n: nat, x: real, p: real)
    requires n > 0
    ensures n as real * Mix(Wilder(n), x, p) == (n as real - 1.0) * p + x
  {
    var r, a := n as real, Wilder(n);
    assert r * a == 1.0;
    Associate(r, a, x);
    Associate(r, 1.0 - a, p);
    Distribute(r, a * x, (1.0 - a) * p);
    assert r * (1.0 - a) == r - 1.0;
  }

  /** The score is the share of the gains in all movement, so it lies between 0 and 100, and gains and losses
      change roles symmetrically. */
  lemma ScoreIsShare(g: real, l: real)
    requires g >= 0.0 && l >= 0.0
    ensures g + l > 0.0 ==> Score(g, l) * (g + l) == 100.0 * g
    ensures 0.0 <= Score(g, l) <= 100.0
    ensures Score(g, l) + Score(l, g) == 100.0
  {
    ShareOf(g, l);
    ShareOf(l, g);
    if g + l > 0.0 {
      var a, b := Score(g, l), Score(l, g);
      assert (a + b) * (g + l) == 100.0 * (g + l) by {
        Distribute(g + l, a, b);
      }
      CancelFactor(a + b, 100.0, g + l);
    }
  }

  lemma ShareOf(g: real, l: real)
    requires g >= 0.0 && l >= 0.0
    ensures g + l > 0.0 ==> Score(g, l) * (g + l) == 100.0 * g
    ensures 0.0 <= Score(g, l) <= 100.0
  {
    if l > 0.0 {
      var rs := g / l;
      var q := 100.0 / (1.0 + rs);
      assert rs >= 0.0 && rs * l == g;
      assert q * (1.0 + rs) == 100.0;
      assert q * (g + l) == 100.0 * l by {
        assert g + l == (1.0 + rs) * l;
        Associate(q, 1.0 + rs, l);
      }
      assert 0.0 < q <= 100.0 by { QuotientRange(rs); }
      assert (100.0 - q) * (g + l) == 100.0 * (g + l) - q * (g + l);
    }
  }

  lemma QuotientRange(rs: real)
    requires rs >= 0.0
    ensures 0.0 < 100.0 / (1.0 + rs) <= 100.0
  {}

  lemma CancelFactor(x: real, y: real, f: real)
    requires f != 0.0 && x * f == y * f
    ensures x == y
  {}

  function Clamp(x: real): real { if x < 0.0 then 0.0 else if x > 100.0 then 100.0 else x }

  /** The clamp of the source changes nothing. */
  method ScoreOf(gains: real, losses: real) returns (rsi: real)
    requires gains >= 0.0 && losses >= 0.0
    ensures rsi == Score(gains, losses)
  {
    ScoreIsShare(gains, losses);
    if losses == 0.0 { rsi := if gains == 0.0 then 50.0 else 100.0; }
    else {
      var rs := gains / losses;
      rsi := 100.0 - 100.0 / (1.0 + rs);
    }
    rsi := Clamp(rsi);
  }

  lemma AverageNext(data: seq<real>, n: nat, sign: real, i: nat, d: real)
    requires n > 0 && 0 < i < |data| && d == sign * (data[i] - data[i - 1])
    ensures Average(data, n, sign, i) == Mix(Wilder(n), Gain(d), Average(data, n, sign, i - 1))
  {}

  method RsiVec(data: seq<real>, n: nat) returns (out: seq<real>)
    requires n > 0
    ensures |out| == |data| && forall i | 0 <= i < |data| :: out[i] == Rsi(data, n, i)
  {
    hide Average, Score, Mix, Wilder, Gain;
    if data == [] { return []; }
    var alpha := Wilder(n);
    var gains, losses := 0.0, 0.0;
    out := [];
    for i := 0 to |data|
      invariant |out| == i
      invariant i == 0 ==> gains == 0.0 && losses == 0.0
      invariant i > 0 ==> gains == Average(data, n, 1.0, i - 1) && losses == Average(data, n, -1.0, i - 1)
      invariant forall k | 0 <= k < i :: out[k] == Rsi(data, n, k)
    {
      if i == 0 {
        FirstAverages(data, n);
        out := out + [50.0];
        continue;
      }
      var d := data[i] - data[i - 1];
      AverageNext(data, n, 1.0, i, d);
      AverageNext(data, n, -1.0, i, -d);
      gains := Mix(alpha, Gain(d), gains);
      losses := Mix(alpha, Gain(-d), losses);
      AverageIsNotNegative(data, n, 1.0, i);
      AverageIsNotNegative(data, n, -1.0, i);
      var rsi := ScoreOf(gains, losses);
      out := out + [rsi];
    }
  }

  lemma FirstAverages(data: seq<real>, n: nat)
    requires n > 0 && data != []
    ensures Average(data, n, 1.0, 0) == 0.0 && Average(data, n, -1.0, 0) == 0.0
  {}

  function Negated(data: seq<real>): seq<real> { seq(|data|, i requires 0 <= i < |data| => -data[i]) }

  lemma {:induction false} NegationSwaps(data: seq<real>, n: nat, sign: real, i: nat)
    requires n > 0 && i < |data|
    ensures Average(Negated(data), n, sign, i) == Average(data, n, -sign, i)
  {
    if i > 0 {
      NegationSwaps(data, n, sign, i - 1);
      var d := data[i] - data[i - 1];
      assert Negated(data)[i] - Negated(data)[i - 1] == -d;
      assert sign * -d == -sign * d;
      AverageNext(Negated(data), n, sign, i, sign * -d);
      AverageNext(data, n, -sign, i, -sign * d);
    }
    hide Average, Negated, Mix, Wilder, Gain;
  }

  /** RSI stays within 0 and 100, and negating the series turns it into 100 minus itself. */
  lemma RsiIsSymmetric(data: seq<real>, n: nat, i: nat)
    requires n > 0 && i < |data|
    ensures 0.0 <= Rsi(data, n, i) <= 100.0
    ensures Rsi(Negated(data), n, i) == 100.0 - Rsi(data, n, i)
    ensures var (g, l) := (Average(data, n, 1.0, i), Average(data, n, -1.0, i));
            i > 0 && g + l > 0.0 ==> Rsi(data, n, i) * (g + l) == 100.0 * g
  {
    NegationSwaps(data, n, 1.0, i);
    NegationSwaps(data, n, -1.0, i);
    hide Average, Score;
    AverageIsNotNegative(data, n, 1.0, i);
    AverageIsNotNegative(data, n, -1.0, i);
    ScoreIsShare(Average(data, n, 1.0, i), Average(data, n, -1.0, i));
  }

  // ---- Drawdown ----

  /** The largest of the first i + 1 values. */
  function Peak(v: seq<real>, i: nat): real
    requires i < |v|
  {
    if i == 0 then v[0] else if v[i] > Peak(v, i - 1) then v[i] else Peak(v, i - 1)
  }

  lemma {:induction false} PeakIsLargest(v: seq<real>, i: nat)
    requires i < |v|
    ensures forall k | 0 <= k <= i :: v[k] <= Peak(v, i)
    ensures exists k :: 0 <= k <= i && v[k] == Peak(v, i)
  {
    if i == 0 {
      assert v[0] == Peak(v, 0);
    } else {
      PeakIsLargest(v, i - 1);
      if v[i] > Peak(v, i - 1) { assert v[i] == Peak(v, i); }
    }
  }

  function Fall(v: seq<real>, j: nat): real
    requires j < |v|
  {
    if Peak(v, j) == 0.0 then 0.0 else v[j] / Peak(v, j) - 1.0
  }

  /** mdd is the least fall below the peak so far, or zero if there is none. */
  predicate IsLeastFall(v: seq<real>, mdd: real) {
    && mdd <= 0.0 && (forall j | 0 <= j < |v| :: mdd <= Fall(v, j))
    && (mdd == 0.0 || exists j | 0 <= j < |v| :: mdd == Fall(v, j))
  }

  /** A peak of zero counts as no fall. */
  method MaxDrawdown(v: seq<real>) returns (mdd: real)
    ensures IsLeastFall(v, mdd)
  {
    if v == [] { return 0.0; }
    var cummax := v[0];
    mdd := 0.0;
    for j := 0 to |v|
      invariant mdd <= 0.0 && cummax == if j == 0 then v[0] else Peak(v, j - 1)
      invariant forall k | 0 <= k < j :: mdd <= Fall(v, k)
      invariant mdd == 0.0 || exists k :: 0 <= k < j && mdd == Fall(v, k)
    {
      if v[j] > cummax { cummax := v[j]; }
      assert cummax == Peak(v, j);
      if cummax == 0.0 { continue; }
      var dd := v[j] / cummax - 1.0;
      assert dd == Fall(v, j);
      if dd < mdd { mdd := dd; }
    }
  }

  /** mdd is the least v[j]/v[i] - 1 over i <= j with a positive v[i], or zero if there is none. */
  ghost predicate IsLeastPair(v: seq<real>, mdd: real) {
    && (forall i, j | 0 <= i <= j < |v| && v[i] > 0.0 :: mdd <= v[j] / v[i] - 1.0)
    && (mdd == 0.0 || exists i, j :: 0 <= i <= j < |v| && v[i] > 0.0 && mdd == v[j] / v[i] - 1.0)
  }

  lemma QuotientShrinks(x: real, p: real, q: real)
    requires x >= 0.0 && 0.0 < q <= p
    ensures x / p <= x / q
  {
    var a := x / p;
    assert a >= 0.0 && a * p == x;
    assert a * q <= a * p;
    assert x / q - a == (x - a * q) / q;
  }

  /** On a curve without negative values the fall below the running peak is the worst pair of a value and a
      later one. */
  lemma DrawdownIsWorstPair(v: seq<real>, mdd: real)
    requires forall i | 0 <= i < |v| :: v[i] >= 0.0
    requires IsLeastFall(v, mdd)
    ensures IsLeastPair(v, mdd)
  {
    forall i, j | 0 <= i <= j < |v| && v[i] > 0.0 ensures mdd <= v[j] / v[i] - 1.0 {
      PeakIsLargest(v, j);
      QuotientShrinks(v[j], Peak(v, j), v[i]);
      assert mdd <= Fall(v, j);
    }
    if mdd != 0.0 {
      var j :| 0 <= j < |v| && mdd == Fall(v, j);
      PeakIsLargest(v, j);
      var k :| 0 <= k <= j && v[k] == Peak(v, j);
      assert mdd == v[j] / v[k] - 1.0;
    }
  }

  /** The same for curves that have one positive value at most, whatever else they hold: all pairs start from it. */
  lemma DrawdownFromOnePeak(v: seq<real>, mdd: real)
    requires forall i, j | 0 <= i < |v| && 0 <= j < |v| && v[i] > 0.0 && v[j] > 0.0 :: v[i] == v[j]
    requires IsLeastFall(v, mdd)
    ensures IsLeastPair(v, mdd)
  {
    forall i, j | 0 <= i <= j < |v| && v[i] > 0.0 ensures mdd <= v[j] / v[i] - 1.0 {
      PeakIsLargest(v, j);
      assert Peak(v, j) == v[i];
      assert mdd <= Fall(v, j);
    }
    if mdd != 0.0 {
      var j :| 0 <= j < |v| && mdd == Fall(v, j);
      PeakIsLargest(v, j);
      var k :| 0 <= k <= j && v[k] == Peak(v, j);
      if v[k] < 0.0 { QuotientOfNegatives(v[j], v[k]); }
      assert mdd == v[j] / v[k] - 1.0;
    }
  }

  lemma QuotientOfNegatives(x: real, p: real)
    requires x <= p < 0.0
    ensures x / p >= 1.0
  {
    var a := x / p;
    assert a * p == x;
    assert a < 1.0 ==> (1.0 - a) * p < 0.0;
  }

  /** A negative value after two different positive ones: its pair with the smaller is worse than its fall from the
      larger. */
  lemma NegativeValuesBreakPairs(p: real, q: real, n: real)
    requires n < 0.0 < p < q
    ensures IsLeastFall([p, q, n], n / q - 1.0) && !IsLeastPair([p, q, n], n / q - 1.0)
  {
    var v := [p, q, n];
    assert Peak(v, 0) == p && Peak(v, 1) == q && Peak(v, 2) == q;
    assert p / p == 1.0 && q / q == 1.0;
    assert Fall(v, 0) == 0.0 && Fall(v, 1) == 0.0 && Fall(v, 2) == n / q - 1.0;
    NegativeQuotients(p, q, n);
    assert v[2] / v[0] - 1.0 < n / q - 1.0;
  }

  lemma NegativeQuotients(p: real, q: real, n: real)
    requires n < 0.0 < p < q
    ensures n / p < n / q < 0.0
  {
    var a := n / q;
    assert a * q == n;
    assert a < 0.0;
    assert a * p > n;
    assert a - n / p == (a * p - n) / p;
  }

  /** The drawdown of every curve over some values is its worst pair. */
  ghost predicate PairsAgree(values: iset<real>) {
    forall v: seq<real>, mdd: real :: IsLeastFall(v, mdd) && (forall x <- v :: x in values) ==> IsLeastPair(v, mdd)
  }

  /** That is so exactly if none of the values is negative, or at most one is positive. */
  lemma PairsAgreeIff(values: iset<real>)
    ensures PairsAgree(values)
            <==> (forall n <- values :: n >= 0.0) || (forall p, q | p in values && q in values && p > 0.0 && q > 0.0 :: p == q)
  {
    hide IsLeastPair, IsLeastFall;
    if forall n <- values :: n >= 0.0 {
      forall v: seq<real>, mdd: real | IsLeastFall(v, mdd) && (forall x <- v :: x in values) ensures IsLeastPair(v, mdd) {
        assert forall i | 0 <= i < |v| :: v[i] in v;
        DrawdownIsWorstPair(v, mdd);
      }
    } else if forall p, q | p in values && q in values && p > 0.0 && q > 0.0 :: p == q {
      forall v: seq<real>, mdd: real | IsLeastFall(v, mdd) && (forall x <- v :: x in values) ensures IsLeastPair(v, mdd) {
        assert forall i | 0 <= i < |v| :: v[i] in v;
        DrawdownFromOnePeak(v, mdd);
      }
    } else {
      var n :| n in values && n < 0.0;
      var p, q :| p in values && q in values && p > 0.0 && q > 0.0 && p != q;
      var a, b := if p < q then p else q, if p < q then q else p;
      NegativeValuesBreakPairs(a, b, n);
      assert forall x <- [a, b, n] :: x in values;
    }
  }

  // ---- Bollinger bands ----

  /** The sum of the squared distances from m. */
  function Deviation(data: seq<real>, m: real, lo: nat, hi: nat): real
    requires lo <= hi <= |data|
  {
    if lo == hi then 0.0 else Deviation(data, m, lo, hi - 1) + (data[hi - 1] - m) * (data[hi - 1] - m)
  }

  lemma {:induction false} DeviationIsNotNegative(data: seq<real>, m: real, lo: nat, hi: nat)
    requires lo <= hi <= |data|
    ensures Deviation(data, m, lo, hi) >= 0.0
  {
    if lo < hi {
      DeviationIsNotNegative(data, m, lo, hi - 1);
      Square(data[hi - 1] - m);
    }
  }

  lemma Square(x: real)
    ensures x * x >= 0.0
  {}

  function Squares(data: seq<real>, lo: nat, hi: nat): real
    requires lo <= hi <= |data|
  {
    if lo == hi then 0.0 else Squares(data, lo, hi - 1) + data[hi - 1] * data[hi - 1]
  }

  lemma {:induction false} DeviationExpands(data: seq<real>, m: real, lo: nat, hi: nat)
    requires lo <= hi <= |data|
    ensures Deviation(data, m, lo, hi) == Squares(data, lo, hi) - 2.0 * m * Sum(data, lo, hi) + ((hi - lo) as real) * (m * m)
  {
    if lo < hi {
      DeviationExpands(data, m, lo, hi - 1);
      var x, s, r := data[hi - 1], Sum(data, lo, hi - 1), (hi - 1 - lo) as real;
      assert (hi - lo) as real == r + 1.0;
      Binomial(x, m);
      Distribute(2.0 * m, s, x);
      Distribute(m * m, r, 1.0);
    }
  }

  lemma Binomial(x: real, m: real)
    ensures (x - m) * (x - m) == x * x - 2.0 * m * x + m * m
  {}

  /** Over exact reals the two passes of the source give what one pass over the sums of values and squares would. */
  lemma TwoPassesAreOne(data: seq<real>, n: nat, i: nat)
    requires 0 < n <= i + 1 <= |data|
    ensures var lo, hi := i + 1 - n, i + 1;
            Deviation(data, Mean(data, n, i).value, lo, hi)
              == Squares(data, lo, hi) - Sum(data, lo, hi) * Sum(data, lo, hi) / (n as real)
  {
    var lo, hi, r := i + 1 - n, i + 1, n as real;
    var s, m := Sum(data, lo, hi), Mean(data, n, i).value;
    DeviationExpands(data, m, lo, hi);
    assert r * m == s;
    assert r * (m * m) == s * m by { Associate(r, m, m); }
    assert 2.0 * m * s == 2.0 * (s * m);
    assert s * s / r == s * m;
  }

  /** What is used of the square root. */
  ghost predicate IsRoot(root: real -> real) { forall x: real :: x >= 0.0 ==> root(x) >= 0.0 && root(x) * root(x) == x }

  datatype Bands = Bands(mid: seq<Option<real>>, upper: seq<Option<real>>, lower: seq<Option<real>>)

  function Spread(data: seq<real>, n: nat, i: nat, root: real -> real): real
    requires 0 < n <= i + 1 <= |data|
  {
    if n == 1 then 0.0
    else root(Deviation(data, Mean(data, n, i).value, i + 1 - n, i + 1) / (n as real - 1.0))
  }

  /** k times s above m. */
  function Shift(m: real, k: real, s: real): real { m + k * s }

  /** The three values at position i. */
  predicate BandsAt(b: Bands, data: seq<real>, n: nat, k: real, root: real -> real, i: nat)
    requires 0 < n && i < |data|
  {
    && i < |b.mid| && i < |b.upper| && i < |b.lower|
    && b.mid[i] == Mean(data, n, i)
    && if i + 1 < n then b.upper[i] == None && b.lower[i] == None
       else
         var m, s := Mean(data, n, i).value, Spread(data, n, i, root);
         b.upper[i] == Some(Shift(m, k, s)) && b.lower[i] == Some(Shift(m, -k, s))
  }

  /** The second pass: squared distances from the mean of the window that ends at i. */
  method SpreadOf(data: seq<real>, n: nat, i: nat, m: real, root: real -> real) returns (s: real)
    requires 0 < n <= i + 1 <= |data| && m == Mean(data, n, i).value
    ensures s == Spread(data, n, i, root)
  {
    if n == 1 { return 0.0; }
    var ssd := 0.0;
    for j := i + 1 - n to i + 1
      invariant ssd == Deviation(data, m, i + 1 - n, j)
    {
      var d := data[j] - m;
      ssd := ssd + d * d;
    }
    s := root(ssd / (n as real - 1.0));
  }

  lemma SumNext(data: seq<real>, lo: nat, i: nat)
    requires lo <= i < |data|
    ensures Sum(data, lo, i + 1) == Sum(data, lo, i) + data[i]
  {}

  lemma BandsStart(data: seq<real>)
    ensures Sum(data, 0, 0) == 0.0
  {}

  /** Appending the values at i keeps those before it. */
  lemma BandsPush(was: Bands, b: Bands, data: seq<real>, n: nat, k: real, root: real -> real, i: nat)
    requires 0 < n && i < |data| && |was.mid| == |was.upper| == |was.lower| == i
    requires |b.mid| == |b.upper| == |b.lower| == i + 1 && was.mid <= b.mid && was.upper <= b.upper && was.lower <= b.lower
    requires forall j | 0 <= j < i :: BandsAt(was, data, n, k, root, j)
    requires b.mid[i] == Mean(data, n, i)
    requires if i + 1 < n then b.upper[i] == None && b.lower[i] == None
             else
               var m, s := Mean(data, n, i).value, Spread(data, n, i, root);
               b.upper[i] == Some(Shift(m, k, s)) && b.lower[i] == Some(Shift(m, -k, s))
    ensures forall j | 0 <= j < i + 1 :: BandsAt(b, data, n, k, root, j)
  {
    hide Mean, Spread, Shift;
    forall j | 0 <= j < i ensures BandsAt(b, data, n, k, root, j) { assert BandsAt(was, data, n, k, root, j); }
  }

  method Bollinger(data: seq<real>, window: Option<nat>, numStd: Option<real>, root: real -> real) returns (r: Result<Bands>)
    ensures r.Err? <==> window == Some(0) || (numStd.Some? && numStd.value < 0.0)
    ensures r.Ok? ==>
              var n, k := if window == None then 20 else window.value, if numStd == None then 2.0 else numStd.value;
              && |r.value.mid| == |r.value.upper| == |r.value.lower| == |data|
              && forall i | 0 <= i < |data| :: BandsAt(r.value, data, n, k, root, i)
  {
    if Window(window, 20).Err? { return Err; }
    var n := Window(window, 20).value;
    var k := if numStd.Some? then numStd.value else 2.0;
    if k < 0.0 { return Err; }
    var b := Bands([], [], []);
    var sum := 0.0;
    hide Spread, Shift, Sum, BandsAt;
    BandsStart(data);
    for i := 0 to |data|
      invariant |b.mid| == |b.upper| == |b.lower| == i && sum == Sum(data, From(n, i), i)
      invariant forall j | 0 <= j < i :: BandsAt(b, data, n, k, root, j)
    {
      var was := b;
      sum := sum + data[i];
      SumNext(data, From(n, i), i);
      if i >= n {
        SumDropsFirst(data, i - n, i + 1);
        sum := sum - data[i - n];
      }
      if i + 1 < n {
        b := Bands(b.mid + [None], b.upper + [None], b.lower + [None]);
      } else {
        var m := sum / (n as real);
        var std := SpreadOf(data, n, i, m, root);
        b := Bands(b.mid + [Some(m)], b.upper + [Some(Shift(m, k, std))], b.lower + [Some(Shift(m, -k, std))]);
      }
      BandsPush(was, b, data, n, k, root, i);
    }
    r := Ok(b);
  }

  /** The bands enclose the mean, and their half width is k times the sample standard deviation of the window. */
  lemma BandsEncloseMean(data: seq<real>, n: nat, i: nat, k: real, root: real -> real)
    requires 0 < n <= i + 1 <= |data| && k >= 0.0 && IsRoot(root)
    ensures var m, s := Mean(data, n, i).value, Spread(data, n, i, root);
            && Shift(m, -k, s) <= m <= Shift(m, k, s)
            && Shift(m, k, s) - m == k * s && m - Shift(m, -k, s) == k * s
            && (n > 1 ==> s * s * (n as real - 1.0) == Deviation(data, m, i + 1 - n, i + 1))
  {
    var m, s := Mean(data, n, i).value, Spread(data, n, i, root);
    if n > 1 {
      var v := Deviation(data, m, i + 1 - n, i + 1) / (n as real - 1.0);
      DeviationIsNotNegative(data, m, i + 1 - n, i + 1);
      Divides(0.0, Deviation(data, m, i + 1 - n, i + 1), n as real - 1.0);
      assert root(v) >= 0.0 && root(v) * root(v) == v;
    }
    Products(k, s, 0.0, 0.0);
  }
}
