/** The exponential moving average of data/aggregate.cc and its closed form. Prices are reals. */
module Ema {
  type Period = p: int | p >= 1 witness 1

  function Smoothing(p: Period): (k: real)
    ensures 0.0 < k <= 1.0
    ensures p > 1 ==> k < 1.0
    ensures k * (p as real + 1.0) == 2.0
  {
    2.0 / (p as real + 1.0)
  }

  function ExponentialMovingAverage(price: real, previous: real, p: Period): real {
    var k := Smoothing(p);
    price * k + previous * (1.0 - k)
  }

  function Pow(b: real, n: nat): real {
    if n == 0 then 1.0 else b * Pow(b, n - 1)
  }

  /** The weight of the price t steps back; c is what one step leaves of a weight. */
  function WeightAt(k: real, c: real, t: nat): real {
    if t == 0 then k else c * WeightAt(k, c, t - 1)
  }

  /** Prices newest first, the first of them t steps back, each with its weight. */
  function WeightedSum(ys: seq<real>, k: real, c: real, t: nat): real {
    if ys == [] then 0.0 else WeightAt(k, c, t) * ys[0] + WeightedSum(ys[1..], k, c, t + 1)
  }

  /** The closed form: the weighted prices, and what is left of the seed. */
  function ExplicitEma(ys: seq<real>, seed: real, k: real, c: real): real {
    WeightedSum(ys, k, c, 0) + Pow(c, |ys|) * seed
  }

  function TotalWeight(k: real, c: real, n: nat): real {
    if n == 0 then 0.0 else TotalWeight(k, c, n - 1) + WeightAt(k, c, n - 1)
  }

  lemma {:induction false} WeightIsPower(k: real, c: real, t: nat)
    ensures WeightAt(k, c, t) == k * Pow(c, t)
  {
    if t > 0 {
      WeightIsPower(k, c, t - 1);
      Swap(c, k, Pow(c, t - 1));
    }
  }

  lemma Swap(a: real, b: real, x: real)
    ensures a * (b * x) == b * (a * x)
  {
  }

  lemma PartsOfOne(k: real, p: real)
    ensures k * p + (1.0 - k) * p == p
  {
  }

  /** The weights of n prices and of the seed are non-negative and sum to one. */
  lemma {:induction false} WeightsSumToOne(k: real, n: nat)
    requires 0.0 <= k <= 1.0
    ensures TotalWeight(k, 1.0 - k, n) + Pow(1.0 - k, n) == 1.0
    ensures 0.0 <= Pow(1.0 - k, n) && 0.0 <= WeightAt(k, 1.0 - k, n)
  {
    WeightIsPower(k, 1.0 - k, n);
    if n > 0 {
      WeightsSumToOne(k, n - 1);
      var p := Pow(1.0 - k, n - 1);
      WeightIsPower(k, 1.0 - k, n - 1);
      PartsOfOne(k, p);
      Product(1.0 - k, p);
    }
    Product(k, Pow(1.0 - k, n));
  }

  lemma ScaledTerm(c: real, w: real, y: real, sum: real)
    ensures (c * w) * y + c * sum == c * (w * y + sum)
  {
  }

  /** Moving every price one step back scales the sum. */
  lemma {:induction false} OlderSumScales(ys: seq<real>, k: real, c: real, t: nat)
    ensures WeightedSum(ys, k, c, t + 1) == c * WeightedSum(ys, k, c, t)
  {
    if ys != [] {
      OlderSumScales(ys[1..], k, c, t + 1);
      ScaledTerm(c, WeightAt(k, c, t), ys[0], WeightedSum(ys[1..], k, c, t + 1));
    }
  }

  /** Putting a newer price in front scales everything older. */
  lemma WeightedSumShifts(y: real, ys: seq<real>, k: real, c: real)
    ensures WeightedSum([y] + ys, k, c, 0) == k * y + c * WeightedSum(ys, k, c, 0)
  {
    assert ([y] + ys)[1..] == ys;
    OlderSumScales(ys, k, c, 0);
  }

  lemma StepOfSum(k: real, c: real, x: real, sum0: real, sum1: real, pow0: real, pow1: real, seed: real)
    requires sum1 == k * x + c * sum0 && pow1 == c * pow0
    ensures x * k + (sum0 + pow0 * seed) * c == sum1 + pow1 * seed
  {
  }

  /** One step of the recurrence is one more price in the closed form. */
  lemma SumExtends(price: real, ys: seq<real>, seed: real, k: real, c: real)
    ensures price * k + ExplicitEma(ys, seed, k, c) * c == ExplicitEma([price] + ys, seed, k, c)
  {
    WeightedSumShifts(price, ys, k, c);
    StepOfSum(k, c, price, WeightedSum(ys, k, c, 0), WeightedSum([price] + ys, k, c, 0),
              Pow(c, |ys|), Pow(c, |ys| + 1), seed);
  }

  lemma EmaExtends(price: real, ys: seq<real>, seed: real, p: Period)
    ensures var k := Smoothing(p);
            ExponentialMovingAverage(price, ExplicitEma(ys, seed, k, 1.0 - k), p) ==
            ExplicitEma([price] + ys, seed, k, 1.0 - k)
  {
    SumExtends(price, ys, seed, Smoothing(p), 1.0 - Smoothing(p));
  }

  lemma Product(x: real, y: real)
    requires x >= 0.0 && y >= 0.0
    ensures x * y >= 0.0
  {
  }

  /** A weighted mean of two numbers lies between any bounds of both. */
  lemma WeightedMeanBetween(k: real, a: real, b: real, lo: real, hi: real)
    requires 0.0 <= k <= 1.0 && lo <= a <= hi && lo <= b <= hi
    ensures lo <= a * k + b * (1.0 - k) <= hi
  {
    Product(k, a - lo);
    Product(1.0 - k, b - lo);
    Product(k, hi - a);
    Product(1.0 - k, hi - b);
    assert a * k + b * (1.0 - k) - lo == k * (a - lo) + (1.0 - k) * (b - lo);
    assert hi - (a * k + b * (1.0 - k)) == k * (hi - a) + (1.0 - k) * (hi - b);
  }

  /** A moving average lies between any bounds of the new price and the old average. */
  lemma EmaBetween(price: real, previous: real, p: Period, lo: real, hi: real)
    requires lo <= price <= hi && lo <= previous <= hi
    ensures lo <= ExponentialMovingAverage(price, previous, p) <= hi
  {
    WeightedMeanBetween(Smoothing(p), price, previous, lo, hi);
  }
}
