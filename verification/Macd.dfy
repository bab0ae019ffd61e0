/** The crossover analyzer of data/analyzers/macd.cc. */
module Macd {
  import opened Analyzer
  import opened Arithmetic
  import opened Wrappers
  import opened Ema
  import opened Aggregate
  import V = Vector

  /** Reading an empty list throws. */
  datatype OutOfRange = OutOfRange

  function AtMostOne(x: real): real {
    if x <= 1.0 then x else 1.0
  }

  function Delta(w: Window): real {
    w.fastLine - w.signal
  }

  function Advise(current: Window, previous: Window, canSell: bool, canBuy: bool, scaler: real): Decision {
    var currentDelta, previousDelta := Delta(current), Delta(previous);
    var slope := currentDelta - previousDelta;
    if currentDelta < 0.0 && previousDelta >= 0.0 then
      Decision(if canSell then Sell else Hold, AtMostOne(-slope * scaler))
    else if currentDelta > 0.0 && previousDelta <= 0.0 then
      Decision(if canBuy then Buy else Hold, AtMostOne(slope * scaler))
    else if currentDelta > 0.0 && previousDelta > 0.0 && slope > 0.0 then
      Decision(Hold, slope * scaler)
    else NO_ACTION
  }

  /** Enough windows, and a minute on a window boundary. */
  predicate Guard(period: seq<Window>, marketMinute: int)
    requires period != [] && period[|period| - 1].count > 0
  {
    var size := period[|period| - 1].count;
    |period| >= size * 2 && marketMinute % size == 0
  }

  function Analyze(period: seq<Window>, marketMinute: int, canSell: bool, canBuy: bool, scaler: real)
    : Result<Decision, OutOfRange>
    requires period != [] ==> period[|period| - 1].count > 0
  {
    match V.At(period, -1)
    case None => Failure(OutOfRange)
    case Some(current) =>
      var size: int := current.count;
      if |period| < size * 2 || marketMinute % size != 0 then Success(NO_ACTION)
      else
        match V.At(period, -size - 1)
        case None => Failure(OutOfRange)
        case Some(previous) => Success(Advise(current, previous, canSell, canBuy, scaler))
  }

  /** A guarded read stays inside the list. */
  lemma GuardedRead(period: seq<Window>, minute: int, canSell: bool, canBuy: bool, scaler: real)
    requires period != [] && period[|period| - 1].count > 0 && Guard(period, minute)
    ensures var size := period[|period| - 1].count;
            && |period| >= 2 * size
            && Analyze(period, minute, canSell, canBuy, scaler) ==
               Success(Advise(period[|period| - 1], period[|period| - 1 - size], canSell, canBuy, scaler))
  {
    hide Advise;
    V.AtCountsBack(period, 0);
    V.AtCountsBack(period, period[|period| - 1].count);
  }

  lemma FullWindow(cs: seq<Candle>, w: nat, ps: Periods, i: nat)
    requires 0 < w && i < |cs|
    ensures WindowAt(cs, w, ps, i).count == Min(w, i + 1) > 0
  {
    hide EmaAt, SignalAt, FastLineAt, Mean, SumSquares, CandleAt;
  }

  lemma BuiltOnPredecessor(cs: seq<Candle>, w: nat, ps: Periods, i: nat)
    requires 0 < w && i < |cs|
    ensures i >= w ==>
              var current, previous := WindowAt(cs, w, ps, i), WindowAt(cs, w, ps, i - w);
              && current.fast == ExponentialMovingAverage(cs[i].close, previous.fast, ps.fast)
              && current.slow == ExponentialMovingAverage(cs[i].close, previous.slow, ps.slow)
              && current.signal == ExponentialMovingAverage(current.fastLine, previous.signal, ps.signal)
  {
    hide Mean, SumSquares, CandleAt, ExponentialMovingAverage;
  }

  /** On aggregated windows the guard passes from the second full window on, each w minutes. */
  lemma GuardOnWindows(cs: seq<Candle>, w: nat, ps: Periods, minute: int)
    requires 0 < w && cs != []
    ensures WindowAt(cs, w, ps, |cs| - 1).count > 0
    ensures Guard(WindowsOf(cs, w, ps), minute) <==> |cs| >= 2 * w && minute % w == 0
  {
    FullWindow(cs, w, ps, |cs| - 1);
    hide WindowAt;
  }

  /** Once the guard passes on a list of w-minute windows, the two windows read are the last one and the very
      one its signal line was computed from. */
  lemma ReadsOwnPredecessor(
    cs: seq<Candle>, w: nat, ps: Periods, minute: int, canSell: bool, canBuy: bool, scaler: real)
    requires 0 < w && cs != [] && Guard(WindowsOf(cs, w, ps), minute)
    ensures var i := |cs| - 1;
            && WindowAt(cs, w, ps, i).count == w && i >= w
            && var current, previous := WindowAt(cs, w, ps, i), WindowAt(cs, w, ps, i - w);
               && Analyze(WindowsOf(cs, w, ps), minute, canSell, canBuy, scaler) ==
                  Success(Advise(current, previous, canSell, canBuy, scaler))
               && current.fast == ExponentialMovingAverage(cs[i].close, previous.fast, ps.fast)
               && current.slow == ExponentialMovingAverage(cs[i].close, previous.slow, ps.slow)
               && current.signal == ExponentialMovingAverage(current.fastLine, previous.signal, ps.signal)
  {
    hide Guard, Advise, Analyze, WindowAt, ExponentialMovingAverage;
    var i := |cs| - 1;
    FullWindow(cs, w, ps, i);
    GuardedRead(WindowsOf(cs, w, ps), minute, canSell, canBuy, scaler);
    BuiltOnPredecessor(cs, w, ps, i);
  }

  /** Without enough windows, off a boundary, or with none at all, there is no advice. */
  lemma SilentUnlessGuarded(period: seq<Window>, minute: int, canSell: bool, canBuy: bool, scaler: real)
    requires period != [] ==> period[|period| - 1].count > 0
    ensures var res := Analyze(period, minute, canSell, canBuy, scaler);
            && (res.Failure? <==> period == [])
            && (period != [] && !Guard(period, minute) ==> res == Success(NO_ACTION))
            && (period != [] ==>
                  var size := period[|period| - 1].count;
                  (Guard(period, minute) <==> |period| >= 2 * size && minute % size == 0))
  {
    V.AtCountsBack(period, 0);
    if period != [] {
      V.AtCountsBack(period, period[|period| - 1].count);
    }
  }

  lemma SignOfProduct(a: real, b: real)
    requires a > 0.0
    ensures (a * b > 0.0 <==> b > 0.0) && (a * b < 0.0 <==> b < 0.0)
  {
    if b > 0.0 {
      assert a * b > 0.0;
    } else if b < 0.0 {
      assert a * -b > 0.0;
    }
  }

  /** How far a line lies above the signal line computed from it and the signal line before. */
  function Gap(line: real, signal: real, p: Period): real {
    line - ExponentialMovingAverage(line, signal, p)
  }

  /** The gap is the step of the line over the previous signal line, scaled down by the weight of the past;
      with a period above one it has the same sign, with a period of one there is no gap. */
  lemma GapIsScaledStep(line: real, signal: real, p: Period)
    ensures Gap(line, signal, p) == (1.0 - Smoothing(p)) * (line - signal)
    ensures p > 1 ==> (Gap(line, signal, p) > 0.0 <==> line > signal) && (Gap(line, signal, p) < 0.0 <==> line < signal)
    ensures p == 1 ==> Gap(line, signal, p) == 0.0
  {
    var k := Smoothing(p);
    var c, step := 1.0 - k, line - signal;
    MixGap(line, signal, k);
    assert Gap(line, signal, p) == c * step;
    if p > 1 {
      assert c > 0.0;
      SignOfProduct(c, step);
    }
  }

  lemma MixGap(line: real, signal: real, k: real)
    ensures line - (line * k + signal * (1.0 - k)) == (1.0 - k) * (line - signal)
  {
  }

  /** The difference whose sign decides is such a gap, on a window that has a predecessor. */
  lemma DeltaIsGap(cs: seq<Candle>, w: nat, ps: Periods, i: nat)
    requires 0 < w <= i < |cs|
    ensures Delta(WindowAt(cs, w, ps, i)) ==
            Gap(FastLineAt(cs, w, ps, i), WindowAt(cs, w, ps, i - w).signal, ps.signal)
  {
  }

  predicate CrossesUnder(fastLine: real, previous: Window) {
    fastLine < previous.signal <= previous.fastLine
  }

  predicate CrossesOver(fastLine: real, previous: Window) {
    fastLine > previous.signal >= previous.fastLine
  }

  /** Above the previous signal line as before, and farther above its own signal line than before. */
  predicate GainsMomentum(fastLine: real, previous: Window, p: Period) {
    && fastLine > previous.signal && previous.fastLine > previous.signal
    && Gap(fastLine, previous.signal, p) > Delta(previous)
  }

  lemma AdviceFromGap(
    current: Window, previous: Window, p: Period, canSell: bool, canBuy: bool, scaler: real, fastLine: real)
    requires Delta(current) == Gap(fastLine, previous.signal, p)
    requires Delta(current) > 0.0 <==> p > 1 && fastLine > previous.signal
    requires Delta(current) < 0.0 <==> p > 1 && fastLine < previous.signal
    ensures var act := Advise(current, previous, canSell, canBuy, scaler).act;
            && (act == Sell <==> p > 1 && canSell && CrossesUnder(fastLine, previous))
            && (act == Buy <==> p > 1 && canBuy && CrossesOver(fastLine, previous))
            && (act == Hold <==>
                  || (p > 1 && !canSell && CrossesUnder(fastLine, previous))
                  || (p > 1 && !canBuy && CrossesOver(fastLine, previous))
                  || GainsMomentum(fastLine, previous, p))
  {
    hide Gap, AtMostOne;
  }

  /** What the advice means on the aggregated windows: it crosses under when the fast line falls below the
      previous signal line from a previous fast line not below it, and over likewise. With a signal period of one
      the signal line is the fast line, and nothing is ever advised. */
  lemma AdviceIsCrossover(
    cs: seq<Candle>, w: nat, ps: Periods, minute: int, canSell: bool, canBuy: bool, scaler: real)
    requires 0 < w && cs != [] && Guard(WindowsOf(cs, w, ps), minute)
    ensures var i := |cs| - 1;
            && i >= w
            && var previous := WindowAt(cs, w, ps, i - w);
               var fastLine := FastLineAt(cs, w, ps, i);
               var res := Analyze(WindowsOf(cs, w, ps), minute, canSell, canBuy, scaler);
               && res.Success?
               && (res.value.act == Sell <==> ps.signal > 1 && canSell && CrossesUnder(fastLine, previous))
               && (res.value.act == Buy <==> ps.signal > 1 && canBuy && CrossesOver(fastLine, previous))
               && (res.value.act == Hold <==>
                     || (ps.signal > 1 && !canSell && CrossesUnder(fastLine, previous))
                     || (ps.signal > 1 && !canBuy && CrossesOver(fastLine, previous))
                     || GainsMomentum(fastLine, previous, ps.signal))
  {
    hide Guard, WindowAt, FastLineAt, Gap, Delta, Advise, Analyze, Smoothing, ExponentialMovingAverage, GainsMomentum;
    var i := |cs| - 1;
    ReadsOwnPredecessor(cs, w, ps, minute, canSell, canBuy, scaler);
    DeltaIsGap(cs, w, ps, i);
    GapIsScaledStep(FastLineAt(cs, w, ps, i), WindowAt(cs, w, ps, i - w).signal, ps.signal);
    AdviceFromGap(WindowAt(cs, w, ps, i), WindowAt(cs, w, ps, i - w), ps.signal, canSell, canBuy, scaler,
                  FastLineAt(cs, w, ps, i));
  }

  /** By how much the gap changed in the direction advised on, and what became of it. */
  lemma Advised(current: Window, previous: Window, canSell: bool, canBuy: bool, scaler: real) returns (change: real)
    ensures var d := Advise(current, previous, canSell, canBuy, scaler);
            var slope := Delta(current) - Delta(previous);
            && (d.act == Sell ==> change == -slope) && (d.act == Buy ==> change == slope)
            && (d.act != NoAction ==>
                  && change > 0.0
                  && d.confidence ==
                     (if d.act == Hold && Delta(current) > 0.0 && Delta(previous) > 0.0 then change * scaler
                      else AtMostOne(change * scaler)))
            && (d.act == Sell ==> d.confidence == if -slope * scaler <= 1.0 then -slope * scaler else 1.0)
            && (d.act == Buy ==> d.confidence == if slope * scaler <= 1.0 then slope * scaler else 1.0)
            && (d.act == Hold && Delta(current) > 0.0 && Delta(previous) > 0.0 ==> d.confidence == slope * scaler)
            && (d.act == NoAction <==> d == NO_ACTION)
  {
    var slope := Delta(current) - Delta(previous);
    change := if Delta(current) < 0.0 then -slope else slope;
    SameProduct(change, if Delta(current) < 0.0 then -slope else slope, scaler);
  }

  lemma SameProduct(a: real, b: real, x: real)
    requires a == b
    ensures a * x == b * x
  {
  }

  lemma SignOfConfidence(change: real, scaler: real)
    requires change > 0.0
    ensures AtMostOne(change * scaler) <= 1.0
    ensures AtMostOne(change * scaler) > 0.0 <==> scaler > 0.0
    ensures AtMostOne(change * scaler) < 0.0 <==> scaler < 0.0
    ensures change * scaler > 0.0 <==> scaler > 0.0
    ensures change * scaler < 0.0 <==> scaler < 0.0
  {
    SignOfProduct(change, scaler);
  }

  /** Buys, sells and every other crossover carry the scaled change of the gap, or one if that is more, so a
      confidence in (0, 1] exactly for a positive scaler. The momentum advice carries the scaled change as it
      is. */
  lemma Confidence(current: Window, previous: Window, canSell: bool, canBuy: bool, scaler: real)
    ensures var d := Advise(current, previous, canSell, canBuy, scaler);
            var slope := Delta(current) - Delta(previous);
            && (d.act == Buy || d.act == Sell ==> (0.0 < d.confidence <= 1.0 <==> scaler > 0.0))
            && (d.act != NoAction ==> (d.confidence > 0.0 <==> scaler > 0.0) && (d.confidence < 0.0 <==> scaler < 0.0))
            && (d.act == Sell ==> d.confidence == if -slope * scaler <= 1.0 then -slope * scaler else 1.0)
            && (d.act == Buy ==> d.confidence == if slope * scaler <= 1.0 then slope * scaler else 1.0)
            && (d.act == Buy || d.act == Sell ==> d.confidence <= 1.0)
            && (d.act == Hold && (Delta(current) < 0.0 || Delta(previous) <= 0.0) ==> d.confidence <= 1.0)
            && (d.act == Hold && Delta(current) > 0.0 && Delta(previous) > 0.0 ==> d.confidence == slope * scaler)
            && (d.act == NoAction <==> d == NO_ACTION)
  {
    hide Advise, Delta;
    var change := Advised(current, previous, canSell, canBuy, scaler);
    if change > 0.0 {
      SignOfConfidence(change, scaler);
    }
  }

  /** How high a fast line has to rise, from a previous window already above its signal line, for the confidence
      to leave its range. */
  predicate RisesTooHigh(fastLine: real, previous: Window, p: Period, scaler: real)
    requires scaler > 0.0
  {
    && p > 1 && previous.fastLine > previous.signal
    && fastLine > previous.signal + (1.0 / scaler + Delta(previous)) / (1.0 - Smoothing(p))
  }

  lemma Scaling(a: real, x: real, y: real)
    requires a > 0.0
    ensures x > y <==> a * x > a * y
  {
    SignOfProduct(a, x - y);
    assert a * (x - y) == a * x - a * y;
  }

  /** Solving a scaled step for the step. */
  lemma StepForOne(c: real, scaler: real, x: real, d: real)
    requires c > 0.0 && scaler > 0.0
    ensures (c * x - d) * scaler > 1.0 <==> x > (1.0 / scaler + d) / c
  {
    var unit := 1.0 / scaler;
    var bound := (unit + d) / c;
    assert c * bound == unit + d;
    assert scaler * unit == 1.0;
    Scaling(c, x, bound);
    Scaling(scaler, c * x - d, unit);
  }

  lemma MomentumIsHigh(current: Window, previous: Window, p: Period, scaler: real, fastLine: real)
    requires scaler > 0.0 && p > 1 && Delta(previous) > 0.0
    requires Delta(current) == Gap(fastLine, previous.signal, p)
    ensures (Delta(current) - Delta(previous)) * scaler > 1.0 <==> RisesTooHigh(fastLine, previous, p, scaler)
    ensures RisesTooHigh(fastLine, previous, p, scaler) ==> Delta(current) > Delta(previous)
  {
    var c, x, d := 1.0 - Smoothing(p), fastLine - previous.signal, Delta(previous);
    GapIsScaledStep(fastLine, previous.signal, p);
    StepForOne(c, scaler, x, d);
    hide Gap, Smoothing;
    SignOfProduct(scaler, Delta(current) - d);
    assert scaler * (Delta(current) - d) == (Delta(current) - d) * scaler;
  }

  /** On the aggregated windows no confidence exceeds one, but for a momentum advice under a positive scaler on a
      fast line that has risen too high. None is negative unless the scaler is. */
  lemma ConfidenceOnWindows(
    cs: seq<Candle>, w: nat, ps: Periods, minute: int, canSell: bool, canBuy: bool, scaler: real)
    requires 0 < w && cs != [] && Guard(WindowsOf(cs, w, ps), minute)
    ensures var i := |cs| - 1;
            && i >= w
            && var previous := WindowAt(cs, w, ps, i - w);
               var fastLine := FastLineAt(cs, w, ps, i);
               var res := Analyze(WindowsOf(cs, w, ps), minute, canSell, canBuy, scaler);
               && res.Success?
               && (res.value.confidence < 0.0 <==> scaler < 0.0 && res.value.act != NoAction)
               && (res.value.confidence > 1.0 <==> scaler > 0.0 && RisesTooHigh(fastLine, previous, ps.signal, scaler))
               && (res.value.confidence > 1.0 ==> res.value.act == Hold)
               && (res.value.confidence == 0.0 <==> scaler == 0.0 || res.value.act == NoAction)
  {
    hide Guard, WindowAt, FastLineAt, Gap, Smoothing, ExponentialMovingAverage, Analyze, RisesTooHigh, Advise, Delta;
    var i := |cs| - 1;
    ReadsOwnPredecessor(cs, w, ps, minute, canSell, canBuy, scaler);
    DeltaIsGap(cs, w, ps, i);
    ConfidenceFromGap(WindowAt(cs, w, ps, i), WindowAt(cs, w, ps, i - w), ps.signal, canSell, canBuy, scaler,
                      FastLineAt(cs, w, ps, i));
  }

  lemma ConfidenceFromGap(
    current: Window, previous: Window, p: Period, canSell: bool, canBuy: bool, scaler: real, fastLine: real)
    requires Delta(current) == Gap(fastLine, previous.signal, p)
    ensures var d := Advise(current, previous, canSell, canBuy, scaler);
            && (d.confidence < 0.0 <==> scaler < 0.0 && d.act != NoAction)
            && (d.confidence > 1.0 <==> scaler > 0.0 && RisesTooHigh(fastLine, previous, p, scaler))
            && (d.confidence > 1.0 ==> d.act == Hold)
            && (d.confidence == 0.0 <==> scaler == 0.0 || d.act == NoAction)
  {
    hide Gap, Smoothing, RisesTooHigh;
    Confidence(current, previous, canSell, canBuy, scaler);
    GapIsScaledStep(fastLine, previous.signal, p);
    if scaler <= 0.0 {
    } else if p > 1 && Delta(previous) > 0.0 {
      MomentumIsHigh(current, previous, p, scaler, fastLine);
    } else {
      NeverTooHigh(fastLine, previous, p, scaler);
    }
  }

  lemma NeverTooHigh(fastLine: real, previous: Window, p: Period, scaler: real)
    requires scaler > 0.0 && (p == 1 || Delta(previous) <= 0.0)
    ensures !RisesTooHigh(fastLine, previous, p, scaler)
  {
  }

  lemma EmaOfThree(cs: seq<Candle>, p: Period)
    requires |cs| == 3
    ensures EmaAt(cs, 1, p, 1) == ExponentialMovingAverage(cs[1].close, cs[0].close, p)
    ensures EmaAt(cs, 1, p, 2) == ExponentialMovingAverage(cs[2].close, EmaAt(cs, 1, p, 1), p)
  {
    OneMinuteSpan(cs[0]);
    assert Minutes(cs, 1, 0) == [cs[0]];
    assert EmaAt(cs, 1, p, 0) == cs[0].close;
  }

  lemma SignalOfThree(cs: seq<Candle>, ps: Periods)
    requires |cs| == 3
    ensures SignalAt(cs, 1, ps, 1) == ExponentialMovingAverage(FastLineAt(cs, 1, ps, 1), 0.0, ps.signal)
    ensures SignalAt(cs, 1, ps, 2) ==
            ExponentialMovingAverage(FastLineAt(cs, 1, ps, 2), SignalAt(cs, 1, ps, 1), ps.signal)
  {
    hide FastLineAt, ExponentialMovingAverage;
    assert SignalAt(cs, 1, ps, 0) == 0.0;
  }

  lemma EmaOfPeriod(price: real, previous: real)
    ensures ExponentialMovingAverage(price, previous, 1) == price
    ensures ExponentialMovingAverage(price, previous, 3) == (price + previous) / 2.0
  {
    assert Smoothing(1) == 1.0 && Smoothing(3) == 0.5;
  }

  lemma SurgeWindows(cs: seq<Candle>, ps: Periods)
    requires |cs| == 3 && cs[0].close == 100.0 && cs[1].close == 104.0 && cs[2].close == 500.0
    requires ps.fast == 1 && ps.slow == 3 && ps.signal == 3
    ensures FastLineAt(cs, 1, ps, 1) == 2.0 && SignalAt(cs, 1, ps, 1) == 1.0
    ensures FastLineAt(cs, 1, ps, 2) == 199.0 && SignalAt(cs, 1, ps, 2) == 100.0
  {
    hide EmaAt, SignalAt, ExponentialMovingAverage;
    EmaOfThree(cs, ps.fast);
    EmaOfThree(cs, ps.slow);
    SignalOfThree(cs, ps);
    EmaOfPeriod(104.0, 100.0);
    EmaOfPeriod(500.0, 104.0);
    EmaOfPeriod(500.0, 102.0);
    EmaOfPeriod(2.0, 0.0);
    EmaOfPeriod(199.0, 1.0);
  }

  lemma SurgeAdvice(cs: seq<Candle>, ps: Periods, canSell: bool, canBuy: bool, scaler: real)
    requires |cs| == 3 && cs[0].close == 100.0 && cs[1].close == 104.0 && cs[2].close == 500.0
    requires ps.fast == 1 && ps.slow == 3 && ps.signal == 3
    ensures Analyze(WindowsOf(cs, 1, ps), 0, canSell, canBuy, scaler) == Success(Decision(Hold, 98.0 * scaler))
  {
    hide FastLineAt, SignalAt, EmaAt, Analyze, ExponentialMovingAverage, Mean, SumSquares;
    SurgeWindows(cs, ps);
    assert Guard(WindowsOf(cs, 1, ps), 0);
    ReadsOwnPredecessor(cs, 1, ps, 0, canSell, canBuy, scaler);
    assert Delta(WindowAt(cs, 1, ps, 2)) == 99.0 && Delta(WindowAt(cs, 1, ps, 1)) == 1.0;
  }

  /** Three one-minute candles after which the analyzer holds with a confidence of 98 times the scaler: 490 for its
      default of five, and a negative one for a negative scaler. */
  lemma MomentumIsUnclamped(canSell: bool, canBuy: bool, scaler: real) returns (cs: seq<Candle>, ps: Periods)
    ensures |cs| == 3 && cs[0].close == 100.0 && cs[1].close == 104.0 && cs[2].close == 500.0
    ensures ps == Periods(1, 3, 3)
    ensures Analyze(WindowsOf(cs, 1, ps), 0, canSell, canBuy, scaler) == Success(Decision(Hold, 98.0 * scaler))
  {
    cs := [Flat(100.0), Flat(104.0), Flat(500.0)];
    ps := Periods(1, 3, 3);
    hide Analyze, WindowsOf;
    SurgeAdvice(cs, ps, canSell, canBuy, scaler);
  }

  function Flat(price: real): Candle {
    Candle(price, price, price, price, 0)
  }
}
