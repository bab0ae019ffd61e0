/**
 The sliding windows of data/aggregate.cc.

 `WindowAt` says, from the candles alone, what window i of a list should hold. The class `Aggregations` runs
 the source's incremental code and is proved to produce exactly those windows. Prices and averages are reals;
 the standard deviation is represented by its square.
 */
module Aggregate {
  import opened Arithmetic
  import opened Wrappers
  import opened Ema
  import V = Vector

  datatype Candle = Candle(open: real, close: real, high: real, low: real, volume: int)

  datatype Window = Window(
    candle: Candle, count: nat, movingAverage: real, variance: real,
    fast: real, slow: real, fastLine: real, signal: real)

  datatype Periods = Periods(fast: Period, slow: Period, signal: Period)

  // ---------------------------------------------------------------- what the windows should hold

  function SumClose(cs: seq<Candle>): real {
    if cs == [] then 0.0 else SumClose(cs[..|cs| - 1]) + cs[|cs| - 1].close
  }

  function SumVolume(cs: seq<Candle>): int {
    if cs == [] then 0 else SumVolume(cs[..|cs| - 1]) + cs[|cs| - 1].volume
  }

  function SumSquares(cs: seq<Candle>, mean: real): real {
    if cs == [] then 0.0
    else
      var diff := cs[|cs| - 1].close - mean;
      SumSquares(cs[..|cs| - 1], mean) + diff * diff
  }

  /** The highest high, or 0 if all are lower. */
  function HighFromZero(cs: seq<Candle>): real {
    if cs == [] then 0.0 else MaxReal(HighFromZero(cs[..|cs| - 1]), cs[|cs| - 1].high)
  }

  /** The lowest low, or 0 if all are higher. */
  function LowFromZero(cs: seq<Candle>): real {
    if cs == [] then 0.0 else MinReal(LowFromZero(cs[..|cs| - 1]), cs[|cs| - 1].low)
  }

  function Mean(cs: seq<Candle>): real
    requires cs != []
  {
    SumClose(cs) / |cs| as real
  }

  /** The minutes window i of width w covers. */
  function Minutes(cs: seq<Candle>, w: nat, i: nat): (span: seq<Candle>)
    requires 0 < w && i < |cs|
    ensures span != [] && |span| == Min(w, i + 1) && span[|span| - 1] == cs[i]
  {
    cs[if i + 1 <= w then 0 else i + 1 - w..i + 1]
  }

  /** The moving averages of window i build on window i - w; the first w start from their own mean. */
  function EmaAt(cs: seq<Candle>, w: nat, p: Period, i: nat): real
    requires 0 < w && i < |cs|
  {
    if i < w then Mean(Minutes(cs, w, i)) else ExponentialMovingAverage(cs[i].close, EmaAt(cs, w, p, i - w), p)
  }

  function FastLineAt(cs: seq<Candle>, w: nat, ps: Periods, i: nat): real
    requires 0 < w && i < |cs|
  {
    EmaAt(cs, w, ps.fast, i) - EmaAt(cs, w, ps.slow, i)
  }

  function SignalAt(cs: seq<Candle>, w: nat, ps: Periods, i: nat): real
    requires 0 < w && i < |cs|
  {
    if i < w then 0.0
    else ExponentialMovingAverage(FastLineAt(cs, w, ps, i), SignalAt(cs, w, ps, i - w), ps.signal)
  }

  function CandleAt(cs: seq<Candle>, w: nat, i: nat): Candle
    requires 0 < w && i < |cs|
  {
    var span := Minutes(cs, w, i);
    if w == 1 then cs[i]
    else Candle(0.0, cs[i].close, HighFromZero(span), LowFromZero(span), SumVolume(span))
  }

  /** Window i of the list with windows of w minutes. The one-minute list keeps the candle itself. */
  function WindowAt(cs: seq<Candle>, w: nat, ps: Periods, i: nat): Window
    requires 0 < w && i < |cs|
  {
    var span := Minutes(cs, w, i);
    Window(CandleAt(cs, w, i), |span|, Mean(span), SumSquares(span, Mean(span)) / |span| as real,
           EmaAt(cs, w, ps.fast, i), EmaAt(cs, w, ps.slow, i), FastLineAt(cs, w, ps, i), SignalAt(cs, w, ps, i))
  }

  function WindowsOf(cs: seq<Candle>, w: nat, ps: Periods): (ws: seq<Window>)
    requires 0 < w
    ensures |ws| == |cs|
    ensures forall i :: 0 <= i < |cs| ==> ws[i] == WindowAt(cs, w, ps, i)
  {
    seq(|cs|, i requires 0 <= i < |cs| => WindowAt(cs, w, ps, i))
  }

  // ---------------------------------------------------------------- windows never change

  lemma MinutesStable(cs: seq<Candle>, c: Candle, w: nat, i: nat)
    requires 0 < w && i < |cs|
    ensures Minutes(cs + [c], w, i) == Minutes(cs, w, i)
  {
  }

  lemma {:induction false} EmaStable(cs: seq<Candle>, c: Candle, w: nat, p: Period, i: nat)
    requires 0 < w && i < |cs|
    ensures EmaAt(cs + [c], w, p, i) == EmaAt(cs, w, p, i)
  {
    MinutesStable(cs, c, w, i);
    if i >= w {
      EmaStable(cs, c, w, p, i - w);
    }
  }

  lemma {:induction false} SignalStable(cs: seq<Candle>, c: Candle, w: nat, ps: Periods, i: nat)
    requires 0 < w && i < |cs|
    ensures SignalAt(cs + [c], w, ps, i) == SignalAt(cs, w, ps, i)
  {
    EmaStable(cs, c, w, ps.fast, i);
    EmaStable(cs, c, w, ps.slow, i);
    if i >= w {
      SignalStable(cs, c, w, ps, i - w);
    }
  }

  /** A new minute adds one window to a list and changes none. */
  lemma WindowsExtend(cs: seq<Candle>, c: Candle, w: nat, ps: Periods)
    requires 0 < w
    ensures WindowsOf(cs + [c], w, ps) == WindowsOf(cs, w, ps) + [WindowAt(cs + [c], w, ps, |cs|)]
  {
    forall i | 0 <= i < |cs| ensures WindowAt(cs + [c], w, ps, i) == WindowAt(cs, w, ps, i) {
      MinutesStable(cs, c, w, i);
      EmaStable(cs, c, w, ps.fast, i);
      EmaStable(cs, c, w, ps.slow, i);
      SignalStable(cs, c, w, ps, i);
    }
  }

  // ---------------------------------------------------------------- the source's code

  function MaybeGetPrevious(windows: seq<Window>, offset: int): Option<Window>
    requires 0 < offset
  {
    if |windows| < offset then None else V.At(windows, -offset)
  }

  /** The predecessor of the window about to be added is the one `offset` places before it. */
  lemma PreviousIsStrided(windows: seq<Window>, offset: int)
    requires 0 < offset
    ensures MaybeGetPrevious(windows, offset) ==
            if |windows| >= offset then Some(windows[|windows| - offset]) else None
  {
    V.AtCountsBack(windows, offset - 1);
  }

  method CalculateMacd(w: Window, previous: Option<Window>, ps: Periods) returns (r: Window)
    ensures r.candle == w.candle && r.count == w.count
    ensures r.movingAverage == w.movingAverage && r.variance == w.variance
    ensures Builds(r, w.movingAverage, previous, ps)
  {
    r := w;
    match previous
    case Some(before) =>
      r := r.(fast := ExponentialMovingAverage(r.candle.close, before.fast, ps.fast));
      r := r.(slow := ExponentialMovingAverage(r.candle.close, before.slow, ps.slow));
      r := r.(fastLine := r.fast - r.slow);
      r := r.(signal := ExponentialMovingAverage(r.fastLine, before.signal, ps.signal));
    case None =>
      r := r.(fast := r.movingAverage, slow := r.movingAverage, fastLine := 0.0, signal := 0.0);
  }

  method ToWindow(candle: Candle, previous: Option<Window>, ps: Periods) returns (r: Window)
    ensures r.candle == candle && r.count == 1 && r.movingAverage == candle.close && r.variance == 0.0
    ensures Builds(r, candle.close, previous, ps)
  {
    r := CalculateMacd(Window(candle, 1, candle.close, 0.0, 0.0, 0.0, 0.0, 0.0), previous, ps);
  }

  /** Folds one more minute into a window; the moving average is a running sum until DoAggregate divides. */
  function AddNextWindow(a: Window, b: Window): Window {
    a.(count := a.count + b.count,
       candle := a.candle.(close := b.candle.close,
                           high := MaxReal(a.candle.high, b.candle.high),
                           low := MinReal(a.candle.low, b.candle.low),
                           volume := a.candle.volume + b.candle.volume),
       movingAverage := a.movingAverage + b.candle.close)
  }

  const BLANK := Window(Candle(0.0, 0.0, 0.0, 0.0, 0), 0, 0.0, 0.0, 0.0, 0.0, 0.0, 0.0)

  function CandlesOf(ones: seq<Window>): (cs: seq<Candle>)
    ensures |cs| == |ones|
    ensures forall i :: 0 <= i < |ones| ==> cs[i] == ones[i].candle
  {
    seq(|ones|, i requires 0 <= i < |ones| => ones[i].candle)
  }

  /** The first loop: everything but the averages. */
  method Combine(ones: seq<Window>) returns (w: Window)
    requires ones != [] && forall i :: 0 <= i < |ones| ==> ones[i].count == 1
    ensures var span := CandlesOf(ones);
            && w.count == |span| && w.movingAverage == SumClose(span)
            && w.candle == Candle(0.0, span[|span| - 1].close, HighFromZero(span), LowFromZero(span), SumVolume(span))
  {
    w := BLANK;
    ghost var span := CandlesOf(ones);
    for i := 0 to |ones|
      invariant w.count == i && w.movingAverage == SumClose(span[..i])
      invariant w.candle == Candle(0.0, if i == 0 then 0.0 else span[i - 1].close,
                                   HighFromZero(span[..i]), LowFromZero(span[..i]), SumVolume(span[..i]))
    {
      assert span[..i + 1][..i] == span[..i];
      w := AddNextWindow(w, ones[i]);
    }
    assert span[..|ones|] == span;
  }

  /** The second loop. */
  method SquaredDifferences(ones: seq<Window>, mean: real) returns (sum: real)
    ensures sum == SumSquares(CandlesOf(ones), mean)
  {
    sum := 0.0;
    ghost var span := CandlesOf(ones);
    for i := 0 to |ones|
      invariant sum == SumSquares(span[..i], mean)
    {
      assert span[..i + 1][..i] == span[..i];
      var diff := ones[i].candle.close - mean;
      sum := sum + diff * diff;
    }
    assert span[..|ones|] == span;
  }

  method DoAggregate(ones: seq<Window>, previous: Option<Window>, ps: Periods) returns (r: Window)
    requires ones != [] && forall i :: 0 <= i < |ones| ==> ones[i].count == 1
    ensures var span := CandlesOf(ones);
            && r.count == |span|
            && r.candle == Candle(0.0, span[|span| - 1].close, HighFromZero(span), LowFromZero(span), SumVolume(span))
            && r.movingAverage == Mean(span)
            && r.variance == SumSquares(span, Mean(span)) / |span| as real
            && Builds(r, Mean(span), previous, ps)
  {
    var w := Combine(ones);
    w := w.(movingAverage := w.movingAverage / |ones| as real);
    var sqDiffSum := SquaredDifferences(ones, w.movingAverage);
    w := w.(variance := sqDiffSum / |ones| as real);
    r := CalculateMacd(w, previous, ps);
  }

  lemma OneMinuteSpan(c: Candle)
    ensures Mean([c]) == c.close && SumSquares([c], c.close) / 1.0 == 0.0
  {
    assert [c][..0] == [];
    assert SumClose([c]) == c.close;
    assert SumSquares([c], c.close) == 0.0;
  }

  /** What a window's averages are when they build on the previous window, if there is one. */
  predicate Builds(r: Window, mean: real, previous: Option<Window>, ps: Periods) {
    && r.fastLine == r.fast - r.slow
    && match previous
       case None => r.fast == mean && r.slow == mean && r.signal == 0.0
       case Some(before) =>
         && r.fast == ExponentialMovingAverage(r.candle.close, before.fast, ps.fast)
         && r.slow == ExponentialMovingAverage(r.candle.close, before.slow, ps.slow)
         && r.signal == ExponentialMovingAverage(r.fastLine, before.signal, ps.signal)
  }

  /** Building on window i - w of the minutes before gives the averages of window i of the minutes so far. */
  lemma BuildsOnPredecessor(cs: seq<Candle>, c: Candle, w: int, ps: Periods, r: Window)
    requires w > 0 && r.candle.close == c.close
    requires Builds(r, Mean(Minutes(cs + [c], w, |cs|)), MaybeGetPrevious(WindowsOf(cs, w, ps), w), ps)
    ensures var i := |cs|;
            && r.fast == EmaAt(cs + [c], w, ps.fast, i) && r.slow == EmaAt(cs + [c], w, ps.slow, i)
            && r.fastLine == FastLineAt(cs + [c], w, ps, i) && r.signal == SignalAt(cs + [c], w, ps, i)
  {
    var i := |cs|;
    PreviousIsStrided(WindowsOf(cs, w, ps), w);
    if i >= w {
      EmaStable(cs, c, w, ps.fast, i - w);
      EmaStable(cs, c, w, ps.slow, i - w);
      SignalStable(cs, c, w, ps, i - w);
    }
  }

  /** The last w one-minute windows are those of the minutes of the window ending there. */
  lemma LastMinutes(cs: seq<Candle>, w: int, ps: Periods)
    requires w > 1 && cs != []
    ensures var ones := V.LastN(WindowsOf(cs, 1, ps), w);
            && ones != [] && (forall k :: 0 <= k < |ones| ==> ones[k].count == 1)
            && CandlesOf(ones) == Minutes(cs, w, |cs| - 1)
  {
    hide Mean, SumSquares, EmaAt, SignalAt, FastLineAt;
    V.LastNIsSuffix(WindowsOf(cs, 1, ps), w);
  }

  class Aggregations {
    const ps: Periods
    var oneMinute: seq<Window>
    var fiveMinute: seq<Window>
    var twentyMinute: seq<Window>
    /** The minutes added so far. */
    ghost var candles: seq<Candle>

    /** The three lists hold exactly the windows of the minutes added. */
    ghost predicate Valid()
      reads this
    {
      && oneMinute == WindowsOf(candles, 1, ps)
      && fiveMinute == WindowsOf(candles, 5, ps)
      && twentyMinute == WindowsOf(candles, 20, ps)
    }

    constructor (ps: Periods)
      ensures Valid() && candles == [] && this.ps == ps
    {
      this.ps := ps;
      oneMinute, fiveMinute, twentyMinute, candles := [], [], [], [];
    }

    /** The window of w minutes ending in the minute last added to the one-minute list. */
    method NextWide(w: int, windows: seq<Window>, ghost cs: seq<Candle>, ghost c: Candle) returns (r: Window)
      requires w > 1 && windows == WindowsOf(cs, w, ps) && oneMinute == WindowsOf(cs + [c], 1, ps)
      ensures r == WindowAt(cs + [c], w, ps, |cs|)
    {
      hide Mean, SumClose, SumVolume, SumSquares, HighFromZero, LowFromZero, Builds, EmaAt, SignalAt, FastLineAt;
      var ones := V.LastN(oneMinute, w);
      LastMinutes(cs + [c], w, ps);
      r := DoAggregate(ones, MaybeGetPrevious(windows, w), ps);
      BuildsOnPredecessor(cs, c, w, ps, r);
    }

    /** The window of the minute itself. */
    method NextMinute(candle: Candle, ghost cs: seq<Candle>) returns (r: Window)
      requires oneMinute == WindowsOf(cs, 1, ps)
      ensures r == WindowAt(cs + [candle], 1, ps, |cs|)
    {
      OneMinuteSpan(candle);
      assert Minutes(cs + [candle], 1, |cs|) == [candle];
      r := ToWindow(candle, MaybeGetPrevious(oneMinute, 1), ps);
      BuildsOnPredecessor(cs, candle, 1, ps, r);
    }

    method AddNextMinute(candle: Candle)
      requires Valid()
      modifies this
      ensures Valid() && candles == old(candles) + [candle]
    {
      ghost var cs := candles;
      var one := NextMinute(candle, cs);
      WindowsExtend(cs, candle, 1, ps);
      oneMinute := oneMinute + [one];
      var five := NextWide(5, fiveMinute, cs, candle);
      WindowsExtend(cs, candle, 5, ps);
      fiveMinute := fiveMinute + [five];
      var twenty := NextWide(20, twentyMinute, cs, candle);
      WindowsExtend(cs, candle, 20, ps);
      twentyMinute := twentyMinute + [twenty];
      candles := candles + [candle];
    }
  }

  method AggregateAll(cs: seq<Candle>, ps: Periods) returns (aggr: Aggregations)
    ensures fresh(aggr) && aggr.Valid() && aggr.candles == cs && aggr.ps == ps
  {
    aggr := new Aggregations(ps);
    for i := 0 to |cs|
      invariant fresh(aggr) && aggr.Valid() && aggr.candles == cs[..i] && aggr.ps == ps
    {
      aggr.AddNextMinute(cs[i]);
      assert cs[..i + 1] == cs[..i] + [cs[i]];
    }
    assert cs[..|cs|] == cs;
  }
}
