/** What the moving averages of the sliding windows amount to: closed form, bounds, and the two fields whose
    name promises more than the code keeps. */
module MovingAverages {
  import opened Arithmetic
  import opened Ema
  import opened Aggregate

  // ---------------------------------------------------------------- the strided chain

  /** The closes at i, i - w, i - 2w, ... down to the last index not below w, newest first. */
  function StridedCloses(cs: seq<Candle>, w: nat, i: nat): seq<real>
    requires 0 < w && i < |cs|
  {
    if i < w then [] else [cs[i].close] + StridedCloses(cs, w, i - w)
  }

  lemma DivModStep(i: nat, w: nat)
    requires 0 < w <= i
    ensures i / w == (i - w) / w + 1 && i % w == (i - w) % w
  {
    var q, r := (i - w) / w, (i - w) % w;
    assert i == (q + 1) * w + r;
    DivModUnique(i, w, q + 1, r);
  }

  lemma StrideBack(i: int, t: int, w: int)
    ensures (i - w) - (t - 1) * w == i - t * w
  {
  }

  /** There are i / w closes in the chain. */
  lemma {:induction false} StridedCount(cs: seq<Candle>, w: nat, i: nat)
    requires 0 < w && i < |cs|
    ensures |StridedCloses(cs, w, i)| == i / w
  {
    if i >= w {
      StridedCount(cs, w, i - w);
      DivModStep(i, w);
    } else {
      DivModUnique(i, w, 0, i);
    }
  }

  /** Entry t of the chain is the close t strides back. */
  lemma {:induction false} StridedClose(cs: seq<Candle>, w: nat, i: nat, t: nat)
    requires 0 < w && i < |cs| && t < |StridedCloses(cs, w, i)|
    ensures 0 <= i - t * w && StridedCloses(cs, w, i)[t] == cs[i - t * w].close
  {
    if t > 0 {
      StridedClose(cs, w, i - w, t - 1);
      StrideBack(i, t, w);
    }
  }

  /** The averages of window i are the explicit exponential average of the closes at i, i - w, i - 2w, ...
      seeded with the mean of window i mod w: every minute counts in one chain only. */
  lemma {:induction false} EmaIsStrided(cs: seq<Candle>, w: nat, p: Period, i: nat)
    requires 0 < w && i < |cs|
    ensures i % w < |cs|
    ensures EmaAt(cs, w, p, i) ==
            ExplicitEma(StridedCloses(cs, w, i), Mean(Minutes(cs, w, i % w)), Smoothing(p), 1.0 - Smoothing(p))
  {
    if i >= w {
      DivModStep(i, w);
      EmaIsStrided(cs, w, p, i - w);
      EmaExtends(cs[i].close, StridedCloses(cs, w, i - w), Mean(Minutes(cs, w, i % w)), p);
    } else {
      DivModUnique(i, w, 0, i);
    }
  }

  /** The fast lines at i, i - w, i - 2w, ... down to the last index not below w, newest first. */
  function StridedLines(cs: seq<Candle>, w: nat, ps: Periods, i: nat): seq<real>
    requires 0 < w && i < |cs|
  {
    if i < w then [] else [FastLineAt(cs, w, ps, i)] + StridedLines(cs, w, ps, i - w)
  }

  /** The signal line is the explicit exponential average of the fast lines of its own chain, seeded with zero. */
  lemma {:induction false} SignalIsStrided(cs: seq<Candle>, w: nat, ps: Periods, i: nat)
    requires 0 < w && i < |cs|
    ensures SignalAt(cs, w, ps, i) ==
            ExplicitEma(StridedLines(cs, w, ps, i), 0.0, Smoothing(ps.signal), 1.0 - Smoothing(ps.signal))
  {
    hide FastLineAt, Smoothing;
    if i >= w {
      SignalIsStrided(cs, w, ps, i - w);
      EmaExtends(FastLineAt(cs, w, ps, i), StridedLines(cs, w, ps, i - w), 0.0, ps.signal);
    }
  }

  /** The averages of a window, each with its own period, and the fast line, which is their difference. */
  lemma WindowIsStrided(cs: seq<Candle>, w: nat, ps: Periods, i: nat)
    requires 0 < w && i < |cs|
    ensures i % w < |cs|
    ensures var win, ys, seed := WindowAt(cs, w, ps, i), StridedCloses(cs, w, i), Mean(Minutes(cs, w, i % w));
            && win.fast == ExplicitEma(ys, seed, Smoothing(ps.fast), 1.0 - Smoothing(ps.fast))
            && win.slow == ExplicitEma(ys, seed, Smoothing(ps.slow), 1.0 - Smoothing(ps.slow))
            && win.fastLine == win.fast - win.slow
            && win.signal ==
               ExplicitEma(StridedLines(cs, w, ps, i), 0.0, Smoothing(ps.signal), 1.0 - Smoothing(ps.signal))
  {
    EmaIsStrided(cs, w, ps.fast, i);
    EmaIsStrided(cs, w, ps.slow, i);
    SignalIsStrided(cs, w, ps, i);
    hide Smoothing, EmaAt, SignalAt, Mean, SumSquares, CandleAt, StridedLines, StridedCloses;
  }

  // ---------------------------------------------------------------- sums

  /** The sums of a span are additive over its parts, and on one candle are its close, its volume, and its squared
      distance from the mean. */
  lemma {:induction false} SumsAreAdditive(a: seq<Candle>, b: seq<Candle>, mean: real)
    ensures SumClose(a + b) == SumClose(a) + SumClose(b)
    ensures SumVolume(a + b) == SumVolume(a) + SumVolume(b)
    ensures SumSquares(a + b, mean) == SumSquares(a, mean) + SumSquares(b, mean)
  {
    hide SumClose, SumVolume, SumSquares;
    if b == [] {
      SumsOfNone(mean);
      assert a + b == a;
    } else {
      var init, c := b[..|b| - 1], b[|b| - 1];
      SumsAreAdditive(a, init, mean);
      SumsAppend(a + init, c, mean);
      SumsAppend(init, c, mean);
      assert b == init + [c] && a + b == (a + init) + [c];
    }
  }

  lemma SumsOfNone(mean: real)
    ensures SumClose([]) == 0.0 && SumVolume([]) == 0 && SumSquares([], mean) == 0.0
  {
  }

  lemma SumsAppend(a: seq<Candle>, c: Candle, mean: real)
    ensures SumClose(a + [c]) == SumClose(a) + c.close
    ensures SumVolume(a + [c]) == SumVolume(a) + c.volume
    ensures SumSquares(a + [c], mean) == SumSquares(a, mean) + (c.close - mean) * (c.close - mean)
  {
    assert (a + [c])[..|a|] == a;
  }

  lemma SumsOfOne(c: Candle, mean: real)
    ensures SumClose([c]) == c.close && SumVolume([c]) == c.volume
    ensures SumSquares([c], mean) == (c.close - mean) * (c.close - mean)
  {
    assert [c][..0] == [];
  }

  /** Window i covers the minutes max(0, i - w + 1) to i, and its count, mean and variance are theirs. */
  lemma WindowCoversMinutes(cs: seq<Candle>, w: nat, ps: Periods, i: nat)
    requires 0 < w && i < |cs|
    ensures var from := if i + 1 <= w then 0 else i + 1 - w;
            var win, span := WindowAt(cs, w, ps, i), cs[from..i + 1];
            && win.count == |span| && win.candle.close == cs[i].close
            && win.movingAverage * |span| as real == SumClose(span)
            && win.variance * |span| as real == SumSquares(span, win.movingAverage)
            && (w > 1 ==> win.candle.volume == SumVolume(span) && win.candle.open == 0.0)
            && (w == 1 ==> win.candle == cs[i] && span == [cs[i]])
  {
    hide EmaAt, SignalAt, FastLineAt, SumSquares, SumClose, Mean;
    var span := Minutes(cs, w, i);
    MeanBack(span);
    QuotientBack(SumSquares(span, Mean(span)), |span| as real);
  }

  lemma MeanBack(span: seq<Candle>)
    requires span != []
    ensures Mean(span) * |span| as real == SumClose(span)
  {
    QuotientBack(SumClose(span), |span| as real);
  }

  lemma QuotientBack(x: real, n: real)
    requires n > 0.0
    ensures (x / n) * n == x
  {
  }

  // ---------------------------------------------------------------- bounds

  predicate ClosesWithin(cs: seq<Candle>, lo: real, hi: real) {
    forall j :: 0 <= j < |cs| ==> lo <= cs[j].close <= hi
  }

  lemma {:induction false} SumWithin(cs: seq<Candle>, lo: real, hi: real)
    requires ClosesWithin(cs, lo, hi)
    ensures |cs| as real * lo <= SumClose(cs) <= |cs| as real * hi
  {
    if cs != [] {
      var n := |cs| - 1;
      SumWithin(cs[..n], lo, hi);
      assert |cs| as real == n as real + 1.0;
    }
  }

  lemma Scale(n: real, a: real, b: real)
    requires n > 0.0
    ensures a < b ==> n * a < n * b
  {
    if a < b {
      assert n * (b - a) > 0.0;
    }
  }

  lemma QuotientWithin(x: real, n: real, lo: real, hi: real)
    requires n > 0.0 && n * lo <= x <= n * hi
    ensures lo <= x / n <= hi
  {
    var q := x / n;
    assert n * q == x;
    Scale(n, q, lo);
    Scale(n, hi, q);
  }

  lemma MeanWithin(cs: seq<Candle>, lo: real, hi: real)
    requires cs != [] && ClosesWithin(cs, lo, hi)
    ensures lo <= Mean(cs) <= hi
  {
    SumWithin(cs, lo, hi);
    QuotientWithin(SumClose(cs), |cs| as real, lo, hi);
  }

  lemma ShorterPrefixWithin(cs: seq<Candle>, n: nat, m: nat, lo: real, hi: real)
    requires n <= m <= |cs| && ClosesWithin(cs[..m], lo, hi)
    ensures ClosesWithin(cs[..n], lo, hi)
  {
    forall j | 0 <= j < n ensures lo <= cs[..n][j].close <= hi {
      assert cs[..n][j] == cs[..m][j];
    }
  }

  /** Both averages stay between any bounds of the closes seen so far. */
  lemma {:induction false} EmaWithin(cs: seq<Candle>, w: nat, p: Period, i: nat, lo: real, hi: real)
    requires 0 < w && i < |cs| && ClosesWithin(cs[..i + 1], lo, hi)
    ensures lo <= EmaAt(cs, w, p, i) <= hi
  {
    assert cs[..i + 1][i] == cs[i];
    if i < w {
      var span := Minutes(cs, w, i);
      assert span == cs[..i + 1];
      MeanWithin(span, lo, hi);
    } else {
      ShorterPrefixWithin(cs, i - w + 1, i + 1, lo, hi);
      EmaWithin(cs, w, p, i - w, lo, hi);
      EmaBetween(cs[i].close, EmaAt(cs, w, p, i - w), p, lo, hi);
    }
  }

  /** The fast line and the signal line never exceed the range of the closes seen so far. */
  lemma {:induction false} LinesWithin(cs: seq<Candle>, w: nat, ps: Periods, i: nat, lo: real, hi: real)
    requires 0 < w && i < |cs| && ClosesWithin(cs[..i + 1], lo, hi)
    ensures -(hi - lo) <= FastLineAt(cs, w, ps, i) <= hi - lo
    ensures -(hi - lo) <= SignalAt(cs, w, ps, i) <= hi - lo
  {
    EmaWithin(cs, w, ps.fast, i, lo, hi);
    EmaWithin(cs, w, ps.slow, i, lo, hi);
    if i >= w {
      ShorterPrefixWithin(cs, i - w + 1, i + 1, lo, hi);
      LinesWithin(cs, w, ps, i - w, lo, hi);
      EmaBetween(FastLineAt(cs, w, ps, i), SignalAt(cs, w, ps, i - w), ps.signal, -(hi - lo), hi - lo);
    }
  }

  /** On a constant price every average is that price and both lines are zero. */
  lemma ConstantPriceIsFlat(cs: seq<Candle>, w: nat, ps: Periods, i: nat, price: real)
    requires 0 < w && i < |cs| && ClosesWithin(cs[..i + 1], price, price)
    ensures var win := WindowAt(cs, w, ps, i);
            win.movingAverage == win.fast == win.slow == price && win.fastLine == win.signal == 0.0
  {
    EmaWithin(cs, w, ps.fast, i, price, price);
    EmaWithin(cs, w, ps.slow, i, price, price);
    LinesWithin(cs, w, ps, i, price, price);
    var span := Minutes(cs, w, i);
    var from := i + 1 - |span|;
    forall j | 0 <= j < |span| ensures span[j].close == price {
      assert span[j] == cs[..i + 1][from + j];
    }
    MeanWithin(span, price, price);
  }

  // ---------------------------------------------------------------- highs and lows that start from zero

  predicate IsHighest(cs: seq<Candle>, x: real) {
    && (exists j :: 0 <= j < |cs| && cs[j].high == x)
    && (forall j :: 0 <= j < |cs| ==> cs[j].high <= x)
  }

  predicate IsLowest(cs: seq<Candle>, x: real) {
    && (exists j :: 0 <= j < |cs| && cs[j].low == x)
    && (forall j :: 0 <= j < |cs| ==> x <= cs[j].low)
  }

  lemma {:induction false} HighFromZeroIs(cs: seq<Candle>)
    ensures HighFromZero(cs) == 0.0 || exists j :: 0 <= j < |cs| && cs[j].high == HighFromZero(cs)
    ensures 0.0 <= HighFromZero(cs) && forall j :: 0 <= j < |cs| ==> cs[j].high <= HighFromZero(cs)
  {
    if cs != [] {
      var init := cs[..|cs| - 1];
      HighFromZeroIs(init);
      forall j | 0 <= j < |cs| ensures cs[j].high <= HighFromZero(cs) {
        assert j < |init| ==> init[j] == cs[j];
      }
      if HighFromZero(init) != 0.0 && HighFromZero(cs) == HighFromZero(init) {
        var j :| 0 <= j < |init| && init[j].high == HighFromZero(init);
        assert cs[j].high == HighFromZero(cs);
      }
    }
  }

  lemma {:induction false} LowFromZeroIs(cs: seq<Candle>)
    ensures LowFromZero(cs) == 0.0 || exists j :: 0 <= j < |cs| && cs[j].low == LowFromZero(cs)
    ensures LowFromZero(cs) <= 0.0 && forall j :: 0 <= j < |cs| ==> LowFromZero(cs) <= cs[j].low
  {
    if cs != [] {
      var init := cs[..|cs| - 1];
      LowFromZeroIs(init);
      forall j | 0 <= j < |cs| ensures LowFromZero(cs) <= cs[j].low {
        assert j < |init| ==> init[j] == cs[j];
      }
      if LowFromZero(init) != 0.0 && LowFromZero(cs) == LowFromZero(init) {
        var j :| 0 <= j < |init| && init[j].low == LowFromZero(init);
        assert cs[j].low == LowFromZero(cs);
      }
    }
  }

  /** The high of a wide window is the highest of its minutes' highs exactly when one of them is not negative,
      so always for prices. */
  lemma WideHighIsHighest(cs: seq<Candle>, w: nat, ps: Periods, i: nat)
    requires w > 1 && i < |cs|
    ensures var span := Minutes(cs, w, i);
            IsHighest(span, WindowAt(cs, w, ps, i).candle.high) <==>
            exists j :: 0 <= j < |span| && span[j].high >= 0.0
  {
    HighFromZeroIs(Minutes(cs, w, i));
  }

  /** The low of a wide window is the lowest of its minutes' lows exactly when one of them is not positive. For
      prices above zero it is therefore never the lowest: it is zero. */
  lemma WideLowIsLowest(cs: seq<Candle>, w: nat, ps: Periods, i: nat)
    requires w > 1 && i < |cs|
    ensures var span := Minutes(cs, w, i); var low := WindowAt(cs, w, ps, i).candle.low;
            && (IsLowest(span, low) <==> exists j :: 0 <= j < |span| && span[j].low <= 0.0)
            && ((forall j :: 0 <= j < |span| ==> span[j].low > 0.0) ==> low == 0.0)
  {
    LowFromZeroIs(Minutes(cs, w, i));
  }
}
