/**
 The pivot finder of data/analyzers/zig_zag.cc.

 `Scan` says what the scan has found after the first n candles; the constructor of `ZigZagAnalyzer` runs
 the source's loop and is proved against it. `buyBy` and `sellBy` are history: the candle that confirmed each
 pivot. Prices are reals.
 */
module ZigZag {
  import opened Analyzer

  datatype Candle = Candle(high: real, low: real, openedAt: int)

  datatype Trend = NoTrend | Up | Down

  datatype Scanned = Scanned(
    trend: Trend, lastHigh: real, lastLow: real, highIdx: nat, lowIdx: nat,
    buys: seq<nat>, sells: seq<nat>, buyBy: seq<nat>, sellBy: seq<nat>)

  function Start(cs: seq<Candle>): Scanned
    requires cs != []
  {
    Scanned(NoTrend, cs[0].high, cs[0].low, 0, 0, [], [], [], [])
  }

  function TurnUp(s: Scanned, c: Candle, i: nat): Scanned {
    s.(trend := Up, buys := s.buys + [s.lowIdx], buyBy := s.buyBy + [i], lastHigh := c.high, highIdx := i)
  }

  function TurnDown(s: Scanned, c: Candle, i: nat): Scanned {
    s.(trend := Down, sells := s.sells + [s.highIdx], sellBy := s.sellBy + [i], lastLow := c.low, lowIdx := i)
  }

  /** The candle's effect while no trend is known. The first downturn records no pivot. */
  function Undecided(s: Scanned, c: Candle, i: nat, threshold: real): Scanned {
    var t :=
      if c.high > s.lastHigh + threshold then TurnUp(s, c, i)
      else if c.low < s.lastLow - threshold then
        if |s.buys| > |s.sells| then TurnDown(s, c, i) else s.(trend := Down, lastLow := c.low, lowIdx := i)
      else s;
    if c.low < t.lastLow then t.(lastLow := c.low, lowIdx := i)
    else if c.high > t.lastHigh then t.(lastHigh := c.high, highIdx := i)
    else t
  }

  function Step(s: Scanned, c: Candle, i: nat, threshold: real): Scanned {
    match s.trend
    case NoTrend => Undecided(s, c, i, threshold)
    case Up =>
      if c.high > s.lastHigh then s.(lastHigh := c.high, highIdx := i)
      else if c.low < s.lastHigh - threshold then TurnDown(s, c, i)
      else s
    case Down =>
      if c.low < s.lastLow then s.(lastLow := c.low, lowIdx := i)
      else if c.high > s.lastLow + threshold then TurnUp(s, c, i)
      else s
  }

  function Scan(cs: seq<Candle>, threshold: real, n: nat): Scanned
    requires cs != [] && n <= |cs|
  {
    if n == 0 then Start(cs) else Step(Scan(cs, threshold, n - 1), cs[n - 1], n - 1, threshold)
  }

  // ---------------------------------------------------------------- what each pivot promises

  predicate NewHigh(cs: seq<Candle>, from: nat, y: nat)
    requires y < |cs|
  {
    forall z :: from <= z < y ==> cs[z].high < cs[y].high
  }

  predicate NewLow(cs: seq<Candle>, from: nat, y: nat)
    requires y < |cs|
  {
    forall z :: from <= z < y ==> cs[y].low < cs[z].low
  }

  /** No reversal is missed on an up leg entered at `from`: a candle before `to` either sets a new high or
      stays within the threshold of every high so far. */
  predicate QuietUp(cs: seq<Candle>, threshold: real, from: nat, to: nat)
    requires to <= |cs|
  {
    forall y :: from < y < to ==>
      NewHigh(cs, from, y) || (forall x :: from <= x < y ==> cs[y].low >= cs[x].high - threshold)
  }

  predicate QuietDown(cs: seq<Candle>, threshold: real, from: nat, to: nat)
    requires to <= |cs|
  {
    forall y :: from < y < to ==>
      NewLow(cs, from, y) || (forall x :: from <= x < y ==> cs[y].high <= cs[x].low + threshold)
  }

  /** A buy at `b`, confirmed at candle `at`, after the leg that starts at `from`. It is the lowest low of its
      leg up to the confirming candle, the first such, and when a sell came before (`hasSell`) the confirming candle
      counts too, the swing down from that sell exceeds the threshold, and the confirming candle is the first that
      reverses it. */
  predicate BuyOk(cs: seq<Candle>, threshold: real, hasSell: bool, sell: nat, sellBy: nat, b: nat, at: nat) {
    && b < at < |cs|
    && (forall j :: (if hasSell then sell + 1 else 0) <= j < at ==> cs[b].low <= cs[j].low)
    && (forall j :: (if hasSell then sell + 1 else 0) <= j < b ==> cs[b].low < cs[j].low)
    && (hasSell ==>
          && sell < sellBy <= b
          && cs[b].low <= cs[at].low
          && cs[sell].high - cs[b].low > threshold
          && cs[at].high > cs[b].low + threshold
          && QuietDown(cs, threshold, sellBy, at))
  }

  /** A sell at `t`, confirmed at candle `at`, after the buy at `b` confirmed by `buyBy`: the highest high
      strictly after the buy up to and with the confirming candle, the first such, more than the threshold above the
      buy. The confirming candle is the first to reverse the leg. */
  predicate SellOk(cs: seq<Candle>, threshold: real, b: nat, buyBy: nat, t: nat, at: nat) {
    && b < buyBy <= t < at < |cs|
    && (forall j :: b < j <= at ==> cs[j].high <= cs[t].high)
    && (forall j :: b < j < t ==> cs[j].high < cs[t].high)
    && cs[t].high - cs[b].low > threshold
    && cs[at].low < cs[t].high - threshold
    && QuietUp(cs, threshold, buyBy, at)
  }

  predicate Shape(s: Scanned) {
    && |s.buys| == |s.buyBy| && |s.sells| == |s.sellBy|
    && |s.buys| == |s.sells| + (if s.trend == Up then 1 else 0)
    && (s.trend == NoTrend ==> s.buys == [])
  }

  predicate BuyAt(s: Scanned, cs: seq<Candle>, threshold: real, k: nat)
    requires Shape(s) && k < |s.buys|
  {
    BuyOk(cs, threshold, k > 0, if k > 0 then s.sells[k - 1] else 0, if k > 0 then s.sellBy[k - 1] else 0,
          s.buys[k], s.buyBy[k])
  }

  predicate SellAt(s: Scanned, cs: seq<Candle>, threshold: real, k: nat)
    requires Shape(s) && k < |s.sells|
  {
    SellOk(cs, threshold, s.buys[k], s.buyBy[k], s.sells[k], s.sellBy[k])
  }

  predicate Pivots(s: Scanned, cs: seq<Candle>, threshold: real) {
    && Shape(s)
    && (forall k :: 0 <= k < |s.buys| ==> BuyAt(s, cs, threshold, k))
    && (forall k :: 0 <= k < |s.sells| ==> SellAt(s, cs, threshold, k))
  }

  /** The unfinished up leg: its running high is the highest since the buy, and no candle after it has
      retraced by more than the threshold. */
  predicate UpLeg(cs: seq<Candle>, threshold: real, b: nat, at: nat, top: nat, n: nat) {
    && b < at <= top < n <= |cs|
    && (forall j :: b < j < n ==> cs[j].high <= cs[top].high)
    && (forall j :: b < j < top ==> cs[j].high < cs[top].high)
    && (forall j :: top < j < n ==> cs[j].low >= cs[top].high - threshold)
    && cs[top].high - cs[b].low > threshold
    && QuietUp(cs, threshold, at, n)
  }

  predicate DownLeg(cs: seq<Candle>, threshold: real, hasSell: bool, sell: nat, sellBy: nat, bottom: nat, n: nat) {
    && bottom < n <= |cs|
    && (forall j :: (if hasSell then sell + 1 else 0) <= j < n ==> cs[bottom].low <= cs[j].low)
    && (forall j :: (if hasSell then sell + 1 else 0) <= j < bottom ==> cs[bottom].low < cs[j].low)
    && (forall j :: bottom < j < n ==> cs[j].high <= cs[bottom].low + threshold)
    && (hasSell ==>
          && sell < sellBy <= bottom
          && cs[sell].high - cs[bottom].low > threshold
          && QuietDown(cs, threshold, sellBy, n))
  }

  /** Before any trend: the running low is the lowest low, and no high is more than the threshold above the
      running high. */
  predicate NoLeg(cs: seq<Candle>, threshold: real, lastHigh: real, bottom: nat, n: nat) {
    && bottom <= n <= |cs| && bottom < |cs| && (n > 0 ==> bottom < n)
    && (forall j :: 0 <= j < n ==> cs[bottom].low <= cs[j].low && cs[j].high <= lastHigh + threshold)
    && (forall j :: 0 <= j < bottom ==> cs[bottom].low < cs[j].low)
    && cs[0].high <= lastHigh && cs[bottom].low <= cs[0].low
  }

  predicate LastLeg(s: Scanned, cs: seq<Candle>, threshold: real, n: nat)
    requires Shape(s)
  {
    match s.trend
    case NoTrend =>
      NoLeg(cs, threshold, s.lastHigh, s.lowIdx, n) && s.lastLow == cs[s.lowIdx].low && (n == 0 ==> s == Start(cs))
    case Up =>
      var b := |s.buys| - 1;
      UpLeg(cs, threshold, s.buys[b], s.buyBy[b], s.highIdx, n) && s.lastHigh == cs[s.highIdx].high
    case Down =>
      var t := |s.sells| - 1;
      && DownLeg(cs, threshold, t >= 0, if t >= 0 then s.sells[t] else 0, if t >= 0 then s.sellBy[t] else 0,
                 s.lowIdx, n)
      && s.lastLow == cs[s.lowIdx].low
  }

  // ---------------------------------------------------------------- each candle keeps it

  lemma TurnUpKeeps(s: Scanned, cs: seq<Candle>, threshold: real, c: Candle, i: nat)
    requires Pivots(s, cs, threshold) && s.trend != Up
    requires var t := |s.sells| - 1;
             BuyOk(cs, threshold, t >= 0, if t >= 0 then s.sells[t] else 0, if t >= 0 then s.sellBy[t] else 0,
                   s.lowIdx, i)
    ensures Pivots(TurnUp(s, c, i), cs, threshold)
  {
    var s' := TurnUp(s, c, i);
    forall k | 0 <= k < |s'.buys| ensures BuyAt(s', cs, threshold, k) {
      if k < |s.buys| {
        assert BuyAt(s, cs, threshold, k);
      }
    }
    forall k | 0 <= k < |s'.sells| ensures SellAt(s', cs, threshold, k) {
      assert SellAt(s, cs, threshold, k);
    }
  }

  lemma TurnDownKeeps(s: Scanned, cs: seq<Candle>, threshold: real, c: Candle, i: nat)
    requires Pivots(s, cs, threshold) && s.trend == Up
    requires SellOk(cs, threshold, s.buys[|s.buys| - 1], s.buyBy[|s.buys| - 1], s.highIdx, i)
    ensures Pivots(TurnDown(s, c, i), cs, threshold)
  {
    var s' := TurnDown(s, c, i);
    forall k | 0 <= k < |s'.buys| ensures BuyAt(s', cs, threshold, k) {
      assert BuyAt(s, cs, threshold, k);
    }
    forall k | 0 <= k < |s'.sells| ensures SellAt(s', cs, threshold, k) {
      if k < |s.sells| {
        assert SellAt(s, cs, threshold, k);
      }
    }
  }

  /** A candle that confirms nothing changes no pivot. */
  lemma SamePivots(s: Scanned, s': Scanned, cs: seq<Candle>, threshold: real)
    requires Pivots(s, cs, threshold) && (s'.trend == Up <==> s.trend == Up)
    requires s'.buys == s.buys && s'.sells == s.sells && s'.buyBy == s.buyBy && s'.sellBy == s.sellBy
    requires s'.trend == NoTrend ==> s.trend == NoTrend
    ensures Pivots(s', cs, threshold)
  {
    forall k | 0 <= k < |s'.buys| ensures BuyAt(s', cs, threshold, k) {
      assert BuyAt(s, cs, threshold, k);
    }
    forall k | 0 <= k < |s'.sells| ensures SellAt(s', cs, threshold, k) {
      assert SellAt(s, cs, threshold, k);
    }
  }

  predicate Sound(s: Scanned, cs: seq<Candle>, threshold: real, n: nat) {
    cs != [] && Pivots(s, cs, threshold) && LastLeg(s, cs, threshold, n)
  }

  // The legs by themselves: one more candle extends, quietly continues, or reverses them.

  lemma UpLegRises(cs: seq<Candle>, threshold: real, b: nat, at: nat, top: nat, i: nat)
    requires threshold >= 0.0 && i < |cs| && UpLeg(cs, threshold, b, at, top, i) && cs[i].high > cs[top].high
    ensures UpLeg(cs, threshold, b, at, i, i + 1)
  {
    assert NewHigh(cs, at, i);
  }

  lemma UpLegStays(cs: seq<Candle>, threshold: real, b: nat, at: nat, top: nat, i: nat)
    requires i < |cs| && UpLeg(cs, threshold, b, at, top, i)
    requires cs[i].high <= cs[top].high && cs[i].low >= cs[top].high - threshold
    ensures UpLeg(cs, threshold, b, at, top, i + 1)
  {
  }

  lemma UpLegTurns(cs: seq<Candle>, threshold: real, b: nat, at: nat, top: nat, i: nat)
    requires i < |cs| && UpLeg(cs, threshold, b, at, top, i)
    requires cs[i].high <= cs[top].high && cs[i].low < cs[top].high - threshold
    ensures SellOk(cs, threshold, b, at, top, i)
    ensures DownLeg(cs, threshold, true, top, i, i, i + 1)
  {
  }

  lemma DownLegFalls(cs: seq<Candle>, threshold: real, hasSell: bool, sell: nat, sellBy: nat, bottom: nat, i: nat)
    requires threshold >= 0.0 && i < |cs|
    requires DownLeg(cs, threshold, hasSell, sell, sellBy, bottom, i) && cs[i].low < cs[bottom].low
    ensures DownLeg(cs, threshold, hasSell, sell, sellBy, i, i + 1)
  {
    if hasSell {
      assert NewLow(cs, sellBy, i);
    }
  }

  lemma DownLegStays(cs: seq<Candle>, threshold: real, hasSell: bool, sell: nat, sellBy: nat, bottom: nat, i: nat)
    requires i < |cs| && DownLeg(cs, threshold, hasSell, sell, sellBy, bottom, i)
    requires cs[i].low >= cs[bottom].low && cs[i].high <= cs[bottom].low + threshold
    ensures DownLeg(cs, threshold, hasSell, sell, sellBy, bottom, i + 1)
  {
  }

  lemma DownLegTurns(cs: seq<Candle>, threshold: real, hasSell: bool, sell: nat, sellBy: nat, bottom: nat, i: nat)
    requires i < |cs| && DownLeg(cs, threshold, hasSell, sell, sellBy, bottom, i)
    requires cs[i].low >= cs[bottom].low && cs[i].high > cs[bottom].low + threshold
    ensures BuyOk(cs, threshold, hasSell, sell, sellBy, bottom, i)
    ensures UpLeg(cs, threshold, bottom, i, i, i + 1)
  {
  }

  lemma StepUp(s: Scanned, cs: seq<Candle>, threshold: real, i: nat)
    requires i < |cs| && threshold >= 0.0 && s.trend == Up && Sound(s, cs, threshold, i)
    ensures Sound(Step(s, cs[i], i, threshold), cs, threshold, i + 1)
  {
    var b, at := s.buys[|s.buys| - 1], s.buyBy[|s.buys| - 1];
    var s' := Step(s, cs[i], i, threshold);
    if cs[i].high > s.lastHigh {
      UpLegRises(cs, threshold, b, at, s.highIdx, i);
      SamePivots(s, s', cs, threshold);
    } else if cs[i].low < s.lastHigh - threshold {
      UpLegTurns(cs, threshold, b, at, s.highIdx, i);
      TurnDownKeeps(s, cs, threshold, cs[i], i);
    } else {
      UpLegStays(cs, threshold, b, at, s.highIdx, i);
      SamePivots(s, s', cs, threshold);
    }
  }

  lemma StepDown(s: Scanned, cs: seq<Candle>, threshold: real, i: nat)
    requires i < |cs| && threshold >= 0.0 && s.trend == Down && Sound(s, cs, threshold, i)
    ensures Sound(Step(s, cs[i], i, threshold), cs, threshold, i + 1)
  {
    var t := |s.sells| - 1;
    var sell, confirmed := if t >= 0 then s.sells[t] else 0, if t >= 0 then s.sellBy[t] else 0;
    var s' := Step(s, cs[i], i, threshold);
    if cs[i].low < s.lastLow {
      DownLegFalls(cs, threshold, t >= 0, sell, confirmed, s.lowIdx, i);
      SamePivots(s, s', cs, threshold);
    } else if cs[i].high > s.lastLow + threshold {
      DownLegTurns(cs, threshold, t >= 0, sell, confirmed, s.lowIdx, i);
      TurnUpKeeps(s, cs, threshold, cs[i], i);
    } else {
      DownLegStays(cs, threshold, t >= 0, sell, confirmed, s.lowIdx, i);
      SamePivots(s, s', cs, threshold);
    }
  }

  lemma StepUndecided(s: Scanned, cs: seq<Candle>, threshold: real, i: nat)
    requires i < |cs| && threshold >= 0.0 && s.trend == NoTrend && Sound(s, cs, threshold, i)
    requires cs[0].low <= cs[0].high
    ensures Sound(Step(s, cs[i], i, threshold), cs, threshold, i + 1)
  {
    var s' := Step(s, cs[i], i, threshold);
    if cs[i].high > s.lastHigh + threshold {
      TurnUpKeeps(s, cs, threshold, cs[i], i);
      SamePivots(TurnUp(s, cs[i], i), s', cs, threshold);
    } else {
      SamePivots(s, s', cs, threshold);
    }
  }

  lemma StepKeeps(s: Scanned, s': Scanned, cs: seq<Candle>, threshold: real, i: nat)
    requires i < |cs| && threshold >= 0.0 && Sound(s, cs, threshold, i) && cs[0].low <= cs[0].high
    requires s' == Step(s, cs[i], i, threshold)
    ensures Sound(s', cs, threshold, i + 1)
  {
    match s.trend
    case NoTrend => StepUndecided(s, cs, threshold, i);
    case Up => StepUp(s, cs, threshold, i);
    case Down => StepDown(s, cs, threshold, i);
  }

  lemma StartSound(s: Scanned, cs: seq<Candle>, threshold: real)
    requires cs != [] && threshold >= 0.0 && s == Start(cs)
    ensures Sound(s, cs, threshold, 0)
  {
    assert NoLeg(cs, threshold, cs[0].high, 0, 0);
  }

  /** What holds after every prefix of the scan. */
  lemma {:induction false} ScanIsSound(cs: seq<Candle>, threshold: real, n: nat)
    requires cs != [] && n <= |cs| && threshold >= 0.0 && cs[0].low <= cs[0].high
    ensures Sound(Scan(cs, threshold, n), cs, threshold, n)
  {
    hide Sound, Step;
    if n == 0 {
      StartSound(Scan(cs, threshold, 0), cs, threshold);
    } else {
      ScanIsSound(cs, threshold, n - 1);
      StepKeeps(Scan(cs, threshold, n - 1), Scan(cs, threshold, n), cs, threshold, n - 1);
    }
  }

  // ---------------------------------------------------------------- the scan as a whole

  /** Pivots strictly interleave: every buy lies before every sell of its own or a later number, and every
      sell before every buy of a later number. */
  lemma {:induction false} Interleaved(s: Scanned, cs: seq<Candle>, threshold: real, k: nat, m: nat)
    requires Pivots(s, cs, threshold) && k <= m
    ensures m < |s.sells| ==> s.buys[k] < s.sells[m]
    ensures k < m < |s.buys| ==> s.sells[k] < s.buys[m]
    decreases m
  {
    if m < |s.buys| {
      assert BuyAt(s, cs, threshold, m);
    }
    if m < |s.sells| {
      assert SellAt(s, cs, threshold, m);
    }
    if k < m && m - 1 < |s.sells| {
      Interleaved(s, cs, threshold, k, m - 1);
      assert SellAt(s, cs, threshold, m - 1);
    }
  }

  /** A scan of a whole history: alternation, extremality, swing size and completeness of its pivots, and how
      far the unfinished leg has gone. */
  lemma ScanTheorem(cs: seq<Candle>, threshold: real)
    requires cs != [] && threshold >= 0.0 && cs[0].low <= cs[0].high
    ensures var s := Scan(cs, threshold, |cs|);
            && Pivots(s, cs, threshold)
            && LastLeg(s, cs, threshold, |cs|)
            && (|s.buys| - |s.sells| == 1 <==> s.trend == Up)
            && (|s.buys| == |s.sells| <==> s.trend != Up)
            && (forall k, m :: 0 <= k <= m < |s.sells| ==> s.buys[k] < s.sells[m])
            && (forall k, m :: 0 <= k < m < |s.buys| ==> s.sells[k] < s.buys[m])
  {
    hide Scan;
    ScanIsSound(cs, threshold, |cs|);
    var s := Scan(cs, threshold, |cs|);
    forall k, m | 0 <= k <= m < |s.sells| ensures s.buys[k] < s.sells[m] {
      Interleaved(s, cs, threshold, k, m);
    }
    forall k, m | 0 <= k < m < |s.buys| ensures s.sells[k] < s.buys[m] {
      Interleaved(s, cs, threshold, k, m);
    }
  }

  lemma StepExtends(s: Scanned, s': Scanned, c: Candle, i: nat, threshold: real)
    requires s' == Step(s, c, i, threshold)
    ensures s.buys <= s'.buys && s.sells <= s'.sells && s.buyBy <= s'.buyBy && s.sellBy <= s'.sellBy
  {
  }

  /** Pivots are final: scanning further never revises one already found. */
  lemma {:induction false} PivotsAreFinal(cs: seq<Candle>, threshold: real, n: nat, m: nat)
    requires cs != [] && n <= m <= |cs|
    ensures Scan(cs, threshold, n).buys <= Scan(cs, threshold, m).buys
    ensures Scan(cs, threshold, n).sells <= Scan(cs, threshold, m).sells
    ensures Scan(cs, threshold, n).buyBy <= Scan(cs, threshold, m).buyBy
    ensures Scan(cs, threshold, n).sellBy <= Scan(cs, threshold, m).sellBy
  {
    hide Step;
    if n < m {
      PivotsAreFinal(cs, threshold, n, m - 1);
      StepExtends(Scan(cs, threshold, m - 1), Scan(cs, threshold, m), cs[m - 1], m - 1, threshold);
    }
  }

  /** Why the first buy is only claimed up to, and not with, its confirming candle: a wide candle can confirm
      it and undercut it at once. */
  lemma FirstBuyCanBeUndercut()
    ensures var cs := [Candle(10.0, 9.0, 0), Candle(20.0, 1.0, 60)];
            var s := Scan(cs, 0.5, 2);
            s.buys == [0] && s.buyBy == [1] && cs[s.buyBy[0]].low < cs[s.buys[0]].low
  {
    var cs := [Candle(10.0, 9.0, 0), Candle(20.0, 1.0, 60)];
    assert Scan(cs, 0.5, 1) == Start(cs);
    assert Scan(cs, 0.5, 2) == Step(Start(cs), cs[1], 1, 0.5);
  }

  /** While no trend is known, a candle that rises enough to confirm a buy and falls below the running low. */
  predicate TurnsWide(cs: seq<Candle>, threshold: real, i: nat)
    requires i < |cs|
  {
    var s := Scan(cs, threshold, i);
    s.trend == NoTrend && cs[i].high > s.lastHigh + threshold && cs[i].low < s.lastLow
  }

  predicate FirstBuyIsUndercut(s: Scanned, cs: seq<Candle>) {
    && s.buys != [] && s.buyBy != [] && s.buys[0] < |cs| && s.buyBy[0] < |cs|
    && cs[s.buyBy[0]].low < cs[s.buys[0]].low
  }

  lemma StepUndercuts(s: Scanned, s': Scanned, cs: seq<Candle>, threshold: real, i: nat)
    requires i < |cs| && threshold >= 0.0 && Sound(s, cs, threshold, i) && s' == Step(s, cs[i], i, threshold)
    ensures FirstBuyIsUndercut(s', cs) <==>
            || FirstBuyIsUndercut(s, cs)
            || (s.trend == NoTrend && cs[i].high > s.lastHigh + threshold && cs[i].low < s.lastLow)
  {
    hide QuietUp, QuietDown, BuyAt, SellAt;
  }

  /** The first buy is undercut exactly when such a candle came. */
  lemma {:induction false} UndercutByWideTurn(cs: seq<Candle>, threshold: real, n: nat)
    requires cs != [] && n <= |cs| && threshold >= 0.0 && cs[0].low <= cs[0].high
    ensures FirstBuyIsUndercut(Scan(cs, threshold, n), cs) <==> exists i :: 0 <= i < n && TurnsWide(cs, threshold, i)
  {
    hide Step, Sound, FirstBuyIsUndercut;
    if n == 0 {
      StartsWithNoBuy(cs);
    } else {
      UndercutByWideTurn(cs, threshold, n - 1);
      ScanIsSound(cs, threshold, n - 1);
      var s := Scan(cs, threshold, n - 1);
      StepUndercuts(s, Scan(cs, threshold, n), cs, threshold, n - 1);
      assert TurnsWide(cs, threshold, n - 1) <==>
        s.trend == NoTrend && cs[n - 1].high > s.lastHigh + threshold && cs[n - 1].low < s.lastLow;
    }
  }

  lemma StartsWithNoBuy(cs: seq<Candle>)
    requires cs != []
    ensures !FirstBuyIsUndercut(Start(cs), cs)
  {
  }

  /** Every buy is the lowest low of its leg up to and with its confirming candle, but for the first one if a
      candle that turned wide confirmed it. */
  lemma BuyIsLowestOfItsLeg(cs: seq<Candle>, threshold: real, k: nat)
    requires cs != [] && threshold >= 0.0 && cs[0].low <= cs[0].high
    requires k < |Scan(cs, threshold, |cs|).buys|
    ensures var s := Scan(cs, threshold, |cs|);
            && Shape(s)
            && (k > 0 ==> k - 1 < |s.sells|)
            && s.buys[k] < s.buyBy[k] < |cs|
            && ((forall j :: (if k > 0 then s.sells[k - 1] + 1 else 0) <= j <= s.buyBy[k] ==>
                   cs[s.buys[k]].low <= cs[j].low)
                <==> !(k == 0 && exists i :: 0 <= i < |cs| && TurnsWide(cs, threshold, i)))
  {
    hide Scan, LastLeg, TurnsWide;
    ScanIsSound(cs, threshold, |cs|);
    UndercutByWideTurn(cs, threshold, |cs|);
    assert BuyAt(Scan(cs, threshold, |cs|), cs, threshold, k);
  }

  // ---------------------------------------------------------------- the first trend

  /** A candle lower than all before it. */
  predicate IsNewLow(cs: seq<Candle>, j: nat)
    requires j < |cs|
  {
    j > 0 && forall x :: 0 <= x < j ==> cs[j].low < cs[x].low
  }

  /** The running high before candle n while no trend is known: a candle that sets a new low does not raise it. */
  function RunningHigh(cs: seq<Candle>, n: nat): real
    requires cs != [] && n <= |cs|
  {
    if n == 0 then cs[0].high
    else
      var before := RunningHigh(cs, n - 1);
      if IsNewLow(cs, n - 1) || cs[n - 1].high <= before then before else cs[n - 1].high
  }

  predicate Rises(cs: seq<Candle>, threshold: real, j: nat)
    requires j < |cs|
  {
    cs[j].high > RunningHigh(cs, j) + threshold
  }

  /** A fall of more than the threshold below every low before. */
  predicate Falls(cs: seq<Candle>, threshold: real, j: nat)
    requires j < |cs|
  {
    j > 0 && forall x :: 0 <= x < j ==> cs[j].low < cs[x].low - threshold
  }

  predicate Quiet(cs: seq<Candle>, threshold: real, n: nat)
    requires n <= |cs|
  {
    forall j :: 0 <= j < n ==> !Rises(cs, threshold, j) && !Falls(cs, threshold, j)
  }

  lemma LowestSoFar(s: Scanned, cs: seq<Candle>, threshold: real, i: nat)
    requires i < |cs| && threshold >= 0.0 && s.trend == NoTrend && Sound(s, cs, threshold, i)
    ensures Falls(cs, threshold, i) <==> cs[i].low < s.lastLow - threshold
    ensures IsNewLow(cs, i) <==> cs[i].low < s.lastLow
  {
    assert i > 0 ==> s.lowIdx < i && s.lastLow == cs[s.lowIdx].low;
  }

  lemma StepWhileQuiet(s: Scanned, s': Scanned, cs: seq<Candle>, threshold: real, i: nat)
    requires i < |cs| && threshold >= 0.0 && Sound(s, cs, threshold, i) && s' == Step(s, cs[i], i, threshold)
    requires s.trend == NoTrend ==> s.lastHigh == RunningHigh(cs, i)
    ensures s'.trend == NoTrend <==> s.trend == NoTrend && !Rises(cs, threshold, i) && !Falls(cs, threshold, i)
    ensures s'.trend == NoTrend ==> s'.lastHigh == RunningHigh(cs, i + 1)
    ensures s.trend == NoTrend && Rises(cs, threshold, i) ==>
              s'.trend == Up && s'.buys == [s.lowIdx] && s'.buyBy == [i]
    ensures s.trend == NoTrend && !Rises(cs, threshold, i) && Falls(cs, threshold, i) ==>
              s'.trend == Down && s'.buys == [] && s'.lowIdx == i
  {
    if s.trend == NoTrend {
      LowestSoFar(s, cs, threshold, i);
    }
    hide QuietUp, QuietDown, BuyAt, SellAt, IsNewLow, Falls;
  }

  /** No trend is known exactly as long as no candle has risen above the running high, or fallen below the lowest
      low, by more than the threshold. */
  lemma {:induction false} UndecidedWhileQuiet(cs: seq<Candle>, threshold: real, n: nat)
    requires cs != [] && n <= |cs| && threshold >= 0.0 && cs[0].low <= cs[0].high
    ensures Scan(cs, threshold, n).trend == NoTrend <==> Quiet(cs, threshold, n)
    ensures Scan(cs, threshold, n).trend == NoTrend ==> Scan(cs, threshold, n).lastHigh == RunningHigh(cs, n)
  {
    hide Step, Sound, Rises, Falls, RunningHigh;
    if n == 0 {
      StartIsQuiet(cs, threshold);
    } else {
      UndecidedWhileQuiet(cs, threshold, n - 1);
      ScanIsSound(cs, threshold, n - 1);
      StepWhileQuiet(Scan(cs, threshold, n - 1), Scan(cs, threshold, n), cs, threshold, n - 1);
    }
  }

  lemma StartIsQuiet(cs: seq<Candle>, threshold: real)
    requires cs != []
    ensures Start(cs).trend == NoTrend && Start(cs).lastHigh == RunningHigh(cs, 0)
  {
  }

  /** The first low among the lowest of the candles before m. */
  predicate IsLowest(cs: seq<Candle>, b: nat, m: nat)
    requires m <= |cs|
  {
    b < m && (forall x :: 0 <= x < m ==> cs[b].low <= cs[x].low) && (forall x :: 0 <= x < b ==> cs[b].low < cs[x].low)
  }

  lemma LowestIsUnique(cs: seq<Candle>, b: nat, c: nat, m: nat)
    requires m <= |cs| && IsLowest(cs, b, m) && IsLowest(cs, c, m)
    ensures b == c
  {
    assert cs[b].low == cs[c].low;
  }

  lemma RunningLowIsLowest(s: Scanned, cs: seq<Candle>, threshold: real, n: nat)
    requires Sound(s, cs, threshold, n) && n > 0 && s.buys == [] && s.trend != Up
    ensures IsLowest(cs, s.lowIdx, n) && s.lastLow == cs[s.lowIdx].low
  {
    hide QuietUp, QuietDown, BuyAt, SellAt;
  }

  /** The first candle to break the quiet decides the trend. A rise confirms the lowest candle before it as a buy;
      a fall that is not also a rise starts a downturn. */
  lemma FirstTrend(cs: seq<Candle>, threshold: real, j: nat)
    requires cs != [] && j < |cs| && threshold >= 0.0 && cs[0].low <= cs[0].high && Quiet(cs, threshold, j)
    ensures var s := Scan(cs, threshold, j + 1);
            && (Rises(cs, threshold, j) ==>
                  s.trend == Up && |s.buys| == 1 && IsLowest(cs, s.buys[0], j) && s.buyBy == [j])
            && (!Rises(cs, threshold, j) && Falls(cs, threshold, j) ==>
                  s.trend == Down && s.buys == [] && IsLowest(cs, j, j + 1))
  {
    hide Scan, Step, Sound, Quiet, Rises, Falls, IsLowest;
    UndecidedWhileQuiet(cs, threshold, j);
    ScanIsSound(cs, threshold, j);
    ScanIsSound(cs, threshold, j + 1);
    ScanGoesOn(cs, threshold, j);
    StepBreaksQuiet(Scan(cs, threshold, j), Scan(cs, threshold, j + 1), cs, threshold, j);
  }

  lemma StepBreaksQuiet(s: Scanned, s': Scanned, cs: seq<Candle>, threshold: real, j: nat)
    requires j < |cs| && threshold >= 0.0 && s.trend == NoTrend && s' == Step(s, cs[j], j, threshold)
    requires Sound(s, cs, threshold, j) && Sound(s', cs, threshold, j + 1) && s.lastHigh == RunningHigh(cs, j)
    ensures Rises(cs, threshold, j) ==>
              s'.trend == Up && |s'.buys| == 1 && IsLowest(cs, s'.buys[0], j) && s'.buyBy == [j]
    ensures !Rises(cs, threshold, j) && Falls(cs, threshold, j) ==>
              s'.trend == Down && s'.buys == [] && IsLowest(cs, j, j + 1)
  {
    StepWhileQuiet(s, s', cs, threshold, j);
    SoundHasShape(s, cs, threshold, j);
    if j > 0 {
      RunningLowIsLowest(s, cs, threshold, j);
    }
    if s'.buys == [] && s'.trend != Up {
      RunningLowIsLowest(s', cs, threshold, j + 1);
    }
    FirstCandleDoesNotRise(cs, threshold);
    hide Step, Sound, IsLowest, Falls, Rises;
  }

  lemma FirstCandleDoesNotRise(cs: seq<Candle>, threshold: real)
    requires cs != [] && threshold >= 0.0
    ensures !Rises(cs, threshold, 0)
  {
  }

  lemma SoundHasShape(s: Scanned, cs: seq<Candle>, threshold: real, n: nat)
    requires Sound(s, cs, threshold, n)
    ensures Shape(s)
  {
  }

  /** A candle that keeps the lowest low and rises above it by more than the threshold. */
  predicate Confirms(cs: seq<Candle>, threshold: real, b: nat, m: nat)
    requires b < m < |cs|
  {
    cs[m].low >= cs[b].low && cs[m].high > cs[b].low + threshold
  }

  lemma StepInFirstDownturn(s: Scanned, s': Scanned, cs: seq<Candle>, threshold: real, i: nat)
    requires i < |cs| && threshold >= 0.0 && Sound(s, cs, threshold, i) && s' == Step(s, cs[i], i, threshold)
    requires i > 0 && s.trend == Down && s.buys == []
    ensures s.lowIdx < i && IsLowest(cs, s.lowIdx, i)
    ensures Confirms(cs, threshold, s.lowIdx, i) ==> s'.trend == Up && s'.buys == [s.lowIdx] && s'.buyBy == [i]
    ensures !Confirms(cs, threshold, s.lowIdx, i) ==> s'.trend == Down && s'.buys == []
  {
    RunningLowIsLowest(s, cs, threshold, i);
    hide QuietUp, QuietDown, BuyAt, SellAt, IsLowest;
  }

  /** The first downturn goes on, without a pivot, as long as no candle confirms the lowest low before it. */
  lemma {:induction false} DownturnGoesOn(cs: seq<Candle>, threshold: real, j: nat, n: nat)
    requires cs != [] && j < n <= |cs| && threshold >= 0.0 && cs[0].low <= cs[0].high
    requires Quiet(cs, threshold, j) && Falls(cs, threshold, j) && !Rises(cs, threshold, j)
    requires forall m, b :: j < m < n && 0 <= b < m && IsLowest(cs, b, m) ==> !Confirms(cs, threshold, b, m)
    ensures Scan(cs, threshold, n).trend == Down && Scan(cs, threshold, n).buys == []
  {
    hide Step, Sound, Quiet, Rises, Falls, IsLowest, Confirms;
    if n == j + 1 {
      FirstTrend(cs, threshold, j);
    } else {
      DownturnGoesOn(cs, threshold, j, n - 1);
      ScanIsSound(cs, threshold, n - 1);
      StepInFirstDownturn(Scan(cs, threshold, n - 1), Scan(cs, threshold, n), cs, threshold, n - 1);
    }
  }

  /** The first candle after the first downturn to confirm the lowest low before it makes that low the first buy, for
      the rest of the history. */
  lemma DownturnEndsInBuy(cs: seq<Candle>, threshold: real, j: nat, b: nat, m: nat, n: nat)
    requires cs != [] && j < m < n <= |cs| && threshold >= 0.0 && cs[0].low <= cs[0].high
    requires Quiet(cs, threshold, j) && Falls(cs, threshold, j) && !Rises(cs, threshold, j)
    requires forall k, c :: j < k < m && 0 <= c < k && IsLowest(cs, c, k) ==> !Confirms(cs, threshold, c, k)
    requires b < m && IsLowest(cs, b, m) && Confirms(cs, threshold, b, m)
    ensures var s := Scan(cs, threshold, n);
            s.buys != [] && s.buyBy != [] && s.buys[0] == b && s.buyBy[0] == m
  {
    DownturnGoesOn(cs, threshold, j, m);
    ScanIsSound(cs, threshold, m);
    ScanGoesOn(cs, threshold, m);
    var s, s' := Scan(cs, threshold, m), Scan(cs, threshold, m + 1);
    StepInFirstDownturn(s, s', cs, threshold, m);
    LowestIsUnique(cs, b, s.lowIdx, m);
    PivotsAreFinal(cs, threshold, m + 1, n);
    hide Scan, Step, Sound, Quiet, Rises, Falls, IsLowest, Confirms;
  }

  // ---------------------------------------------------------------- the analyzer

  predicate InRange(idxs: seq<nat>, n: nat) {
    forall k :: 0 <= k < |idxs| ==> idxs[k] < n
  }

  function Select(cs: seq<Candle>, idxs: seq<nat>): (points: seq<Candle>)
    requires InRange(idxs, |cs|)
    ensures |points| == |idxs|
    ensures forall k :: 0 <= k < |idxs| ==> points[k] == cs[idxs[k]]
  {
    seq(|idxs|, k requires 0 <= k < |idxs| => cs[idxs[k]])
  }

  lemma SelectAppend(cs: seq<Candle>, idxs: seq<nat>, i: nat)
    requires InRange(idxs, |cs|) && i < |cs|
    ensures InRange(idxs + [i], |cs|)
    ensures Select(cs, idxs + [i]) == Select(cs, idxs) + [cs[i]]
  {
  }

  predicate IndicesInRange(s: Scanned, n: nat) {
    InRange(s.buys, n) && InRange(s.sells, n) && s.lowIdx < n && s.highIdx < n
  }

  lemma StepInRange(s: Scanned, s': Scanned, c: Candle, i: nat, threshold: real, n: nat)
    requires s' == Step(s, c, i, threshold) && i < n && IndicesInRange(s, n)
    ensures IndicesInRange(s', n)
  {
  }

  lemma {:induction false} ScanInRange(cs: seq<Candle>, threshold: real, n: nat)
    requires cs != [] && n <= |cs|
    ensures IndicesInRange(Scan(cs, threshold, n), |cs|)
  {
    hide Step;
    if n > 0 {
      ScanInRange(cs, threshold, n - 1);
      StepInRange(Scan(cs, threshold, n - 1), Scan(cs, threshold, n), cs[n - 1], n - 1, threshold, |cs|);
    }
  }

  lemma ScanBegins(cs: seq<Candle>, threshold: real)
    requires cs != []
    ensures Scan(cs, threshold, 0) == Start(cs)
  {
  }

  lemma ScanGoesOn(cs: seq<Candle>, threshold: real, i: nat)
    requires i < |cs|
    ensures Scan(cs, threshold, i + 1) == Step(Scan(cs, threshold, i), cs[i], i, threshold)
  {
    hide Step;
  }

  predicate Opens(points: seq<Candle>, openedAt: int) {
    exists k :: 0 <= k < |points| && points[k].openedAt == openedAt
  }

  function Decide(buyPoints: seq<Candle>, sellPoints: seq<Candle>, candle: Candle): Decision {
    if Opens(buyPoints, candle.openedAt) then Decision(Buy, 1.0)
    else if Opens(sellPoints, candle.openedAt) then Decision(Sell, 1.0)
    else Decision(Hold, 1.0)
  }

  /** A candle that opens in the same second as a buy point is bought on, even if it does so with a sell point too. */
  lemma BuyComesFirst(buyPoints: seq<Candle>, sellPoints: seq<Candle>, candle: Candle)
    ensures var d := Decide(buyPoints, sellPoints, candle);
            && (d.act == Buy <==> exists k :: 0 <= k < |buyPoints| && buyPoints[k].openedAt == candle.openedAt)
            && (d.act == Sell <==>
                  && (forall k :: 0 <= k < |buyPoints| ==> buyPoints[k].openedAt != candle.openedAt)
                  && (exists k :: 0 <= k < |sellPoints| && sellPoints[k].openedAt == candle.openedAt))
            && (d.act == Hold <==> d.act != Buy && d.act != Sell)
            && d.confidence == 1.0
  {
  }

  /** Replaying a history whose candles open at distinct seconds buys exactly at the buy pivots and sells
      exactly at the sell pivots. */
  lemma ReplayFollowsPivots(cs: seq<Candle>, threshold: real, i: nat)
    requires cs != [] && threshold >= 0.0 && cs[0].low <= cs[0].high && i < |cs|
    requires forall j, k :: 0 <= j < k < |cs| ==> cs[j].openedAt != cs[k].openedAt
    ensures var s := Scan(cs, threshold, |cs|);
            && InRange(s.buys, |cs|) && InRange(s.sells, |cs|)
            && var d := Decide(Select(cs, s.buys), Select(cs, s.sells), cs[i]);
               && (d.act == Buy <==> i in s.buys)
               && (d.act == Sell <==> i in s.sells)
               && d.confidence == 1.0
  {
    ScanTheorem(cs, threshold);
    ScanInRange(cs, threshold, |cs|);
    var s := Scan(cs, threshold, |cs|);
    OpensIff(cs, s.buys, i);
    OpensIff(cs, s.sells, i);
    forall k, m | 0 <= k < |s.buys| && 0 <= m < |s.sells| ensures s.buys[k] != s.sells[m] {
      if k <= m {
        assert s.buys[k] < s.sells[m];
      } else {
        assert s.sells[m] < s.buys[k];
      }
    }
  }

  lemma OpensIff(cs: seq<Candle>, idxs: seq<nat>, i: nat)
    requires InRange(idxs, |cs|) && i < |cs|
    requires forall j, k :: 0 <= j < k < |cs| ==> cs[j].openedAt != cs[k].openedAt
    ensures Opens(Select(cs, idxs), cs[i].openedAt) <==> i in idxs
  {
    if Opens(Select(cs, idxs), cs[i].openedAt) {
      var k :| 0 <= k < |idxs| && Select(cs, idxs)[k].openedAt == cs[i].openedAt;
      assert idxs[k] == i;
    }
    if i in idxs {
      var k :| 0 <= k < |idxs| && idxs[k] == i;
      assert Select(cs, idxs)[k].openedAt == cs[i].openedAt;
    }
  }

  class ZigZagAnalyzer {
    var buyPoints: seq<Candle>
    var sellPoints: seq<Candle>

    constructor (cs: seq<Candle>, threshold: real)
      requires cs != []
      ensures var s := Scan(cs, threshold, |cs|);
              && InRange(s.buys, |cs|) && InRange(s.sells, |cs|)
              && buyPoints == Select(cs, s.buys) && sellPoints == Select(cs, s.sells)
    {
      buyPoints, sellPoints := [], [];
      new;
      hide Scan;
      ScanBegins(cs, threshold);
      var trend := NoTrend;
      var lastHigh, lastLow := cs[0].high, cs[0].low;
      var highIdx, lowIdx := 0, 0;
      for i := 0 to |cs|
        invariant var s := Scan(cs, threshold, i);
                  && trend == s.trend && lastHigh == s.lastHigh && lastLow == s.lastLow
                  && highIdx == s.highIdx && lowIdx == s.lowIdx
                  && InRange(s.buys, |cs|) && InRange(s.sells, |cs|) && lowIdx < |cs| && highIdx < |cs|
                  && buyPoints == Select(cs, s.buys) && sellPoints == Select(cs, s.sells)
      {
        ScanInRange(cs, threshold, i + 1);
        ScanGoesOn(cs, threshold, i);
        ghost var s := Scan(cs, threshold, i);
        SelectAppend(cs, s.buys, lowIdx);
        SelectAppend(cs, s.sells, highIdx);
        var c := cs[i];
        match trend
        case NoTrend =>
          if c.high > lastHigh + threshold {
            trend := Up;
            buyPoints := buyPoints + [cs[lowIdx]];
            lastHigh, highIdx := c.high, i;
          } else if c.low < lastLow - threshold {
            trend := Down;
            if |buyPoints| > |sellPoints| {
              sellPoints := sellPoints + [cs[highIdx]];
            }
            lastLow, lowIdx := c.low, i;
          }
          if c.low < lastLow {
            lastLow, lowIdx := c.low, i;
          } else if c.high > lastHigh {
            lastHigh, highIdx := c.high, i;
          }
        case Up =>
          if c.high > lastHigh {
            lastHigh, highIdx := c.high, i;
          } else if c.low < lastHigh - threshold {
            trend := Down;
            sellPoints := sellPoints + [cs[highIdx]];
            lastLow, lowIdx := c.low, i;
          }
        case Down =>
          if c.low < lastLow {
            lastLow, lowIdx := c.low, i;
          } else if c.high > lastLow + threshold {
            trend := Up;
            buyPoints := buyPoints + [cs[lowIdx]];
            lastHigh, highIdx := c.high, i;
          }
      }
    }

    /** The advice for the latest one-minute candle. */
    method Analyze(candle: Candle) returns (d: Decision)
      ensures d == Decide(buyPoints, sellPoints, candle)
    {
      for i := 0 to |buyPoints|
        invariant forall k :: 0 <= k < i ==> buyPoints[k].openedAt != candle.openedAt
      {
        if candle.openedAt == buyPoints[i].openedAt { return Decision(Buy, 1.0); }
      }
      for i := 0 to |sellPoints|
        invariant forall k :: 0 <= k < i ==> sellPoints[k].openedAt != candle.openedAt
      {
        if candle.openedAt == sellPoints[i].openedAt { return Decision(Sell, 1.0); }
      }
      return Decision(Hold, 1.0);
    }
  }
}
