/**
 The evaluation loop of howling_tools/evaluate.cc: one share bought at the close of each candle an analyzer
 says to buy on, everything sold at the close of each candle it says to sell on. Decisions are arbitrary inputs.
 */
module Evaluate {
  import opened Analyzer

  datatype Tick = Tick(close: real, act: Action)

  datatype Position = Position(price: real, quantity: int)

  datatype Metrics = Metrics(
    initialFunds: real, availableFunds: real, sales: nat, profitableSales: nat, deltas: seq<real>)

  function Cost(ps: seq<Position>): real {
    if ps == [] then 0.0 else Cost(ps[..|ps| - 1]) + ps[|ps| - 1].price * ps[|ps| - 1].quantity as real
  }

  function Sum(xs: seq<real>): real {
    if xs == [] then 0.0 else Sum(xs[..|xs| - 1]) + xs[|xs| - 1]
  }

  function Gains(xs: seq<real>): (n: nat)
    ensures n <= |xs|
  {
    if xs == [] then 0 else Gains(xs[..|xs| - 1]) + (if xs[|xs| - 1] > 0.0 then 1 else 0)
  }

  /** The gains counted are the positive ones. */
  lemma {:induction false} GainsCounts(xs: seq<real>)
    ensures Gains(xs) == |set i: nat | i < |xs| && xs[i] > 0.0|
  {
    var gains := set i: nat | i < |xs| && xs[i] > 0.0;
    if xs == [] {
      assert gains == {};
    } else {
      var n := |xs| - 1;
      GainsCounts(xs[..n]);
      var before := set i: nat | i < |xs[..n]| && xs[..n][i] > 0.0;
      assert gains == before + if xs[n] > 0.0 then {n} else {};
    }
  }

  /** The profit of selling each position at the given price. */
  function Deltas(close: real, ps: seq<Position>): (ds: seq<real>)
    ensures |ds| == |ps|
  {
    seq(|ps|, i requires 0 <= i < |ps| => close - ps[i].price)
  }

  predicate SingleShares(ps: seq<Position>) {
    forall i :: 0 <= i < |ps| ==> ps[i].quantity == 1
  }

  lemma {:induction false} SumConcat(xs: seq<real>, ys: seq<real>)
    ensures Sum(xs + ys) == Sum(xs) + Sum(ys)
  {
    if ys == [] {
      assert xs + ys == xs;
    } else {
      assert (xs + ys)[..|xs + ys| - 1] == xs + ys[..|ys| - 1];
      SumConcat(xs, ys[..|ys| - 1]);
    }
  }

  lemma OneMore(xs: seq<real>, x: real)
    ensures Sum(xs + [x]) == Sum(xs) + x && Gains(xs + [x]) == Gains(xs) + (if x > 0.0 then 1 else 0)
  {
    assert (xs + [x])[..|xs|] == xs;
  }

  /** A position of a single share adds its price to the cost, fetches the close, and gains the difference. */
  lemma OneMoreSale(ps: seq<Position>, i: nat, close: real)
    requires i < |ps| && ps[i].quantity == 1
    ensures Cost(ps[..i + 1]) == Cost(ps[..i]) + ps[i].price
    ensures close * ps[i].quantity as real == close
    ensures Deltas(close, ps[..i + 1]) == Deltas(close, ps[..i]) + [close - ps[i].price]
  {
    assert ps[..i + 1][..i] == ps[..i];
    assert ps[i].quantity as real == 1.0;
  }

  // ---------------------------------------------------------------- what the decisions amount to

  /** What is held after some candles: the share of each candle bought on since the last sale. */
  function Lots(held: seq<Position>, ticks: seq<Tick>): seq<Position> {
    if ticks == [] then held
    else
      var before, last := Lots(held, ticks[..|ticks| - 1]), ticks[|ticks| - 1];
      match last.act
      case Buy => before + [Position(last.close, 1)]
      case Sell => []
      case _ => before
  }

  /** The profits and losses recorded: one for each share, when everything is next sold. */
  function Realised(held: seq<Position>, ticks: seq<Tick>): seq<real> {
    if ticks == [] then []
    else
      var init, last := ticks[..|ticks| - 1], ticks[|ticks| - 1];
      Realised(held, init) + (if last.act == Sell then Deltas(last.close, Lots(held, init)) else [])
  }

  function Buys(ticks: seq<Tick>): nat {
    if ticks == [] then 0
    else Buys(ticks[..|ticks| - 1]) + (if ticks[|ticks| - 1].act == Buy then 1 else 0)
  }

  /** Every share bought is either still held or was sold exactly once. */
  lemma {:induction false} SharesAreConserved(held: seq<Position>, ticks: seq<Tick>)
    ensures |Lots(held, ticks)| + |Realised(held, ticks)| == |held| + Buys(ticks)
  {
    if ticks != [] {
      SharesAreConserved(held, ticks[..|ticks| - 1]);
    }
  }

  predicate NoSaleBetween(ticks: seq<Tick>, from: nat, to: nat) {
    forall j :: from < j < to && j < |ticks| ==> ticks[j].act != Sell
  }

  /** `open` are the candles whose shares are still held: those bought on with no sale after. */
  ghost predicate HeldFrom(ticks: seq<Tick>, lots: seq<Position>, open: seq<nat>) {
    && |open| == |lots|
    && (forall j, k :: 0 <= j < k < |open| ==> open[j] < open[k])
    && (forall k :: 0 <= k < |open| ==>
          && open[k] < |ticks| && ticks[open[k]].act == Buy
          && lots[k] == Position(ticks[open[k]].close, 1)
          && NoSaleBetween(ticks, open[k], |ticks|))
  }

  /** Share k was bought on candle sold[k] and sold on candle out[k], the first to sell after it. */
  ghost predicate SoldFrom(ticks: seq<Tick>, deltas: seq<real>, sold: seq<nat>, out: seq<nat>) {
    && |sold| == |out| == |deltas|
    && (forall j, k :: 0 <= j < k < |sold| ==> sold[j] < sold[k])
    && (forall k :: 0 <= k < |sold| ==>
          && sold[k] < out[k] < |ticks| && ticks[sold[k]].act == Buy && ticks[out[k]].act == Sell
          && NoSaleBetween(ticks, sold[k], out[k])
          && deltas[k] == ticks[out[k]].close - ticks[sold[k]].close)
  }

  ghost predicate Covers(ticks: seq<Tick>, open: seq<nat>, sold: seq<nat>) {
    forall i :: 0 <= i < |ticks| && ticks[i].act == Buy ==> i in open || i in sold
  }

  lemma SoldBeforeOpen(
    ticks: seq<Tick>, lots: seq<Position>, open: seq<nat>, deltas: seq<real>, sold: seq<nat>, out: seq<nat>,
    j: nat, k: nat)
    requires HeldFrom(ticks, lots, open) && SoldFrom(ticks, deltas, sold, out) && j < |sold| && k < |open|
    ensures sold[j] < open[k]
  {
    assert NoSaleBetween(ticks, open[k], |ticks|);
    assert ticks[out[j]].act == Sell;
  }

  lemma AfterBuyTick(
    ticks: seq<Tick>, t: Tick, lots: seq<Position>, open: seq<nat>, deltas: seq<real>, sold: seq<nat>, out: seq<nat>)
    requires HeldFrom(ticks, lots, open) && SoldFrom(ticks, deltas, sold, out) && Covers(ticks, open, sold)
    requires t.act == Buy
    ensures HeldFrom(ticks + [t], lots + [Position(t.close, 1)], open + [|ticks|])
    ensures SoldFrom(ticks + [t], deltas, sold, out) && Covers(ticks + [t], open + [|ticks|], sold)
  {
    AfterQuietTick(ticks, t, lots, open, deltas, sold, out);
    var all, open' := ticks + [t], open + [|ticks|];
    forall i | 0 <= i < |all| && all[i].act == Buy ensures i in open' || i in sold {
      if i == |ticks| {
        assert open'[|open|] == i;
      } else {
        assert ticks[i] == all[i];
        assert i in open ==> i in open';
      }
    }
  }

  lemma AfterQuietTick(
    ticks: seq<Tick>, t: Tick, lots: seq<Position>, open: seq<nat>, deltas: seq<real>, sold: seq<nat>, out: seq<nat>)
    requires HeldFrom(ticks, lots, open) && SoldFrom(ticks, deltas, sold, out) && Covers(ticks, open, sold)
    requires t.act != Sell
    ensures HeldFrom(ticks + [t], lots, open) && SoldFrom(ticks + [t], deltas, sold, out)
    ensures t.act != Buy ==> Covers(ticks + [t], open, sold)
  {
    var all := ticks + [t];
    assert forall i :: 0 <= i < |ticks| ==> all[i] == ticks[i];
    forall k | 0 <= k < |open| ensures NoSaleBetween(all, open[k], |all|) {
      assert NoSaleBetween(ticks, open[k], |ticks|);
    }
    forall k | 0 <= k < |sold| ensures NoSaleBetween(all, sold[k], out[k]) {
      assert NoSaleBetween(ticks, sold[k], out[k]);
    }
  }

  lemma AfterSaleTick(
    ticks: seq<Tick>, t: Tick, lots: seq<Position>, open: seq<nat>, deltas: seq<real>, sold: seq<nat>, out: seq<nat>,
    out': seq<nat>)
    requires HeldFrom(ticks, lots, open) && SoldFrom(ticks, deltas, sold, out) && Covers(ticks, open, sold)
    requires t.act == Sell && |out'| == |sold| + |open| && out'[..|sold|] == out
    requires forall k :: |sold| <= k < |out'| ==> out'[k] == |ticks|
    ensures HeldFrom(ticks + [t], [], []) && Covers(ticks + [t], [], sold + open)
    ensures SoldFrom(ticks + [t], deltas + Deltas(t.close, lots), sold + open, out')
  {
    var all, sold' := ticks + [t], sold + open;
    assert forall i :: 0 <= i < |ticks| ==> all[i] == ticks[i];
    forall j, k | 0 <= j < k < |sold'| ensures sold'[j] < sold'[k] {
      if j < |sold| <= k {
        SoldBeforeOpen(ticks, lots, open, deltas, sold, out, j, k - |sold|);
      }
    }
    forall k | 0 <= k < |sold'|
      ensures sold'[k] < out'[k] < |all| && all[sold'[k]].act == Buy && all[out'[k]].act == Sell
      ensures NoSaleBetween(all, sold'[k], out'[k])
      ensures (deltas + Deltas(t.close, lots))[k] == all[out'[k]].close - all[sold'[k]].close
    {
      if k < |sold| {
        assert out'[k] == out[k] && NoSaleBetween(ticks, sold[k], out[k]);
      } else {
        assert NoSaleBetween(ticks, open[k - |sold|], |ticks|);
      }
    }
    forall i | 0 <= i < |all| && all[i].act == Buy ensures i in sold' {
      assert ticks[i] == all[i];
      assert i in open || i in sold;
    }
  }

  lemma LastTick(held: seq<Position>, ticks: seq<Tick>)
    requires ticks != []
    ensures var init, t := ticks[..|ticks| - 1], ticks[|ticks| - 1]; var lots := Lots(held, init);
            && Lots(held, ticks) ==
               (if t.act == Buy then lots + [Position(t.close, 1)] else if t.act == Sell then [] else lots)
            && Realised(held, ticks) == Realised(held, init) + (if t.act == Sell then Deltas(t.close, lots) else [])
  {
  }

  lemma NoTicks()
    ensures HeldFrom([], Lots([], []), []) && SoldFrom([], Realised([], []), [], []) && Covers([], [], [])
  {
  }

  /** Every candle bought on is accounted for: its share is held if no candle sold after it, and otherwise was sold on
      the first one that did, recording the difference of the two closes. */
  lemma {:induction false} DecisionsTraced(ticks: seq<Tick>) returns (open: seq<nat>, sold: seq<nat>, out: seq<nat>)
    ensures HeldFrom(ticks, Lots([], ticks), open) && SoldFrom(ticks, Realised([], ticks), sold, out)
    ensures Covers(ticks, open, sold)
  {
    hide Lots, Realised, HeldFrom, SoldFrom, Covers, Deltas;
    if ticks == [] {
      NoTicks();
      open, sold, out := [], [], [];
    } else {
      var n := |ticks| - 1;
      var init, t := ticks[..n], ticks[n];
      var o, s, b := DecisionsTraced(init);
      var lots, deltas := Lots([], init), Realised([], init);
      LastTick([], ticks);
      assert ticks == init + [t] && |init| == n && deltas + [] == deltas;
      if t.act == Buy {
        AfterBuyTick(init, t, lots, o, deltas, s, b);
        open, sold, out := o + [n], s, b;
      } else if t.act == Sell {
        SameLengths(init, deltas, s, b);
        out := b + seq(|o|, k => n);
        AfterSaleTick(init, t, lots, o, deltas, s, b, out);
        open, sold := [], s + o;
      } else {
        AfterQuietTick(init, t, lots, o, deltas, s, b);
        open, sold, out := o, s, b;
      }
    }
  }

  lemma SameLengths(ticks: seq<Tick>, deltas: seq<real>, sold: seq<nat>, out: seq<nat>)
    requires SoldFrom(ticks, deltas, sold, out)
    ensures |sold| == |out|
  {
  }

  /** A sale is at the close of its own candle, however the candles are cut into days. */
  lemma {:induction false} DaysConcatenate(held: seq<Position>, a: seq<Tick>, b: seq<Tick>)
    ensures Lots(held, a + b) == Lots(Lots(held, a), b)
    ensures Realised(held, a + b) == Realised(held, a) + Realised(Lots(held, a), b)
  {
    if b == [] {
      assert a + b == a;
    } else {
      assert (a + b)[..|a + b| - 1] == a + b[..|b| - 1];
      DaysConcatenate(held, a, b[..|b| - 1]);
    }
  }

  function Candles(days: seq<seq<Tick>>): seq<Tick> {
    if days == [] then [] else Candles(days[..|days| - 1]) + days[|days| - 1]
  }

  /** Every dollar is accounted for: funds plus what held shares cost is what the evaluation started with
      plus the profits and losses recorded. */
  predicate Balanced(initial: real, available: real, positions: seq<Position>, recorded: real) {
    SingleShares(positions) && available + Cost(positions) == initial + recorded
  }

  lemma BuyKeepsBalance(initial: real, available: real, positions: seq<Position>, recorded: real, close: real)
    requires Balanced(initial, available, positions, recorded)
    ensures Balanced(initial, available - close, positions + [Position(close, 1)], recorded)
  {
    assert (positions + [Position(close, 1)])[..|positions|] == positions;
  }

  lemma SaleKeepsBalance(
    initial: real, available: real, available': real, positions: seq<Position>, recorded: real, gained: real)
    requires Balanced(initial, available, positions, recorded)
    requires available' == available + Cost(positions) + gained
    ensures Balanced(initial, available', [], recorded + gained)
  {
  }

  /** What one more candle does to what is held and what is recorded. */
  lemma OneMoreTick(held: seq<Position>, ticks: seq<Tick>, i: nat)
    requires i < |ticks|
    ensures var lots, t := Lots(held, ticks[..i]), ticks[i];
            && Lots(held, ticks[..i + 1]) ==
               (if t.act == Buy then lots + [Position(t.close, 1)] else if t.act == Sell then [] else lots)
            && Realised(held, ticks[..i + 1]) ==
               Realised(held, ticks[..i]) + (if t.act == Sell then Deltas(t.close, lots) else [])
  {
    assert ticks[..i + 1][..i] == ticks[..i];
  }

  lemma NothingSold(ps: seq<Position>, close: real)
    ensures Cost(ps[..0]) == 0.0 && Deltas(close, ps[..0]) == []
  {
  }

  lemma NothingYet(held: seq<Position>, ticks: seq<Tick>)
    ensures Lots(held, ticks[..0]) == held && Realised(held, ticks[..0]) == [] && Gains([]) == 0 && Sum([]) == 0.0
  {
  }

  class Evaluation {
    const initialFunds: real
    var availableFunds: real
    var positions: seq<Position>
    /** The sum of the deltas recorded before the day under way. */
    ghost var settled: real

    ghost predicate Valid()
      reads this
    {
      Balanced(initialFunds, availableFunds, positions, settled)
    }

    constructor (initialFunds: real)
      ensures Valid() && this.initialFunds == initialFunds == availableFunds
      ensures positions == [] && settled == 0.0
    {
      this.initialFunds, availableFunds, positions, settled := initialFunds, initialFunds, [], 0.0;
    }

    /** Sells every position at the close, recording one delta for each. */
    method SellAll(close: real, day: Metrics) returns (m: Metrics)
      requires SingleShares(positions)
      modifies this`availableFunds, this`positions
      ensures positions == []
      ensures m.initialFunds == day.initialFunds
      ensures m.deltas == day.deltas + Deltas(close, old(positions))
      ensures m.sales == day.sales + |old(positions)|
      ensures day.profitableSales == Gains(day.deltas) ==> m.profitableSales == Gains(m.deltas)
      ensures availableFunds == old(availableFunds) + Cost(old(positions)) + Sum(m.deltas) - Sum(day.deltas)
    {
      hide Cost, Sum, Gains, Deltas;
      m := day;
      NothingSold(positions, close);
      for i := 0 to |positions|
        invariant positions == old(positions)
        invariant m.initialFunds == day.initialFunds && m.deltas == day.deltas + Deltas(close, positions[..i])
        invariant m.sales == day.sales + i
        invariant day.profitableSales == Gains(day.deltas) ==> m.profitableSales == Gains(m.deltas)
        invariant availableFunds == old(availableFunds) + Cost(positions[..i]) + Sum(m.deltas) - Sum(day.deltas)
      {
        var p := positions[i];
        OneMoreSale(positions, i, close);
        m := m.(sales := m.sales + 1);
        var delta := close - p.price;
        OneMore(m.deltas, delta);
        assert m.deltas + [delta] == day.deltas + Deltas(close, positions[..i + 1]);
        m := m.(deltas := m.deltas + [delta]);
        if p.price < close {
          m := m.(profitableSales := m.profitableSales + 1);
        }
        availableFunds := availableFunds + close * p.quantity as real;
      }
      assert positions[..|positions|] == positions;
      positions := [];
    }

    /** One day's candles. */
    method RunDay(ticks: seq<Tick>) returns (m: Metrics)
      requires Valid()
      modifies this
      ensures Valid() && settled == old(settled) + Sum(m.deltas)
      ensures positions == Lots(old(positions), ticks) && m.deltas == Realised(old(positions), ticks)
      ensures m.initialFunds == old(availableFunds) && m.availableFunds == availableFunds
      ensures CountsItsDeltas(m)
    {
      hide Lots, Realised, Cost, Deltas, Gains, Sum;
      m := Metrics(availableFunds, 0.0, 0, 0, []);
      NothingYet(positions, ticks);
      for i := 0 to |ticks|
        invariant settled == old(settled)
        invariant positions == Lots(old(positions), ticks[..i]) && m.deltas == Realised(old(positions), ticks[..i])
        invariant Balanced(initialFunds, availableFunds, positions, settled + Sum(m.deltas))
        invariant m.initialFunds == old(availableFunds)
        invariant CountsItsDeltas(m)
      {
        OneMoreTick(old(positions), ticks, i);
        var close := ticks[i].close;
        if ticks[i].act == Buy {
          BuyKeepsBalance(initialFunds, availableFunds, positions, settled + Sum(m.deltas), close);
          availableFunds := availableFunds - close;
          positions := positions + [Position(close, 1)];
        } else if ticks[i].act == Sell && positions != [] {
          ghost var before, held, funds := Sum(m.deltas), positions, availableFunds;
          m := SellAll(close, m);
          SaleKeepsBalance(initialFunds, funds, availableFunds, held, settled + before, Sum(m.deltas) - before);
        }
      }
      assert ticks[..|ticks|] == ticks;
      m := m.(availableFunds := availableFunds);
      settled := settled + Sum(m.deltas);
    }
  }

  function AllDeltas(days: seq<Metrics>): seq<real> {
    if days == [] then [] else AllDeltas(days[..|days| - 1]) + days[|days| - 1].deltas
  }

  /** Each day starts with the funds the day before ended with; the last leaves `available`. */
  predicate Chained(initial: real, days: seq<Metrics>, available: real) {
    if days == [] then available == initial
    else
      var last := days[|days| - 1];
      Chained(initial, days[..|days| - 1], last.initialFunds) && last.availableFunds == available
  }

  predicate CountsItsDeltas(m: Metrics) {
    m.sales == |m.deltas| && m.profitableSales == Gains(m.deltas)
  }

  lemma NothingRun(initial: real, days: seq<seq<Tick>>)
    ensures AllDeltas([]) == [] && Sum([]) == 0.0 && Chained(initial, [], initial)
    ensures Candles(days[..0]) == [] && Lots([], []) == [] && Realised([], []) == []
  {
  }

  lemma OneMoreDay(days: seq<seq<Tick>>, d: nat, initial: real, metrics: seq<Metrics>, m: Metrics)
    requires d < |days| && Chained(initial, metrics, m.initialFunds)
    ensures Candles(days[..d + 1]) == Candles(days[..d]) + days[d]
    ensures AllDeltas(metrics + [m]) == AllDeltas(metrics) + m.deltas
    ensures Chained(initial, metrics + [m], m.availableFunds)
  {
    assert days[..d + 1][..d] == days[..d];
    assert (metrics + [m])[..|metrics|] == metrics;
  }

  /** A whole evaluation: what is held and what was recorded follow from the decisions alone, and after every
      day the funds and the cost of what is held balance the initial funds and all deltas recorded. */
  method Run(initialFunds: real, days: seq<seq<Tick>>) returns (e: Evaluation, metrics: seq<Metrics>)
    ensures fresh(e) && e.initialFunds == initialFunds && |metrics| == |days|
    ensures e.positions == Lots([], Candles(days)) && AllDeltas(metrics) == Realised([], Candles(days))
    ensures Balanced(initialFunds, e.availableFunds, e.positions, Sum(AllDeltas(metrics)))
    ensures Chained(initialFunds, metrics, e.availableFunds)
    ensures forall d :: 0 <= d < |metrics| ==> CountsItsDeltas(metrics[d])
  {
    hide AllDeltas, Sum, Chained, Candles, Lots, Realised, Cost, Gains, CountsItsDeltas;
    NothingRun(initialFunds, days);
    e := new Evaluation(initialFunds);
    metrics := [];
    for d := 0 to |days|
      invariant fresh(e) && e.initialFunds == initialFunds && |metrics| == d
      invariant e.Valid() && e.settled == Sum(AllDeltas(metrics))
      invariant e.positions == Lots([], Candles(days[..d])) && AllDeltas(metrics) == Realised([], Candles(days[..d]))
      invariant Chained(initialFunds, metrics, e.availableFunds)
      invariant forall k :: 0 <= k < d ==> CountsItsDeltas(metrics[k])
    {
      var m := e.RunDay(days[d]);
      SumConcat(AllDeltas(metrics), m.deltas);
      DaysConcatenate([], Candles(days[..d]), days[d]);
      OneMoreDay(days, d, initialFunds, metrics, m);
      metrics := metrics + [m];
    }
    assert days[..|days|] == days;
  }
}
