/** The simulated executor of trading/executor.cc. Money is real, share counts are unbounded integers. */
module Executor {
  import opened Arithmetic
  import opened Wrappers

  type Symbol = nat

  datatype Position = Position(symbol: Symbol, price: real, quantity: int) {
    function Cost(): real {
      price * quantity as real
    }
  }

  datatype Market = Market(
    symbol: Symbol, bid: real, bidLots: int, ask: real, askLots: int, last: real, lastLots: int, emittedAt: int)

  /** Fractions of funds: at most `fundUse` of the initial funds at work at a time, at most `buySize` of the
      available funds in one order. */
  datatype Limits = Limits(fundUse: real, buySize: real)

  datatype State = State(
    initial: real, available: real, positions: map<Symbol, seq<Position>>, market: map<Symbol, Market>,
    sales: nat, profitableSales: nat)

  /** Conversion to int drops the fraction. */
  function Truncate(x: real): int {
    if x >= 0.0 then x.Floor else -((-x).Floor)
  }

  function PurchaseTarget(s: State, l: Limits): real {
    var utilized := MaxReal(0.0, s.initial - s.available);
    MinReal(s.available * l.buySize, s.initial * l.fundUse - utilized)
  }

  function BuyQuantity(s: State, l: Limits, price: real): (q: nat)
    requires price > 0.0
  {
    var q := Truncate(PurchaseTarget(s, l) / price);
    if q > 0 then q else 0
  }

  lemma QuotientTimes(x: real, p: real, q: int)
    requires p > 0.0
    ensures q as real <= x / p <==> p * q as real <= x
  {
    var d := x / p;
    assert p * d == x;
    if q as real <= d {
      assert p * (d - q as real) >= 0.0;
    } else {
      assert p * (q as real - d) > 0.0;
    }
  }

  /** The quantity bought is the largest whole number of shares the target pays for. */
  lemma BuyQuantityIsLargest(s: State, l: Limits, price: real)
    requires price > 0.0
    ensures var q := BuyQuantity(s, l, price); var target := PurchaseTarget(s, l);
            && (q > 0 ==> price * q as real <= target)
            && target < price * (q + 1) as real
            && (q > 0 <==> price <= target)
  {
    var target := PurchaseTarget(s, l);
    var q := BuyQuantity(s, l, price);
    QuotientTimes(target, price, q);
    QuotientTimes(target, price, q + 1);
    QuotientTimes(target, price, 1);
    assert price * 1 as real == price;
    if target / price < 0.0 {
      assert q == 0;
    }
  }

  function PositionsOf(s: State, symbol: Symbol): seq<Position> {
    if symbol in s.positions then s.positions[symbol] else []
  }

  function Quantity(ps: seq<Position>): int {
    if ps == [] then 0 else Quantity(ps[..|ps| - 1]) + ps[|ps| - 1].quantity
  }

  function Profitable(ps: seq<Position>, price: real): (n: nat)
    ensures n <= |ps|
  {
    if ps == [] then 0
    else Profitable(ps[..|ps| - 1], price) + (if price > ps[|ps| - 1].price then 1 else 0)
  }

  /** The positions bought below a price. */
  ghost function Winners(ps: seq<Position>, price: real): set<nat> {
    set i: nat | i < |ps| && ps[i].price < price
  }

  lemma {:induction false} ProfitableCounts(ps: seq<Position>, price: real)
    ensures Profitable(ps, price) == |Winners(ps, price)|
  {
    if ps == [] {
      assert Winners(ps, price) == {};
    } else {
      var n := |ps| - 1;
      ProfitableCounts(ps[..n], price);
      assert Winners(ps, price) == Winners(ps[..n], price) + if price > ps[n].price then {n} else {};
    }
  }

  lemma {:induction false} QuantityIsSum(ps: seq<Position>, qs: seq<Position>)
    ensures Quantity(ps + qs) == Quantity(ps) + Quantity(qs)
    ensures |ps| == 1 ==> Quantity(ps) == ps[0].quantity
  {
    if qs == [] {
      assert ps + qs == ps;
      assert |ps| == 1 ==> ps[..0] == [];
    } else {
      assert (ps + qs)[..|ps + qs| - 1] == ps + qs[..|qs| - 1];
      QuantityIsSum(ps, qs[..|qs| - 1]);
    }
  }

  function Held(s: State, symbol: Symbol): int {
    Quantity(PositionsOf(s, symbol))
  }

  // ---------------------------------------------------------------- the three operations

  function AfterBuy(s: State, l: Limits, symbol: Symbol): (State, Option<Position>)
    requires symbol in s.market ==> s.market[symbol].ask > 0.0
  {
    if symbol !in s.market then (s, None)
    else
      var price := s.market[symbol].ask;
      var q := BuyQuantity(s, l, price);
      if q == 0 then (s, None)
      else
        var p := Position(symbol, price, q);
        (s.(positions := s.positions[symbol := PositionsOf(s, symbol) + [p]],
            available := s.available - p.Cost()), Some(p))
  }

  /** An order goes through exactly when the market has quoted the symbol and the target pays for a share. */
  lemma BuysWhenAffordable(s: State, l: Limits, symbol: Symbol)
    requires symbol in s.market ==> s.market[symbol].ask > 0.0
    ensures var (s', p) := AfterBuy(s, l, symbol);
            && (p.Some? <==> symbol in s.market && PurchaseTarget(s, l) >= s.market[symbol].ask)
            && (p.None? ==> s' == s)
  {
    hide BuyQuantity, PurchaseTarget, Position.Cost;
    if symbol in s.market {
      BuyQuantityIsLargest(s, l, s.market[symbol].ask);
    }
  }

  /** The number of shares bought, from the state alone: n shares are bought or exceeded exactly when n fit both in
      the order's share of the available funds and in what the exposure limit leaves beside the funds already at
      work. */
  lemma BuysAllThatFits(s: State, l: Limits, symbol: Symbol, n: int)
    requires symbol in s.market && s.market[symbol].ask > 0.0 && n > 0
    ensures var p := AfterBuy(s, l, symbol).1; var price := s.market[symbol].ask;
            var bought := if p.Some? then p.value.quantity else 0;
            var atWork := if s.initial > s.available then s.initial - s.available else 0.0;
            n <= bought <==>
            price * n as real <= s.available * l.buySize && price * n as real + atWork <= s.initial * l.fundUse
  {
    var price := s.market[symbol].ask;
    BuyQuantityIsLargest(s, l, price);
    QuantityReaches(s, l, price, n);
    hide BuyQuantity, Position.Cost;
  }

  lemma QuantityReaches(s: State, l: Limits, price: real, n: int)
    requires price > 0.0 && n > 0
    ensures n <= BuyQuantity(s, l, price) <==> price * n as real <= PurchaseTarget(s, l)
  {
    QuotientTimes(PurchaseTarget(s, l), price, n);
    hide PurchaseTarget;
  }

  function AfterSell(s: State, symbol: Symbol): (State, Option<Position>) {
    if symbol !in s.market then (s, None)
    else
      var price := s.market[symbol].bid;
      var ps := PositionsOf(s, symbol);
      var q := Quantity(ps);
      var counted := s.(sales := s.sales + |ps|, profitableSales := s.profitableSales + Profitable(ps, price));
      if q == 0 then (counted.(positions := s.positions[symbol := ps]), None)
      else
        var sold := Position(symbol, price, q);
        (counted.(positions := s.positions[symbol := []], available := s.available + sold.Cost()), Some(sold))
  }

  function Merged(cached: Market, m: Market): Market {
    var c := cached.(symbol := m.symbol, emittedAt := m.emittedAt);
    var c1 := if m.bidLots > 0 then c.(bid := m.bid, bidLots := m.bidLots) else c;
    var c2 := if m.askLots > 0 then c1.(ask := m.ask, askLots := m.askLots) else c1;
    if m.lastLots > 0 then c2.(last := m.last, lastLots := m.lastLots) else c2
  }

  function NoQuote(symbol: Symbol): Market {
    Market(symbol, 0.0, 0, 0.0, 0, 0.0, 0, 0)
  }

  function AfterUpdate(s: State, m: Market): State {
    var cached := if m.symbol in s.market then s.market[m.symbol] else NoQuote(m.symbol);
    s.(market := s.market[m.symbol := Merged(cached, m)])
  }

  class Executor {
    const limits: Limits
    const initialFunds: real
    var availableFunds: real
    var positions: map<Symbol, seq<Position>>
    var market: map<Symbol, Market>
    var sales: nat
    var profitableSales: nat

    function View(): State
      reads this
    {
      State(initialFunds, availableFunds, positions, market, sales, profitableSales)
    }

    constructor (limits: Limits, initialFunds: real, availableFunds: real, positions: map<Symbol, seq<Position>>)
      ensures this.limits == limits
      ensures View() == State(initialFunds, availableFunds, positions, map[], 0, 0)
    {
      this.limits, this.initialFunds := limits, initialFunds;
      this.availableFunds, this.positions := availableFunds, positions;
      market, sales, profitableSales := map[], 0, 0;
    }

    method Buy(symbol: Symbol) returns (bought: Option<Position>)
      requires symbol in market ==> market[symbol].ask > 0.0
      modifies this
      ensures (View(), bought) == AfterBuy(old(View()), limits, symbol)
    {
      if symbol !in market { return None; }
      var price := market[symbol].ask;
      var quantity := BuyQuantity(View(), limits, price);
      if quantity == 0 { return None; }
      var p := Position(symbol, price, quantity);
      positions := positions[symbol := PositionsOf(View(), symbol) + [p]];
      availableFunds := availableFunds - p.Cost();
      bought := Some(p);
      assert View() == AfterBuy(old(View()), limits, symbol).0;
    }

    method Sell(symbol: Symbol) returns (sold: Option<Position>)
      modifies this
      ensures (View(), sold) == AfterSell(old(View()), symbol)
    {
      if symbol !in market { return None; }
      var price := market[symbol].bid;
      var quantity := 0;
      var ps := PositionsOf(View(), symbol);
      positions := positions[symbol := ps];
      for i := 0 to |ps|
        invariant quantity == Quantity(ps[..i])
        invariant sales == old(sales) + i
        invariant profitableSales == old(profitableSales) + Profitable(ps[..i], price)
        invariant availableFunds == old(availableFunds) && market == old(market)
        invariant positions == old(positions)[symbol := ps]
      {
        assert ps[..i + 1][..i] == ps[..i];
        sales := sales + 1;
        if price > ps[i].price {
          profitableSales := profitableSales + 1;
        }
        quantity := quantity + ps[i].quantity;
      }
      assert ps[..|ps|] == ps;
      if quantity == 0 {
        assert View() == AfterSell(old(View()), symbol).0;
        return None;
      }
      positions := positions[symbol := []];
      assert positions == old(positions)[symbol := []];
      var p := Position(symbol, price, quantity);
      availableFunds := availableFunds + p.Cost();
      sold := Some(p);
      assert View() == AfterSell(old(View()), symbol).0;
    }

    method UpdateMarket(m: Market)
      modifies this`market
      ensures View() == AfterUpdate(old(View()), m)
    {
      var cached := if m.symbol in market then market[m.symbol] else NoQuote(m.symbol);
      cached := cached.(symbol := m.symbol);
      if m.bidLots > 0 {
        cached := cached.(bid := m.bid, bidLots := m.bidLots);
      }
      if m.askLots > 0 {
        cached := cached.(ask := m.ask, askLots := m.askLots);
      }
      if m.lastLots > 0 {
        cached := cached.(last := m.last, lastLots := m.lastLots);
      }
      cached := cached.(emittedAt := m.emittedAt);
      market := market[m.symbol := cached];
    }
  }

  // ---------------------------------------------------------------- whole sessions

  datatype Event = Quote(m: Market) | BuyNow(symbol: Symbol) | SellNow(symbol: Symbol)

  datatype Trade = Bought(p: Position) | Sold(p: Position)

  /** Quoted asks are positive and quoted bids not negative; nobody buys on an ask that was never quoted. */
  predicate Sane(s: State, e: Event) {
    match e
    case Quote(m) => (m.askLots > 0 ==> m.ask > 0.0) && (m.bidLots > 0 ==> m.bid >= 0.0)
    case BuyNow(symbol) => symbol in s.market ==> s.market[symbol].ask > 0.0
    case SellNow(_) => true
  }

  function Apply(s: State, l: Limits, e: Event): (State, seq<Trade>)
    requires Sane(s, e)
  {
    match e
    case Quote(m) => (AfterUpdate(s, m), [])
    case BuyNow(symbol) =>
      var (s', p) := AfterBuy(s, l, symbol);
      (s', if p.Some? then [Bought(p.value)] else [])
    case SellNow(symbol) =>
      var (s', p) := AfterSell(s, symbol);
      (s', if p.Some? then [Sold(p.value)] else [])
  }

  /** A session: each state follows from the one before by an event, `trades` collects what was returned. */
  ghost predicate Session(l: Limits, states: seq<State>, events: seq<Event>, trades: seq<seq<Trade>>) {
    && |states| == |events| + 1 && |trades| == |events|
    && forall i :: 0 <= i < |events| ==>
         Sane(states[i], events[i]) && (states[i + 1], trades[i]) == Apply(states[i], l, events[i])
  }

  /** Bids are never negative and no position is. */
  predicate Sound(s: State) {
    && (forall x :: x in s.market ==> s.market[x].bid >= 0.0)
    && (forall x, i :: x in s.positions && 0 <= i < |s.positions[x]| ==> s.positions[x][i].quantity >= 0)
  }

  lemma {:induction false} QuantityNotNegative(ps: seq<Position>)
    requires forall i :: 0 <= i < |ps| ==> ps[i].quantity >= 0
    ensures Quantity(ps) >= 0
  {
    if ps != [] {
      QuantityNotNegative(ps[..|ps| - 1]);
    }
  }

  predicate WithinExposure(s: State, l: Limits) {
    s.available >= (1.0 - l.fundUse) * s.initial
  }

  /** A buy costs something, and at most its share of the funds just before it; afterwards the funds left
      respect the exposure limit. */
  lemma BuyRespectsLimits(s: State, l: Limits, symbol: Symbol)
    requires symbol in s.market && s.market[symbol].ask > 0.0
    requires AfterBuy(s, l, symbol).1.Some?
    ensures var (s', p) := AfterBuy(s, l, symbol); var cost := p.value.Cost();
            && p.value.quantity > 0
            && 0.0 < cost <= s.available * l.buySize
            && s'.available == s.available - cost
            && WithinExposure(s', l)
  {
    var price := s.market[symbol].ask;
    BuyQuantityIsLargest(s, l, price);
    var q := BuyQuantity(s, l, price);
    assert price * q as real > 0.0;
    assert (1.0 - l.fundUse) * s.initial == s.initial - s.initial * l.fundUse;
  }

  lemma ProductNotNegative(x: real, n: int)
    requires x >= 0.0 && n >= 0
    ensures x * n as real >= 0.0
  {
  }

  lemma SaleKeepsExposure(s: State, l: Limits, symbol: Symbol)
    requires Sound(s) && WithinExposure(s, l)
    ensures Sound(AfterSell(s, symbol).0) && WithinExposure(AfterSell(s, symbol).0, l)
    ensures AfterSell(s, symbol).0.initial == s.initial
  {
    var ps := PositionsOf(s, symbol);
    QuantityNotNegative(ps);
    if symbol in s.market {
      ProductNotNegative(s.market[symbol].bid, Quantity(ps));
    }
  }

  lemma PurchaseKeepsExposure(s: State, l: Limits, symbol: Symbol)
    requires Sound(s) && WithinExposure(s, l) && Sane(s, BuyNow(symbol))
    ensures Sound(AfterBuy(s, l, symbol).0) && WithinExposure(AfterBuy(s, l, symbol).0, l)
    ensures AfterBuy(s, l, symbol).0.initial == s.initial
  {
    if AfterBuy(s, l, symbol).1.Some? {
      BuyRespectsLimits(s, l, symbol);
    }
  }

  /** What one event keeps. */
  lemma EventKeepsExposure(s: State, l: Limits, e: Event)
    requires Sane(s, e) && Sound(s) && WithinExposure(s, l)
    ensures var (s', _) := Apply(s, l, e);
            Sound(s') && WithinExposure(s', l) && s'.initial == s.initial
  {
    match e
    case Quote(m) =>
    case BuyNow(symbol) => PurchaseKeepsExposure(s, l, symbol);
    case SellNow(symbol) => SaleKeepsExposure(s, l, symbol);
  }

  /** A session that starts with all its funds available starts within the limit just when the limit asks it to
      keep no more than it has. */
  lemma AllFundsWithinExposure(s: State, l: Limits)
    requires s.available == s.initial
    ensures WithinExposure(s, l) <==> l.fundUse * s.initial >= 0.0
    ensures l.fundUse >= 0.0 && s.initial >= 0.0 ==> WithinExposure(s, l)
  {
    assert (1.0 - l.fundUse) * s.initial == s.initial - l.fundUse * s.initial;
    if l.fundUse >= 0.0 && s.initial >= 0.0 {
      assert l.fundUse * s.initial >= 0.0;
    }
  }

  /** Over a whole session that starts within the limit, as every one with all its funds available does, the
      funds never fall below the share that must stay out of the market. */
  lemma {:induction false} ExposureBound(
    l: Limits, states: seq<State>, events: seq<Event>, trades: seq<seq<Trade>>, i: nat)
    requires Session(l, states, events, trades) && i < |states|
    requires Sound(states[0]) && WithinExposure(states[0], l)
    ensures Sound(states[i]) && WithinExposure(states[i], l) && states[i].initial == states[0].initial
  {
    if i > 0 {
      ExposureBound(l, states, events, trades, i - 1);
      EventKeepsExposure(states[i - 1], l, events[i - 1]);
    }
  }

  // ---------------------------------------------------------------- the quotes

  datatype Side = Bid | Ask | Last

  function Quoted(m: Market, side: Side): (real, int) {
    match side
    case Bid => (m.bid, m.bidLots)
    case Ask => (m.ask, m.askLots)
    case Last => (m.last, m.lastLots)
  }

  /** The latest quote of one side that offered anything. */
  function Latest(events: seq<Event>, symbol: Symbol, side: Side): (real, int) {
    if events == [] then (0.0, 0)
    else
      var e := events[|events| - 1];
      if e.Quote? && e.m.symbol == symbol && Quoted(e.m, side).1 > 0 then Quoted(e.m, side)
      else Latest(events[..|events| - 1], symbol, side)
  }

  /** When the latest quote of a symbol was emitted. */
  function LatestEmitted(events: seq<Event>, symbol: Symbol): int {
    if events == [] then 0
    else
      var e := events[|events| - 1];
      if e.Quote? && e.m.symbol == symbol then e.m.emittedAt else LatestEmitted(events[..|events| - 1], symbol)
  }

  predicate EverQuoted(events: seq<Event>, symbol: Symbol) {
    exists k :: 0 <= k < |events| && events[k].Quote? && events[k].m.symbol == symbol
  }

  lemma EventQuotes(s: State, l: Limits, e: Event, symbol: Symbol, side: Side)
    requires Sane(s, e)
    ensures var s' := Apply(s, l, e).0; var mine := e.Quote? && e.m.symbol == symbol;
            && (symbol in s'.market <==> symbol in s.market || mine)
            && (symbol in s'.market ==>
                  Quoted(s'.market[symbol], side) ==
                  if mine && Quoted(e.m, side).1 > 0 then Quoted(e.m, side)
                  else if symbol in s.market then Quoted(s.market[symbol], side) else (0.0, 0))
            && (symbol in s'.market ==>
                  s'.market[symbol].emittedAt ==
                  (if mine then e.m.emittedAt else s.market[symbol].emittedAt))
            && (mine ==> s'.market[symbol].symbol == symbol)
            && (!mine && symbol in s.market ==> s'.market[symbol] == s.market[symbol])
  {
  }

  /** The session trades on the latest quotes: each side of a symbol holds what was last offered on it, and
      nothing if it never was. */
  lemma {:induction false} CacheHoldsLatest(
    l: Limits, states: seq<State>, events: seq<Event>, trades: seq<seq<Trade>>, i: nat, symbol: Symbol, side: Side)
    requires Session(l, states, events, trades) && i < |states| && states[0].market == map[]
    ensures symbol in states[i].market <==> EverQuoted(events[..i], symbol)
    ensures symbol in states[i].market ==> Quoted(states[i].market[symbol], side) == Latest(events[..i], symbol, side)
    ensures symbol !in states[i].market ==> Latest(events[..i], symbol, side) == (0.0, 0)
    ensures symbol in states[i].market ==>
              && states[i].market[symbol].symbol == symbol
              && states[i].market[symbol].emittedAt == LatestEmitted(events[..i], symbol)
  {
    if i > 0 {
      CacheHoldsLatest(l, states, events, trades, i - 1, symbol, side);
      EventQuotes(states[i - 1], l, events[i - 1], symbol, side);
      assert events[..i][..i - 1] == events[..i - 1];
      assert forall k :: 0 <= k < i - 1 ==> events[..i][k] == events[..i - 1][k];
      assert events[..i][i - 1] == events[i - 1];
    }
  }

  // ---------------------------------------------------------------- the ledger

  function CashFlow(t: Trade): real {
    match t
    case Bought(p) => -p.Cost()
    case Sold(p) => p.Cost()
  }

  function ReplayCash(start: real, trades: seq<seq<Trade>>): real {
    if trades == [] then start
    else
      var before, last := ReplayCash(start, trades[..|trades| - 1]), trades[|trades| - 1];
      if last == [] then before else before + CashFlow(last[0])
  }

  function HeldChange(t: Trade, symbol: Symbol): int {
    match t
    case Bought(p) => if p.symbol == symbol then p.quantity else 0
    case Sold(p) => if p.symbol == symbol then -p.quantity else 0
  }

  function ReplayHeld(start: int, trades: seq<seq<Trade>>, symbol: Symbol): int {
    if trades == [] then start
    else
      var before, last := ReplayHeld(start, trades[..|trades| - 1], symbol), trades[|trades| - 1];
      if last == [] then before else before + HeldChange(last[0], symbol)
  }

  lemma BuyLedger(s: State, l: Limits, bought: Symbol, symbol: Symbol)
    requires Sane(s, BuyNow(bought))
    ensures var (s', p) := AfterBuy(s, l, bought);
            && s'.available == s.available - (if p.Some? then p.value.Cost() else 0.0)
            && Held(s', symbol) == Held(s, symbol) + (if p.Some? && symbol == bought then p.value.quantity else 0)
            && (p.Some? ==> p.value.symbol == bought && p.value.price == s.market[bought].ask)
            && PositionsOf(s', symbol) ==
               PositionsOf(s, symbol) + (if p.Some? && symbol == bought then [p.value] else [])
            && s'.initial == s.initial && s'.market == s.market
            && s'.sales == s.sales && s'.profitableSales == s.profitableSales
  {
    var (s', p) := AfterBuy(s, l, bought);
    if p.Some? {
      var ps := PositionsOf(s', bought);
      assert ps[..|ps| - 1] == PositionsOf(s, bought);
    }
  }

  lemma SellLedger(s: State, sold: Symbol, symbol: Symbol)
    ensures var (s', p) := AfterSell(s, sold);
            && s'.available == s.available + (if p.Some? then p.value.Cost() else 0.0)
            && Held(s', symbol) == Held(s, symbol) - (if p.Some? && symbol == sold then p.value.quantity else 0)
            && (p.Some? <==> sold in s.market && Held(s, sold) != 0)
            && (p.Some? ==> p.value.symbol == sold && p.value.price == s.market[sold].bid)
            && (p.Some? ==> PositionsOf(s', sold) == [])
            && s'.sales == s.sales + (if sold in s.market then |PositionsOf(s, sold)| else 0)
            && s'.profitableSales ==
               s.profitableSales + (if sold in s.market then |Winners(PositionsOf(s, sold), s.market[sold].bid)| else 0)
            && (symbol != sold ==> PositionsOf(s', symbol) == PositionsOf(s, symbol))
            && s'.initial == s.initial && s'.market == s.market
  {
    if sold in s.market {
      ProfitableCounts(PositionsOf(s, sold), s.market[sold].bid);
    }
  }

  lemma QuoteLedger(s: State, m: Market, symbol: Symbol)
    ensures AfterUpdate(s, m).available == s.available && Held(AfterUpdate(s, m), symbol) == Held(s, symbol)
  {
  }

  lemma EventLedger(s: State, l: Limits, e: Event, symbol: Symbol)
    requires Sane(s, e)
    ensures var (s', ts) := Apply(s, l, e);
            && |ts| <= 1
            && s'.available == s.available + (if ts == [] then 0.0 else CashFlow(ts[0]))
            && Held(s', symbol) == Held(s, symbol) + (if ts == [] then 0 else HeldChange(ts[0], symbol))
  {
    hide AfterBuy, AfterSell, AfterUpdate, Held, Position.Cost;
    match e
    case Quote(m) => QuoteLedger(s, m, symbol);
    case BuyNow(bought) => BuyLedger(s, l, bought, symbol);
    case SellNow(sold) => SellLedger(s, sold, symbol);
  }

  /** Replaying the returned trades from the starting state reproduces the cash and, symbol by symbol, the
      number of shares held at any point of the session. */
  lemma {:induction false} LedgerReplays(
    l: Limits, states: seq<State>, events: seq<Event>, trades: seq<seq<Trade>>, i: nat, symbol: Symbol)
    requires Session(l, states, events, trades) && i < |states|
    ensures states[i].available == ReplayCash(states[0].available, trades[..i])
    ensures Held(states[i], symbol) == ReplayHeld(Held(states[0], symbol), trades[..i], symbol)
  {
    if i > 0 {
      LedgerReplays(l, states, events, trades, i - 1, symbol);
      EventLedger(states[i - 1], l, events[i - 1], symbol);
      assert trades[..i][..i - 1] == trades[..i - 1];
    }
  }
}
