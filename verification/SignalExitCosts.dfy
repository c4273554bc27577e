/** Costs never help a `signal_exit` book, as a property of two runs of one signal. */
module SignalExitCosts {
  import opened Reals
  import opened Wrappers
  import opened DailyTape
  import opened SignalExit
  import opened SignalExitLedger

  ghost predicate Cheaper(a: Costs, b: Costs) {
    a.takerFee <= b.takerFee && a.slippage <= b.slippage
  }

  /** The same bars, signal and stop, run under two cost models. */
  ghost predicate SameTrading(r1: Rule, r2: Rule) {
    && r1.Valid() && r2.Valid()
    && r1.bars == r2.bars && r1.signal == r2.signal && r1.stopFrac == r2.stopFrac
    && Cheaper(r1.costs, r2.costs)
  }

  ghost predicate PositiveLows(bars: DailyBars)
    requires bars.Valid()
  {
    forall i :: 0 <= i < bars.Length() ==> bars.low[i] > 0.0
  }

  ghost predicate LowsWithinOpens(bars: DailyBars)
    requires bars.Valid()
  {
    forall i :: 0 <= i < bars.Length() ==> bars.low[i] <= bars.open[i]
  }

  /** The two runs see the same breaches: the stop is off, the fills are alike, no low can reach
      a stop of nothing, or every entry is stopped out on its own day. */
  ghost predicate SameStops(r1: Rule, r2: Rule)
    requires r1.bars.Valid()
  {
    || r1.stopFrac <= 0.0
    || r1.costs.slippage == r2.costs.slippage
    || (r1.stopFrac >= 1.0 && PositiveLows(r1.bars))
    || (StopAboveOpen(r1.costs, r1.stopFrac) && LowsWithinOpens(r1.bars))
  }

  /** An entry's stop is no lower than the open it was bought at. */
  predicate StopAboveOpen(c: Costs, stopFrac: real) {
    (1.0 + c.slippage) * (1.0 - stopFrac) >= 1.0
  }

  // ----- one fill

  lemma MulMono(a: real, b: real, x: real, y: real)
    requires a >= b >= 0.0 && x >= y >= 0.0
    ensures a * x >= b * y
  {
    assert a * x - b * x == (a - b) * x >= 0.0;
    assert b * x - b * y == b * (x - y) >= 0.0;
  }

  lemma DivMono(a: real, b: real, x: real, y: real)
    requires a >= b > 0.0 && 0.0 < x <= y
    ensures a / x >= b / y
  {
    var p, q := a / x, b / y;
    assert p * x == a && q * y == b;
  }

  lemma SellDominates(q1: real, q2: real, price: real, c1: Costs, c2: Costs)
    requires c1.Valid() && c2.Valid() && Cheaper(c1, c2) && q1 >= q2 > 0.0 && price > 0.0
    ensures SellFill(q1, price, c1).proceeds >= SellFill(q2, price, c2).proceeds > 0.0
  {
    var f1, f2 := SellPrice(price, c1), SellPrice(price, c2);
    MulMono(price, price, 1.0 - c1.slippage, 1.0 - c2.slippage);
    CollectDominates(q1, q2, f1, f2, c1.takerFee, c2.takerFee);
  }

  lemma CollectDominates(q1: real, q2: real, f1: real, f2: real, t1: real, t2: real)
    requires q1 >= q2 > 0.0 && f1 >= f2 > 0.0 && 0.0 <= t1 <= t2 < 1.0
    ensures Collect(q1, f1, t1).proceeds >= Collect(q2, f2, t2).proceeds > 0.0
  {
    var g1, g2 := q1 * f1, q2 * f2;
    MulSign(q2, f2);
    MulMono(q1, q2, f1, f2);
    MulMono(g1, g2, 1.0 - t1, 1.0 - t2);
    assert g1 * (1.0 - t1) == g1 - g1 * t1;
    assert g2 * (1.0 - t2) == g2 - g2 * t2;
  }

  lemma BuyPriceDominates(price: real, c1: Costs, c2: Costs)
    requires c1.Valid() && c2.Valid() && Cheaper(c1, c2) && price > 0.0
    ensures 0.0 < BuyPrice(price, c1) <= BuyPrice(price, c2)
  {
    MulMono(price, price, 1.0 + c2.slippage, 1.0 + c1.slippage);
  }

  lemma BuyDominates(cash1: real, cash2: real, price: real, c1: Costs, c2: Costs)
    requires c1.Valid() && c2.Valid() && Cheaper(c1, c2) && cash1 >= cash2 > 0.0 && price > 0.0
    ensures BuyFill(cash1, price, c1).qty >= BuyFill(cash2, price, c2).qty > 0.0
  {
    var f1, f2 := BuyPrice(price, c1), BuyPrice(price, c2);
    BuyPriceDominates(price, c1, c2);
    SpendDominates(cash1, cash2, f1, f2, c1.takerFee, c2.takerFee);
  }

  lemma SpendDominates(cash1: real, cash2: real, f1: real, f2: real, t1: real, t2: real)
    requires cash1 >= cash2 > 0.0 && 0.0 < f1 <= f2 && 0.0 <= t1 <= t2
    ensures Spend(cash1, f1, t1).qty >= Spend(cash2, f2, t2).qty
  {
    MulSign(f1, 1.0 + t1);
    MulMono(f2, f1, 1.0 + t2, 1.0 + t1);
    DivMono(cash1, cash2, f1 * (1.0 + t1), f2 * (1.0 + t2));
  }

  // ----- one day

  /** Two books that traded alike; the first is never behind. */
  ghost predicate Ahead(b1: Book, b2: Book) {
    && AllInOrOut(b1) && AllInOrOut(b2)
    && b1.machine == b2.machine
    && b1.ledger.cash >= b2.ledger.cash
    && b1.ledger.qty >= b2.ledger.qty
  }

  predicate Reached(stop: Option<real>, low: real) {
    stop.Some? && low <= stop.value
  }

  /** No low of these bars reaches one of the two stops and not the other. */
  ghost predicate Alike(stop1: Option<real>, stop2: Option<real>, bars: DailyBars)
    requires bars.Valid()
  {
    forall i :: 0 <= i < bars.Length() ==> (Reached(stop1, bars.low[i]) <==> Reached(stop2, bars.low[i]))
  }

  /** Both stops are reached today, or they stay alike. */
  ghost predicate AlikeToday(b1: Book, b2: Book, bars: DailyBars, d: int)
    requires bars.Valid() && 0 <= d < bars.Length()
  {
    || (Reached(b1.ledger.stop, bars.low[d]) && Reached(b2.ledger.stop, bars.low[d]))
    || Alike(b1.ledger.stop, b2.ledger.stop, bars)
  }

  ghost predicate PointsAhead(b1: Book, b2: Book) {
    && |b1.points| == |b2.points|
    && forall k :: 0 <= k < |b1.points| ==> b1.points[k] >= b2.points[k]
  }

  /** Before a day: the sale is already decided, or the stops are alike. */
  ghost predicate Settled(b1: Book, b2: Book, bars: DailyBars)
    requires bars.Valid()
  {
    b1.machine.stopPending || Alike(b1.ledger.stop, b2.ledger.stop, bars)
  }

  lemma StopSaleAhead(b1: Book, b2: Book, r1: Rule, r2: Rule, d: int)
    requires SameTrading(r1, r2) && 0 <= d < r1.bars.Length() && r1.bars.open[d] > 0.0
    requires Ahead(b1, b2) && Settled(b1, b2, r1.bars)
    ensures var s1, s2 := StopSale(b1, r1, d), StopSale(b2, r2, d);
            Ahead(s1, s2) && !s1.machine.stopPending && Alike(s1.ledger.stop, s2.ledger.stop, r1.bars)
  {
    if b1.machine.stopPending && b1.machine.long {
      SellDominates(b1.ledger.qty, b2.ledger.qty, r1.bars.open[d], r1.costs, r2.costs);
    }
  }

  lemma BuyLeavesNoCash(l: Ledger, ts: int, price: real, stopFrac: real, costs: Costs)
    requires costs.Valid() && price > 0.0 && l.cash > 0.0
    ensures var l' := l.Buy(ts, price, stopFrac, costs);
            && l'.cash == 0.0 && l'.qty == BuyFill(l.cash, price, costs).qty > 0.0
            && l'.stop == StopPrice(BuyPrice(price, costs), stopFrac)
  {
  }

  lemma EnterAhead(l1: Ledger, l2: Ledger, ts: int, price: real, stopFrac: real, c1: Costs, c2: Costs)
    requires c1.Valid() && c2.Valid() && Cheaper(c1, c2) && price > 0.0
    requires l1.cash >= l2.cash > 0.0
    ensures var l1', l2' := l1.Buy(ts, price, stopFrac, c1), l2.Buy(ts, price, stopFrac, c2);
            && l1'.cash == l2'.cash == 0.0 && l1'.qty >= l2'.qty > 0.0
            && l1'.stop == StopPrice(BuyPrice(price, c1), stopFrac)
            && l2'.stop == StopPrice(BuyPrice(price, c2), stopFrac)
  {
    BuyDominates(l1.cash, l2.cash, price, c1, c2);
    BuyLeavesNoCash(l1, ts, price, stopFrac, c1);
    BuyLeavesNoCash(l2, ts, price, stopFrac, c2);
  }

  lemma ScaledUp(price: real, up: real, keep: real)
    requires price > 0.0 && up * keep >= 1.0
    ensures (price * up) * keep >= price
  {
    MulLe(1.0, up * keep, price);
    assert (price * up) * keep == (up * keep) * price;
  }

  lemma StopNoLowerThanOpen(price: real, stopFrac: real, c: Costs)
    requires c.Valid() && price > 0.0 && StopAboveOpen(c, stopFrac) && stopFrac > 0.0
    ensures StopPrice(BuyPrice(price, c), stopFrac).value >= price
  {
    var up, keep := 1.0 + c.slippage, 1.0 - stopFrac;
    assert up * keep >= 1.0;
    assert BuyPrice(price, c) == price * up;
    ScaledUp(price, up, keep);
    assert StopPrice(BuyPrice(price, c), stopFrac).value == (price * up) * keep;
  }

  lemma StopAboveOpenRises(c1: Costs, c2: Costs, stopFrac: real)
    requires c1.slippage <= c2.slippage && StopAboveOpen(c1, stopFrac) && stopFrac < 1.0
    ensures StopAboveOpen(c2, stopFrac)
  {
    var up1, up2, keep := 1.0 + c1.slippage, 1.0 + c2.slippage, 1.0 - stopFrac;
    assert up1 * keep >= 1.0;
    MulLe(up1, up2, keep);
  }

  lemma NothingReachesZero(price: real, stopFrac: real, c: Costs)
    requires c.Valid() && price > 0.0 && stopFrac >= 1.0
    ensures StopPrice(BuyPrice(price, c), stopFrac).value <= 0.0
  {
    MulLe(1.0 - stopFrac, 0.0, BuyPrice(price, c));
  }

  /** The stops of two entries at one open. */
  lemma EntryStopsAlike(r1: Rule, r2: Rule, d: int)
    requires SameTrading(r1, r2) && SameStops(r1, r2) && 0 <= d < r1.bars.Length() && r1.bars.open[d] > 0.0
    ensures var stop1 := StopPrice(BuyPrice(r1.bars.open[d], r1.costs), r1.stopFrac);
            var stop2 := StopPrice(BuyPrice(r1.bars.open[d], r2.costs), r2.stopFrac);
            (Reached(stop1, r1.bars.low[d]) && Reached(stop2, r1.bars.low[d])) || Alike(stop1, stop2, r1.bars)
  {
    var open, stopFrac := r1.bars.open[d], r1.stopFrac;
    if r1.costs.slippage == r2.costs.slippage {
      SamePrice(open, r1.costs, r2.costs);
    } else if stopFrac >= 1.0 {
      NothingReachesZero(open, stopFrac, r1.costs);
      NothingReachesZero(open, stopFrac, r2.costs);
    } else if stopFrac > 0.0 {
      StopAboveOpenRises(r1.costs, r2.costs, stopFrac);
      StopNoLowerThanOpen(open, stopFrac, r1.costs);
      StopNoLowerThanOpen(open, stopFrac, r2.costs);
    }
    hide StopPrice, BuyPrice, StopAboveOpen;
  }

  lemma SamePrice(price: real, c1: Costs, c2: Costs)
    requires c1.Valid() && c2.Valid() && c1.slippage == c2.slippage
    ensures BuyPrice(price, c1) == BuyPrice(price, c2)
  {
  }

  lemma SignalActionKeepsAllIn(b: Book, r: Rule, d: int)
    requires r.Valid() && 0 <= d < r.bars.Length() && r.bars.open[d] > 0.0
    requires AllInOrOut(b) && !b.machine.stopPending
    ensures AllInOrOut(SignalAction(b, r, d))
  {
  }

  lemma SignalActionAhead(b1: Book, b2: Book, r1: Rule, r2: Rule, d: int)
    requires SameTrading(r1, r2) && SameStops(r1, r2) && 0 <= d < r1.bars.Length() && r1.bars.open[d] > 0.0
    requires Ahead(b1, b2) && !b1.machine.stopPending && Alike(b1.ledger.stop, b2.ledger.stop, r1.bars)
    ensures Ahead(SignalAction(b1, r1, d), SignalAction(b2, r2, d))
    ensures AlikeToday(SignalAction(b1, r1, d), SignalAction(b2, r2, d), r1.bars, d)
  {
    SignalActionKeepsAllIn(b1, r1, d);
    SignalActionKeepsAllIn(b2, r2, d);
    var open := r1.bars.open[d];
    match StepAction(b1.machine, r1.OnAt(d))
    case Exit =>
      SellDominates(b1.ledger.qty, b2.ledger.qty, open, r1.costs, r2.costs);
    case Enter =>
      EnterAhead(b1.ledger, b2.ledger, r1.bars.ts[d], open, r1.stopFrac, r1.costs, r2.costs);
      EntryStopsAlike(r1, r2, d);
    case Stay =>
  }

  lemma CloseAhead(b1: Book, b2: Book, r1: Rule, r2: Rule, d: int)
    requires SameTrading(r1, r2) && 0 <= d < r1.bars.Length()
    requires Ahead(b1, b2) && AlikeToday(b1, b2, r1.bars, d)
    ensures Ahead(CloseOfDay(b1, r1, d), CloseOfDay(b2, r2, d))
    ensures Settled(CloseOfDay(b1, r1, d), CloseOfDay(b2, r2, d), r1.bars)
  {
    assert Reached(b1.ledger.stop, r1.bars.low[d]) <==> Reached(b2.ledger.stop, r1.bars.low[d]);
  }

  lemma StartsAhead(r1: Rule, r2: Rule, startCash: real, start: int)
    requires SameTrading(r1, r2) && startCash > 0.0 && 0 <= start <= r1.bars.Length()
    ensures Ahead(Days(r1, startCash, start, start), Days(r2, startCash, start, start))
    ensures Settled(Days(r1, startCash, start, start), Days(r2, startCash, start, start), r1.bars)
  {
  }

  lemma NextDay(r: Rule, startCash: real, start: int, d: int)
    requires r.Valid() && 0 <= start < d <= r.bars.Length()
    ensures Days(r, startCash, start, d)
         == CloseOfDay(OpenActions(Days(r, startCash, start, d - 1), r, d - 1), r, d - 1)
  {
  }

  lemma DayAhead(b1: Book, b2: Book, r1: Rule, r2: Rule, d: int)
    requires SameTrading(r1, r2) && SameStops(r1, r2) && 0 <= d < r1.bars.Length() && r1.bars.open[d] > 0.0
    requires Ahead(b1, b2) && Settled(b1, b2, r1.bars) && b1.Coupled() && b2.Coupled()
    ensures var n1, n2 := CloseOfDay(OpenActions(b1, r1, d), r1, d), CloseOfDay(OpenActions(b2, r2, d), r2, d);
            Ahead(n1, n2) && Settled(n1, n2, r1.bars)
  {
    hide Ahead, Settled, SameStops, AlikeToday, AllInOrOut, Alike, CloseOfDay, SignalAction, StopSale;
    StopSaleAhead(b1, b2, r1, r2, d);
    var s1, s2 := StopSale(b1, r1, d), StopSale(b2, r2, d);
    SignalActionAhead(s1, s2, r1, r2, d);
    CloseAhead(SignalAction(s1, r1, d), SignalAction(s2, r2, d), r1, r2, d);
  }

  lemma {:induction false} DaysAhead(r1: Rule, r2: Rule, startCash: real, start: int, d: int)
    requires SameTrading(r1, r2) && SameStops(r1, r2) && PositivePrices(r1.bars) && startCash > 0.0
    requires 0 <= start <= d <= r1.bars.Length()
    ensures Ahead(Days(r1, startCash, start, d), Days(r2, startCash, start, d))
    ensures Settled(Days(r1, startCash, start, d), Days(r2, startCash, start, d), r1.bars)
    decreases d
  {
    hide Ahead, Settled, SameStops, CloseOfDay, OpenActions, Days;
    if d == start {
      StartsAhead(r1, r2, startCash, start);
    } else {
      DaysAhead(r1, r2, startCash, start, d - 1);
      DayAhead(Days(r1, startCash, start, d - 1), Days(r2, startCash, start, d - 1), r1, r2, d - 1);
      NextDay(r1, startCash, start, d);
      NextDay(r2, startCash, start, d);
    }
  }

  lemma MarkAhead(b1: Book, b2: Book, price: real)
    requires Ahead(b1, b2) && price > 0.0
    ensures b1.ledger.Marked(price) >= b2.ledger.Marked(price)
  {
    MulMono(b1.ledger.qty, b2.ledger.qty, price, price);
  }

  lemma PointsAheadByOne(b1: Book, b2: Book, p1: seq<real>, p2: seq<real>)
    requires |b1.points| == |p1| + 1 && |b2.points| == |p2| + 1 && b1.points[..|p1|] == p1 && b2.points[..|p2|] == p2
    requires |p1| == |p2| && (forall k :: 0 <= k < |p1| ==> p1[k] >= p2[k])
    requires b1.points[|p1|] >= b2.points[|p1|]
    ensures PointsAhead(b1, b2)
  {
    forall k | 0 <= k < |b1.points| ensures b1.points[k] >= b2.points[k] {
      if k < |p1| {
        assert b1.points[k] == p1[k] && b2.points[k] == p2[k];
      }
    }
  }

  lemma NextPointAhead(r1: Rule, r2: Rule, startCash: real, start: int, d: int)
    requires SameTrading(r1, r2) && SameStops(r1, r2) && PositivePrices(r1.bars) && startCash > 0.0
    requires 0 <= start < d <= r1.bars.Length()
    requires PointsAhead(Days(r1, startCash, start, d - 1), Days(r2, startCash, start, d - 1))
    ensures PointsAhead(Days(r1, startCash, start, d), Days(r2, startCash, start, d))
  {
    hide Days;
    DaysAhead(r1, r2, startCash, start, d);
    LastPoint(r1, startCash, start, d);
    LastPoint(r2, startCash, start, d);
    var b1, b2 := Days(r1, startCash, start, d), Days(r2, startCash, start, d);
    MarkAhead(b1, b2, r1.bars.close[d - 1]);
    PointsAheadByOne(b1, b2, Days(r1, startCash, start, d - 1).points, Days(r2, startCash, start, d - 1).points);
  }

  lemma {:induction false} DayPointsAhead(r1: Rule, r2: Rule, startCash: real, start: int, d: int)
    requires SameTrading(r1, r2) && SameStops(r1, r2) && PositivePrices(r1.bars) && startCash > 0.0
    requires 0 <= start <= d <= r1.bars.Length()
    ensures PointsAhead(Days(r1, startCash, start, d), Days(r2, startCash, start, d))
    decreases d
  {
    if d > start {
      DayPointsAhead(r1, r2, startCash, start, d - 1);
      NextPointAhead(r1, r2, startCash, start, d);
    }
  }

  lemma SettleAhead(b1: Book, b2: Book, r1: Rule, r2: Rule, e: int)
    requires SameTrading(r1, r2) && 1 <= e <= r1.bars.Length() && PositivePrices(r1.bars)
    requires Ahead(b1, b2) && PointsAhead(b1, b2) && |b1.points| > 0
    ensures PointsAhead(Settle(b1, r1, e), Settle(b2, r2, e))
  {
    if b1.ledger.trade.Some? {
      SellDominates(b1.ledger.qty, b2.ledger.qty, r1.bars.close[e - 1], r1.costs, r2.costs);
    }
  }

  /** The first run is at or above the second at every point, the ending cash included. */
  ghost predicate NeverBehind(r1: Rule, r2: Rule, startCash: real, start: int, end: int)
    requires r1.Valid() && r2.Valid()
  {
    var e1, e2 := Score(r1, startCash, start, end).equity, Score(r2, startCash, start, end).equity;
    && |e1| == |e2|
    && forall k :: 0 <= k < |e1| ==> e1[k] >= e2[k]
  }

  /** As long as the two see the same breaches, the cheaper run is never behind. */
  lemma CostsNeverHelp(r1: Rule, r2: Rule, startCash: real, start: int, end: int)
    requires SameTrading(r1, r2) && SameStops(r1, r2) && PositivePrices(r1.bars) && startCash > 0.0
    ensures NeverBehind(r1, r2, startCash, start, end)
  {
    hide Days, Settle, Ahead, SameStops;
    var s, e := ClampStart(start), ClampEnd(end, r1.bars.Length());
    if s < e {
      DaysAhead(r1, r2, startCash, s, e);
      DayPointsAhead(r1, r2, startCash, s, e);
      SettleAhead(Days(r1, startCash, s, e), Days(r2, startCash, s, e), r1, r2, e);
    }
  }

  // ----- where it fails: slippage moves the stop

  /** Three days entered at 1. The low of day 1 lies between the two stops, and the last close is
      half of what the stopped book got at the last open. */
  function CounterBars(low: real, last: real): (bars: DailyBars)
    ensures bars.Valid() && bars.Length() == 3
  {
    DailyBars([0, 1, 2], [1.0, 1.0, 1.0], [1.0, 1.0, 1.0], [1.0, low, last], [1.0, 1.0, last])
  }

  function CounterRule(low: real, last: real, c: Costs, stopFrac: real): Rule {
    Rule(CounterBars(low, last), [true, true, true], c, stopFrac)
  }

  /** What a unit of cash is after a round trip at an unchanged price. */
  function RoundTripCash(c: Costs): (cash: real)
    requires c.Valid()
    ensures 0.0 < cash < 2.0
  {
    var qty := BuyFill(1.0, 1.0, c).qty;
    UnitBuysAtMostOne(c);
    SaleAtMost(qty, 1.0, c);
    SellFill(qty, 1.0, c).proceeds
  }

  lemma UnitBuysAtMostOne(c: Costs)
    requires c.Valid()
    ensures 0.0 < BuyFill(1.0, 1.0, c).qty <= 1.0
  {
    var qty := BuyFill(1.0, 1.0, c).qty;
    var fill := BuyPrice(1.0, c);
    MulMono(fill, 1.0, qty, qty);
    MulMono(qty * fill, 0.0, c.takerFee, 0.0);
  }

  lemma SellPriceAtMost(price: real, c: Costs)
    requires c.Valid() && price > 0.0
    ensures 0.0 < SellPrice(price, c) <= price
  {
    MulLe(1.0 - c.slippage, 1.0, price);
  }

  lemma SaleAtMost(qty: real, price: real, c: Costs)
    requires c.Valid() && 0.0 < qty <= 1.0 && price > 0.0
    ensures SellFill(qty, price, c).proceeds <= price
  {
    var fill := SellPrice(price, c);
    var got := SellFill(qty, price, c).proceeds;
    assert got == Collect(qty, fill, c.takerFee).proceeds;
    hide *;
    SellPriceAtMost(price, c);
    CollectAtMost(qty, fill, c.takerFee);
  }

  lemma CollectAtMost(qty: real, fill: real, takerFee: real)
    requires 0.0 < qty <= 1.0 && fill > 0.0 && 0.0 <= takerFee < 1.0
    ensures Collect(qty, fill, takerFee).proceeds <= fill
  {
    MulPos(qty, fill);
    assert (qty * fill) * takerFee >= 0.0;
    MulLe(qty, 1.0, fill);
  }

  lemma CounterEntry(r: Rule, low: real, last: real, s: int)
    requires r == CounterRule(low, last, r.costs, r.stopFrac) && r.Valid() && r.stopFrac > 0.0 && s == 1
    ensures var b := Days(r, 1.0, s, 2);
            && b.machine == Machine(true, false, low <= BuyPrice(1.0, r.costs) * (1.0 - r.stopFrac))
            && b.ledger.cash == 0.0 && b.ledger.qty == BuyFill(1.0, 1.0, r.costs).qty && b.ledger.trade.Some?
  {
    var b0 := Days(r, 1.0, s, 1);
    assert b0 == NewBook(1.0, 1);
    BuyLeavesNoCash(b0.ledger, 1, 1.0, r.stopFrac, r.costs);
  }

  lemma CloseAt(l: Ledger, ts: int, price: real, reason: Reason, days: int, c: Costs)
    requires c.Valid() && l.trade.Some? && l.cash == 0.0
    ensures l.Close(ts, price, reason, days, c).cash == SellFill(l.qty, price, c).proceeds
  {
  }

  lemma HoldsOver(r: Rule, cash: real, s: int, d: int)
    requires r.Valid() && 0 <= s <= d < r.bars.Length() && r.OnAt(d)
    requires Days(r, cash, s, d).machine == Machine(true, false, false)
    ensures Days(r, cash, s, d + 1).ledger == Days(r, cash, s, d).ledger
  {
  }

  lemma SettledEquity(r: Rule, cash: real, s: int, e: int)
    requires r.Valid() && 0 <= s < e <= r.bars.Length()
    ensures Score(r, cash, s, e).equity == Settle(Days(r, cash, s, e), r, e).points
  {
  }

  lemma SettleCash(b: Book, r: Rule, e: int)
    requires r.Valid() && 1 <= e <= r.bars.Length()
    requires b.Coupled() && b.ledger.trade.Some? && |b.points| > 0 && b.ledger.cash == 0.0
    ensures var points := Settle(b, r, e).points;
            |points| == |b.points| &&
            points[|points| - 1] == SellFill(b.ledger.qty, r.bars.close[e - 1], r.costs).proceeds
  {
    var reason := if b.machine.stopPending then SafetyStop else WindowEnd;
    CloseAt(b.ledger, r.bars.ts[e - 1], r.bars.close[e - 1], reason, e - 1 - b.entryDay + 1, r.costs);
  }

  /** A stop that the low of day 1 reaches sells at the next open. */
  lemma StoppedRun(r: Rule, low: real, last: real, s: int)
    requires r == CounterRule(low, last, r.costs, r.stopFrac) && r.Valid() && r.stopFrac > 0.0 && s == 1
    requires low <= BuyPrice(1.0, r.costs) * (1.0 - r.stopFrac)
    ensures var equity := Score(r, 1.0, s, 3).equity; |equity| == 3 && equity[2] == RoundTripCash(r.costs)
  {
    CounterEntry(r, low, last, s);
    var b := Days(r, 1.0, s, 2);
    CloseAt(b.ledger, 2, 1.0, SafetyStop, 2 - b.entryDay, r.costs);
    var sold := StopSale(b, r, 2);
    assert sold.ledger.cash == RoundTripCash(r.costs) && sold.ledger.qty == 0.0 && sold.ledger.trade.None?;
    assert OpenActions(b, r, 2).ledger == sold.ledger;
    LastPoint(r, 1.0, s, 3);
    FlatMark(sold.ledger, last);
  }

  /** A stop below that low leaves the book to the last close. */
  lemma RidingRun(r: Rule, low: real, last: real, s: int, e: int)
    requires r == CounterRule(low, last, r.costs, r.stopFrac) && r.Valid()
    requires r.stopFrac > 0.0 && s == 1 && e == 3
    requires low > BuyPrice(1.0, r.costs) * (1.0 - r.stopFrac) && last > 0.0
    ensures var equity := Score(r, 1.0, s, e).equity; |equity| == 3 && equity[2] <= last
  {
    CounterEntry(r, low, last, s);
    HoldsOver(r, 1.0, s, 2);
    SettledEquity(r, 1.0, s, e);
    hide Days, Settle, Score;
    SettleCash(Days(r, 1.0, s, e), r, e);
    UnitBuysAtMostOne(r.costs);
    SaleAtMost(BuyFill(1.0, 1.0, r.costs).qty, last, r.costs);
  }

  /** More slippage ends with more cash: the worse fill raises the stop, and the raised stop is
      the one that sells before the crash. */
  lemma SlippageCanHelp(r1: Rule, r2: Rule, low: real, last: real)
    requires r1 == CounterRule(low, last, r1.costs, r1.stopFrac) && r1.Valid() && r1.stopFrac > 0.0
    requires r2 == CounterRule(low, last, r2.costs, r2.stopFrac) && r2.Valid() && r2.stopFrac > 0.0
    requires BuyPrice(1.0, r1.costs) * (1.0 - r1.stopFrac) < low <= BuyPrice(1.0, r2.costs) * (1.0 - r2.stopFrac)
    requires 0.0 < last < RoundTripCash(r2.costs)
    ensures !NeverBehind(r1, r2, 1.0, 1, 3)
  {
    RidingRun(r1, low, last, 1, 3);
    StoppedRun(r2, low, last, 1);
    hide *;
    Behind(r1, r2, 1.0, 1, 3, 2);
  }

  lemma Behind(r1: Rule, r2: Rule, startCash: real, start: int, end: int, k: nat)
    requires r1.Valid() && r2.Valid()
    requires var e1, e2 := Score(r1, startCash, start, end).equity, Score(r2, startCash, start, end).equity;
             k < |e1| && k < |e2| && e1[k] < e2[k]
    ensures !NeverBehind(r1, r2, startCash, start, end)
  {
  }

  // ----- exactly when costs never help

  /** Positive prices, the low included. */
  ghost predicate Positive(bars: DailyBars) {
    bars.Valid() && PositivePrices(bars) && PositiveLows(bars)
  }

  /** The low is the lowest and the high the highest of each day. */
  ghost predicate Candles(bars: DailyBars) {
    && Positive(bars) && LowsWithinOpens(bars)
    && forall i :: 0 <= i < bars.Length() ==>
                     bars.low[i] <= bars.close[i] <= bars.high[i] && bars.open[i] <= bars.high[i]
  }

  ghost predicate NeverHelpOn(c1: Costs, c2: Costs, stopFrac: real, bars: DailyBars)
    requires c1.Valid() && c2.Valid() && bars.Valid()
  {
    forall signal: seq<bool>, startCash: real, start: int, end: int ::
      |signal| == bars.Length() && startCash > 0.0 ==>
        NeverBehind(Rule(bars, signal, c1, stopFrac), Rule(bars, signal, c2, stopFrac), startCash, start, end)
  }

  lemma CounterBarsArePositive(low: real, last: real)
    requires low > 0.0 && 0.0 < last <= 1.0
    ensures Positive(CounterBars(low, last)) && (low <= 1.0 ==> Candles(CounterBars(low, last)))
  {
    var bars := CounterBars(low, last);
    forall i | 0 <= i < bars.Length()
      ensures bars.low[i] > 0.0 && bars.close[i] > 0.0 && bars.open[i] == 1.0 == bars.high[i] && bars.close[i] <= 1.0
      ensures low <= 1.0 ==> bars.low[i] <= bars.close[i]
    {
      assert i == 0 || i == 1 || i == 2;
    }
  }

  lemma CounterHelps(c1: Costs, c2: Costs, stopFrac: real, low: real)
    requires c1.Valid() && c2.Valid() && stopFrac > 0.0 && low > 0.0
    requires BuyPrice(1.0, c1) * (1.0 - stopFrac) < low <= BuyPrice(1.0, c2) * (1.0 - stopFrac)
    ensures var bars := CounterBars(low, RoundTripCash(c2) / 2.0);
            !NeverHelpOn(c1, c2, stopFrac, bars) && Positive(bars) && (low <= 1.0 ==> Candles(bars))
  {
    var last := RoundTripCash(c2) / 2.0;
    var r1, r2 := CounterRule(low, last, c1, stopFrac), CounterRule(low, last, c2, stopFrac);
    SlippageCanHelp(r1, r2, low, last);
    CounterBarsArePositive(low, last);
    hide NeverBehind, RoundTripCash, Positive, Candles;
    var bars := CounterBars(low, last);
    assert r1 == Rule(bars, [true, true, true], c1, stopFrac);
    assert r2 == Rule(bars, [true, true, true], c2, stopFrac);
  }

  lemma SameStopsNeverHelp(c1: Costs, c2: Costs, stopFrac: real, bars: DailyBars)
    requires c1.Valid() && c2.Valid() && Cheaper(c1, c2) && bars.Valid() && PositivePrices(bars)
    requires || stopFrac <= 0.0 || c1.slippage == c2.slippage
             || (stopFrac >= 1.0 && PositiveLows(bars))
             || (StopAboveOpen(c1, stopFrac) && LowsWithinOpens(bars))
    ensures NeverHelpOn(c1, c2, stopFrac, bars)
  {
    hide NeverBehind;
    forall signal: seq<bool>, startCash: real, start: int, end: int | |signal| == bars.Length() && startCash > 0.0
      ensures NeverBehind(Rule(bars, signal, c1, stopFrac), Rule(bars, signal, c2, stopFrac), startCash, start, end)
    {
      CostsNeverHelp(Rule(bars, signal, c1, stopFrac), Rule(bars, signal, c2, stopFrac), startCash, start, end);
    }
  }

  /** Over all positive prices, lower costs never hurt if and only if the stop is off, cannot be
      reached, or does not depend on which of the two is charged. */
  lemma CostsNeverHelpIff(c1: Costs, c2: Costs, stopFrac: real)
    requires c1.Valid() && c2.Valid() && Cheaper(c1, c2)
    ensures (forall bars :: Positive(bars) ==> NeverHelpOn(c1, c2, stopFrac, bars))
            <==> (stopFrac <= 0.0 || stopFrac >= 1.0 || c1.slippage == c2.slippage)
  {
    hide NeverHelpOn, PositiveLows, PositivePrices;
    if stopFrac <= 0.0 || stopFrac >= 1.0 || c1.slippage == c2.slippage {
      forall bars | Positive(bars)
        ensures NeverHelpOn(c1, c2, stopFrac, bars)
      {
        SameStopsNeverHelp(c1, c2, stopFrac, bars);
      }
    } else {
      WorseFillRaisesTheStop(c1, c2, stopFrac);
      CounterHelps(c1, c2, stopFrac, BuyPrice(1.0, c2) * (1.0 - stopFrac));
    }
  }

  lemma WorseFillRaisesTheStop(c1: Costs, c2: Costs, stopFrac: real)
    requires c1.Valid() && c2.Valid() && c1.slippage < c2.slippage && stopFrac < 1.0
    ensures 0.0 < BuyPrice(1.0, c1) * (1.0 - stopFrac) < BuyPrice(1.0, c2) * (1.0 - stopFrac)
  {
    MulPos(BuyPrice(1.0, c1), 1.0 - stopFrac);
    MulPos(c2.slippage - c1.slippage, 1.0 - stopFrac);
  }

  /** Over candles, whose low is never above the open, there is one more case: a fraction so small
      that every entry is already under its stop. */
  lemma CostsNeverHelpOnCandlesIff(c1: Costs, c2: Costs, stopFrac: real)
    requires c1.Valid() && c2.Valid() && Cheaper(c1, c2)
    ensures (forall bars :: Candles(bars) ==> NeverHelpOn(c1, c2, stopFrac, bars))
            <==> (stopFrac <= 0.0 || stopFrac >= 1.0 || c1.slippage == c2.slippage || StopAboveOpen(c1, stopFrac))
  {
    hide NeverHelpOn, PositiveLows, PositivePrices, LowsWithinOpens;
    if stopFrac <= 0.0 || stopFrac >= 1.0 || c1.slippage == c2.slippage || StopAboveOpen(c1, stopFrac) {
      forall bars | Candles(bars)
        ensures NeverHelpOn(c1, c2, stopFrac, bars)
      {
        SameStopsNeverHelp(c1, c2, stopFrac, bars);
      }
    } else {
      var low := LowBetween(c1, c2, stopFrac);
      hide Candles, BuyPrice, StopAboveOpen;
      CounterHelps(c1, c2, stopFrac, low);
    }
  }

  /** A low that a candle opened at 1 can have, between the two stops. */
  lemma LowBetween(c1: Costs, c2: Costs, stopFrac: real) returns (low: real)
    requires c1.Valid() && c2.Valid() && c1.slippage < c2.slippage && stopFrac < 1.0 && !StopAboveOpen(c1, stopFrac)
    ensures 0.0 < low <= 1.0
    ensures BuyPrice(1.0, c1) * (1.0 - stopFrac) < low <= BuyPrice(1.0, c2) * (1.0 - stopFrac)
  {
    WorseFillRaisesTheStop(c1, c2, stopFrac);
    low := Min(1.0, BuyPrice(1.0, c2) * (1.0 - stopFrac));
    assert BuyPrice(1.0, c1) * (1.0 - stopFrac) < 1.0;
  }
}
