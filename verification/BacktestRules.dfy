/** The 5m backtest's halt, entries and exits in prices and equities alone. */
module BacktestRules {
  import opened Reals
  import opened Wrappers
  import opened RiskRules
  import opened ManagedBacktest
  import opened BacktestLedger
  import opened BacktestExits

  // ----- the window

  /** The bars a run trades are those of the tape past the warm-up and within the scored range, and
      a bar without a high or a low has its close for it. */
  lemma BarsOfTheWindow(p: Params, i: nat)
    ensures p.TradeStart() <= i < p.End() <==>
            && i < |p.closes| && p.warmup <= i
            && (p.scoreFrom.Some? ==> p.scoreFrom.value <= i) && (p.scoreTo.Some? ==> i < p.scoreTo.value)
    ensures i < |p.closes| ==>
              && p.High(i) == (if i < |p.highs| then p.highs[i] else p.closes[i])
              && p.Low(i) == (if i < |p.lows| then p.lows[i] else p.closes[i])
  {
  }

  // ----- the drawdown breaker

  /** The greatest of the start cash and the equities marked before bar `i`. */
  function Highest(p: Params, i: nat): real
    requires p.Valid() && p.TradeStart() <= i <= |p.closes|
    decreases i
  {
    if i == p.TradeStart() then p.startCash else Max(Highest(p, i - 1), MarkedEquity(p, i - 1))
  }

  lemma {:induction false} HighestBounds(p: Params, i: nat)
    requires p.Valid() && p.TradeStart() <= i <= |p.closes|
    ensures Highest(p, i) >= p.startCash
    ensures forall j :: p.TradeStart() <= j < i ==> MarkedEquity(p, j) <= Highest(p, i)
    ensures Highest(p, i) == p.startCash || exists j :: p.TradeStart() <= j < i && MarkedEquity(p, j) == Highest(p, i)
    decreases i
  {
    hide MarkedEquity;
    if i > p.TradeStart() {
      HighestBounds(p, i - 1);
      if Highest(p, i) != MarkedEquity(p, i - 1) && Highest(p, i) != p.startCash {
        var j :| p.TradeStart() <= j < i - 1 && MarkedEquity(p, j) == Highest(p, i - 1);
      }
    }
  }

  lemma RiskOfBar(p: Params, i: nat)
    requires p.Valid() && p.TradeStart() <= i < |p.closes|
    ensures Bars(p, i + 1).risk == Bars(p, i).risk.Updated(MarkedEquity(p, i))
  {
    var b := Bars(p, i);
    hide Bars, Bar, VisitLots, EntrySize, EnterLot, Risk.Updated, Notional;
    NextBar(p, i);
    BarIs(b, p, i);
    VisitKeepsRisk(b, b.lots, |b.lots|, p, i);
  }

  /** One reading against the peak it leaves: a breach is a fall to the limit or below. */
  lemma ReadingBreaches(r: Risk, equity: real)
    requires r.peak > 0.0
    ensures var r' := r.Updated(equity);
            && r'.peak == Max(r.peak, equity) && r'.maxDrawdown == r.maxDrawdown
            && (r'.halted <==> r.halted || equity <= (1.0 - r.maxDrawdown) * r'.peak)
  {
    var top := Max(r.peak, equity);
    var fall := (top - equity) / top;
    assert fall * top == top - equity;
    if fall >= r.maxDrawdown {
      MulLe(r.maxDrawdown, fall, top);
    } else {
      MulPos(r.maxDrawdown - fall, top);
    }
  }

  lemma {:induction false} PeakIsHighest(p: Params, i: nat)
    requires p.Valid() && p.startCash > 0.0 && p.TradeStart() <= i <= |p.closes|
    ensures Bars(p, i).risk.peak == Highest(p, i) && Bars(p, i).risk.maxDrawdown == MAX_DRAWDOWN
    decreases i
  {
    hide Bar, MarkedEquity, Risk.Updated;
    if i > p.TradeStart() {
      PeakIsHighest(p, i - 1);
      HighestBounds(p, i - 1);
      RiskOfBar(p, i - 1);
      ReadingBreaches(Bars(p, i - 1).risk, MarkedEquity(p, i - 1));
    }
  }

  /** Bar `j` marked an equity of at most 85 % of the greatest so far, itself included. */
  ghost predicate Breached(p: Params, j: nat)
    requires p.Valid() && p.TradeStart() <= j < |p.closes|
  {
    MarkedEquity(p, j) <= 0.85 * Highest(p, j + 1)
  }

  /** The breaker has tripped if and only if some bar marked a breach. */
  lemma {:induction false} HaltsIff(p: Params, i: nat)
    requires p.Valid() && p.startCash > 0.0 && p.TradeStart() <= i <= |p.closes|
    ensures Bars(p, i).risk.halted <==> exists j: nat :: p.TradeStart() <= j < i && Breached(p, j)
    decreases i
  {
    hide Bar, Risk.Updated, MarkedEquity;
    if i > p.TradeStart() {
      HaltsIff(p, i - 1);
      HaltsOn(p, i - 1);
    }
  }

  lemma HaltsOn(p: Params, i: nat)
    requires p.Valid() && p.startCash > 0.0 && p.TradeStart() <= i < |p.closes|
    ensures Bars(p, i + 1).risk.halted <==> Bars(p, i).risk.halted || Breached(p, i)
  {
    hide Bars, Bar, Risk.Updated, MarkedEquity, Highest;
    PeakIsHighest(p, i);
    PeakIsHighest(p, i + 1);
    HighestBounds(p, i);
    RiskOfBar(p, i);
    ReadingBreaches(Bars(p, i).risk, MarkedEquity(p, i));
  }

  // ----- the equity

  /** What the open lots would make at this price, before costs. */
  function OpenPnl(lots: seq<Lot>, price: real): real {
    if lots == [] then 0.0
    else OpenPnl(lots[..|lots| - 1], price) + (price - lots[|lots| - 1].entry) * lots[|lots| - 1].qty
  }

  lemma {:induction false} NotionalSplits(lots: seq<Lot>, price: real)
    ensures Notional(lots, price) == Invested(lots) + OpenPnl(lots, price)
  {
    if lots != [] {
      NotionalSplits(lots[..|lots| - 1], price);
      SplitGross(lots[|lots| - 1], price);
    }
  }

  lemma SplitGross(lot: Lot, price: real)
    ensures Gross(price, lot.qty) == Gross(lot.entry, lot.qty) + (price - lot.entry) * lot.qty
  {
  }

  /** The equity a bar marks is the start cash, what the closed lots made, what the open ones
      would make at its close, less the fees paid. */
  lemma MarkedIsRealisedPlusOpen(p: Params, i: nat)
    requires p.Valid() && p.TradeStart() <= i < |p.closes|
    ensures var b := Marked(Bars(p, i), p, i);
            MarkedEquity(p, i) == p.startCash + PnlSum(b.closed) + OpenPnl(b.lots, p.closes[i]) - b.fees
  {
    var b := Bars(p, i);
    RunBalances(p, i);
    VisitBalances(b, b.lots, |b.lots|, p, i);
    assert b.lots[..|b.lots|] == b.lots;
    hide Bars, VisitLots, PnlSum, Invested, Notional;
    NotionalSplits(Marked(b, p, i).lots, p.closes[i]);
  }

  /** The fees of lots bought and sold again, and of lots bought only. */
  function PaidTwice(closed: seq<ClosedLot>, takerFee: real): real {
    if closed == [] then 0.0
    else
      var c := closed[|closed| - 1];
      var both := Gross(c.lot.entry, c.lot.qty) + Gross(c.exit, c.lot.qty);
      PaidTwice(closed[..|closed| - 1], takerFee) + takerFee * both
  }

  /** The fees of a book, less what its closed lots paid. */
  function FeesAbove(b: Book, takerFee: real): real {
    b.fees - PaidTwice(b.closed, takerFee)
  }

  /** What a book's fees are above what its lots account for. */
  function Surplus(b: Book, takerFee: real): real {
    FeesAbove(b, takerFee) - takerFee * Invested(b.lots)
  }

  lemma CloseLotPays(b: Book, lot: Lot, exit: real, hit: Hit, bar: int, takerFee: real)
    ensures FeesAbove(CloseLot(b, lot, exit, hit, bar, takerFee), takerFee)
         == FeesAbove(b, takerFee) - takerFee * Gross(lot.entry, lot.qty)
  {
    var c := ClosedLot(lot, exit, hit, bar);
    assert (b.closed + [c])[..|b.closed|] == b.closed;
    hide Gross;
    Distributes(takerFee, Gross(lot.entry, lot.qty), Gross(exit, lot.qty));
  }

  lemma Distributes(x: real, a: real, b: real)
    ensures x * (a + b) == x * a + x * b
  {
  }

  lemma VisitLotPays(b: Book, lot: Lot, p: Params, i: nat)
    requires i < |p.closes|
    ensures Surplus(VisitLot(b, lot, p, i), p.takerFee) ==
            Surplus(b, p.takerFee) - p.takerFee * Gross(lot.entry, lot.qty)
  {
    hide Gross, CloseLot, PaidTwice;
    var e := ExitOf(lot, p.High(i), p.Low(i), p.rr, p.slippage);
    if e.Some? {
      CloseLotPays(b, lot, e.value.0, e.value.1, i, p.takerFee);
      CloseKeepsLots(b, lot, e.value.0, e.value.1, i, p.takerFee);
    } else {
      InvestedAppend(b.lots, lot);
      Distributes(p.takerFee, Invested(b.lots), Gross(lot.entry, lot.qty));
    }
  }

  lemma CloseKeepsLots(b: Book, lot: Lot, exit: real, hit: Hit, bar: int, takerFee: real)
    ensures CloseLot(b, lot, exit, hit, bar, takerFee).lots == b.lots
  {
  }

  lemma FeesTake(takerFee: real, lots: seq<Lot>, k: nat)
    requires 0 < k <= |lots|
    ensures takerFee * Invested(lots[..k]) ==
            takerFee * Invested(lots[..k - 1]) + takerFee * Gross(lots[k - 1].entry, lots[k - 1].qty)
  {
    InvestedTake(lots, k);
    Distributes(takerFee, Invested(lots[..k - 1]), Gross(lots[k - 1].entry, lots[k - 1].qty));
  }

  lemma NoLotsNoFees(b: Book, lots: seq<Lot>, takerFee: real)
    ensures Surplus(b.(lots := []), takerFee) == FeesAbove(b, takerFee) - takerFee * Invested(lots[..0])
  {
  }

  lemma {:induction false} VisitPays(b: Book, lots: seq<Lot>, k: nat, p: Params, i: nat)
    requires k <= |lots| && i < |p.closes|
    ensures Surplus(VisitLots(b, lots, k, p, i), p.takerFee) ==
            FeesAbove(b, p.takerFee) - p.takerFee * Invested(lots[..k])
  {
    hide VisitLot, Gross, Surplus, FeesAbove, Invested;
    if k > 0 {
      VisitPays(b, lots, k - 1, p, i);
      VisitLotPays(VisitLots(b, lots, k - 1, p, i), lots[k - 1], p, i);
      FeesTake(p.takerFee, lots, k);
    } else {
      NoLotsNoFees(b, lots, p.takerFee);
    }
  }

  lemma MarkedPays(b: Book, p: Params, i: nat)
    requires i < |p.closes|
    ensures Surplus(Marked(b, p, i), p.takerFee) == Surplus(b, p.takerFee)
  {
    hide VisitLots, Invested, PaidTwice, Notional;
    VisitPays(b, b.lots, |b.lots|, p, i);
    assert b.lots[..|b.lots|] == b.lots;
  }

  lemma EntryPays(b: Book, p: Params, i: nat, size: real, stop: real)
    requires i < |p.closes|
    ensures Surplus(EnterLot(b, p, i, size, stop), p.takerFee) == Surplus(b, p.takerFee)
  {
    var lot := Lot(size, EntryPrice(p.closes[i], p.slippage), stop, i);
    hide Gross, EntryPrice, Notional, PaidTwice;
    InvestedAppend(b.lots, lot);
    Distributes(p.takerFee, Invested(b.lots), Gross(lot.entry, lot.qty));
  }

  lemma BarPays(b: Book, p: Params, i: nat)
    requires p.Valid() && i < |p.closes|
    ensures Surplus(Bar(b, p, i), p.takerFee) == Surplus(b, p.takerFee)
  {
    hide EnterLot, EntrySize, Equity, Marked, Surplus;
    MarkedPays(b, p, i);
    var b1 := Marked(b, p, i);
    var e := EntrySize(b1, p, i, Equity(b1, p.closes[i]), |b1.closed| > |b.closed|);
    if e.Some? {
      EntryPays(b1, p, i, e.value.0, e.value.1);
    }
  }

  lemma {:induction false} RunPays(p: Params, i: nat)
    requires p.Valid() && p.TradeStart() <= i <= |p.closes|
    ensures Surplus(Bars(p, i), p.takerFee) == 0.0
    decreases i
  {
    hide Bar;
    if i > p.TradeStart() {
      RunPays(p, i - 1);
      BarPays(Bars(p, i - 1), p, i - 1);
    }
  }

  lemma {:induction false} ClosingPays(b: Book, lots: seq<Lot>, k: nat, exit: real, bar: int, takerFee: real)
    requires k <= |lots|
    ensures FeesAbove(CloseFirst(b, lots, k, exit, bar, takerFee), takerFee) ==
            FeesAbove(b, takerFee) - takerFee * Invested(lots[..k])
  {
    hide CloseLot, Gross, FeesAbove;
    if k > 0 {
      ClosingPays(b, lots, k - 1, exit, bar, takerFee);
      CloseLotPays(CloseFirst(b, lots, k - 1, exit, bar, takerFee), lots[k - 1], exit, EndHit, bar, takerFee);
      FeesTake(takerFee, lots, k);
    }
  }

  /** Every lot of a run pays the taker fee once on what it cost and once on what it brought. */
  lemma FeesAreBothSides(p: Params)
    requires p.Valid()
    ensures Final(p).fees == PaidTwice(Final(p).closed, p.takerFee)
  {
    hide Bars, Bar, CloseFirst;
    if p.End() > p.TradeStart() {
      RunPays(p, p.End());
      var b := Bars(p, p.End());
      ClosingPays(b, b.lots, |b.lots|, SlippedDown(p.closes[p.End() - 1], p.slippage), p.End() - 1, p.takerFee);
      assert b.lots[..|b.lots|] == b.lots;
    }
  }

  // ----- entries

  /** Everything the rule asks of a bar before it buys, in prices and the book's own terms. */
  ghost predicate BuysOn(p: Params, i: nat)
    requires p.Valid() && p.TradeStart() <= i < |p.closes|
  {
    var before, b := Bars(p, i), Marked(Bars(p, i), p, i);
    && p.flags[i] && !Bars(p, i + 1).risk.halted
    && |b.lots| < 3 && (forall k :: 0 <= k < |b.lots| ==> b.lots[k].entry < p.closes[i])
    && (b.lots == [] ==> b.closed == before.closed)
    && b.cash >= 10.0 * (1.0 + p.slippage) * (1.0 + p.takerFee)
  }

  /** The lot a buying bar opens: one percent of equity at risk, or all the cash. */
  function LotBought(p: Params, i: nat): Lot
    requires Tradable(p) && p.TradeStart() <= i < |p.closes|
  {
    var close, stop := p.closes[i], AtrStopPrice(p.closes[i], p.atr[i]);
    var cash := Marked(Bars(p, i), p, i).cash;
    StopBand(close, p.atr[i]);
    CostAtLeastOne(p);
    MulPos(close, p.CostMult());
    Lot(Min(MarkedEquity(p, i) * RISK_FRAC / (close - stop), cash / (close * p.CostMult())),
        close * (1.0 + p.slippage), stop, i)
  }

  lemma InProfitIff(lots: seq<Lot>, price: real)
    requires AllHealthy(lots)
    ensures InProfit(lots, price) <==> forall k :: 0 <= k < |lots| ==> lots[k].entry < price
  {
    forall k | 0 <= k < |lots| ensures Gross(price - lots[k].entry, lots[k].qty) > 0.0 <==> lots[k].entry < price {
      assert Healthy(lots[k]);
      MulSign(price - lots[k].entry, lots[k].qty);
    }
  }

  /** The room test in cash: what is left pays for a least lot and its costs. */
  lemma RoomIff(cash: real, entry: real, costMult: real)
    requires entry > 0.0 && costMult >= 1.0
    ensures UnitCost(entry, costMult) == entry * costMult && entry * costMult > 0.0
    ensures RoomSize(cash, UnitCost(entry, costMult)) == cash / (entry * costMult)
    ensures RoomSize(cash, UnitCost(entry, costMult)) * entry >= MIN_LOT_NOTIONAL <==>
            cash >= MIN_LOT_NOTIONAL * costMult
  {
    MulPos(entry, costMult);
    LeastLot(cash, entry, costMult);
  }

  /** The gate over a sound stop, its cap aside. */
  lemma GateIff(r: Risk, equity: real, entry: real, stop: real, lots: seq<Lot>, cash: real, costMult: real)
    requires 0.0 < stop < entry && costMult >= 1.0 && r.riskFrac == RISK_FRAC && entry * costMult > 0.0
    requires var d := SizePosition(r, equity, entry, stop, lots, 1.0, Some(cash), costMult);
             d != Refused(OpenRiskCap)
    ensures var d := SizePosition(r, equity, entry, stop, lots, 1.0, Some(cash), costMult);
            && (d.Approved? <==> !r.halted && cash >= MIN_LOT_NOTIONAL * costMult)
            && (d.Approved? ==> d.size == Min(equity * RISK_FRAC / (entry - stop), cash / (entry * costMult)))
  {
    RoomIff(cash, entry, costMult);
    assert cash - equity * (1.0 - MAX_NOTIONAL_FRAC) == cash;
    assert RiskSize(equity, RISK_FRAC, 1.0, entry, stop) == equity * RISK_FRAC / (entry - stop);
    hide RoomSize, UnitCost, OpenRisk, RiskSize;
  }

  lemma QuotientPos(a: real, b: real)
    requires a > 0.0 && b > 0.0
    ensures a / b > 0.0
  {
    if a / b <= 0.0 {
      MulLe(a / b, 0.0, b);
    }
  }

  lemma SizeIsPositive(equity: real, entry: real, stop: real, cash: real, unit: real)
    requires 0.0 < cash <= equity && stop < entry && unit > 0.0
    ensures Min(equity * RISK_FRAC / (entry - stop), cash / unit) > 0.0
  {
    QuotientPos(equity * RISK_FRAC, entry - stop);
    QuotientPos(cash, unit);
  }

  /** The entry decision of a marked book whose gate is not the cap's. */
  lemma DecisionIff(b: Book, p: Params, i: nat, equity: real, exited: bool)
    requires Tradable(p) && i < |p.closes| && AllHealthy(b.lots) && b.risk.riskFrac == RISK_FRAC
    requires b.cash <= equity
    requires |b.lots| < MAX_LOTS_PER_SYMBOL ==>
               SizePosition(b.risk, equity, p.closes[i], AtrStopPrice(p.closes[i], p.atr[i]),
                            b.lots, 1.0, Some(b.cash), p.CostMult()) != Refused(OpenRiskCap)
    ensures var e := EntrySize(b, p, i, equity, exited);
            var close, stop := p.closes[i], AtrStopPrice(p.closes[i], p.atr[i]);
            && (e.Some? <==>
                  && p.flags[i] && !b.risk.halted && |b.lots| < MAX_LOTS_PER_SYMBOL
                  && (forall k :: 0 <= k < |b.lots| ==> b.lots[k].entry < close)
                  && (b.lots == [] ==> !exited) && b.cash >= MIN_LOT_NOTIONAL * p.CostMult())
            && (e.Some? ==>
                  && stop < close && close * p.CostMult() > 0.0 && e.value.1 == stop
                  && e.value.0 == Min(equity * RISK_FRAC / (close - stop), b.cash / (close * p.CostMult())))
  {
    hide SizePosition, InProfit, AtrStopPrice, Params.CostMult, AllHealthy;
    var close, stop := p.closes[i], AtrStopPrice(p.closes[i], p.atr[i]);
    InProfitIff(b.lots, close);
    StopBand(close, p.atr[i]);
    CostAtLeastOne(p);
    MulPos(close, p.CostMult());
    if |b.lots| < MAX_LOTS_PER_SYMBOL {
      GateIff(b.risk, equity, close, stop, b.lots, b.cash, p.CostMult());
      if b.cash >= MIN_LOT_NOTIONAL * p.CostMult() {
        MulLe(1.0, p.CostMult(), MIN_LOT_NOTIONAL);
        SizeIsPositive(equity, close, stop, b.cash, close * p.CostMult());
      }
    }
  }

  lemma ExitedIff(b: Book, p: Params, i: nat)
    requires i < |p.closes|
    ensures var b1 := Marked(b, p, i);
            b.closed <= b1.closed && (|b1.closed| > |b.closed| <==> b1.closed != b.closed)
  {
    VisitKeepsRisk(b, b.lots, |b.lots|, p, i);
    hide VisitLots, Equity;
  }

  lemma MarkedIsSound(p: Params, i: nat)
    requires Tradable(p) && p.riskFrac == RISK_FRAC && p.slippage == FEE_SLIPPAGE
    requires p.TradeStart() <= i < |p.closes|
    ensures var b := Marked(Bars(p, i), p, i);
            && AllHealthy(b.lots) && b.risk.riskFrac == RISK_FRAC
            && b.cash <= Equity(b, p.closes[i]) == MarkedEquity(p, i) && CapSilent(b, p, i)
  {
    hide Bars, Marked, CapSilent, SmallLots, AllHealthy, Notional;
    RunKeepsSmall(p, i);
    RunStaysSolvent(p, i);
    MarkedStaysSolvent(Bars(p, i), p, i);
    KeepsRiskFraction(Bars(p, i), p, i);
    TheCapNeverRefuses(p, i);
    NotionalIsPositive(Marked(Bars(p, i), p, i).lots, p.closes[i]);
  }

  /** At the shipped policy a bar buys if and only if its flag is on, the breaker has not
      tripped, there is room for a lot, every open lot is below the close, the bar's exits have
      not just left the book flat, and the cash pays for a least lot. It buys one lot. */
  lemma EntersIff(p: Params, i: nat)
    requires Tradable(p) && p.riskFrac == RISK_FRAC && p.slippage == FEE_SLIPPAGE
    requires p.TradeStart() <= i < |p.closes|
    ensures Bars(p, i + 1).entered == Bars(p, i).entered + if BuysOn(p, i) then [LotBought(p, i)] else []
  {
    hide Bars, Bar, Marked, Equity, MarkedEquity, BuysOn, LotBought, MarkedBuys, AllHealthy, CapSilent;
    NextBar(p, i);
    MarkedIsSound(p, i);
    BarEnters(Bars(p, i), p, i);
    BarKeepsRisk(Bars(p, i), p, i);
    BuysMeans(p, i);
  }

  /** What a bar asks of the book it has marked. */
  ghost predicate MarkedBuys(before: Book, b: Book, p: Params, i: nat)
    requires p.Valid() && i < |p.closes|
  {
    && p.flags[i] && !b.risk.halted && |b.lots| < MAX_LOTS_PER_SYMBOL
    && (forall k :: 0 <= k < |b.lots| ==> b.lots[k].entry < p.closes[i])
    && (b.lots == [] ==> b.closed == before.closed)
    && b.cash >= MIN_LOT_NOTIONAL * p.CostMult()
  }

  function MarkedLot(b: Book, p: Params, i: nat, equity: real): Lot
    requires Tradable(p) && i < |p.closes|
  {
    var close, stop := p.closes[i], AtrStopPrice(p.closes[i], p.atr[i]);
    StopBand(close, p.atr[i]);
    CostAtLeastOne(p);
    MulPos(close, p.CostMult());
    Lot(Min(equity * RISK_FRAC / (close - stop), b.cash / (close * p.CostMult())),
        close * (1.0 + p.slippage), stop, i)
  }

  lemma BuysMeans(p: Params, i: nat)
    requires Tradable(p) && p.TradeStart() <= i < |p.closes|
    requires Bars(p, i + 1).risk == Marked(Bars(p, i), p, i).risk
    ensures BuysOn(p, i) <==> MarkedBuys(Bars(p, i), Marked(Bars(p, i), p, i), p, i)
    ensures LotBought(p, i) == MarkedLot(Marked(Bars(p, i), p, i), p, i, MarkedEquity(p, i))
  {
    hide Bars, Marked, MarkedEquity, AtrStopPrice;
  }

  lemma BarEnters(b: Book, p: Params, i: nat)
    requires Tradable(p) && i < |p.closes|
    requires var b1 := Marked(b, p, i);
             && AllHealthy(b1.lots) && b1.risk.riskFrac == RISK_FRAC
             && b1.cash <= Equity(b1, p.closes[i]) && CapSilent(b1, p, i)
    ensures var b1 := Marked(b, p, i);
            Bar(b, p, i).entered ==
            b.entered + if MarkedBuys(b, b1, p, i) then [MarkedLot(b1, p, i, Equity(b1, p.closes[i]))] else []
  {
    assert p.Valid();
    hide *;
    var b1 := Marked(b, p, i);
    BarIs(b, p, i);
    MarkedKeeps(b, p, i);
    ExitedIff(b, p, i);
    DecisionOfMarked(b, b1, p, i, Equity(b1, p.closes[i]));
  }

  lemma DecisionOfMarked(b: Book, b1: Book, p: Params, i: nat, equity: real)
    requires Tradable(p) && i < |p.closes| && equity == Equity(b1, p.closes[i])
    requires |b1.closed| > |b.closed| <==> b1.closed != b.closed
    requires AllHealthy(b1.lots) && b1.risk.riskFrac == RISK_FRAC && b1.cash <= equity && CapSilent(b1, p, i)
    ensures var e := EntrySize(b1, p, i, equity, |b1.closed| > |b.closed|);
            && (e.Some? <==> MarkedBuys(b, b1, p, i))
            && (e.Some? ==>
                  Lot(e.value.0, EntryPrice(p.closes[i], p.slippage), e.value.1, i) == MarkedLot(b1, p, i, equity))
  {
    hide EntrySize, Equity, AtrStopPrice, Params.CostMult, AllHealthy, SizePosition;
    DecisionIff(b1, p, i, equity, |b1.closed| > |b.closed|);
    EntryPriceIs(p.closes[i], p.slippage);
  }

  lemma EntryPriceIs(close: real, slippage: real)
    ensures EntryPrice(close, slippage) == close * (1.0 + slippage)
  {
  }

  lemma BarKeepsRisk(b: Book, p: Params, i: nat)
    requires p.Valid() && i < |p.closes|
    ensures Bar(b, p, i).risk == Marked(b, p, i).risk
  {
    hide EntrySize, Equity, Marked;
  }

  // ----- exits

  /** Bar `j` reaches neither the stop nor the target. */
  ghost predicate Between(p: Params, lot: Lot, j: int)
    requires 0 <= j < |p.closes|
  {
    p.Low(j) > lot.stop && p.High(j) < lot.entry + p.rr * (lot.entry - lot.stop)
  }

  /** How a closed lot left, in highs, lows and levels: nothing reached it between its entry and
      that bar; a stop needs the low only, a target the high and a low above the stop. */
  ghost predicate LeftByPrices(p: Params, c: ClosedLot) {
    && 0 <= c.lot.openedAt <= c.bar < |p.closes|
    && (forall j :: c.lot.openedAt < j < c.bar ==> Between(p, c.lot, j))
    && var target := c.lot.entry + p.rr * (c.lot.entry - c.lot.stop);
       match c.hit
       case StopHit =>
         c.lot.openedAt < c.bar && p.Low(c.bar) <= c.lot.stop && c.exit == c.lot.stop * (1.0 - p.slippage)
       case TargetHit =>
         && c.lot.openedAt < c.bar && p.Low(c.bar) > c.lot.stop && p.High(c.bar) >= target
         && c.exit == target * (1.0 - p.slippage)
       case EndHit =>
         && c.bar == p.End() - 1 && c.exit == p.closes[c.bar] * (1.0 - p.slippage)
         && (c.lot.openedAt < c.bar ==> Between(p, c.lot, c.bar))
  }

  lemma UntouchedMeansBetween(p: Params, lot: Lot, to: int)
    requires Untouched(p, lot, to)
    ensures forall j :: lot.openedAt < j < to ==> Between(p, lot, j)
  {
    forall j | lot.openedAt < j < to ensures Between(p, lot, j) {
      assert ExitAt(p, lot, j).None?;
    }
  }

  /** Every lot of a run left for a reason its own bars give. */
  lemma LotsLeaveByPrices(p: Params, k: nat)
    requires p.Valid() && k < |Final(p).closed|
    ensures LeftByPrices(p, Final(p).closed[k])
  {
    hide Final;
    LotsLeaveAtTheirFirstTouch(p);
    var c := Final(p).closed[k];
    UntouchedMeansBetween(p, c.lot, if LeftAtFirstTouch(p, c) then c.bar else p.End());
  }

  // ----- the run's extremes

  lemma MarkedCash(p: Params, i: nat)
    requires Tradable(p) && p.TradeStart() <= i < |p.closes|
    ensures var before, b := Bars(p, i), Marked(Bars(p, i), p, i);
            b.cash >= before.cash && b.minCash == before.minCash && b.maxNotionalFrac == before.maxNotionalFrac
  {
    var b := Bars(p, i);
    RunStaysSolvent(p, i);
    VisitStaysSolvent(b, b.lots, |b.lots|, p, i);
    VisitKeepsRisk(b, b.lots, |b.lots|, p, i);
    hide Bars, VisitLots, Notional;
  }

  /** The least cash after any of the bars up to `i`, and the start cash, is `least`. */
  ghost predicate LeastCash(p: Params, i: nat, least: real)
    requires p.Valid() && p.TradeStart() <= i <= |p.closes|
  {
    && (forall j: nat :: p.TradeStart() <= j <= i ==> least <= Bars(p, j).cash)
    && exists j: nat :: p.TradeStart() <= j <= i && least == Bars(p, j).cash
  }

  lemma BarLeastCash(p: Params, i: nat)
    requires Tradable(p) && p.TradeStart() <= i < |p.closes| && Bars(p, i).minCash <= Bars(p, i).cash
    ensures Bars(p, i + 1).minCash == Min(Bars(p, i).minCash, Bars(p, i + 1).cash)
  {
    hide Bars, Bar, Marked, EntrySize, Equity, Notional;
    NextBar(p, i);
    BarIs(Bars(p, i), p, i);
    MarkedCash(p, i);
  }

  lemma LeastAtStart(p: Params)
    requires p.Valid() && p.TradeStart() <= |p.closes|
    ensures LeastCash(p, p.TradeStart(), Bars(p, p.TradeStart()).minCash)
  {
    assert Bars(p, p.TradeStart()) == Fresh(p);
  }

  lemma LeastIsAtMost(p: Params, i: nat, least: real)
    requires p.Valid() && p.TradeStart() <= i <= |p.closes| && LeastCash(p, i, least)
    ensures least <= Bars(p, i).cash
  {
    hide Bars;
  }

  lemma LeastStep(p: Params, i: nat, least: real)
    requires p.Valid() && p.TradeStart() <= i < |p.closes| && LeastCash(p, i, least)
    ensures LeastCash(p, i + 1, Min(least, Bars(p, i + 1).cash))
  {
    hide Bars;
    if least > Bars(p, i + 1).cash {
      assert Min(least, Bars(p, i + 1).cash) == Bars(p, i + 1).cash;
    }
  }

  /** The least cash a run reports is the least it had after any bar, the start included. */
  lemma {:induction false} MinCashIsLeast(p: Params, i: nat)
    requires Tradable(p) && p.TradeStart() <= i <= |p.closes|
    ensures LeastCash(p, i, Bars(p, i).minCash)
    decreases i
  {
    hide Bar, LeastCash;
    if i == p.TradeStart() {
      LeastAtStart(p);
    } else {
      hide Bars;
      MinCashIsLeast(p, i - 1);
      LeastIsAtMost(p, i - 1, Bars(p, i - 1).minCash);
      BarLeastCash(p, i - 1);
      LeastStep(p, i - 1, Bars(p, i - 1).minCash);
    }
  }

  /** Bar `j` bought, and left this share of its equity in lots. */
  ghost predicate LeftShare(p: Params, j: nat, share: real)
    requires p.Valid() && p.TradeStart() <= j < |p.closes|
  {
    var b, close := Bars(p, j + 1), p.closes[j];
    Bars(p, j).entered != b.entered && Equity(b, close) > 0.0 && share == Notional(b.lots, close) / Equity(b, close)
  }

  lemma BarShare(p: Params, i: nat)
    requires Tradable(p) && p.TradeStart() <= i < |p.closes|
    ensures var before, after := Bars(p, i).maxNotionalFrac, Bars(p, i + 1).maxNotionalFrac;
            && before <= after && (forall x :: LeftShare(p, i, x) ==> x <= after)
            && (after == before || LeftShare(p, i, after))
  {
    hide Bars, Bar, Marked, EntrySize, Notional;
    NextBar(p, i);
    BarIs(Bars(p, i), p, i);
    MarkedCash(p, i);
    MarkedKeeps(Bars(p, i), p, i);
  }

  /** The greatest share a run reports is the greatest that any of its entries left. */
  lemma {:induction false} MaxShareIsGreatest(p: Params, i: nat)
    requires Tradable(p) && p.TradeStart() <= i <= |p.closes|
    ensures var most := Bars(p, i).maxNotionalFrac;
            && (forall j: nat, x :: p.TradeStart() <= j < i && LeftShare(p, j, x) ==> x <= most)
            && (most == 0.0 || exists j: nat :: p.TradeStart() <= j < i && LeftShare(p, j, most))
    decreases i
  {
    hide Bar, LeftShare;
    if i > p.TradeStart() {
      MaxShareIsGreatest(p, i - 1);
      BarShare(p, i - 1);
    }
  }
}
