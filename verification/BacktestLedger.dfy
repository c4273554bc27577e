/** What every run of the 5m backtest keeps: it never spends cash it does not have, opens
    at most three lots, closes each lot once at its first touch, and its books balance. */
module BacktestLedger {
  import opened Reals
  import opened Wrappers
  import opened RiskRules
  import opened ManagedBacktest

  /** Positive prices, a target above the entry and no debt to begin with. */
  ghost predicate Tradable(p: Params) {
    && p.Valid() && p.startCash >= 0.0 && p.rr >= 0.0
    && forall i :: 0 <= i < |p.closes| ==> p.closes[i] > 0.0
  }

  // ----- one bar

  /** What a bar does once its exits are made and the book is marked. */
  lemma BarIs(b: Book, p: Params, i: nat)
    requires p.Valid() && i < |p.closes|
    ensures var b1 := Marked(b, p, i);
            var e := EntrySize(b1, p, i, Equity(b1, p.closes[i]), |b1.closed| > |b.closed|);
            && (e.None? ==> Bar(b, p, i) == b1)
            && (e.Some? ==>
                  var lot := Lot(e.value.0, EntryPrice(p.closes[i], p.slippage), e.value.1, i);
                  && Bar(b, p, i) == EnterLot(b1, p, i, e.value.0, e.value.1)
                  && Bar(b, p, i).lots == b1.lots + [lot] && Bar(b, p, i).entered == b1.entered + [lot]
                  && Bar(b, p, i).closed == b1.closed && Bar(b, p, i).risk == b1.risk)
  {
    hide EntrySize, Equity, Marked;
  }

  lemma {:induction false} VisitDraws(b: Book, lots: seq<Lot>, k: nat, p: Params, i: nat)
    requires k <= |lots| && i < |p.closes|
    ensures forall lot :: lot in VisitLots(b, lots, k, p, i).lots ==> lot in lots
  {
    if k > 0 {
      VisitDraws(b, lots, k - 1, p, i);
      assert lots[k - 1] in lots;
      hide ExitOf;
    }
  }

  /** The exits of a bar open nothing. */
  lemma MarkedKeeps(b: Book, p: Params, i: nat)
    requires i < |p.closes|
    ensures Marked(b, p, i).entered == b.entered
    ensures forall lot :: lot in Marked(b, p, i).lots ==> lot in b.lots
  {
    VisitKeepsRisk(b, b.lots, |b.lots|, p, i);
    VisitDraws(b, b.lots, |b.lots|, p, i);
    hide VisitLots, Equity;
  }

  // ----- solvency

  predicate Healthy(lot: Lot) {
    lot.qty > 0.0 && 0.0 < lot.stop < lot.entry
  }

  predicate AllHealthy(lots: seq<Lot>) {
    forall lot :: lot in lots ==> Healthy(lot)
  }

  predicate Solvent(b: Book) {
    && b.cash >= 0.0 && b.minCash >= 0.0 && 0.0 <= b.maxNotionalFrac <= 1.0
    && |b.lots| <= MAX_LOTS_PER_SYMBOL && AllHealthy(b.lots)
  }

  lemma SlippedStays(price: real, slippage: real)
    requires price > 0.0 && 0.0 <= slippage < 1.0
    ensures SlippedDown(price, slippage) > 0.0
  {
    MulPos(price, 1.0 - slippage);
  }

  lemma TargetAboveEntry(lot: Lot, rr: real)
    requires Healthy(lot) && rr >= 0.0
    ensures TargetPrice(lot, rr) >= lot.entry
  {
  }

  lemma SaleAddsCash(exit: real, qty: real, takerFee: real)
    requires exit > 0.0 && qty > 0.0 && 0.0 <= takerFee < 1.0
    ensures Gross(exit, qty) - FeeOn(Gross(exit, qty), takerFee) > 0.0
  {
    MulPos(exit, qty);
    MulPos(Gross(exit, qty), 1.0 - takerFee);
  }

  lemma ExitIsPositive(lot: Lot, high: real, low: real, rr: real, slippage: real)
    requires Healthy(lot) && rr >= 0.0 && 0.0 <= slippage < 1.0
    ensures ExitOf(lot, high, low, rr, slippage).Some? ==> ExitOf(lot, high, low, rr, slippage).value.0 > 0.0
  {
    TargetAboveEntry(lot, rr);
    SlippedStays(lot.stop, slippage);
    SlippedStays(TargetPrice(lot, rr), slippage);
  }

  lemma {:induction false} VisitStaysSolvent(b: Book, lots: seq<Lot>, k: nat, p: Params, i: nat)
    requires Tradable(p) && i < |p.closes| && k <= |lots|
    requires AllHealthy(lots) && b.cash >= 0.0
    ensures var b' := VisitLots(b, lots, k, p, i);
            b'.cash >= b.cash && |b'.lots| <= k && AllHealthy(b'.lots)
  {
    if k > 0 {
      VisitStaysSolvent(b, lots, k - 1, p, i);
      var lot := lots[k - 1];
      ExitIsPositive(lot, p.High(i), p.Low(i), p.rr, p.slippage);
      var e := ExitOf(lot, p.High(i), p.Low(i), p.rr, p.slippage);
      if e.Some? {
        SaleAddsCash(e.value.0, lot.qty, p.takerFee);
      }
    }
  }

  lemma MarkedStaysSolvent(b: Book, p: Params, i: nat)
    requires Tradable(p) && i < |p.closes| && Solvent(b)
    ensures Solvent(Marked(b, p, i))
  {
    VisitStaysSolvent(b, b.lots, |b.lots|, p, i);
    VisitKeepsRisk(b, b.lots, |b.lots|, p, i);
  }

  /** What an entry costs is its size at the unit cost the gate was told. */
  lemma EntryCost(close: real, size: real, p: Params)
    ensures var gross := Gross(EntryPrice(close, p.slippage), size);
            gross + FeeOn(gross, p.takerFee) == size * (close * p.CostMult())
  {
    var s, f := 1.0 + p.slippage, 1.0 + p.takerFee;
    var gross := Gross(EntryPrice(close, p.slippage), size);
    assert gross + FeeOn(gross, p.takerFee) == gross * f;
    assert gross == (close * s) * size;
    calc {
      ((close * s) * size) * f;
      (close * s) * (size * f);
      (close * s) * (f * size);
      ((close * s) * f) * size;
      (close * (s * f)) * size;
    }
  }

  lemma CostAtLeastOne(p: Params)
    requires p.Valid()
    ensures p.CostMult() >= 1.0
  {
    MulLe(1.0, 1.0 + p.slippage, 1.0 + p.takerFee);
  }

  lemma EntryGate(b: Book, p: Params, i: nat, equity: real, exited: bool, size: real, stop: real)
    requires p.Valid() && i < |p.closes|
    requires EntrySize(b, p, i, equity, exited) == Some((size, stop))
    ensures |b.lots| < MAX_LOTS_PER_SYMBOL && InProfit(b.lots, p.closes[i])
    ensures p.flags[i] && !(exited && b.lots == []) && size > 0.0 && stop == AtrStopPrice(p.closes[i], p.atr[i])
    ensures SizePosition(b.risk, equity, p.closes[i], stop, b.lots, 1.0, Some(b.cash), p.CostMult()) == Approved(size)
  {
  }

  lemma FullConfidence(close: real, costMult: real)
    requires costMult >= 1.0
    ensures Clamped(1.0) == 1.0 && UnitCost(close, costMult) == close * costMult
  {
  }

  /** What the gate lets through, in the book's own terms. */
  lemma EntryBounds(b: Book, p: Params, i: nat, equity: real, exited: bool, size: real, stop: real)
    requires Tradable(p) && i < |p.closes|
    requires EntrySize(b, p, i, equity, exited) == Some((size, stop))
    ensures var close := p.closes[i];
            && !b.risk.halted && |b.lots| < MAX_LOTS_PER_SYMBOL && InProfit(b.lots, close)
            && p.flags[i] && !(exited && b.lots == [])
            && size > 0.0 && 0.0 < stop < close && STOP_FLOOR_FRAC * close <= close - stop
            && size * (close * p.CostMult()) <= b.cash
            && (close - stop) * size <= equity * b.risk.riskFrac
            && ((close - stop) * size == equity * b.risk.riskFrac || size * (close * p.CostMult()) == b.cash)
            && (b.lots != [] ==> OpenRisk(b.lots) + (close - stop) * size <= equity * b.risk.maxOpenRiskFrac)
  {
    hide SizePosition, EntrySize, OpenRisk, InProfit, Params.CostMult, AtrStopPrice, UnitCost, Clamped;
    var close := p.closes[i];
    EntryGate(b, p, i, equity, exited, size, stop);
    StopBand(close, p.atr[i]);
    CostAtLeastOne(p);
    ApprovalBounds(b.risk, equity, close, stop, b.lots, 1.0, Some(b.cash), p.CostMult());
    FullConfidence(close, p.CostMult());
  }

  lemma {:induction false} NotionalIsPositive(lots: seq<Lot>, price: real)
    requires AllHealthy(lots) && price > 0.0
    ensures Notional(lots, price) >= 0.0
  {
    if lots != [] {
      var last := lots[|lots| - 1];
      assert Healthy(last);
      NotionalIsPositive(lots[..|lots| - 1], price);
      MulPos(price, last.qty);
    }
  }

  lemma FractionAtMostOne(part: real, whole: real)
    requires 0.0 <= part <= whole && whole > 0.0
    ensures 0.0 <= part / whole <= 1.0
  {
  }

  lemma EntryRises(close: real, slippage: real)
    requires close > 0.0 && slippage >= 0.0
    ensures EntryPrice(close, slippage) >= close
  {
    MulLe(1.0, 1.0 + slippage, close);
  }

  lemma NewLotIsHealthy(b: Book, p: Params, i: nat, size: real, stop: real)
    requires p.Valid() && i < |p.closes| && AllHealthy(b.lots) && p.closes[i] > 0.0
    requires size > 0.0 && 0.0 < stop < p.closes[i]
    ensures AllHealthy(EnterLot(b, p, i, size, stop).lots)
  {
    EntryRises(p.closes[i], p.slippage);
  }

  lemma NotionalWithinEquity(b: Book, p: Params, i: nat, size: real, stop: real)
    requires i < |p.closes| && p.closes[i] > 0.0
    requires AllHealthy(EnterLot(b, p, i, size, stop).lots) && EnterLot(b, p, i, size, stop).cash >= 0.0
    requires 0.0 <= b.maxNotionalFrac <= 1.0
    ensures 0.0 <= EnterLot(b, p, i, size, stop).maxNotionalFrac <= 1.0
  {
    var b' := EnterLot(b, p, i, size, stop);
    NotionalIsPositive(b'.lots, p.closes[i]);
    var notional := Notional(b'.lots, p.closes[i]);
    if b'.cash + notional > 0.0 {
      FractionAtMostOne(notional, b'.cash + notional);
    }
  }

  lemma EntryCash(b: Book, p: Params, i: nat, size: real, stop: real)
    requires i < |p.closes| && size * (p.closes[i] * p.CostMult()) <= b.cash
    ensures EnterLot(b, p, i, size, stop).cash >= 0.0
  {
    EntryCost(p.closes[i], size, p);
  }

  lemma EntryStaysSolvent(b: Book, p: Params, i: nat, equity: real, exited: bool, size: real, stop: real)
    requires Tradable(p) && i < |p.closes| && Solvent(b)
    requires EntrySize(b, p, i, equity, exited) == Some((size, stop))
    ensures Solvent(EnterLot(b, p, i, size, stop))
  {
    EntryBounds(b, p, i, equity, exited, size, stop);
    EntryCash(b, p, i, size, stop);
    NewLotIsHealthy(b, p, i, size, stop);
    NotionalWithinEquity(b, p, i, size, stop);
  }

  lemma BarStaysSolvent(b: Book, p: Params, i: nat)
    requires Tradable(p) && i < |p.closes| && Solvent(b)
    ensures Solvent(Bar(b, p, i))
  {
    MarkedStaysSolvent(b, p, i);
    var b1 := Marked(b, p, i);
    var equity, exited := Equity(b1, p.closes[i]), |b1.closed| > |b.closed|;
    var e := EntrySize(b1, p, i, equity, exited);
    if e.Some? {
      EntryStaysSolvent(b1, p, i, equity, exited, e.value.0, e.value.1);
    }
  }

  /** Cash is never negative, no more than three lots are open, and after an entry the open
      notional is at most the equity. */
  lemma {:induction false} RunStaysSolvent(p: Params, i: nat)
    requires Tradable(p) && p.TradeStart() <= i <= |p.closes|
    ensures Solvent(Bars(p, i))
    decreases i
  {
    hide Bar;
    if i > p.TradeStart() {
      RunStaysSolvent(p, i - 1);
      BarStaysSolvent(Bars(p, i - 1), p, i - 1);
    }
  }

  lemma {:induction false} ClosingStaysSolvent(b: Book, lots: seq<Lot>, k: nat, exit: real, bar: int, takerFee: real)
    requires k <= |lots| && AllHealthy(lots) && exit > 0.0 && 0.0 <= takerFee < 1.0
    ensures var b' := CloseFirst(b, lots, k, exit, bar, takerFee);
            b'.cash >= b.cash && b'.minCash == b.minCash && b'.maxNotionalFrac == b.maxNotionalFrac
  {
    if k > 0 {
      ClosingStaysSolvent(b, lots, k - 1, exit, bar, takerFee);
      assert Healthy(lots[k - 1]);
      SaleAddsCash(exit, lots[k - 1].qty, takerFee);
    }
  }

  lemma EndIsSolvent(p: Params)
    requires Tradable(p)
    ensures Solvent(Final(p)) && Final(p).lots == []
  {
    hide Bars, Bar;
    if p.End() > p.TradeStart() {
      RunStaysSolvent(p, p.End());
      var b := Bars(p, p.End());
      SlippedStays(p.closes[p.End() - 1], p.slippage);
      ClosingStaysSolvent(b, b.lots, |b.lots|, SlippedDown(p.closes[p.End() - 1], p.slippage), p.End() - 1, p.takerFee);
    }
  }

  // ----- the ledger

  function Pnl(c: ClosedLot): real {
    Gross(c.exit, c.lot.qty) - Gross(c.lot.entry, c.lot.qty)
  }

  function PnlSum(closed: seq<ClosedLot>): real {
    if closed == [] then 0.0 else PnlSum(closed[..|closed| - 1]) + Pnl(closed[|closed| - 1])
  }

  /** What the open lots cost before fees. */
  function Invested(lots: seq<Lot>): real {
    if lots == [] then 0.0
    else Invested(lots[..|lots| - 1]) + Gross(lots[|lots| - 1].entry, lots[|lots| - 1].qty)
  }

  /** Cash with its fees and investments given back, less what the closed lots made. */
  function Base(b: Book): real {
    b.cash + b.fees - PnlSum(b.closed)
  }

  lemma PnlSumAppend(closed: seq<ClosedLot>, c: ClosedLot)
    ensures PnlSum(closed + [c]) == PnlSum(closed) + Pnl(c)
  {
    assert (closed + [c])[..|closed|] == closed;
  }

  lemma InvestedAppend(lots: seq<Lot>, lot: Lot)
    ensures Invested(lots + [lot]) == Invested(lots) + Gross(lot.entry, lot.qty)
  {
    assert (lots + [lot])[..|lots|] == lots;
  }

  lemma CloseLotBalances(b: Book, lot: Lot, exit: real, hit: Hit, bar: int, takerFee: real)
    ensures Base(CloseLot(b, lot, exit, hit, bar, takerFee)) == Base(b) + Gross(lot.entry, lot.qty)
  {
    PnlSumAppend(b.closed, ClosedLot(lot, exit, hit, bar));
  }

  /** `Base` with the investments still out. */
  function Worth(b: Book): real {
    Base(b) + Invested(b.lots)
  }

  lemma VisitLotBalances(b: Book, lot: Lot, p: Params, i: nat)
    requires i < |p.closes|
    ensures Worth(VisitLot(b, lot, p, i)) == Worth(b) + Gross(lot.entry, lot.qty)
  {
    var e := ExitOf(lot, p.High(i), p.Low(i), p.rr, p.slippage);
    if e.Some? {
      CloseLotBalances(b, lot, e.value.0, e.value.1, i, p.takerFee);
    } else {
      InvestedAppend(b.lots, lot);
    }
  }

  lemma InvestedTake(lots: seq<Lot>, k: nat)
    requires 0 < k <= |lots|
    ensures Invested(lots[..k]) == Invested(lots[..k - 1]) + Gross(lots[k - 1].entry, lots[k - 1].qty)
  {
    assert lots[..k][..k - 1] == lots[..k - 1];
  }

  lemma {:induction false} VisitBalances(b: Book, lots: seq<Lot>, k: nat, p: Params, i: nat)
    requires k <= |lots| && i < |p.closes|
    ensures Worth(VisitLots(b, lots, k, p, i)) == Base(b) + Invested(lots[..k])
  {
    if k > 0 {
      VisitBalances(b, lots, k - 1, p, i);
      VisitLotBalances(VisitLots(b, lots, k - 1, p, i), lots[k - 1], p, i);
      InvestedTake(lots, k);
    }
  }

  lemma EntryBalances(b: Book, p: Params, i: nat, size: real, stop: real)
    requires i < |p.closes|
    ensures Worth(EnterLot(b, p, i, size, stop)) == Worth(b)
  {
    InvestedAppend(b.lots, Lot(size, EntryPrice(p.closes[i], p.slippage), stop, i));
  }

  lemma BarBalances(b: Book, p: Params, i: nat)
    requires p.Valid() && i < |p.closes|
    ensures Worth(Bar(b, p, i)) == Worth(b)
  {
    VisitBalances(b, b.lots, |b.lots|, p, i);
    assert b.lots[..|b.lots|] == b.lots;
    var b1 := Marked(b, p, i);
    var e := EntrySize(b1, p, i, Equity(b1, p.closes[i]), |b1.closed| > |b.closed|);
    if e.Some? {
      EntryBalances(b1, p, i, e.value.0, e.value.1);
    }
  }

  lemma {:induction false} RunBalances(p: Params, i: nat)
    requires p.Valid() && p.TradeStart() <= i <= |p.closes|
    ensures Worth(Bars(p, i)) == p.startCash
    decreases i
  {
    hide Bar;
    if i > p.TradeStart() {
      RunBalances(p, i - 1);
      BarBalances(Bars(p, i - 1), p, i - 1);
    }
  }

  lemma {:induction false} ClosingBalances(b: Book, lots: seq<Lot>, k: nat, exit: real, bar: int, takerFee: real)
    requires k <= |lots|
    ensures Base(CloseFirst(b, lots, k, exit, bar, takerFee)) == Base(b) + Invested(lots[..k])
  {
    if k > 0 {
      ClosingBalances(b, lots, k - 1, exit, bar, takerFee);
      CloseLotBalances(CloseFirst(b, lots, k - 1, exit, bar, takerFee), lots[k - 1], exit, EndHit, bar, takerFee);
      InvestedTake(lots, k);
    }
  }

  /** The change in cash over a run is what its lots made, less the fees it paid. */
  lemma CashIsPnlLessFees(p: Params)
    requires p.Valid()
    ensures Final(p).cash - p.startCash == PnlSum(Final(p).closed) - Final(p).fees
  {
    hide Bars, Bar;
    if p.End() > p.TradeStart() {
      RunBalances(p, p.End());
      var b := Bars(p, p.End());
      ClosingBalances(b, b.lots, |b.lots|, SlippedDown(p.closes[p.End() - 1], p.slippage), p.End() - 1, p.takerFee);
      assert b.lots[..|b.lots|] == b.lots;
    }
  }

  // ----- every lot is closed once

  function LotsOf(closed: seq<ClosedLot>): seq<Lot> {
    seq(|closed|, k requires 0 <= k < |closed| => closed[k].lot)
  }

  /** Every lot the book knows, closed or open. */
  function Known(b: Book): multiset<Lot> {
    multiset(LotsOf(b.closed) + b.lots)
  }

  lemma CloseKnows(b: Book, lot: Lot, exit: real, hit: Hit, bar: int, takerFee: real)
    ensures Known(CloseLot(b, lot, exit, hit, bar, takerFee)) == Known(b) + multiset{lot}
  {
    var c := ClosedLot(lot, exit, hit, bar);
    assert LotsOf(b.closed + [c]) == LotsOf(b.closed) + [lot];
  }

  lemma OpenKnows(b: Book, lot: Lot)
    ensures Known(b.(lots := b.lots + [lot])) == Known(b) + multiset{lot}
  {
    assert LotsOf(b.closed) + (b.lots + [lot]) == (LotsOf(b.closed) + b.lots) + [lot];
  }

  lemma VisitKnows(b: Book, lot: Lot, p: Params, i: nat)
    requires i < |p.closes|
    ensures Known(VisitLot(b, lot, p, i)) == Known(b) + multiset{lot}
  {
    var e := ExitOf(lot, p.High(i), p.Low(i), p.rr, p.slippage);
    if e.Some? {
      CloseKnows(b, lot, e.value.0, e.value.1, i, p.takerFee);
    } else {
      OpenKnows(b, lot);
    }
  }

  lemma TakeOne(lots: seq<Lot>, k: nat)
    requires 0 < k <= |lots|
    ensures multiset(lots[..k]) == multiset(lots[..k - 1]) + multiset{lots[k - 1]}
  {
    assert lots[..k] == lots[..k - 1] + [lots[k - 1]];
  }

  lemma KnownWhenNoneOpen(b: Book)
    ensures Known(b.(lots := [])) == multiset(LotsOf(b.closed))
  {
    assert LotsOf(b.closed) + [] == LotsOf(b.closed);
  }

  lemma {:induction false} VisitLosesNoLot(b: Book, lots: seq<Lot>, k: nat, p: Params, i: nat)
    requires k <= |lots| && i < |p.closes|
    ensures Known(VisitLots(b, lots, k, p, i)) == multiset(LotsOf(b.closed)) + multiset(lots[..k])
  {
    hide Known, LotsOf, VisitLot;
    if k > 0 {
      VisitLosesNoLot(b, lots, k - 1, p, i);
      VisitKnows(VisitLots(b, lots, k - 1, p, i), lots[k - 1], p, i);
      TakeOne(lots, k);
    } else {
      KnownWhenNoneOpen(b);
    }
  }

  predicate OpenedBefore(entered: seq<Lot>, i: int) {
    && (forall k, m :: 0 <= k < m < |entered| ==> entered[k].openedAt < entered[m].openedAt)
    && forall k :: 0 <= k < |entered| ==> entered[k].openedAt < i
  }

  /** Nothing is lost and nothing is known twice. */
  ghost predicate Accounted(b: Book, i: int) {
    multiset(b.entered) == Known(b) && OpenedBefore(b.entered, i)
  }

  lemma MarkedKnows(b: Book, p: Params, i: nat)
    requires i < |p.closes|
    ensures Known(Marked(b, p, i)) == Known(b) && Marked(b, p, i).entered == b.entered
  {
    VisitLosesNoLot(b, b.lots, |b.lots|, p, i);
    VisitKeepsRisk(b, b.lots, |b.lots|, p, i);
    assert b.lots[..|b.lots|] == b.lots;
  }

  lemma EntryAccounts(b: Book, p: Params, i: nat, size: real, stop: real)
    requires i < |p.closes| && Accounted(b, i)
    ensures Accounted(EnterLot(b, p, i, size, stop), i + 1)
  {
    OpenKnows(b, Lot(size, EntryPrice(p.closes[i], p.slippage), stop, i));
  }

  lemma BarAccounts(b: Book, p: Params, i: nat)
    requires p.Valid() && i < |p.closes| && Accounted(b, i)
    ensures Accounted(Bar(b, p, i), i + 1)
  {
    hide Known, Marked, EntrySize, Equity, EnterLot, OpenedBefore;
    MarkedKnows(b, p, i);
    BarIs(b, p, i);
    var b1 := Marked(b, p, i);
    SameAccount(b, b1, i);
    var e := EntrySize(b1, p, i, Equity(b1, p.closes[i]), |b1.closed| > |b.closed|);
    if e.Some? {
      EntryAccounts(b1, p, i, e.value.0, e.value.1);
    }
  }

  lemma SameAccount(b: Book, b1: Book, i: int)
    requires Accounted(b, i) && Known(b1) == Known(b) && b1.entered == b.entered
    ensures Accounted(b1, i) && Accounted(b1, i + 1)
  {
    hide Known;
  }

  lemma {:induction false} RunAccounts(p: Params, i: nat)
    requires p.Valid() && p.TradeStart() <= i <= |p.closes|
    ensures Accounted(Bars(p, i), i)
    decreases i
  {
    hide Bar;
    if i > p.TradeStart() {
      RunAccounts(p, i - 1);
      BarAccounts(Bars(p, i - 1), p, i - 1);
    }
  }

  /** What is still to close once the first `k` lots have been. */
  lemma {:induction false} ClosingLosesNoLot(b: Book, lots: seq<Lot>, k: nat, exit: real, bar: int, takerFee: real)
    requires k <= |lots|
    ensures var b' := CloseFirst(b, lots, k, exit, bar, takerFee);
            Known(b') == Known(b) + multiset(lots[..k]) && b'.entered == b.entered && b'.lots == b.lots
  {
    if k > 0 {
      ClosingLosesNoLot(b, lots, k - 1, exit, bar, takerFee);
      CloseKnows(CloseFirst(b, lots, k - 1, exit, bar, takerFee), lots[k - 1], exit, EndHit, bar, takerFee);
      TakeOne(lots, k);
    }
  }

  lemma AllClosed(b: Book, entered: multiset<Lot>)
    requires Known(b) == entered + multiset(b.lots)
    ensures multiset(LotsOf(b.closed)) == entered
  {
    var closed, lots := multiset(LotsOf(b.closed)), multiset(b.lots);
    assert closed == (closed + lots) - lots == (entered + lots) - lots == entered;
  }

  lemma ClosingClosesAll(b: Book, exit: real, bar: int, takerFee: real)
    requires multiset(b.entered) == Known(b)
    ensures var b' := CloseFirst(b, b.lots, |b.lots|, exit, bar, takerFee);
            multiset(LotsOf(b'.closed)) == multiset(b.entered) && b'.entered == b.entered
  {
    ClosingLosesNoLot(b, b.lots, |b.lots|, exit, bar, takerFee);
    assert b.lots[..|b.lots|] == b.lots;
    AllClosed(CloseFirst(b, b.lots, |b.lots|, exit, bar, takerFee), multiset(b.entered));
  }

  /** The lots a run closes are exactly those it opened, no two of them on one bar. */
  lemma EveryLotClosesOnce(p: Params)
    requires p.Valid()
    ensures multiset(LotsOf(Final(p).closed)) == multiset(Final(p).entered)
    ensures OpenedBefore(Final(p).entered, |p.closes|)
  {
    hide Bars, Bar;
    if p.End() > p.TradeStart() {
      RunAccounts(p, p.End());
      var b := Bars(p, p.End());
      ClosingClosesAll(b, SlippedDown(p.closes[p.End() - 1], p.slippage), p.End() - 1, p.takerFee);
    }
  }

  // ----- the halt

  lemma HaltedBar(b: Book, p: Params, i: nat)
    requires p.Valid() && i < |p.closes| && b.risk.halted
    ensures Bar(b, p, i).risk.halted && Bar(b, p, i).entered == b.entered
  {
    VisitKeepsRisk(b, b.lots, |b.lots|, p, i);
  }

  /** Once the drawdown breaker has tripped nothing is opened again. */
  lemma {:induction false} NothingOpensAfterAHalt(p: Params, i: nat, j: nat)
    requires p.Valid() && p.TradeStart() <= i <= j <= |p.closes|
    requires Bars(p, i).risk.halted
    ensures Bars(p, j).risk.halted && Bars(p, j).entered == Bars(p, i).entered
    decreases j
  {
    hide Bar;
    if i < j {
      NothingOpensAfterAHalt(p, i, j - 1);
      HaltedBar(Bars(p, j - 1), p, j - 1);
    }
  }
}
