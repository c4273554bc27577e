/** When, and at what risk, the lots of the 5m backtest come and go. */
module BacktestExits {
  import opened Reals
  import opened Wrappers
  import opened RiskRules
  import opened ManagedBacktest
  import opened BacktestLedger

  // ----- first touch

  /** Where the lot would leave on bar `j`. */
  function ExitAt(p: Params, lot: Lot, j: int): Option<(real, Hit)>
    requires 0 <= j < |p.closes|
  {
    ExitOf(lot, p.High(j), p.Low(j), p.rr, p.slippage)
  }

  /** No bar after the entry and before `to` reached the stop or the target. */
  ghost predicate Untouched(p: Params, lot: Lot, to: int) {
    && 0 <= lot.openedAt < to <= |p.closes|
    && forall j :: lot.openedAt < j < to ==> ExitAt(p, lot, j).None?
  }

  /** The lot left on the first bar after its entry that reached the stop or the target, at
      that level less slippage, the stop having precedence. */
  ghost predicate LeftAtFirstTouch(p: Params, c: ClosedLot) {
    && c.bar < |p.closes| && Untouched(p, c.lot, c.bar)
    && ExitAt(p, c.lot, c.bar) == Some((c.exit, c.hit))
  }

  /** The lot was never touched and was sold at the window's last close. */
  ghost predicate LeftAtTheEnd(p: Params, c: ClosedLot) {
    && 0 < p.End() && c.hit == EndHit && c.bar == p.End() - 1
    && c.exit == SlippedDown(p.closes[c.bar], p.slippage) && Untouched(p, c.lot, p.End())
  }

  ghost predicate OpenUntouched(p: Params, lots: seq<Lot>, to: int) {
    forall k :: 0 <= k < |lots| ==> Untouched(p, lots[k], to)
  }

  ghost predicate AllLeftRightly(p: Params, closed: seq<ClosedLot>) {
    forall k :: 0 <= k < |closed| ==> LeftAtFirstTouch(p, closed[k])
  }

  lemma VisitLotTouches(b: Book, lot: Lot, p: Params, i: nat)
    requires i < |p.closes| && AllLeftRightly(p, b.closed)
    requires OpenUntouched(p, b.lots, i + 1) && Untouched(p, lot, i)
    ensures var b' := VisitLot(b, lot, p, i);
            AllLeftRightly(p, b'.closed) && OpenUntouched(p, b'.lots, i + 1)
  {
    if ExitAt(p, lot, i).None? {
      assert Untouched(p, lot, i + 1);
    }
  }

  lemma {:induction false} VisitTouches(b: Book, lots: seq<Lot>, k: nat, p: Params, i: nat)
    requires k <= |lots| && i < |p.closes| && AllLeftRightly(p, b.closed) && OpenUntouched(p, lots, i)
    ensures var b' := VisitLots(b, lots, k, p, i);
            AllLeftRightly(p, b'.closed) && OpenUntouched(p, b'.lots, i + 1)
  {
    if k > 0 {
      VisitTouches(b, lots, k - 1, p, i);
      VisitLotTouches(VisitLots(b, lots, k - 1, p, i), lots[k - 1], p, i);
    }
  }

  lemma BarTouches(b: Book, p: Params, i: nat)
    requires p.Valid() && i < |p.closes| && AllLeftRightly(p, b.closed) && OpenUntouched(p, b.lots, i)
    ensures AllLeftRightly(p, Bar(b, p, i).closed) && OpenUntouched(p, Bar(b, p, i).lots, i + 1)
  {
    VisitTouches(b, b.lots, |b.lots|, p, i);
  }

  lemma {:induction false} RunTouches(p: Params, i: nat)
    requires p.Valid() && p.TradeStart() <= i <= |p.closes|
    ensures AllLeftRightly(p, Bars(p, i).closed) && OpenUntouched(p, Bars(p, i).lots, i)
    decreases i
  {
    hide Bar;
    if i > p.TradeStart() {
      RunTouches(p, i - 1);
      BarTouches(Bars(p, i - 1), p, i - 1);
    }
  }

  ghost predicate AllLeft(p: Params, closed: seq<ClosedLot>) {
    forall k :: 0 <= k < |closed| ==> LeftAtFirstTouch(p, closed[k]) || LeftAtTheEnd(p, closed[k])
  }

  lemma {:induction false} ClosingTouches(p: Params, b: Book, k: nat, exit: real)
    requires 0 < p.End() && k <= |b.lots| && exit == SlippedDown(p.closes[p.End() - 1], p.slippage)
    requires AllLeft(p, b.closed) && OpenUntouched(p, b.lots, p.End())
    ensures AllLeft(p, CloseFirst(b, b.lots, k, exit, p.End() - 1, p.takerFee).closed)
  {
    if k > 0 {
      ClosingTouches(p, b, k - 1, exit);
      assert LeftAtTheEnd(p, ClosedLot(b.lots[k - 1], exit, EndHit, p.End() - 1));
    }
  }

  /** Every lot of a run leaves at its first touch, or untouched at the end of the window. */
  lemma LotsLeaveAtTheirFirstTouch(p: Params)
    requires p.Valid()
    ensures AllLeft(p, Final(p).closed)
  {
    hide Bars, Bar;
    if p.End() > p.TradeStart() {
      RunTouches(p, p.End());
      var b := Bars(p, p.End());
      ClosingTouches(p, b, |b.lots|, SlippedDown(p.closes[p.End() - 1], p.slippage));
    }
  }

  // ----- pyramiding

  /** Later lots were entered at higher prices and on later bars. */
  predicate Climbing(lots: seq<Lot>) {
    forall k, m :: 0 <= k < m < |lots| ==> lots[k].entry < lots[m].entry && lots[k].openedAt < lots[m].openedAt
  }

  ghost predicate DrawnFrom(kept: seq<Lot>, lots: seq<Lot>) {
    forall k :: 0 <= k < |kept| ==> kept[k] in lots
  }

  lemma LaterOneClimbs(before: seq<Lot>, lots: seq<Lot>, k: nat, lot: Lot)
    requires 0 < k <= |lots| && Climbing(lots) && lot == lots[k - 1]
    requires Climbing(before) && DrawnFrom(before, lots[..k - 1])
    ensures Climbing(before + [lot]) && DrawnFrom(before + [lot], lots[..k]) && DrawnFrom(before, lots[..k])
  {
    forall m | 0 <= m < |before|
      ensures before[m] in lots[..k] && before[m].entry < lot.entry && before[m].openedAt < lot.openedAt
    {
      var n :| 0 <= n < k - 1 && lots[..k - 1][n] == before[m];
      assert lots[..k][n] == before[m];
    }
    assert lots[..k][k - 1] == lot;
  }

  lemma {:induction false} VisitClimbs(b: Book, lots: seq<Lot>, k: nat, p: Params, i: nat)
    requires k <= |lots| && i < |p.closes| && Climbing(lots)
    ensures var b' := VisitLots(b, lots, k, p, i);
            Climbing(b'.lots) && DrawnFrom(b'.lots, lots[..k])
  {
    if k > 0 {
      VisitClimbs(b, lots, k - 1, p, i);
      LaterOneClimbs(VisitLots(b, lots, k - 1, p, i).lots, lots, k, lots[k - 1]);
      hide Climbing, DrawnFrom, ExitOf;
    }
  }

  lemma ProfitIsAbove(lot: Lot, price: real)
    requires lot.qty > 0.0 && Gross(price - lot.entry, lot.qty) > 0.0
    ensures price > lot.entry
  {
    if price <= lot.entry {
      MulLe(price - lot.entry, 0.0, lot.qty);
    }
  }

  lemma EntryClimbs(b: Book, p: Params, i: nat, size: real, stop: real)
    requires p.Valid() && i < |p.closes| && p.closes[i] > 0.0 && AllHealthy(b.lots)
    requires Climbing(b.lots) && OpenUntouched(p, b.lots, i + 1) && (forall lot :: lot in b.lots ==> lot.openedAt < i)
    requires InProfit(b.lots, p.closes[i])
    ensures Climbing(EnterLot(b, p, i, size, stop).lots)
  {
    EntryRises(p.closes[i], p.slippage);
    forall k | 0 <= k < |b.lots| ensures b.lots[k].entry < p.closes[i] {
      assert b.lots[k] in b.lots;
      ProfitIsAbove(b.lots[k], p.closes[i]);
    }
  }

  lemma MarkedClimbs(b: Book, p: Params, i: nat)
    requires i < |p.closes| && Climbing(b.lots) && AllLeftRightly(p, b.closed) && OpenUntouched(p, b.lots, i)
    ensures var b1 := Marked(b, p, i);
            && Climbing(b1.lots) && OpenUntouched(p, b1.lots, i + 1)
            && forall lot :: lot in b1.lots ==> lot.openedAt < i
  {
    VisitClimbs(b, b.lots, |b.lots|, p, i);
    VisitTouches(b, b.lots, |b.lots|, p, i);
    MarkedKeeps(b, p, i);
    var b1 := Marked(b, p, i);
    assert b1.lots == VisitLots(b, b.lots, |b.lots|, p, i).lots;
    hide Marked, VisitLots, Climbing;
    forall lot | lot in b1.lots ensures lot.openedAt < i {
      assert lot in b.lots;
      var m :| 0 <= m < |b.lots| && b.lots[m] == lot;
      assert Untouched(p, b.lots[m], i);
    }
  }

  lemma BarClimbs(b: Book, p: Params, i: nat)
    requires Tradable(p) && i < |p.closes| && Solvent(b) && Climbing(b.lots)
    requires AllLeftRightly(p, b.closed) && OpenUntouched(p, b.lots, i)
    ensures Climbing(Bar(b, p, i).lots)
  {
    MarkedClimbs(b, p, i);
    MarkedStaysSolvent(b, p, i);
    BarIs(b, p, i);
    hide Bar, Marked, EntrySize, Equity, EnterLot, Climbing, OpenUntouched, AllHealthy, InProfit;
    var b1 := Marked(b, p, i);
    var equity, exited := Equity(b1, p.closes[i]), |b1.closed| > |b.closed|;
    var e := EntrySize(b1, p, i, equity, exited);
    if e.Some? {
      EntryGate(b1, p, i, equity, exited, e.value.0, e.value.1);
      EntryClimbs(b1, p, i, e.value.0, e.value.1);
    }
  }

  ghost predicate Sound(p: Params, b: Book, i: int) {
    Solvent(b) && Climbing(b.lots) && AllLeftRightly(p, b.closed) && OpenUntouched(p, b.lots, i)
  }

  lemma BarStaysSound(b: Book, p: Params, i: nat)
    requires Tradable(p) && i < |p.closes| && Sound(p, b, i)
    ensures Sound(p, Bar(b, p, i), i + 1)
  {
    BarStaysSolvent(b, p, i);
    BarTouches(b, p, i);
    BarClimbs(b, p, i);
  }

  /** Whatever the tape, the open lots were added one above the other. */
  lemma {:induction false} RunPyramidsUp(p: Params, i: nat)
    requires Tradable(p) && p.TradeStart() <= i <= |p.closes|
    ensures Sound(p, Bars(p, i), i) && Climbing(Bars(p, i).lots)
    decreases i
  {
    hide Bar;
    if i > p.TradeStart() {
      RunPyramidsUp(p, i - 1);
      BarStaysSound(Bars(p, i - 1), p, i - 1);
    }
  }

  // ----- what an entry risks

  lemma RiskSumAppend(lots: seq<Lot>, lot: Lot)
    ensures RiskSum(lots + [lot]) == RiskSum(lots) + (lot.entry - lot.stop) * lot.qty
  {
    assert (lots + [lot])[..|lots|] == lots;
  }

  lemma EntryRiskSplits(close: real, slippage: real, stop: real, size: real)
    ensures (EntryPrice(close, slippage) - stop) * size == (close - stop) * size + slippage * (close * size)
  {
    assert EntryPrice(close, slippage) - stop == (close - stop) + slippage * close;
  }

  lemma EntryRisk(b: Book, p: Params, i: nat, size: real, stop: real)
    requires i < |p.closes|
    ensures RiskSum(EnterLot(b, p, i, size, stop).lots)
         == RiskSum(b.lots) + (p.closes[i] - stop) * size + p.slippage * Gross(p.closes[i], size)
  {
    RiskSumAppend(b.lots, Lot(size, EntryPrice(p.closes[i], p.slippage), stop, i));
    EntryRiskSplits(p.closes[i], p.slippage, stop, size);
  }

  /** Adding to open lots keeps the open risk within its share of equity, over which it goes
      by no more than the slippage on the new lot, since the gate prices it without any. */
  lemma OpenRiskAfterAddition(b: Book, p: Params, i: nat, equity: real, exited: bool, size: real, stop: real)
    requires Tradable(p) && i < |p.closes| && b.lots != []
    requires EntrySize(b, p, i, equity, exited) == Some((size, stop))
    ensures RiskSum(EnterLot(b, p, i, size, stop).lots)
         <= equity * b.risk.maxOpenRiskFrac + p.slippage * Gross(p.closes[i], size)
  {
    EntryBounds(b, p, i, equity, exited, size, stop);
    EntryRisk(b, p, i, size, stop);
  }

  function LotRisk(lot: Lot): real {
    (lot.entry - lot.stop) * lot.qty
  }

  /** The lot was filled at its bar's close plus slippage, with its stop inside the band. */
  predicate Banded(p: Params, lot: Lot) {
    && 0 <= lot.openedAt < |p.closes|
    && lot.entry == EntryPrice(p.closes[lot.openedAt], p.slippage)
    && p.closes[lot.openedAt] - lot.stop <= STOP_CAP_FRAC * p.closes[lot.openedAt]
  }

  ghost predicate AllBanded(p: Params, lots: seq<Lot>) {
    forall k :: 0 <= k < |lots| ==> Banded(p, lots[k])
  }

  /** A lot filled no higher than now risks at most the widest stop and the slippage of its
      present worth. */
  lemma LotRiskInBand(p: Params, lot: Lot, price: real)
    requires Banded(p, lot) && Healthy(lot) && p.slippage >= 0.0
    requires p.closes[lot.openedAt] <= price
    ensures (lot.entry - lot.stop) * lot.qty <= (STOP_CAP_FRAC + p.slippage) * Gross(price, lot.qty)
  {
    var close := p.closes[lot.openedAt];
    MulLe(close, price, STOP_CAP_FRAC + p.slippage);
    assert lot.entry - lot.stop <= (STOP_CAP_FRAC + p.slippage) * close;
    MulLe(lot.entry - lot.stop, (STOP_CAP_FRAC + p.slippage) * price, lot.qty);
  }

  function Part(share: real, whole: real): real {
    share * whole
  }

  lemma PartsAdd(share: real, x: real, y: real)
    ensures Part(share, x) + Part(share, y) == Part(share, x + y)
    ensures Part(share, 0.0) == 0.0
  {
  }

  lemma BandedIsOnTape(p: Params, lot: Lot)
    requires Banded(p, lot)
    ensures 0 <= lot.openedAt < |p.closes|
  {
  }

  lemma LastLotInBand(p: Params, lot: Lot, price: real)
    requires Banded(p, lot) && Healthy(lot) && p.slippage >= 0.0 && p.closes[lot.openedAt] <= price
    ensures LotRisk(lot) <= Part(STOP_CAP_FRAC + p.slippage, Gross(price, lot.qty))
  {
    LotRiskInBand(p, lot, price);
  }

  lemma RiskSumLast(lots: seq<Lot>, price: real)
    requires lots != []
    ensures RiskSum(lots) == RiskSum(lots[..|lots| - 1]) + LotRisk(lots[|lots| - 1])
    ensures Notional(lots, price) == Notional(lots[..|lots| - 1], price) + Gross(price, lots[|lots| - 1].qty)
  {
  }

  lemma NoRiskNoNotional(price: real)
    ensures RiskSum([]) == 0.0 && Notional([], price) == 0.0
  {
  }

  lemma {:induction false} RiskInBand(p: Params, lots: seq<Lot>, price: real)
    requires AllBanded(p, lots) && AllHealthy(lots) && p.slippage >= 0.0
    requires forall k :: 0 <= k < |lots| ==> p.closes[lots[k].openedAt] <= price
    ensures RiskSum(lots) <= Part(STOP_CAP_FRAC + p.slippage, Notional(lots, price))
  {
    hide Gross, Part, RiskSum, Notional, LotRisk, Banded, Healthy;
    var share := STOP_CAP_FRAC + p.slippage;
    if lots == [] {
      NoRiskNoNotional(price);
      PartsAdd(share, 0.0, 0.0);
    } else {
      var lot, front := lots[|lots| - 1], lots[..|lots| - 1];
      assert lot in lots && Banded(p, lot);
      RiskInBand(p, front, price);
      LastLotInBand(p, lot, price);
      RiskSumLast(lots, price);
      PartsAdd(share, Notional(front, price), Gross(price, lot.qty));
    }
  }

  lemma NewLotIsBanded(b: Book, p: Params, i: nat, equity: real, exited: bool, size: real, stop: real)
    requires Tradable(p) && i < |p.closes| && AllBanded(p, b.lots)
    requires EntrySize(b, p, i, equity, exited) == Some((size, stop))
    ensures AllBanded(p, EnterLot(b, p, i, size, stop).lots)
  {
    EntryGate(b, p, i, equity, exited, size, stop);
    StopBand(p.closes[i], p.atr[i]);
  }

  lemma FilledBelow(b: Book, p: Params, i: nat)
    requires Tradable(p) && i < |p.closes| && Solvent(b) && AllBanded(p, b.lots) && InProfit(b.lots, p.closes[i])
    ensures forall k :: 0 <= k < |b.lots| ==> p.closes[b.lots[k].openedAt] <= p.closes[i]
  {
    forall k | 0 <= k < |b.lots|
      ensures p.closes[b.lots[k].openedAt] <= p.closes[i]
    {
      assert b.lots[k] in b.lots && Healthy(b.lots[k]) && Banded(p, b.lots[k]);
      ProfitIsAbove(b.lots[k], p.closes[i]);
      EntryRises(p.closes[b.lots[k].openedAt], p.slippage);
    }
  }

  lemma ShareOfEquity(b: Book, price: real, share: real)
    requires RiskSum(b.lots) <= Part(share, Notional(b.lots, price))
    requires share >= 0.0 && b.cash >= 0.0 && Notional(b.lots, price) >= 0.0
    ensures OpenRisk(b.lots) <= share * Equity(b, price)
  {
    hide RiskSum, Notional;
    var notional := Notional(b.lots, price);
    MulLe(notional, b.cash + notional, share);
    assert 0.0 <= share * notional by {
      MulLe(0.0, notional, share);
    }
  }

  lemma EntryRiskInBand(b: Book, p: Params, i: nat, equity: real, exited: bool, size: real, stop: real)
    requires Tradable(p) && i < |p.closes| && Solvent(b) && AllBanded(p, b.lots)
    requires EntrySize(b, p, i, equity, exited) == Some((size, stop))
    ensures var b' := EnterLot(b, p, i, size, stop);
            OpenRisk(b'.lots) <= (STOP_CAP_FRAC + p.slippage) * Equity(b', p.closes[i])
  {
    hide EntrySize, Notional, RiskSum, Gross, FeeOn, Part, Params.CostMult, InProfit, Banded, Healthy, SizePosition;
    EntryStaysSolvent(b, p, i, equity, exited, size, stop);
    NewLotIsBanded(b, p, i, equity, exited, size, stop);
    EntryGate(b, p, i, equity, exited, size, stop);
    FilledBelow(b, p, i);
    var b' := EnterLot(b, p, i, size, stop);
    forall k | 0 <= k < |b'.lots|
      ensures 0 <= b'.lots[k].openedAt < |p.closes| && p.closes[b'.lots[k].openedAt] <= p.closes[i]
    {
      assert k < |b.lots| ==> b'.lots[k] == b.lots[k];
      BandedIsOnTape(p, b'.lots[k]);
    }
    RiskInBand(p, b'.lots, p.closes[i]);
    NotionalIsPositive(b'.lots, p.closes[i]);
    ShareOfEquity(b', p.closes[i], STOP_CAP_FRAC + p.slippage);
  }

  /** If the bar opened a lot, the open risk after it is within this share of the equity then. */
  ghost predicate RiskWithin(p: Params, i: nat, before: Book, after: Book, share: real)
    requires i < |p.closes|
  {
    after.entered != before.entered ==> OpenRisk(after.lots) <= share * Equity(after, p.closes[i])
  }

  lemma MarkedIsBanded(b: Book, p: Params, i: nat)
    requires Tradable(p) && i < |p.closes| && Sound(p, b, i) && AllBanded(p, b.lots)
    ensures AllBanded(p, Marked(b, p, i).lots) && Solvent(Marked(b, p, i)) && Marked(b, p, i).entered == b.entered
  {
    MarkedStaysSolvent(b, p, i);
    MarkedKeeps(b, p, i);
    hide Banded, Marked, Solvent;
    var b1 := Marked(b, p, i);
    forall k | 0 <= k < |b1.lots| ensures Banded(p, b1.lots[k]) {
      assert b1.lots[k] in b.lots;
    }
  }

  lemma BarRiskInBand(b: Book, p: Params, i: nat)
    requires Tradable(p) && i < |p.closes| && Sound(p, b, i) && AllBanded(p, b.lots)
    ensures AllBanded(p, Bar(b, p, i).lots)
    ensures RiskWithin(p, i, b, Bar(b, p, i), STOP_CAP_FRAC + p.slippage)
  {
    hide EntrySize, OpenRisk, Equity, Bar, Marked, Sound, Solvent, Banded, EnterLot;
    MarkedIsBanded(b, p, i);
    BarIs(b, p, i);
    var b1 := Marked(b, p, i);
    var equity, exited := Equity(b1, p.closes[i]), |b1.closed| > |b.closed|;
    var e := EntrySize(b1, p, i, equity, exited);
    if e.Some? {
      NewLotIsBanded(b1, p, i, equity, exited, e.value.0, e.value.1);
      EntryRiskInBand(b1, p, i, equity, exited, e.value.0, e.value.1);
    }
  }

  lemma {:induction false} RunIsBanded(p: Params, i: nat)
    requires Tradable(p) && p.TradeStart() <= i <= |p.closes|
    ensures AllBanded(p, Bars(p, i).lots)
    decreases i
  {
    hide Bar, Sound;
    if i > p.TradeStart() {
      RunIsBanded(p, i - 1);
      RunPyramidsUp(p, i - 1);
      BarRiskInBand(Bars(p, i - 1), p, i - 1);
    }
  }

  /** After every entry of every run, whatever the risk fraction, the open risk is at most the
      widest stop plus the slippage, as a share of the equity. */
  lemma OpenRiskInBand(p: Params, i: nat)
    requires Tradable(p) && p.TradeStart() <= i < |p.closes|
    ensures RiskWithin(p, i, Bars(p, i), Bars(p, i + 1), STOP_CAP_FRAC + p.slippage)
  {
    hide Bar, Sound, RiskWithin;
    RunIsBanded(p, i);
    RunPyramidsUp(p, i);
    BarRiskInBand(Bars(p, i), p, i);
  }

  /** The open-risk cap holds after every entry of the run. */
  ghost predicate CapKept(p: Params)
    requires p.Valid()
  {
    forall i: nat :: p.TradeStart() <= i < |p.closes| ==>
                       RiskWithin(p, i, Bars(p, i), Bars(p, i + 1), MAX_OPEN_RISK_FRAC)
  }

  lemma CapKeptUpToOnePercent(p: Params)
    requires Tradable(p) && p.slippage <= MAX_OPEN_RISK_FRAC - STOP_CAP_FRAC
    ensures CapKept(p)
  {
    hide Bars, OpenRisk;
    forall i: nat | p.TradeStart() <= i < |p.closes|
      ensures RiskWithin(p, i, Bars(p, i), Bars(p, i + 1), MAX_OPEN_RISK_FRAC)
    {
      OpenRiskInBand(p, i);
      var after := Bars(p, i + 1);
      RunPyramidsUp(p, i + 1);
      NotionalIsPositive(after.lots, p.closes[i]);
      MulLe(STOP_CAP_FRAC + p.slippage, MAX_OPEN_RISK_FRAC, Equity(after, p.closes[i]));
    }
  }

  /** One bar past the warm-up, a wide range and a risk fraction that spends all the cash. */
  function AllInRun(slippage: real, takerFee: real): Params {
    Params(seq(23, _ => 100.0), seq(23, _ => 150.0), seq(23, _ => 50.0), seq(23, _ => true),
           seq(23, _ => Some(100.0)), 10000.0, 1.0, takerFee, slippage, 2.0, 22, None, None)
  }

  lemma AllInSize(costMult: real)
    requires 1.0 <= costMult < 4.0
    ensures SizePosition(Risk(1.0, MAX_OPEN_RISK_FRAC, MAX_DRAWDOWN, 10000.0, false),
                         10000.0, 100.0, 96.0, [], 1.0, Some(10000.0), costMult)
         == Approved(100.0 / costMult)
  {
    assert RiskSize(10000.0, 1.0, 1.0, 100.0, 96.0) == 2500.0;
    assert RoomSize(10000.0, 100.0 * costMult) == 100.0 / costMult;
  }

  lemma AllInCost(slippage: real, takerFee: real)
    requires 0.0 <= slippage < 1.0 && 0.0 <= takerFee < 1.0
    ensures 1.0 <= AllInRun(slippage, takerFee).CostMult() < 4.0
  {
    CostAtLeastOne(AllInRun(slippage, takerFee));
    MulLe(1.0 + slippage, 2.0, 1.0 + takerFee);
    assert AllInRun(slippage, takerFee).CostMult() <= 2.0 * (1.0 + takerFee) < 4.0 by {
      assert AllInRun(slippage, takerFee).slippage == slippage && AllInRun(slippage, takerFee).takerFee == takerFee;
    }
  }

  lemma OneLot(lot: Lot, slippage: real)
    requires lot.entry == EntryPrice(100.0, slippage) && lot.stop == 96.0 && lot.qty > 0.0 && slippage >= 0.0
    ensures OpenRisk([lot]) == (STOP_CAP_FRAC + slippage) * Notional([lot], 100.0)
    ensures Notional([lot], 100.0) > 0.0
  {
    assert [lot][..0] == [];
    assert RiskSum([lot]) == (100.0 * slippage + 4.0) * lot.qty;
    assert Notional([lot], 100.0) == 100.0 * lot.qty;
    MulPos(100.0 * slippage + 4.0, lot.qty);
  }

  lemma AllInRiskIsTheBand(slippage: real, takerFee: real)
    requires 0.0 <= slippage < 1.0 && 0.0 <= takerFee < 1.0
    ensures var p := AllInRun(slippage, takerFee);
            var after := Bars(p, 23);
            && Tradable(p) && p.TradeStart() == 22 && after.entered != Bars(p, 22).entered
            && OpenRisk(after.lots) == (STOP_CAP_FRAC + slippage) * Equity(after, 100.0)
            && Equity(after, 100.0) > 0.0
  {
    var p := AllInRun(slippage, takerFee);
    var b := Fresh(p);
    AllInCost(slippage, takerFee);
    AllInSize(p.CostMult());
    var size := 100.0 / p.CostMult();
    assert Bars(p, 22) == b;
    assert AfterExits(b, p, 22) == b;
    assert Marked(b, p, 22) == b;
    assert AtrStopPrice(100.0, Some(100.0)) == 96.0;
    assert EntrySize(b, p, 22, 10000.0, false) == Some((size, 96.0));
    var after := EnterLot(b, p, 22, size, 96.0);
    assert Bar(b, p, 22) == after;
    assert Bars(p, 23) == after;
    EntryCost(100.0, size, p);
    assert after.cash == 0.0;
    var lot := Lot(size, EntryPrice(100.0, slippage), 96.0, 22);
    assert after.lots == [lot];
    OneLot(lot, slippage);
  }

  /** The cap holds after every entry of every run at these costs if and only if the slippage is
      at most one percent, the cap less the widest stop. The shipped slippage is a fiftieth of that. */
  lemma OpenRiskCapIff(slippage: real, takerFee: real)
    requires 0.0 <= slippage < 1.0 && 0.0 <= takerFee < 1.0
    ensures (forall p :: Tradable(p) && p.slippage == slippage && p.takerFee == takerFee ==> CapKept(p))
            <==> slippage <= MAX_OPEN_RISK_FRAC - STOP_CAP_FRAC
    ensures FEE_SLIPPAGE <= MAX_OPEN_RISK_FRAC - STOP_CAP_FRAC
  {
    hide Bars, CapKept;
    if slippage <= MAX_OPEN_RISK_FRAC - STOP_CAP_FRAC {
      forall p | Tradable(p) && p.slippage == slippage && p.takerFee == takerFee
        ensures CapKept(p)
      {
        CapKeptUpToOnePercent(p);
      }
    } else {
      AllInRiskIsTheBand(slippage, takerFee);
      AllInBreaksTheCap(slippage, takerFee);
    }
  }

  lemma AllInBreaksTheCap(slippage: real, takerFee: real)
    requires MAX_OPEN_RISK_FRAC - STOP_CAP_FRAC < slippage < 1.0 && 0.0 <= takerFee < 1.0
    ensures !CapKept(AllInRun(slippage, takerFee))
  {
    hide Bars, OpenRisk, Equity;
    var p := AllInRun(slippage, takerFee);
    AllInRiskIsTheBand(slippage, takerFee);
    var after := Bars(p, 23);
    MulPos(slippage - (MAX_OPEN_RISK_FRAC - STOP_CAP_FRAC), Equity(after, 100.0));
    assert !RiskWithin(p, 22, Bars(p, 22), Bars(p, 22 + 1), MAX_OPEN_RISK_FRAC);
  }

  // ----- the gate's open-risk refusal

  const LOT_RISK_SHARE := 0.0102

  /** The manager runs the shipped limits, and no open lot risks more than its share of the peak. */
  ghost predicate SmallLots(b: Book) {
    && b.risk.riskFrac == RISK_FRAC
    && b.risk.maxOpenRiskFrac == MAX_OPEN_RISK_FRAC && b.risk.maxDrawdown == MAX_DRAWDOWN
    && forall k :: 0 <= k < |b.lots| ==> LotRisk(b.lots[k]) <= LOT_RISK_SHARE * b.risk.peak
  }

  lemma {:induction false} RiskSumBound(lots: seq<Lot>, most: real)
    requires forall k :: 0 <= k < |lots| ==> LotRisk(lots[k]) <= most
    ensures RiskSum(lots) <= |lots| as real * most
  {
    if lots != [] {
      RiskSumBound(lots[..|lots| - 1], most);
    }
  }

  lemma NewLotRisk(close: real, size: real, stop: real, bar: int, equity: real)
    requires size > 0.0 && STOP_FLOOR_FRAC * close <= close - stop && 0.0 < stop < close
    requires (close - stop) * size <= equity * RISK_FRAC
    ensures LotRisk(Lot(size, EntryPrice(close, FEE_SLIPPAGE), stop, bar)) <= LOT_RISK_SHARE * equity
  {
    NotionalFromRisk(close, stop, size, equity * RISK_FRAC);
    EntryRiskSplits(close, FEE_SLIPPAGE, stop, size);
    MulPos(close - stop, size);
    assert Gross(close, size) == close * size;
  }

  lemma NewLotIsSmall(b: Book, p: Params, i: nat, equity: real, exited: bool, size: real, stop: real)
    requires Tradable(p) && p.slippage == FEE_SLIPPAGE && i < |p.closes|
    requires SmallLots(b) && equity <= b.risk.peak
    requires EntrySize(b, p, i, equity, exited) == Some((size, stop))
    ensures SmallLots(EnterLot(b, p, i, size, stop))
  {
    hide EntrySize, SizePosition, Gross, LotRisk, Notional;
    EntryBounds(b, p, i, equity, exited, size, stop);
    NewLotRisk(p.closes[i], size, stop, i, equity);
  }

  lemma MarkedKeepsSmall(b: Book, p: Params, i: nat)
    requires Tradable(p) && i < |p.closes| && Sound(p, b, i) && SmallLots(b)
    ensures var b1 := Marked(b, p, i);
            SmallLots(b1) && Equity(b1, p.closes[i]) <= b1.risk.peak
  {
    VisitClimbs(b, b.lots, |b.lots|, p, i);
    VisitKeepsRisk(b, b.lots, |b.lots|, p, i);
    var b1 := Marked(b, p, i);
    forall k | 0 <= k < |b1.lots|
      ensures LotRisk(b1.lots[k]) <= LOT_RISK_SHARE * b1.risk.peak
    {
      assert b1.lots[k] in b.lots[..|b.lots|];
    }
  }

  /** A book the breaker has left alone is worth more than 85 % of its peak. */
  lemma UnhaltedIsNearPeak(r: Risk, equity: real)
    requires r.maxDrawdown == MAX_DRAWDOWN && !r.Updated(equity).halted && equity > 0.0
    ensures equity > 0.85 * r.Updated(equity).peak
  {
    SmallFall(r.Updated(equity).peak, equity);
  }

  lemma SmallFall(peak: real, equity: real)
    requires peak > 0.0 && (peak - equity) / peak < MAX_DRAWDOWN
    ensures equity > 0.85 * peak
  {
    var fall := (peak - equity) / peak;
    assert fall * peak == peak - equity;
    MulPos(MAX_DRAWDOWN - fall, peak);
  }

  ghost predicate CapSilent(b: Book, p: Params, i: nat)
    requires p.Valid() && i < |p.closes|
  {
    |b.lots| < MAX_LOTS_PER_SYMBOL ==>
      SizePosition(b.risk, Equity(b, p.closes[i]), p.closes[i], AtrStopPrice(p.closes[i], p.atr[i]),
                   b.lots, 1.0, Some(b.cash), p.CostMult()) != Refused(OpenRiskCap)
  }

  lemma CapPasses(r: Risk, equity: real, entry: real, stop: real, lots: seq<Lot>, cash: real, costMult: real)
    requires r.riskFrac == RISK_FRAC && r.maxOpenRiskFrac == MAX_OPEN_RISK_FRAC && entry > stop
    requires lots != [] ==> RiskSum(lots) <= 2.0 * (LOT_RISK_SHARE * r.peak) && 0.0 < 0.85 * r.peak < equity
    ensures SizePosition(r, equity, entry, stop, lots, 1.0, Some(cash), costMult) != Refused(OpenRiskCap)
  {
    RiskSizeRisks(equity, r.riskFrac, 1.0, entry, stop);
    hide RiskSum, RiskSize, RoomSize, UnitCost;
  }

  lemma {:induction false} OpenLotsAreWorth(lots: seq<Lot>, price: real)
    requires AllHealthy(lots) && price > 0.0 && lots != []
    ensures Notional(lots, price) > 0.0
  {
    var last := lots[|lots| - 1];
    assert Healthy(last);
    NotionalIsPositive(lots[..|lots| - 1], price);
    MulPos(price, last.qty);
  }

  /** Up to two small lots leave room for a third. */
  lemma RoomForAThird(r: Risk, equity: real, lots: seq<Lot>)
    requires r.maxDrawdown == MAX_DRAWDOWN && !r.Updated(equity).halted && equity > 0.0 && |lots| < MAX_LOTS_PER_SYMBOL
    requires forall k :: 0 <= k < |lots| ==> LotRisk(lots[k]) <= LOT_RISK_SHARE * r.Updated(equity).peak
    ensures var peak := r.Updated(equity).peak;
            RiskSum(lots) <= 2.0 * (LOT_RISK_SHARE * peak) && 0.0 < 0.85 * peak < equity
  {
    UnhaltedIsNearPeak(r, equity);
    var most := LOT_RISK_SHARE * r.Updated(equity).peak;
    RiskSumBound(lots, most);
    assert most > 0.0 && |lots| as real <= 2.0;
    MulLe(|lots| as real, 2.0, most);
  }

  lemma SmallLotsPassTheCap(b: Book, p: Params, i: nat)
    requires Tradable(p) && i < |p.closes| && Sound(p, b, i) && SmallLots(b)
    ensures CapSilent(Marked(b, p, i), p, i)
  {
    var b1 := Marked(b, p, i);
    var close := p.closes[i];
    var stop := AtrStopPrice(close, p.atr[i]);
    var equity := Equity(b1, close);
    MarkedKeepsSmall(b, p, i);
    MarkedStaysSolvent(b, p, i);
    VisitKeepsRisk(b, b.lots, |b.lots|, p, i);
    StopBand(close, p.atr[i]);
    var r := AfterExits(b, p, i).risk;
    assert b1.risk == r.Updated(equity);
    if b1.lots != [] {
      OpenLotsAreWorth(b1.lots, close);
    }
    hide *;
    if b1.lots == [] || b1.risk.halted {
      NoCapToPass(b1.risk, equity, close, stop, b1.lots, b1.cash, p.CostMult());
    } else if |b1.lots| < MAX_LOTS_PER_SYMBOL {
      RoomForAThird(r, equity, b1.lots);
      CapPasses(b1.risk, equity, close, stop, b1.lots, b1.cash, p.CostMult());
    }
  }

  lemma NoCapToPass(r: Risk, equity: real, entry: real, stop: real, lots: seq<Lot>, cash: real, costMult: real)
    requires r.halted || lots == []
    ensures SizePosition(r, equity, entry, stop, lots, 1.0, Some(cash), costMult) != Refused(OpenRiskCap)
  {
  }

  lemma BarKeepsSmall(b: Book, p: Params, i: nat)
    requires Tradable(p) && p.slippage == FEE_SLIPPAGE && i < |p.closes| && Sound(p, b, i) && SmallLots(b)
    ensures SmallLots(Bar(b, p, i))
  {
    hide EntrySize, Equity, Sound;
    MarkedKeepsSmall(b, p, i);
    var b1 := Marked(b, p, i);
    var equity, exited := Equity(b1, p.closes[i]), |b1.closed| > |b.closed|;
    var e := EntrySize(b1, p, i, equity, exited);
    if e.Some? {
      NewLotIsSmall(b1, p, i, equity, exited, e.value.0, e.value.1);
    }
  }

  lemma {:induction false} RunKeepsSmall(p: Params, i: nat)
    requires Tradable(p) && p.riskFrac == RISK_FRAC && p.slippage == FEE_SLIPPAGE
    requires p.TradeStart() <= i <= |p.closes|
    ensures SmallLots(Bars(p, i))
    decreases i
  {
    hide Bar, Sound;
    if i > p.TradeStart() {
      RunKeepsSmall(p, i - 1);
      RunPyramidsUp(p, i - 1);
      BarKeepsSmall(Bars(p, i - 1), p, i - 1);
    }
  }

  /** At the shipped risk fraction and slippage the gate's open-risk test refuses no entry on any
      bar of any run: three lots off at most 15 % of the peak never add up to it. */
  lemma TheCapNeverRefuses(p: Params, i: nat)
    requires Tradable(p) && p.riskFrac == RISK_FRAC && p.slippage == FEE_SLIPPAGE
    requires p.TradeStart() <= i < |p.closes|
    ensures CapSilent(Marked(Bars(p, i), p, i), p, i)
  {
    hide Bars, Bar, Sound, CapSilent, Marked;
    RunKeepsSmall(p, i);
    RunPyramidsUp(p, i);
    SmallLotsPassTheCap(Bars(p, i), p, i);
  }

  /** What a lot costs to enter, less what it brings when sold at its stop. */
  function StoppedLoss(close: real, size: real, stop: real, slippage: real, takerFee: real): real {
    var paid := Gross(EntryPrice(close, slippage), size);
    var got := Gross(SlippedDown(stop, slippage), size);
    (paid + FeeOn(paid, takerFee)) - (got - FeeOn(got, takerFee))
  }

  lemma NotionalFromRisk(close: real, stop: real, size: real, risk: real)
    requires size > 0.0 && STOP_FLOOR_FRAC * close <= close - stop && (close - stop) * size <= risk
    ensures STOP_FLOOR_FRAC * Gross(close, size) <= risk
  {
    MulLe(STOP_FLOOR_FRAC * close, close - stop, size);
  }

  lemma Scaled(price: real, factor: real, size: real)
    ensures (price * factor) * size == factor * (price * size)
  {
  }

  lemma LossOfNotional(close: real, size: real, stop: real)
    ensures StoppedLoss(close, size, stop, FEE_SLIPPAGE, FEE_TAKER)
         == 1.0012002 * Gross(close, size) - 0.9988002 * (Gross(close, size) - (close - stop) * size)
  {
    Scaled(close, 1.0002, size);
    Scaled(stop, 0.9998, size);
    var n, m := Gross(close, size), Gross(stop, size);
    assert Gross(EntryPrice(close, FEE_SLIPPAGE), size) == 1.0002 * n;
    assert Gross(SlippedDown(stop, FEE_SLIPPAGE), size) == 0.9998 * m;
    assert (close - stop) * size == n - m;
  }

  /** At the default costs and risk, a lot is worth at most two thirds of the equity, and
      being stopped at its stop costs under 1.2 % of it, both fees and slippages included. */
  lemma AStoppedLotLosesLittle(b: Book, p: Params, i: nat, equity: real, exited: bool, size: real, stop: real)
    requires Tradable(p) && i < |p.closes| && b.risk.riskFrac == RISK_FRAC
    requires p.slippage == FEE_SLIPPAGE && p.takerFee == FEE_TAKER
    requires EntrySize(b, p, i, equity, exited) == Some((size, stop))
    ensures 3.0 * Gross(p.closes[i], size) <= 2.0 * equity
    ensures StoppedLoss(p.closes[i], size, stop, p.slippage, p.takerFee) < 0.012 * equity
  {
    hide EntrySize, SizePosition, StoppedLoss, Gross;
    var close := p.closes[i];
    EntryBounds(b, p, i, equity, exited, size, stop);
    NotionalFromRisk(close, stop, size, equity * RISK_FRAC);
    LossOfNotional(close, size, stop);
    MulPos(close - stop, size);
  }

  /** The equity that bar `j` marks before any entry. */
  function MarkedEquity(p: Params, j: int): real
    requires p.Valid() && p.TradeStart() <= j < |p.closes|
  {
    Equity(Marked(Bars(p, j), p, j), p.closes[j])
  }

  /** The lot was entered in the run, at its bar's close plus slippage, and small enough. */
  ghost predicate SmallEntry(p: Params, lot: Lot)
    requires p.Valid()
  {
    && p.TradeStart() <= lot.openedAt < |p.closes|
    && var close := p.closes[lot.openedAt];
       && lot.entry == EntryPrice(close, p.slippage)
       && 3.0 * Gross(close, lot.qty) <= 2.0 * MarkedEquity(p, lot.openedAt)
       && StoppedLoss(close, lot.qty, lot.stop, p.slippage, p.takerFee) < 0.012 * MarkedEquity(p, lot.openedAt)
  }

  ghost predicate SmallEntries(p: Params, lots: seq<Lot>)
    requires p.Valid()
  {
    forall k :: 0 <= k < |lots| ==> SmallEntry(p, lots[k])
  }

  ghost predicate Shipped(p: Params) {
    Tradable(p) && p.riskFrac == RISK_FRAC && p.slippage == FEE_SLIPPAGE && p.takerFee == FEE_TAKER
  }

  lemma BarEntersSmall(p: Params, i: nat)
    requires Shipped(p) && p.TradeStart() <= i < |p.closes| && SmallEntries(p, Bars(p, i).entered)
    ensures SmallEntries(p, Bars(p, i + 1).entered)
  {
    hide Bars, Bar, Marked, EntrySize, Equity, MarkedEquity, StoppedLoss, Gross, SmallLots, EnterLot;
    var b := Bars(p, i);
    RunKeepsSmall(p, i);
    KeepsRiskFraction(b, p, i);
    NextBar(p, i);
    BarIs(b, p, i);
    MarkedKeeps(b, p, i);
    var b1 := Marked(b, p, i);
    var equity, exited := Equity(b1, p.closes[i]), |b1.closed| > |b.closed|;
    MarkedEquityIs(p, i);
    var e := EntrySize(b1, p, i, equity, exited);
    if e.Some? {
      AStoppedLotLosesLittle(b1, p, i, equity, exited, e.value.0, e.value.1);
    }
  }

  lemma MarkedEquityIs(p: Params, i: nat)
    requires p.Valid() && p.TradeStart() <= i < |p.closes|
    ensures MarkedEquity(p, i) == Equity(Marked(Bars(p, i), p, i), p.closes[i])
  {
  }

  lemma NextBar(p: Params, i: nat)
    requires p.Valid() && p.TradeStart() <= i < |p.closes|
    ensures Bars(p, i + 1) == Bar(Bars(p, i), p, i)
  {
  }

  lemma KeepsRiskFraction(b: Book, p: Params, i: nat)
    requires i < |p.closes| && SmallLots(b)
    ensures Marked(b, p, i).risk.riskFrac == RISK_FRAC
  {
    VisitKeepsRisk(b, b.lots, |b.lots|, p, i);
  }

  lemma {:induction false} RunEntersSmall(p: Params, i: nat)
    requires Shipped(p) && p.TradeStart() <= i <= |p.closes|
    ensures SmallEntries(p, Bars(p, i).entered)
    decreases i
  {
    hide Bar, SmallEntry;
    if i > p.TradeStart() {
      RunEntersSmall(p, i - 1);
      BarEntersSmall(p, i - 1);
    }
  }

  /** What a closed lot lost, both fees included. */
  function CashLoss(c: ClosedLot, takerFee: real): real {
    var paid, got := Gross(c.lot.entry, c.lot.qty), Gross(c.exit, c.lot.qty);
    (paid + FeeOn(paid, takerFee)) - (got - FeeOn(got, takerFee))
  }

  lemma ClosedWasEntered(closed: seq<ClosedLot>, entered: seq<Lot>, k: nat)
    requires multiset(LotsOf(closed)) == multiset(entered) && k < |closed|
    ensures closed[k].lot in entered
  {
    assert LotsOf(closed)[k] in multiset(LotsOf(closed));
  }

  lemma FinalEntries(p: Params)
    requires Shipped(p)
    ensures SmallEntries(p, Final(p).entered)
  {
    hide Bars, Bar, SmallEntry;
    if p.End() > p.TradeStart() {
      RunEntersSmall(p, p.End());
      var b := Bars(p, p.End());
      var exit := SlippedDown(p.closes[p.End() - 1], p.slippage);
      ClosingLosesNoLot(b, b.lots, |b.lots|, exit, p.End() - 1, p.takerFee);
    }
  }

  /** Every lot a run at the shipped policy sells at its stop lost less than 1.2 % of the equity
      it was bought from, both fees and slippages included. */
  lemma StoppedLotsLoseLittle(p: Params, k: nat)
    requires Shipped(p) && k < |Final(p).closed| && Final(p).closed[k].hit == StopHit
    ensures var c := Final(p).closed[k];
            && p.TradeStart() <= c.lot.openedAt < c.bar < |p.closes|
            && CashLoss(c, p.takerFee) < 0.012 * MarkedEquity(p, c.lot.openedAt)
  {
    hide Final, MarkedEquity;
    var c := Final(p).closed[k];
    LotsLeaveAtTheirFirstTouch(p);
    EveryLotClosesOnce(p);
    FinalEntries(p);
    ClosedWasEntered(Final(p).closed, Final(p).entered, k);
    assert SmallEntry(p, c.lot);
    assert LeftAtFirstTouch(p, c);
    assert c.exit == SlippedDown(c.lot.stop, p.slippage);
  }
}
