/** What every `signal_exit` run keeps: the ledger balances, the book is all in or all
    out, trades never overlap and a stop exit is followed by an off close. */
module SignalExitLedger {
  import opened Ordering
  import opened Reals
  import opened Wrappers
  import opened DailyTape
  import opened SignalExit

  // ----- sums over the closed trades

  function PnlSum(trades: seq<Trade>): real {
    if trades == [] then 0.0
    else PnlSum(trades[..|trades| - 1]) + trades[|trades| - 1].Pnl()
  }

  function FeeSum(trades: seq<Trade>): real {
    if trades == [] then 0.0
    else FeeSum(trades[..|trades| - 1]) + trades[|trades| - 1].entryFee + trades[|trades| - 1].exitFee
  }

  function DaySum(trades: seq<Trade>): int {
    if trades == [] then 0
    else DaySum(trades[..|trades| - 1]) + trades[|trades| - 1].days
  }

  lemma SumsOfAppend(trades: seq<Trade>, t: Trade)
    ensures PnlSum(trades + [t]) == PnlSum(trades) + t.Pnl()
    ensures FeeSum(trades + [t]) == FeeSum(trades) + t.entryFee + t.exitFee
    ensures DaySum(trades + [t]) == DaySum(trades) + t.days
  {
    assert (trades + [t])[..|trades|] == trades;
  }

  // ----- the ledger balances, whatever the prices are

  /** What the open position has cost, its entry fee included. */
  function OpenCost(l: Ledger): real {
    if l.trade.None? then 0.0 else l.trade.value.qty * l.trade.value.entryPrice + l.trade.value.entryFee
  }

  ghost predicate Balanced(l: Ledger, startCash: real) {
    && (if l.trade.None? then l.qty == 0.0 && l.stop.None? else l.trade.value.qty == l.qty)
    && l.cash - startCash == PnlSum(l.trades) - OpenCost(l)
    && l.fees == FeeSum(l.trades) + (if l.trade.None? then 0.0 else l.trade.value.entryFee)
  }

  lemma CloseBalances(l: Ledger, startCash: real, ts: int, price: real, reason: Reason, days: int, costs: Costs)
    requires costs.Valid() && l.trade.Some? && Balanced(l, startCash)
    ensures Balanced(l.Close(ts, price, reason, days, costs), startCash)
    ensures DaySum(l.Close(ts, price, reason, days, costs).trades) == DaySum(l.trades) + days
  {
    var l' := l.Close(ts, price, reason, days, costs);
    var done := l'.trades[|l.trades|];
    SumsOfAppend(l.trades, done);
    assert (done.exitPrice - done.entryPrice) * done.qty == done.exitPrice * done.qty - done.entryPrice * done.qty;
  }

  lemma BuyBalances(l: Ledger, startCash: real, ts: int, price: real, stopFrac: real, costs: Costs)
    requires costs.Valid() && l.trade.None? && Balanced(l, startCash)
    ensures Balanced(l.Buy(ts, price, stopFrac, costs), startCash)
  {
  }

  ghost predicate BookBalanced(b: Book, startCash: real, d: int) {
    && b.Coupled()
    && Balanced(b.ledger, startCash)
    && b.daysLong == DaySum(b.ledger.trades) + (if b.machine.long then d - b.entryDay else 0)
  }

  lemma OpenBalances(b: Book, r: Rule, startCash: real, d: int)
    requires r.Valid() && 0 <= d < r.bars.Length() && BookBalanced(b, startCash, d)
    ensures BookBalanced(OpenActions(b, r, d), startCash, d)
  {
    if b.machine.stopPending && b.machine.long {
      CloseBalances(b.ledger, startCash, r.bars.ts[d], r.bars.open[d], SafetyStop, d - b.entryDay, r.costs);
    }
    var b1 := StopSale(b, r, d);
    match StepAction(b1.machine, r.OnAt(d))
    case Exit =>
      CloseBalances(b1.ledger, startCash, r.bars.ts[d], r.bars.open[d], Signal, d - b1.entryDay, r.costs);
    case Enter =>
      BuyBalances(b1.ledger, startCash, r.bars.ts[d], r.bars.open[d], r.stopFrac, r.costs);
    case Stay =>
  }

  lemma {:induction false} DaysBalance(r: Rule, startCash: real, start: int, d: int)
    requires r.Valid() && 0 <= start <= d <= r.bars.Length()
    ensures BookBalanced(Days(r, startCash, start, d), startCash, d)
    decreases d
  {
    if d > start {
      DaysBalance(r, startCash, start, d - 1);
      OpenBalances(Days(r, startCash, start, d - 1), r, startCash, d - 1);
    }
  }

  lemma LastPoint(r: Rule, startCash: real, start: int, d: int)
    requires r.Valid() && 0 <= start < d <= r.bars.Length()
    ensures var b := Days(r, startCash, start, d);
            b.points == Days(r, startCash, start, d - 1).points + [b.ledger.Marked(r.bars.close[d - 1])]
  {
  }

  lemma MarkedIsRealisedPlusOpen(l: Ledger, startCash: real, price: real)
    requires Balanced(l, startCash)
    ensures l.Marked(price) == startCash + PnlSum(l.trades) + OpenResult(l, price)
  {
    if l.trade.Some? {
      var t := l.trade.value;
      assert (price - t.entryPrice) * t.qty == price * t.qty - t.entryPrice * t.qty;
    }
  }

  /** The open position at `price`, less its cost and its entry fee. */
  function OpenResult(l: Ledger, price: real): real {
    if l.trade.None? then 0.0
    else (price - l.trade.value.entryPrice) * l.trade.value.qty - l.trade.value.entryFee
  }

  /** Every equity point is the start cash, plus the realised result, plus the open
      position marked at that close less what it cost. */
  lemma EquityIsRealisedPlusOpen(r: Rule, startCash: real, start: int, d: int)
    requires r.Valid() && 0 <= start < d <= r.bars.Length()
    ensures var b := Days(r, startCash, start, d);
            b.points[d - start] ==
            startCash + PnlSum(b.ledger.trades) + OpenResult(b.ledger, r.bars.close[d - 1])
  {
    DaysBalance(r, startCash, start, d);
    LastPoint(r, startCash, start, d);
    MarkedIsRealisedPlusOpen(Days(r, startCash, start, d).ledger, startCash, r.bars.close[d - 1]);
  }

  lemma SettleBalances(b: Book, r: Rule, startCash: real, e: int)
    requires r.Valid() && 1 <= e <= r.bars.Length() && BookBalanced(b, startCash, e) && |b.points| > 0
    requires b.points[|b.points| - 1] ==
             startCash + PnlSum(b.ledger.trades) + OpenResult(b.ledger, r.bars.close[e - 1])
    ensures var b' := Settle(b, r, e);
            && |b'.points| == |b.points| && b'.points[|b.points| - 1] - startCash == PnlSum(b'.ledger.trades)
            && b'.ledger.fees == FeeSum(b'.ledger.trades) && b'.daysLong == DaySum(b'.ledger.trades)
  {
    if b.ledger.trade.Some? {
      var reason := if b.machine.stopPending then SafetyStop else WindowEnd;
      CloseBalances(b.ledger, startCash, r.bars.ts[e - 1], r.bars.close[e - 1], reason, e - 1 - b.entryDay + 1,
                    r.costs);
    }
  }

  /** The run's ledger: the gain in equity is the summed trade result, the fees are the
      trades' fees, and the days long are the trades' days. */
  lemma RunLedger(r: Rule, startCash: real, start: int, end: int)
    requires r.Valid()
    ensures var res := Score(r, startCash, start, end);
            && res.equity[|res.equity| - 1] - startCash == PnlSum(res.trades)
            && res.fees == FeeSum(res.trades)
            && res.daysLong == DaySum(res.trades)
  {
    hide Days, Settle, BookBalanced;
    var s, e := ClampStart(start), ClampEnd(end, r.bars.Length());
    if s < e {
      DaysBalance(r, startCash, s, e);
      EquityIsRealisedPlusOpen(r, startCash, s, e);
      SettleBalances(Days(r, startCash, s, e), r, startCash, e);
    }
  }

  // ----- all in or all out, for positive prices

  ghost predicate PositivePrices(bars: DailyBars)
    requires bars.Valid()
  {
    && (forall i :: 0 <= i < bars.Length() ==> bars.open[i] > 0.0)
    && (forall i :: 0 <= i < bars.Length() ==> bars.close[i] > 0.0)
  }

  /** Either flat with all the cash, or long with exactly none. */
  ghost predicate AllInOrOut(b: Book) {
    && b.Coupled()
    && (b.machine.lockout ==> !b.machine.long)
    && (b.machine.stopPending ==> b.machine.long)
    && if b.machine.long then
         && b.ledger.cash == 0.0 && b.ledger.qty > 0.0
         && b.ledger.trade.value.qty == b.ledger.qty && b.ledger.trade.value.entryPrice > 0.0
       else
         b.ledger.cash > 0.0 && b.ledger.qty == 0.0 && b.ledger.stop.None?
  }

  lemma OpenKeepsAllIn(b: Book, r: Rule, d: int)
    requires r.Valid() && 0 <= d < r.bars.Length() && r.bars.open[d] > 0.0 && AllInOrOut(b)
    ensures AllInOrOut(OpenActions(b, r, d))
    ensures !OpenActions(b, r, d).machine.stopPending
  {
  }

  lemma {:induction false} DaysAllInOrOut(r: Rule, startCash: real, start: int, d: int)
    requires r.Valid() && 0 <= start <= d <= r.bars.Length()
    requires PositivePrices(r.bars) && startCash > 0.0
    ensures AllInOrOut(Days(r, startCash, start, d))
    decreases d
  {
    if d > start {
      DaysAllInOrOut(r, startCash, start, d - 1);
      OpenKeepsAllIn(Days(r, startCash, start, d - 1), r, d - 1);
    }
  }

  lemma MarkPositive(b: Book, price: real)
    requires AllInOrOut(b) && price > 0.0
    ensures b.ledger.Marked(price) > 0.0
  {
    MulSign(b.ledger.qty, price);
  }

  lemma {:induction false} EquityPositive(r: Rule, startCash: real, start: int, d: int)
    requires r.Valid() && 0 <= start <= d <= r.bars.Length()
    requires PositivePrices(r.bars) && startCash > 0.0
    ensures forall k :: 0 <= k <= d - start ==> Days(r, startCash, start, d).points[k] > 0.0
    decreases d
  {
    if d > start {
      EquityPositive(r, startCash, start, d - 1);
      DaysAllInOrOut(r, startCash, start, d);
      LastPoint(r, startCash, start, d);
      MarkPositive(Days(r, startCash, start, d), r.bars.close[d - 1]);
      assert Days(r, startCash, start, d).points[..d - start] == Days(r, startCash, start, d - 1).points;
    }
  }

  /** The position at an open follows the last close's signal: exactly, when the stop is
      off; with the stop on, a long book always has the signal behind it, and a flat one
      under an on signal is locked out. */
  lemma PositionFollowsSignal(r: Rule, startCash: real, start: int, d: int)
    requires r.Valid() && 0 <= start <= d < r.bars.Length()
    ensures var m := OpenActions(Days(r, startCash, start, d), r, d).machine;
            && (m.long <==> r.OnAt(d) && !m.lockout)
            && (r.stopFrac <= 0.0 ==> (m.long <==> r.OnAt(d)))
  {
    if r.stopFrac <= 0.0 {
      NoStopNoLockout(r, startCash, start, d);
    }
    LockoutIsFlat(r, startCash, start, d);
  }

  lemma {:induction false} NoStopNoLockout(r: Rule, startCash: real, start: int, d: int)
    requires r.Valid() && 0 <= start <= d <= r.bars.Length() && r.stopFrac <= 0.0
    ensures var b := Days(r, startCash, start, d);
            !b.machine.stopPending && !b.machine.lockout && b.ledger.stop.None?
    decreases d
  {
    if d > start {
      NoStopNoLockout(r, startCash, start, d - 1);
    }
  }

  lemma {:induction false} LockoutIsFlat(r: Rule, startCash: real, start: int, d: int)
    requires r.Valid() && 0 <= start <= d <= r.bars.Length()
    ensures Days(r, startCash, start, d).machine.lockout ==> !Days(r, startCash, start, d).machine.long
    decreases d
  {
    if d > start {
      LockoutIsFlat(r, startCash, start, d - 1);
    }
  }

  // ----- growth: each round trip multiplies the cash

  /** What one unit of cash becomes over a closed trade. */
  function TradeGrowth(t: Trade, takerFee: real): real
    requires t.entryPrice > 0.0 && takerFee >= 0.0
  {
    MulSign(t.entryPrice, 1.0 + takerFee);
    (t.exitPrice * (1.0 - takerFee)) / (t.entryPrice * (1.0 + takerFee))
  }

  ghost predicate PositiveEntries(trades: seq<Trade>) {
    forall k :: 0 <= k < |trades| ==> trades[k].entryPrice > 0.0
  }

  function Growth(trades: seq<Trade>, takerFee: real): real
    requires PositiveEntries(trades) && takerFee >= 0.0
  {
    if trades == [] then 1.0
    else Growth(trades[..|trades| - 1], takerFee) * TradeGrowth(trades[|trades| - 1], takerFee)
  }

  /** The cash that went into the open position, or the cash of a flat book. */
  function Stake(l: Ledger, takerFee: real): real {
    if l.trade.None? then l.cash else l.qty * (l.trade.value.entryPrice * (1.0 + takerFee))
  }

  ghost predicate Grown(l: Ledger, startCash: real, takerFee: real)
    requires takerFee >= 0.0
  {
    && PositiveEntries(l.trades)
    && Stake(l, takerFee) == startCash * Growth(l.trades, takerFee)
  }

  lemma GrowthAppend(trades: seq<Trade>, t: Trade, takerFee: real)
    requires PositiveEntries(trades) && t.entryPrice > 0.0 && takerFee >= 0.0
    ensures PositiveEntries(trades + [t])
    ensures Growth(trades + [t], takerFee) == Growth(trades, takerFee) * TradeGrowth(t, takerFee)
  {
    hide TradeGrowth;
    assert (trades + [t])[..|trades|] == trades;
  }

  /** What a close leaves: the trade with its exit fill, and the cash the fill brought. */
  lemma ClosedFields(l: Ledger, ts: int, price: real, reason: Reason, days: int, costs: Costs) returns (t: Trade)
    requires costs.Valid() && l.trade.Some?
    ensures var l' := l.Close(ts, price, reason, days, costs);
            && l'.trades == l.trades + [t] && l'.trade.None?
            && t.entryPrice == l.trade.value.entryPrice
            && l'.cash == l.cash + (l.qty * t.exitPrice - l.qty * t.exitPrice * costs.takerFee)
  {
    t := l.Close(ts, price, reason, days, costs).trades[|l.trades|];
  }

  lemma CloseGrows(l: Ledger, startCash: real, ts: int, price: real, reason: Reason, days: int, costs: Costs)
    requires costs.Valid() && l.trade.Some? && l.cash == 0.0
    requires l.trade.value.entryPrice > 0.0 && Grown(l, startCash, costs.takerFee)
    ensures Grown(l.Close(ts, price, reason, days, costs), startCash, costs.takerFee)
  {
    hide Growth, Ledger.Close;
    var t := ClosedFields(l, ts, price, reason, days, costs);
    GrowthAppend(l.trades, t, costs.takerFee);
    var paid := t.entryPrice * (1.0 + costs.takerFee);
    MulSign(t.entryPrice, 1.0 + costs.takerFee);
    RoundTrip(l.qty, paid, t.exitPrice, costs.takerFee, startCash, Growth(l.trades, costs.takerFee));
  }

  lemma RoundTrip(qty: real, paid: real, exitPrice: real, fee: real, start: real, grown: real)
    requires paid > 0.0 && qty * paid == start * grown
    ensures qty * exitPrice - qty * exitPrice * fee == start * (grown * ((exitPrice * (1.0 - fee)) / paid))
  {
    var net := exitPrice * (1.0 - fee);
    var factor := net / paid;
    assert factor * paid == net;
    calc {
      start * (grown * factor);
      (start * grown) * factor;
      (qty * paid) * factor;
      { Regroup(qty, paid, factor); }
      qty * (factor * paid);
      qty * net;
    }
    DistributeFee(qty, exitPrice, fee);
  }

  lemma Regroup(x: real, y: real, z: real)
    ensures (x * y) * z == x * (z * y)
  {
  }

  lemma DistributeFee(qty: real, price: real, fee: real)
    ensures qty * (price * (1.0 - fee)) == qty * price - qty * price * fee
  {
  }

  lemma BuyGrows(l: Ledger, startCash: real, ts: int, price: real, stopFrac: real, costs: Costs)
    requires costs.Valid() && l.trade.None? && l.cash > 0.0 && price > 0.0
    requires Grown(l, startCash, costs.takerFee)
    ensures Grown(l.Buy(ts, price, stopFrac, costs), startCash, costs.takerFee)
  {
    var p := BuyFill(l.cash, price, costs);
    SpendsAll(l.cash, p.fill, costs.takerFee);
    assert p.qty * (p.fill * (1.0 + costs.takerFee)) == p.qty * p.fill + p.qty * p.fill * costs.takerFee;
  }

  lemma StopSaleGrows(b: Book, r: Rule, startCash: real, d: int)
    requires r.Valid() && 0 <= d < r.bars.Length() && r.bars.open[d] > 0.0
    requires AllInOrOut(b) && Grown(b.ledger, startCash, r.costs.takerFee)
    ensures AllInOrOut(StopSale(b, r, d))
    ensures Grown(StopSale(b, r, d).ledger, startCash, r.costs.takerFee)
  {
    if b.machine.stopPending && b.machine.long {
      CloseGrows(b.ledger, startCash, r.bars.ts[d], r.bars.open[d], SafetyStop, d - b.entryDay, r.costs);
    }
  }

  lemma SignalActionGrows(b: Book, r: Rule, startCash: real, d: int)
    requires r.Valid() && 0 <= d < r.bars.Length() && r.bars.open[d] > 0.0
    requires AllInOrOut(b) && Grown(b.ledger, startCash, r.costs.takerFee)
    ensures Grown(SignalAction(b, r, d).ledger, startCash, r.costs.takerFee)
  {
    match StepAction(b.machine, r.OnAt(d))
    case Exit =>
      CloseGrows(b.ledger, startCash, r.bars.ts[d], r.bars.open[d], Signal, d - b.entryDay, r.costs);
    case Enter =>
      BuyGrows(b.ledger, startCash, r.bars.ts[d], r.bars.open[d], r.stopFrac, r.costs);
    case Stay =>
  }

  lemma StartGrows(r: Rule, startCash: real, start: int)
    requires r.Valid() && 0 <= start <= r.bars.Length()
    ensures Grown(Days(r, startCash, start, start).ledger, startCash, r.costs.takerFee)
  {
  }

  lemma {:induction false} DaysGrow(r: Rule, startCash: real, start: int, d: int)
    requires r.Valid() && 0 <= start <= d <= r.bars.Length()
    requires PositivePrices(r.bars) && startCash > 0.0
    ensures Grown(Days(r, startCash, start, d).ledger, startCash, r.costs.takerFee)
    decreases d
  {
    hide Grown, AllInOrOut, SignalAction, StopSale;
    if d == start {
      StartGrows(r, startCash, start);
    } else {
      var b := Days(r, startCash, start, d - 1);
      DaysGrow(r, startCash, start, d - 1);
      DaysAllInOrOut(r, startCash, start, d - 1);
      StopSaleGrows(b, r, startCash, d - 1);
      SignalActionGrows(StopSale(b, r, d - 1), r, startCash, d - 1);
    }
  }

  lemma SettleGrows(b: Book, r: Rule, startCash: real, e: int)
    requires r.Valid() && 1 <= e <= r.bars.Length() && PositivePrices(r.bars) && |b.points| > 0
    requires AllInOrOut(b) && Grown(b.ledger, startCash, r.costs.takerFee)
    ensures var s := Settle(b, r, e);
            && Grown(s.ledger, startCash, r.costs.takerFee)
            && s.ledger.trade.None? && s.ledger.qty == 0.0 && s.ledger.cash > 0.0
  {
    if b.ledger.trade.Some? {
      var reason := if b.machine.stopPending then SafetyStop else WindowEnd;
      CloseGrows(b.ledger, startCash, r.bars.ts[e - 1], r.bars.close[e - 1], reason, e - 1 - b.entryDay + 1, r.costs);
    }
  }

  lemma FlatMark(l: Ledger, price: real)
    ensures l.qty == 0.0 ==> l.Marked(price) == l.cash
  {
  }

  lemma SettledPoints(b: Book, r: Rule, e: int)
    requires r.Valid() && 1 <= e <= r.bars.Length() && b.Coupled() && |b.points| > 0
    requires b.ledger.trade.None? ==> b.points[|b.points| - 1] == b.ledger.cash
    ensures var s := Settle(b, r, e);
            && |s.points| == |b.points|
            && s.points[|s.points| - 1] == s.ledger.cash
            && forall k :: 0 <= k < |b.points| - 1 ==> s.points[k] == b.points[k]
  {
  }

  /** The whole run compounds: the ending cash is the start cash times the growth of each
      closed trade, stops and the window-end sale included, and equity is never lost. */
  lemma RunCompounds(r: Rule, startCash: real, start: int, end: int)
    requires r.Valid() && PositivePrices(r.bars) && startCash > 0.0
    ensures var res := Score(r, startCash, start, end);
            && PositiveEntries(res.trades)
            && res.equity[|res.equity| - 1] == startCash * Growth(res.trades, r.costs.takerFee)
            && forall k :: 0 <= k < |res.equity| ==> res.equity[k] > 0.0
  {
    hide Days, Settle;
    var s, e := ClampStart(start), ClampEnd(end, r.bars.Length());
    if s < e {
      BookCompounds(r, startCash, s, e);
    }
  }

  lemma BookCompounds(r: Rule, startCash: real, s: int, e: int)
    requires r.Valid() && PositivePrices(r.bars) && startCash > 0.0
    requires 0 <= s < e <= r.bars.Length()
    ensures Compounded(Settle(Days(r, startCash, s, e), r, e), startCash, r.costs.takerFee)
  {
    DaysGrow(r, startCash, s, e);
    DaysAllInOrOut(r, startCash, s, e);
    EquityPositive(r, startCash, s, e);
    LastPoint(r, startCash, s, e);
    SettleCompounds(Days(r, startCash, s, e), r, startCash, e);
  }

  ghost predicate Compounded(b: Book, startCash: real, takerFee: real)
    requires takerFee >= 0.0
  {
    && |b.points| > 0 && PositiveEntries(b.ledger.trades)
    && b.points[|b.points| - 1] == startCash * Growth(b.ledger.trades, takerFee)
    && forall k :: 0 <= k < |b.points| ==> b.points[k] > 0.0
  }

  lemma SettleCompounds(b: Book, r: Rule, startCash: real, e: int)
    requires r.Valid() && 1 <= e <= r.bars.Length() && PositivePrices(r.bars) && |b.points| > 0
    requires AllInOrOut(b) && Grown(b.ledger, startCash, r.costs.takerFee)
    requires b.points[|b.points| - 1] == b.ledger.Marked(r.bars.close[e - 1])
    requires forall k :: 0 <= k < |b.points| ==> b.points[k] > 0.0
    ensures Compounded(Settle(b, r, e), startCash, r.costs.takerFee)
  {
    FlatMark(b.ledger, r.bars.close[e - 1]);
    SettledPoints(b, r, e);
    SettleGrows(b, r, startCash, e);
  }

  // ----- growth in the tape's own prices

  /** The open of the day that starts at `ts`. */
  function OpenAt(bars: DailyBars, ts: int): real
    requires bars.Valid()
  {
    var d := IndexOf(bars.ts, ts);
    if d < bars.Length() then bars.open[d] else 0.0
  }

  /** The trade was bought at the open of the day it names, slippage added. */
  predicate BoughtAtOpen(r: Rule, t: Trade)
    requires r.Valid()
  {
    t.entryTs in r.bars.ts && t.entryPrice == BuyPrice(OpenAt(r.bars, t.entryTs), r.costs)
  }

  /** The trade was sold on the day it names at `quote`, slippage taken off. */
  predicate SoldAt(r: Rule, t: Trade, quote: real)
    requires r.Valid()
  {
    t.exitTs in r.bars.ts && t.exitPrice == SellPrice(quote, r.costs)
  }

  ghost predicate FilledAtOpens(r: Rule, l: Ledger)
    requires r.Valid()
  {
    && (forall k :: 0 <= k < |l.trades| ==>
                      BoughtAtOpen(r, l.trades[k]) && SoldAt(r, l.trades[k], OpenAt(r.bars, l.trades[k].exitTs)))
    && (l.trade.Some? ==> BoughtAtOpen(r, l.trade.value))
  }

  lemma OpenOfDay(bars: DailyBars, d: int)
    requires bars.Valid() && Ascending(bars.ts) && 0 <= d < bars.Length()
    ensures OpenAt(bars, bars.ts[d]) == bars.open[d] && bars.ts[d] in bars.ts
  {
    IndexUnique(bars.ts, bars.ts[d], d);
  }

  lemma CloseFills(r: Rule, l: Ledger, d: int, reason: Reason, days: int)
    requires r.Valid() && Ascending(r.bars.ts) && 0 <= d < r.bars.Length()
    requires l.trade.Some? && FilledAtOpens(r, l)
    ensures FilledAtOpens(r, l.Close(r.bars.ts[d], r.bars.open[d], reason, days, r.costs))
  {
    OpenOfDay(r.bars, d);
    var l' := l.Close(r.bars.ts[d], r.bars.open[d], reason, days, r.costs);
    var sold := l'.trades[|l.trades|];
    assert BoughtAtOpen(r, sold) && SoldAt(r, sold, OpenAt(r.bars, sold.exitTs));
  }

  lemma OpenFills(b: Book, r: Rule, d: int)
    requires r.Valid() && Ascending(r.bars.ts) && 0 <= d < r.bars.Length()
    requires b.Coupled() && FilledAtOpens(r, b.ledger)
    ensures FilledAtOpens(r, OpenActions(b, r, d).ledger)
  {
    hide FilledAtOpens;
    if b.machine.stopPending && b.machine.long {
      CloseFills(r, b.ledger, d, SafetyStop, d - b.entryDay);
    }
    var b1 := StopSale(b, r, d);
    match StepAction(b1.machine, r.OnAt(d))
    case Exit =>
      CloseFills(r, b1.ledger, d, Signal, d - b1.entryDay);
    case Enter =>
      BuyFills(r, b1.ledger, d);
    case Stay =>
  }

  lemma BuyFills(r: Rule, l: Ledger, d: int)
    requires r.Valid() && Ascending(r.bars.ts) && 0 <= d < r.bars.Length() && FilledAtOpens(r, l)
    ensures FilledAtOpens(r, l.Buy(r.bars.ts[d], r.bars.open[d], r.stopFrac, r.costs))
  {
    OpenOfDay(r.bars, d);
  }

  lemma {:induction false} DaysFillAtOpens(r: Rule, startCash: real, start: int, d: int)
    requires r.Valid() && Ascending(r.bars.ts) && 0 <= start <= d <= r.bars.Length()
    ensures FilledAtOpens(r, Days(r, startCash, start, d).ledger)
    decreases d
  {
    if d > start {
      DaysFillAtOpens(r, startCash, start, d - 1);
      OpenFills(Days(r, startCash, start, d - 1), r, d - 1);
    }
  }

  /** A position is still open after the last day's open. */
  predicate HeldAtEnd(r: Rule, startCash: real, start: int, end: int)
    requires r.Valid()
  {
    var s, e := ClampStart(start), ClampEnd(end, r.bars.Length());
    s < e && Days(r, startCash, s, e).ledger.trade.Some?
  }

  /** What trade `k` was sold against: the open of the day it names, or the last close for the
      window-end sale. */
  function ExitQuote(r: Rule, trades: seq<Trade>, k: nat, heldAtEnd: bool, end: int): real
    requires r.Valid() && k < |trades|
  {
    var last := ClampEnd(end, r.bars.Length()) - 1;
    if heldAtEnd && k == |trades| - 1 && 0 <= last < r.bars.Length() then r.bars.close[last]
    else OpenAt(r.bars, trades[k].exitTs)
  }

  /** Every fill of a run is a price of the tape with the slippage on it: entries and exits at the
      opens of the days they name, and only the window-end sale at a close, the last one. */
  lemma RunFillsAtOpens(r: Rule, startCash: real, start: int, end: int)
    requires r.Valid() && Ascending(r.bars.ts)
    ensures var trades := Score(r, startCash, start, end).trades;
            forall k :: 0 <= k < |trades| ==>
                          && BoughtAtOpen(r, trades[k])
                          && SoldAt(r, trades[k],
                                    ExitQuote(r, trades, k, HeldAtEnd(r, startCash, start, end), end))
  {
    var s, e := ClampStart(start), ClampEnd(end, r.bars.Length());
    if s < e {
      DaysFillAtOpens(r, startCash, s, e);
      var b := Days(r, startCash, s, e);
      if b.ledger.trade.Some? {
        var settled := Settle(b, r, e).ledger.trades;
        assert settled[..|b.ledger.trades|] == b.ledger.trades;
        assert r.bars.ts[e - 1] in r.bars.ts;
      }
    }
  }

  /** What the costs leave of one unit over a round trip. */
  function CostFactor(c: Costs): real
    requires c.Valid()
  {
    MulPos(1.0 + c.slippage, 1.0 + c.takerFee);
    ((1.0 - c.slippage) * (1.0 - c.takerFee)) / ((1.0 + c.slippage) * (1.0 + c.takerFee))
  }

  lemma QuotientOfProducts(a: real, x: real, b: real, y: real)
    requires b > 0.0 && y > 0.0
    ensures b * y > 0.0 && (a * x) / (b * y) == (a / b) * (x / y)
  {
    var p, q := a / b, x / y;
    assert p * b == a && q * y == x;
    MulPos(b, y);
    assert (p * q) * (b * y) == (p * b) * (q * y);
  }

  lemma GrowthOfQuotes(t: Trade, entryQuote: real, exitQuote: real, c: Costs)
    requires c.Valid() && entryQuote > 0.0
    requires t.entryPrice == BuyPrice(entryQuote, c) && t.exitPrice == SellPrice(exitQuote, c)
    ensures TradeGrowth(t, c.takerFee) == (exitQuote / entryQuote) * CostFactor(c)
  {
    hide SellPrice, BuyPrice;
    SoldAndBought(entryQuote, exitQuote, c);
    RatioOfProducts(exitQuote, 1.0 - c.slippage, 1.0 - c.takerFee, entryQuote, 1.0 + c.slippage, 1.0 + c.takerFee);
  }

  lemma SoldAndBought(entryQuote: real, exitQuote: real, c: Costs)
    requires c.Valid()
    ensures BuyPrice(entryQuote, c) == entryQuote * (1.0 + c.slippage)
    ensures SellPrice(exitQuote, c) == exitQuote * (1.0 - c.slippage)
  {
  }

  lemma RatioOfProducts(a: real, x: real, y: real, b: real, v: real, w: real)
    requires b > 0.0 && v > 0.0 && w > 0.0
    ensures b * v > 0.0 && (b * v) * w > 0.0 && v * w > 0.0
    ensures ((a * x) * y) / ((b * v) * w) == (a / b) * ((x * y) / (v * w))
  {
    MulPos(b, v);
    MulPos(b * v, w);
    MulPos(v, w);
    Regroup3(a, x, y);
    Regroup3(b, v, w);
    QuotientOfProducts(a, x * y, b, v * w);
  }

  lemma Regroup3(x: real, y: real, z: real)
    ensures (x * y) * z == x * (y * z)
  {
  }

  /** What one unit of cash becomes over trade `k`: its price ratio, less the costs. */
  function QuoteRatio(r: Rule, trades: seq<Trade>, k: nat, heldAtEnd: bool, end: int): real
    requires r.Valid() && k < |trades| && OpenAt(r.bars, trades[k].entryTs) > 0.0
  {
    (ExitQuote(r, trades, k, heldAtEnd, end) / OpenAt(r.bars, trades[k].entryTs)) * CostFactor(r.costs)
  }

  function QuoteGrowth(r: Rule, trades: seq<Trade>, n: nat, heldAtEnd: bool, end: int): real
    requires r.Valid() && n <= |trades|
    requires forall k :: 0 <= k < n ==> OpenAt(r.bars, trades[k].entryTs) > 0.0
  {
    if n == 0 then 1.0
    else QuoteGrowth(r, trades, n - 1, heldAtEnd, end) * QuoteRatio(r, trades, n - 1, heldAtEnd, end)
  }

  lemma GrowthTake(trades: seq<Trade>, n: nat, takerFee: real)
    requires 0 < n <= |trades| && PositiveEntries(trades) && takerFee >= 0.0
    ensures Growth(trades[..n], takerFee) == Growth(trades[..n - 1], takerFee) * TradeGrowth(trades[n - 1], takerFee)
  {
    assert trades[..n][..n - 1] == trades[..n - 1];
  }

  lemma {:induction false} GrowthIsQuoteGrowth(r: Rule, trades: seq<Trade>, n: nat, heldAtEnd: bool, end: int)
    requires r.Valid() && n <= |trades| && PositiveEntries(trades)
    requires forall k :: 0 <= k < |trades| ==>
                           && OpenAt(r.bars, trades[k].entryTs) > 0.0 && BoughtAtOpen(r, trades[k])
                           && SoldAt(r, trades[k], ExitQuote(r, trades, k, heldAtEnd, end))
    ensures Growth(trades[..n], r.costs.takerFee) == QuoteGrowth(r, trades, n, heldAtEnd, end)
  {
    hide ExitQuote, OpenAt, Growth, TradeGrowth, CostFactor;
    if n == 0 {
      GrowthOfNone(r.costs.takerFee);
    } else {
      GrowthIsQuoteGrowth(r, trades, n - 1, heldAtEnd, end);
      GrowthTake(trades, n, r.costs.takerFee);
      GrowthOfQuotes(trades[n - 1], OpenAt(r.bars, trades[n - 1].entryTs),
                     ExitQuote(r, trades, n - 1, heldAtEnd, end), r.costs);
      assert QuoteRatio(r, trades, n - 1, heldAtEnd, end) == TradeGrowth(trades[n - 1], r.costs.takerFee);
      hide QuoteRatio;
    }
  }

  lemma GrowthOfNone(takerFee: real)
    requires takerFee >= 0.0
    ensures Growth([], takerFee) == 1.0
  {
  }

  lemma OpenAtIsPositive(bars: DailyBars, ts: int)
    requires bars.Valid() && Ascending(bars.ts) && PositivePrices(bars) && ts in bars.ts
    ensures OpenAt(bars, ts) > 0.0
  {
    var d :| 0 <= d < bars.Length() && bars.ts[d] == ts;
    OpenOfDay(bars, d);
  }

  lemma EntryQuotesPositive(r: Rule, trades: seq<Trade>)
    requires r.Valid() && Ascending(r.bars.ts) && PositivePrices(r.bars)
    requires forall k :: 0 <= k < |trades| ==> BoughtAtOpen(r, trades[k])
    ensures forall k :: 0 <= k < |trades| ==> OpenAt(r.bars, trades[k].entryTs) > 0.0
  {
    forall k | 0 <= k < |trades| ensures OpenAt(r.bars, trades[k].entryTs) > 0.0 {
      OpenAtIsPositive(r.bars, trades[k].entryTs);
    }
  }

  /** Ending cash is start cash times, for each trade, the ratio of the two prices of the tape it
      was struck at and the costs of one round trip. */
  lemma RunCompoundsQuotes(r: Rule, startCash: real, start: int, end: int)
    requires r.Valid() && Ascending(r.bars.ts) && PositivePrices(r.bars) && startCash > 0.0
    ensures var res := Score(r, startCash, start, end);
            && (forall k :: 0 <= k < |res.trades| ==> OpenAt(r.bars, res.trades[k].entryTs) > 0.0)
            && res.equity[|res.equity| - 1] == startCash
               * QuoteGrowth(r, res.trades, |res.trades|, HeldAtEnd(r, startCash, start, end), end)
  {
    hide Score, Growth, QuoteGrowth, ExitQuote, OpenAt, HeldAtEnd;
    var trades := Score(r, startCash, start, end).trades;
    RunCompounds(r, startCash, start, end);
    RunFillsAtOpens(r, startCash, start, end);
    EntryQuotesPositive(r, trades);
    GrowthIsQuoteGrowth(r, trades, |trades|, HeldAtEnd(r, startCash, start, end), end);
    assert trades[..|trades|] == trades;
  }

  // ----- the order of the trades

  /** Some close whose signal is applied at an open in `[from, to)` had the signal off. */
  ghost predicate OffBetween(r: Rule, from: int, to: int)
    requires r.Valid()
  {
    exists d :: 1 <= d < r.bars.Length() && from <= r.bars.ts[d] < to && !r.OnAt(d)
  }

  /** `next` may follow `t`: it enters strictly later, and after a stop only once the
      signal has been off. */
  ghost predicate Follows(r: Rule, t: Trade, next: Trade)
    requires r.Valid()
  {
    && t.exitTs < next.entryTs
    && (t.reason == SafetyStop ==> OffBetween(r, t.exitTs, next.entryTs))
  }

  ghost predicate InOrder(r: Rule, trades: seq<Trade>)
    requires r.Valid()
  {
    && (forall k :: 0 <= k < |trades| ==> trades[k].entryTs <= trades[k].exitTs)
    && (forall k :: 0 <= k < |trades| - 1 ==> Follows(r, trades[k], trades[k + 1]))
  }

  function Last(trades: seq<Trade>): Trade
    requires trades != []
  {
    trades[|trades| - 1]
  }

  /** Before day `d`'s open: the closed trades are in order, the last of them closed before
      that open, and a book that is free to enter after a stop has seen the signal off. */
  ghost predicate Sequenced(b: Book, r: Rule, start: int, d: int)
    requires r.Valid() && 0 <= start <= d <= r.bars.Length()
  {
    var trades := b.ledger.trades;
    && b.Coupled()
    && (b.machine.stopPending ==> b.machine.long)
    && InOrder(r, trades)
    && (trades != [] ==> exists x :: start < x < d && Last(trades).exitTs == r.bars.ts[x])
    && (b.machine.long ==>
          && start <= b.entryDay < d && b.ledger.trade.value.entryTs == r.bars.ts[b.entryDay]
          && (trades != [] ==> Follows(r, Last(trades), b.ledger.trade.value)))
    && (!b.machine.long && !b.machine.lockout && trades != [] && Last(trades).reason == SafetyStop ==>
          exists x :: 1 <= x < d && Last(trades).exitTs <= r.bars.ts[x] && !r.OnAt(x))
  }

  lemma StopSaleSequenced(b: Book, r: Rule, start: int, d: int)
    requires r.Valid() && Ascending(r.bars.ts) && 0 <= start <= d < r.bars.Length() && Sequenced(b, r, start, d)
    requires b.machine.stopPending
    ensures var b1 := StopSale(b, r, d);
            && InOrder(r, b1.ledger.trades) && b1.ledger.trades != []
            && Last(b1.ledger.trades).exitTs == r.bars.ts[d] && start < d
            && b1.machine == Machine(false, true, false)
  {
    var b1 := StopSale(b, r, d);
    var trades, trades1 := b.ledger.trades, b1.ledger.trades;
    assert trades1[..|trades|] == trades;
    forall k | 0 <= k < |trades1| - 1
      ensures Follows(r, trades1[k], trades1[k + 1])
    {
      if k == |trades| - 1 {
        assert Follows(r, Last(trades), b.ledger.trade.value);
      } else {
        assert Follows(r, trades[k], trades[k + 1]);
      }
    }
  }

  lemma ExitSequenced(b: Book, r: Rule, start: int, d: int)
    requires r.Valid() && Ascending(r.bars.ts) && 0 <= start <= d < r.bars.Length() && Sequenced(b, r, start, d)
    requires b.machine.long && !b.machine.stopPending && !r.OnAt(d)
    ensures Sequenced(OpenActions(b, r, d), r, start, d + 1)
  {
    var b1 := OpenActions(b, r, d);
    var trades, trades1 := b.ledger.trades, b1.ledger.trades;
    assert trades1[..|trades|] == trades;
    forall k | 0 <= k < |trades1| - 1
      ensures Follows(r, trades1[k], trades1[k + 1])
    {
      if k == |trades| - 1 {
        assert Follows(r, Last(trades), b.ledger.trade.value);
      } else {
        assert Follows(r, trades[k], trades[k + 1]);
      }
    }
    assert Last(trades1).exitTs == r.bars.ts[d];
  }

  lemma EnterSequenced(b: Book, r: Rule, start: int, d: int)
    requires r.Valid() && Ascending(r.bars.ts) && 0 <= start <= d < r.bars.Length() && Sequenced(b, r, start, d)
    requires !b.machine.long && !b.machine.lockout && r.OnAt(d)
    ensures Sequenced(OpenActions(b, r, d), r, start, d + 1)
  {
    var trades := b.ledger.trades;
    if trades != [] {
      var x :| start < x < d && Last(trades).exitTs == r.bars.ts[x];
      assert r.bars.ts[x] < r.bars.ts[d];
      if Last(trades).reason == SafetyStop {
        var y :| 1 <= y < d && Last(trades).exitTs <= r.bars.ts[y] && !r.OnAt(y);
        assert r.bars.ts[y] < r.bars.ts[d];
      }
      assert Follows(r, Last(trades), OpenActions(b, r, d).ledger.trade.value);
    }
  }

  lemma OpenSequenced(b: Book, r: Rule, start: int, d: int)
    requires r.Valid() && Ascending(r.bars.ts) && 0 <= start <= d < r.bars.Length() && Sequenced(b, r, start, d)
    ensures Sequenced(OpenActions(b, r, d), r, start, d + 1)
  {
    if b.machine.stopPending {
      StopSaleSequenced(b, r, start, d);
    } else if b.machine.long && !r.OnAt(d) {
      ExitSequenced(b, r, start, d);
    } else if !b.machine.long && !b.machine.lockout && r.OnAt(d) {
      EnterSequenced(b, r, start, d);
    } else {
      assert OpenActions(b, r, d).ledger == b.ledger;
    }
  }

  lemma {:induction false} DaysSequenced(r: Rule, startCash: real, start: int, d: int)
    requires r.Valid() && Ascending(r.bars.ts) && 0 <= start <= d <= r.bars.Length()
    ensures Sequenced(Days(r, startCash, start, d), r, start, d)
    decreases d
  {
    hide InOrder, Follows, OpenActions, CloseOfDay, Sequenced, Ascending;
    if d == start {
      StartSequenced(r, startCash, start);
    } else {
      DaysSequenced(r, startCash, start, d - 1);
      OpenSequenced(Days(r, startCash, start, d - 1), r, start, d - 1);
      CloseSequenced(OpenActions(Days(r, startCash, start, d - 1), r, d - 1), r, start, d);
    }
  }

  lemma StartSequenced(r: Rule, startCash: real, start: int)
    requires r.Valid() && 0 <= start <= r.bars.Length()
    ensures Sequenced(Days(r, startCash, start, start), r, start, start)
  {
  }

  lemma CloseSequenced(b: Book, r: Rule, start: int, d: int)
    requires r.Valid() && 0 <= start < d <= r.bars.Length() && b.Coupled() && Sequenced(b, r, start, d)
    ensures Sequenced(CloseOfDay(b, r, d - 1), r, start, d)
  {
  }

  /** Appending the open position's trade, once closed, to the trades before it. */
  lemma ClosedInOrder(r: Rule, trades: seq<Trade>, t: Trade)
    requires r.Valid() && InOrder(r, trades) && t.entryTs <= t.exitTs
    requires trades != [] ==> Follows(r, Last(trades), t)
    ensures InOrder(r, trades + [t])
  {
    var more := trades + [t];
    forall k | 0 <= k < |more| - 1
      ensures Follows(r, more[k], more[k + 1])
    {
      if k < |trades| - 1 {
        assert Follows(r, trades[k], trades[k + 1]);
      }
    }
  }

  /** Trades of a run never overlap, and after a stop exit some close had the signal off
      before the next entry. */
  lemma RunTradesInOrder(r: Rule, startCash: real, start: int, end: int)
    requires r.Valid() && Ascending(r.bars.ts)
    ensures InOrder(r, Score(r, startCash, start, end).trades)
  {
    var s, e := ClampStart(start), ClampEnd(end, r.bars.Length());
    if s < e {
      DaysSequenced(r, startCash, s, e);
      SettledInOrder(Days(r, startCash, s, e), r, s, e);
    }
  }

  lemma SettledInOrder(b: Book, r: Rule, s: int, e: int)
    requires r.Valid() && Ascending(r.bars.ts) && 0 <= s < e <= r.bars.Length() && Sequenced(b, r, s, e)
    requires |b.points| > 0
    ensures InOrder(r, Settle(b, r, e).ledger.trades)
  {
    if b.ledger.trade.Some? {
      var trades, settled := b.ledger.trades, Settle(b, r, e).ledger.trades;
      var t := Last(settled);
      assert r.bars.ts[b.entryDay] <= r.bars.ts[e - 1];
      assert settled == trades + [t];
      if trades != [] {
        assert Follows(r, Last(trades), b.ledger.trade.value);
      }
      hide Settle, Sequenced;
      ClosedInOrder(r, trades, t);
    }
  }
}
