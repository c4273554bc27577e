/** The live account, run at every open, holds what the engine of the backtest holds. */
module LiveRefinement {
  import opened Ordering
  import opened Wrappers
  import opened DailyTape
  import opened SignalExit
  import opened SignalExitLedger
  import opened PaperBook
  import opened LiveAccount
  import opened LiveInvariants

  /* The account steps before it looks at the stop; the engine looks first. */

  /** Prices are positive, days ascend and the rule is the live book's. */
  ghost predicate Scorable(r: Rule, nowMs: seq<int>) {
    && r.Valid() && PositivePrices(r.bars) && Ascending(r.bars.ts)
    && (forall i :: 0 <= i < r.bars.Length() ==> r.bars.low[i] > 0.0)
    && |nowMs| == r.bars.Length()
    && forall i :: 0 <= i < |nowMs| ==> AtDailyOpen(Some(nowMs[i]))
  }

  /** The run at day `d`'s open: it sees the days before `d`, all warm, at `open[d]`. */
  function CycleAt(r: Rule, nowMs: seq<int>, d: nat): (c: Cycle)
    requires r.Valid() && d < r.bars.Length() == |nowMs|
    ensures c.Valid() && c.bars.Length() == d
  {
    Cycle(r.bars.Take(d), r.signal[..d], seq(d, _ => true), Some(r.bars.open[d]), Some(nowMs[d]), r.stopFrac)
  }

  /** The account after the runs at the opens of days `start..d`. */
  function LiveAt(r: Rule, nowMs: seq<int>, cash: real, start: nat, d: nat): (a: Account)
    requires Scorable(r, nowMs) && 1 <= start <= d < r.bars.Length()
    ensures a.broker.costs == r.costs
    decreases d
  {
    var before := if d == start then FreshAccount(cash, r.costs) else LiveAt(r, nowMs, cash, start, d - 1);
    LiveRun(before, CycleAt(r, nowMs, d)).account
  }

  /** The engine's book after its actions at day `d`'s open. */
  function EngineAt(r: Rule, cash: real, start: nat, d: nat): Book
    requires r.Valid() && start <= d < r.bars.Length()
  {
    OpenActions(Days(r, cash, start, d), r, d)
  }

  /** A stop at or below zero is stored as no stop. */
  function Effective(stop: Option<real>): Option<real> {
    if stop.Some? && stop.value > 0.0 then stop else None
  }

  /** The two books agree: position, lockout, cash, quantity, entry and stop level. */
  ghost predicate SameBook(a: Account, b: Book) {
    && AtRest(a) && AllInOrOut(b) && !b.machine.stopPending
    && a.machine.long == b.machine.long && a.machine.lockout == b.machine.lockout
    && a.broker.cash == b.ledger.cash
    && (b.machine.long ==>
          && |a.broker.lots| == 1
          && a.broker.lots[0].quantity == b.ledger.qty
          && a.broker.lots[0].entryPrice == b.ledger.trade.value.entryPrice
          && a.broker.lots[0].entryFee == b.ledger.trade.value.entryFee
          && StopLevel(a.broker.lots) == Effective(b.ledger.stop))
  }

  // ----- one trade

  lemma BuysAgree(broker: Broker, l: Ledger, ts: int, price: real, stopFrac: real)
    requires broker.costs.Valid() && broker.lots == [] && broker.cash == l.cash > 0.0 && price > 0.0
    ensures var t, l' := BuyAll(broker, price, stopFrac), l.Buy(ts, price, stopFrac, broker.costs);
            && t.action.Entered? && |t.broker.lots| == 1
            && t.broker.cash == l'.cash == 0.0
            && t.broker.lots[0].quantity == l'.qty > 0.0
            && t.broker.lots[0].entryPrice == l'.trade.value.entryPrice
            && t.broker.lots[0].entryFee == l'.trade.value.entryFee
            && StopLevel(t.broker.lots) == Effective(l'.stop)
  {
    BuyKeeps(broker, price, stopFrac);
    var p := BuyFill(broker.cash, price, broker.costs);
    var stop := StopPrice(p.fill, stopFrac);
    var order := Order(SYMBOL, BuySide, p.qty, price, Some(StopLossOf(stop)));
    BuyCash(broker, order, price);
    var lots := BuyAll(broker, price, stopFrac).broker.lots;
    assert lots[0].stopLoss == StopLossOf(stop);
    assert StopLevel(lots[1..]) == None;
  }

  lemma SalesAgree(broker: Broker, l: Ledger, ts: int, price: real, reason: Reason, days: int)
    requires broker.costs.Valid() && |broker.lots| == 1 && broker.lots[0].ticker == SYMBOL
    requires broker.cash == l.cash == 0.0 && broker.lots[0].quantity == l.qty > 0.0 && price > 0.0 && l.trade.Some?
    ensures var after := CloseAll(broker, HeldSymbol(broker), price);
            && HeldSymbol(broker) == broker.lots && after.lots == [] && after.costs == broker.costs
            && after.cash == l.Close(ts, price, reason, days, broker.costs).cash
  {
    HeldSingle(broker.lots);
    SellKeeps(broker, price);
  }

  // ----- one day

  /** The account's machine after one warm pending day, in one formula: off clears
      everything, on and breached locks out, on enters a free book. */
  lemma OneDayReplay(m: Machine, c: Cycle, day: nat, wasLong: bool, lotStop: Option<real>)
    requires c.Valid() && day < c.bars.Length() && c.ready[day] && m.long == wasLong && !m.stopPending
    requires m.lockout ==> !m.long
    ensures var breached := wasLong && lotStop.Some? && c.bars.low[day] <= lotStop.value;
            var s := ReplayDays(m, c, [day], 1, wasLong, lotStop);
            if c.signal[day] && breached then s == Replay(Machine(false, true, false), Some(SafetyStop))
            else s == Replay(Stepped(m, c.signal[day]), None)
  {
    assert ReplayDays(m, c, [day], 0, wasLong, lotStop) == Replay(m, None);
  }

  /** The engine's next book: the breach of day `d - 1`, then the open of day `d`. */
  lemma EngineStep(b: Book, r: Rule, d: int)
    requires r.Valid() && 1 <= d < r.bars.Length() && AllInOrOut(b) && !b.machine.stopPending
    ensures var b' := OpenActions(CloseOfDay(b, r, d - 1), r, d);
            var on := r.signal[d - 1];
            && (b.machine.long && on && !Breached(b, r, d - 1) ==>
                  b'.ledger == b.ledger && b'.machine == Machine(true, false, false))
            && (b.machine.long && !on ==>
                  && b'.machine == Machine(false, false, false)
                  && b'.ledger == b.ledger.Close(r.bars.ts[d], r.bars.open[d],
                                                 if Breached(b, r, d - 1) then SafetyStop else Signal,
                                                 d - b.entryDay, r.costs))
            && (b.machine.long && on && Breached(b, r, d - 1) ==>
                  && b'.machine == Machine(false, true, false)
                  && b'.ledger == b.ledger.Close(r.bars.ts[d], r.bars.open[d], SafetyStop, d - b.entryDay, r.costs))
            && (!b.machine.long && on && !b.machine.lockout ==>
                  && b'.machine == Machine(true, false, false)
                  && b'.ledger == b.ledger.Buy(r.bars.ts[d], r.bars.open[d], r.stopFrac, r.costs))
            && (!b.machine.long && (!on || b.machine.lockout) ==>
                  b'.machine == Machine(false, b.machine.lockout && on, false) && b'.ledger == b.ledger)
  {
  }

  /** What the next open's run must do to an account that agrees with `b`. */
  lemma LiveStep(a: Account, b: Book, r: Rule, c: Cycle, d: int)
    requires SameBook(a, b) && a.broker.costs == r.costs && !a.deferEntry
    requires r.Valid() && 1 <= d < r.bars.Length() && r.bars.low[d - 1] > 0.0 && r.bars.open[d] > 0.0
    requires c.Valid() && c.bars.Length() == d && c.bars.low[d - 1] == r.bars.low[d - 1]
    requires c.signal[d - 1] == r.signal[d - 1] && c.ready[d - 1]
    requires c.price == Some(r.bars.open[d]) && AtDailyOpen(c.nowMs) && c.stopFrac == r.stopFrac
    requires Pending(a, c) == [d - 1]
    ensures var live := LiveRun(a, c);
            && SameBook(live.account, OpenActions(CloseOfDay(b, r, d - 1), r, d))
            && !live.account.deferEntry && live.account.lastDay == Some(c.bars.ts[d - 1])
            && (b.machine.long && !live.account.machine.long ==>
                  && a.broker.lots != []
                  && live.actions == [SoldLast(a.broker.lots, if r.signal[d - 1] then SafetyStop else Signal,
                                               r.bars.open[d], r.costs)])
  {
    HeldOfRest(a);
    var wasLong := a.machine.long;
    var lotStop := if wasLong then StopLevel(a.broker.lots) else None;
    var on := r.signal[d - 1];
    var low, price := r.bars.low[d - 1], r.bars.open[d];
    EngineStep(b, r, d);
    OneDayReplay(a.machine, c, d - 1, wasLong, lotStop);
    assert wasLong ==> (Breached(b, r, d - 1) <==> lotStop.Some? && low <= lotStop.value);
    var s := ReplayDays(a.machine, c, [d - 1], 1, wasLong, lotStop);
    var a1 := Bookkeeping(a, c).(machine := s.machine);
    assert a1.broker == a.broker && !a1.deferEntry && a1.lastDay == Some(c.bars.ts[d - 1]);
    assert LiveRun(a, c) == SettleChange(a1, wasLong, s.exitReason, SignalNow(a1, c), c);
    if wasLong && (!on || Breached(b, r, d - 1)) {
      var reason := if Breached(b, r, d - 1) then SafetyStop else Signal;
      SalesAgree(a.broker, b.ledger, r.bars.ts[d], price, reason, d - b.entryDay);
      SellKeeps(a.broker, price);
    } else if !wasLong && on && !a.machine.lockout {
      BuysAgree(a.broker, b.ledger, r.bars.ts[d], price, r.stopFrac);
      BuyKeeps(a.broker, price, r.stopFrac);
    }
  }

  lemma {:induction false} NoneNewer(ts: seq<int>, lastDay: int, k: nat)
    requires k <= |ts| && forall i :: k <= i < |ts| ==> ts[i] <= lastDay
    ensures Newer(ts, lastDay, k) == []
    decreases |ts| - k
  {
    if k < |ts| {
      NoneNewer(ts, lastDay, k + 1);
    }
  }

  /** Once the day before the newest has been decided, exactly the newest is pending. */
  lemma {:induction false} OnlyNewestPending(ts: seq<int>, k: nat)
    requires 2 <= |ts| && k < |ts| && Ascending(ts)
    ensures Newer(ts, ts[|ts| - 2], k) == [|ts| - 1]
    decreases |ts| - k
  {
    if k < |ts| - 1 {
      assert k == |ts| - 2 || ts[k] < ts[|ts| - 2];
      OnlyNewestPending(ts, k + 1);
    } else {
      assert ts[|ts| - 1] > ts[|ts| - 2];
      assert Newer(ts, ts[|ts| - 2], k + 1) == [];
    }
  }

  lemma FirstLiveRun(r: Rule, nowMs: seq<int>, cash: real, start: nat)
    requires Scorable(r, nowMs) && 1 <= start < r.bars.Length() && cash > 0.0
    ensures var a := LiveAt(r, nowMs, cash, start, start);
            && SameBook(a, EngineAt(r, cash, start, start))
            && !a.deferEntry && a.lastDay == Some(r.bars.ts[start - 1])
  {
    var a, c := FreshAccount(cash, r.costs), CycleAt(r, nowMs, start);
    var b := NewBook(cash, start);
    HeldOfRest(a);
    assert Pending(a, c) == [start - 1];
    OneDayReplay(a.machine, c, start - 1, false, None);
    if r.signal[start - 1] {
      BuysAgree(a.broker, b.ledger, r.bars.ts[start], r.bars.open[start], r.stopFrac);
      BuyKeeps(a.broker, r.bars.open[start], r.stopFrac);
    }
    assert Days(r, cash, start, start) == b;
  }

  lemma EngineAtNext(r: Rule, cash: real, start: nat, d: nat)
    requires r.Valid() && start < d < r.bars.Length()
    ensures EngineAt(r, cash, start, d) == OpenActions(CloseOfDay(EngineAt(r, cash, start, d - 1), r, d - 1), r, d)
  {
  }

  lemma LiveAtNext(r: Rule, nowMs: seq<int>, cash: real, start: nat, d: nat)
    requires Scorable(r, nowMs) && 1 <= start < d < r.bars.Length()
    ensures LiveAt(r, nowMs, cash, start, d)
            == LiveRun(LiveAt(r, nowMs, cash, start, d - 1), CycleAt(r, nowMs, d)).account
  {
  }

  ghost predicate Refined(a: Account, b: Book, r: Rule, d: nat)
    requires r.Valid() && 1 <= d <= r.bars.Length()
  {
    SameBook(a, b) && !a.deferEntry && a.lastDay == Some(r.bars.ts[d - 1]) && a.broker.costs == r.costs
  }

  lemma StepFromRefined(a: Account, b: Book, r: Rule, nowMs: seq<int>, d: nat)
    requires Scorable(r, nowMs) && 2 <= d < r.bars.Length() && Refined(a, b, r, d - 1)
    ensures var live := LiveRun(a, CycleAt(r, nowMs, d));
            var b' := OpenActions(CloseOfDay(b, r, d - 1), r, d);
            && Refined(live.account, b', r, d)
            && (b.machine.long && !b'.machine.long ==>
                  && a.broker.lots != []
                  && live.actions == [SoldLast(a.broker.lots, if r.signal[d - 1] then SafetyStop else Signal,
                                               r.bars.open[d], r.costs)])
  {
    NextPending(r, nowMs, a, d);
    LiveStep(a, b, r, CycleAt(r, nowMs, d), d);
  }

  /** After the run at every open the account holds what the engine holds after its actions
      at that open: long, lockout, cash, quantity, entry and stop level. */
  lemma {:induction false} LiveRefinesBacktest(r: Rule, nowMs: seq<int>, cash: real, start: nat, d: nat)
    requires Scorable(r, nowMs) && 1 <= start <= d < r.bars.Length() && cash > 0.0
    ensures Refined(LiveAt(r, nowMs, cash, start, d), EngineAt(r, cash, start, d), r, d)
    decreases d
  {
    hide LiveRun, OpenActions, CloseOfDay;
    if d == start {
      FirstLiveRun(r, nowMs, cash, start);
    } else {
      LiveRefinesBacktest(r, nowMs, cash, start, d - 1);
      StepFromRefined(LiveAt(r, nowMs, cash, start, d - 1), EngineAt(r, cash, start, d - 1), r, nowMs, d);
      EngineAtNext(r, cash, start, d);
      LiveAtNext(r, nowMs, cash, start, d);
    }
  }

  lemma NextPending(r: Rule, nowMs: seq<int>, a: Account, d: nat)
    requires Scorable(r, nowMs) && 2 <= d < r.bars.Length() && a.lastDay == Some(r.bars.ts[d - 2])
    ensures Pending(a, CycleAt(r, nowMs, d)) == [d - 1]
  {
    var ts := CycleAt(r, nowMs, d).bars.ts;
    assert ts[|ts| - 2] == r.bars.ts[d - 2];
    OnlyNewestPending(ts, 0);
  }

  /** The account made one sale, at the engine's price and for its result, and the two name the
      same reason exactly when the day was not both a breach and an off close. */
  ghost predicate SameSale(live: LiveResult, trades: seq<Trade>, breachedAndOff: bool) {
    && |live.actions| == 1 && live.actions[0].Sold? && trades != []
    && live.actions[0].exit == Last(trades).exitPrice && live.actions[0].pnl == Last(trades).Pnl()
    && (live.actions[0].reason == Last(trades).reason <==> !breachedAndOff)
  }

  /** Where the two records differ: a position whose stop was breached on a day that also
      closed with the signal off leaves at the same open and for the same cash, but the
      engine books a safety stop and the account a signal exit. In every other sale the
      two name the same reason. */
  lemma SaleReasons(r: Rule, nowMs: seq<int>, cash: real, start: nat, d: nat)
    requires Scorable(r, nowMs) && 1 <= start < d < r.bars.Length() && cash > 0.0
    requires EngineAt(r, cash, start, d - 1).machine.long && !EngineAt(r, cash, start, d).machine.long
    ensures SameSale(LiveRun(LiveAt(r, nowMs, cash, start, d - 1), CycleAt(r, nowMs, d)),
                     EngineAt(r, cash, start, d).ledger.trades,
                     Breached(EngineAt(r, cash, start, d - 1), r, d - 1) && !r.signal[d - 1])
  {
    hide LiveRun, OpenActions, CloseOfDay, LiveAt, EngineAt;
    var a, b := LiveAt(r, nowMs, cash, start, d - 1), EngineAt(r, cash, start, d - 1);
    LiveRefinesBacktest(r, nowMs, cash, start, d - 1);
    EngineAtNext(r, cash, start, d);
    ReasonsOfStep(a, b, r, nowMs, d);
  }

  /** One position makes the same in the account and in the ledger. */
  lemma SameResult(
    lot: OpenPosition, l: Ledger, ts: int, price: real, reason: Reason, days: int, costs: Costs)
    requires costs.Valid() && l.trade.Some? && lot.quantity == l.qty == l.trade.value.qty
    requires lot.entryPrice == l.trade.value.entryPrice && lot.entryFee == l.trade.value.entryFee
    ensures SalePnl(lot, price, costs) == Last(l.Close(ts, price, reason, days, costs).trades).Pnl()
  {
  }

  lemma ReasonsOfStep(a: Account, b: Book, r: Rule, nowMs: seq<int>, d: nat)
    requires Scorable(r, nowMs) && 2 <= d < r.bars.Length() && Refined(a, b, r, d - 1)
    requires b.machine.long && !OpenActions(CloseOfDay(b, r, d - 1), r, d).machine.long
    ensures SameSale(LiveRun(a, CycleAt(r, nowMs, d)), OpenActions(CloseOfDay(b, r, d - 1), r, d).ledger.trades,
                     Breached(b, r, d - 1) && !r.signal[d - 1])
  {
    hide LiveRun, OpenActions, CloseOfDay;
    StepFromRefined(a, b, r, nowMs, d);
    EngineStep(b, r, d);
    var reason := if Breached(b, r, d - 1) then SafetyStop else Signal;
    var closed := b.ledger.Close(r.bars.ts[d], r.bars.open[d], reason, d - b.entryDay, r.costs);
    assert Last(closed.trades).exitPrice == SellPrice(r.bars.open[d], r.costs) && Last(closed.trades).reason == reason;
    SameResult(a.broker.lots[0], b.ledger, r.bars.ts[d], r.bars.open[d], reason, d - b.entryDay, r.costs);
  }

  /** Day 1, entered at its open, falls to half its price and closes with the signal off. */
  function OffAfterBreach(costs: Costs): Rule {
    Rule(DailyBars([0, DAY_MS, 2 * DAY_MS], [1.0, 1.0, 1.0], [1.0, 1.0, 1.0], [1.0, 0.5, 1.0], [1.0, 1.0, 1.0]),
         [true, false, false], costs, 0.2)
  }

  const OPENINGS := [0, DAY_MS, 2 * DAY_MS]

  lemma OffAfterBreachIsScorable(costs: Costs)
    requires costs.Valid()
    ensures Scorable(OffAfterBreach(costs), OPENINGS)
  {
    var r := OffAfterBreach(costs);
    forall i | 0 <= i < 3
      ensures r.bars.open[i] > 0.0 && r.bars.close[i] > 0.0 && r.bars.low[i] > 0.0 && AtDailyOpen(Some(OPENINGS[i]))
    {
      assert i == 0 || i == 1 || i == 2;
    }
  }

  /** The engine enters at day 1, is breached on it, and is sold at day 2. */
  lemma EngineOffAfterBreach(r: Rule, cash: real, start: nat)
    requires r == OffAfterBreach(r.costs) && r.Valid() && cash > 0.0 && start == 1
    ensures var b := EngineAt(r, cash, start, 1);
            b.machine == Machine(true, false, false) && AllInOrOut(b) && Breached(b, r, 1)
  {
    var b0 := Days(r, cash, start, 1);
    assert b0 == NewBook(cash, 1);
    OpenKeepsAllIn(b0, r, 1);
    var fill := BuyPrice(1.0, r.costs);
    assert fill >= 1.0;
    assert EngineAt(r, cash, start, 1).ledger.stop == StopPrice(fill, 0.2);
  }

  /** On it the engine books a safety stop and the account, for the same sale, a signal exit. */
  lemma ReasonsDiffer(costs: Costs, cash: real)
    requires costs.Valid() && cash > 0.0
    ensures var r := OffAfterBreach(costs);
            && Scorable(r, OPENINGS) && LiveAt(r, OPENINGS, cash, 1, 1).broker.lots != []
            && LiveRun(LiveAt(r, OPENINGS, cash, 1, 1), CycleAt(r, OPENINGS, 2)).actions
               == [SoldLast(LiveAt(r, OPENINGS, cash, 1, 1).broker.lots, Signal, 1.0, costs)]
            && var trades := EngineAt(r, cash, 1, 2).ledger.trades;
               trades != [] && Last(trades).reason == SafetyStop && Last(trades).exitPrice == SellPrice(1.0, costs)
  {
    var r := OffAfterBreach(costs);
    OffAfterBreachIsScorable(costs);
    EngineOffAfterBreach(r, cash, 1);
    LiveRefinesBacktest(r, OPENINGS, cash, 1, 1);
    EngineAtNext(r, cash, 1, 2);
    var b := EngineAt(r, cash, 1, 1);
    EngineStep(b, r, 2);
    hide LiveRun, OpenActions, CloseOfDay, LiveAt, EngineAt;
    StepFromRefined(LiveAt(r, OPENINGS, cash, 1, 1), b, r, OPENINGS, 2);
  }
}
