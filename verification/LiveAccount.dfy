/** The live library account: one paper account that replays completed days through the
    `signal_exit` rule and trades the resulting change of position. */
module LiveAccount {
  import opened Wrappers
  import opened DailyTape
  import opened SignalExit
  import opened PaperBook

  const SYMBOL := "BTC/USDT"
  const CYCLE_INTERVAL_SECONDS := 300

  /** True for the first cycle after 00:00 UTC, the far edge included. */
  predicate AtDailyOpen(nowMs: Option<int>) {
    nowMs.Some? && nowMs.value % DAY_MS <= CYCLE_INTERVAL_SECONDS * 1000
  }

  function NextDailyOpen(nowMs: int): (next: int)
    ensures next % DAY_MS == 0 && nowMs < next <= nowMs + DAY_MS
  {
    nowMs - nowMs % DAY_MS + DAY_MS
  }

  /** What one cycle is given. `price` is absent when it is missing or not finite; `ready[i]`
      says whether day `i`'s lookback is warm. */
  datatype Cycle = Cycle(
    bars: DailyBars, signal: seq<bool>, ready: seq<bool>, price: Option<real>, nowMs: Option<int>, stopFrac: real)
  {
    predicate Valid() {
      bars.Valid() && |signal| == |ready| == bars.Length()
    }
  }

  /** The persisted account: the broker, the machine and the `library` dictionary. */
  datatype Account = Account(
    broker: Broker, machine: Machine,
    lastDay: Option<int>, lastSignal: Option<bool>, deferEntry: bool, awaitOpenMs: Option<int>)

  datatype LiveAction =
    | Rejected
    | Entered(size: real, entry: real, stop: Option<real>)
    | Sold(reason: Reason, exit: real, pnl: real)

  datatype LiveResult = LiveResult(account: Account, actions: seq<LiveAction>, signalNow: Option<bool>)

  function HeldSymbol(b: Broker): seq<OpenPosition> {
    Held(b.lots, SYMBOL)
  }

  // ----- buying and selling

  datatype Traded = Traded(broker: Broker, action: LiveAction)

  function StopLossOf(stop: Option<real>): real {
    if stop.None? then 0.0 else stop.value
  }

  function BuyAll(b: Broker, price: real, stopFrac: real): (t: Traded)
    requires b.costs.Valid()
    ensures t.action == Rejected || t.action.Entered?
    ensures t.action == Rejected ==> t.broker == b
  {
    var p := BuyFill(b.cash, price, b.costs);
    if p.qty <= 0.0 then Traded(b, Rejected) else
      var stop := StopPrice(p.fill, stopFrac);
      var order := Order(SYMBOL, BuySide, p.qty, price, Some(StopLossOf(stop)));
      Traded(Place(b, order, Some(price)).broker, Entered(p.qty, p.fill, stop))
  }

  /** The stop level the broker keeps for the symbol: the first positive one. */
  function StopLevel(lots: seq<OpenPosition>): Option<real> {
    if lots == [] then None
    else if lots[0].ticker == SYMBOL && lots[0].stopLoss > 0.0 then Some(lots[0].stopLoss)
    else StopLevel(lots[1..])
  }

  /** What a lot makes when sold at `exit` for a fee of `exitFee`, both its fees paid. */
  function LotPnl(lot: OpenPosition, exit: real, exitFee: real): real {
    (exit - lot.entryPrice) * lot.quantity - exitFee - lot.entryFee
  }

  function SalePnl(lot: OpenPosition, price: real, costs: Costs): real
    requires costs.Valid()
  {
    var s := SellFill(lot.quantity, price, costs);
    LotPnl(lot, s.fill, s.fee)
  }

  /** The action reported for a sale of all these lots is that of the last. */
  function SoldLast(held: seq<OpenPosition>, reason: Reason, price: real, costs: Costs): LiveAction
    requires costs.Valid() && held != []
  {
    Sold(reason, SellPrice(price, costs), SalePnl(held[|held| - 1], price, costs))
  }

  // ----- the replay of pending days

  /** Indexes from `k` on of the days newer than `lastDay`. */
  function Newer(ts: seq<int>, lastDay: int, k: nat): (days: seq<nat>)
    requires k <= |ts|
    ensures forall j :: 0 <= j < |days| ==> k <= days[j] < |ts| && ts[days[j]] > lastDay
    decreases |ts| - k
  {
    if k == |ts| then []
    else (if ts[k] > lastDay then [k] else []) + Newer(ts, lastDay, k + 1)
  }

  function Pending(a: Account, c: Cycle): (days: seq<nat>)
    requires c.Valid() && c.bars.Length() > 0
    ensures forall j :: 0 <= j < |days| ==> days[j] < c.bars.Length()
  {
    match a.lastDay
    case None => if AtDailyOpen(c.nowMs) then [c.bars.Length() - 1] else []
    case Some(last) => Newer(c.bars.ts, last, 0)
  }

  datatype Replay = Replay(machine: Machine, exitReason: Option<Reason>)

  /** One pending day: a stop left by the day before, the day's signal, then this day's low
      against the stop of a position that was on before the replay. */
  function ReplayDay(s: Replay, c: Cycle, i: nat, newest: bool, wasLong: bool, lotStop: Option<real>): Replay
    requires c.Valid() && i < c.bars.Length()
  {
    var s1 := if s.machine.stopPending && s.machine.long && wasLong
              then Replay(StoppedOut(s.machine), Some(SafetyStop)) else s;
    var m := if c.ready[i] then Stepped(s1.machine, c.signal[i]) else s1.machine;
    if wasLong && m.long && lotStop.Some? && c.bars.low[i] <= lotStop.value then
      if newest then Replay(StoppedOut(m), Some(SafetyStop))
      else Replay(m.(stopPending := true), s1.exitReason)
    else Replay(m, s1.exitReason)
  }

  function ReplayDays(m: Machine, c: Cycle, days: seq<nat>, k: nat, wasLong: bool, lotStop: Option<real>): Replay
    requires c.Valid() && k <= |days| && forall j :: 0 <= j < |days| ==> days[j] < c.bars.Length()
  {
    if k == 0 then Replay(m, None)
    else ReplayDay(ReplayDays(m, c, days, k - 1, wasLong, lotStop), c, days[k - 1], k == |days|, wasLong, lotStop)
  }

  /** The signal of the newest warm day among the first `k` of `days`, or `before`. */
  function NewestSignal(c: Cycle, days: seq<nat>, k: nat, before: Option<bool>): Option<bool>
    requires c.Valid() && k <= |days| && forall j :: 0 <= j < |days| ==> days[j] < c.bars.Length()
  {
    if k == 0 then before
    else if c.ready[days[k - 1]] then Some(c.signal[days[k - 1]])
    else NewestSignal(c, days, k - 1, before)
  }

  // ----- one run

  /** The account as it is opened: the broker is the source of truth for the position. */
  function Opened(a: Account): Account {
    a.(machine := a.machine.(long := HeldSymbol(a.broker) != []))
  }

  predicate FirstLookIntraday(a: Account, c: Cycle) {
    a.lastDay.None? && !AtDailyOpen(c.nowMs)
  }

  /** The dictionary after a first look outside the open window, and after the replay. */
  function Bookkeeping(a: Account, c: Cycle): (a': Account)
    requires c.Valid() && c.bars.Length() > 0
  {
    var n := c.bars.Length();
    var days := Pending(a, c);
    if FirstLookIntraday(a, c) then
      var a1 := a.(lastDay := Some(c.bars.ts[n - 1]));
      if !c.ready[n - 1] then a1 else
        var a2 := a1.(lastSignal := Some(c.signal[n - 1]));
        if !c.signal[n - 1] then a2 else
          a2.(deferEntry := true,
              awaitOpenMs := if c.nowMs.Some? then Some(NextDailyOpen(c.nowMs.value)) else a2.awaitOpenMs)
    else if days == [] then a
    else a.(lastDay := Some(c.bars.ts[days[|days| - 1]]), lastSignal := NewestSignal(c, days, |days|, a.lastSignal))
  }

  function SignalNow(a: Account, c: Cycle): Option<bool>
    requires c.Valid() && c.bars.Length() > 0
  {
    var n := c.bars.Length();
    if c.ready[n - 1] then Some(c.signal[n - 1]) else a.lastSignal
  }

  /** Trade the change of position. `a` holds the machine as the replay left it. */
  function SettleChange(
    a: Account, wasLong: bool, exitReason: Option<Reason>, signalNow: Option<bool>, c: Cycle): (r: LiveResult)
    requires c.Valid() && a.broker.costs.Valid() && c.price.Some?
    ensures r.account.broker.costs == a.broker.costs
  {
    var price := c.price.value;
    var atOpen := AtDailyOpen(c.nowMs);
    if a.machine.long && !wasLong then
      if a.deferEntry && !atOpen then
        LiveResult(a.(machine := a.machine.(long := false)), [], signalNow)
      else
        var t := BuyAll(a.broker, price, c.stopFrac);
        LiveResult(
          a.(broker := t.broker, deferEntry := false, awaitOpenMs := None,
             machine := a.machine.(long := t.action.Entered?)),
          [t.action], signalNow)
    else if wasLong && !a.machine.long && a.broker.lots != [] then
      var held := HeldSymbol(a.broker);
      if held == [] then LiveResult(a, [], signalNow) else
        var reason := if exitReason.Some? then exitReason.value else Signal;
        CloseAllCosts(a.broker, held, price);
        LiveResult(a.(broker := CloseAll(a.broker, held, price)),
                   [SoldLast(held, reason, price, a.broker.costs)], signalNow)
    else if a.deferEntry && atOpen then
      var a1 := a.(deferEntry := false, awaitOpenMs := None);
      if signalNow == Some(true) && !a1.machine.long && !a1.machine.lockout then
        var t := BuyAll(a1.broker, price, c.stopFrac);
        LiveResult(a1.(broker := t.broker, machine := a1.machine.(long := t.action.Entered?)), [t.action], signalNow)
      else LiveResult(a1, [], signalNow)
    else LiveResult(a, [], signalNow)
  }

  predicate NoPrice(c: Cycle) {
    c.price.None? || c.price.value <= 0.0
  }

  function LiveRun(a0: Account, c: Cycle): (r: LiveResult)
    requires c.Valid() && a0.broker.costs.Valid()
    ensures r.account.broker.costs == a0.broker.costs
  {
    if NoPrice(c) then LiveResult(a0, [], None) else
      var a := Opened(a0);
      if c.bars.Length() == 0 then LiveResult(a, [], None) else
        var days := Pending(a, c);
        var wasLong := a.machine.long;
        var lotStop := if wasLong then StopLevel(a.broker.lots) else None;
        var s := ReplayDays(a.machine, c, days, |days|, wasLong, lotStop);
        var a1 := Bookkeeping(a, c).(machine := s.machine);
        SettleChange(a1, wasLong, s.exitReason, SignalNow(a1, c), c)
  }

  lemma {:induction false} CloseAllCosts(b: Broker, held: seq<OpenPosition>, price: real)
    requires b.costs.Valid()
    ensures CloseAll(b, held, price).costs == b.costs
    decreases |held|
  {
    if held != [] {
      CloseAllCosts(Closed(b, held[0], price).broker, held[1..], price);
    }
  }

  // ----- the run as the program performs it

  class LibraryAccount {
    const broker: PaperBroker
    const machine: MachineState
    var lastDay: Option<int>
    var lastSignal: Option<bool>
    var deferEntry: bool
    var awaitOpenMs: Option<int>

    function View(): Account
      reads this, broker, machine
    {
      Account(broker.View(), machine.View(), lastDay, lastSignal, deferEntry, awaitOpenMs)
    }

    constructor (a: Account)
      ensures View() == a
      ensures fresh(broker) && fresh(machine)
    {
      broker := new PaperBroker(a.broker);
      machine := new MachineState(a.machine);
      lastDay, lastSignal, deferEntry, awaitOpenMs := a.lastDay, a.lastSignal, a.deferEntry, a.awaitOpenMs;
    }

    method Buy(price: real, stopFrac: real) returns (action: LiveAction)
      requires broker.costs.Valid()
      modifies broker
      ensures broker.View() == BuyAll(old(broker.View()), price, stopFrac).broker
      ensures action == BuyAll(old(broker.View()), price, stopFrac).action
    {
      var p := BuyFill(broker.cash, price, broker.costs);
      if p.qty <= 0.0 {
        return Rejected;
      }
      var stop := StopPrice(p.fill, stopFrac);
      var fill := broker.PlaceOrder(Order(SYMBOL, BuySide, p.qty, price, Some(StopLossOf(stop))), Some(price));
      action := Entered(p.qty, fill.value.price, stop);
    }

    /** Sell every lot of the symbol. Nothing to sell is no action. */
    method Sell(price: real, reason: Reason) returns (done: Option<LiveAction>)
      requires broker.costs.Valid()
      modifies broker
      ensures var held := HeldSymbol(old(broker.View()));
              && broker.View() == CloseAll(old(broker.View()), held, price)
              && done == if held == [] then None else Some(SoldLast(held, reason, price, broker.costs))
    {
      hide CloseAll, Closed, Held, SellFill, SellPrice, Place, LotPnl;
      var held := Held(broker.lots, SYMBOL);
      ghost var b0 := broker.View();
      done := None;
      var k := 0;
      assert held[0..] == held;
      while k < |held|
        invariant 0 <= k <= |held|
        invariant broker.View().costs == b0.costs && Held(broker.lots, SYMBOL) == held[k..]
        invariant CloseAll(broker.View(), held[k..], price) == CloseAll(b0, held, price)
        invariant done == if k == 0 then None else Some(SoldLast(held[..k], reason, price, broker.costs))
      {
        var lot := held[k];
        CloseAllStep(broker.View(), held, k, price);
        OldestIsSold(broker.View(), SYMBOL, price);
        var closed := broker.CloseLot(lot, price);
        var fill := closed.value;
        ghost var s := SellFill(lot.quantity, price, broker.costs);
        assert fill.price == s.fill && fill.fee == s.fee;
        var pnl := LotPnl(lot, fill.price, fill.fee);
        assert pnl == SalePnl(lot, price, broker.costs);
        done := Some(Sold(reason, fill.price, pnl));
        assert held[..k + 1][k] == lot;
        k := k + 1;
      }
      assert held[..k] == held && held[k..] == [];
      CloseAllNone(broker.View(), price);
    }

    /** Replay the pending days through `Step` and `StopOut`. */
    method ReplayPending(c: Cycle, days: seq<nat>, wasLong: bool, lotStop: Option<real>)
      returns (exitReason: Option<Reason>)
      requires c.Valid() && forall j :: 0 <= j < |days| ==> days[j] < c.bars.Length()
      modifies machine
      ensures Replay(machine.View(), exitReason)
              == ReplayDays(old(machine.View()), c, days, |days|, wasLong, lotStop)
    {
      ghost var m0 := machine.View();
      exitReason := None;
      var k := 0;
      while k < |days|
        invariant 0 <= k <= |days|
        invariant Replay(machine.View(), exitReason) == ReplayDays(m0, c, days, k, wasLong, lotStop)
      {
        var i := days[k];
        if machine.stopPending && machine.long && wasLong {
          machine.StopOut();
          exitReason := Some(SafetyStop);
        }
        if c.ready[i] {
          var _ := machine.Step(c.signal[i]);
        }
        if wasLong && machine.long && lotStop.Some? && c.bars.low[i] <= lotStop.value {
          if k == |days| - 1 {
            machine.StopOut();
            exitReason := Some(SafetyStop);
          } else {
            machine.stopPending := true;
          }
        }
        k := k + 1;
      }
    }

    method NoteDays(c: Cycle, days: seq<nat>)
      requires c.Valid() && c.bars.Length() > 0 && days == Pending(View(), c)
      modifies this
      ensures View() == Bookkeeping(old(View()), c)
    {
      var n := c.bars.Length();
      if lastDay.None? && !AtDailyOpen(c.nowMs) {
        lastDay := Some(c.bars.ts[n - 1]);
        if c.ready[n - 1] {
          lastSignal := Some(c.signal[n - 1]);
          if c.signal[n - 1] {
            deferEntry := true;
            if c.nowMs.Some? {
              awaitOpenMs := Some(NextDailyOpen(c.nowMs.value));
            }
          }
        }
      } else if days != [] {
        lastDay := Some(c.bars.ts[days[|days| - 1]]);
        ghost var old0 := lastSignal;
        var k := |days|;
        while k > 0
          invariant 0 <= k <= |days|
          invariant lastSignal == old0
          invariant NewestSignal(c, days, |days|, old0) == NewestSignal(c, days, k, old0)
          invariant View() == old(View()).(lastDay := Some(c.bars.ts[days[|days| - 1]]))
        {
          k := k - 1;
          if c.ready[days[k]] {
            lastSignal := Some(c.signal[days[k]]);
            return;
          }
        }
      }
    }

    /** Buy, and stay flat when nothing could be bought. */
    method EnterLong(price: real, stopFrac: real) returns (action: LiveAction)
      requires broker.costs.Valid() && machine.long
      modifies broker, machine
      ensures var t := BuyAll(old(broker.View()), price, stopFrac);
              && action == t.action && broker.View() == t.broker
              && machine.View() == old(machine.View()).(long := t.action.Entered?)
    {
      hide BuyAll;
      action := Buy(price, stopFrac);
      if !action.Entered? {
        machine.long := false;
      }
    }

    method TradeChange(c: Cycle, wasLong: bool, exitReason: Option<Reason>, signalNow: Option<bool>)
      returns (actions: seq<LiveAction>)
      requires c.Valid() && c.price.Some? && broker.costs.Valid()
      modifies this, broker, machine
      ensures LiveResult(View(), actions, signalNow) == SettleChange(old(View()), wasLong, exitReason, signalNow, c)
    {
      hide BuyAll, CloseAll, SoldLast, Held, AtDailyOpen, SellPrice;
      CloseAllNone(broker.View(), c.price.value);
      var price := c.price.value;
      var atOpen := AtDailyOpen(c.nowMs);
      actions := [];
      if machine.long && !wasLong {
        if deferEntry && !atOpen {
          machine.long := false;
        } else {
          var action := EnterLong(price, c.stopFrac);
          actions := [action];
          deferEntry := false;
          awaitOpenMs := None;
        }
      } else if wasLong && !machine.long && broker.lots != [] {
        var done := Sell(price, if exitReason.Some? then exitReason.value else Signal);
        if done.Some? {
          actions := [done.value];
        }
      } else if deferEntry && atOpen {
        deferEntry := false;
        awaitOpenMs := None;
        if signalNow == Some(true) && !machine.long && !machine.lockout {
          machine.long := true;
          var action := EnterLong(price, c.stopFrac);
          actions := [action];
        }
      }
    }

    /** One live decision. */
    method RunLibraryAccount(c: Cycle) returns (actions: seq<LiveAction>, signalNow: Option<bool>)
      requires c.Valid() && broker.costs.Valid()
      modifies this, broker, machine
      ensures LiveResult(View(), actions, signalNow) == LiveRun(old(View()), c)
    {
      hide ReplayDays, SettleChange, Newer, NewestSignal, StopLevel, Held, AtDailyOpen;
      actions, signalNow := [], None;
      if NoPrice(c) {
        return;
      }
      ghost var a0 := View();
      machine.long := Held(broker.lots, SYMBOL) != [];
      ghost var a := View();
      assert a == Opened(a0);
      var n := c.bars.Length();
      if n == 0 {
        return;
      }
      var days := Pending(View(), c);
      var wasLong := machine.long;
      var lotStop := if wasLong then StopLevel(broker.lots) else None;
      var exitReason := ReplayPending(c, days, wasLong, lotStop);
      ghost var s := Replay(machine.View(), exitReason);
      NoteDays(c, days);
      assert View() == Bookkeeping(a, c).(machine := s.machine);
      signalNow := if c.ready[n - 1] then Some(c.signal[n - 1]) else lastSignal;
      actions := TradeChange(c, wasLong, exitReason, signalNow);
    }
  }
}
