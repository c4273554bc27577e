/** What the live account keeps over any sequence of runs, whatever the gaps between them
    and the time of day of each. */
module LiveInvariants {
  import opened Wrappers
  import opened DailyTape
  import opened SignalExit
  import opened PaperBook
  import opened LiveAccount

  /** The account at rest, as it is saved after a run. */
  ghost predicate AtRest(a: Account) {
    && a.broker.costs.Valid()
    && |a.broker.lots| <= 1
    && (forall k :: 0 <= k < |a.broker.lots| ==> a.broker.lots[k].ticker == SYMBOL)
    && (a.machine.long <==> a.broker.lots != [])
    && (a.machine.lockout ==> a.broker.lots == [])
    && !a.machine.stopPending
    && (if a.broker.lots == [] then a.broker.cash > 0.0
        else a.broker.cash == 0.0 && a.broker.lots[0].quantity > 0.0)
    && (a.deferEntry ==> a.broker.lots == [] && !a.machine.lockout && a.lastDay.Some?)
  }

  function FreshAccount(cash: real, costs: Costs): Account {
    Account(Broker(cash, [], 1, costs), Machine(false, false, false), None, None, false, None)
  }

  lemma HeldOfRest(a: Account)
    requires AtRest(a)
    ensures HeldSymbol(a.broker) == a.broker.lots
    ensures Opened(a) == a
  {
    if a.broker.lots != [] {
      HeldSingle(a.broker.lots);
    }
  }

  lemma HeldSingle(lots: seq<OpenPosition>)
    requires |lots| == 1 && lots[0].ticker == SYMBOL
    ensures Held(lots, SYMBOL) == lots
  {
    assert lots[1..] == [];
    assert Held(lots[1..], SYMBOL) == [];
  }

  /** The machine during a replay: never long and locked out at once, and no stop left
      pending once the newest day has been replayed. A book that was flat stays unlocked. */
  ghost predicate Replaying(s: Replay, wasLong: bool, lockedBefore: bool, done: bool) {
    && (s.machine.lockout ==> !s.machine.long)
    && (s.machine.stopPending ==> s.machine.long && wasLong && !done)
    && (!wasLong && !lockedBefore ==> !s.machine.lockout)
  }

  lemma {:induction false} ReplayKeeps(
    m: Machine, c: Cycle, days: seq<nat>, k: nat, wasLong: bool, lotStop: Option<real>)
    requires c.Valid() && k <= |days| && forall j :: 0 <= j < |days| ==> days[j] < c.bars.Length()
    requires (m.lockout ==> !m.long) && !m.stopPending
    ensures Replaying(ReplayDays(m, c, days, k, wasLong, lotStop), wasLong, m.lockout, k == |days|)
  {
    if k > 0 {
      ReplayKeeps(m, c, days, k - 1, wasLong, lotStop);
    }
  }

  lemma BuyKeeps(b: Broker, price: real, stopFrac: real)
    requires b.costs.Valid() && b.lots == [] && b.cash > 0.0 && price > 0.0
    ensures var t := BuyAll(b, price, stopFrac);
            && t.action.Entered? && |t.broker.lots| == 1 && t.broker.cash == 0.0
            && t.broker.lots[0].ticker == SYMBOL && t.broker.lots[0].quantity > 0.0
  {
    var p := BuyFill(b.cash, price, b.costs);
    var stop := StopPrice(p.fill, stopFrac);
    var order := Order(SYMBOL, BuySide, p.qty, price, Some(StopLossOf(stop)));
    BuyCash(b, order, price);
  }

  /** The broker's charge for an all-in order is the engine's: the cash is gone. */
  lemma BuyCash(b: Broker, order: Order, price: real)
    requires b.costs.Valid() && b.cash > 0.0 && price > 0.0
    requires order.side == BuySide && order.stopLoss.Some? && order.quantity == BuyFill(b.cash, price, b.costs).qty
    ensures Place(b, order, Some(price)).broker.cash == 0.0
    ensures ChargesOf(order.quantity, BuyPrice(price, b.costs), b.costs).fee == BuyFill(b.cash, price, b.costs).fee
  {
  }

  lemma SellKeeps(b: Broker, price: real)
    requires b.costs.Valid() && |b.lots| == 1 && b.lots[0].ticker == SYMBOL
    requires b.cash == 0.0 && b.lots[0].quantity > 0.0 && price > 0.0
    ensures var after := CloseAll(b, b.lots, price);
            && after.lots == [] && after.costs == b.costs
            && after.cash == SellFill(b.lots[0].quantity, price, b.costs).proceeds > 0.0
  {
    var lot := b.lots[0];
    assert b.lots[1..] == [];
    assert FirstLot(b.lots, SYMBOL) == Some(0);
    var next := Closed(b, lot, price).broker;
    assert next.lots == [];
    SaleCash(b, lot, price);
    assert CloseAll(b, b.lots, price) == next;
  }

  lemma BookkeepingKeeps(a: Account, c: Cycle)
    requires c.Valid() && c.bars.Length() > 0 && AtRest(a)
    ensures var a' := Bookkeeping(a, c);
            && a'.broker == a.broker && a'.machine == a.machine
            && (a'.deferEntry ==> a'.lastDay.Some? && (a.deferEntry || FirstLookIntraday(a, c)))
  {
  }

  /** A first look outside the open window comes with an empty replay. */
  lemma FirstLookTradesNothing(a: Account, c: Cycle)
    requires c.Valid() && c.bars.Length() > 0 && FirstLookIntraday(a, c)
    ensures Pending(a, c) == []
  {
  }

  /** Each run leaves the account at rest. A fresh, never-run account has no position. */
  lemma RunKeepsRest(a: Account, c: Cycle)
    requires c.Valid() && AtRest(a) && (a.lastDay.None? ==> a.broker.lots == [] && !a.machine.lockout)
    ensures var a' := LiveRun(a, c).account;
            AtRest(a') && (a'.lastDay.None? ==> a'.broker.lots == [] && !a'.machine.lockout)
  {
    HeldOfRest(a);
    if !NoPrice(c) && c.bars.Length() > 0 {
      var days := Pending(a, c);
      var wasLong := a.machine.long;
      var lotStop := if wasLong then StopLevel(a.broker.lots) else None;
      ReplayKeeps(a.machine, c, days, |days|, wasLong, lotStop);
      var s := ReplayDays(a.machine, c, days, |days|, wasLong, lotStop);
      BookkeepingKeeps(a, c);
      var a1 := Bookkeeping(a, c).(machine := s.machine);
      ChangeKeepsRest(a1, wasLong, s.exitReason, SignalNow(a1, c), c);
    }
  }

  /** The account after the replay and before the trade. */
  ghost predicate Replayed(a: Account, wasLong: bool) {
    && AtRest(a.(machine := Machine(wasLong, a.machine.lockout && !wasLong, false), deferEntry := false))
    && (a.machine.lockout ==> !a.machine.long)
    && !a.machine.stopPending
    && (a.deferEntry ==> !wasLong && !a.machine.lockout && a.lastDay.Some?)
  }

  lemma ChangeKeepsRest(a: Account, wasLong: bool, exitReason: Option<Reason>, signalNow: Option<bool>, c: Cycle)
    requires c.Valid() && c.price.Some? && c.price.value > 0.0 && Replayed(a, wasLong)
    ensures AtRest(SettleChange(a, wasLong, exitReason, signalNow, c).account)
    ensures SettleChange(a, wasLong, exitReason, signalNow, c).account.lastDay == a.lastDay
  {
    if wasLong {
      HeldSingle(a.broker.lots);
      SellKeeps(a.broker, c.price.value);
    } else {
      BuyKeeps(a.broker, c.price.value, c.stopFrac);
    }
  }

  function RunAll(a: Account, cycles: seq<Cycle>): Account
    requires a.broker.costs.Valid() && forall k :: 0 <= k < |cycles| ==> cycles[k].Valid()
    ensures RunAll(a, cycles).broker.costs == a.broker.costs
  {
    if cycles == [] then a
    else LiveRun(RunAll(a, cycles[..|cycles| - 1]), cycles[|cycles| - 1]).account
  }

  /** Every reachable account is at rest: at most one lot, the machine long exactly when it
      is held, no lockout while long, no stop left pending. */
  lemma {:induction false} ReachableAtRest(cash: real, costs: Costs, cycles: seq<Cycle>)
    requires cash > 0.0 && costs.Valid() && forall k :: 0 <= k < |cycles| ==> cycles[k].Valid()
    ensures var a := RunAll(FreshAccount(cash, costs), cycles);
            AtRest(a) && (a.lastDay.None? ==> a.broker.lots == [] && !a.machine.lockout)
    decreases |cycles|
  {
    if cycles != [] {
      ReachableAtRest(cash, costs, cycles[..|cycles| - 1]);
      RunKeepsRest(RunAll(FreshAccount(cash, costs), cycles[..|cycles| - 1]), cycles[|cycles| - 1]);
    }
  }

  // ----- the deferred first entry

  /** A flat account waiting for an open window. */
  ghost predicate Deferred(a: Account) {
    AtRest(a) && a.deferEntry
  }

  /** A fresh book whose newest close is already long, first seen outside the open window. */
  ghost predicate AlreadyLongIntraday(a: Account, c: Cycle) {
    && c.Valid() && AtRest(a) && a.lastDay.None? && a.broker.lots == [] && !a.machine.lockout
    && !NoPrice(c) && !AtDailyOpen(c.nowMs)
    && c.bars.Length() > 0 && c.ready[c.bars.Length() - 1] && c.signal[c.bars.Length() - 1]
  }

  lemma FirstLookDefers(a: Account, c: Cycle)
    requires AlreadyLongIntraday(a, c)
    ensures var r := LiveRun(a, c);
            && Deferred(r.account) && r.account.broker == a.broker && r.actions == []
            && (c.nowMs.Some? ==> r.account.awaitOpenMs == Some(NextDailyOpen(c.nowMs.value)))
  {
    HeldOfRest(a);
    FirstLookTradesNothing(a, c);
  }

  /** While deferred, no run outside the open window trades, whatever it is given. */
  lemma DeferredWaits(a: Account, c: Cycle)
    requires c.Valid() && Deferred(a) && !AtDailyOpen(c.nowMs)
    ensures var r := LiveRun(a, c);
            Deferred(r.account) && r.account.broker == a.broker && r.actions == []
  {
    RunKeepsRest(a, c);
    HeldOfRest(a);
    if !NoPrice(c) && c.bars.Length() > 0 {
      var days := Pending(a, c);
      ReplayKeeps(a.machine, c, days, |days|, false, None);
      BookkeepingKeeps(a, c);
    }
  }

  /** A fresh already-long book never buys outside the open window, over any sequence of
      later runs. */
  lemma {:induction false} FreshLongBookWaits(a: Account, first: Cycle, later: seq<Cycle>)
    requires AlreadyLongIntraday(a, first)
    requires forall k :: 0 <= k < |later| ==> later[k].Valid() && !AtDailyOpen(later[k].nowMs)
    ensures var a1 := LiveRun(a, first).account;
            Deferred(RunAll(a1, later)) && RunAll(a1, later).broker == a.broker
    decreases |later|
  {
    FirstLookDefers(a, first);
    if later != [] {
      FreshLongBookWaits(a, first, later[..|later| - 1]);
      DeferredWaits(RunAll(LiveRun(a, first).account, later[..|later| - 1]), later[|later| - 1]);
    }
  }

  /** Replaying a flat, unlocked book follows the newest warm pending signal. */
  lemma {:induction false} FlatReplayFollows(m: Machine, c: Cycle, days: seq<nat>, k: nat)
    requires c.Valid() && k <= |days| && forall j :: 0 <= j < |days| ==> days[j] < c.bars.Length()
    requires m == Machine(false, false, false)
    ensures var s := ReplayDays(m, c, days, k, false, None);
            && s.machine == Machine(NewestSignal(c, days, k, Some(false)) == Some(true), false, false)
            && s.exitReason == None
  {
    if k > 0 {
      FlatReplayFollows(m, c, days, k - 1);
    }
  }

  lemma {:induction false} NewestSignalDefault(c: Cycle, days: seq<nat>, k: nat, before: Option<bool>)
    requires c.Valid() && k <= |days| && forall j :: 0 <= j < |days| ==> days[j] < c.bars.Length()
    ensures || (NewestSignal(c, days, k, before) == before && NewestSignal(c, days, k, Some(false)) == Some(false))
            || NewestSignal(c, days, k, before) == NewestSignal(c, days, k, Some(false))
  {
    if k > 0 {
      NewestSignalDefault(c, days, k - 1, before);
    }
  }

  lemma {:induction false} NewestPendingIsLast(ts: seq<int>, lastDay: int, k: nat)
    requires k <= |ts| && forall i, j :: 0 <= i < j < |ts| ==> ts[i] < ts[j]
    requires Newer(ts, lastDay, k) != []
    ensures var days := Newer(ts, lastDay, k); days[|days| - 1] == |ts| - 1
    decreases |ts| - k
  {
    if k + 1 < |ts| {
      assert ts[k] > lastDay ==> ts[k + 1] > lastDay;
      NewestPendingIsLast(ts, lastDay, k + 1);
    }
  }

  /** The signal in force at a run: the newest warm day's, pending or not. */
  ghost function InForce(a: Account, c: Cycle): Option<bool>
    requires c.Valid() && c.bars.Length() > 0
  {
    SignalNow(Bookkeeping(a, c), c)
  }

  /** The newest warm pending day, if the replay followed one, is the signal in force. */
  lemma ReplayFollowsTheSignal(a: Account, c: Cycle)
    requires c.Valid() && c.bars.Length() > 0 && a.lastDay.Some?
    requires forall i, j :: 0 <= i < j < |c.bars.ts| ==> c.bars.ts[i] < c.bars.ts[j]
    ensures var days := Pending(a, c);
            NewestSignal(c, days, |days|, Some(false)) == Some(true) ==> InForce(a, c) == Some(true)
  {
    var days := Pending(a, c);
    NewestSignalDefault(c, days, |days|, a.lastSignal);
    if days != [] {
      NewestPendingIsLast(c.bars.ts, a.lastDay.value, 0);
      NewestIsItsOwn(c, days, a.lastSignal);
    }
    hide Newer;
  }

  lemma NewestIsItsOwn(c: Cycle, days: seq<nat>, before: Option<bool>)
    requires c.Valid() && days != [] && forall j :: 0 <= j < |days| ==> days[j] < c.bars.Length()
    ensures var newest := days[|days| - 1];
            c.ready[newest] ==> NewestSignal(c, days, |days|, before) == Some(c.signal[newest])
  {
  }

  /** A run inside an open window, of an account whose entry is deferred, down to its trade. */
  lemma DeferredRunAtOpen(a: Account, c: Cycle)
    requires c.Valid() && Deferred(a) && !NoPrice(c) && c.bars.Length() > 0
    ensures var days := Pending(a, c);
            var long := NewestSignal(c, days, |days|, Some(false)) == Some(true);
            var a1 := Bookkeeping(a, c).(machine := Machine(long, false, false));
            LiveRun(a, c) == SettleChange(a1, false, None, InForce(a, c), c)
  {
    hide SettleChange, Newer, NewestSignal, AtDailyOpen;
    HeldOfRest(a);
    var days := Pending(a, c);
    FlatReplayFollows(a.machine, c, days, |days|);
    hide ReplayDays;
  }

  lemma FlatChange(a: Account, signalNow: Option<bool>, c: Cycle)
    requires c.Valid() && a.broker.costs.Valid() && c.price.Some? && AtDailyOpen(c.nowMs) && a.deferEntry
    requires !a.machine.lockout
    ensures var r := SettleChange(a, false, None, signalNow, c);
            && !r.account.deferEntry && r.account.awaitOpenMs == None && r.signalNow == signalNow
            && r.account.broker == if a.machine.long || signalNow == Some(true)
                                   then BuyAll(a.broker, c.price.value, c.stopFrac).broker else a.broker
  {
    hide BuyAll, AtDailyOpen;
  }

  /** The first run inside an open window settles a deferred entry: the book ends long
      exactly when the signal in force is on, bought at that run's price. */
  lemma DeferredFillsAtOpen(a: Account, c: Cycle)
    requires c.Valid() && Deferred(a) && AtDailyOpen(c.nowMs) && !NoPrice(c) && c.bars.Length() > 0
    requires forall i, j :: 0 <= i < j < |c.bars.ts| ==> c.bars.ts[i] < c.bars.ts[j]
    ensures var r := LiveRun(a, c);
            && !r.account.deferEntry && r.account.awaitOpenMs == None
            && (r.account.broker.lots != [] <==> r.signalNow == Some(true))
            && (r.account.broker.lots != [] ==> r.account.broker == BuyAll(a.broker, c.price.value, c.stopFrac).broker)
  {
    hide LiveRun, SettleChange, NewestSignal, BuyAll, Pending, InForce, AtDailyOpen;
    DeferredRunAtOpen(a, c);
    ReplayFollowsTheSignal(a, c);
    BuyKeeps(a.broker, c.price.value, c.stopFrac);
    var days := Pending(a, c);
    var long := NewestSignal(c, days, |days|, Some(false)) == Some(true);
    BookkeepingDefers(a, c);
    FlatChange(Bookkeeping(a, c).(machine := Machine(long, false, false)), InForce(a, c), c);
  }

  lemma BookkeepingDefers(a: Account, c: Cycle)
    requires c.Valid() && c.bars.Length() > 0 && a.deferEntry
    ensures Bookkeeping(a, c).broker == a.broker && Bookkeeping(a, c).deferEntry
  {
  }
}
