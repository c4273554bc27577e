/** What one live run decides, records and may buy, for any account whatever. */
module LiveRuns {
  import opened Wrappers
  import opened DailyTape
  import opened SignalExit
  import opened PaperBook
  import opened LiveAccount

  // ----- the open window

  /** The open window is the first 300 seconds of a UTC day, both ends included. */
  lemma AtDailyOpenIff(nowMs: int)
    ensures AtDailyOpen(Some(nowMs)) <==>
            exists day: int :: day * DAY_MS <= nowMs <= day * DAY_MS + 300_000
  {
    var day := nowMs / DAY_MS;
    assert nowMs == day * DAY_MS + nowMs % DAY_MS;
    if d: int :| d * DAY_MS <= nowMs <= d * DAY_MS + 300_000 {
      assert d == day;
    }
  }

  // ----- the position it starts from

  /** The stored flag does not matter: a run takes the position from the broker. */
  lemma TheBrokerDecidesThePosition(a: Account, c: Cycle, flag: bool)
    requires c.Valid() && a.broker.costs.Valid() && !NoPrice(c)
    ensures LiveRun(a.(machine := a.machine.(long := flag)), c) == LiveRun(a, c)
    ensures c.bars.Length() == 0 ==> (LiveRun(a, c).account.machine.long <==> HeldSymbol(a.broker) != [])
  {
    assert Opened(a.(machine := a.machine.(long := flag))) == Opened(a);
    hide ReplayDays, SettleChange, Bookkeeping, SignalNow, Pending, Held;
  }

  /** The stop in force is that of the symbol's first lot that has one. */
  lemma {:induction false} StopLevelIsTheFirst(lots: seq<OpenPosition>)
    ensures match StopLevel(lots)
            case None => forall k :: 0 <= k < |lots| ==> !HasStop(lots[k])
            case Some(x) =>
              exists k :: 0 <= k < |lots| && HasStop(lots[k]) && x == lots[k].stopLoss
                          && forall j :: 0 <= j < k ==> !HasStop(lots[j])
  {
    if lots != [] {
      var rest := lots[1..];
      StopLevelIsTheFirst(rest);
      if !HasStop(lots[0]) {
        assert forall k :: 1 <= k < |lots| ==> lots[k] == rest[k - 1];
        if StopLevel(lots).Some? {
          var x := StopLevel(lots).value;
          var k :| 0 <= k < |rest| && HasStop(rest[k]) && x == rest[k].stopLoss
                   && forall j :: 0 <= j < k ==> !HasStop(rest[j]);
          assert HasStop(lots[k + 1]);
        }
      }
    }
  }

  predicate HasStop(lot: OpenPosition) {
    lot.ticker == SYMBOL && lot.stopLoss > 0.0
  }

  // ----- what it records

  /** The days a run decides: the pending ones, or only the newest on a first look outside the
      open window. */
  function DecidedDays(a: Account, c: Cycle): (days: seq<nat>)
    requires c.Valid() && c.bars.Length() > 0
    ensures forall j :: 0 <= j < |days| ==> days[j] < c.bars.Length()
  {
    if FirstLookIntraday(a, c) then [c.bars.Length() - 1] else Pending(a, c)
  }

  /** `x` is the signal of the newest warm one of these days, or `before` when none is warm. */
  ghost predicate NewestWarm(c: Cycle, days: seq<nat>, before: Option<bool>, x: Option<bool>)
    requires c.Valid() && forall j :: 0 <= j < |days| ==> days[j] < c.bars.Length()
  {
    || (x == before && forall j :: 0 <= j < |days| ==> !c.ready[days[j]])
    || exists j :: 0 <= j < |days| && WarmLast(c, days, j, x)
  }

  ghost predicate WarmLast(c: Cycle, days: seq<nat>, j: nat, x: Option<bool>)
    requires c.Valid() && j < |days| && forall k :: 0 <= k < |days| ==> days[k] < c.bars.Length()
  {
    c.ready[days[j]] && x == Some(c.signal[days[j]]) && forall k :: j < k < |days| ==> !c.ready[days[k]]
  }

  lemma {:induction false} NewestIsWarm(c: Cycle, days: seq<nat>, k: nat, before: Option<bool>)
    requires c.Valid() && k <= |days| && forall j :: 0 <= j < |days| ==> days[j] < c.bars.Length()
    requires forall j :: k <= j < |days| ==> !c.ready[days[j]]
    ensures NewestWarm(c, days, before, NewestSignal(c, days, k, before))
  {
    if k > 0 {
      if c.ready[days[k - 1]] {
        assert WarmLast(c, days, k - 1, Some(c.signal[days[k - 1]]));
      } else {
        NewestIsWarm(c, days, k - 1, before);
      }
    }
  }

  lemma SettleKeepsRecord(
    a: Account, wasLong: bool, exitReason: Option<Reason>, signalNow: Option<bool>, c: Cycle)
    requires c.Valid() && a.broker.costs.Valid() && c.price.Some?
    ensures var r := SettleChange(a, wasLong, exitReason, signalNow, c);
            r.account.lastDay == a.lastDay && r.account.lastSignal == a.lastSignal && r.signalNow == signalNow
  {
    hide CloseAll, BuyAll, Held, SoldLast, AtDailyOpen;
  }

  lemma RecordOf(a: Account, c: Cycle)
    requires c.Valid() && c.bars.Length() > 0
    ensures var days, a' := DecidedDays(a, c), Bookkeeping(a, c);
            && a'.lastDay == (if days == [] then a.lastDay else Some(c.bars.ts[days[|days| - 1]]))
            && NewestWarm(c, days, a.lastSignal, a'.lastSignal)
  {
    hide NewestSignal, Newer;
    var n := c.bars.Length();
    if FirstLookIntraday(a, c) {
      assert c.ready[n - 1] ==> WarmLast(c, [n - 1], 0, Some(c.signal[n - 1]));
    } else {
      var days := Pending(a, c);
      NewestIsWarm(c, days, |days|, a.lastSignal);
      NothingNoted(c, a.lastSignal);
    }
  }

  lemma NothingNoted(c: Cycle, before: Option<bool>)
    requires c.Valid()
    ensures NewestSignal(c, [], 0, before) == before
  {
  }

  /** A run notes the newest day it decided and the signal of the newest warm one. The signal it
      goes by is the newest day's when that is warm, and else the one noted. */
  lemma WhatARunNotes(a: Account, c: Cycle)
    requires c.Valid() && a.broker.costs.Valid() && !NoPrice(c) && c.bars.Length() > 0
    ensures var r, days, n := LiveRun(a, c), DecidedDays(a, c), c.bars.Length();
            && r.account.lastDay == (if days == [] then a.lastDay else Some(c.bars.ts[days[|days| - 1]]))
            && NewestWarm(c, days, a.lastSignal, r.account.lastSignal)
            && r.signalNow == if c.ready[n - 1] then Some(c.signal[n - 1]) else r.account.lastSignal
  {
    hide ReplayDays, SettleChange, Bookkeeping, NewestWarm, StopLevel, Held, AtDailyOpen, Newer, NewestSignal;
    var o := Opened(a);
    var days := Pending(o, c);
    var wasLong := o.machine.long;
    var lotStop := if wasLong then StopLevel(o.broker.lots) else None;
    var s := ReplayDays(o.machine, c, days, |days|, wasLong, lotStop);
    var a1 := Bookkeeping(o, c).(machine := s.machine);
    RecordOf(o, c);
    BookkeepingKeepsBroker(o, c);
    SettleKeepsRecord(a1, wasLong, s.exitReason, SignalNow(a1, c), c);
    assert DecidedDays(o, c) == DecidedDays(a, c);
  }

  lemma BookkeepingKeepsBroker(a: Account, c: Cycle)
    requires c.Valid() && c.bars.Length() > 0
    ensures Bookkeeping(a, c).broker == a.broker
  {
    hide NewestSignal, Pending;
  }

  // ----- when it may buy

  ghost predicate Enters(r: LiveResult) {
    exists k :: 0 <= k < |r.actions| && r.actions[k].Entered?
  }

  lemma {:induction false} FlatReplayIsFree(m: Machine, c: Cycle, days: seq<nat>, k: nat)
    requires c.Valid() && k <= |days| && forall j :: 0 <= j < |days| ==> days[j] < c.bars.Length()
    requires !m.long
    ensures var s := ReplayDays(m, c, days, k, false, None); !(s.machine.long && s.machine.lockout)
  {
    if k > 0 {
      FlatReplayIsFree(m, c, days, k - 1);
    }
  }

  lemma SettleBuysFree(
    a: Account, wasLong: bool, exitReason: Option<Reason>, signalNow: Option<bool>, c: Cycle)
    requires c.Valid() && a.broker.costs.Valid() && c.price.Some?
    requires wasLong <==> HeldSymbol(a.broker) != []
    requires !wasLong ==> !(a.machine.long && a.machine.lockout)
    ensures var r := SettleChange(a, wasLong, exitReason, signalNow, c);
            Enters(r) ==> !a.machine.lockout && !r.account.machine.lockout && HeldSymbol(a.broker) == []
  {
    hide CloseAll, BuyAll, SoldLast, AtDailyOpen, Held;
    if HeldSymbol(a.broker) != [] {
      HeldAreLots(a.broker.lots);
      var reason := if exitReason.Some? then exitReason.value else Signal;
      SaleIsNoEntry(HeldSymbol(a.broker), reason, c.price.value, a.broker.costs);
    }
  }

  lemma SaleIsNoEntry(held: seq<OpenPosition>, reason: Reason, price: real, costs: Costs)
    requires costs.Valid() && held != []
    ensures !SoldLast(held, reason, price, costs).Entered?
  {
  }

  lemma HeldAreLots(lots: seq<OpenPosition>)
    ensures Held(lots, SYMBOL) != [] ==> lots != []
  {
  }

  /** No run buys while the symbol is held or the account is locked out, whatever state it was
      handed. */
  lemma BuysOnlyWhenFlatAndFree(a: Account, c: Cycle)
    requires c.Valid() && a.broker.costs.Valid() && Enters(LiveRun(a, c))
    ensures HeldSymbol(a.broker) == [] && !LiveRun(a, c).account.machine.lockout
  {
    hide ReplayDays, SettleChange, Bookkeeping, StopLevel, Held, AtDailyOpen, Newer, NewestSignal;
    if !NoPrice(c) && c.bars.Length() > 0 {
      var o := Opened(a);
      var days := Pending(o, c);
      var wasLong := o.machine.long;
      var lotStop := if wasLong then StopLevel(o.broker.lots) else None;
      var s := ReplayDays(o.machine, c, days, |days|, wasLong, lotStop);
      var a1 := Bookkeeping(o, c).(machine := s.machine);
      BookkeepingKeepsBroker(o, c);
      if !wasLong {
        FlatReplayIsFree(o.machine, c, days, |days|);
      }
      SettleBuysFree(a1, wasLong, s.exitReason, SignalNow(a1, c), c);
    }
  }

  // ----- how many lots it opens

  lemma {:induction false} SalesOpenNone(b: Broker, held: seq<OpenPosition>, price: real)
    requires b.costs.Valid()
    ensures CloseAll(b, held, price).nextLot == b.nextLot
    decreases |held|
  {
    if held != [] {
      var next := Closed(b, held[0], price).broker;
      assert next.nextLot == b.nextLot;
      hide Closed;
      SalesOpenNone(next, held[1..], price);
    }
  }

  lemma BuyOpensOne(b: Broker, price: real, stopFrac: real)
    requires b.costs.Valid()
    ensures var t := BuyAll(b, price, stopFrac);
            t.broker.nextLot == b.nextLot + if t.action.Entered? then 1 else 0
  {
    hide BuyFill;
  }

  lemma SettleOpens(
    a: Account, wasLong: bool, exitReason: Option<Reason>, signalNow: Option<bool>, c: Cycle)
    requires c.Valid() && a.broker.costs.Valid() && c.price.Some?
    ensures var r := SettleChange(a, wasLong, exitReason, signalNow, c);
            r.account.broker.nextLot == a.broker.nextLot + if Enters(r) then 1 else 0
  {
    hide CloseAll, BuyAll, SoldLast, AtDailyOpen, Held;
    var price := c.price.value;
    BuyOpensOne(a.broker, price, c.stopFrac);
    SalesOpenNone(a.broker, HeldSymbol(a.broker), price);
    var r := SettleChange(a, wasLong, exitReason, signalNow, c);
    if HeldSymbol(a.broker) != [] {
      var reason := if exitReason.Some? then exitReason.value else Signal;
      SaleIsNoEntry(HeldSymbol(a.broker), reason, price, a.broker.costs);
    }
    assert r.actions != [] ==> |r.actions| == 1 && (Enters(r) <==> r.actions[0].Entered?);
  }

  /** A run gives out one lot number when it buys and none when it does not. */
  lemma RunOpensOneLotAtMost(a: Account, c: Cycle)
    requires c.Valid() && a.broker.costs.Valid()
    ensures var r := LiveRun(a, c);
            r.account.broker.nextLot == a.broker.nextLot + if Enters(r) then 1 else 0
  {
    hide ReplayDays, SettleChange, Bookkeeping, StopLevel, Held, AtDailyOpen, Newer, NewestSignal;
    if !NoPrice(c) && c.bars.Length() > 0 {
      var o := Opened(a);
      var days := Pending(o, c);
      var wasLong := o.machine.long;
      var lotStop := if wasLong then StopLevel(o.broker.lots) else None;
      var s := ReplayDays(o.machine, c, days, |days|, wasLong, lotStop);
      var a1 := Bookkeeping(o, c).(machine := s.machine);
      BookkeepingKeepsBroker(o, c);
      SettleOpens(a1, wasLong, s.exitReason, SignalNow(a1, c), c);
    }
  }
}
