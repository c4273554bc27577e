/** A live run that has missed days does what a run on each of them would have done. */
module LiveReplay {
  import opened Ordering
  import opened Wrappers
  import opened DailyTape
  import opened SignalExit
  import opened PaperBook
  import opened LiveAccount
  import opened LiveInvariants

  // ----- an account that is on, and days that all stay on

  /** The day's low is at or below the stop the lot was bought with, if it has one. */
  predicate Reaches(c: Cycle, i: nat, stopLoss: real)
    requires c.Valid() && i < c.bars.Length()
  {
    stopLoss > 0.0 && c.bars.low[i] <= stopLoss
  }

  /** One of the first `k` of these days does. */
  ghost predicate AnyReaches(c: Cycle, days: seq<nat>, k: nat, stopLoss: real)
    requires c.Valid() && k <= |days| && forall j :: 0 <= j < |days| ==> days[j] < c.bars.Length()
  {
    exists j :: 0 <= j < k && Reaches(c, days[j], stopLoss)
  }

  ghost predicate AllOn(c: Cycle, days: seq<nat>)
    requires c.Valid() && forall j :: 0 <= j < |days| ==> days[j] < c.bars.Length()
  {
    forall j :: 0 <= j < |days| ==> c.ready[days[j]] && c.signal[days[j]]
  }

  lemma StopOfOneLot(a: Account)
    requires AtRest(a) && a.broker.lots != []
    ensures var stopLoss := a.broker.lots[0].stopLoss;
            StopLevel(a.broker.lots) == if stopLoss > 0.0 then Some(stopLoss) else None
  {
    assert StopLevel(a.broker.lots[1..]) == None;
  }

  /** The replay while every day is on: long until a day breaches, its stop pending on that day
      unless it is the newest, and locked out from then on. */
  lemma {:induction false} OnDaysReplay(c: Cycle, days: seq<nat>, k: nat, stopLoss: real)
    requires c.Valid() && k <= |days| && forall j :: 0 <= j < |days| ==> days[j] < c.bars.Length()
    requires AllOn(c, days)
    ensures var lotStop := if stopLoss > 0.0 then Some(stopLoss) else None;
            ReplayDays(Machine(true, false, false), c, days, k, true, lotStop) ==
            if !AnyReaches(c, days, k, stopLoss) then Replay(Machine(true, false, false), None)
            else if k < |days| && !AnyReaches(c, days, k - 1, stopLoss) then Replay(Machine(true, false, true), None)
            else Replay(Machine(false, true, false), Some(SafetyStop))
  {
    if k > 0 {
      OnDaysReplay(c, days, k - 1, stopLoss);
      var i := days[k - 1];
      assert c.ready[i] && c.signal[i];
      assert AnyReaches(c, days, k, stopLoss) <==> AnyReaches(c, days, k - 1, stopLoss) || Reaches(c, i, stopLoss);
      assert k > 1 && AnyReaches(c, days, k - 2, stopLoss) ==> AnyReaches(c, days, k - 1, stopLoss);
      hide AnyReaches, AllOn;
    }
  }

  /** A held account that comes back after any number of missed days, all of them warm and on,
      sells at once, locks out and names the safety stop if one of them reached its stop. If none
      did it does nothing. */
  lemma HeldThroughMissedDays(a: Account, c: Cycle)
    requires c.Valid() && AtRest(a) && a.broker.lots != [] && a.lastDay.Some?
    requires !NoPrice(c) && c.bars.Length() > 0 && AllOn(c, Pending(a, c))
    ensures var r, days := LiveRun(a, c), Pending(a, c);
            if AnyReaches(c, days, |days|, a.broker.lots[0].stopLoss) then
              && r.account.broker.lots == [] && r.account.machine == Machine(false, true, false)
              && r.account.broker.cash ==
                 SellFill(a.broker.lots[0].quantity, c.price.value, a.broker.costs).proceeds
              && r.actions == [SoldLast(a.broker.lots, SafetyStop, c.price.value, a.broker.costs)]
            else
              r.account.broker == a.broker && r.account.machine == a.machine && r.actions == []
  {
    hide Newer, ReplayDays, AnyReaches, AllOn, SoldLast, AtDailyOpen, NewestSignal;
    var days := Pending(a, c);
    HeldOfRest(a);
    StopOfOneLot(a);
    OnDaysReplay(c, days, |days|, a.broker.lots[0].stopLoss);
    SellKeeps(a.broker, c.price.value);
    BookkeepingKeeps(a, c);
  }

  // ----- an account that is flat

  /** One of the first `k` of these days is warm and off. */
  ghost predicate AnyOff(c: Cycle, days: seq<nat>, k: nat)
    requires c.Valid() && k <= |days| && forall j :: 0 <= j < |days| ==> days[j] < c.bars.Length()
  {
    exists j :: 0 <= j < k && c.ready[days[j]] && !c.signal[days[j]]
  }

  lemma {:induction false} FlatReplay(c: Cycle, days: seq<nat>, k: nat, lockout: bool)
    requires c.Valid() && k <= |days| && forall j :: 0 <= j < |days| ==> days[j] < c.bars.Length()
    ensures var locked := lockout && !AnyOff(c, days, k);
            var on := NewestSignal(c, days, k, Some(false)) == Some(true);
            ReplayDays(Machine(false, lockout, false), c, days, k, false, None) ==
            Replay(Machine(on && !locked, locked, false), None)
  {
    if k > 0 {
      FlatReplay(c, days, k - 1, lockout);
      var i := days[k - 1];
      assert AnyOff(c, days, k) <==> AnyOff(c, days, k - 1) || (c.ready[i] && !c.signal[i]);
      hide AnyOff;
    }
  }

  /** A flat account that comes back after any missed days buys if and only if the newest warm one
      of them is on, and, after a stop, one of them was off. A lockout lasts until one is. */
  lemma FlatThroughMissedDays(a: Account, c: Cycle)
    requires c.Valid() && AtRest(a) && a.broker.lots == [] && !a.deferEntry && a.lastDay.Some?
    requires !NoPrice(c) && c.bars.Length() > 0
    ensures var r, days := LiveRun(a, c), Pending(a, c);
            var locked := a.machine.lockout && !AnyOff(c, days, |days|);
            if NewestSignal(c, days, |days|, Some(false)) == Some(true) && !locked then
              && |r.actions| == 1 && r.actions[0].Entered?
              && r.account.broker == BuyAll(a.broker, c.price.value, c.stopFrac).broker
              && r.account.machine == Machine(true, false, false)
            else r.account.broker == a.broker && r.account.machine == Machine(false, locked, false) && r.actions == []
  {
    hide Newer, ReplayDays, AnyOff, AtDailyOpen, NewestSignal, BuyAll;
    var days := Pending(a, c);
    HeldOfRest(a);
    FlatReplay(c, days, |days|, a.machine.lockout);
    BuyKeeps(a.broker, c.price.value, c.stopFrac);
    BookkeepingKeeps(a, c);
  }

  // ----- any missed days

  /** What the account would have been given at the close of day `i`, at this run's price and time. */
  function Upto(c: Cycle, i: nat): (c': Cycle)
    requires c.Valid() && i < c.bars.Length()
    ensures c'.Valid() && c'.bars.Length() == i + 1
  {
    c.(bars := c.bars.Take(i + 1), signal := c.signal[..i + 1], ready := c.ready[..i + 1])
  }

  /** The account after a run on each of the first `k` of these days, and all those runs did. */
  function DayByDay(a: Account, c: Cycle, days: seq<nat>, k: nat): (r: LiveResult)
    requires c.Valid() && a.broker.costs.Valid()
    requires k <= |days| && forall j :: 0 <= j < |days| ==> days[j] < c.bars.Length()
    ensures r.account.broker.costs == a.broker.costs
  {
    if k == 0 then LiveResult(a, [], None)
    else
      var before := DayByDay(a, c, days, k - 1);
      var r := LiveRun(before.account, Upto(c, days[k - 1]));
      r.(actions := before.actions + r.actions)
  }

  /** None of these runs entered. */
  ghost predicate NoneEnters(r: LiveResult) {
    forall k :: 0 <= k < |r.actions| ==> !r.actions[k].Entered?
  }

  /** Days are pending from one on, that is from `first` on. */
  lemma {:induction false} PendingIsTail(ts: seq<int>, lastDay: int, first: nat, k: nat)
    requires k <= |ts| && first <= |ts|
    requires forall i :: 0 <= i < |ts| ==> (ts[i] > lastDay <==> first <= i)
    ensures var days := Newer(ts, lastDay, k);
            && |days| == |ts| - (if k < first then first else k)
            && forall j :: 0 <= j < |days| ==> days[j] == |ts| - |days| + j
    decreases |ts| - k
  {
    if k < |ts| {
      PendingIsTail(ts, lastDay, first, k + 1);
    }
  }

  lemma {:induction false} FirstNewer(ts: seq<int>, lastDay: int) returns (first: nat)
    requires Ascending(ts)
    ensures first <= |ts| && forall i :: 0 <= i < |ts| ==> (ts[i] > lastDay <==> first <= i)
  {
    if ts == [] || ts[|ts| - 1] <= lastDay {
      return |ts|;
    }
    first := FirstNewer(ts[..|ts| - 1], lastDay);
    forall i | 0 <= i < |ts| ensures ts[i] > lastDay <==> first <= i {
      assert i < |ts| - 1 ==> ts[..|ts| - 1][i] == ts[i];
    }
  }

  /** The pending days follow one another to the newest, and between two runs on them exactly
      the later one is pending. */
  lemma PendingOneByOne(ts: seq<int>, lastDay: int, k: nat)
    requires Ascending(ts) && k < |Newer(ts, lastDay, 0)|
    ensures var days := Newer(ts, lastDay, 0);
            var decided := if k == 0 then lastDay else ts[days[k - 1]];
            Newer(ts[..days[k] + 1], decided, 0) == [days[k]]
  {
    var days := Newer(ts, lastDay, 0);
    var first := FirstNewer(ts, lastDay);
    PendingIsTail(ts, lastDay, first, 0);
    hide Newer;
    var i := days[k];
    assert i == first + k;
    var decided := if k == 0 then lastDay else ts[days[k - 1]];
    OnlyLastIsPending(ts, i, decided);
  }

  lemma OnlyLastIsPending(ts: seq<int>, i: nat, decided: int)
    requires i < |ts| && forall j :: 0 <= j <= i ==> (ts[j] > decided <==> i <= j)
    ensures Newer(ts[..i + 1], decided, 0) == [i]
  {
    hide Newer;
    PendingIsTail(ts[..i + 1], decided, i, 0);
  }

  // ----- one day

  lemma RunIsReplayThenTrade(a: Account, c: Cycle)
    requires c.Valid() && AtRest(a) && a.lastDay.Some? && !NoPrice(c) && c.bars.Length() > 0
    ensures var wasLong := a.machine.long;
            var lotStop := if wasLong then StopLevel(a.broker.lots) else None;
            var s := ReplayDays(a.machine, c, Pending(a, c), |Pending(a, c)|, wasLong, lotStop);
            var a1 := Bookkeeping(a, c).(machine := s.machine);
            LiveRun(a, c) == SettleChange(a1, wasLong, s.exitReason, SignalNow(a1, c), c)
  {
    HeldOfRest(a);
    hide AtRest, SettleChange, StopLevel, Newer, NewestSignal, ReplayDays, AtDailyOpen;
  }

  /** The account with the days up to this one decided. */
  function Noted(a: Account, c: Cycle, i: nat, lastSignal: Option<bool>): Account
    requires c.Valid() && i < c.bars.Length()
  {
    a.(lastDay := Some(c.bars.ts[i]), lastSignal := lastSignal)
  }

  function SignalAfter(c: Cycle, i: nat, before: Option<bool>): Option<bool>
    requires c.Valid() && i < c.bars.Length()
  {
    if c.ready[i] then Some(c.signal[i]) else before
  }

  /** The machine after a day that finds no position. */
  function Decided(m: Machine, c: Cycle, i: nat): Machine
    requires c.Valid() && i < c.bars.Length()
  {
    if c.ready[i] then Stepped(m, c.signal[i]) else m
  }

  lemma BookkeepingOfOne(a: Account, c: Cycle, i: nat)
    requires c.Valid() && c.bars.Length() == i + 1 && a.lastDay.Some? && Pending(a, c) == [i]
    ensures Bookkeeping(a, c) == Noted(a, c, i, SignalAfter(c, i, a.lastSignal))
  {
    hide Newer;
    assert NewestSignal(c, [i], 0, a.lastSignal) == a.lastSignal;
  }

  /** What a trade does to a book without a deferred entry, when it does not buy. */
  lemma SettlePlain(a: Account, wasLong: bool, exitReason: Option<Reason>, signalNow: Option<bool>, c: Cycle)
    requires c.Valid() && a.broker.costs.Valid() && c.price.Some? && !a.deferEntry
    requires wasLong ==> HeldSymbol(a.broker) == a.broker.lots != []
    requires a.machine.long ==> wasLong
    ensures var r := SettleChange(a, wasLong, exitReason, signalNow, c);
            var reason := if exitReason.Some? then exitReason.value else Signal;
            && r.account == (if wasLong && !a.machine.long
                             then a.(broker := CloseAll(a.broker, a.broker.lots, c.price.value)) else a)
            && r.actions == (if wasLong && !a.machine.long
                             then [SoldLast(a.broker.lots, reason, c.price.value, a.broker.costs)] else [])
  {
    hide Held, CloseAll, SoldLast, AtDailyOpen, BuyAll;
  }

  lemma SettleEnters(a: Account, signalNow: Option<bool>, c: Cycle)
    requires c.Valid() && a.broker.costs.Valid() && !NoPrice(c) && !a.deferEntry
    requires a.broker.lots == [] && a.broker.cash > 0.0 && a.machine.long
    ensures var r := SettleChange(a, false, None, signalNow, c);
            |r.actions| == 1 && r.actions[0].Entered?
  {
    BuyKeeps(a.broker, c.price.value, c.stopFrac);
    hide BuyAll, AtDailyOpen;
  }

  /** One day for a flat account: it enters, or only its machine moves. */
  lemma FlatDay(a: Account, c: Cycle, i: nat)
    requires c.Valid() && AtRest(a) && !a.deferEntry && a.lastDay.Some? && !NoPrice(c)
    requires c.bars.Length() == i + 1 && Pending(a, c) == [i] && a.broker.lots == []
    ensures var r, m := LiveRun(a, c), Decided(a.machine, c, i);
            if m.long then |r.actions| == 1 && r.actions[0].Entered?
            else
              && r.account == Noted(a, c, i, SignalAfter(c, i, a.lastSignal)).(machine := m)
              && r.actions == []
  {
    RunIsReplayThenTrade(a, c);
    BookkeepingOfOne(a, c, i);
    assert ReplayDays(a.machine, c, [i], 0, false, None) == Replay(a.machine, None);
    var s := Replay(Decided(a.machine, c, i), None);
    assert ReplayDays(a.machine, c, [i], 1, false, None) == s;
    hide LiveRun, SettleChange, Pending, Bookkeeping, SignalNow, ReplayDays;
    var a1 := Bookkeeping(a, c).(machine := s.machine);
    if s.machine.long {
      SettleEnters(a1, SignalNow(a1, c), c);
    } else {
      SettlePlain(a1, false, None, SignalNow(a1, c), c);
    }
  }

  /** How a day ends for an account that is on. */
  datatype Ending = HoldsOn | TurnsOff | Breaches

  function EndingOf(c: Cycle, i: nat, stopLoss: real): Ending
    requires c.Valid() && i < c.bars.Length()
  {
    if c.ready[i] && !c.signal[i] then TurnsOff else if Reaches(c, i, stopLoss) then Breaches else HoldsOn
  }

  function MachineAfter(e: Ending): Machine {
    Machine(e.HoldsOn?, e.Breaches?, false)
  }

  function ReasonFor(e: Ending): Reason {
    if e.Breaches? then SafetyStop else Signal
  }

  /** The account with its lots sold. */
  function SoldOut(a: Account, price: real): Account
    requires a.broker.costs.Valid()
  {
    a.(broker := CloseAll(a.broker, a.broker.lots, price))
  }

  lemma HeldReplay(c: Cycle, i: nat, stopLoss: real)
    requires c.Valid() && i < c.bars.Length()
    ensures var lotStop, e := if stopLoss > 0.0 then Some(stopLoss) else None, EndingOf(c, i, stopLoss);
            ReplayDays(Machine(true, false, false), c, [i], 1, true, lotStop) ==
            Replay(MachineAfter(e), if e.Breaches? then Some(SafetyStop) else None)
  {
    var m, lotStop := Machine(true, false, false), if stopLoss > 0.0 then Some(stopLoss) else None;
    assert ReplayDays(m, c, [i], 0, true, lotStop) == Replay(m, None);
  }

  /** One day for an account that is on, in its signal and its low. */
  lemma HeldDay(a: Account, c: Cycle, i: nat)
    requires c.Valid() && AtRest(a) && a.lastDay.Some? && !NoPrice(c)
    requires c.bars.Length() == i + 1 && Pending(a, c) == [i] && a.broker.lots != []
    ensures var r, e := LiveRun(a, c), EndingOf(c, i, a.broker.lots[0].stopLoss);
            var a1 := Noted(a, c, i, SignalAfter(c, i, a.lastSignal)).(machine := MachineAfter(e));
            && r.account == (if e.HoldsOn? then a1 else SoldOut(a1, c.price.value))
            && r.actions == (if e.HoldsOn? then []
                             else [SoldLast(a.broker.lots, ReasonFor(e), c.price.value, a.broker.costs)])
  {
    RunIsReplayThenTrade(a, c);
    BookkeepingOfOne(a, c, i);
    HeldReplay(c, i, a.broker.lots[0].stopLoss);
    StopOfOneLot(a);
    HeldOfRest(a);
    hide LiveRun, SettleChange, Pending, Bookkeeping, SignalNow, ReplayDays, CloseAll, SoldLast, StopLevel, Held;
    var e := EndingOf(c, i, a.broker.lots[0].stopLoss);
    var a1 := Bookkeeping(a, c).(machine := MachineAfter(e));
    SettlePlain(a1, true, if e.Breaches? then Some(SafetyStop) else None, SignalNow(a1, c), c);
  }

  // ----- day by day and at once

  /** Where an account is in the replay of its missed days: never on; on; breached on the day
      before; out, for this reason. */
  datatype Phase = Flat | On | Breached | Out(reason: Reason)

  /** What the runs on each day have made of the account, and what the replay has made of its
      machine. Between a breach and the next day the runs have sold and the replay has not. */
  ghost predicate InStep(a: Account, price: real, phase: Phase, replay: Replay, r: LiveResult)
    requires a.broker.costs.Valid()
  {
    && AtRest(r.account) && r.account.broker.costs == a.broker.costs
    && match phase
       case Flat =>
         && a.broker.lots == [] && r.account.broker == a.broker && r.actions == []
         && replay == Replay(r.account.machine, None)
       case On =>
         && a.broker.lots != [] && r.account.broker == a.broker && r.actions == []
         && r.account.machine == Machine(true, false, false) && replay == Replay(r.account.machine, None)
       case Breached =>
         && SoldFor(a, price, SafetyStop, r)
         && r.account.machine == Machine(false, true, false) && replay == Replay(Machine(true, false, true), None)
       case Out(reason) =>
         && SoldFor(a, price, reason, r)
         && replay.machine == r.account.machine
         && reason == if replay.exitReason.Some? then replay.exitReason.value else Signal
  }

  ghost predicate SoldFor(a: Account, price: real, reason: Reason, r: LiveResult)
    requires a.broker.costs.Valid()
  {
    && a.broker.lots != [] && r.account.broker == CloseAll(a.broker, a.broker.lots, price)
    && r.account.broker.lots == [] && r.actions == [SoldLast(a.broker.lots, reason, price, a.broker.costs)]
  }

  /** The phase after one more day. */
  function NextPhase(phase: Phase, c: Cycle, i: nat, newest: bool, stopLoss: real): Phase
    requires c.Valid() && i < c.bars.Length()
  {
    match phase
    case Flat => Flat
    case On =>
      (match EndingOf(c, i, stopLoss)
       case HoldsOn => On
       case TurnsOff => Out(Signal)
       case Breaches => if newest then Out(SafetyStop) else Breached)
    case Breached => Out(SafetyStop)
    case Out(reason) => Out(reason)
  }

  /** The replay of one more day, phase by phase; after an exit the machine must not come back. */
  lemma PhaseReplay(m: Machine, exitReason: Option<Reason>, c: Cycle, i: nat, newest: bool, stopLoss: real)
    requires c.Valid() && i < c.bars.Length()
    ensures var lotStop := if stopLoss > 0.0 then Some(stopLoss) else None;
            && ReplayDay(Replay(m, exitReason), c, i, newest, false, None) == Replay(Decided(m, c, i), exitReason)
            && (!m.stopPending && !Decided(m, c, i).long ==>
                  ReplayDay(Replay(m, exitReason), c, i, newest, true, lotStop) == Replay(Decided(m, c, i), exitReason))
            && ReplayDay(Replay(Machine(true, false, true), None), c, i, newest, true, lotStop) ==
               Replay(Decided(Machine(false, true, false), c, i), Some(SafetyStop))
            && (var e := EndingOf(c, i, stopLoss);
                ReplayDay(Replay(Machine(true, false, false), None), c, i, newest, true, lotStop) ==
                if e.Breaches? && !newest then Replay(Machine(true, false, true), None)
                else Replay(MachineAfter(e), if e.Breaches? then Some(SafetyStop) else None))
  {
  }

  /** What the run on one more day needs to find. */
  ghost predicate Resumes(r: LiveResult, c: Cycle, i: nat) {
    && c.Valid() && i < c.bars.Length() && !NoPrice(c)
    && AtRest(r.account) && !r.account.deferEntry && r.account.lastDay.Some?
    && Pending(r.account, Upto(c, i)) == [i] && NoneEnters(LiveRun(r.account, Upto(c, i)))
  }

  /** A result and what the run on one more day adds to it. */
  function OneMore(r: LiveResult, c: Cycle, i: nat): LiveResult
    requires c.Valid() && i < c.bars.Length() && r.account.broker.costs.Valid()
  {
    var next := LiveRun(r.account, Upto(c, i));
    next.(actions := r.actions + next.actions)
  }

  /** Day `i` is the same day in both. */
  lemma UptoSees(a: Account, c: Cycle, i: nat, stopLoss: real)
    requires c.Valid() && i < c.bars.Length()
    ensures var c' := Upto(c, i);
            && EndingOf(c', i, stopLoss) == EndingOf(c, i, stopLoss) && c'.price == c.price
            && Decided(a.machine, c', i) == Decided(a.machine, c, i)
            && Noted(a, c', i, SignalAfter(c', i, a.lastSignal)) == Noted(a, c, i, SignalAfter(c, i, a.lastSignal))
  {
    hide Stepped;
  }

  lemma ResumesAtRest(r: LiveResult, c: Cycle, i: nat)
    requires Resumes(r, c, i)
    ensures c.Valid() && i < c.bars.Length() && !NoPrice(c)
    ensures AtRest(r.account) && r.account.broker.costs.Valid() && !r.account.deferEntry && r.account.lastDay.Some?
    ensures AtRest(LiveRun(r.account, Upto(c, i)).account) && NoneEnters(LiveRun(r.account, Upto(c, i)))
    ensures Pending(r.account, Upto(c, i)) == [i] && !NoPrice(Upto(c, i))
  {
    RunKeepsRest(r.account, Upto(c, i));
    hide LiveRun, Pending;
  }

  /** The account after one more day, its machine and broker aside. */
  ghost predicate NotedDay(before: Account, after: Account, c: Cycle, i: nat)
    requires c.Valid() && i < c.bars.Length()
  {
    after == Noted(before, c, i, SignalAfter(c, i, before.lastSignal))
             .(machine := after.machine, broker := after.broker)
  }

  /** A run on one more day that finds no position, and does not enter. */
  lemma FlatOneMore(r: LiveResult, c: Cycle, i: nat)
    requires Resumes(r, c, i) && r.account.broker.lots == []
    ensures var next := OneMore(r, c, i);
            && AtRest(next.account) && NotedDay(r.account, next.account, c, i)
            && next.account.broker == r.account.broker && next.actions == r.actions
            && next.account.machine == Decided(r.account.machine, c, i) && !next.account.machine.long
  {
    var c' := Upto(c, i);
    ResumesAtRest(r, c, i);
    UptoSees(r.account, c, i, 0.0);
    hide AtRest, LiveRun, Pending, Upto, Decided, SignalAfter, Noted, Resumes, NoPrice;
    assert r.actions + [] == r.actions;
    FlatDay(r.account, c', i);
    NotedIs(r.account, c, i, SignalAfter(c, i, r.account.lastSignal));
  }

  lemma NotedIs(a: Account, c: Cycle, i: nat, lastSignal: Option<bool>)
    requires c.Valid() && i < c.bars.Length()
    ensures Noted(a, c, i, lastSignal).broker == a.broker && Noted(a, c, i, lastSignal).machine == a.machine
  {
  }

  /** A run on one more day that finds the account on. */
  lemma HeldOneMore(r: LiveResult, c: Cycle, i: nat)
    requires Resumes(r, c, i) && r.account.broker.lots != [] && r.actions == []
    ensures var next, e := OneMore(r, c, i), EndingOf(c, i, r.account.broker.lots[0].stopLoss);
            var lots, price := r.account.broker.lots, c.price.value;
            && AtRest(next.account) && NotedDay(r.account, next.account, c, i)
            && next.account.machine == MachineAfter(e)
            && (e.HoldsOn? ==> next.account.broker == r.account.broker && next.actions == [])
            && (!e.HoldsOn? ==>
                  && next.account.broker == CloseAll(r.account.broker, lots, price)
                  && next.actions == [SoldLast(lots, ReasonFor(e), price, r.account.broker.costs)])
  {
    var c' := Upto(c, i);
    ResumesAtRest(r, c, i);
    UptoSees(r.account, c, i, r.account.broker.lots[0].stopLoss);
    hide AtRest, LiveRun, Pending, CloseAll, SoldLast, Upto, EndingOf, SignalAfter, Noted, Resumes, NoPrice,
         MachineAfter;
    HeldDay(r.account, c', i);
    NotedIs(r.account, c, i, SignalAfter(c, i, r.account.lastSignal));
  }

  lemma RestSells(a: Account, price: real)
    requires AtRest(a) && a.broker.lots != [] && price > 0.0
    ensures var after := CloseAll(a.broker, a.broker.lots, price);
            after.lots == [] && after.costs == a.broker.costs
  {
    SellKeeps(a.broker, price);
  }

  lemma OnStays(a: Account, c: Cycle, i: nat, newest: bool, r: LiveResult)
    requires AtRest(a) && Resumes(r, c, i)
    requires InStep(a, c.price.value, On, Replay(Machine(true, false, false), None), r)
    ensures var lotStop := StopLevel(a.broker.lots);
            InStep(a, c.price.value, NextPhase(On, c, i, newest, a.broker.lots[0].stopLoss),
                   ReplayDay(Replay(Machine(true, false, false), None), c, i, newest, true, lotStop), OneMore(r, c, i))
  {
    hide AtRest, OneMore, CloseAll, SoldLast, StopLevel, ReplayDay, EndingOf, NotedDay, LiveRun, Upto, NoneEnters,
         Pending, Noted, SignalAfter, Decided;
    StopOfOneLot(a);
    RestSells(a, c.price.value);
    HeldOneMore(r, c, i);
    PhaseReplay(Machine(true, false, false), None, c, i, newest, a.broker.lots[0].stopLoss);
  }

  lemma FlatStays(a: Account, c: Cycle, i: nat, newest: bool, replay: Replay, r: LiveResult)
    requires AtRest(a) && Resumes(r, c, i) && InStep(a, c.price.value, Flat, replay, r)
    ensures InStep(a, c.price.value, Flat, ReplayDay(replay, c, i, newest, false, None), OneMore(r, c, i))
  {
    hide AtRest, OneMore, CloseAll, SoldLast, StopLevel, ReplayDay, EndingOf, NotedDay, LiveRun, Upto, NoneEnters,
         Pending, Noted, SignalAfter, Decided;
    FlatOneMore(r, c, i);
    PhaseReplay(replay.machine, replay.exitReason, c, i, newest, 0.0);
  }

  lemma SoldStays(a: Account, c: Cycle, i: nat, newest: bool, phase: Phase, replay: Replay, r: LiveResult)
    requires AtRest(a) && Resumes(r, c, i) && (phase.Breached? || phase.Out?)
    requires InStep(a, c.price.value, phase, replay, r)
    ensures InStep(a, c.price.value, NextPhase(phase, c, i, newest, 0.0),
                   ReplayDay(replay, c, i, newest, true, StopLevel(a.broker.lots)), OneMore(r, c, i))
  {
    hide AtRest, OneMore, CloseAll, SoldLast, StopLevel, ReplayDay, EndingOf, NotedDay, LiveRun, Upto, NoneEnters,
         Pending, Noted, SignalAfter, Decided;
    StopOfOneLot(a);
    NothingPending(r.account);
    FlatOneMore(r, c, i);
    PhaseReplay(replay.machine, replay.exitReason, c, i, newest, a.broker.lots[0].stopLoss);
  }

  lemma OffStays(a: Account, c: Cycle, i: nat, newest: bool, phase: Phase, replay: Replay, r: LiveResult)
    requires AtRest(a) && Resumes(r, c, i) && !phase.On?
    requires InStep(a, c.price.value, phase, replay, r)
    ensures var lotStop := if a.machine.long then StopLevel(a.broker.lots) else None;
            InStep(a, c.price.value, NextPhase(phase, c, i, newest, 0.0),
                   ReplayDay(replay, c, i, newest, a.machine.long, lotStop), OneMore(r, c, i))
  {
    WasOn(a);
    HoldsLots(a, c.price.value, phase, replay, r);
    hide AtRest, OneMore, StopLevel, ReplayDay, EndingOf, Resumes, InStep;
    if phase.Flat? {
      FlatStays(a, c, i, newest, replay, r);
    } else {
      SoldStays(a, c, i, newest, phase, replay, r);
    }
  }

  lemma HoldsLots(a: Account, price: real, phase: Phase, replay: Replay, r: LiveResult)
    requires a.broker.costs.Valid() && InStep(a, price, phase, replay, r)
    ensures phase.Flat? <==> a.broker.lots == []
  {
    hide AtRest;
  }

  lemma NothingPending(a: Account)
    requires AtRest(a)
    ensures !a.machine.stopPending
  {
  }

  lemma WasOn(a: Account)
    requires AtRest(a)
    ensures a.machine.long <==> a.broker.lots != []
  {
  }

  /** One more run and one more replayed day leave the two in step, unless the run enters. */
  lemma DayInStep(a: Account, c: Cycle, i: nat, newest: bool, phase: Phase, replay: Replay, r: LiveResult)
    requires AtRest(a) && Resumes(r, c, i) && InStep(a, c.price.value, phase, replay, r)
    ensures var lotStop := if a.machine.long then StopLevel(a.broker.lots) else None;
            var stopLoss := if a.broker.lots != [] then a.broker.lots[0].stopLoss else 0.0;
            && InStep(a, c.price.value, NextPhase(phase, c, i, newest, stopLoss),
                      ReplayDay(replay, c, i, newest, a.machine.long, lotStop), OneMore(r, c, i))
            && NotedDay(r.account, OneMore(r, c, i).account, c, i)
  {
    WasOn(a);
    hide AtRest, OneMore, StopLevel, ReplayDay, EndingOf, NotedDay, Resumes;
    if phase.On? {
      OnStays(a, c, i, newest, r);
      HeldOneMore(r, c, i);
    } else {
      OffStays(a, c, i, newest, phase, replay, r);
      FlatOneMore(r, c, i);
    }
  }

  // ----- all of them

  function StopOf(a: Account): real {
    if a.broker.lots != [] then a.broker.lots[0].stopLoss else 0.0
  }

  function PhaseAfter(a: Account, c: Cycle, days: seq<nat>, k: nat): Phase
    requires c.Valid() && k <= |days| && forall j :: 0 <= j < |days| ==> days[j] < c.bars.Length()
  {
    if k == 0 then (if a.broker.lots == [] then Flat else On)
    else NextPhase(PhaseAfter(a, c, days, k - 1), c, days[k - 1], k == |days|, StopOf(a))
  }

  /** The account's dictionary after the first `k` pending days. */
  ghost predicate NotedDays(a: Account, after: Account, c: Cycle, days: seq<nat>, k: nat)
    requires c.Valid() && k <= |days| && forall j :: 0 <= j < |days| ==> days[j] < c.bars.Length()
  {
    after == a.(lastDay := if k == 0 then a.lastDay else Some(c.bars.ts[days[k - 1]]),
                lastSignal := NewestSignal(c, days, k, a.lastSignal),
                machine := after.machine, broker := after.broker)
  }

  lemma EntersSplit(before: LiveResult, c: Cycle, i: nat)
    requires c.Valid() && i < c.bars.Length() && before.account.broker.costs.Valid()
    requires NoneEnters(OneMore(before, c, i))
    ensures NoneEnters(before) && NoneEnters(LiveRun(before.account, Upto(c, i)))
  {
    hide LiveRun;
    var next := LiveRun(before.account, Upto(c, i));
    var all := before.actions + next.actions;
    forall k | 0 <= k < |before.actions| ensures !before.actions[k].Entered? {
      assert all[k] == before.actions[k];
    }
    forall k | 0 <= k < |next.actions| ensures !next.actions[k].Entered? {
      assert all[|before.actions| + k] == next.actions[k];
    }
  }

  lemma NextIsPending(a: Account, after: Account, c: Cycle, days: seq<nat>, k: nat)
    requires c.Valid() && c.bars.Length() > 0 && Ascending(c.bars.ts) && a.lastDay.Some?
    requires days == Pending(a, c) && k < |days| && NotedDays(a, after, c, days, k)
    ensures after.lastDay.Some? && Pending(after, Upto(c, days[k])) == [days[k]]
  {
    hide Newer, NewestSignal;
    PendingOneByOne(c.bars.ts, a.lastDay.value, k);
  }

  lemma NotedAdds(a: Account, before: Account, after: Account, c: Cycle, days: seq<nat>, k: nat)
    requires c.Valid() && 0 < k <= |days| && forall j :: 0 <= j < |days| ==> days[j] < c.bars.Length()
    requires NotedDays(a, before, c, days, k - 1) && NotedDay(before, after, c, days[k - 1])
    ensures NotedDays(a, after, c, days, k)
  {
  }

  lemma DayByDayAdds(a: Account, c: Cycle, days: seq<nat>, k: nat)
    requires c.Valid() && a.broker.costs.Valid()
    requires 0 < k <= |days| && forall j :: 0 <= j < |days| ==> days[j] < c.bars.Length()
    ensures DayByDay(a, c, days, k) == OneMore(DayByDay(a, c, days, k - 1), c, days[k - 1])
  {
  }

  lemma InStepIsAtRest(a: Account, price: real, phase: Phase, replay: Replay, r: LiveResult)
    requires a.broker.costs.Valid() && InStep(a, price, phase, replay, r)
    ensures AtRest(r.account)
  {
  }

  /** The account the run starts from, and the days it missed. */
  ghost predicate MissedDays(a: Account, c: Cycle, days: seq<nat>) {
    && c.Valid() && c.bars.Length() > 0 && Ascending(c.bars.ts) && !NoPrice(c)
    && AtRest(a) && !a.deferEntry && a.lastDay.Some? && days == Pending(a, c)
  }

  lemma ResumesIs(r: LiveResult, c: Cycle, i: nat)
    requires c.Valid() && i < c.bars.Length() && !NoPrice(c) && AtRest(r.account)
    requires !r.account.deferEntry && r.account.lastDay.Some?
    requires Pending(r.account, Upto(c, i)) == [i] && NoneEnters(LiveRun(r.account, Upto(c, i)))
    ensures Resumes(r, c, i)
  {
  }

  lemma RunStep(a: Account, c: Cycle, days: seq<nat>, k: nat, phase: Phase, replay: Replay, before: LiveResult)
    requires MissedDays(a, c, days) && k < |days| && NotedDays(a, before.account, c, days, k)
    requires InStep(a, c.price.value, phase, replay, before) && NoneEnters(OneMore(before, c, days[k]))
    ensures var lotStop := if a.machine.long then StopLevel(a.broker.lots) else None;
            var after := OneMore(before, c, days[k]);
            && InStep(a, c.price.value, NextPhase(phase, c, days[k], k + 1 == |days|, StopOf(a)),
                      ReplayDay(replay, c, days[k], k + 1 == |days|, a.machine.long, lotStop), after)
            && NotedDays(a, after.account, c, days, k + 1)
  {
    hide AtRest, StopLevel, Pending, InStep, NotedDays, NoneEnters, OneMore, LiveRun, ReplayDay, NextPhase;
    DaysInside(a, c, days);
    InStepIsAtRest(a, c.price.value, phase, replay, before);
    NeverDeferred(a, before.account, c, days, k);
    NextIsPending(a, before.account, c, days, k);
    EntersSplit(before, c, days[k]);
    ResumesIs(before, c, days[k]);
    hide *;
    DayInStep(a, c, days[k], k + 1 == |days|, phase, replay, before);
    NotedAdds(a, before.account, OneMore(before, c, days[k]).account, c, days, k + 1);
  }

  /** After the first `k` days the runs on each and the replay of them are in step. */
  ghost predicate AgreeAfter(a: Account, c: Cycle, days: seq<nat>, k: nat)
    requires c.Valid() && c.price.Some? && a.broker.costs.Valid()
    requires k <= |days| && forall j :: 0 <= j < |days| ==> days[j] < c.bars.Length()
  {
    var lotStop := if a.machine.long then StopLevel(a.broker.lots) else None;
    var r := DayByDay(a, c, days, k);
    && InStep(a, c.price.value, PhaseAfter(a, c, days, k),
              ReplayDays(a.machine, c, days, k, a.machine.long, lotStop), r)
    && NotedDays(a, r.account, c, days, k)
  }

  lemma StartInStep(a: Account, c: Cycle, days: seq<nat>)
    requires MissedDays(a, c, days)
    ensures AgreeAfter(a, c, days, 0)
  {
    hide StopLevel, CloseAll, SoldLast, Pending;
  }

  lemma AgreeNext(a: Account, c: Cycle, days: seq<nat>, k: nat)
    requires MissedDays(a, c, days) && k < |days| && AgreeAfter(a, c, days, k)
    requires NoneEnters(OneMore(DayByDay(a, c, days, k), c, days[k]))
    ensures AgreeAfter(a, c, days, k + 1)
  {
    DaysInside(a, c, days);
    hide AtRest, StopLevel, Pending, NoneEnters, OneMore, InStep, NextPhase, ReplayDay, NotedDays, MissedDays, StopOf,
         DayByDay, PhaseAfter, ReplayDays, LiveRun;
    var lotStop := if a.machine.long then StopLevel(a.broker.lots) else None;
    PhaseAdds(a, c, days, k, lotStop);
    DayByDayAdds(a, c, days, k + 1);
    RunStep(a, c, days, k, PhaseAfter(a, c, days, k),
            ReplayDays(a.machine, c, days, k, a.machine.long, lotStop), DayByDay(a, c, days, k));
  }

  lemma PhaseAdds(a: Account, c: Cycle, days: seq<nat>, k: nat, lotStop: Option<real>)
    requires c.Valid() && k < |days| && forall j :: 0 <= j < |days| ==> days[j] < c.bars.Length()
    ensures PhaseAfter(a, c, days, k + 1) ==
            NextPhase(PhaseAfter(a, c, days, k), c, days[k], k + 1 == |days|, StopOf(a))
    ensures ReplayDays(a.machine, c, days, k + 1, a.machine.long, lotStop) ==
            ReplayDay(ReplayDays(a.machine, c, days, k, a.machine.long, lotStop), c, days[k], k + 1 == |days|,
                      a.machine.long, lotStop)
  {
    hide NextPhase, ReplayDay, StopOf;
  }

  lemma {:induction false} RunsInStep(a: Account, c: Cycle, days: seq<nat>, k: nat)
    requires c.Valid() && c.price.Some? && a.broker.costs.Valid()
    requires forall j :: 0 <= j < |days| ==> days[j] < c.bars.Length()
    requires MissedDays(a, c, days) && k <= |days| && NoneEnters(DayByDay(a, c, days, k))
    ensures AgreeAfter(a, c, days, k)
  {
    hide *;
    if k == 0 {
      StartInStep(a, c, days);
    } else {
      DayByDayAdds(a, c, days, k);
      EntersSplit(DayByDay(a, c, days, k - 1), c, days[k - 1]);
      RunsInStep(a, c, days, k - 1);
      AgreeNext(a, c, days, k - 1);
    }
  }

  lemma DaysInside(a: Account, c: Cycle, days: seq<nat>)
    requires MissedDays(a, c, days)
    ensures c.Valid() && c.price.Some? && a.broker.costs.Valid()
    ensures forall j :: 0 <= j < |days| ==> days[j] < c.bars.Length()
  {
    hide Newer, NewestSignal;
  }

  lemma NeverDeferred(a: Account, after: Account, c: Cycle, days: seq<nat>, k: nat)
    requires MissedDays(a, c, days) && k <= |days| && NotedDays(a, after, c, days, k)
    ensures !after.deferEntry
  {
  }

  /** Nothing is left breaching once the newest day has been replayed. */
  lemma PhaseAtEnd(a: Account, c: Cycle, days: seq<nat>)
    requires c.Valid() && forall j :: 0 <= j < |days| ==> days[j] < c.bars.Length()
    ensures !PhaseAfter(a, c, days, |days|).Breached?
  {
    hide EndingOf;
    if days != [] {
      var phase := PhaseAfter(a, c, days, |days| - 1);
    }
  }

  lemma TradedInStep(
    a: Account, c: Cycle, days: seq<nat>, phase: Phase, replay: Replay, r: LiveResult, now: Option<bool>)
    requires MissedDays(a, c, days) && !phase.Breached? && InStep(a, c.price.value, phase, replay, r)
    requires NotedDays(a, r.account, c, days, |days|)
    ensures var a1 := Bookkeeping(a, c).(machine := replay.machine);
            var once := SettleChange(a1, a.machine.long, replay.exitReason, now, c);
            once.account == r.account && once.actions == r.actions
  {
    WasOn(a);
    HeldOfRest(a);
    if !phase.Flat? {
      SellKeeps(a.broker, c.price.value);
    }
    RestMachine(r.account);
    hide AtRest, Pending, CloseAll, SoldLast, NewestSignal, SettleChange, Held;
    var a1 := Bookkeeping(a, c).(machine := replay.machine);
    SettlePlain(a1, a.machine.long, replay.exitReason, now, c);
  }

  lemma RestMachine(a: Account)
    requires AtRest(a)
    ensures a.machine.long <==> a.broker.lots != []
  {
  }

  /** One run after any missed days leaves what a run on each of those days, at the same price,
      would have left, and does what they would have done, as long as none of them enters. */
  lemma OneRunIsDayByDay(a: Account, c: Cycle)
    requires c.Valid() && c.bars.Length() > 0 && Ascending(c.bars.ts) && !NoPrice(c)
    requires AtRest(a) && !a.deferEntry && a.lastDay.Some?
    requires NoneEnters(DayByDay(a, c, Pending(a, c), |Pending(a, c)|))
    ensures var once, daily := LiveRun(a, c), DayByDay(a, c, Pending(a, c), |Pending(a, c)|);
            once.account == daily.account && once.actions == daily.actions
  {
    var days := Pending(a, c);
    DaysInside(a, c, days);
    hide AtRest, Pending, LiveRun, InStep, NotedDays, NoneEnters, StopLevel, SettleChange, ReplayDays, Bookkeeping,
         SignalNow, DayByDay, PhaseAfter;
    var lotStop := if a.machine.long then StopLevel(a.broker.lots) else None;
    var replay := ReplayDays(a.machine, c, days, |days|, a.machine.long, lotStop);
    RunsInStep(a, c, days, |days|);
    PhaseAtEnd(a, c, days);
    RunIsReplayThenTrade(a, c);
    var a1 := Bookkeeping(a, c).(machine := replay.machine);
    TradedInStep(a, c, days, PhaseAfter(a, c, days, |days|), replay, DayByDay(a, c, days, |days|), SignalNow(a1, c));
  }
}
