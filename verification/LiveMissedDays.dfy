/** When one live run may stand for the runs on the days it missed. */
module LiveMissedDays {
  import opened Ordering
  import opened Wrappers
  import opened DailyTape
  import opened SignalExit
  import opened PaperBook
  import opened LiveAccount
  import opened LiveInvariants
  import opened LiveReplay
  import opened LiveRuns

  /** What a held account's runs have made of it: on, and then no day was off; or out, and locked
      out unless a day was. */
  ghost predicate OutUnlessOff(after: Account, c: Cycle, days: seq<nat>, k: nat)
    requires c.Valid() && k <= |days| && forall j :: 0 <= j < |days| ==> days[j] < c.bars.Length()
  {
    if after.broker.lots != [] then !AnyOff(c, days, k) && after.machine == Machine(true, false, false)
    else after.machine == Machine(false, !AnyOff(c, days, k), false)
  }

  /** The day is warm and on. */
  predicate IsOn(c: Cycle, i: nat)
    requires c.Valid() && i < c.bars.Length()
  {
    c.ready[i] && c.signal[i]
  }

  /** No pending day is on after one that was off. */
  ghost predicate NeverReturns(c: Cycle, days: seq<nat>, k: nat)
    requires c.Valid() && k <= |days| && forall j :: 0 <= j < |days| ==> days[j] < c.bars.Length()
  {
    forall j :: 0 <= j < k ==> !(IsOn(c, days[j]) && AnyOff(c, days, j))
  }

  lemma AnyOffNext(c: Cycle, days: seq<nat>, k: nat)
    requires c.Valid() && k < |days| && forall j :: 0 <= j < |days| ==> days[j] < c.bars.Length()
    ensures AnyOff(c, days, k + 1) <==> AnyOff(c, days, k) || (c.ready[days[k]] && !c.signal[days[k]])
  {
  }

  /** What a run on one more day needs to find, its own entry aside. */
  ghost predicate Continues(r: LiveResult, c: Cycle, i: nat) {
    && c.Valid() && i < c.bars.Length() && !NoPrice(c)
    && AtRest(r.account) && !r.account.deferEntry && r.account.lastDay.Some?
    && Pending(r.account, Upto(c, i)) == [i]
  }

  /** A run on one more day enters if and only if it finds a flat and free account and the day on. */
  lemma EntersOn(r: LiveResult, c: Cycle, days: seq<nat>, k: nat)
    requires c.Valid() && k < |days| && forall j :: 0 <= j < |days| ==> days[j] < c.bars.Length()
    requires Continues(r, c, days[k]) && OutUnlessOff(r.account, c, days, k)
    ensures NoneEnters(LiveRun(r.account, Upto(c, days[k]))) <==> !(IsOn(c, days[k]) && AnyOff(c, days, k))
  {
    var i := days[k];
    var c' := Upto(c, i);
    UptoSees(r.account, c, i, 0.0);
    hide AtRest, LiveRun, Pending, Upto, Reaches, AnyOff;
    if r.account.broker.lots == [] {
      FlatDay(r.account, c', i);
    } else {
      HeldDay(r.account, c', i);
      var e := EndingOf(c', i, r.account.broker.lots[0].stopLoss);
      SaleIsNoEntry(r.account.broker.lots, ReasonFor(e), c'.price.value, r.account.broker.costs);
    }
  }

  lemma FlatStaysOut(r: LiveResult, c: Cycle, days: seq<nat>, k: nat)
    requires c.Valid() && k < |days| && forall j :: 0 <= j < |days| ==> days[j] < c.bars.Length()
    requires Resumes(r, c, days[k]) && OutUnlessOff(r.account, c, days, k) && r.account.broker.lots == []
    ensures var next := OneMore(r, c, days[k]);
            OutUnlessOff(next.account, c, days, k + 1) && next.account.broker.lots == []
  {
    AnyOffNext(c, days, k);
    hide AtRest, LiveRun, Pending, Upto, AnyOff, OneMore, NotedDay;
    FlatOneMore(r, c, days[k]);
  }

  lemma HeldStaysOut(r: LiveResult, c: Cycle, days: seq<nat>, k: nat)
    requires c.Valid() && k < |days| && forall j :: 0 <= j < |days| ==> days[j] < c.bars.Length()
    requires Resumes(r, c, days[k]) && OutUnlessOff(r.account, c, days, k) && r.account.broker.lots != []
    requires r.actions == []
    ensures var next := OneMore(r, c, days[k]);
            OutUnlessOff(next.account, c, days, k + 1) && (next.account.broker.lots != [] ==> next.actions == [])
  {
    AnyOffNext(c, days, k);
    ResumesAtRest(r, c, days[k]);
    hide AtRest, LiveRun, Pending, Upto, Reaches, AnyOff, OneMore, NotedDay, Resumes, SoldLast, CloseAll;
    HeldOneMore(r, c, days[k]);
    RestSells(r.account, c.price.value);
  }

  /** One more day without an entry. */
  lemma StaysOutUnlessOff(r: LiveResult, c: Cycle, days: seq<nat>, k: nat)
    requires c.Valid() && k < |days| && forall j :: 0 <= j < |days| ==> days[j] < c.bars.Length()
    requires Resumes(r, c, days[k]) && OutUnlessOff(r.account, c, days, k)
    requires r.account.broker.lots != [] ==> r.actions == []
    ensures var next := OneMore(r, c, days[k]);
            OutUnlessOff(next.account, c, days, k + 1) && (next.account.broker.lots != [] ==> next.actions == [])
  {
    hide OutUnlessOff, OneMore, Resumes;
    if r.account.broker.lots == [] {
      FlatStaysOut(r, c, days, k);
    } else {
      HeldStaysOut(r, c, days, k);
    }
  }

  lemma NoneEntersJoins(before: LiveResult, c: Cycle, i: nat)
    requires c.Valid() && i < c.bars.Length() && before.account.broker.costs.Valid()
    requires NoneEnters(before) && NoneEnters(LiveRun(before.account, Upto(c, i)))
    ensures NoneEnters(OneMore(before, c, i))
  {
    hide LiveRun;
  }

  lemma StartsOn(a: Account, c: Cycle, days: seq<nat>)
    requires MissedDays(a, c, days) && a.broker.lots != []
    ensures OutUnlessOff(a, c, days, 0) && NoneEnters(DayByDay(a, c, days, 0))
  {
    hide Pending;
  }

  lemma ContinuesAfter(a: Account, c: Cycle, days: seq<nat>, k: nat)
    requires MissedDays(a, c, days) && k < |days| && NoneEnters(DayByDay(a, c, days, k))
    ensures Continues(DayByDay(a, c, days, k), c, days[k])
  {
    RunsInStep(a, c, days, k);
    DaysInside(a, c, days);
    hide AtRest, Pending, DayByDay, NoneEnters, InStep, NotedDays, Upto;
    var lotStop := if a.machine.long then StopLevel(a.broker.lots) else None;
    var r := DayByDay(a, c, days, k);
    InStepIsAtRest(a, c.price.value, PhaseAfter(a, c, days, k),
                   ReplayDays(a.machine, c, days, k, a.machine.long, lotStop), r);
    NeverDeferred(a, r.account, c, days, k);
    NextIsPending(a, r.account, c, days, k);
  }

  /** The first `k` runs, as long as none entered. */
  ghost predicate Quiet(r: LiveResult, c: Cycle, days: seq<nat>, k: nat)
    requires c.Valid() && k <= |days| && forall j :: 0 <= j < |days| ==> days[j] < c.bars.Length()
  {
    NoneEnters(r) ==> OutUnlessOff(r.account, c, days, k) && (r.account.broker.lots != [] ==> r.actions == [])
  }

  lemma QuietNext(a: Account, c: Cycle, days: seq<nat>, k: nat)
    requires MissedDays(a, c, days) && k < |days| && NoneEnters(DayByDay(a, c, days, k))
    requires Quiet(DayByDay(a, c, days, k), c, days, k)
    ensures Quiet(DayByDay(a, c, days, k + 1), c, days, k + 1)
    ensures NoneEnters(DayByDay(a, c, days, k + 1)) <==> !(IsOn(c, days[k]) && AnyOff(c, days, k))
  {
    ContinuesAfter(a, c, days, k);
    DaysInside(a, c, days);
    DayByDayAdds(a, c, days, k + 1);
    var r := DayByDay(a, c, days, k);
    hide AtRest, Pending, DayByDay, NoneEnters, Upto, AnyOff, OutUnlessOff, OneMore, MissedDays, LiveRun, IsOn;
    EntersOn(r, c, days, k);
    if NoneEnters(LiveRun(r.account, Upto(c, days[k]))) {
      ResumesIs(r, c, days[k]);
      StaysOutUnlessOff(r, c, days, k);
      NoneEntersJoins(r, c, days[k]);
    } else if NoneEnters(OneMore(r, c, days[k])) {
      EntersSplit(r, c, days[k]);
    }
  }

  /** The runs on the first `k` days enter nothing if and only if none of those is on after an off. */
  lemma {:induction false} NoneEntersIff(a: Account, c: Cycle, days: seq<nat>, k: nat)
    requires c.Valid() && a.broker.costs.Valid() && forall j :: 0 <= j < |days| ==> days[j] < c.bars.Length()
    requires MissedDays(a, c, days) && a.broker.lots != [] && k <= |days|
    ensures NoneEnters(DayByDay(a, c, days, k)) <==> NeverReturns(c, days, k)
    ensures Quiet(DayByDay(a, c, days, k), c, days, k)
  {
    if k == 0 {
      StartsOn(a, c, days);
    } else {
      NoneEntersIff(a, c, days, k - 1);
      NeverReturnsNext(c, days, k);
      DayByDayAdds(a, c, days, k);
      hide *;
      if NoneEnters(DayByDay(a, c, days, k - 1)) {
        QuietNext(a, c, days, k - 1);
      } else {
        StillEnters(DayByDay(a, c, days, k - 1), c, days, k - 1);
      }
    }
  }

  lemma StillEnters(r: LiveResult, c: Cycle, days: seq<nat>, k: nat)
    requires c.Valid() && k < |days| && forall j :: 0 <= j < |days| ==> days[j] < c.bars.Length()
    requires r.account.broker.costs.Valid() && !NoneEnters(r)
    ensures !NoneEnters(OneMore(r, c, days[k])) && Quiet(OneMore(r, c, days[k]), c, days, k + 1)
  {
    hide LiveRun, OneMore, NoneEnters, OutUnlessOff;
    if NoneEnters(OneMore(r, c, days[k])) {
      EntersSplit(r, c, days[k]);
    }
  }

  lemma NeverReturnsNext(c: Cycle, days: seq<nat>, k: nat)
    requires c.Valid() && 0 < k <= |days| && forall j :: 0 <= j < |days| ==> days[j] < c.bars.Length()
    ensures NeverReturns(c, days, k) <==>
            NeverReturns(c, days, k - 1) && !(IsOn(c, days[k - 1]) && AnyOff(c, days, k - 1))
  {
    hide IsOn, AnyOff;
  }

  /** Lot numbers given out by the runs on each day. */
  lemma {:induction false} EntriesTakeNumbers(a: Account, c: Cycle, days: seq<nat>, k: nat)
    requires c.Valid() && a.broker.costs.Valid()
    requires k <= |days| && forall j :: 0 <= j < |days| ==> days[j] < c.bars.Length()
    ensures var r := DayByDay(a, c, days, k);
            r.account.broker.nextLot >= a.broker.nextLot
            && (!NoneEnters(r) ==> r.account.broker.nextLot > a.broker.nextLot)
  {
    if k > 0 {
      EntriesTakeNumbers(a, c, days, k - 1);
      DayByDayAdds(a, c, days, k);
      hide *;
      OneMoreTakesNumbers(DayByDay(a, c, days, k - 1), c, days[k - 1]);
    }
  }

  lemma OneMoreTakesNumbers(r: LiveResult, c: Cycle, i: nat)
    requires c.Valid() && i < c.bars.Length() && r.account.broker.costs.Valid()
    ensures var next := OneMore(r, c, i);
            && next.account.broker.nextLot >= r.account.broker.nextLot
            && (NoneEnters(r) && !NoneEnters(next) ==> next.account.broker.nextLot > r.account.broker.nextLot)
  {
    hide LiveRun, Upto;
    RunOpensOneLotAtMost(r.account, Upto(c, i));
    if NoneEnters(r) && !Enters(LiveRun(r.account, Upto(c, i))) {
      NoneEntersJoins(r, c, i);
    }
  }

  /** A held account that has missed days is left by one run as the runs on each of those days
      would have left it if and only if none of the days is warm and on after one that is warm and
      off. Then it does what they would have done; else they would have bought again, and it does
      not. */
  lemma OneRunIsDayByDayIff(a: Account, c: Cycle)
    requires c.Valid() && c.bars.Length() > 0 && Ascending(c.bars.ts) && !NoPrice(c)
    requires AtRest(a) && a.broker.lots != [] && a.lastDay.Some?
    ensures var days := Pending(a, c);
            var once, daily := LiveRun(a, c), DayByDay(a, c, days, |days|);
            && (once.account == daily.account <==> NeverReturns(c, days, |days|))
            && (NeverReturns(c, days, |days|) ==> once.actions == daily.actions)
            && !Enters(once)
  {
    var days := Pending(a, c);
    HeldOfRest(a);
    NoneEntersIff(a, c, days, |days|);
    hide AtRest, Pending, LiveRun, DayByDay, NoneEnters, NeverReturns, Held, Enters;
    if Enters(LiveRun(a, c)) {
      BuysOnlyWhenFlatAndFree(a, c);
    }
    if NoneEnters(DayByDay(a, c, days, |days|)) {
      OneRunIsDayByDay(a, c);
    } else {
      EntriesTakeNumbers(a, c, days, |days|);
      RunOpensOneLotAtMost(a, c);
    }
  }
}
