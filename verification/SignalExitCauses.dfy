/** Why each trade of the engine ends on the day it does, and why the engine stays out. */
module SignalExitCauses {
  import opened Wrappers
  import opened DailyTape
  import opened SignalExit
  import opened SignalExitLedger

  /** The stop of a position bought at `entry`, when there is one. */
  function Level(entry: real, stopFrac: real): real {
    entry * (1.0 - stopFrac)
  }

  /** The day's low is at or below it. */
  predicate Reached(r: Rule, entry: real, d: int)
    requires r.Valid() && 0 <= d < r.bars.Length()
  {
    r.stopFrac > 0.0 && r.bars.low[d] <= Level(entry, r.stopFrac)
  }

  /** A position bought at day `x`'s open meets no cause to leave before day `y`'s open: the
      signal behind every open is on, and no low reaches the stop before the last day. */
  ghost predicate Undisturbed(r: Rule, entry: real, x: int, y: int)
    requires r.Valid()
  {
    && 0 <= x < y <= r.bars.Length() && r.OnAt(x)
    && forall z :: x < z < y ==> r.OnAt(z) && !Reached(r, entry, z - 1)
  }

  /** Bought at `x`'s open and sold at `y`'s: after a breach on the day before as a safety stop,
      else on an off signal. */
  ghost predicate LeftAtOpen(r: Rule, t: Trade, x: int, y: int)
    requires r.Valid()
  {
    && Undisturbed(r, t.entryPrice, x, y) && y < r.bars.Length()
    && t.entryTs == r.bars.ts[x] && t.exitTs == r.bars.ts[y] && t.days == y - x
    && (Reached(r, t.entryPrice, y - 1) ==> t.reason == SafetyStop)
    && (!Reached(r, t.entryPrice, y - 1) ==> t.reason == Signal && !r.OnAt(y))
  }

  ghost predicate Caused(r: Rule, t: Trade, s: int, e: int)
    requires r.Valid()
  {
    exists x, y :: s <= x && y < e && LeftAtOpen(r, t, x, y)
  }

  /** Bought at `x`'s open and still on when the window ends with day `e - 1`. */
  ghost predicate LeftAtTheEnd(r: Rule, t: Trade, x: int, e: int)
    requires r.Valid()
  {
    && Undisturbed(r, t.entryPrice, x, e)
    && t.entryTs == r.bars.ts[x] && t.exitTs == r.bars.ts[e - 1] && t.days == e - x
    && t.reason == if Reached(r, t.entryPrice, e - 1) then SafetyStop else WindowEnd
  }

  ghost predicate AllCaused(r: Rule, trades: seq<Trade>, s: int, e: int)
    requires r.Valid()
  {
    forall k :: 0 <= k < |trades| ==> Caused(r, trades[k], s, e)
  }

  /** The last trade was stopped out at an open before day `d`, and every signal since is on. */
  ghost predicate LockedSince(r: Rule, trades: seq<Trade>, s: int, d: int)
    requires r.Valid() && 0 <= s
  {
    && trades != [] && Last(trades).reason == SafetyStop
    && exists z :: s < z < d && d <= r.bars.Length() && StillOn(r, Last(trades).exitTs, z, d)
  }

  ghost predicate StillOn(r: Rule, exitTs: int, z: int, d: int)
    requires r.Valid() && 0 <= z < d <= r.bars.Length()
  {
    exitTs == r.bars.ts[z] && forall y :: z <= y < d ==> r.OnAt(y)
  }

  /** Before day `d`'s open: an open position is undisturbed and its pending stop is that of the
      day before; a flat book is locked out, or its last signal is off. */
  ghost predicate Explained(b: Book, r: Rule, s: int, d: int)
    requires r.Valid() && 0 <= s <= d <= r.bars.Length()
  {
    && b.Coupled() && AllCaused(r, b.ledger.trades, s, d)
    && if b.machine.long then
         var t := b.ledger.trade.value;
         && !b.machine.lockout && s <= b.entryDay && Undisturbed(r, t.entryPrice, b.entryDay, d)
         && t.entryTs == r.bars.ts[b.entryDay]
         && b.ledger.stop == (if r.stopFrac > 0.0 then Some(Level(t.entryPrice, r.stopFrac)) else None)
         && (b.machine.stopPending <==> Reached(r, t.entryPrice, d - 1))
       else
         && !b.machine.stopPending
         && (if b.machine.lockout then LockedSince(r, b.ledger.trades, s, d) else d == s || !r.OnAt(d - 1))
  }

  /** The same after day `d`'s open, whose low is not known yet. */
  ghost predicate ExplainedAtOpen(b: Book, r: Rule, s: int, d: int)
    requires r.Valid() && 0 <= s <= d < r.bars.Length()
  {
    && b.Coupled() && AllCaused(r, b.ledger.trades, s, d + 1) && !b.machine.stopPending
    && if b.machine.long then
         var t := b.ledger.trade.value;
         && !b.machine.lockout && s <= b.entryDay && Undisturbed(r, t.entryPrice, b.entryDay, d + 1)
         && t.entryTs == r.bars.ts[b.entryDay]
         && b.ledger.stop == (if r.stopFrac > 0.0 then Some(Level(t.entryPrice, r.stopFrac)) else None)
       else
         if b.machine.lockout then LockedSince(r, b.ledger.trades, s, d + 1) else !r.OnAt(d)
  }

  lemma CausesStay(r: Rule, trades: seq<Trade>, s: int, d: int, e: int)
    requires r.Valid() && AllCaused(r, trades, s, d) && d <= e
    ensures AllCaused(r, trades, s, e)
  {
    forall k | 0 <= k < |trades| ensures Caused(r, trades[k], s, e) {
      assert Caused(r, trades[k], s, d);
      var x, y :| s <= x && y < d && LeftAtOpen(r, trades[k], x, y);
      assert y < e;
    }
  }

  lemma OneMoreCaused(r: Rule, trades: seq<Trade>, t: Trade, s: int, x: int, d: int)
    requires r.Valid() && AllCaused(r, trades, s, d) && s <= x && LeftAtOpen(r, t, x, d)
    ensures AllCaused(r, trades + [t], s, d + 1)
  {
    CausesStay(r, trades, s, d, d + 1);
    hide LeftAtOpen;
    assert Caused(r, t, s, d + 1);
  }

  lemma LockGoesOn(r: Rule, trades: seq<Trade>, s: int, d: int)
    requires r.Valid() && 0 <= s <= d < r.bars.Length() && LockedSince(r, trades, s, d) && r.OnAt(d)
    ensures LockedSince(r, trades, s, d + 1)
  {
    var z :| s < z < d && StillOn(r, Last(trades).exitTs, z, d);
    assert StillOn(r, Last(trades).exitTs, z, d + 1);
  }

  lemma UndisturbedGoesOn(r: Rule, entry: real, x: int, d: int)
    requires r.Valid() && d < r.bars.Length() && Undisturbed(r, entry, x, d) && r.OnAt(d) && !Reached(r, entry, d - 1)
    ensures Undisturbed(r, entry, x, d + 1)
  {
  }

  /** What an open does to a position. */
  lemma LongOpen(b: Book, r: Rule, d: int)
    requires r.Valid() && 0 <= d < r.bars.Length() && b.Coupled() && b.machine.long && !b.machine.lockout
    ensures var b', on := OpenActions(b, r, d), r.OnAt(d);
            var l := b.ledger;
            && (b.machine.stopPending ==>
                  && b'.machine == Machine(false, on, false)
                  && b'.ledger == l.Close(r.bars.ts[d], r.bars.open[d], SafetyStop, d - b.entryDay, r.costs))
            && (!b.machine.stopPending && !on ==>
                  && b'.machine == Machine(false, false, false)
                  && b'.ledger == l.Close(r.bars.ts[d], r.bars.open[d], Signal, d - b.entryDay, r.costs))
            && (!b.machine.stopPending && on ==> b' == b)
  {
  }

  lemma FlatOpen(b: Book, r: Rule, d: int)
    requires r.Valid() && 0 <= d < r.bars.Length() && b.Coupled() && !b.machine.long && !b.machine.stopPending
    ensures var b', on := OpenActions(b, r, d), r.OnAt(d);
            && (on && !b.machine.lockout ==>
                  && b'.machine == Machine(true, false, false) && b'.entryDay == d
                  && b'.ledger == b.ledger.Buy(r.bars.ts[d], r.bars.open[d], r.stopFrac, r.costs))
            && (!(on && !b.machine.lockout) ==>
                  b'.machine == Machine(false, b.machine.lockout && on, false) && b'.ledger == b.ledger)
  {
  }

  lemma Sale(l: Ledger, ts: int, price: real, reason: Reason, days: int, costs: Costs)
    requires costs.Valid() && l.trade.Some?
    ensures var l', t := l.Close(ts, price, reason, days, costs), l.trade.value;
            && l'.trade.None? && |l'.trades| == |l.trades| + 1 && l'.trades == l.trades + [Last(l'.trades)]
            && var done := Last(l'.trades);
               && done.entryTs == t.entryTs && done.entryPrice == t.entryPrice && done.exitTs == ts
               && done.reason == reason && done.days == days
  {
  }

  lemma Purchase(l: Ledger, ts: int, price: real, stopFrac: real, costs: Costs)
    requires costs.Valid()
    ensures var l' := l.Buy(ts, price, stopFrac, costs);
            && l'.trades == l.trades && l'.trade.Some? && l'.trade.value.entryTs == ts
            && l'.stop == (if stopFrac > 0.0 then Some(Level(l'.trade.value.entryPrice, stopFrac)) else None)
  {
  }

  /** A stop sale and the signal on that open: what a new lockout rests on. */
  lemma NewLock(r: Rule, trades: seq<Trade>, s: int, d: int)
    requires r.Valid() && 0 <= s < d < r.bars.Length() && trades != [] && Last(trades).reason == SafetyStop
    requires Last(trades).exitTs == r.bars.ts[d] && r.OnAt(d)
    ensures LockedSince(r, trades, s, d + 1)
  {
    assert StillOn(r, Last(trades).exitTs, d, d + 1);
  }

  lemma LongExplained(b: Book, r: Rule, s: int, d: int)
    requires r.Valid() && 0 <= s <= d < r.bars.Length() && Explained(b, r, s, d) && b.machine.long
    ensures ExplainedAtOpen(OpenActions(b, r, d), r, s, d)
  {
    LongOpen(b, r, d);
    var b', t := OpenActions(b, r, d), b.ledger.trade.value;
    var reason := if b.machine.stopPending then SafetyStop else Signal;
    Sale(b.ledger, r.bars.ts[d], r.bars.open[d], reason, d - b.entryDay, r.costs);
    hide OpenActions, Ledger.Close, LockedSince, Level;
    if b.machine.stopPending || !r.OnAt(d) {
      var done := Last(b'.ledger.trades);
      assert LeftAtOpen(r, done, b.entryDay, d);
      OneMoreCaused(r, b.ledger.trades, done, s, b.entryDay, d);
      if b.machine.stopPending && r.OnAt(d) {
        NewLock(r, b'.ledger.trades, s, d);
      }
    } else {
      CausesStay(r, b.ledger.trades, s, d, d + 1);
      UndisturbedGoesOn(r, t.entryPrice, b.entryDay, d);
    }
  }

  lemma FlatExplained(b: Book, r: Rule, s: int, d: int)
    requires r.Valid() && 0 <= s <= d < r.bars.Length() && Explained(b, r, s, d) && !b.machine.long
    ensures ExplainedAtOpen(OpenActions(b, r, d), r, s, d)
  {
    FlatOpen(b, r, d);
    Purchase(b.ledger, r.bars.ts[d], r.bars.open[d], r.stopFrac, r.costs);
    CausesStay(r, b.ledger.trades, s, d, d + 1);
    hide OpenActions, Ledger.Buy, LockedSince, AllCaused, Level;
    if b.machine.lockout && r.OnAt(d) {
      LockGoesOn(r, b.ledger.trades, s, d);
    }
  }

  lemma CloseExplained(b: Book, r: Rule, s: int, d: int)
    requires r.Valid() && 0 <= s <= d < r.bars.Length() && b.Coupled() && ExplainedAtOpen(b, r, s, d)
    ensures Explained(CloseOfDay(b, r, d), r, s, d + 1)
  {
    hide AllCaused, Undisturbed, LockedSince, Level;
  }

  lemma StartExplained(r: Rule, startCash: real, s: int)
    requires r.Valid() && 0 <= s <= r.bars.Length()
    ensures Explained(Days(r, startCash, s, s), r, s, s)
  {
  }

  lemma NextDay(r: Rule, startCash: real, s: int, d: int)
    requires r.Valid() && 0 <= s < d <= r.bars.Length()
    ensures Days(r, startCash, s, d) == CloseOfDay(OpenActions(Days(r, startCash, s, d - 1), r, d - 1), r, d - 1)
  {
    hide OpenActions, CloseOfDay;
  }

  lemma {:induction false} DaysExplained(r: Rule, startCash: real, s: int, d: int)
    requires r.Valid() && 0 <= s <= d <= r.bars.Length()
    ensures Explained(Days(r, startCash, s, d), r, s, d)
    decreases d
  {
    hide OpenActions, CloseOfDay, Explained, ExplainedAtOpen, Days;
    if d == s {
      StartExplained(r, startCash, s);
    } else {
      DaysExplained(r, startCash, s, d - 1);
      NextDay(r, startCash, s, d);
      var b := Days(r, startCash, s, d - 1);
      OpenExplained(b, r, s, d - 1);
      CloseExplained(OpenActions(b, r, d - 1), r, s, d - 1);
    }
  }

  lemma OpenExplained(b: Book, r: Rule, s: int, d: int)
    requires r.Valid() && 0 <= s <= d < r.bars.Length() && b.Coupled() && Explained(b, r, s, d)
    ensures ExplainedAtOpen(OpenActions(b, r, d), r, s, d)
  {
    hide Explained, ExplainedAtOpen, OpenActions;
    if b.machine.long {
      LongExplained(b, r, s, d);
    } else {
      FlatExplained(b, r, s, d);
    }
  }

  lemma SettleExplained(b: Book, r: Rule, s: int, e: int)
    requires r.Valid() && 0 <= s < e <= r.bars.Length() && Explained(b, r, s, e) && |b.points| > 0
    ensures var trades := Settle(b, r, e).ledger.trades;
            var n := |b.ledger.trades|;
            && b.ledger.trades <= trades && AllCaused(r, trades[..n], s, e)
            && (!b.machine.long ==> |trades| == n)
            && (b.machine.long ==> |trades| == n + 1 && exists x :: s <= x && LeftAtTheEnd(r, trades[n], x, e))
  {
    hide AllCaused, LockedSince, Level, Undisturbed;
    var n, trades := |b.ledger.trades|, Settle(b, r, e).ledger.trades;
    if b.machine.long {
      var reason := if b.machine.stopPending then SafetyStop else WindowEnd;
      Sale(b.ledger, r.bars.ts[e - 1], r.bars.close[e - 1], reason, e - 1 - b.entryDay + 1, r.costs);
      assert trades == b.ledger.trades + [Last(trades)];
      assert LeftAtTheEnd(r, trades[n], b.entryDay, e);
    }
    assert trades[..n] == b.ledger.trades;
  }

  /** Every trade of a run is bought under an on signal and sold at the first open that follows a
      breach of its stop or an off signal; only a position that has met neither is left for the
      window's end. The reason it names is the breach's when there was one. */
  lemma TradesEndAtTheirFirstCause(r: Rule, startCash: real, start: int, end: int)
    requires r.Valid()
    ensures var trades := Score(r, startCash, start, end).trades;
            var s, e := ClampStart(start), ClampEnd(end, r.bars.Length());
            forall k :: 0 <= k < |trades| ==>
                          if k == |trades| - 1 && HeldAtEnd(r, startCash, start, end)
                          then exists x :: s <= x && LeftAtTheEnd(r, trades[k], x, e)
                          else Caused(r, trades[k], s, e)
  {
    var s, e := ClampStart(start), ClampEnd(end, r.bars.Length());
    if s < e {
      hide Explained, LeftAtTheEnd, Caused, Settle;
      DaysExplained(r, startCash, s, e);
      var b := Days(r, startCash, s, e);
      SettleExplained(b, r, s, e);
      var trades, n := Settle(b, r, e).ledger.trades, |b.ledger.trades|;
      assert b.Coupled() && trades == Score(r, startCash, start, end).trades;
      forall k | 0 <= k < n ensures Caused(r, trades[k], s, e) {
        assert trades[..n][k] == trades[k];
      }
    }
  }

  /** An account that is out at an open although the signal is on has been stopped out at an open
      no earlier than which every signal was on: the lockout is that stop's, and lasts no longer. */
  lemma OutUnderAnOnSignal(r: Rule, startCash: real, s: int, d: int)
    requires r.Valid() && 0 <= s <= d < r.bars.Length()
    ensures var b := OpenActions(Days(r, startCash, s, d), r, d);
            if b.machine.long then r.OnAt(d) else !r.OnAt(d) || LockedSince(r, b.ledger.trades, s, d + 1)
  {
    hide OpenActions, Explained, LockedSince, AllCaused;
    DaysExplained(r, startCash, s, d);
    OpenExplained(Days(r, startCash, s, d), r, s, d);
  }
}
