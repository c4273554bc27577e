/** The `signal_exit` engine: long-or-flat, all-in, one position, a deferred safety stop with
    a lockout. */
module SignalExit {
  import opened Reals
  import opened Wrappers
  import opened DailyTape

  /* The rule is given twice. `MachineState`, `EngineBook` and `Run` change fields and local
     variables step by step, as the program does. `Stepped`, `OpenActions`, `CloseOfDay` and
     `Days` give the same run on values, and the lemmas of SignalExitLedger and
     SignalExitCosts are about those. */

  const PAPER_START_CASH := 10_000.0

  /** Taker fee and slippage, both charged on every fill. */
  datatype Costs = Costs(takerFee: real, slippage: real) {
    predicate Valid() {
      0.0 <= takerFee < 1.0 && 0.0 <= slippage < 1.0
    }
  }

  datatype Purchase = Purchase(qty: real, fill: real, fee: real)
  datatype Sale = Sale(fill: real, fee: real, proceeds: real)

  function BuyPrice(refPrice: real, costs: Costs): (fill: real)
    requires costs.Valid()
    ensures fill > 0.0 <==> refPrice > 0.0
  {
    MulSign(refPrice, 1.0 + costs.slippage);
    refPrice * (1.0 + costs.slippage)
  }

  function SellPrice(refPrice: real, costs: Costs): (fill: real)
    requires costs.Valid()
    ensures fill > 0.0 <==> refPrice > 0.0
  {
    MulSign(refPrice, 1.0 - costs.slippage);
    refPrice * (1.0 - costs.slippage)
  }

  /** All-in buy: the notional and the fee together are exactly the cash. */
  function BuyFill(cash: real, refPrice: real, costs: Costs): (p: Purchase)
    requires costs.Valid()
    ensures p.fill == BuyPrice(refPrice, costs)
    ensures cash > 0.0 && refPrice > 0.0 ==> p.qty > 0.0 && p.qty * p.fill + p.fee == cash
    ensures cash <= 0.0 || refPrice <= 0.0 ==> p.qty == 0.0 && p.fee == 0.0
  {
    Spend(cash, BuyPrice(refPrice, costs), costs.takerFee)
  }

  function Spend(cash: real, fill: real, takerFee: real): (p: Purchase)
    requires takerFee >= 0.0
    ensures p.fill == fill
    ensures cash > 0.0 && fill > 0.0 ==> p.qty > 0.0 && p.qty * fill + p.fee == cash
    ensures cash <= 0.0 || fill <= 0.0 ==> p.qty == 0.0 && p.fee == 0.0
  {
    if cash <= 0.0 || fill <= 0.0 then
      Purchase(0.0, fill, 0.0)
    else
      var unit := fill * (1.0 + takerFee);
      MulSign(fill, 1.0 + takerFee);
      var qty := cash / unit;
      SpendsAll(cash, fill, takerFee);
      Purchase(qty, fill, qty * fill * takerFee)
  }

  lemma SpendsAll(cash: real, fill: real, takerFee: real)
    requires cash > 0.0 && fill > 0.0 && takerFee >= 0.0
    ensures fill * (1.0 + takerFee) > 0.0
    ensures var qty := cash / (fill * (1.0 + takerFee));
            qty > 0.0 && qty * fill + qty * fill * takerFee == cash
  {
    var unit := fill * (1.0 + takerFee);
    MulSign(fill, 1.0 + takerFee);
    var qty := cash / unit;
    assert qty * unit == cash;
    assert qty * unit == qty * fill + qty * fill * takerFee;
  }

  /** Sell everything. */
  function SellFill(qty: real, refPrice: real, costs: Costs): (s: Sale)
    requires costs.Valid()
    ensures s.fill == SellPrice(refPrice, costs) && s.proceeds + s.fee == qty * s.fill
    ensures qty > 0.0 && refPrice > 0.0 ==> s.proceeds > 0.0
  {
    Collect(qty, SellPrice(refPrice, costs), costs.takerFee)
  }

  function Collect(qty: real, fill: real, takerFee: real): (s: Sale)
    requires takerFee < 1.0
    ensures s.fill == fill && s.proceeds == qty * fill - s.fee
    ensures qty > 0.0 && fill > 0.0 ==> s.proceeds > 0.0
  {
    var gross := qty * fill;
    MulSign(qty, fill);
    KeepPositive(gross, takerFee);
    Sale(fill, gross * takerFee, gross - gross * takerFee)
  }

  /** Taking a fraction below one off a positive amount leaves a positive amount. */
  lemma KeepPositive(x: real, part: real)
    requires part < 1.0
    ensures x > 0.0 ==> x - x * part > 0.0
  {
    MulSign(x, 1.0 - part);
    assert x * (1.0 - part) == x - x * part;
  }

  function StopPrice(entryFill: real, stopFrac: real): (stop: Option<real>)
    ensures stop.Some? <==> stopFrac > 0.0
    ensures stop.Some? && entryFill > 0.0 ==> stop.value < entryFill
  {
    if stopFrac <= 0.0 then None else
      assert entryFill > 0.0 ==> entryFill * (1.0 - stopFrac) < entryFill;
      Some(entryFill * (1.0 - stopFrac))
  }

  // ----- the decision rule

  /** What the rule remembers between closes. */
  datatype Machine = Machine(long: bool, lockout: bool, stopPending: bool)

  datatype Action = Stay | Enter | Exit

  function StepAction(m: Machine, on: bool): Action {
    if m.long then (if on then Stay else Exit)
    else if on && !m.lockout then Enter
    else Stay
  }

  function Stepped(m: Machine, on: bool): (r: Machine)
    ensures r.long ==> on && (m.long || !m.lockout)
    ensures r.lockout <==> m.lockout && on
  {
    var long := if m.long then on else on && !m.lockout;
    Machine(long, m.lockout && on, m.stopPending)
  }

  function StoppedOut(m: Machine): Machine {
    Machine(false, true, false)
  }

  class MachineState {
    var long: bool
    var lockout: bool
    var stopPending: bool

    function View(): Machine
      reads this
    {
      Machine(long, lockout, stopPending)
    }

    constructor (m: Machine)
      ensures View() == m
    {
      long, lockout, stopPending := m.long, m.lockout, m.stopPending;
    }

    /** Apply one completed day's signal. An off signal re-arms entries. */
    method Step(on: bool) returns (action: Action)
      modifies this
      ensures action == StepAction(old(View()), on)
      ensures View() == Stepped(old(View()), on)
    {
      action := Stay;
      if long {
        if !on {
          action := Exit;
          long := false;
        }
      } else if on && !lockout {
        action := Enter;
        long := true;
      }
      if !on {
        lockout := false;
      }
    }

    method StopOut()
      modifies this
      ensures View() == StoppedOut(old(View()))
    {
      long := false;
      lockout := true;
      stopPending := false;
    }
  }

  // ----- the ledger

  datatype Reason = Open | Signal | SafetyStop | WindowEnd

  datatype Trade = Trade(
    entryTs: int, entryPrice: real, qty: real, entryFee: real,
    exitTs: int, exitPrice: real, exitFee: real, reason: Reason, days: int)
  {
    function Pnl(): real {
      (exitPrice - entryPrice) * qty - entryFee - exitFee
    }
  }

  /** Cash, the open position and the closed trades. */
  datatype Ledger = Ledger(
    cash: real, qty: real, stop: Option<real>, trade: Option<Trade>, trades: seq<Trade>, fees: real)
  {
    /** Equity at `price`. */
    function Marked(price: real): real {
      cash + qty * price
    }

    function Close(ts: int, refPrice: real, reason: Reason, days: int, costs: Costs): Ledger
      requires costs.Valid() && trade.Some?
    {
      var s := SellFill(qty, refPrice, costs);
      var done := trade.value.(exitTs := ts, exitPrice := s.fill, exitFee := s.fee, reason := reason, days := days);
      Ledger(cash + s.proceeds, 0.0, None, None, trades + [done], fees + s.fee)
    }

    function Buy(ts: int, refPrice: real, stopFrac: real, costs: Costs): Ledger
      requires costs.Valid()
    {
      var p := BuyFill(cash, refPrice, costs);
      var entry := Trade(ts, p.fill, p.qty, p.fee, 0, 0.0, 0.0, Open, 0);
      Ledger(cash - (p.qty * p.fill + p.fee), p.qty, StopPrice(p.fill, stopFrac), Some(entry), trades, fees + p.fee)
    }
  }

  /** The variables of `run` that its nested `close_trade` rebinds. */
  class EngineBook {
    var cash: real
    var qty: real
    var stop: Option<real>
    var trade: Option<Trade>
    var trades: seq<Trade>
    var fees: real

    function View(): Ledger
      reads this
    {
      Ledger(cash, qty, stop, trade, trades, fees)
    }

    constructor (startCash: real)
      ensures View() == Ledger(startCash, 0.0, None, None, [], 0.0)
    {
      cash, qty, stop, trade, trades, fees := startCash, 0.0, None, None, [], 0.0;
    }

    method CloseTrade(ts: int, refPrice: real, reason: Reason, days: int, costs: Costs)
      requires costs.Valid() && trade.Some?
      modifies this
      ensures View() == old(View()).Close(ts, refPrice, reason, days, costs)
    {
      var s := SellFill(qty, refPrice, costs);
      cash := cash + s.proceeds;
      fees := fees + s.fee;
      var closed := trade.value.(exitTs := ts, exitPrice := s.fill, exitFee := s.fee);
      trades := trades + [closed.(reason := reason, days := days)];
      trade := None;
      qty := 0.0;
      stop := None;
    }

    method EnterTrade(ts: int, refPrice: real, stopFrac: real, costs: Costs)
      requires costs.Valid()
      modifies this
      ensures View() == old(View()).Buy(ts, refPrice, stopFrac, costs)
    {
      var p := BuyFill(cash, refPrice, costs);
      cash := cash - (p.qty * p.fill + p.fee);
      fees := fees + p.fee;
      qty := p.qty;
      stop := StopPrice(p.fill, stopFrac);
      trade := Some(Trade(ts, p.fill, p.qty, p.fee, 0, 0.0, 0.0, Open, 0));
    }
  }

  // ----- a run on values

  /** Everything a run is given besides its span and its cash. */
  datatype Rule = Rule(bars: DailyBars, signal: seq<bool>, costs: Costs, stopFrac: real) {
    predicate Valid() {
      bars.Valid() && |signal| == bars.Length() && costs.Valid()
    }

    /** The desired position at day `d`'s open: the signal of the close before it. */
    predicate OnAt(d: int)
      requires 0 <= d <= |signal|
    {
      d >= 1 && signal[d - 1]
    }
  }

  /** A book between two days. `entryDay` is the day of the newest entry. */
  datatype Book = Book(machine: Machine, ledger: Ledger, entryDay: int, daysLong: int, points: seq<real>) {
    predicate Coupled() {
      machine.long <==> ledger.trade.Some?
    }
  }

  function NewBook(startCash: real, start: int): (b: Book)
    ensures b.Coupled()
  {
    Book(Machine(false, false, false), Ledger(startCash, 0.0, None, None, [], 0.0), start, 0, [startCash])
  }

  /** Day `d`'s open, first half: sell a position whose stop was breached yesterday. */
  function StopSale(b: Book, r: Rule, d: int): (b': Book)
    requires r.Valid() && 0 <= d < r.bars.Length() && b.Coupled()
    ensures b'.Coupled()
  {
    if b.machine.stopPending && b.machine.long then
      b.(ledger := b.ledger.Close(r.bars.ts[d], r.bars.open[d], SafetyStop, d - b.entryDay, r.costs),
         machine := StoppedOut(b.machine))
    else b
  }

  /** Day `d`'s open, second half: act on yesterday's signal. */
  function SignalAction(b: Book, r: Rule, d: int): (b': Book)
    requires r.Valid() && 0 <= d < r.bars.Length() && b.Coupled()
    ensures b'.Coupled()
  {
    var on := r.OnAt(d);
    var m := Stepped(b.machine, on);
    match StepAction(b.machine, on)
    case Exit =>
      b.(machine := m,
         ledger := b.ledger.Close(r.bars.ts[d], r.bars.open[d], Signal, d - b.entryDay, r.costs))
    case Enter =>
      b.(machine := m,
         ledger := b.ledger.Buy(r.bars.ts[d], r.bars.open[d], r.stopFrac, r.costs),
         entryDay := d)
    case Stay => b.(machine := m)
  }

  function OpenActions(b: Book, r: Rule, d: int): (b': Book)
    requires r.Valid() && 0 <= d < r.bars.Length() && b.Coupled()
    ensures b'.Coupled()
  {
    SignalAction(StopSale(b, r, d), r, d)
  }

  predicate Breached(b: Book, r: Rule, d: int)
    requires r.Valid() && 0 <= d < r.bars.Length()
  {
    b.machine.long && b.ledger.stop.Some? && r.bars.low[d] <= b.ledger.stop.value
  }

  /** After day `d`'s open: note a breach of the stop, count the day, mark the book. */
  function CloseOfDay(b: Book, r: Rule, d: int): (b': Book)
    requires r.Valid() && 0 <= d < r.bars.Length() && b.Coupled()
    ensures b'.Coupled()
  {
    var m := if Breached(b, r, d) then b.machine.(stopPending := true) else b.machine;
    b.(machine := m,
       daysLong := b.daysLong + (if m.long then 1 else 0),
       points := b.points + [b.ledger.Marked(r.bars.close[d])])
  }

  /** The book before day `d`'s open, having started flat before day `start`'s. */
  function Days(r: Rule, startCash: real, start: int, d: int): (b: Book)
    requires r.Valid() && 0 <= start <= d <= r.bars.Length()
    ensures b.Coupled() && |b.points| == d - start + 1
    decreases d
  {
    if d == start then NewBook(startCash, start)
    else CloseOfDay(OpenActions(Days(r, startCash, start, d - 1), r, d - 1), r, d - 1)
  }

  /** The window-end sale at the close of the last day. */
  function Settle(b: Book, r: Rule, end: int): (b': Book)
    requires r.Valid() && 1 <= end <= r.bars.Length() && b.Coupled() && |b.points| > 0
    ensures b'.Coupled() && !b'.machine.long == b'.ledger.trade.None?
  {
    if b.ledger.trade.None? then b else
      var last := end - 1;
      var reason := if b.machine.stopPending then SafetyStop else WindowEnd;
      var ledger := b.ledger.Close(r.bars.ts[last], r.bars.close[last], reason, last - b.entryDay + 1, r.costs);
      // The program leaves `state.long` set on a plain window-end sale and then drops `state`.
      var m := if b.machine.stopPending then StoppedOut(b.machine) else b.machine.(long := false);
      b.(machine := m, ledger := ledger, points := b.points[|b.points| - 1 := ledger.cash])
  }

  datatype RunResult = RunResult(
    start: int, end: int, trades: seq<Trade>, equity: seq<real>, daysLong: int, fees: real)

  function ClampStart(start: int): int { if start < 0 then 0 else start }

  function ClampEnd(end: int, n: int): int { if end < n then end else n }

  function Score(r: Rule, startCash: real, start: int, end: int): RunResult
    requires r.Valid()
  {
    var s := ClampStart(start);
    var e := ClampEnd(end, r.bars.Length());
    if e <= s then RunResult(s, e, [], [startCash], 0, 0.0)
    else
      var b := Settle(Days(r, startCash, s, e), r, e);
      RunResult(s, e, b.ledger.trades, b.points, b.daysLong, b.ledger.fees)
  }

  /** The open of day `d`: the pending stop sale, then the signal's action. */
  method TradeAtOpen(state: MachineState, book: EngineBook, r: Rule, d: int, entryDay: int, ghost b: Book)
    returns (newEntryDay: int)
    requires r.Valid() && 0 <= d < r.bars.Length() && b.Coupled()
    requires b.machine == state.View() && b.ledger == book.View() && b.entryDay == entryDay
    modifies state, book
    ensures OpenActions(b, r, d) == b.(machine := state.View(), ledger := book.View(), entryDay := newEntryDay)
  {
    var ts := r.bars.ts[d];
    newEntryDay := entryDay;
    if state.stopPending && state.long {
      book.CloseTrade(ts, r.bars.open[d], SafetyStop, d - entryDay, r.costs);
      state.StopOut();
    }
    ghost var b1 := StopSale(b, r, d);
    assert b1 == b.(machine := state.View(), ledger := book.View());
    var action := state.Step(if d >= 1 then r.signal[d - 1] else false);
    if action == Exit {
      book.CloseTrade(ts, r.bars.open[d], Signal, d - entryDay, r.costs);
    } else if action == Enter {
      book.EnterTrade(ts, r.bars.open[d], r.stopFrac, r.costs);
      newEntryDay := d;
    }
  }

  /** The rest of day `d`: note a breach and count the day. */
  method MarkDay(state: MachineState, book: EngineBook, r: Rule, d: int, daysLong: int, ghost b: Book)
    returns (newDaysLong: int)
    requires r.Valid() && 0 <= d < r.bars.Length() && b.Coupled()
    requires b.machine == state.View() && b.ledger == book.View() && b.daysLong == daysLong
    modifies state
    ensures var b' := CloseOfDay(b, r, d);
            b'.machine == state.View() && b'.ledger == book.View() && b'.daysLong == newDaysLong
  {
    newDaysLong := daysLong;
    if state.long && book.stop.Some? && r.bars.low[d] <= book.stop.value {
      state.stopPending := true;
    }
    if state.long {
      newDaysLong := newDaysLong + 1;
    }
  }

  /** The window-end sale of a position still open. */
  method SettleUp(
    state: MachineState, book: EngineBook, r: Rule, end: int, entryDay: int, points0: seq<real>, ghost b: Book)
    returns (points: seq<real>)
    requires r.Valid() && 1 <= end <= r.bars.Length() && b.Coupled() && |b.points| > 0
    requires b.machine == state.View() && b.ledger == book.View() && b.entryDay == entryDay && b.points == points0
    modifies state, book
    ensures Settle(b, r, end).ledger == book.View() && Settle(b, r, end).points == points
  {
    points := points0;
    if book.trade.Some? {
      var last := end - 1;
      var reason := if state.stopPending then SafetyStop else WindowEnd;
      book.CloseTrade(r.bars.ts[last], r.bars.close[last], reason, last - entryDay + 1, r.costs);
      if state.stopPending {
        state.StopOut();
      }
      points := points[|points| - 1 := book.cash];
    }
  }

  /** The run as the program performs it. */
  method Run(r: Rule, start: int, end: int, startCash: real) returns (result: RunResult)
    requires r.Valid()
    ensures result == Score(r, startCash, start, end)
  {
    var bars := r.bars;
    var s, e := ClampStart(start), ClampEnd(end, bars.Length());
    if e <= s {
      return RunResult(s, e, [], [startCash], 0, 0.0);
    }
    var state := new MachineState(Machine(false, false, false));
    var book := new EngineBook(startCash);
    var entryDay := s;
    var points := [startCash];
    var daysLong := 0;
    var d := s;
    while d < e
      invariant s <= d <= e
      invariant Days(r, startCash, s, d) == Book(state.View(), book.View(), entryDay, daysLong, points)
    {
      ghost var before := Days(r, startCash, s, d);
      entryDay := TradeAtOpen(state, book, r, d, entryDay, before);
      ghost var after := OpenActions(before, r, d);
      assert after == Book(state.View(), book.View(), entryDay, daysLong, points);
      daysLong := MarkDay(state, book, r, d, daysLong, after);
      points := points + [book.View().Marked(bars.close[d])];
      assert CloseOfDay(after, r, d) == Book(state.View(), book.View(), entryDay, daysLong, points);
      d := d + 1;
    }
    points := SettleUp(state, book, r, e, entryDay, points, Days(r, startCash, s, e));
    result := RunResult(s, e, book.trades, points, daysLong, book.fees);
  }
}
