/** The pyramiding 5m backtest under the frozen policy: a lot leaves on its stop, its
    take-profit or the end of the window; up to three lots, added only in profit. */
module ManagedBacktest {
  import opened Reals
  import opened Wrappers
  import opened RiskRules

  datatype Params = Params(
    closes: seq<real>, highs: seq<real>, lows: seq<real>, flags: seq<bool>, atr: seq<Option<real>>,
    startCash: real, riskFrac: real, takerFee: real, slippage: real, rr: real,
    warmup: int, scoreFrom: Option<int>, scoreTo: Option<int>)
  {
    predicate Valid() {
      && |flags| == |atr| == |closes|
      && 0.0 <= takerFee < 1.0 && 0.0 <= slippage < 1.0
    }

    /** A missing high or low reads as the close. */
    function High(i: nat): real
      requires i < |closes|
    {
      if i < |highs| then highs[i] else closes[i]
    }

    function Low(i: nat): real
      requires i < |closes|
    {
      if i < |lows| then lows[i] else closes[i]
    }

    function TradeStart(): nat {
      var start := match scoreFrom case None => 0 case Some(f) => if f < 0 then 0 else f;
      if warmup > start then warmup else start
    }

    function End(): nat {
      match scoreTo
      case None => |closes|
      case Some(t) => if t < 0 then 0 else if t < |closes| then t else |closes|
    }

    /** The cash cost of one unit of notional: the worse fill and the fee on it. */
    function CostMult(): real {
      (1.0 + slippage) * (1.0 + takerFee)
    }
  }

  datatype Hit = StopHit | TargetHit | EndHit
  datatype ClosedLot = ClosedLot(lot: Lot, exit: real, hit: Hit, bar: int)

  /** The run's variables. `entered` and `closed` log every lot opened and closed. */
  datatype Book = Book(
    cash: real, fees: real, lots: seq<Lot>, risk: Risk, minCash: real, maxNotionalFrac: real,
    entered: seq<Lot>, closed: seq<ClosedLot>)

  // ----- exits

  function TargetPrice(lot: Lot, rr: real): real {
    lot.entry + rr * (lot.entry - lot.stop)
  }

  function SlippedDown(price: real, slippage: real): real {
    price * (1.0 - slippage)
  }

  /** Where a lot leaves on a bar, the stop first when the bar reaches both. */
  function ExitOf(lot: Lot, high: real, low: real, rr: real, slippage: real): Option<(real, Hit)> {
    if low <= lot.stop then Some((SlippedDown(lot.stop, slippage), StopHit))
    else if high >= TargetPrice(lot, rr) then Some((SlippedDown(TargetPrice(lot, rr), slippage), TargetHit))
    else None
  }

  function Gross(price: real, qty: real): real {
    price * qty
  }

  function FeeOn(gross: real, takerFee: real): real {
    gross * takerFee
  }

  function CloseLot(b: Book, lot: Lot, exit: real, hit: Hit, bar: int, takerFee: real): Book {
    var gross := Gross(exit, lot.qty);
    var fee := FeeOn(gross, takerFee);
    b.(cash := b.cash + (gross - fee), fees := b.fees + fee, closed := b.closed + [ClosedLot(lot, exit, hit, bar)])
  }

  /** One open lot on a bar: closed where it leaves, or still open. */
  function VisitLot(b: Book, lot: Lot, p: Params, i: nat): Book
    requires i < |p.closes|
  {
    match ExitOf(lot, p.High(i), p.Low(i), p.rr, p.slippage)
    case Some((exit, hit)) => CloseLot(b, lot, exit, hit, i, p.takerFee)
    case None => b.(lots := b.lots + [lot])
  }

  /** Visit the first `k` of `lots` in order, the still open ones gathered afresh. */
  function VisitLots(b: Book, lots: seq<Lot>, k: nat, p: Params, i: nat): Book
    requires k <= |lots| && i < |p.closes|
  {
    if k == 0 then b.(lots := []) else VisitLot(VisitLots(b, lots, k - 1, p, i), lots[k - 1], p, i)
  }

  function AfterExits(b: Book, p: Params, i: nat): Book
    requires i < |p.closes|
  {
    VisitLots(b, b.lots, |b.lots|, p, i)
  }

  // ----- equity and entries

  function Notional(lots: seq<Lot>, price: real): real {
    if lots == [] then 0.0 else Notional(lots[..|lots| - 1], price) + Gross(price, lots[|lots| - 1].qty)
  }

  function Equity(b: Book, price: real): real {
    b.cash + Notional(b.lots, price)
  }

  predicate InProfit(lots: seq<Lot>, price: real) {
    forall lot :: lot in lots ==> Gross(price - lot.entry, lot.qty) > 0.0
  }

  function EntryPrice(close: real, slippage: real): real {
    close * (1.0 + slippage)
  }

  function EnterLot(b: Book, p: Params, i: nat, size: real, stop: real): Book
    requires i < |p.closes|
  {
    var entry := EntryPrice(p.closes[i], p.slippage);
    var gross := Gross(entry, size);
    var fee := FeeOn(gross, p.takerFee);
    var lot := Lot(size, entry, stop, i);
    var cash := b.cash - (gross + fee);
    var lots := b.lots + [lot];
    var notional := Notional(lots, p.closes[i]);
    var equity := cash + notional;
    b.(cash := cash, fees := b.fees + fee, lots := lots, entered := b.entered + [lot],
       minCash := Min(b.minCash, cash),
       maxNotionalFrac := if equity > 0.0 then Max(b.maxNotionalFrac, notional / equity) else b.maxNotionalFrac)
  }

  /** The size to enter with, when everything allows an entry on this bar. */
  function EntrySize(b: Book, p: Params, i: nat, equity: real, exited: bool): Option<(real, real)>
    requires p.Valid() && i < |p.closes|
  {
    var close := p.closes[i];
    if exited && b.lots == [] then None
    else if !p.flags[i] || b.risk.halted then None
    else if |b.lots| >= MAX_LOTS_PER_SYMBOL then None
    else if !InProfit(b.lots, close) then None
    else
      var stop := AtrStopPrice(close, p.atr[i]);
      if close <= stop then None
      else
        match SizePosition(b.risk, equity, close, stop, b.lots, 1.0, Some(b.cash), p.CostMult())
        case Refused(_) => None
        case Approved(size) => if size <= 0.0 then None else Some((size, stop))
  }

  /** The exits of a bar and the equity reading that follows them. */
  function Marked(b: Book, p: Params, i: nat): Book
    requires i < |p.closes|
  {
    var b1 := AfterExits(b, p, i);
    b1.(risk := b1.risk.Updated(Equity(b1, p.closes[i])))
  }

  function Bar(b: Book, p: Params, i: nat): Book
    requires p.Valid() && i < |p.closes|
  {
    var b1 := Marked(b, p, i);
    match EntrySize(b1, p, i, Equity(b1, p.closes[i]), |b1.closed| > |b.closed|)
    case None => b1
    case Some((size, stop)) => EnterLot(b1, p, i, size, stop)
  }

  function Fresh(p: Params): Book {
    Book(p.startCash, 0.0, [],
         Risk(p.riskFrac, MAX_OPEN_RISK_FRAC, MAX_DRAWDOWN, p.startCash, false),
         p.startCash, 0.0, [], [])
  }

  /** The book after the bars `[TradeStart, i)`. */
  function Bars(p: Params, i: nat): Book
    requires p.Valid() && p.TradeStart() <= i <= |p.closes|
    decreases i
  {
    if i == p.TradeStart() then Fresh(p) else Bar(Bars(p, i - 1), p, i - 1)
  }

  /** Close the first `k` of `lots` at the window's last close. */
  function CloseFirst(b: Book, lots: seq<Lot>, k: nat, exit: real, bar: int, takerFee: real): Book
    requires k <= |lots|
  {
    if k == 0 then b
    else CloseLot(CloseFirst(b, lots, k - 1, exit, bar, takerFee), lots[k - 1], exit, EndHit, bar, takerFee)
  }

  function Final(p: Params): Book
    requires p.Valid()
  {
    if p.End() <= p.TradeStart() then Fresh(p)
    else
      var b := Bars(p, p.End());
      var exit := SlippedDown(p.closes[p.End() - 1], p.slippage);
      CloseFirst(b, b.lots, |b.lots|, exit, p.End() - 1, p.takerFee).(lots := [])
  }

  // ----- the run as the program performs it

  /** Exit pass over the open lots. */
  method ExitLots(b: Book, p: Params, i: nat) returns (b': Book)
    requires i < |p.closes|
    ensures b' == AfterExits(b, p, i)
  {
    var stillOpen: seq<Lot> := [];
    b' := b;
    var k := 0;
    while k < |b.lots|
      invariant 0 <= k <= |b.lots|
      invariant b'.(lots := stillOpen) == VisitLots(b, b.lots, k, p, i)
    {
      var lot := b.lots[k];
      var exit := ExitOf(lot, p.High(i), p.Low(i), p.rr, p.slippage);
      if exit.Some? {
        b' := CloseLot(b', lot, exit.value.0, exit.value.1, i, p.takerFee);
      } else {
        stillOpen := stillOpen + [lot];
      }
      k := k + 1;
    }
    b' := b'.(lots := stillOpen);
  }

  /** One bar: exits, the equity reading, then perhaps an entry. */
  method TradeBar(b: Book, p: Params, i: nat, risk: RiskManager) returns (b': Book)
    requires p.Valid() && i < |p.closes| && risk.View() == b.risk
    modifies risk
    ensures b' == Bar(b, p, i) && risk.View() == b'.risk
  {
    hide VisitLots, EntrySize, Gross, FeeOn, Notional;
    b' := ExitLots(b, p, i);
    VisitKeepsRisk(b, b.lots, |b.lots|, p, i);
    var exited := |b'.closed| > |b.closed|;
    var equity := Equity(b', p.closes[i]);
    risk.UpdateEquity(equity);
    b' := b'.(risk := risk.View());
    assert b' == Marked(b, p, i);
    var entry := EntrySize(b', p, i, equity, exited);
    if entry.Some? {
      b' := EnterLot(b', p, i, entry.value.0, entry.value.1);
    }
  }

  /** Close whatever is left at the window's last close. */
  method CloseAll(b: Book, exit: real, bar: int, takerFee: real) returns (b': Book)
    ensures b' == CloseFirst(b, b.lots, |b.lots|, exit, bar, takerFee).(lots := [])
  {
    b' := b;
    var k := 0;
    while k < |b.lots|
      invariant 0 <= k <= |b.lots| && b' == CloseFirst(b, b.lots, k, exit, bar, takerFee)
    {
      b' := CloseLot(b', b.lots[k], exit, EndHit, bar, takerFee);
      k := k + 1;
    }
    b' := b'.(lots := []);
  }

  method Backtest(p: Params) returns (b: Book)
    requires p.Valid()
    ensures b == Final(p)
  {
    hide Bar, CloseFirst, SlippedDown;
    b := Fresh(p);
    if p.End() <= p.TradeStart() {
      return;
    }
    var risk := new RiskManager(b.risk);
    var i := p.TradeStart();
    while i < p.End()
      invariant p.TradeStart() <= i <= p.End()
      invariant b == Bars(p, i) && risk.View() == b.risk
    {
      b := TradeBar(b, p, i, risk);
      i := i + 1;
    }
    b := CloseAll(b, SlippedDown(p.closes[p.End() - 1], p.slippage), p.End() - 1, p.takerFee);
  }

  lemma {:induction false} VisitKeepsRisk(b: Book, lots: seq<Lot>, k: nat, p: Params, i: nat)
    requires k <= |lots| && i < |p.closes|
    ensures var b' := VisitLots(b, lots, k, p, i);
            b'.risk == b.risk && b'.entered == b.entered && b'.minCash == b.minCash
            && b'.maxNotionalFrac == b.maxNotionalFrac && b.closed <= b'.closed
  {
    if k > 0 {
      VisitKeepsRisk(b, lots, k - 1, p, i);
    }
  }
}
