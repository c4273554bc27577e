/** The paper broker: fractional lots, a taker fee and slippage on every fill. */
module PaperBook {
  import opened Wrappers
  import opened SignalExit

  /** Dust left by a sale that counts as nothing. */
  const DUST := 0.000000001

  datatype OpenPosition = OpenPosition(
    lotId: nat, ticker: string, quantity: real, entryPrice: real, stopLoss: real, entryFee: real)

  datatype Side = BuySide | SellSide
  datatype Order = Order(ticker: string, side: Side, quantity: real, price: real, stopLoss: Option<real>)
  datatype Fill = Fill(ticker: string, side: Side, quantity: real, price: real, fee: real)

  datatype BrokerError = NoStopLoss | NoPosition | SellExceedsHeld

  /** The persisted broker state, with the lot counter and the fixed costs. */
  datatype Broker = Broker(cash: real, lots: seq<OpenPosition>, nextLot: nat, costs: Costs)

  /** Index of the first lot of `ticker`. */
  function FirstLot(lots: seq<OpenPosition>, ticker: string): (found: Option<nat>)
    ensures found.None? <==> forall k :: 0 <= k < |lots| ==> lots[k].ticker != ticker
    ensures found.Some? ==>
              && found.value < |lots| && lots[found.value].ticker == ticker
              && forall k :: 0 <= k < found.value ==> lots[k].ticker != ticker
  {
    if lots == [] then None
    else if lots[0].ticker == ticker then Some(0)
    else
      var rest := FirstLot(lots[1..], ticker);
      assert forall k :: 1 <= k < |lots| ==> lots[k] == lots[1..][k - 1];
      match rest
      case None => None
      case Some(k) => Some(k + 1)
  }

  function Without(lots: seq<OpenPosition>, k: nat): seq<OpenPosition>
    requires k < |lots|
  {
    lots[..k] + lots[k + 1..]
  }

  function FillPrice(side: Side, base: real, costs: Costs): real
    requires costs.Valid()
  {
    if side == BuySide then BuyPrice(base, costs) else SellPrice(base, costs)
  }

  datatype Charges = Charges(notional: real, fee: real)

  function ChargesOf(quantity: real, fill: real, costs: Costs): Charges {
    Charges(quantity * fill, quantity * fill * costs.takerFee)
  }

  datatype Placed = Placed(broker: Broker, result: Result<Fill, BrokerError>)

  /** One order on the broker state. A refused order changes nothing. */
  function Place(b: Broker, order: Order, market: Option<real>): (p: Placed)
    requires b.costs.Valid()
    ensures p.result.Failure? ==> p.broker == b
    ensures p.broker.costs == b.costs
  {
    var base := if market.Some? then market.value else order.price;
    var fill := FillPrice(order.side, base, b.costs);
    var Charges(notional, fee) := ChargesOf(order.quantity, fill, b.costs);
    var done := Fill(order.ticker, order.side, order.quantity, fill, fee);
    if order.side == BuySide then
      if order.stopLoss.None? then Placed(b, Failure(NoStopLoss)) else
        var lot := OpenPosition(b.nextLot, order.ticker, order.quantity, fill, order.stopLoss.value, fee);
        Placed(b.(cash := b.cash - (notional + fee), lots := b.lots + [lot], nextLot := b.nextLot + 1), Success(done))
    else
      match FirstLot(b.lots, order.ticker)
      case None => Placed(b, Failure(NoPosition))
      case Some(k) =>
        if order.quantity > b.lots[k].quantity + DUST then Placed(b, Failure(SellExceedsHeld)) else
          var remaining := b.lots[k].quantity - order.quantity;
          var lots :=
            if remaining <= DUST then Without(b.lots, k)
            else b.lots[k := b.lots[k].(quantity := remaining)];
          Placed(b.(cash := b.cash + (notional - fee), lots := lots), Success(done))
  }

  class PaperBroker {
    var cash: real
    var lots: seq<OpenPosition>
    var nextLot: nat
    /** Every fill so far. It is not persisted. */
    var fills: seq<Fill>
    const costs: Costs

    function View(): Broker
      reads this
    {
      Broker(cash, lots, nextLot, costs)
    }

    constructor (b: Broker)
      ensures View() == b && fills == []
    {
      cash, lots, nextLot, fills, costs := b.cash, b.lots, b.nextLot, [], b.costs;
    }

    method PlaceOrder(order: Order, market: Option<real>) returns (result: Result<Fill, BrokerError>)
      requires costs.Valid()
      modifies this
      ensures View() == Place(old(View()), order, market).broker
      ensures result == Place(old(View()), order, market).result
      ensures fills == old(fills) + if result.Success? then [result.value] else []
    {
      var base := if market.Some? then market.value else order.price;
      var fill := FillPrice(order.side, base, costs);
      var Charges(notional, fee) := ChargesOf(order.quantity, fill, costs);
      if order.side == BuySide {
        if order.stopLoss.None? {
          return Failure(NoStopLoss);
        }
        lots := lots + [OpenPosition(nextLot, order.ticker, order.quantity, fill, order.stopLoss.value, fee)];
        nextLot := nextLot + 1;
        cash := cash - (notional + fee);
      } else {
        var target := FirstLot(lots, order.ticker);
        if target.None? {
          return Failure(NoPosition);
        }
        var k := target.value;
        if order.quantity > lots[k].quantity + DUST {
          return Failure(SellExceedsHeld);
        }
        var remaining := lots[k].quantity - order.quantity;
        cash := cash + (notional - fee);
        if remaining <= DUST {
          lots := Without(lots, k);
        } else {
          lots := lots[k := lots[k].(quantity := remaining)];
        }
      }
      fills := fills + [Fill(order.ticker, order.side, order.quantity, fill, fee)];
      result := Success(Fill(order.ticker, order.side, order.quantity, fill, fee));
    }

    /** Sell one lot's quantity. The order names the ticker, not the lot. */
    method CloseLot(lot: OpenPosition, price: real) returns (result: Result<Fill, BrokerError>)
      requires costs.Valid()
      modifies this
      ensures View() == Closed(old(View()), lot, price).broker
      ensures result == Closed(old(View()), lot, price).result
      ensures fills == old(fills) + if result.Success? then [result.value] else []
    {
      result := PlaceOrder(Order(lot.ticker, SellSide, lot.quantity, price, None), Some(price));
    }
  }

  function Closed(b: Broker, lot: OpenPosition, price: real): Placed
    requires b.costs.Valid()
  {
    Place(b, Order(lot.ticker, SellSide, lot.quantity, price, None), Some(price))
  }

  ghost predicate DistinctIds(lots: seq<OpenPosition>) {
    forall i, j :: 0 <= i < j < |lots| ==> lots[i].lotId != lots[j].lotId
  }

  /** Closing a lot closes that lot exactly when it is the oldest of its ticker: the broker
      sells from the first lot, whichever lot was named. */
  lemma CloseLotHitsTheFirst(b: Broker, k: nat, price: real)
    requires b.costs.Valid() && k < |b.lots| && DistinctIds(b.lots)
    ensures var after := Closed(b, b.lots[k], price).broker;
            b.lots[k] !in after.lots <==> FirstLot(b.lots, b.lots[k].ticker) == Some(k)
  {
    var lot := b.lots[k];
    var first := FirstLot(b.lots, lot.ticker).value;
    var after := Closed(b, lot, price).broker;
    if first == k {
      assert after.lots == Without(b.lots, k);
      forall i | 0 <= i < |after.lots|
        ensures after.lots[i] != lot
      {
        assert after.lots[i] == b.lots[if i < k then i else i + 1];
      }
    } else {
      assert first < k;
      if after.lots == Without(b.lots, first) {
        assert after.lots[k - 1] == lot;
      } else {
        assert after.lots[k] == lot;
      }
    }
  }

  /** Two lots of one ticker, alike but for their number. */
  function Pair(ticker: string, quantity: real, entry: real, stop: real, fee: real): seq<OpenPosition> {
    [OpenPosition(0, ticker, quantity, entry, stop, fee), OpenPosition(1, ticker, quantity, entry, stop, fee)]
  }

  /** Closing the second of them closes the first. */
  lemma ClosingTheSecondClosesTheFirst(b: Broker, ticker: string, quantity: real, entry: real, stop: real, price: real)
    requires b.costs.Valid() && b.lots == Pair(ticker, quantity, entry, stop, 0.0)
    ensures Closed(b, b.lots[1], price).broker.lots == [b.lots[1]]
    ensures Closed(b, b.lots[1], price).result.Success?
  {
    assert FirstLot(b.lots, ticker) == Some(0);
  }

  // ----- selling a whole ticker, lot by lot

  function Held(lots: seq<OpenPosition>, ticker: string): seq<OpenPosition> {
    if lots == [] then []
    else (if lots[0].ticker == ticker then [lots[0]] else []) + Held(lots[1..], ticker)
  }

  lemma {:induction false} HeldEmptyIffNoFirst(lots: seq<OpenPosition>, ticker: string)
    ensures Held(lots, ticker) == [] <==> FirstLot(lots, ticker).None?
    ensures FirstLot(lots, ticker).Some? ==>
              && Held(lots, ticker)[0] == lots[FirstLot(lots, ticker).value]
              && Held(Without(lots, FirstLot(lots, ticker).value), ticker) == Held(lots, ticker)[1..]
  {
    if lots != [] && lots[0].ticker == ticker {
      assert Without(lots, 0) == lots[1..];
    } else if lots != [] {
      HeldEmptyIffNoFirst(lots[1..], ticker);
      var rest := FirstLot(lots[1..], ticker);
      if rest.Some? {
        var k := rest.value;
        assert FirstLot(lots, ticker) == Some(k + 1);
        assert Without(lots, k + 1)[0] == lots[0];
        assert Without(lots, k + 1)[1..] == Without(lots[1..], k);
      }
    }
  }

  /** Selling the oldest lot of a ticker takes it off the book at the slipped price. */
  lemma OldestIsSold(b: Broker, ticker: string, price: real)
    requires b.costs.Valid() && Held(b.lots, ticker) != []
    ensures var lot, s := Held(b.lots, ticker)[0], SellFill(Held(b.lots, ticker)[0].quantity, price, b.costs);
            && Closed(b, lot, price).result == Success(Fill(ticker, SellSide, lot.quantity, s.fill, s.fee))
            && Held(Closed(b, lot, price).broker.lots, ticker) == Held(b.lots, ticker)[1..]
  {
    HeldEmptyIffNoFirst(b.lots, ticker);
    var k := FirstLot(b.lots, ticker).value;
    var lot := b.lots[k];
    SaleCharges(lot.quantity, price, b.costs);
    hide SellFill, ChargesOf, FillPrice, SellPrice;
    assert Closed(b, lot, price).broker.lots == Without(b.lots, k);
  }

  lemma SaleCharges(quantity: real, price: real, costs: Costs)
    requires costs.Valid()
    ensures var s, fill := SellFill(quantity, price, costs), FillPrice(SellSide, price, costs);
            s.fill == fill && s.fee == ChargesOf(quantity, fill, costs).fee
  {
  }

  /** Close the listed lots in order, as a loop over a snapshot of the held lots does. */
  function CloseAll(b: Broker, held: seq<OpenPosition>, price: real): Broker
    requires b.costs.Valid()
    decreases |held|
  {
    if held == [] then b else CloseAll(Closed(b, held[0], price).broker, held[1..], price)
  }

  lemma CloseAllStep(b: Broker, held: seq<OpenPosition>, k: nat, price: real)
    requires b.costs.Valid() && k < |held|
    ensures CloseAll(b, held[k..], price) == CloseAll(Closed(b, held[k], price).broker, held[k + 1..], price)
    ensures held[k..][0] == held[k] && held[k..][1..] == held[k + 1..]
  {
  }

  lemma CloseAllNone(b: Broker, price: real)
    requires b.costs.Valid()
    ensures CloseAll(b, [], price) == b
  {
  }

  function Proceeds(held: seq<OpenPosition>, price: real, costs: Costs): real
    requires costs.Valid()
  {
    if held == [] then 0.0
    else SellFill(held[0].quantity, price, costs).proceeds + Proceeds(held[1..], price, costs)
  }

  /** Closing a ticker's lots oldest first always hits the intended lot: nothing of the
      ticker is left, no order is refused, and the cash gains each lot's proceeds. */
  lemma {:induction false} CloseAllLeavesNone(b: Broker, ticker: string, price: real)
    requires b.costs.Valid()
    ensures var after := CloseAll(b, Held(b.lots, ticker), price);
            && Held(after.lots, ticker) == []
            && after.cash == b.cash + Proceeds(Held(b.lots, ticker), price, b.costs)
            && after.costs == b.costs && after.nextLot == b.nextLot
    decreases |b.lots|
  {
    HeldEmptyIffNoFirst(b.lots, ticker);
    var held := Held(b.lots, ticker);
    if held != [] {
      var k := FirstLot(b.lots, ticker).value;
      var next := Closed(b, held[0], price).broker;
      assert next.lots == Without(b.lots, k);
      assert held[0].ticker == ticker;
      SaleCash(b, held[0], price);
      CloseAllLeavesNone(next, ticker, price);
    }
  }

  lemma SaleCash(b: Broker, lot: OpenPosition, price: real)
    requires b.costs.Valid() && Closed(b, lot, price).result.Success?
    ensures Closed(b, lot, price).broker.cash == b.cash + SellFill(lot.quantity, price, b.costs).proceeds
  {
  }

  // ----- what an order costs

  function Value(quantity: real, price: real): real {
    quantity * price
  }

  /** The lots at these prices. */
  function HeldWorth(lots: seq<OpenPosition>, prices: string -> real): real {
    if lots == [] then 0.0 else Value(lots[0].quantity, prices(lots[0].ticker)) + HeldWorth(lots[1..], prices)
  }

  function Equity(b: Broker, prices: string -> real): real {
    b.cash + HeldWorth(b.lots, prices)
  }

  lemma {:induction false} WorthAppend(lots: seq<OpenPosition>, lot: OpenPosition, prices: string -> real)
    ensures HeldWorth(lots + [lot], prices) == HeldWorth(lots, prices) + Value(lot.quantity, prices(lot.ticker))
  {
    if lots != [] {
      assert (lots + [lot])[1..] == lots[1..] + [lot];
      WorthAppend(lots[1..], lot, prices);
    } else {
      assert (lots + [lot])[1..] == [];
    }
  }

  lemma {:induction false} WorthWithout(lots: seq<OpenPosition>, k: nat, prices: string -> real)
    requires k < |lots|
    ensures HeldWorth(Without(lots, k), prices) ==
            HeldWorth(lots, prices) - Value(lots[k].quantity, prices(lots[k].ticker))
  {
    if k == 0 {
      assert Without(lots, 0) == lots[1..];
    } else {
      WorthWithout(lots[1..], k - 1, prices);
      assert Without(lots, k)[1..] == Without(lots[1..], k - 1);
    }
  }

  lemma {:induction false} WorthOfCut(lots: seq<OpenPosition>, k: nat, quantity: real, prices: string -> real)
    requires k < |lots|
    ensures var price := prices(lots[k].ticker);
            HeldWorth(lots[k := lots[k].(quantity := quantity)], prices) ==
            HeldWorth(lots, prices) - Value(lots[k].quantity, price) + Value(quantity, price)
  {
    var cut := lots[k := lots[k].(quantity := quantity)];
    if k == 0 {
      assert cut[1..] == lots[1..];
    } else {
      assert cut[1..] == lots[1..][k - 1 := lots[1..][k - 1].(quantity := quantity)];
      WorthOfCut(lots[1..], k - 1, quantity, prices);
    }
  }

  /** What slippage takes on this quantity at this market price. */
  function Slipped(quantity: real, market: real, costs: Costs): real {
    quantity * market * costs.slippage
  }

  lemma BuyAmount(quantity: real, market: real, costs: Costs)
    requires costs.Valid()
    ensures Value(quantity, FillPrice(BuySide, market, costs)) ==
            Value(quantity, market) + Slipped(quantity, market, costs)
  {
  }

  lemma SaleAmount(quantity: real, market: real, costs: Costs)
    requires costs.Valid()
    ensures Value(quantity, FillPrice(SellSide, market, costs)) ==
            Value(quantity, market) - Slipped(quantity, market, costs)
  {
  }

  /** The order can be filled: a buy names a stop, a sale is of no more than its oldest lot holds. */
  predicate Fillable(b: Broker, order: Order) {
    if order.side == BuySide then order.stopLoss.Some?
    else
      var first := FirstLot(b.lots, order.ticker);
      first.Some? && order.quantity <= b.lots[first.value].quantity + DUST
  }

  /** The dust a sale leaves in its lot and drops with it. */
  function Dropped(b: Broker, order: Order): real
    requires order.side == SellSide && Fillable(b, order)
  {
    var left := b.lots[FirstLot(b.lots, order.ticker).value].quantity - order.quantity;
    if left <= DUST then left else 0.0
  }

  /** An order is filled if and only if it can be; the fill is of its whole quantity, at the market
      with the slippage against it, for the taker fee on that. */
  lemma FillsIffFillable(b: Broker, order: Order, market: real)
    requires b.costs.Valid()
    ensures var r := Place(b, order, Some(market)).result;
            && (r.Success? <==> Fillable(b, order))
            && (r.Success? ==>
                  var fill := FillPrice(order.side, market, b.costs);
                  r.value == Fill(order.ticker, order.side, order.quantity, fill,
                                  Value(order.quantity, fill) * b.costs.takerFee))
  {
  }

  lemma BuyChanges(b: Broker, order: Order, market: real, prices: string -> real)
    requires b.costs.Valid() && order.side == BuySide && order.stopLoss.Some?
    ensures var p := Place(b, order, Some(market));
            var notional := Value(order.quantity, FillPrice(BuySide, market, b.costs));
            && p.result.Success? && p.broker.cash == b.cash - notional - p.result.value.fee
            && HeldWorth(p.broker.lots, prices) ==
               HeldWorth(b.lots, prices) + Value(order.quantity, prices(order.ticker))
  {
    hide FillPrice, HeldWorth;
    var lots := Place(b, order, Some(market)).broker.lots;
    WorthAppend(b.lots, lots[|b.lots|], prices);
  }

  lemma Less(a: real, b: real, price: real)
    ensures Value(a - b, price) == Value(a, price) - Value(b, price)
  {
  }

  lemma SaleLots(b: Broker, order: Order, market: real, prices: string -> real)
    requires b.costs.Valid() && order.side == SellSide && Fillable(b, order)
    ensures var price := prices(order.ticker);
            HeldWorth(Place(b, order, Some(market)).broker.lots, prices) ==
            HeldWorth(b.lots, prices) - Value(order.quantity, price) - Value(Dropped(b, order), price)
  {
    hide FillPrice, HeldWorth, ChargesOf, Value;
    var k := FirstLot(b.lots, order.ticker).value;
    var left, price := b.lots[k].quantity - order.quantity, prices(order.ticker);
    WorthWithout(b.lots, k, prices);
    WorthOfCut(b.lots, k, left, prices);
    Less(b.lots[k].quantity, order.quantity, price);
    Less(0.0, 0.0, price);
  }

  lemma SaleChanges(b: Broker, order: Order, market: real)
    requires b.costs.Valid() && order.side == SellSide && Fillable(b, order)
    ensures var p := Place(b, order, Some(market));
            var notional := Value(order.quantity, FillPrice(SellSide, market, b.costs));
            p.result.Success? && p.broker.cash == b.cash + notional - p.result.value.fee
  {
    hide FillPrice;
  }

  /** A fill changes the equity at its market price by its slippage and its fee and nothing else,
      but for the dust of at most a billionth of a unit that a sale drops with its lot. */
  lemma EquityFallsByTheCosts(b: Broker, order: Order, market: real, prices: string -> real)
    requires b.costs.Valid() && Fillable(b, order) && prices(order.ticker) == market
    ensures var p := Place(b, order, Some(market));
            && p.result.Success?
            && Equity(p.broker, prices) ==
               Equity(b, prices) - Slipped(order.quantity, market, b.costs) - p.result.value.fee
               - (if order.side == BuySide then 0.0 else Value(Dropped(b, order), market))
            && (order.side == SellSide ==> -0.000000001 <= Dropped(b, order) <= 0.000000001)
  {
    FillsIffFillable(b, order, market);
    hide Place, FillPrice, Slipped, HeldWorth, Value;
    if order.side == BuySide {
      BuyAmount(order.quantity, market, b.costs);
      BuyChanges(b, order, market, prices);
    } else {
      SaleAmount(order.quantity, market, b.costs);
      SaleChanges(b, order, market);
      SaleLots(b, order, market, prices);
    }
  }

  // ----- lot numbers

  /** Every lot has its own number, and the next one is free. */
  ghost predicate Numbered(b: Broker) {
    DistinctIds(b.lots) && forall k :: 0 <= k < |b.lots| ==> b.lots[k].lotId < b.nextLot
  }

  /** No order gives a number twice. */
  lemma NumbersStayDistinct(b: Broker, order: Order, market: Option<real>)
    requires b.costs.Valid() && Numbered(b)
    ensures Numbered(Place(b, order, market).broker)
  {
    hide FillPrice, ChargesOf;
    var lots := Place(b, order, market).broker.lots;
    if order.side == SellSide && Place(b, order, market).result.Success? {
      var k := FirstLot(b.lots, order.ticker).value;
      forall i | 0 <= i < |lots|
        ensures lots[i].lotId == b.lots[if |lots| < |b.lots| && i >= k then i + 1 else i].lotId
      {
      }
    }
  }
}
