/** One tick of the fund and the book it keeps: limited weights become orders, the simulated
    broker fills them, and a long unlevered book stays solvent over every sequence of ticks. */
module FundBook {
  import opened FundWeights
  import opened Ordering
  import opened Reals
  import opened Wrappers

  type Shares = map<int, int>
  type Marks = map<int, real>

  // ----- the simulated broker

  datatype Order = Order(ticker: int, buy: bool, quantity: int, price: real)

  datatype Sim = Sim(cash: real, shares: Shares)

  function Held(shares: Shares, t: int): int {
    if t in shares then shares[t] else 0
  }

  function Signed(o: Order): int {
    if o.buy then o.quantity else -o.quantity
  }

  function Cost(quantity: int, price: real): real {
    quantity as real * price
  }

  /** A position of no shares is forgotten. */
  function WithShares(shares: Shares, t: int, n: int): Shares {
    if n == 0 then shares - {t} else shares[t := n]
  }

  /** A complete fill at the order's price. */
  function Filled(b: Sim, o: Order): Sim {
    Sim(b.cash - Cost(Signed(o), o.price), WithShares(b.shares, o.ticker, Held(b.shares, o.ticker) + Signed(o)))
  }

  function AllFilled(b: Sim, orders: seq<Order>): Sim {
    if orders == [] then b else Filled(AllFilled(b, orders[..|orders| - 1]), orders[|orders| - 1])
  }

  class SimBroker {
    var cash: real
    var shares: Shares

    function View(): Sim
      reads this
    {
      Sim(cash, shares)
    }

    constructor (b: Sim)
      ensures View() == b
    {
      cash, shares := b.cash, b.shares;
    }

    /** An order without a positive price is refused. */
    method PlaceOrder(o: Order) returns (filled: bool)
      modifies this
      ensures filled <==> o.price > 0.0
      ensures View() == if filled then Filled(old(View()), o) else old(View())
    {
      if o.price <= 0.0 {
        return false;
      }
      var n := Held(shares, o.ticker);
      if o.buy {
        shares := shares[o.ticker := n + o.quantity];
        cash := cash - o.quantity as real * o.price;
      } else {
        shares := shares[o.ticker := n - o.quantity];
        cash := cash + o.quantity as real * o.price;
      }
      if shares[o.ticker] == 0 {
        shares := shares - {o.ticker};
      }
      filled := true;
    }
  }

  // ----- orders

  /** What orders are built from: the target weights, the current shares, the marks. */
  datatype Plan = Plan(weights: Weights, shares: Shares, marks: Marks, equity: real) {
    ghost predicate Priced(ts: seq<int>) {
      forall k :: 0 <= k < |ts| ==> ts[k] in marks && marks[ts[k]] > 0.0
    }

    function Wanted(t: int): real {
      if t in weights then weights[t] else 0.0
    }

    /** The target in whole shares, cut towards zero. */
    function Target(t: int): int
      requires t in marks && marks[t] > 0.0
    {
      Truncated(Times(Wanted(t), equity) / marks[t])
    }

    function Delta(t: int): int
      requires t in marks && marks[t] > 0.0
    {
      Target(t) - Held(shares, t)
    }

    function OrderOf(t: int): Order
      requires t in marks && marks[t] > 0.0
    {
      Order(t, Delta(t) > 0, if Delta(t) > 0 then Delta(t) else -Delta(t), marks[t])
    }

    /** The orders of one side over `ts`, in order. */
    function Side(ts: seq<int>, buy: bool): seq<Order>
      requires Priced(ts)
    {
      if ts == [] then []
      else
        var t := ts[|ts| - 1];
        var front := Side(ts[..|ts| - 1], buy);
        if Delta(t) != 0 && (Delta(t) > 0) == buy then front + [OrderOf(t)] else front
    }

    /** All sells, then all buys. */
    function Orders(ts: seq<int>): seq<Order>
      requires Priced(ts)
    {
      Side(ts, false) + Side(ts, true)
    }
  }

  function Truncated(x: real): int {
    if x >= 0.0 then x.Floor else -((-x).Floor)
  }

  /** The loop that builds the orders. */
  method BuildOrders(p: Plan, ts: seq<int>) returns (orders: seq<Order>)
    requires p.Priced(ts)
    ensures orders == p.Orders(ts)
  {
    var sells: seq<Order>, buys: seq<Order> := [], [];
    var k := 0;
    while k < |ts|
      invariant 0 <= k <= |ts|
      invariant p.Priced(ts[..k]) && sells == p.Side(ts[..k], false) && buys == p.Side(ts[..k], true)
    {
      var t := ts[k];
      assert ts[..k + 1][..k] == ts[..k];
      var delta := p.Delta(t);
      if delta > 0 {
        buys := buys + [Order(t, true, delta, p.marks[t])];
      } else if delta < 0 {
        sells := sells + [Order(t, false, -delta, p.marks[t])];
      }
      k := k + 1;
    }
    assert ts[..|ts|] == ts;
    orders := sells + buys;
  }

  // ----- what the fills do

  lemma FillShares(b: Sim, o: Order, t: int)
    ensures Held(Filled(b, o).shares, t) == Held(b.shares, t) + if t == o.ticker then Signed(o) else 0
  {
  }

  lemma FilledOneMore(b: Sim, orders: seq<Order>, o: Order)
    ensures AllFilled(b, orders + [o]) == Filled(AllFilled(b, orders), o)
  {
    assert (orders + [o])[..|orders|] == orders;
  }

  lemma {:induction false} FilledInTwo(b: Sim, first: seq<Order>, second: seq<Order>)
    ensures AllFilled(b, first + second) == AllFilled(AllFilled(b, first), second)
  {
    if second == [] {
      assert first + second == first;
    } else {
      var n := |second| - 1;
      FilledInTwo(b, first, second[..n]);
      assert first + second == (first + second[..n]) + [second[n]];
      FilledOneMore(b, first + second[..n], second[n]);
    }
  }

  /** What one side's orders change a ticker by. */
  function Change(p: Plan, ts: seq<int>, buy: bool, t: int): int
    requires p.Priced(ts)
  {
    if t in ts && t in p.marks && p.marks[t] > 0.0 && (p.Delta(t) > 0) == buy then p.Delta(t) else 0
  }

  /** The last ticker's order, if its side has one, moves that ticker only. */
  lemma SideNext(b: Sim, p: Plan, ts: seq<int>, buy: bool, t: int)
    requires ts != [] && p.Priced(ts)
    ensures var last, front := ts[|ts| - 1], ts[..|ts| - 1];
            Held(AllFilled(b, p.Side(ts, buy)).shares, t) == Held(AllFilled(b, p.Side(front, buy)).shares, t)
            + if t == last && p.Delta(last) != 0 && (p.Delta(last) > 0) == buy then p.Delta(last) else 0
  {
    var last, front := ts[|ts| - 1], ts[..|ts| - 1];
    var d := p.Delta(last);
    if d != 0 && (d > 0) == buy {
      FilledOneMore(b, p.Side(front, buy), p.OrderOf(last));
      FillShares(AllFilled(b, p.Side(front, buy)), p.OrderOf(last), t);
    }
    hide AllFilled, Held;
  }

  lemma ChangeNext(p: Plan, ts: seq<int>, buy: bool, t: int)
    requires ts != [] && p.Priced(ts) && Ascending(ts)
    ensures var last, front := ts[|ts| - 1], ts[..|ts| - 1];
            Change(p, ts, buy, t) == Change(p, front, buy, t)
            + if t == last && p.Delta(last) != 0 && (p.Delta(last) > 0) == buy then p.Delta(last) else 0
  {
    var last, front := ts[|ts| - 1], ts[..|ts| - 1];
    assert ts == front + [last] && last !in front;
  }

  lemma {:induction false} SideMoves(b: Sim, p: Plan, ts: seq<int>, buy: bool, t: int)
    requires p.Priced(ts) && Ascending(ts)
    ensures Held(AllFilled(b, p.Side(ts, buy)).shares, t) == Held(b.shares, t) + Change(p, ts, buy, t)
  {
    if ts != [] {
      SideMoves(b, p, ts[..|ts| - 1], buy, t);
      SideNext(b, p, ts, buy, t);
      ChangeNext(p, ts, buy, t);
    }
  }

  /** After the fills every position is its truncated target. */
  lemma PositionsAreTargets(b: Sim, p: Plan, ts: seq<int>, t: int)
    requires p.Priced(ts) && Ascending(ts) && p.shares == b.shares && t in ts
    ensures Held(AllFilled(b, p.Orders(ts)).shares, t) == p.Target(t)
  {
    FilledInTwo(b, p.Side(ts, false), p.Side(ts, true));
    SideMoves(b, p, ts, false, t);
    SideMoves(AllFilled(b, p.Side(ts, false)), p, ts, true, t);
  }

  /** A position of `n` shares deploys `money` to within a share, never past it. */
  predicate WithinAShare(n: int, money: real, price: real) {
    && (money >= 0.0 ==> 0.0 <= Cost(n, price) <= money < Cost(n + 1, price))
    && (money <= 0.0 ==> Cost(n - 1, price) < money <= Cost(n, price) <= 0.0)
  }

  lemma TruncationIsNear(x: real)
    ensures var n := Truncated(x);
            && (x >= 0.0 ==> 0.0 <= n as real <= x < (n + 1) as real)
            && (x <= 0.0 ==> (n - 1) as real < x <= n as real <= 0.0)
  {
  }

  lemma CostGrows(a: real, b: real, price: real)
    requires price > 0.0
    ensures a < b ==> a * price < b * price
    ensures a <= b ==> a * price <= b * price
  {
    if a < b {
      MulPos(b - a, price);
      assert (b - a) * price == b * price - a * price;
    }
  }

  /** Shares compare with `x` as their cost does with what `x` costs. */
  lemma CostOrder(n: int, x: real, money: real, price: real)
    requires price > 0.0 && x * price == money
    ensures n as real < x <==> Cost(n, price) < money
    ensures n as real > x <==> Cost(n, price) > money
  {
    CostGrows(n as real, x, price);
    CostGrows(x, n as real, price);
  }

  lemma TruncationIsWithinAShare(x: real, money: real, price: real)
    requires price > 0.0 && x * price == money
    ensures WithinAShare(Truncated(x), money, price)
  {
    var n := Truncated(x);
    TruncationIsNear(x);
    CostOrder(n, x, money, price);
    CostOrder(n + 1, x, money, price);
    CostOrder(n - 1, x, money, price);
    CostOrder(0, x, money, price);
    CostGrows(0.0, n as real, price);
    CostGrows(n as real, 0.0, price);
    hide Truncated;
  }

  lemma TargetIsWithinAShare(p: Plan, t: int)
    requires t in p.marks && p.marks[t] > 0.0
    ensures WithinAShare(p.Target(t), Times(p.Wanted(t), p.equity), p.marks[t])
  {
    var money, price := Times(p.Wanted(t), p.equity), p.marks[t];
    hide Times, Truncated, WithinAShare;
    TruncationIsWithinAShare(money / price, money, price);
  }

  /** After the fills every position is worth its weight of equity at the mark to within a share,
      on the same side of zero and never more. */
  lemma PositionsDeployTheirWeights(b: Sim, p: Plan, ts: seq<int>, t: int)
    requires p.Priced(ts) && Ascending(ts) && p.shares == b.shares && t in ts
    ensures WithinAShare(Held(AllFilled(b, p.Orders(ts)).shares, t), Times(p.Wanted(t), p.equity), p.marks[t])
  {
    hide Held, Times, Truncated, WithinAShare, AllFilled, Plan.Orders, Plan.Target;
    PositionsAreTargets(b, p, ts, t);
    TargetIsWithinAShare(p, t);
  }

  // ----- net asset value

  /** The marked value of the positions in `ts`. */
  function Worth(ts: seq<int>, shares: Shares, marks: Marks): real
    requires forall k :: 0 <= k < |ts| ==> ts[k] in marks
  {
    if ts == [] then 0.0
    else Worth(ts[..|ts| - 1], shares, marks) + Cost(Held(shares, ts[|ts| - 1]), marks[ts[|ts| - 1]])
  }

  function Nav(b: Sim, ts: seq<int>, marks: Marks): real
    requires forall k :: 0 <= k < |ts| ==> ts[k] in marks
  {
    b.cash + Worth(ts, b.shares, marks)
  }

  lemma CostAdds(a: int, b: int, price: real)
    ensures Cost(a + b, price) == Cost(a, price) + Cost(b, price)
  {
  }

  lemma {:induction false} WorthMoves(ts: seq<int>, b: Sim, o: Order, marks: Marks)
    requires Ascending(ts) && forall k :: 0 <= k < |ts| ==> ts[k] in marks
    ensures Worth(ts, Filled(b, o).shares, marks)
         == Worth(ts, b.shares, marks) + if o.ticker in ts then Cost(Signed(o), marks[o.ticker]) else 0.0
  {
    if ts != [] {
      var front, last := ts[..|ts| - 1], ts[|ts| - 1];
      WorthMoves(front, b, o, marks);
      FillShares(b, o, last);
      assert ts == front + [last] && last !in front;
      CostAdds(Held(b.shares, last), Signed(o), marks[last]);
      hide Filled, Cost, Held;
    }
  }

  /** A fill at the mark trades value for value. */
  lemma FillKeepsNav(b: Sim, o: Order, ts: seq<int>, marks: Marks)
    requires Ascending(ts) && forall k :: 0 <= k < |ts| ==> ts[k] in marks
    requires o.ticker in ts && o.price == marks[o.ticker]
    ensures Nav(Filled(b, o), ts, marks) == Nav(b, ts, marks)
  {
    WorthMoves(ts, b, o, marks);
  }

  /** Every order is for a ticker of `ts`, at its mark. */
  ghost predicate AtMarks(orders: seq<Order>, ts: seq<int>, marks: Marks) {
    forall k :: 0 <= k < |orders| ==>
      orders[k].ticker in ts && orders[k].ticker in marks && orders[k].price == marks[orders[k].ticker]
  }

  lemma {:induction false} SideAtMarks(p: Plan, ts: seq<int>, whole: seq<int>, buy: bool)
    requires p.Priced(ts) && forall t :: t in ts ==> t in whole
    ensures AtMarks(p.Side(ts, buy), whole, p.marks)
  {
    if ts != [] {
      assert ts == ts[..|ts| - 1] + [ts[|ts| - 1]] && ts[|ts| - 1] in ts;
      SideAtMarks(p, ts[..|ts| - 1], whole, buy);
    }
  }

  lemma {:induction false} FillsKeepNav(b: Sim, orders: seq<Order>, ts: seq<int>, marks: Marks)
    requires Ascending(ts) && (forall k :: 0 <= k < |ts| ==> ts[k] in marks) && AtMarks(orders, ts, marks)
    ensures Nav(AllFilled(b, orders), ts, marks) == Nav(b, ts, marks)
  {
    if orders != [] {
      FillsKeepNav(b, orders[..|orders| - 1], ts, marks);
      FillKeepsNav(AllFilled(b, orders[..|orders| - 1]), orders[|orders| - 1], ts, marks);
    }
  }

  /** Whatever the targets, the net asset value after the cycle is the equity before it. */
  lemma CycleKeepsNav(b: Sim, p: Plan, ts: seq<int>)
    requires p.Priced(ts) && Ascending(ts)
    ensures Nav(AllFilled(b, p.Orders(ts)), ts, p.marks) == Nav(b, ts, p.marks)
  {
    SideAtMarks(p, ts, ts, false);
    SideAtMarks(p, ts, ts, true);
    FillsKeepNav(b, p.Orders(ts), ts, p.marks);
  }

  // ----- a long unlevered book

  /** Target weights that are not negative and sum to at most one. */
  ghost predicate Unlevered(p: Plan) {
    LongOnly(p.weights) && BookGross(p.weights) <= 1.0 && p.equity > 0.0
  }

  lemma TruncatedBelow(x: real)
    requires x >= 0.0
    ensures 0 <= Truncated(x) && Truncated(x) as real <= x
  {
  }

  lemma TargetFits(p: Plan, t: int)
    requires t in p.marks && p.marks[t] > 0.0 && p.equity > 0.0 && LongOnly(p.weights)
    ensures 0 <= p.Target(t) && Cost(p.Target(t), p.marks[t]) <= Times(p.Wanted(t), p.equity)
  {
    var money, mark := Times(p.Wanted(t), p.equity), p.marks[t];
    TimesIsPositive(p.Wanted(t), p.equity);
    Ratio(money, mark);
    TruncatedBelow(money / mark);
    MulLe(p.Target(t) as real, money / mark, mark);
  }

  /** The sum of the wanted weights over `ts`. */
  function WantedTotal(p: Plan, ts: seq<int>): real {
    if ts == [] then 0.0 else WantedTotal(p, ts[..|ts| - 1]) + p.Wanted(ts[|ts| - 1])
  }

  lemma {:induction false} TargetsFit(p: Plan, ts: seq<int>, shares: Shares)
    requires p.Priced(ts) && p.equity > 0.0 && LongOnly(p.weights)
    requires forall k :: 0 <= k < |ts| ==> Held(shares, ts[k]) == p.Target(ts[k])
    ensures Worth(ts, shares, p.marks) <= Times(WantedTotal(p, ts), p.equity)
  {
    if ts == [] {
      assert Times(0.0, p.equity) == 0.0;
    } else {
      var front, last := ts[..|ts| - 1], ts[|ts| - 1];
      TargetsFit(p, front, shares);
      TargetFits(p, last);
      Distributes(WantedTotal(p, front), p.Wanted(last), p.equity);
    }
  }

  lemma FrontOf(ts: seq<int>)
    requires Ascending(ts) && ts != []
    ensures var front, last := ts[..|ts| - 1], ts[|ts| - 1];
            Ascending(front) && forall t :: t in ts <==> t in front || t == last
    ensures ts[|ts| - 1] !in ts[..|ts| - 1]
  {
    assert ts == ts[..|ts| - 1] + [ts[|ts| - 1]];
  }

  lemma FirstWithin(xs: seq<int>, ys: seq<int>)
    requires xs != [] && Within(xs, ys)
    ensures ys != []
  {
    assert xs[0] in ys;
  }

  lemma NoNames(names: seq<int>, ts: seq<int>)
    requires ts == [] && Within(names, ts)
    ensures names == []
  {
    if names != [] {
      FirstWithin(names, ts);
    }
  }

  /** Every element of `xs` is one of `ys`. */
  ghost predicate Within(xs: seq<int>, ys: seq<int>) {
    forall k :: 0 <= k < |xs| ==> xs[k] in ys
  }

  lemma WithinFronts(names: seq<int>, ts: seq<int>)
    requires Ascending(names) && Ascending(ts) && ts != [] && Within(names, ts)
    ensures ts[|ts| - 1] !in names ==> Within(names, ts[..|ts| - 1])
    ensures ts[|ts| - 1] in names ==>
              names != [] && names[|names| - 1] == ts[|ts| - 1] && Within(names[..|names| - 1], ts[..|ts| - 1])
  {
    FrontOf(ts);
    if ts[|ts| - 1] in names {
      LastIsLast(names, ts);
    }
    forall k | 0 <= k < |names| && names[k] != ts[|ts| - 1]
      ensures names[k] in ts[..|ts| - 1]
    {
      assert names[k] in ts;
    }
  }

  /** Over any ascending list that covers the names, the wanted weights sum to the book's gross. */
  lemma {:induction false} WantedIsGross(p: Plan, names: seq<int>, ts: seq<int>)
    requires Ascending(names) && Ascending(ts) && Covers(p.weights, names) && LongOnly(p.weights)
    requires Within(names, ts) && forall t :: t in ts && t in p.weights ==> t in names
    ensures WantedTotal(p, ts) == Gross(names, p.weights)
    decreases |ts|
  {
    if ts == [] {
      NoNames(names, ts);
    } else {
      var last, front := ts[|ts| - 1], ts[..|ts| - 1];
      FrontOf(ts);
      WithinFronts(names, ts);
      hide Within;
      if last in names {
        FrontOf(names);
        hide Ascending;
        WantedIsGross(p, names[..|names| - 1], front);
      } else {
        hide Ascending;
        WantedIsGross(p, names, front);
      }
    }
  }

  lemma LastIsLast(names: seq<int>, ts: seq<int>)
    requires Ascending(names) && Ascending(ts) && ts != [] && ts[|ts| - 1] in names
    requires Within(names, ts)
    ensures names != [] && names[|names| - 1] == ts[|ts| - 1]
  {
    var n := names[|names| - 1];
    assert n in ts;
    var i :| 0 <= i < |names| && names[i] == ts[|ts| - 1];
    var j :| 0 <= j < |ts| && ts[j] == n;
  }

  /** Orders of one side, each for at least one share at a positive price. */
  ghost predicate OneSided(orders: seq<Order>, buy: bool) {
    forall k :: 0 <= k < |orders| ==> orders[k].buy == buy && orders[k].quantity > 0 && orders[k].price > 0.0
  }

  lemma {:induction false} SideIsOneSided(p: Plan, ts: seq<int>, buy: bool)
    requires p.Priced(ts)
    ensures OneSided(p.Side(ts, buy), buy)
  {
    if ts != [] {
      SideIsOneSided(p, ts[..|ts| - 1], buy);
    }
  }

  lemma {:induction false} CashMovesOneWay(b: Sim, orders: seq<Order>, buy: bool)
    requires OneSided(orders, buy)
    ensures if buy then AllFilled(b, orders).cash <= b.cash else AllFilled(b, orders).cash >= b.cash
  {
    if orders != [] {
      var o := orders[|orders| - 1];
      CashMovesOneWay(b, orders[..|orders| - 1], buy);
      MulPos(o.quantity as real, o.price);
      assert Cost(-o.quantity, o.price) == -Cost(o.quantity, o.price);
    }
  }

  /** The book and the plan made from it: the plan's shares and equity are the book's, and
      `ts` lists everything held or targeted. */
  ghost predicate Made(b: Sim, p: Plan, ts: seq<int>) {
    && p.Priced(ts) && Ascending(ts) && p.shares == b.shares && p.equity == Nav(b, ts, p.marks)
    && (forall t :: t in p.weights ==> t in ts) && forall t :: t in b.shares ==> t in ts
  }

  lemma AtMostAll(part: real, equity: real)
    requires part <= 1.0 && equity >= 0.0
    ensures Times(part, equity) <= equity
  {
    MulLe(part, 1.0, equity);
  }

  lemma FinalCash(b: Sim, p: Plan, ts: seq<int>)
    requires Made(b, p, ts) && Unlevered(p)
    ensures AllFilled(b, p.Orders(ts)).cash >= 0.0
  {
    var after := AllFilled(b, p.Orders(ts));
    CycleKeepsNav(b, p, ts);
    forall k | 0 <= k < |ts| ensures Held(after.shares, ts[k]) == p.Target(ts[k]) {
      PositionsAreTargets(b, p, ts, ts[k]);
    }
    TargetsFit(p, ts, after.shares);
    WantedIsGross(p, Names(p.weights), ts);
    assert WantedTotal(p, ts) <= 1.0;
    AtMostAll(WantedTotal(p, ts), p.equity);
  }

  /** With long-only targets of at most the equity, no fill ever overdraws the cash: the
      sells come first, and the buys cannot spend more than the last balance leaves. */
  lemma NoFillOverdraws(b: Sim, p: Plan, ts: seq<int>, k: nat)
    requires Made(b, p, ts) && Unlevered(p) && b.cash >= 0.0 && k <= |p.Orders(ts)|
    ensures AllFilled(b, p.Orders(ts)[..k]).cash >= 0.0
  {
    var sells, buys := p.Side(ts, false), p.Side(ts, true);
    SideIsOneSided(p, ts, false);
    SideIsOneSided(p, ts, true);
    var orders := p.Orders(ts);
    if k <= |sells| {
      assert orders[..k] == sells[..k];
      CashMovesOneWay(b, sells[..k], false);
    } else {
      assert orders == orders[..k] + orders[k..];
      assert orders[k..] == buys[k - |sells|..];
      FilledInTwo(b, orders[..k], orders[k..]);
      CashMovesOneWay(AllFilled(b, orders[..k]), orders[k..], true);
      FinalCash(b, p, ts);
    }
  }

  // ----- one tick

  datatype Failure = Unpriced(ticker: int) | NoEquity(equity: real)

  datatype Tick = Tick(universe: set<int>, marks: Marks, netted: Weights) {
    /** Marks are positive, and the netted weights are those of the priced universe. */
    ghost predicate Valid() {
      (forall t :: t in marks ==> marks[t] > 0.0) && netted.Keys == universe * marks.Keys
    }
  }

  function TickTickers(b: Sim, k: Tick): seq<int> {
    InOrder(k.netted.Keys + b.shares.Keys)
  }

  function PlanOf(b: Sim, k: Tick, l: Limits): Plan
    requires l.Valid() && b.shares.Keys <= k.marks.Keys && k.netted.Keys <= k.marks.Keys
  {
    TickersPriced(b, k);
    Plan(Limited(k.netted, l), b.shares, k.marks, Nav(b, TickTickers(b, k), k.marks))
  }

  lemma TickersPriced(b: Sim, k: Tick)
    requires b.shares.Keys <= k.marks.Keys && k.netted.Keys <= k.marks.Keys
    ensures var ts := TickTickers(b, k); forall i :: 0 <= i < |ts| ==> ts[i] in k.marks
  {
    var ts := TickTickers(b, k);
    forall i | 0 <= i < |ts| ensures ts[i] in k.marks {
      assert ts[i] in ts;
    }
  }

  lemma PlanPriced(b: Sim, k: Tick, l: Limits)
    requires k.Valid() && l.Valid() && b.shares.Keys <= k.marks.Keys
    ensures PlanOf(b, k, l).Priced(TickTickers(b, k))
  {
    TickersPriced(b, k);
  }

  /** The book after a tick, or why there is none: a held name without a price, or a book
      with nothing left to size by. */
  function RunCycle(b: Sim, k: Tick, l: Limits): Result<Sim, Failure>
    requires k.Valid() && l.Valid()
  {
    if b.shares.Keys - k.marks.Keys != {} then Result.Failure(Unpriced(First(b.shares.Keys - k.marks.Keys)))
    else
      assert b.shares.Keys <= k.marks.Keys by { AllPriced(b, k); }
      var p := PlanOf(b, k, l);
      if p.equity <= 0.0 then Result.Failure(NoEquity(p.equity))
      else
        PlanPriced(b, k, l);
        Success(AllFilled(b, p.Orders(TickTickers(b, k))))
  }

  lemma AllPriced(b: Sim, k: Tick)
    requires b.shares.Keys - k.marks.Keys == {}
    ensures b.shares.Keys <= k.marks.Keys
  {
    forall t | t in b.shares.Keys ensures t in k.marks.Keys {
      assert t !in b.shares.Keys - k.marks.Keys;
    }
  }

  // ----- every sequence of ticks

  /** No debt, no shorts, no empty positions, and not nothing at all. */
  ghost predicate Alive(b: Sim) {
    && b.cash >= 0.0 && (forall t :: t in b.shares ==> b.shares[t] > 0)
    && (b.cash > 0.0 || b.shares != map[])
  }

  lemma {:induction false} WorthIsPositive(ts: seq<int>, shares: Shares, marks: Marks)
    requires forall k :: 0 <= k < |ts| ==> ts[k] in marks && marks[ts[k]] > 0.0
    requires forall t :: t in shares ==> shares[t] > 0
    ensures Worth(ts, shares, marks) >= 0.0
    ensures (exists k :: 0 <= k < |ts| && ts[k] in shares) ==> Worth(ts, shares, marks) > 0.0
    ensures (forall k :: 0 <= k < |ts| ==> ts[k] !in shares) ==> Worth(ts, shares, marks) == 0.0
  {
    if ts != [] {
      var front, last := ts[..|ts| - 1], ts[|ts| - 1];
      WorthIsPositive(front, shares, marks);
      assert Cost(0, marks[last]) == 0.0;
      if last in shares {
        MulPos(shares[last] as real, marks[last]);
      }
      if k :| 0 <= k < |ts| && ts[k] in shares {
        assert k < |front| ==> front[k] in shares;
      }
    }
  }

  /** However the marks move, a live book has positive equity. */
  lemma AliveHasEquity(b: Sim, ts: seq<int>, marks: Marks)
    requires Alive(b) && (forall t :: t in b.shares ==> t in ts)
    requires forall k :: 0 <= k < |ts| ==> ts[k] in marks && marks[ts[k]] > 0.0
    ensures Nav(b, ts, marks) > 0.0
  {
    WorthIsPositive(ts, b.shares, marks);
    if b.cash <= 0.0 {
      assert b.shares.Keys != {};
      assert First(b.shares.Keys) in ts;
    }
  }

  ghost predicate NoEmptyPositions(shares: Shares) {
    forall t :: t in shares ==> shares[t] != 0
  }

  lemma {:induction false} FillsLeaveNoEmptyPositions(b: Sim, orders: seq<Order>)
    requires NoEmptyPositions(b.shares)
    ensures NoEmptyPositions(AllFilled(b, orders).shares)
  {
    if orders != [] {
      FillsLeaveNoEmptyPositions(b, orders[..|orders| - 1]);
    }
  }

  lemma OnlyTargetsAreHeld(b: Sim, p: Plan, ts: seq<int>, t: int)
    requires Made(b, p, ts) && NoEmptyPositions(b.shares) && LongOnly(p.weights) && p.equity > 0.0
    ensures var after := AllFilled(b, p.Orders(ts)).shares; t in after ==> t in ts && after[t] > 0
  {
    FillsLeaveNoEmptyPositions(b, p.Orders(ts));
    if t in ts {
      PositionsAreTargets(b, p, ts, t);
      TargetFits(p, t);
    } else {
      FilledInTwo(b, p.Side(ts, false), p.Side(ts, true));
      SideMoves(b, p, ts, false, t);
      SideMoves(AllFilled(b, p.Side(ts, false)), p, ts, true, t);
    }
  }

  lemma CycleStaysAlive(b: Sim, p: Plan, ts: seq<int>)
    requires Made(b, p, ts) && Unlevered(p) && Alive(b)
    ensures Alive(AllFilled(b, p.Orders(ts)))
  {
    var after := AllFilled(b, p.Orders(ts));
    FinalCash(b, p, ts);
    CycleKeepsNav(b, p, ts);
    forall t | t in after.shares ensures after.shares[t] > 0 {
      OnlyTargetsAreHeld(b, p, ts, t);
    }
    WorthIsPositive(ts, after.shares, p.marks);
  }

  lemma TickIsMade(b: Sim, k: Tick, l: Limits)
    requires k.Valid() && l.Valid() && l.maxGross <= 1.0 && LongOnly(k.netted) && Alive(b)
    requires b.shares.Keys <= k.marks.Keys
    ensures var p := PlanOf(b, k, l); Made(b, p, TickTickers(b, k)) && Unlevered(p)
  {
    hide Limited, BookGross, Nav, InOrder, Alive, LongOnly, Shrunk, Plan.Priced, TickTickers;
    var ts := TickTickers(b, k);
    PlanPriced(b, k, l);
    TickTickersAre(b, k);
    LimitsOnlyShrink(k.netted, l);
    StillLong(k.netted, Limited(k.netted, l));
    MarksArePositive(b, k);
    AliveHasEquity(b, ts, k.marks);
  }

  lemma MarksArePositive(b: Sim, k: Tick)
    requires k.Valid() && b.shares.Keys <= k.marks.Keys
    ensures var ts := TickTickers(b, k); forall i :: 0 <= i < |ts| ==> ts[i] in k.marks && k.marks[ts[i]] > 0.0
  {
    TickersPriced(b, k);
  }

  lemma TickTickersAre(b: Sim, k: Tick)
    ensures Ascending(TickTickers(b, k)) && forall t :: t in TickTickers(b, k) <==> t in k.netted || t in b.shares
  {
  }

  lemma StillLong(w: Weights, v: Weights)
    requires LongOnly(w) && Shrunk(w, v)
    ensures LongOnly(v) && v.Keys == w.Keys
  {
  }

  /** A long-only unlevered tick: the non-positive-equity error cannot happen, and the book
      comes out of it alive. */
  lemma TickStaysAlive(b: Sim, k: Tick, l: Limits)
    requires k.Valid() && l.Valid() && l.maxGross <= 1.0 && LongOnly(k.netted) && Alive(b)
    ensures var r := RunCycle(b, k, l); if r.Success? then Alive(r.value) else r.error.Unpriced?
  {
    if b.shares.Keys - k.marks.Keys == {} {
      AllPriced(b, k);
      TickIsMade(b, k, l);
      CycleStaysAlive(b, PlanOf(b, k, l), TickTickers(b, k));
    }
  }

  function RunTicks(b: Sim, ticks: seq<Tick>, l: Limits): Result<Sim, Failure>
    requires l.Valid() && forall i :: 0 <= i < |ticks| ==> ticks[i].Valid()
  {
    if ticks == [] then Success(b)
    else
      var before := RunTicks(b, ticks[..|ticks| - 1], l);
      if before.Success? then RunCycle(before.value, ticks[|ticks| - 1], l) else before
  }

  /** Over every sequence of long-only unlevered ticks, at any positive marks, the fund that
      starts with cash never runs into a non-positive equity. */
  lemma {:induction false} TheFundNeverRunsOut(b: Sim, ticks: seq<Tick>, l: Limits)
    requires l.Valid() && l.maxGross <= 1.0 && Alive(b)
    requires forall i :: 0 <= i < |ticks| ==> ticks[i].Valid() && LongOnly(ticks[i].netted)
    ensures var r := RunTicks(b, ticks, l); if r.Success? then Alive(r.value) else r.error.Unpriced?
  {
    hide RunCycle, Alive;
    if ticks != [] {
      TheFundNeverRunsOut(b, ticks[..|ticks| - 1], l);
      var before := RunTicks(b, ticks[..|ticks| - 1], l);
      if before.Success? {
        TickStaysAlive(before.value, ticks[|ticks| - 1], l);
      }
    }
  }

  /** The book at the tick's marks, over what was held or tradeable before it. */
  function NavAt(b: Sim, before: Sim, k: Tick): real
    requires before.shares.Keys <= k.marks.Keys && k.netted.Keys <= k.marks.Keys
  {
    TickersPriced(before, k);
    Nav(b, TickTickers(before, k), k.marks)
  }

  /** A tick trades value for value: the net asset value after it is the equity before it. */
  lemma TickKeepsNav(b: Sim, k: Tick, l: Limits)
    requires k.Valid() && l.Valid() && b.shares.Keys <= k.marks.Keys && RunCycle(b, k, l).Success?
    ensures NavAt(RunCycle(b, k, l).value, b, k) == NavAt(b, b, k)
  {
    PlanPriced(b, k, l);
    AllPricedBack(b, k);
    CycleKeepsNav(b, PlanOf(b, k, l), TickTickers(b, k));
  }

  lemma AllPricedBack(b: Sim, k: Tick)
    requires b.shares.Keys <= k.marks.Keys
    ensures b.shares.Keys - k.marks.Keys == {}
  {
  }

  /** The tick as the program performs it, order by order on the broker. */
  method RunTick(broker: SimBroker, k: Tick, l: Limits) returns (r: Result<real, Failure>)
    requires k.Valid() && l.Valid()
    modifies broker
    ensures var b0 := old(broker.View());
            var c := RunCycle(b0, k, l);
            && (c.Failure? ==> r == Result.Failure(c.error) && broker.View() == old(broker.View()))
            && (c.Success? ==> broker.View() == c.value && b0.shares.Keys <= k.marks.Keys
                               && r == Success(NavAt(c.value, b0, k)))
  {
    hide TickTickers, Limited, Clamps;
    var before := broker.View();
    var unpriced := broker.shares.Keys - k.marks.Keys;
    if unpriced != {} {
      return Result.Failure(Unpriced(First(unpriced)));
    }
    AllPriced(broker.View(), k);
    PlanPriced(broker.View(), k, l);
    var p := PlanOf(broker.View(), k, l);
    if p.equity <= 0.0 {
      return Result.Failure(NoEquity(p.equity));
    }
    var ts := TickTickers(broker.View(), k);
    var orders := BuildOrders(p, ts);
    SideIsOneSided(p, ts, false);
    SideIsOneSided(p, ts, true);
    assert forall i :: 0 <= i < |orders| ==> orders[i].price > 0.0;
    FillAll(broker, orders);
    r := Success(NavAt(broker.View(), before, k));
  }

  method FillAll(broker: SimBroker, orders: seq<Order>)
    requires forall i :: 0 <= i < |orders| ==> orders[i].price > 0.0
    modifies broker
    ensures broker.View() == AllFilled(old(broker.View()), orders)
  {
    ghost var b := broker.View();
    var i := 0;
    assert orders[..0] == [];
    while i < |orders|
      invariant 0 <= i <= |orders| && broker.View() == AllFilled(b, orders[..i])
    {
      assert orders[..i + 1] == orders[..i] + [orders[i]];
      FilledOneMore(b, orders[..i], orders[i]);
      var filled := broker.PlaceOrder(orders[i]);
      i := i + 1;
    }
    assert orders[..|orders|] == orders;
  }
}
