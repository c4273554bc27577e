/** The warmed blocks the discovery book is split into.

    They tile the scored span, evenly to a millisecond. The book's returns, rebased block by
    block, compound to the whole book's, and every one of its trades falls in exactly one
    block. */
module Blocks {
  import opened DailyTape
  import opened Ordering
  import opened SignalExit
  import opened SignalExitLedger
  import opened Wrappers

  const LIBRARY_BLOCK_TARGET_DAYS := 390
  const TARGET_MS := LIBRARY_BLOCK_TARGET_DAYS * DAY_MS

  // ----- the blocks

  /** `a / b` to the nearest whole number, a tie to the even one. */
  function RoundHalfEven(a: int, b: int): int
    requires b > 0
  {
    var q, r := a / b, a % b;
    if 2 * r < b then q else if 2 * r > b then q + 1 else if q % 2 == 0 then q else q + 1
  }

  function BlockCount(span: int): (n: int)
    ensures n >= 1
  {
    var n := RoundHalfEven(span, TARGET_MS);
    if n > 1 then n else 1
  }

  /** Where `n` blocks' edge `k` lies from the start. */
  function EdgeAt(span: int, k: int, n: int): int
    requires n > 0
  {
    (span * k) / n
  }

  type Block = (int, int)

  function BlockOf(start: int, end: int, n: int, k: int): Block
    requires n > 0
  {
    (start + EdgeAt(end - start, k, n), if k == n - 1 then end else start + EdgeAt(end - start, k + 1, n))
  }

  /** `None` when there is nothing to split. */
  function TileBlocks(start: int, end: int): Option<seq<Block>> {
    if end - start <= 0 then None
    else
      var n := BlockCount(end - start);
      Some(seq(n, k requires 0 <= k < n => BlockOf(start, end, n, k)))
  }

  /** The blocks touch end to end from `first` to `last` and none is empty. */
  predicate Tiles(blocks: seq<Block>, first: int, last: int) {
    && blocks != [] && blocks[0].0 == first && blocks[|blocks| - 1].1 == last
    && (forall k :: 0 <= k < |blocks| ==> blocks[k].0 < blocks[k].1)
    && forall k :: 0 <= k < |blocks| - 1 ==> blocks[k].1 == blocks[k + 1].0
  }

  /** The check the batch makes of its blocks before it scores from day `scoreIndex`. */
  method BlocksTile(blocks: seq<Block>, ts: seq<int>, scoreIndex: nat, last: int) returns (ok: bool)
    ensures ok <==> scoreIndex < |ts| && Tiles(blocks, ts[scoreIndex], last)
  {
    if blocks == [] || scoreIndex >= |ts| {
      return false;
    }
    var first := ts[scoreIndex];
    if blocks[0].0 != first || blocks[|blocks| - 1].1 != last {
      return false;
    }
    var prev, k := first, 0;
    while k < |blocks|
      invariant 0 <= k <= |blocks| && prev == if k == 0 then first else blocks[k - 1].1
      invariant forall j :: 0 <= j < k ==> blocks[j].0 < blocks[j].1
      invariant forall j :: 0 <= j < k - 1 ==> blocks[j].1 == blocks[j + 1].0
    {
      if blocks[k].0 != prev || blocks[k].1 <= blocks[k].0 {
        return false;
      }
      prev := blocks[k].1;
      k := k + 1;
    }
    ok := prev == last;
  }

  // ----- they tile, evenly

  lemma DivBetween(x: int, n: int)
    requires n > 0
    ensures n * (x / n) <= x < n * (x / n) + n
  {
  }

  lemma ProductBelow(n: int, a: int, b: int)
    requires n > 0 && n * a < n * b
    ensures a < b
  {
  }

  /** Adding `span` before dividing adds its quotient, or one more. */
  lemma DivAdds(x: int, span: int, n: int)
    requires n > 0
    ensures x / n + span / n <= (x + span) / n <= x / n + span / n + 1
  {
    DivBetween(x, n);
    DivBetween(span, n);
    DivBetween(x + span, n);
    QuotientsAdd(x, span, n, x / n, span / n, (x + span) / n);
  }

  lemma QuotientsAdd(x: int, span: int, n: int, a: int, b: int, c: int)
    requires n > 0 && n * a <= x < n * a + n && n * b <= span < n * b + n && n * c <= x + span < n * c + n
    ensures a + b <= c <= a + b + 1
  {
    assert n * (a + b) == n * a + n * b;
    assert n * (a + b + 2) == n * a + n * b + 2 * n;
    assert n * (c + 1) == n * c + n;
    ProductBelow(n, a + b, c + 1);
    ProductBelow(n, c, a + b + 2);
  }

  lemma DivAtLeastOne(span: int, n: int)
    requires 0 < n <= span
    ensures span / n >= 1
  {
    DivBetween(span, n);
    assert n * (span / n + 1) == n * (span / n) + n;
    ProductBelow(n, 1, span / n + 1);
  }

  /** Each block spans `span / n` milliseconds, or one more. */
  lemma EdgeStep(span: int, k: int, n: int)
    requires n > 0
    ensures span / n <= EdgeAt(span, k + 1, n) - EdgeAt(span, k, n) <= span / n + 1
  {
    assert span * (k + 1) == span * k + span;
    DivAdds(span * k, span, n);
  }

  lemma EdgeEnds(span: int, n: int)
    requires n > 0
    ensures EdgeAt(span, 0, n) == 0 && EdgeAt(span, n, n) == span
  {
    assert span * 0 == 0;
    DivBetween(span * n, n);
    var q := (span * n) / n;
    assert n * (q + 1) == n * q + n && n * (span + 1) == n * span + n && n * span == span * n;
    ProductBelow(n, span, q + 1);
    ProductBelow(n, q, span + 1);
  }

  lemma CountFits(span: int)
    requires span > 0
    ensures BlockCount(span) <= span
    ensures BlockCount(span) > 1 ==>
              var over := 2 * (BlockCount(span) * TARGET_MS - span);
              -TARGET_MS <= over <= TARGET_MS && (over == TARGET_MS || over == -TARGET_MS ==> BlockCount(span) % 2 == 0)
    ensures BlockCount(span) == 1 ==> 2 * span < 3 * TARGET_MS
  {
    var q, r := span / TARGET_MS, span % TARGET_MS;
    assert span == q * TARGET_MS + r;
  }

  /** The blocks tile the span, their count is the span over 390 days rounded, to even at a tie
      and up to one at least, and their lengths differ by at most a millisecond. */
  lemma BlocksTileTheSpan(start: int, end: int)
    requires start < end
    ensures TileBlocks(start, end).Some?
    ensures var blocks := TileBlocks(start, end).value;
            && Tiles(blocks, start, end) && |blocks| == BlockCount(end - start)
            && var target := 390 * 86_400_000;
               var over := 2 * (|blocks| * target - (end - start));
            && (|blocks| > 1 ==>
                  -target <= over <= target && (over == target || over == -target ==> |blocks| % 2 == 0))
            && (|blocks| == 1 ==> 2 * (end - start) < 3 * target)
            && forall k :: 0 <= k < |blocks| ==>
                 var width := blocks[k].1 - blocks[k].0;
                 (end - start) / |blocks| <= width <= (end - start) / |blocks| + 1
  {
    var span := end - start;
    var n := BlockCount(span);
    var blocks := TileBlocks(start, end).value;
    CountFits(span);
    DivAtLeastOne(span, n);
    EdgeEnds(span, n);
    hide EdgeAt, BlockCount;
    forall k | 0 <= k < n
      ensures blocks[k].1 == start + EdgeAt(span, k + 1, n)
      ensures span / n <= blocks[k].1 - blocks[k].0 <= span / n + 1
    {
      EdgeStep(span, k, n);
    }
  }

  // ----- one stamp, one block

  predicate InBlock(b: Block, t: int) {
    b.0 <= t < b.1
  }

  /** How many of the blocks hold `t`. */
  function BlocksWith(blocks: seq<Block>, t: int): nat {
    if blocks == [] then 0
    else BlocksWith(blocks[..|blocks| - 1], t) + if InBlock(blocks[|blocks| - 1], t) then 1 else 0
  }

  lemma {:induction false} BlockStartsAfter(blocks: seq<Block>, first: int, last: int, k: nat)
    requires Tiles(blocks, first, last) && k < |blocks|
    ensures first <= blocks[k].0
  {
    if k > 0 {
      BlockStartsAfter(blocks, first, last, k - 1);
    }
  }

  lemma FrontTiles(blocks: seq<Block>, first: int, last: int)
    requires Tiles(blocks, first, last)
    ensures var front, b := blocks[..|blocks| - 1], blocks[|blocks| - 1];
            && first <= b.0 < b.1 == last
            && (if front == [] then b.0 == first else Tiles(front, first, b.0))
  {
    BlockStartsAfter(blocks, first, last, |blocks| - 1);
  }

  lemma {:induction false} OneBlockEach(blocks: seq<Block>, first: int, last: int, t: int)
    requires Tiles(blocks, first, last)
    ensures BlocksWith(blocks, t) == if first <= t < last then 1 else 0
    decreases |blocks|
  {
    var front := blocks[..|blocks| - 1];
    FrontTiles(blocks, first, last);
    if front == [] {
      assert BlocksWith(front, t) == 0;
    } else {
      OneBlockEach(front, first, blocks[|blocks| - 1].0, t);
    }
  }

  /** The trades whose exit falls in the block. */
  function TradesIn(trades: seq<Trade>, b: Block): nat {
    if trades == [] then 0
    else TradesIn(trades[..|trades| - 1], b) + if InBlock(b, trades[|trades| - 1].exitTs) then 1 else 0
  }

  function TradesInAll(trades: seq<Trade>, blocks: seq<Block>): nat {
    if blocks == [] then 0
    else TradesInAll(trades, blocks[..|blocks| - 1]) + TradesIn(trades, blocks[|blocks| - 1])
  }

  ghost predicate ExitsInside(trades: seq<Trade>, first: int, last: int) {
    forall k :: 0 <= k < |trades| ==> first <= trades[k].exitTs < last
  }

  lemma {:induction false} OneTradeMore(trades: seq<Trade>, blocks: seq<Block>)
    requires trades != []
    ensures TradesInAll(trades, blocks)
         == TradesInAll(trades[..|trades| - 1], blocks) + BlocksWith(blocks, trades[|trades| - 1].exitTs)
    decreases |blocks|
  {
    if blocks != [] {
      OneTradeMore(trades, blocks[..|blocks| - 1]);
    }
  }

  lemma {:induction false} NoTrades(blocks: seq<Block>)
    ensures TradesInAll([], blocks) == 0
    decreases |blocks|
  {
    if blocks != [] {
      NoTrades(blocks[..|blocks| - 1]);
    }
  }

  /** The blocks' trade counts add up to all the trades: each exit is in exactly one block. */
  lemma {:induction false} TradesAreCountedOnce(trades: seq<Trade>, blocks: seq<Block>, first: int, last: int)
    requires Tiles(blocks, first, last) && ExitsInside(trades, first, last)
    ensures TradesInAll(trades, blocks) == |trades|
    decreases |trades|
  {
    if trades == [] {
      NoTrades(blocks);
    } else {
      TradesAreCountedOnce(trades[..|trades| - 1], blocks, first, last);
      OneTradeMore(trades, blocks);
      OneBlockEach(blocks, first, last, trades[|trades| - 1].exitTs);
    }
  }

  // ----- the exits of a run lie in its span

  lemma {:induction false} DaysExitInside(r: Rule, startCash: real, start: int, d: int, first: int, last: int)
    requires r.Valid() && Ascending(r.bars.ts) && 0 <= start <= d <= r.bars.Length()
    requires forall i :: start <= i < d ==> first <= r.bars.ts[i] < last
    ensures ExitsInside(Days(r, startCash, start, d).ledger.trades, first, last)
    decreases d
  {
    if d > start {
      DaysExitInside(r, startCash, start, d - 1, first, last);
      DayExitInside(Days(r, startCash, start, d - 1), r, d - 1, first, last);
    }
  }

  lemma DayExitInside(b: Book, r: Rule, d: int, first: int, last: int)
    requires r.Valid() && 0 <= d < r.bars.Length() && b.Coupled() && first <= r.bars.ts[d] < last
    requires ExitsInside(b.ledger.trades, first, last)
    ensures ExitsInside(CloseOfDay(OpenActions(b, r, d), r, d).ledger.trades, first, last)
  {
  }

  lemma RunExitsInside(r: Rule, startCash: real, start: int, end: int, last: int)
    requires r.Valid() && Ascending(r.bars.ts) && 0 <= start < end <= r.bars.Length()
    requires r.bars.ts[end - 1] < last
    ensures ExitsInside(Score(r, startCash, start, end).trades, r.bars.ts[start], last)
  {
    DaysExitInside(r, startCash, start, end, r.bars.ts[start], last);
  }

  // ----- block returns

  /** The equity points a block starts and ends on, counted from the span's start. */
  function LowPoint(ts: seq<int>, start: int, b: Block): int {
    Later(start, IndexOf(ts, b.0)) - start
  }

  function HighPoint(ts: seq<int>, start: int, end: int, b: Block): int {
    (if IndexOf(ts, b.1) < end then IndexOf(ts, b.1) else end) - start
  }

  function Later(a: int, b: int): int {
    if a > b then a else b
  }

  /** A block's result on the standard cash, from the curve's points `lo` and `hi`. */
  function BlockPnl(equity: seq<real>, lo: int, hi: int): real
    requires 0 <= lo && 0 <= hi
  {
    var base := if |equity| > lo then equity[lo] else 0.0;
    var top := if |equity| > hi then equity[hi] else base;
    if base > 0.0 then PAPER_START_CASH * (top / base - 1.0) else 0.0
  }

  /** The growth factor a block's result stands for. */
  function Factor(pnl: real): real {
    1.0 + pnl / PAPER_START_CASH
  }

  /** Every block's end is a point of the span. */
  ghost predicate OnTheCurve(ts: seq<int>, start: int, end: int, blocks: seq<Block>) {
    forall k :: 0 <= k < |blocks| ==> LowPoint(ts, start, blocks[k]) >= 0 && HighPoint(ts, start, end, blocks[k]) >= 0
  }

  function BlockFactor(ts: seq<int>, equity: seq<real>, start: int, end: int, b: Block): real
    requires LowPoint(ts, start, b) >= 0 && HighPoint(ts, start, end, b) >= 0
  {
    Factor(BlockPnl(equity, LowPoint(ts, start, b), HighPoint(ts, start, end, b)))
  }

  /** The growth of the blocks, compounded. */
  function Compound(ts: seq<int>, equity: seq<real>, start: int, end: int, blocks: seq<Block>): real
    requires OnTheCurve(ts, start, end, blocks)
  {
    if blocks == [] then 1.0
    else
      Multiplied(Compound(ts, equity, start, end, blocks[..|blocks| - 1]),
                 BlockFactor(ts, equity, start, end, blocks[|blocks| - 1]))
  }

  function Multiplied(a: real, factor: real): real {
    a * factor
  }

  /** A block that starts past the curve's last point has no growth. */
  lemma FactorIsRatio(equity: seq<real>, lo: int, hi: int, base: int)
    requires 0 <= base <= hi < |equity| && equity[base] > 0.0
    requires lo == base || (lo >= |equity| && base == hi == |equity| - 1)
    ensures Factor(BlockPnl(equity, lo, hi)) == equity[hi] / equity[base]
  {
  }

  /** The point at which the block ending at `t` hands over to the next, the last one at most. */
  function Point(ts: seq<int>, start: int, end: int, t: int): int {
    (if IndexOf(ts, t) < end then IndexOf(ts, t) else end) - start
  }

  lemma PointsOfBlock(ts: seq<int>, start: int, end: int, b: Block)
    requires Ascending(ts) && 0 <= start < end <= |ts| && ts[start] <= b.0 < b.1
    ensures var lo, hi := LowPoint(ts, start, b), HighPoint(ts, start, end, b);
            && hi == Point(ts, start, end, b.1) && 0 <= Point(ts, start, end, b.0) <= hi <= end - start && lo >= 0
            && (lo == Point(ts, start, end, b.0) || (lo > end - start && Point(ts, start, end, b.0) == end - start))
  {
    IndexMonotone(ts, ts[start], b.0);
    IndexMonotone(ts, b.0, b.1);
    IndexUnique(ts, ts[start], start);
  }

  lemma StartPoint(ts: seq<int>, start: int, end: int)
    requires Ascending(ts) && 0 <= start < end <= |ts|
    ensures Point(ts, start, end, ts[start]) == 0
  {
    IndexUnique(ts, ts[start], start);
  }

  lemma TilesAreOnTheCurve(ts: seq<int>, start: int, end: int, blocks: seq<Block>, last: int)
    requires Ascending(ts) && 0 <= start < end <= |ts| && Tiles(blocks, ts[start], last)
    ensures OnTheCurve(ts, start, end, blocks)
  {
    forall k | 0 <= k < |blocks|
      ensures LowPoint(ts, start, blocks[k]) >= 0 && HighPoint(ts, start, end, blocks[k]) >= 0
    {
      BlockStartsAfter(blocks, ts[start], last, k);
      PointsOfBlock(ts, start, end, blocks[k]);
    }
  }

  ghost predicate AllPositive(equity: seq<real>) {
    forall k :: 0 <= k < |equity| ==> equity[k] > 0.0
  }

  lemma BlockFactorIsRatio(ts: seq<int>, equity: seq<real>, start: int, end: int, b: Block)
    requires Ascending(ts) && 0 <= start < end <= |ts| && |equity| == end - start + 1 && AllPositive(equity)
    requires ts[start] <= b.0 < b.1
    ensures LowPoint(ts, start, b) >= 0 && HighPoint(ts, start, end, b) >= 0
    ensures 0 <= Point(ts, start, end, b.0) < |equity| && 0 <= Point(ts, start, end, b.1) < |equity|
    ensures BlockFactor(ts, equity, start, end, b)
         == equity[Point(ts, start, end, b.1)] / equity[Point(ts, start, end, b.0)]
  {
    PointsOfBlock(ts, start, end, b);
    hide Point, LowPoint, HighPoint;
    FactorIsRatio(equity, LowPoint(ts, start, b), HighPoint(ts, start, end, b), Point(ts, start, end, b.0));
  }

  lemma {:induction false} BlocksCompoundTo(
    ts: seq<int>, equity: seq<real>, start: int, end: int, blocks: seq<Block>, last: int)
    requires Ascending(ts) && 0 <= start < end <= |ts| && |equity| == end - start + 1 && AllPositive(equity)
    requires Tiles(blocks, ts[start], last)
    ensures OnTheCurve(ts, start, end, blocks) && 0 <= Point(ts, start, end, last) < |equity|
    ensures Multiplied(equity[0], Compound(ts, equity, start, end, blocks)) == equity[Point(ts, start, end, last)]
    decreases |blocks|
  {
    var front, b := blocks[..|blocks| - 1], blocks[|blocks| - 1];
    TilesAreOnTheCurve(ts, start, end, blocks, last);
    FrontTiles(blocks, ts[start], last);
    StartPoint(ts, start, end);
    BlockFactorIsRatio(ts, equity, start, end, b);
    hide LowPoint, HighPoint, Point, Tiles, BlockFactor, Ascending, Multiplied;
    FirstFactor(equity[0]);
    if front == [] {
      ScaleByRatio(1.0, equity[0], equity[0], equity[Point(ts, start, end, last)]);
    } else {
      BlocksCompoundTo(ts, equity, start, end, front, b.0);
      ScaleByRatio(Compound(ts, equity, start, end, front), equity[0],
                   equity[Point(ts, start, end, b.0)], equity[Point(ts, start, end, last)]);
    }
  }

  lemma FirstFactor(first: real)
    ensures Multiplied(first, 1.0) == first
  {
  }

  lemma ScaleByRatio(growth: real, first: real, before: real, after: real)
    requires Multiplied(first, growth) == before && before > 0.0
    ensures Multiplied(first, Multiplied(growth, after / before)) == after
  {
    var ratio := after / before;
    assert ratio * before == after;
    assert first * (growth * ratio) == (first * growth) * ratio;
  }

  lemma {:induction false} CurveStartsWithTheCash(r: Rule, startCash: real, start: int, d: int)
    requires r.Valid() && 0 <= start <= d <= r.bars.Length()
    ensures Days(r, startCash, start, d).points[0] == startCash
    decreases d
  {
    if d > start {
      CurveStartsWithTheCash(r, startCash, start, d - 1);
      LastPoint(r, startCash, start, d);
    }
  }

  lemma EquityShape(r: Rule, startCash: real, start: int, end: int)
    requires r.Valid() && 0 <= start < end <= r.bars.Length()
    ensures var eq := Score(r, startCash, start, end).equity;
            |eq| == end - start + 1 && eq[0] == startCash
  {
    CurveStartsWithTheCash(r, startCash, start, end);
  }

  /** Rebased block by block, the returns of a book scored over `[start, end)` compound to the
      whole book's, for blocks that tile its days and may run past them. */
  lemma BlockReturnsCompound(r: Rule, startCash: real, start: int, end: int, last: int)
    requires r.Valid() && Ascending(r.bars.ts) && PositivePrices(r.bars) && startCash > 0.0
    requires 0 <= start < end <= r.bars.Length() && r.bars.ts[end - 1] < last
    ensures var blocks, eq := TileBlocks(r.bars.ts[start], last), Score(r, startCash, start, end).equity;
            && blocks.Some? && |eq| == end - start + 1 && OnTheCurve(r.bars.ts, start, end, blocks.value)
            && Multiplied(startCash, Compound(r.bars.ts, eq, start, end, blocks.value)) == eq[end - start]
  {
    hide Score, TileBlocks, Compound, Multiplied, Growth, OnTheCurve, PositivePrices, Tiles, Ascending, Point;
    var ts := r.bars.ts;
    var eq := Score(r, startCash, start, end).equity;
    SpanIsReal(ts, start, end, last);
    RunCompounds(r, startCash, start, end);
    EquityShape(r, startCash, start, end);
    EndPoint(ts, start, end, last);
    BlocksTileTheSpan(ts[start], last);
    assert AllPositive(eq);
    BlocksCompoundTo(ts, eq, start, end, TileBlocks(ts[start], last).value, last);
  }

  lemma EndPoint(ts: seq<int>, start: int, end: int, last: int)
    requires Ascending(ts) && 0 <= start < end <= |ts| && ts[end - 1] < last
    ensures Point(ts, start, end, last) == end - start
  {
    IndexSplits(ts, last, end - 1);
  }

  lemma SpanIsReal(ts: seq<int>, start: int, end: int, last: int)
    requires Ascending(ts) && 0 <= start < end <= |ts| && ts[end - 1] < last
    ensures ts[start] < last
  {
    assert start < end - 1 ==> ts[start] < ts[end - 1];
  }

  /** The book's trades are shared out among its blocks without loss or repeat. */
  lemma BlockTradesAddUp(r: Rule, startCash: real, start: int, end: int, last: int)
    requires r.Valid() && Ascending(r.bars.ts)
    requires 0 <= start < end <= r.bars.Length() && r.bars.ts[end - 1] < last
    ensures var trades := Score(r, startCash, start, end).trades;
            var blocks := TileBlocks(r.bars.ts[start], last);
            blocks.Some? && TradesInAll(trades, blocks.value) == |trades|
  {
    var ts := r.bars.ts;
    SpanIsReal(ts, start, end, last);
    BlocksTileTheSpan(ts[start], last);
    RunExitsInside(r, startCash, start, end, last);
    hide Score, BlockCount, Tiles, ExitsInside;
    TradesAreCountedOnce(Score(r, startCash, start, end).trades, TileBlocks(ts[start], last).value, ts[start], last);
  }
}
