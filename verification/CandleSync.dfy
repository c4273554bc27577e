/** Resumable paging of 5m candles into the store: what a page loop stores, that an update
    opens no hole, and that a backfill with budget to spare has everything. */
module CandleSync {
  import opened CandleQuality
  import opened Ordering
  import opened Wrappers

  /** One page from the exchange, by call number, first open and limit. `None` is a fetch
      that still failed after its retries; it ends the run. */
  type Fetch = (nat, int, nat) -> Option<seq<int>>

  // ----- one span of pages

  function Closed(raw: seq<int>, end: int, earliest: int): (kept: seq<int>)
    ensures forall x :: x in kept <==> x in raw && earliest <= x <= end
  {
    if raw == [] then []
    else
      var rest := Closed(raw[..|raw| - 1], end, earliest);
      var x := raw[|raw| - 1];
      assert raw == raw[..|raw| - 1] + [x];
      if earliest <= x <= end then rest + [x] else rest
  }

  /** The newest open of a page. */
  function Newest(raw: seq<int>): (last: int)
    requires raw != []
    ensures last in raw && forall x :: x in raw ==> x <= last
  {
    if |raw| == 1 then raw[0]
    else
      assert raw == [raw[0]] + raw[1..];
      var rest := Newest(raw[1..]);
      if raw[0] > rest then raw[0] else rest
  }

  function Elements(rows: seq<int>): set<int> {
    set x | x in rows
  }

  /** What a span of pages leaves: the store, its counters, the next open to ask for. */
  datatype Paged = Paged(store: set<int>, pages: nat, written: nat, next: int, failed: bool)

  /** Pages from `cursor` to `end`, at most `left` of them, call number `call` being next. */
  function PageForward(store: set<int>, cursor: int, end: int, limit: nat, left: nat, fetch: Fetch, call: nat): Paged
    decreases left
  {
    if cursor > end || left == 0 then Paged(store, 0, 0, cursor, false)
    else match fetch(call, cursor, limit)
      case None => Paged(store, 0, 0, cursor, true)
      case Some(raw) =>
        if raw == [] then Paged(store, 1, 0, cursor, false)
        else
          var closed := Closed(raw, end, cursor);
          var grown, last := store + Elements(closed), Newest(raw);
          if last + TF_MS <= cursor then Paged(grown, 1, |closed|, cursor, false)
          else if last >= end || |raw| < limit then Paged(grown, 1, |closed|, last + TF_MS, false)
          else
            var rest := PageForward(grown, last + TF_MS, end, limit, left - 1, fetch, call + 1);
            rest.(pages := rest.pages + 1, written := rest.written + |closed|)
  }

  /** With what the pages before it took and wrote. */
  function After(p: Paged, pages: nat, written: nat): Paged {
    p.(pages := p.pages + pages, written := p.written + written)
  }

  /** A page that is not empty: the last one, or one more before the rest. */
  lemma PageTaken(
    store: set<int>, cursor: int, end: int, limit: nat, left: nat, fetch: Fetch, call: nat, page: seq<int>)
    requires cursor <= end && left > 0 && fetch(call, cursor, limit) == Some(page) && page != []
    ensures var closed, last := Closed(page, end, cursor), Newest(page);
            var grown := store + Elements(closed);
            var next := if last + TF_MS <= cursor then cursor else last + TF_MS;
            PageForward(store, cursor, end, limit, left, fetch, call) ==
            if last + TF_MS > cursor && last < end && |page| >= limit
            then After(PageForward(grown, next, end, limit, left - 1, fetch, call + 1), 1, |closed|)
            else Paged(grown, 1, |closed|, next, false)
  {
    hide Elements, Closed, Newest;
  }

  lemma NoPageTaken(store: set<int>, cursor: int, end: int, limit: nat, left: nat, fetch: Fetch, call: nat)
    ensures var p := PageForward(store, cursor, end, limit, left, fetch, call);
            && (cursor > end || left == 0 ==> p == Paged(store, 0, 0, cursor, false))
            && (cursor <= end && left > 0 ==>
                  && (fetch(call, cursor, limit) == None ==> p == Paged(store, 0, 0, cursor, true))
                  && (fetch(call, cursor, limit) == Some([]) ==> p == Paged(store, 1, 0, cursor, false)))
  {
    hide Elements, Closed, Newest;
  }

  /** The store grew, by opens in `[lo, hi]` below `next` only. */
  ghost predicate GrewWithin(store: set<int>, grown: set<int>, lo: int, hi: int, next: int) {
    store <= grown && forall x :: x in grown && x !in store ==> lo <= x <= hi && x < next
  }

  lemma OnePageWrites(store: set<int>, raw: seq<int>, cursor: int, end: int)
    requires raw != []
    ensures GrewWithin(store, store + Elements(Closed(raw, end, cursor)), cursor, end, Newest(raw) + TF_MS)
    ensures Newest(raw) + TF_MS <= cursor ==> Closed(raw, end, cursor) == []
  {
    var kept := Closed(raw, end, cursor);
    assert Newest(raw) < cursor ==> forall x :: x !in kept;
    assert kept != [] ==> kept[0] in kept;
  }

  lemma GrowthAdds(a: set<int>, b: set<int>, c: set<int>, lo: int, mid: int, hi: int, next: int)
    requires GrewWithin(a, b, lo, hi, mid) && GrewWithin(b, c, mid, hi, next) && lo <= mid <= next
    ensures GrewWithin(a, c, lo, hi, next)
  {
  }

  /** Whatever the exchange sends, a span only adds opens inside it: none after `end`, and
      none at or past the next open it reports. */
  lemma {:induction false} OnlyTheSpanIsWritten(
    store: set<int>, cursor: int, end: int, limit: nat, left: nat, fetch: Fetch, call: nat)
    ensures var p := PageForward(store, cursor, end, limit, left, fetch, call);
            GrewWithin(store, p.store, cursor, end, p.next) && p.next >= cursor && p.pages <= left
    decreases left
  {
    hide GrewWithin, Elements, Closed, Newest;
    GrowthNone(store, cursor, end);
    if cursor <= end && left > 0 {
      var page := fetch(call, cursor, limit);
      if page.Some? && page.value != [] {
        var raw := page.value;
        var grown, next := store + Elements(Closed(raw, end, cursor)), Newest(raw) + TF_MS;
        OnePageWrites(store, raw, cursor, end);
        if next <= cursor {
          NothingAdded(store);
        } else if Newest(raw) < end && |raw| >= limit {
          OnlyTheSpanIsWritten(grown, next, end, limit, left - 1, fetch, call + 1);
          var rest := PageForward(grown, next, end, limit, left - 1, fetch, call + 1);
          GrowthAdds(store, grown, rest.store, cursor, next, end, rest.next);
        }
      }
    }
  }

  lemma GrowthNone(store: set<int>, cursor: int, end: int)
    ensures GrewWithin(store, store, cursor, end, cursor)
  {
  }

  lemma NothingAdded(store: set<int>)
    ensures store + Elements([]) == store
  {
  }

  // ----- an exchange that answers as documented

  /** The first `limit` bars from `since` on: nothing up to `end` is skipped, and what it
      shows up to `end` is on the market. Later bars, the forming one among them, may come
      too. */
  ghost predicate IsPage(raw: seq<int>, market: set<int>, since: int, limit: nat, end: int) {
    && |raw| <= limit
    && (forall x :: x in raw ==> since <= x && OnGrid(x) && (x <= end ==> x in market))
    && forall m :: m in market && since <= m <= end && m !in raw ==>
         |raw| == limit && forall x :: x in raw ==> x < m
  }

  ghost predicate Faithful(fetch: Fetch, market: set<int>, limit: nat, end: int) {
    forall call: nat, since: int ::
      fetch(call, since, limit).Some? ==> IsPage(fetch(call, since, limit).value, market, since, limit, end)
  }

  ghost predicate GridAligned(opens: set<int>) {
    forall x :: x in opens ==> OnGrid(x)
  }

  /** No bar of the market from `lo` to `end` and before `next` is missing. */
  ghost predicate Holds(store: set<int>, market: set<int>, lo: int, end: int, next: int) {
    forall m :: m in market && lo <= m <= end && m < next ==> m in store
  }

  /** No bar of the market from `lo` to `end` is missing. */
  ghost predicate Complete(store: set<int>, market: set<int>, lo: int, end: int) {
    Holds(store, market, lo, end, end + 1)
  }

  ghost predicate NewFrom(store: set<int>, grown: set<int>, market: set<int>) {
    forall x :: x in grown && x !in store ==> x in market
  }

  /** After one page everything of the market before the next cursor is stored, and when the
      page ended the span, everything up to `end` is. */
  lemma OnePage(store: set<int>, market: set<int>, cursor: int, end: int, limit: nat, raw: seq<int>)
    requires IsPage(raw, market, cursor, limit, end) && GridAligned(market) && raw != [] && limit >= 1
    ensures var grown, last := store + Elements(Closed(raw, end, cursor)), Newest(raw);
            && last >= cursor && NewFrom(store, grown, market)
            && Holds(grown, market, cursor, end, last + TF_MS)
            && (last >= end || |raw| < limit ==> Complete(grown, market, cursor, end))
  {
    var last := Newest(raw);
    var kept := Closed(raw, end, cursor);
    forall m | m in market && cursor <= m <= end && (m < last + TF_MS || last >= end || |raw| < limit)
      ensures m in kept
    {
      if m !in raw {
        assert last < m;
        NextOnGrid(last, m);
      }
    }
  }

  lemma EmptyPage(market: set<int>, cursor: int, end: int, limit: nat, store: set<int>)
    requires IsPage([], market, cursor, limit, end) && limit >= 1
    ensures Complete(store, market, cursor, end)
  {
  }

  lemma HoldsAtCursor(store: set<int>, market: set<int>, cursor: int, end: int)
    ensures Holds(store, market, cursor, end, cursor) && NewFrom(store, store, market)
    ensures cursor > end ==> Complete(store, market, cursor, end)
  {
  }

  lemma HoldsAdds(a: set<int>, b: set<int>, c: set<int>, market: set<int>, lo: int, mid: int, end: int, next: int)
    requires Holds(b, market, lo, end, mid) && Holds(c, market, mid, end, next) && b <= c
    requires NewFrom(a, b, market) && NewFrom(b, c, market)
    ensures Holds(c, market, lo, end, next) && NewFrom(a, c, market)
  {
  }

  /** Against a faithful exchange nothing below the next open is missing, nothing but market
      bars is stored, and a span that ended of itself has all of its bars. */
  lemma {:induction false} NothingIsSkipped(
    store: set<int>, market: set<int>, cursor: int, end: int, limit: nat, left: nat, fetch: Fetch, call: nat)
    requires Faithful(fetch, market, limit, end) && GridAligned(market) && limit >= 1
    ensures var p := PageForward(store, cursor, end, limit, left, fetch, call);
            && NewFrom(store, p.store, market) && Holds(p.store, market, cursor, end, p.next)
            && (!p.failed && p.pages < left ==> Complete(p.store, market, cursor, end))
    decreases left
  {
    hide Elements, Closed, Newest, IsPage, Holds, NewFrom, GridAligned, Complete;
    HoldsAtCursor(store, market, cursor, end);
    if cursor <= end && left > 0 {
      var page := fetch(call, cursor, limit);
      if page.Some? {
        var raw := page.value;
        assert IsPage(raw, market, cursor, limit, end);
        if raw == [] {
          EmptyPage(market, cursor, end, limit, store);
        } else {
          OnePage(store, market, cursor, end, limit, raw);
          var grown, next := store + Elements(Closed(raw, end, cursor)), Newest(raw) + TF_MS;
          if Newest(raw) < end && |raw| >= limit {
            NothingIsSkipped(grown, market, next, end, limit, left - 1, fetch, call + 1);
            OnlyTheSpanIsWritten(grown, next, end, limit, left - 1, fetch, call + 1);
            SpanAdds(store, grown, market, cursor, next, end,
                     PageForward(grown, next, end, limit, left - 1, fetch, call + 1));
          }
        }
      }
    }
  }

  lemma SpanAdds(
    store: set<int>, grown: set<int>, market: set<int>, cursor: int, next: int, end: int, rest: Paged)
    requires GrewWithin(grown, rest.store, next, end, rest.next) && NewFrom(store, grown, market)
    requires NewFrom(grown, rest.store, market)
    requires Holds(grown, market, cursor, end, next) && Holds(rest.store, market, next, end, rest.next)
    ensures Holds(rest.store, market, cursor, end, rest.next) && NewFrom(store, rest.store, market)
    ensures Complete(rest.store, market, next, end) ==> Complete(rest.store, market, cursor, end)
  {
    HoldsAdds(store, grown, rest.store, market, cursor, next, end, rest.next);
  }

  // ----- the store's bounds and gaps

  /** Consecutive opens that are not one bar apart. */
  function GapEdges(xs: seq<int>): seq<(int, int)> {
    if |xs| < 2 then []
    else
      var edges := GapEdges(xs[..|xs| - 1]);
      var prev, next := xs[|xs| - 2], xs[|xs| - 1];
      if next - prev != TF_MS then edges + [(prev, next)] else edges
  }

  /** A missing grid open between two stored ones lies inside one of the gaps. */
  lemma {:induction false} EveryHoleHasItsGap(xs: seq<int>, m: int)
    requires Ascending(xs) && |xs| > 0 && xs[0] < m < xs[|xs| - 1] && m !in xs
    requires OnGrid(m) && forall x :: x in xs ==> OnGrid(x)
    ensures exists e :: e in GapEdges(xs) && e.0 + TF_MS <= m <= e.1 - TF_MS
    decreases |xs|
  {
    var front := xs[..|xs| - 1];
    var prev, next := xs[|xs| - 2], xs[|xs| - 1];
    if m < prev {
      EveryHoleHasItsGap(front, m);
      var e :| e in GapEdges(front) && e.0 + TF_MS <= m <= e.1 - TF_MS;
      assert e in GapEdges(xs);
    } else {
      assert prev in xs && next in xs && m != prev;
      NextOnGrid(prev, m);
      NextOnGrid(m, next);
      assert (prev, next) in GapEdges(xs);
    }
  }

  /** `e` is two neighbours of `xs` that are not one bar apart. */
  ghost predicate IsGap(xs: seq<int>, e: (int, int)) {
    exists k :: 0 <= k < |xs| - 1 && Neighbours(xs, k, e) && e.1 - e.0 != TF_MS
  }

  predicate Neighbours(xs: seq<int>, k: int, e: (int, int))
    requires 0 <= k < |xs| - 1
  {
    e.0 == xs[k] && e.1 == xs[k + 1]
  }

  /** The gaps reported are the gaps there are. */
  lemma {:induction false} GapsAreTheGaps(xs: seq<int>, e: (int, int))
    ensures e in GapEdges(xs) <==> IsGap(xs, e)
    decreases |xs|
  {
    if |xs| >= 2 {
      var front, n := xs[..|xs| - 1], |xs|;
      GapsAreTheGaps(front, e);
      if IsGap(front, e) {
        var k :| 0 <= k < n - 2 && Neighbours(front, k, e) && e.1 - e.0 != TF_MS;
        assert Neighbours(xs, k, e);
      }
      if IsGap(xs, e) {
        var k :| 0 <= k < n - 1 && Neighbours(xs, k, e) && e.1 - e.0 != TF_MS;
        assert k < n - 2 ==> Neighbours(front, k, e);
      }
      if e == (xs[n - 2], xs[n - 1]) {
        assert Neighbours(xs, n - 2, e);
      }
    }
  }

  // ----- the incremental update

  /** From the newest stored open to the last closed one; an empty store is left alone. */
  function Update(store: set<int>, end: int, limit: nat, maxPages: nat, fetch: Fetch): Paged {
    if store == {} then Paged(store, 0, 0, 0, false)
    else
      var start := Latest(store) + TF_MS;
      if start > end then Paged(store, 0, 0, start, false)
      else PageForward(store, start, end, limit, maxPages, fetch, 0)
  }

  /** Market bars missing between the first stored open and the newest. */
  ghost function Holes(store: set<int>, market: set<int>): set<int> {
    set m | m in market && m !in store && (exists a, b :: a in store && b in store && a < m < b)
  }

  /** However many pages it gets and even when a fetch fails half way, an update leaves the
      holes it found and opens no new one, and stores only closed market bars. */
  lemma UpdateOpensNoHole(store: set<int>, market: set<int>, end: int, limit: nat, maxPages: nat, fetch: Fetch)
    requires Faithful(fetch, market, limit, end) && GridAligned(market) && GridAligned(store) && limit >= 1
    ensures var p := Update(store, end, limit, maxPages, fetch);
            && store <= p.store && Holes(p.store, market) == Holes(store, market)
            && NewFrom(store, p.store, market) && forall x :: x in p.store && x !in store ==> x <= end
  {
    hide Holes, Latest, InOrder;
    var p := Update(store, end, limit, maxPages, fetch);
    if store != {} {
      var newest := Latest(store);
      var start := newest + TF_MS;
      if start <= end {
        hide PageForward, Faithful;
        OnlyTheSpanIsWritten(store, start, end, limit, maxPages, fetch, 0);
        NothingIsSkipped(store, market, start, end, limit, maxPages, fetch, 0);
        HolesSame(store, p.store, market, newest, end, p.next);
      }
    }
  }

  lemma HolesSame(store: set<int>, grown: set<int>, market: set<int>, newest: int, end: int, next: int)
    requires newest in store && (forall x :: x in store ==> x <= newest)
    requires GridAligned(market) && OnGrid(newest) && GrewWithin(store, grown, newest + TF_MS, end, next)
    requires Holds(grown, market, newest + TF_MS, end, next)
    ensures Holes(grown, market) == Holes(store, market)
  {
    forall m ensures m in Holes(grown, market) <==> m in Holes(store, market) {
      if m in Holes(grown, market) {
        var a, b :| a in grown && b in grown && a < m < b;
        if m > newest {
          NextOnGrid(newest, m);
          assert false;
        }
      }
      if m in Holes(store, market) {
        var a, b :| a in store && b in store && a < m < b;
        assert m !in grown;
      }
    }
  }

  /** A span that was not cut short by a failed fetch or by its page cap has caught up: every
      market bar from the newest stored open to `end` is stored. */
  lemma UpdateIsComplete(store: set<int>, market: set<int>, end: int, limit: nat, maxPages: nat, fetch: Fetch)
    requires Faithful(fetch, market, limit, end) && GridAligned(market) && GridAligned(store) && limit >= 1
    requires store != {}
    ensures var p := Update(store, end, limit, maxPages, fetch);
            !p.failed && p.pages < maxPages ==>
              forall m :: m in market && Latest(store) <= m <= end ==> m in p.store
  {
    hide PageForward, Faithful, Latest, InOrder, Complete, NewFrom, Holds, GrewWithin;
    var p := Update(store, end, limit, maxPages, fetch);
    var newest := Latest(store);
    if newest + TF_MS <= end {
      SpanGrows(store, newest + TF_MS, end, limit, maxPages, fetch);
      NothingIsSkipped(store, market, newest + TF_MS, end, limit, maxPages, fetch, 0);
    }
    if !p.failed && p.pages < maxPages {
      CaughtUp(store, p.store, market, newest, end);
    }
  }

  lemma SpanGrows(store: set<int>, cursor: int, end: int, limit: nat, left: nat, fetch: Fetch)
    ensures store <= PageForward(store, cursor, end, limit, left, fetch, 0).store
  {
    OnlyTheSpanIsWritten(store, cursor, end, limit, left, fetch, 0);
  }

  lemma CaughtUp(store: set<int>, grown: set<int>, market: set<int>, newest: int, end: int)
    requires newest in store && store <= grown && GridAligned(market) && OnGrid(newest)
    requires newest + TF_MS <= end ==> Complete(grown, market, newest + TF_MS, end)
    ensures forall m :: m in market && newest <= m <= end ==> m in grown
  {
    forall m | m in market && newest <= m <= end ensures m in grown {
      if m != newest {
        NextOnGrid(newest, m);
      }
    }
  }

  /** Every call is answered. */
  ghost predicate Answers(fetch: Fetch, limit: nat) {
    forall call: nat, since: int :: fetch(call, since, limit).Some?
  }

  /** Each page moves on by a bar at least, so a cap of a page a bar and one more is never the limit. */
  lemma {:induction false} EnoughPages(
    store: set<int>, market: set<int>, cursor: int, end: int, limit: nat, left: nat, fetch: Fetch, call: nat)
    requires Faithful(fetch, market, limit, end) && Answers(fetch, limit) && limit >= 1
    requires left * TF_MS > end - cursor + TF_MS
    ensures var p := PageForward(store, cursor, end, limit, left, fetch, call);
            !p.failed && (p.pages < left || p.next > end)
    decreases left
  {
    hide Elements, Closed, Newest;
    if cursor <= end && left > 0 {
      var page := fetch(call, cursor, limit);
      assert page.Some?;
      if page.value != [] {
        var last := Newest(page.value);
        assert IsPage(page.value, market, cursor, limit, end);
        if last < end && |page.value| >= limit {
          var grown := store + Elements(Closed(page.value, end, cursor));
          EnoughPages(grown, market, last + TF_MS, end, limit, left - 1, fetch, call + 1);
        }
      }
    }
  }

  lemma HeldToTheEnd(
    store: set<int>, market: set<int>, start: int, end: int, limit: nat, left: nat, fetch: Fetch)
    ensures var p := PageForward(store, start, end, limit, left, fetch, 0);
            p.next > end && Holds(p.store, market, start, end, p.next) ==> Complete(p.store, market, start, end)
  {
    hide PageForward;
  }

  /** With every call answered and a page a bar and one more allowed, no update stops short. */
  lemma UpdateCatchesUp(store: set<int>, market: set<int>, end: int, limit: nat, maxPages: nat, fetch: Fetch)
    requires Faithful(fetch, market, limit, end) && GridAligned(market) && GridAligned(store) && limit >= 1
    requires store != {} && Answers(fetch, limit) && maxPages * TF_MS > end - Latest(store)
    ensures var p := Update(store, end, limit, maxPages, fetch);
            !p.failed && forall m :: m in market && Latest(store) <= m <= end ==> m in p.store
  {
    hide PageForward, Faithful, Answers, Latest, InOrder, Complete, NewFrom, Holds, GrewWithin;
    var p := Update(store, end, limit, maxPages, fetch);
    var start := Latest(store) + TF_MS;
    if start <= end {
      EnoughPages(store, market, start, end, limit, maxPages, fetch, 0);
      SpanGrows(store, start, end, limit, maxPages, fetch);
      NothingIsSkipped(store, market, start, end, limit, maxPages, fetch, 0);
      HeldToTheEnd(store, market, start, end, limit, maxPages, fetch);
    }
    CaughtUp(store, p.store, market, Latest(store), end);
  }

  /** A span fails over the call after its last page, and at the open it stopped at. */
  lemma {:induction false} FailsOverItsNextCall(
    store: set<int>, cursor: int, end: int, limit: nat, left: nat, fetch: Fetch, call: nat)
    ensures var p := PageForward(store, cursor, end, limit, left, fetch, call);
            p.failed ==> p.pages < left && p.next <= end && fetch(call + p.pages, p.next, limit).None?
    decreases left
  {
    hide Elements, Closed, Newest;
    if cursor <= end && left > 0 {
      var page := fetch(call, cursor, limit);
      if page.Some? && page.value != [] {
        var last := Newest(page.value);
        if last + TF_MS > cursor && last < end && |page.value| >= limit {
          var grown := store + Elements(Closed(page.value, end, cursor));
          FailsOverItsNextCall(grown, last + TF_MS, end, limit, left - 1, fetch, call + 1);
        }
      }
    }
  }

  ghost predicate OnceEach(rows: seq<int>) {
    forall i, j :: 0 <= i < j < |rows| ==> rows[i] != rows[j]
  }

  /** No page lists an open twice. */
  ghost predicate PagesOnceEach(fetch: Fetch, limit: nat) {
    forall call: nat, since: int ::
      fetch(call, since, limit).Some? ==> OnceEach(fetch(call, since, limit).value)
  }

  lemma {:induction false} OnceEachCounts(rows: seq<int>)
    requires OnceEach(rows)
    ensures |Elements(rows)| == |rows|
  {
    if rows != [] {
      var front, x := rows[..|rows| - 1], rows[|rows| - 1];
      OnceEachCounts(front);
      assert rows == front + [x];
      assert Elements(rows) == Elements(front) + {x};
    }
  }

  lemma {:induction false} ClosedOnceEach(raw: seq<int>, end: int, earliest: int)
    requires OnceEach(raw)
    ensures OnceEach(Closed(raw, end, earliest))
  {
    if raw != [] {
      var front := raw[..|raw| - 1];
      ClosedOnceEach(front, end, earliest);
      assert raw[|raw| - 1] !in front;
    }
  }

  lemma PageAdds(store: set<int>, raw: seq<int>, end: int, cursor: int)
    requires OnceEach(raw) && forall x :: x in store ==> x < cursor
    ensures |store + Elements(Closed(raw, end, cursor))| == |store| + |Closed(raw, end, cursor)|
  {
    var kept := Closed(raw, end, cursor);
    ClosedOnceEach(raw, end, cursor);
    OnceEachCounts(kept);
    assert store !! Elements(kept);
  }

  /** The bars a span after the newest stored open reports as written are the bars it added. */
  lemma {:induction false} WrittenIsAdded(
    store: set<int>, cursor: int, end: int, limit: nat, left: nat, fetch: Fetch, call: nat)
    requires PagesOnceEach(fetch, limit) && forall x :: x in store ==> x < cursor
    ensures var p := PageForward(store, cursor, end, limit, left, fetch, call);
            |p.store| == |store| + p.written
    decreases left
  {
    hide Elements, Closed, Newest, OnceEach;
    if cursor <= end && left > 0 {
      var page := fetch(call, cursor, limit);
      if page.Some? && page.value != [] {
        var raw := page.value;
        assert OnceEach(raw);
        var grown, next := store + Elements(Closed(raw, end, cursor)), Newest(raw) + TF_MS;
        PageAdds(store, raw, end, cursor);
        if next > cursor && Newest(raw) < end && |raw| >= limit {
          OnePageWrites(store, raw, cursor, end);
          WrittenIsAdded(grown, next, end, limit, left - 1, fetch, call + 1);
        }
      }
    }
  }

  // ----- the backfill

  /** A backfill in progress: the store, the page budget left and the calls made. */
  datatype Fill = Fill(store: set<int>, remaining: int, calls: nat, written: nat, failed: bool)

  /** One span under the shared budget. */
  function RunSpan(f: Fill, lo: int, hi: int, limit: nat, fetch: Fetch): Fill {
    if f.failed || f.remaining <= 0 || lo > hi then f
    else
      var p := PageForward(f.store, lo, hi, limit, f.remaining, fetch, f.calls);
      Fill(p.store, f.remaining - p.pages, f.calls + p.pages, f.written + p.written, p.failed)
  }

  /** The span before the first stored bar and the one after the newest. */
  function FillEnds(f: Fill, start: int, end: int, limit: nat, fetch: Fetch): Fill {
    if f.store == {} then RunSpan(f, start, end, limit, fetch)
    else
      var head := if First(f.store) > start then RunSpan(f, start, First(f.store) - TF_MS, limit, fetch) else f;
      if head.store != {} && Latest(head.store) < end then RunSpan(head, Latest(head.store) + TF_MS, end, limit, fetch)
      else head
  }

  function FillGaps(f: Fill, edges: seq<(int, int)>, limit: nat, fetch: Fetch): Fill
    decreases |edges|
  {
    if edges == [] || f.failed || f.remaining <= 0 then f
    else FillGaps(RunSpan(f, edges[0].0 + TF_MS, edges[0].1 - TF_MS, limit, fetch), edges[1..], limit, fetch)
  }

  function Backfill(store: set<int>, start: int, end: int, limit: nat, maxPages: int, fetch: Fetch): Fill {
    var f := FillEnds(Fill(store, maxPages, 0, 0, false), start, end, limit, fetch);
    FillGaps(f, GapEdges(InOrder(f.store)), limit, fetch)
  }

  /** Progress from one state of a backfill to a later one. */
  ghost predicate Progress(f: Fill, g: Fill, market: set<int>, end: int) {
    && f.store <= g.store && NewFrom(f.store, g.store, market) && g.remaining <= f.remaining
    && (f.failed ==> g.failed) && forall x :: x in g.store ==> x in f.store || x <= end
  }

  ghost predicate Unspent(f: Fill) {
    !f.failed && f.remaining > 0
  }

  lemma FaithfulBelow(fetch: Fetch, market: set<int>, limit: nat, end: int, hi: int)
    requires Faithful(fetch, market, limit, end) && hi <= end
    ensures Faithful(fetch, market, limit, hi)
  {
    forall call: nat, since: int | fetch(call, since, limit).Some?
      ensures IsPage(fetch(call, since, limit).value, market, since, limit, hi)
    {
      assert IsPage(fetch(call, since, limit).value, market, since, limit, end);
    }
  }

  lemma SpanProgress(f: Fill, lo: int, hi: int, market: set<int>, end: int, limit: nat, fetch: Fetch)
    requires Faithful(fetch, market, limit, end) && GridAligned(market) && limit >= 1 && hi <= end
    ensures var g := RunSpan(f, lo, hi, limit, fetch);
            Progress(f, g, market, end) && (Unspent(g) ==> Complete(g.store, market, lo, hi))
  {
    if !f.failed && f.remaining > 0 && lo <= hi {
      FaithfulBelow(fetch, market, limit, end, hi);
      hide PageForward, Faithful, IsPage;
      OnlyTheSpanIsWritten(f.store, lo, hi, limit, f.remaining, fetch, f.calls);
      NothingIsSkipped(f.store, market, lo, hi, limit, f.remaining, fetch, f.calls);
    }
  }

  lemma ProgressAdds(f: Fill, g: Fill, h: Fill, market: set<int>, end: int)
    requires Progress(f, g, market, end) && Progress(g, h, market, end)
    ensures Progress(f, h, market, end) && (Unspent(h) ==> Unspent(g))
  {
  }

  lemma {:induction false} GapsProgress(
    f: Fill, edges: seq<(int, int)>, market: set<int>, end: int, limit: nat, fetch: Fetch)
    requires Faithful(fetch, market, limit, end) && GridAligned(market) && limit >= 1
    requires forall e :: e in edges ==> e.1 <= end
    ensures var g := FillGaps(f, edges, limit, fetch);
            && Progress(f, g, market, end)
            && (Unspent(g) ==> forall e :: e in edges ==> Complete(g.store, market, e.0 + TF_MS, e.1 - TF_MS))
    decreases |edges|
  {
    hide RunSpan, Faithful, GridAligned;
    if edges != [] && !f.failed && f.remaining > 0 {
      var g := RunSpan(f, edges[0].0 + TF_MS, edges[0].1 - TF_MS, limit, fetch);
      SpanProgress(f, edges[0].0 + TF_MS, edges[0].1 - TF_MS, market, end, limit, fetch);
      GapsProgress(g, edges[1..], market, end, limit, fetch);
      var h := FillGaps(g, edges[1..], limit, fetch);
      ProgressAdds(f, g, h, market, end);
      assert edges == [edges[0]] + edges[1..];
    }
  }

  /** With its ends filled, only holes between stored bars are left. */
  ghost predicate EndsComplete(store: set<int>, market: set<int>, start: int, end: int) {
    forall m :: m in market && start <= m <= end && m !in store ==>
      exists a, b :: a in store && b in store && a < m < b
  }

  lemma CompleteHasNoEnds(store: set<int>, market: set<int>, start: int, end: int)
    ensures Complete(store, market, start, end) ==> EndsComplete(store, market, start, end)
  {
  }

  lemma EndsProgress(f: Fill, market: set<int>, start: int, end: int, limit: nat, fetch: Fetch)
    requires Faithful(fetch, market, limit, end) && GridAligned(market) && limit >= 1
    requires GridAligned(f.store) && forall x :: x in f.store ==> x <= end
    ensures var g := FillEnds(f, start, end, limit, fetch);
            Progress(f, g, market, end) && (Unspent(g) ==> EndsComplete(g.store, market, start, end))
  {
    hide RunSpan, Faithful, First, Latest, InOrder, EndsComplete, Complete;
    if f.store == {} {
      SpanProgress(f, start, end, market, end, limit, fetch);
      CompleteHasNoEnds(FillEnds(f, start, end, limit, fetch).store, market, start, end);
    } else {
      var first := First(f.store);
      var head := if first > start then RunSpan(f, start, first - TF_MS, limit, fetch) else f;
      SpanProgress(f, start, first - TF_MS, market, end, limit, fetch);
      var last := Latest(head.store);
      var g := if last < end then RunSpan(head, last + TF_MS, end, limit, fetch) else head;
      SpanProgress(head, last + TF_MS, end, market, end, limit, fetch);
      ProgressAdds(f, head, g, market, end);
      if Unspent(g) {
        BothEnds(f.store, head.store, g.store, market, first, last, start, end);
      }
    }
  }

  lemma BothEnds(
    store: set<int>, head: set<int>, grown: set<int>, market: set<int>, first: int, last: int, start: int, end: int)
    requires store <= head <= grown && first in store && last in head && GridAligned(market)
    requires OnGrid(first) && OnGrid(last)
    requires first > start ==> Complete(head, market, start, first - TF_MS)
    requires last < end ==> Complete(grown, market, last + TF_MS, end)
    ensures EndsComplete(grown, market, start, end)
  {
    forall m | m in market && start <= m <= end && m !in grown
      ensures exists a, b :: a in grown && b in grown && a < m < b
    {
      assert m != first && m != last;
      if m < first {
        NextOnGrid(m, first);
        assert false;
      }
      if m > last {
        NextOnGrid(last, m);
        assert false;
      }
      assert first in grown && last in grown;
    }
  }

  lemma FirstAndLast(xs: seq<int>, a: int, b: int)
    requires Ascending(xs) && a in xs && b in xs
    ensures xs != [] && xs[0] <= a && b <= xs[|xs| - 1]
  {
    var i :| 0 <= i < |xs| && xs[i] == a;
    var j :| 0 <= j < |xs| && xs[j] == b;
    assert i == 0 || xs[0] < xs[i];
    assert j == |xs| - 1 || xs[j] < xs[|xs| - 1];
  }

  lemma GapIn(store: set<int>, m: int, a: int, b: int)
    requires GridAligned(store) && a in store && b in store && a < m < b && m !in store && OnGrid(m)
    ensures exists e :: e in GapEdges(InOrder(store)) && e.0 + TF_MS <= m <= e.1 - TF_MS
  {
    hide GapEdges;
    var xs := InOrder(store);
    assert a in xs && b in xs && m !in xs;
    FirstAndLast(xs, a, b);
    EveryHoleHasItsGap(xs, m);
  }

  lemma {:induction false} GapsAreStored(xs: seq<int>, e: (int, int))
    requires e in GapEdges(xs)
    ensures e.0 in xs && e.1 in xs
  {
    if e in GapEdges(xs[..|xs| - 1]) {
      GapsAreStored(xs[..|xs| - 1], e);
    }
  }

  /** A backfill that ends without a failed fetch and with page budget to spare has stored
      every market bar of its span, and in any case nothing that is not a closed market bar. */
  lemma BackfillIsComplete(
    store: set<int>, market: set<int>, start: int, end: int, limit: nat, maxPages: int, fetch: Fetch)
    requires Faithful(fetch, market, limit, end) && GridAligned(market) && limit >= 1
    requires GridAligned(store) && forall x :: x in store ==> x <= end
    ensures var g := Backfill(store, start, end, limit, maxPages, fetch);
            && store <= g.store && NewFrom(store, g.store, market) && (forall x :: x in g.store ==> x <= end)
            && (Unspent(g) ==> Complete(g.store, market, start, end))
  {
    hide FillEnds, FillGaps, Faithful;
    var f0 := Fill(store, maxPages, 0, 0, false);
    var f := FillEnds(f0, start, end, limit, fetch);
    EndsProgress(f0, market, start, end, limit, fetch);
    var edges := GapEdges(InOrder(f.store));
    forall e | e in edges ensures e.1 <= end {
      GapsAreStored(InOrder(f.store), e);
    }
    GapsProgress(f, edges, market, end, limit, fetch);
    var g := FillGaps(f, edges, limit, fetch);
    ProgressAdds(f0, f, g, market, end);
    if Unspent(g) {
      forall m | m in market && start <= m <= end ensures m in g.store {
        if m !in f.store {
          var a, b :| a in f.store && b in f.store && a < m < b;
          GapIn(f.store, m, a, b);
          var e :| e in edges && e.0 + TF_MS <= m <= e.1 - TF_MS;
          assert Complete(g.store, market, e.0 + TF_MS, e.1 - TF_MS);
        }
      }
    }
  }

  /** From one state to a later one: no call is free or unmade, and a failure is that of the
      next call. */
  ghost predicate Spends(f: Fill, g: Fill, limit: nat, fetch: Fetch) {
    && g.remaining + g.calls == f.remaining + f.calls && g.calls >= f.calls
    && (g.failed && !f.failed ==> g.remaining > 0 && exists since :: fetch(g.calls, since, limit).None?)
  }

  /** What is left of the budget and what was called make the budget, and a span fails over the
      call after its last one. */
  lemma SpanSpends(f: Fill, lo: int, hi: int, limit: nat, fetch: Fetch)
    ensures Spends(f, RunSpan(f, lo, hi, limit, fetch), limit, fetch)
  {
    hide PageForward, Spends;
    if !f.failed && f.remaining > 0 && lo <= hi {
      FailsOverItsNextCall(f.store, lo, hi, limit, f.remaining, fetch, f.calls);
      OneSpanSpends(f, PageForward(f.store, lo, hi, limit, f.remaining, fetch, f.calls), limit, fetch);
    } else {
      NothingSpent(f, limit, fetch);
    }
  }

  lemma OneSpanSpends(f: Fill, p: Paged, limit: nat, fetch: Fetch)
    requires !f.failed && (p.failed ==> p.pages < f.remaining && fetch(f.calls + p.pages, p.next, limit).None?)
    ensures var g := Fill(p.store, f.remaining - p.pages, f.calls + p.pages, f.written + p.written, p.failed);
            Spends(f, g, limit, fetch)
  {
  }

  lemma NothingSpent(f: Fill, limit: nat, fetch: Fetch)
    ensures Spends(f, f, limit, fetch)
  {
  }

  lemma {:induction false} GapsSpend(f: Fill, edges: seq<(int, int)>, limit: nat, fetch: Fetch)
    ensures Spends(f, FillGaps(f, edges, limit, fetch), limit, fetch)
    decreases |edges|
  {
    hide RunSpan;
    if edges != [] && !f.failed && f.remaining > 0 {
      var lo, hi := edges[0].0 + TF_MS, edges[0].1 - TF_MS;
      SpanSpends(f, lo, hi, limit, fetch);
      GapsSpend(RunSpan(f, lo, hi, limit, fetch), edges[1..], limit, fetch);
    }
  }

  lemma EndsSpend(f: Fill, start: int, end: int, limit: nat, fetch: Fetch)
    requires !f.failed
    ensures Spends(f, FillEnds(f, start, end, limit, fetch), limit, fetch)
  {
    hide RunSpan, First, Latest, InOrder;
    if f.store == {} {
      SpanSpends(f, start, end, limit, fetch);
    } else {
      var first := First(f.store);
      var head := if first > start then RunSpan(f, start, first - TF_MS, limit, fetch) else f;
      SpanSpends(f, start, first - TF_MS, limit, fetch);
      if head.store != {} {
        SpanSpends(head, Latest(head.store) + TF_MS, end, limit, fetch);
        FailedSpanStands(head, Latest(head.store) + TF_MS, end, limit, fetch);
      }
    }
  }

  lemma FailedSpanStands(f: Fill, lo: int, hi: int, limit: nat, fetch: Fetch)
    ensures f.failed ==> RunSpan(f, lo, hi, limit, fetch) == f
  {
  }

  /** A backfill spends its budget a page a call, and says it failed only over a call that
      failed. */
  lemma BackfillSpendsItsCalls(store: set<int>, start: int, end: int, limit: nat, maxPages: int, fetch: Fetch)
    ensures var g := Backfill(store, start, end, limit, maxPages, fetch);
            && g.calls == maxPages - g.remaining
            && (g.failed ==> exists since :: fetch(g.calls, since, limit).None?)
  {
    hide FillEnds, FillGaps, InOrder, GapEdges;
    var f0 := Fill(store, maxPages, 0, 0, false);
    var f := FillEnds(f0, start, end, limit, fetch);
    EndsSpend(f0, start, end, limit, fetch);
    var edges := GapEdges(InOrder(f.store));
    GapsSpend(f, edges, limit, fetch);
    FailedGapsStand(f, edges, limit, fetch);
  }

  lemma FailedGapsStand(f: Fill, edges: seq<(int, int)>, limit: nat, fetch: Fetch)
    ensures f.failed ==> FillGaps(f, edges, limit, fetch) == f
  {
  }

  // ----- the loops as the program performs them

  class CandleStore {
    var opens: set<int>

    constructor ()
      ensures opens == {}
    {
      opens := {};
    }

    /** Insert or replace: a page stored twice is stored once. */
    method Upsert(rows: seq<int>) returns (sent: nat)
      modifies this
      ensures opens == old(opens) + Elements(rows) && sent == |rows|
    {
      opens := opens + Elements(rows);
      sent := |rows|;
    }

    /** One page: what is sent, and the next cursor, none when it is the last page. */
    method TakePage(page: seq<int>, cursor: int, end: int, limit: nat) returns (sent: nat, next: int, more: bool)
      requires page != []
      modifies this
      ensures opens == old(opens) + Elements(Closed(page, end, cursor)) && sent == |Closed(page, end, cursor)|
      ensures var last := Newest(page);
              && next == (if last + TF_MS <= cursor then cursor else last + TF_MS)
              && more == (last + TF_MS > cursor && last < end && |page| >= limit)
    {
      hide Elements, Closed, Newest;
      sent := Upsert(Closed(page, end, cursor));
      var last := Newest(page);
      if last + TF_MS <= cursor {
        return sent, cursor, false;
      }
      next := last + TF_MS;
      more := last < end && |page| >= limit;
    }

    method PageSpan(start: int, end: int, limit: nat, maxPages: nat, fetch: Fetch, call: nat) returns (p: Paged)
      modifies this
      ensures p == PageForward(old(opens), start, end, limit, maxPages, fetch, call) && opens == p.store
    {
      hide PageForward, Elements, Closed, Newest;
      var cursor, pages: nat, written: nat := start, 0, 0;
      ghost var whole := PageForward(opens, start, end, limit, maxPages, fetch, call);
      while cursor <= end && pages < maxPages
        invariant pages <= maxPages
        invariant whole ==
                  After(PageForward(opens, cursor, end, limit, maxPages - pages, fetch, call + pages), pages, written)
        decreases maxPages - pages
      {
        NoPageTaken(opens, cursor, end, limit, maxPages - pages, fetch, call + pages);
        var page := fetch(call + pages, cursor, limit);
        if page.None? {
          return Paged(opens, pages, written, cursor, true);
        }
        if page.value == [] {
          return Paged(opens, pages + 1, written, cursor, false);
        }
        PageTaken(opens, cursor, end, limit, maxPages - pages, fetch, call + pages, page.value);
        var sent, next, more := TakePage(page.value, cursor, end, limit);
        pages, written, cursor := pages + 1, written + sent, next;
        if !more {
          return Paged(opens, pages, written, cursor, false);
        }
      }
      NoPageTaken(opens, cursor, end, limit, maxPages - pages, fetch, call + pages);
      p := Paged(opens, pages, written, cursor, false);
    }

    method UpdateSymbol(nowMs: int, limit: nat, maxPages: nat, fetch: Fetch) returns (p: Paged)
      modifies this
      ensures p == Update(old(opens), LastClosed5m(nowMs), limit, maxPages, fetch) && opens == p.store
    {
      hide PageForward, Latest, InOrder;
      var end := LastClosed5m(nowMs);
      if opens == {} {
        return Paged(opens, 0, 0, 0, false);
      }
      var start := Latest(opens) + TF_MS;
      if start > end {
        return Paged(opens, 0, 0, start, false);
      }
      p := PageSpan(start, end, limit, maxPages, fetch, 0);
    }

    /** One span within the budget that all spans of a backfill share. */
    method SpanInBudget(f: Fill, lo: int, hi: int, limit: nat, fetch: Fetch) returns (g: Fill)
      requires f.store == opens
      modifies this
      ensures g == RunSpan(f, lo, hi, limit, fetch) && opens == g.store
    {
      if f.failed || f.remaining <= 0 || lo > hi {
        return f;
      }
      var p := PageSpan(lo, hi, limit, f.remaining, fetch, f.calls);
      g := Fill(opens, f.remaining - p.pages, f.calls + p.pages, f.written + p.written, p.failed);
    }

    method BackfillSymbol(start: int, nowMs: int, limit: nat, maxPages: int, fetch: Fetch) returns (g: Fill)
      modifies this
      ensures g == Backfill(old(opens), start, LastClosed5m(nowMs), limit, maxPages, fetch) && opens == g.store
    {
      hide RunSpan, First, Latest, InOrder, GapEdges;
      var end := LastClosed5m(nowMs);
      g := Fill(opens, maxPages, 0, 0, false);
      if opens == {} {
        g := SpanInBudget(g, start, end, limit, fetch);
      } else {
        if First(opens) > start {
          g := SpanInBudget(g, start, First(opens) - TF_MS, limit, fetch);
        }
        if opens != {} && Latest(opens) < end {
          g := SpanInBudget(g, Latest(opens) + TF_MS, end, limit, fetch);
        }
      }
      var edges := GapEdges(InOrder(opens));
      ghost var whole := FillGaps(g, edges, limit, fetch);
      var k := 0;
      while k < |edges| && !g.failed && g.remaining > 0
        invariant 0 <= k <= |edges| && g.store == opens
        invariant whole == FillGaps(g, edges[k..], limit, fetch)
      {
        g := SpanInBudget(g, edges[k].0 + TF_MS, edges[k].1 - TF_MS, limit, fetch);
        assert edges[k..][1..] == edges[k + 1..];
        k := k + 1;
      }
    }
  }
}
