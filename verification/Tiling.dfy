/** The tiled walk-forward: out-of-sample segments anchored to a timestamp, each with its
    lead-in, cut from one symbol's tape. First the cuts in time, then the places they fall on
    in a tape. */
module Tiling {
  import opened DailyTape
  import opened Ordering
  import opened Wrappers

  const HOLDOUT_START_MS := 1_759_276_800_000

  // ----- where the segments lie in time

  function Steps(n: int, unit: int): int {
    n * unit
  }

  lemma OneStep(n: int, unit: int)
    ensures Steps(n + 1, unit) == Steps(n, unit) + unit
  {
  }

  lemma StepsMonotone(a: int, b: int, unit: int)
    requires a <= b && unit >= 0
    ensures Steps(a, unit) <= Steps(b, unit) && Steps(0, unit) == 0
  {
  }

  /** The stamps that cut one segment: its lead-in, its train part, its score and its end. */
  datatype Cut = Cut(lead: int, train: int, oos: int, end: Option<int>) {
    predicate Valid() {
      lead <= train <= oos && (end.Some? ==> oos <= end.value)
    }
  }

  datatype Layout = Layout(
    segments: int, oosStart: int, segmentMs: int, trainBars: int, warmupBars: int, tfMs: int,
    closeLast: bool, seal: bool)
  {
    predicate Valid() {
      segmentMs > 0 && tfMs > 0 && trainBars >= 0 && warmupBars >= 0
    }

    function LeadMs(): int { Steps(trainBars + warmupBars, tfMs) }

    function TrainMs(): int { Steps(trainBars, tfMs) }

    function Start(k: int): int { oosStart + Steps(k, segmentMs) }

    /** Segment `k`; the last one may run to the end of the tape. */
    function CutOf(k: int): Cut {
      Cut(Start(k) - LeadMs(), Start(k) - TrainMs(), Start(k),
          if closeLast || k != segments - 1 then Some(Start(k) + segmentMs) else None)
    }
  }

  lemma CutIsValid(l: Layout, k: int)
    requires l.Valid()
    ensures l.CutOf(k).Valid()
  {
    StepsMonotone(l.trainBars, l.trainBars + l.warmupBars, l.tfMs);
    StepsMonotone(0, l.trainBars, l.tfMs);
  }

  lemma CutsTouch(l: Layout, k: int)
    requires l.Valid() && 0 <= k < l.segments - 1
    ensures l.CutOf(k).end == Some(l.CutOf(k + 1).oos)
  {
    OneStep(k, l.segmentMs);
  }

  lemma CutsAscend(l: Layout, j: int, k: int)
    requires l.Valid() && j <= k
    ensures l.CutOf(j).oos <= l.CutOf(k).oos && l.CutOf(j).lead <= l.CutOf(k).lead
  {
    StepsMonotone(j, k, l.segmentMs);
  }

  // ----- one slice of a tape

  predicate Ordered(rows: seq<Bar>) {
    Ascending(Stamps(rows))
  }

  /** How many rows lie before `t`. */
  function Place(rows: seq<Bar>, t: int): (n: nat)
    ensures n <= |rows|
  {
    IndexOf(Stamps(rows), t)
  }

  lemma PlaceSplits(rows: seq<Bar>, t: int, i: nat)
    requires Ordered(rows) && i < |rows|
    ensures i < Place(rows, t) <==> rows[i].ts < t
  {
    IndexSplits(Stamps(rows), t, i);
  }

  lemma PlaceUnique(rows: seq<Bar>, t: int, n: nat)
    requires Ordered(rows) && n <= |rows|
    requires (n > 0 ==> rows[n - 1].ts < t) && (n < |rows| ==> rows[n].ts >= t)
    ensures Place(rows, t) == n
  {
    IndexUnique(Stamps(rows), t, n);
  }

  lemma PlaceMonotone(rows: seq<Bar>, t: int, u: int)
    requires Ordered(rows) && t <= u
    ensures Place(rows, t) <= Place(rows, u)
  {
    IndexMonotone(Stamps(rows), t, u);
  }

  function EndPlace(rows: seq<Bar>, c: Cut): (e: nat)
    ensures e <= |rows|
  {
    if c.end.None? then |rows| else Place(rows, c.end.value)
  }

  lemma PlacesInOrder(rows: seq<Bar>, c: Cut)
    requires Ordered(rows) && c.Valid()
    ensures Place(rows, c.lead) <= Place(rows, c.train) <= Place(rows, c.oos) <= EndPlace(rows, c)
  {
    PlaceMonotone(rows, c.lead, c.train);
    PlaceMonotone(rows, c.train, c.oos);
    if c.end.Some? {
      PlaceMonotone(rows, c.oos, c.end.value);
    }
  }

  /** A segment's bars with its lead-in, and where the train and out-of-sample parts begin. */
  datatype Slice = Slice(rows: seq<Bar>, train: int, oos: int)

  function SliceAt(rows: seq<Bar>, c: Cut): Slice
    requires Ordered(rows) && c.Valid()
  {
    PlacesInOrder(rows, c);
    var lead := Place(rows, c.lead);
    Slice(rows[lead..EndPlace(rows, c)], Place(rows, c.train) - lead, Place(rows, c.oos) - lead)
  }

  // ----- all slices

  datatype Refusal = EmptyTape | StartsTooLate | EndsTooEarly | Leak(segment: int)

  /** A sealed layout refuses a segment that is not strictly before the holdout. */
  predicate Leaks(l: Layout, k: int) {
    l.seal && (l.CutOf(k).end.None? || l.CutOf(k).end.value > HOLDOUT_START_MS)
  }

  /** Segment `k` after the ones before it: a leak refuses them all. */
  function Extended(before: Result<seq<Slice>, Refusal>, l: Layout, k: nat, slice: Slice): Result<seq<Slice>, Refusal> {
    if before.Failure? then before
    else if Leaks(l, k) then Failure(Leak(k))
    else Success(before.value + [slice])
  }

  function SliceOfSegment(rows: seq<Bar>, l: Layout, k: nat): Slice
    requires l.Valid() && Ordered(rows)
  {
    CutIsValid(l, k);
    SliceAt(rows, l.CutOf(k))
  }

  function SlicesUpTo(rows: seq<Bar>, l: Layout, n: nat): Result<seq<Slice>, Refusal>
    requires l.Valid() && Ordered(rows)
  {
    if n == 0 then Success([])
    else Extended(SlicesUpTo(rows, l, n - 1), l, n - 1, SliceOfSegment(rows, l, n - 1))
  }

  function Refused(rows: seq<Bar>, l: Layout): Option<Refusal> {
    if rows == [] then Some(EmptyTape)
    else if rows[0].ts > l.oosStart - l.LeadMs() then Some(StartsTooLate)
    else if rows[|rows| - 1].ts < l.Start(l.segments - 1) then Some(EndsTooEarly)
    else None
  }

  function Slices(rows: seq<Bar>, l: Layout): Result<seq<Slice>, Refusal>
    requires l.Valid() && Ordered(rows)
  {
    match Refused(rows, l)
    case Some(why) => Failure(why)
    case None => SlicesUpTo(rows, l, if l.segments > 0 then l.segments else 0)
  }

  method TiledSlices(rows: seq<Bar>, l: Layout) returns (r: Result<seq<Slice>, Refusal>)
    requires l.Valid() && Ordered(rows)
    ensures r == Slices(rows, l)
  {
    hide Leaks, Ordered, SliceAt;
    var refused := Refused(rows, l);
    if refused.Some? {
      return Failure(refused.value);
    }
    var slices: seq<Slice> := [];
    var k, n := 0, if l.segments > 0 then l.segments else 0;
    while k < n
      invariant 0 <= k <= n && SlicesUpTo(rows, l, k) == Success(slices)
    {
      if Leaks(l, k) {
        LeakEnds(rows, l, k, n);
        return Failure(Leak(k));
      }
      CutIsValid(l, k);
      slices := slices + [SliceAt(rows, l.CutOf(k))];
      k := k + 1;
    }
    r := Success(slices);
  }

  lemma {:induction false} LeakEnds(rows: seq<Bar>, l: Layout, k: nat, n: nat)
    requires l.Valid() && Ordered(rows) && k < n
    requires SlicesUpTo(rows, l, k).Success? && Leaks(l, k)
    ensures SlicesUpTo(rows, l, n) == Failure(Leak(k))
    decreases n
  {
    hide Leaks, Ordered, SliceAt;
    if k < n - 1 {
      LeakEnds(rows, l, k, n - 1);
    }
  }

  lemma {:induction false} SliceOf(rows: seq<Bar>, l: Layout, n: nat, k: nat)
    requires l.Valid() && Ordered(rows) && SlicesUpTo(rows, l, n).Success? && k < n
    ensures l.CutOf(k).Valid() && !Leaks(l, k)
    ensures var s := SlicesUpTo(rows, l, n).value; |s| == n && s[k] == SliceAt(rows, l.CutOf(k))
    decreases n
  {
    CutIsValid(l, k);
    hide Leaks, Ordered, SliceAt, Layout.CutOf;
    if n > 1 {
      SliceOf(rows, l, n - 1, if k < n - 1 then k else 0);
    }
  }

  // ----- the partition

  /** Row `i` is one of segment `k`'s out-of-sample rows. */
  predicate Scored(rows: seq<Bar>, l: Layout, k: int, i: int) {
    Place(rows, l.CutOf(k).oos) <= i < EndPlace(rows, l.CutOf(k))
  }

  /** Each segment's score ends where the next begins, and an open last one with the tape. */
  lemma SegmentsTouch(rows: seq<Bar>, l: Layout, k: int)
    requires l.Valid() && Ordered(rows) && 0 <= k < l.segments
    ensures k < l.segments - 1 ==> EndPlace(rows, l.CutOf(k)) == Place(rows, l.CutOf(k + 1).oos)
    ensures k == l.segments - 1 && !l.closeLast ==> EndPlace(rows, l.CutOf(k)) == |rows|
  {
    if k < l.segments - 1 {
      CutsTouch(l, k);
    }
  }

  lemma ScoreOrder(rows: seq<Bar>, l: Layout, j: int, k: int)
    requires l.Valid() && Ordered(rows) && 0 <= j < k < l.segments
    ensures EndPlace(rows, l.CutOf(j)) <= Place(rows, l.CutOf(k).oos)
  {
    SegmentsTouch(rows, l, j);
    CutsAscend(l, j + 1, k);
    PlaceMonotone(rows, l.CutOf(j + 1).oos, l.CutOf(k).oos);
  }

  lemma {:induction false} ScoredSomewhere(rows: seq<Bar>, l: Layout, n: int, i: int) returns (k: int)
    requires l.Valid() && Ordered(rows) && 1 <= n <= l.segments
    requires Place(rows, l.CutOf(0).oos) <= i < EndPlace(rows, l.CutOf(n - 1))
    ensures 0 <= k < n && Scored(rows, l, k, i)
    decreases n
  {
    hide Ordered, Place, EndPlace, Layout.CutOf;
    if Place(rows, l.CutOf(n - 1).oos) <= i {
      k := n - 1;
    } else {
      SegmentsTouch(rows, l, n - 2);
      k := ScoredSomewhere(rows, l, n - 1, i);
    }
  }

  /** Every row from the first segment's start to the last one's end is scored, and once. */
  lemma EachRowIsScoredOnce(rows: seq<Bar>, l: Layout, i: int)
    requires l.Valid() && Ordered(rows) && l.segments >= 1
    requires Place(rows, l.CutOf(0).oos) <= i < EndPlace(rows, l.CutOf(l.segments - 1))
    ensures exists k :: 0 <= k < l.segments && Scored(rows, l, k, i)
    ensures forall j, k :: 0 <= j < k < l.segments ==> !(Scored(rows, l, j, i) && Scored(rows, l, k, i))
  {
    hide Ordered, Place, EndPlace, Layout.CutOf;
    var at := ScoredSomewhere(rows, l, l.segments, i);
    forall j, k | 0 <= j < k < l.segments ensures !(Scored(rows, l, j, i) && Scored(rows, l, k, i)) {
      ScoreOrder(rows, l, j, k);
    }
  }

  /** A slice's lead-in and train rows are all before its segment, its scored rows are not. */
  lemma LeadInIsBefore(rows: seq<Bar>, c: Cut, i: nat)
    requires Ordered(rows) && c.Valid() && i < |SliceAt(rows, c).rows|
    ensures var s := SliceAt(rows, c);
            && 0 <= s.train <= s.oos <= |s.rows|
            && (i < s.oos <==> s.rows[i].ts < c.oos) && (i < s.train <==> s.rows[i].ts < c.train)
            && s.rows[i].ts >= c.lead && (c.end.Some? ==> s.rows[i].ts < c.end.value)
  {
    hide Place, Ordered;
    PlacesInOrder(rows, c);
    var at := Place(rows, c.lead) + i;
    assert SliceAt(rows, c).rows[i] == rows[at];
    PlaceSplits(rows, c.lead, at);
    PlaceSplits(rows, c.train, at);
    PlaceSplits(rows, c.oos, at);
    if c.end.Some? {
      PlaceSplits(rows, c.end.value, at);
    }
  }

  /** A sealed walk-forward never shows a segment a bar of the holdout. */
  lemma SealedSegmentsEndBeforeTheHoldout(rows: seq<Bar>, l: Layout, k: nat, i: nat)
    requires l.Valid() && Ordered(rows) && l.seal && Slices(rows, l).Success? && k < l.segments
    ensures var s := Slices(rows, l).value;
            k < |s| && (i < |s[k].rows| ==> s[k].rows[i].ts < HOLDOUT_START_MS)
  {
    SliceOf(rows, l, l.segments, k);
    hide SliceAt, SlicesUpTo, Ordered, Layout.CutOf;
    if i < |SliceAt(rows, l.CutOf(k)).rows| {
      LeadInIsBefore(rows, l.CutOf(k), i);
    }
  }

  function Product(n: int, unit: int): int {
    n * unit
  }

  /** A tape is refused unless some row is no later than the first lead-in and some row no earlier
      than the last segment's start. */
  lemma RefusedUnlessCovered(rows: seq<Bar>, l: Layout)
    requires l.Valid() && Ordered(rows)
    ensures Refused(rows, l).None? <==>
            && (exists i :: 0 <= i < |rows| && rows[i].ts <= l.oosStart - Product(l.trainBars + l.warmupBars, l.tfMs))
            && (exists i :: 0 <= i < |rows| && rows[i].ts >= l.oosStart + Product(l.segments - 1, l.segmentMs))
  {
    var ts := Stamps(rows);
    if rows != [] {
      forall i | 0 <= i < |rows| ensures rows[0].ts <= rows[i].ts <= rows[|rows| - 1].ts {
        assert ts[0] <= ts[i] <= ts[|rows| - 1];
      }
    }
    hide Ordered;
  }

  /** The rows scored in segment `k` are those of its time: `segmentMs` from where it starts, or to
      the tape's end for an open last one. */
  lemma ScoredInItsTime(rows: seq<Bar>, l: Layout, k: int, i: nat)
    requires l.Valid() && Ordered(rows) && 0 <= k < l.segments && i < |rows|
    ensures var start := l.oosStart + Product(k, l.segmentMs);
            Scored(rows, l, k, i) <==>
            && start <= rows[i].ts
            && ((k == l.segments - 1 && !l.closeLast) || rows[i].ts < start + l.segmentMs)
  {
    var c := l.CutOf(k);
    PlaceSplits(rows, c.oos, i);
    if c.end.Some? {
      PlaceSplits(rows, c.end.value, i);
    }
    hide Place, Ordered;
  }

  // ----- on a tape without gaps

  /** One row every `tfMs`. */
  ghost predicate GapFree(rows: seq<Bar>, tfMs: int) {
    forall i :: 0 <= i < |rows| ==> rows[i].ts == rows[0].ts + Steps(i, tfMs)
  }

  lemma StepsAdd(a: int, b: int, unit: int)
    ensures Steps(a + b, unit) == Steps(a, unit) + Steps(b, unit)
  {
  }

  /** The times a tape without gaps covers: from its first row to the end of its last. */
  ghost predicate OnTape(rows: seq<Bar>, tfMs: int, t: int) {
    rows != [] && rows[0].ts <= t <= rows[0].ts + Steps(|rows|, tfMs)
  }

  lemma PlaceOnTape(rows: seq<Bar>, tfMs: int, t: int)
    requires Ordered(rows) && GapFree(rows, tfMs) && tfMs > 0 && OnTape(rows, tfMs, t)
    ensures var n := Place(rows, t);
            (n > 0 ==> rows[0].ts + Steps(n - 1, tfMs) < t) && t <= rows[0].ts + Steps(n, tfMs)
  {
    hide Ordered, Place, Steps;
    var n := Place(rows, t);
    if n > 0 {
      PlaceSplits(rows, t, n - 1);
    }
    if n < |rows| {
      PlaceSplits(rows, t, n);
    }
  }

  /** `n` bars' worth of time is `n` rows, wherever it lies on the tape. */
  lemma BarsInSpan(rows: seq<Bar>, tfMs: int, t: int, n: nat)
    requires Ordered(rows) && GapFree(rows, tfMs) && tfMs > 0
    requires OnTape(rows, tfMs, t) && OnTape(rows, tfMs, t + Steps(n, tfMs))
    ensures Place(rows, t + Steps(n, tfMs)) - Place(rows, t) == n
  {
    hide Ordered, Place, Steps, GapFree;
    var p, q, u := Place(rows, t), Place(rows, t + Steps(n, tfMs)), t + Steps(n, tfMs);
    PlaceOnTape(rows, tfMs, t);
    PlaceOnTape(rows, tfMs, u);
    StepsAdd(p, n, tfMs);
    StepsAdd(p - 1, n, tfMs);
    if q > p + n {
      StepsMonotone(p + n, q - 1, tfMs);
    } else if q < p + n && p > 0 {
      StepsMonotone(q, p - 1 + n, tfMs);
    } else if q < n && p == 0 {
      NothingBefore(rows, tfMs, t);
      StepsMonotone(q + 1, n, tfMs);
      OneStep(q, tfMs);
    }
  }

  lemma NothingBefore(rows: seq<Bar>, tfMs: int, t: int)
    requires Ordered(rows) && OnTape(rows, tfMs, t) && Place(rows, t) == 0
    ensures t == rows[0].ts
  {
    hide Place, Ordered;
    PlaceSplits(rows, t, 0);
  }

  lemma CutSpans(l: Layout, k: nat)
    ensures var c := l.CutOf(k);
            && c.train == c.lead + Steps(l.warmupBars, l.tfMs) && c.oos == c.train + Steps(l.trainBars, l.tfMs)
            && (c.end.Some? ==> c.end.value == c.oos + l.segmentMs)
  {
    StepsAdd(l.trainBars, l.warmupBars, l.tfMs);
  }

  lemma SliceSizes(rows: seq<Bar>, c: Cut)
    requires Ordered(rows) && c.Valid()
    ensures var s := SliceAt(rows, c);
            && s.train == Place(rows, c.train) - Place(rows, c.lead)
            && s.oos == s.train + (Place(rows, c.oos) - Place(rows, c.train))
            && |s.rows| == s.oos + (EndPlace(rows, c) - Place(rows, c.oos))
  {
    PlacesInOrder(rows, c);
    hide Place, Ordered;
  }

  /** The slice of a cut that lies on the tape. */
  lemma LengthsOfCut(rows: seq<Bar>, tfMs: int, c: Cut, warmup: nat, train: nat, bars: nat)
    requires Ordered(rows) && GapFree(rows, tfMs) && tfMs > 0 && c.Valid()
    requires OnTape(rows, tfMs, c.lead) && OnTape(rows, tfMs, c.train) && OnTape(rows, tfMs, c.oos)
    requires c.train == c.lead + Steps(warmup, tfMs) && c.oos == c.train + Steps(train, tfMs)
    requires c.end.Some? ==> c.end.value == c.oos + Steps(bars, tfMs)
    ensures var s := SliceAt(rows, c);
            && s.train == warmup && s.oos == warmup + train
            && (c.end.Some? && OnTape(rows, tfMs, c.end.value) ==> |s.rows| == warmup + train + bars)
  {
    hide *;
    SliceSizes(rows, c);
    BarsInSpan(rows, tfMs, c.lead, warmup);
    BarsInSpan(rows, tfMs, c.train, train);
    if c.end.Some? && OnTape(rows, tfMs, c.end.value) {
      EndPlaceIs(rows, c);
      BarsInSpan(rows, tfMs, c.oos, bars);
    }
  }

  lemma SlicesAre(rows: seq<Bar>, l: Layout, k: nat)
    requires l.Valid() && Ordered(rows) && Slices(rows, l).Success? && k < l.segments
    ensures Refused(rows, l).None? && l.CutOf(k).Valid()
    ensures var s := Slices(rows, l).value; k < |s| && s[k] == SliceAt(rows, l.CutOf(k))
  {
    hide Ordered, SliceAt, SlicesUpTo, Layout.CutOf, Refused;
    SliceOf(rows, l, l.segments, k);
  }

  /** On a tape without gaps a slice has exactly its warm-up rows, then exactly its train rows,
      and, when its segment is a whole number of bars and the tape reaches its end, exactly that
      many scored ones. */
  lemma SliceLengths(rows: seq<Bar>, l: Layout, k: nat, bars: nat)
    requires l.Valid() && Ordered(rows) && GapFree(rows, l.tfMs) && Slices(rows, l).Success? && k < l.segments
    requires l.segmentMs == Steps(bars, l.tfMs)
    ensures var s, c := Slices(rows, l).value, l.CutOf(k);
            && k < |s| && s[k].train == l.warmupBars && s[k].oos == l.warmupBars + l.trainBars
            && (c.end.Some? && OnTape(rows, l.tfMs, c.end.value) ==>
                  |s[k].rows| == l.warmupBars + l.trainBars + bars)
  {
    assert l.warmupBars >= 0 && l.trainBars >= 0 && l.tfMs > 0;
    hide *;
    SlicesAre(rows, l, k);
    NotRefused(rows, l, k);
    CutSpans(l, k);
    LengthsOfCut(rows, l.tfMs, l.CutOf(k), l.warmupBars, l.trainBars, bars);
  }

  lemma EndPlaceIs(rows: seq<Bar>, c: Cut)
    requires c.end.Some?
    ensures EndPlace(rows, c) == Place(rows, c.end.value)
  {
  }

  /** A tape that is not refused covers the lead-in of every segment. */
  lemma NotRefused(rows: seq<Bar>, l: Layout, k: nat)
    requires l.Valid() && Refused(rows, l).None? && GapFree(rows, l.tfMs) && k < l.segments
    ensures var c := l.CutOf(k);
            OnTape(rows, l.tfMs, c.lead) && OnTape(rows, l.tfMs, c.train) && OnTape(rows, l.tfMs, c.oos)
  {
    CutIsValid(l, k);
    StepsMonotone(0, k, l.segmentMs);
    StepsMonotone(k, l.segments - 1, l.segmentMs);
    OneStep(|rows| - 1, l.tfMs);
    hide GapFree;
    LastOfTape(rows, l.tfMs);
  }

  lemma LastOfTape(rows: seq<Bar>, tfMs: int)
    requires rows != [] && GapFree(rows, tfMs)
    ensures rows[|rows| - 1].ts == rows[0].ts + Steps(|rows| - 1, tfMs)
  {
  }

  // ----- stability

  lemma PartsAreOrdered(pre: seq<Bar>, rows: seq<Bar>)
    requires Ordered(pre + rows)
    ensures Ordered(pre) && Ordered(rows)
    ensures pre != [] && rows != [] ==> pre[|pre| - 1].ts < rows[0].ts
  {
    var ts := Stamps(pre + rows);
    forall i, j | 0 <= i < j < |rows| ensures Stamps(rows)[i] < Stamps(rows)[j] {
      assert ts[|pre| + i] < ts[|pre| + j];
    }
    forall i, j | 0 <= i < j < |pre| ensures Stamps(pre)[i] < Stamps(pre)[j] {
      assert ts[i] < ts[j];
    }
    if pre != [] && rows != [] {
      assert ts[|pre| - 1] < ts[|pre|];
    }
  }

  lemma PlaceAfterPrepend(pre: seq<Bar>, rows: seq<Bar>, t: int)
    requires Ordered(pre + rows) && rows != [] && rows[0].ts <= t
    ensures Place(pre + rows, t) == |pre| + Place(rows, t)
  {
    PartsAreOrdered(pre, rows);
    var n := Place(rows, t);
    hide Ordered, Place;
    if n > 0 {
      PlaceSplits(rows, t, n - 1);
    }
    if n < |rows| {
      PlaceSplits(rows, t, n);
    }
    PlaceUnique(pre + rows, t, |pre| + n);
  }

  lemma SliceShift(pre: seq<Bar>, rows: seq<Bar>, lo: nat, hi: nat)
    requires lo <= hi <= |rows|
    ensures (pre + rows)[|pre| + lo..|pre| + hi] == rows[lo..hi]
  {
  }

  lemma SliceStays(rows: seq<Bar>, more: seq<Bar>, lo: nat, hi: nat)
    requires lo <= hi <= |rows|
    ensures (rows + more)[lo..hi] == rows[lo..hi]
  {
  }

  /** Extra history in front of the first lead-in moves no slice. */
  lemma HistoryChangesNoCut(pre: seq<Bar>, rows: seq<Bar>, c: Cut)
    requires Ordered(pre + rows) && rows != [] && c.Valid() && rows[0].ts <= c.lead
    ensures Ordered(rows) && SliceAt(pre + rows, c) == SliceAt(rows, c)
  {
    hide Place, Ordered;
    PartsAreOrdered(pre, rows);
    PlacesInOrder(rows, c);
    PlaceAfterPrepend(pre, rows, c.lead);
    PlaceAfterPrepend(pre, rows, c.train);
    PlaceAfterPrepend(pre, rows, c.oos);
    if c.end.Some? {
      PlaceAfterPrepend(pre, rows, c.end.value);
    }
    SliceShift(pre, rows, Place(rows, c.lead), EndPlace(rows, c));
  }

  lemma HistoryMovesNoCut(pre: seq<Bar>, rows: seq<Bar>, l: Layout, k: nat)
    requires l.Valid() && Ordered(pre + rows) && Refused(rows, l).None?
    ensures l.CutOf(k).Valid() && Ordered(rows)
    ensures SliceAt(pre + rows, l.CutOf(k)) == SliceAt(rows, l.CutOf(k))
  {
    CutIsValid(l, k);
    CutsAscend(l, 0, k);
    StepsMonotone(0, 0, l.segmentMs);
    HistoryChangesNoCut(pre, rows, l.CutOf(k));
  }

  lemma PlaceAfterAppend(rows: seq<Bar>, more: seq<Bar>, t: int)
    requires Ordered(rows + more) && rows != [] && t <= rows[|rows| - 1].ts
    ensures Place(rows + more, t) == Place(rows, t)
  {
    PartsAreOrdered(rows, more);
    var n := Place(rows, t);
    hide Ordered, Place;
    PlaceSplits(rows, t, |rows| - 1);
    PlaceSplits(rows, t, n);
    if n > 0 {
      PlaceSplits(rows, t, n - 1);
    }
    PlaceUnique(rows + more, t, n);
  }

  lemma NewBarsChangeNoClosedCut(rows: seq<Bar>, more: seq<Bar>, c: Cut)
    requires Ordered(rows + more) && rows != [] && c.Valid()
    requires c.end.Some? && c.end.value <= rows[|rows| - 1].ts
    ensures Ordered(rows) && SliceAt(rows + more, c) == SliceAt(rows, c)
  {
    hide Place, Ordered;
    PartsAreOrdered(rows, more);
    PlacesInOrder(rows, c);
    PlaceAfterAppend(rows, more, c.lead);
    PlaceAfterAppend(rows, more, c.train);
    PlaceAfterAppend(rows, more, c.oos);
    PlaceAfterAppend(rows, more, c.end.value);
    SliceStays(rows, more, Place(rows, c.lead), EndPlace(rows, c));
  }

  lemma NewBarsMoveNoEarlierCut(rows: seq<Bar>, more: seq<Bar>, l: Layout, k: nat)
    requires l.Valid() && Ordered(rows + more) && Refused(rows, l).None? && k < l.segments - 1
    ensures l.CutOf(k).Valid() && Ordered(rows)
    ensures SliceAt(rows + more, l.CutOf(k)) == SliceAt(rows, l.CutOf(k))
  {
    CutIsValid(l, k);
    CutsTouch(l, k);
    CutsAscend(l, k + 1, l.segments - 1);
    NewBarsChangeNoClosedCut(rows, more, l.CutOf(k));
  }

  // ----- stability of the whole list

  lemma PrependIsNotRefused(pre: seq<Bar>, rows: seq<Bar>, l: Layout)
    requires Ordered(pre + rows) && Refused(rows, l).None?
    ensures Refused(pre + rows, l).None?
  {
    PartsAreOrdered(pre, rows);
    if pre != [] {
      AscendingFirstLast(pre);
    }
  }

  lemma AscendingFirstLast(rows: seq<Bar>)
    requires Ordered(rows) && rows != []
    ensures rows[0].ts <= rows[|rows| - 1].ts
  {
    assert Stamps(rows)[0] == rows[0].ts && Stamps(rows)[|rows| - 1] == rows[|rows| - 1].ts;
  }

  lemma SegmentAfterPrepend(pre: seq<Bar>, rows: seq<Bar>, l: Layout, k: nat)
    requires l.Valid() && Ordered(pre + rows) && Refused(rows, l).None?
    ensures Ordered(rows) && SliceOfSegment(pre + rows, l, k) == SliceOfSegment(rows, l, k)
  {
    hide SliceAt, Ordered, Refused;
    HistoryMovesNoCut(pre, rows, l, k);
  }

  lemma SegmentAfterAppend(rows: seq<Bar>, more: seq<Bar>, l: Layout, k: nat)
    requires l.Valid() && Ordered(rows + more) && Refused(rows, l).None? && k < l.segments - 1
    ensures Ordered(rows) && SliceOfSegment(rows + more, l, k) == SliceOfSegment(rows, l, k)
  {
    hide SliceAt, Ordered, Refused;
    NewBarsMoveNoEarlierCut(rows, more, l, k);
  }

  lemma {:induction false} SlicesUpToPrepend(pre: seq<Bar>, rows: seq<Bar>, l: Layout, n: nat)
    requires l.Valid() && Ordered(pre + rows) && Refused(rows, l).None?
    ensures Ordered(rows) && SlicesUpTo(pre + rows, l, n) == SlicesUpTo(rows, l, n)
  {
    hide Ordered, SliceOfSegment, Extended, Refused, Layout.Valid;
    PartsAreOrdered(pre, rows);
    if n > 0 {
      SlicesUpToPrepend(pre, rows, l, n - 1);
      SegmentAfterPrepend(pre, rows, l, n - 1);
    }
  }

  /** Prepending history to a tape that is not refused gives the same answer: the same slices, or
      the same refusal of a leak. */
  lemma HistoryChangesNoSlice(pre: seq<Bar>, rows: seq<Bar>, l: Layout)
    requires l.Valid() && Ordered(pre + rows) && Refused(rows, l).None?
    ensures Ordered(rows) && Slices(pre + rows, l) == Slices(rows, l)
  {
    PartsAreOrdered(pre, rows);
    PrependIsNotRefused(pre, rows, l);
    SlicesUpToPrepend(pre, rows, l, if l.segments > 0 then l.segments else 0);
  }

  lemma AppendIsNotRefused(rows: seq<Bar>, more: seq<Bar>, l: Layout)
    requires Ordered(rows + more) && Refused(rows, l).None?
    ensures Refused(rows + more, l).None?
  {
    PartsAreOrdered(rows, more);
    if more != [] {
      AscendingFirstLast(more);
    }
  }

  lemma {:induction false} SlicesUpToAppend(rows: seq<Bar>, more: seq<Bar>, l: Layout, n: nat)
    requires l.Valid() && Ordered(rows + more) && Refused(rows, l).None? && (n == 0 || n <= l.segments - 1)
    ensures Ordered(rows) && SlicesUpTo(rows + more, l, n) == SlicesUpTo(rows, l, n)
  {
    hide Ordered, SliceOfSegment, Extended, Refused, Layout.Valid;
    PartsAreOrdered(rows, more);
    if n > 0 {
      SlicesUpToAppend(rows, more, l, n - 1);
      SegmentAfterAppend(rows, more, l, n - 1);
    }
  }

  /** The two answers agree but for the last slice: the same refusal, or as many slices and all the
      earlier ones equal. */
  predicate AgreeButLast(a: Result<seq<Slice>, Refusal>, b: Result<seq<Slice>, Refusal>) {
    if a.Failure? || b.Failure? then a == b
    else |a.value| == |b.value| && forall k :: 0 <= k < |a.value| - 1 ==> a.value[k] == b.value[k]
  }

  /** Appending bars to a tape that is not refused changes no slice but the last, and not that one
      either when the layout closes it and the tape has reached its end. */
  lemma NewBarsChangeOnlyTheLast(rows: seq<Bar>, more: seq<Bar>, l: Layout)
    requires l.Valid() && Ordered(rows + more) && Refused(rows, l).None?
    ensures Ordered(rows) && AgreeButLast(Slices(rows + more, l), Slices(rows, l))
    ensures l.closeLast && l.Start(l.segments) <= rows[|rows| - 1].ts ==> Slices(rows + more, l) == Slices(rows, l)
  {
    hide Ordered, SliceOfSegment, Extended, Refused, Layout.Valid, Layout.Start, AgreeButLast, Leaks;
    RefusedWhenEmpty(rows, l);
    PartsAreOrdered(rows, more);
    AppendIsNotRefused(rows, more, l);
    if l.segments > 0 {
      var n := l.segments - 1;
      SlicesUpToAppend(rows, more, l, n);
      if l.closeLast && l.Start(l.segments) <= rows[|rows| - 1].ts {
        ReachedEnd(rows, more, l);
      }
      LastOnly(SlicesUpTo(rows, l, n), l, n, SliceOfSegment(rows + more, l, n), SliceOfSegment(rows, l, n));
    } else {
      SameAgree(Slices(rows, l));
    }
  }

  lemma RefusedWhenEmpty(rows: seq<Bar>, l: Layout)
    ensures rows == [] ==> Refused(rows, l) == Some(EmptyTape)
  {
  }

  lemma SameAgree(a: Result<seq<Slice>, Refusal>)
    ensures AgreeButLast(a, a)
  {
  }

  lemma ReachedEnd(rows: seq<Bar>, more: seq<Bar>, l: Layout)
    requires l.Valid() && Ordered(rows + more) && Refused(rows, l).None? && l.segments > 0
    requires l.closeLast && l.Start(l.segments) <= rows[|rows| - 1].ts
    ensures Ordered(rows) && SliceOfSegment(rows + more, l, l.segments - 1) == SliceOfSegment(rows, l, l.segments - 1)
  {
    hide Ordered, SliceAt;
    CutIsValid(l, l.segments - 1);
    OneStep(l.segments - 1, l.segmentMs);
    NewBarsChangeNoClosedCut(rows, more, l.CutOf(l.segments - 1));
  }

  lemma LastOnly(before: Result<seq<Slice>, Refusal>, l: Layout, k: nat, a: Slice, b: Slice)
    ensures AgreeButLast(Extended(before, l, k, a), Extended(before, l, k, b))
  {
  }
}
