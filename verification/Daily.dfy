/** Completed UTC days, as the backtest and the live book both resample them from 5m bars. */
module DailyTape {
  import opened Ordering

  const DAY_MS := 86_400_000

  datatype DailyBars = DailyBars(ts: seq<int>, open: seq<real>, high: seq<real>, low: seq<real>, close: seq<real>) {
    function Length(): nat { |ts| }

    predicate Valid() {
      |open| == |high| == |low| == |close| == |ts|
    }

    /** The first `n` days. */
    function Take(n: nat): (b: DailyBars)
      requires Valid() && n <= Length()
      ensures b.Valid() && b.Length() == n
    {
      DailyBars(ts[..n], open[..n], high[..n], low[..n], close[..n])
    }
  }

  // ----- where a timestamp belongs in an ascending list

  /** How many stamps of an ascending list lie before `t`: its leftmost place in it. */
  function IndexOf(ts: seq<int>, t: int): (n: nat)
    ensures n <= |ts| && (n > 0 ==> ts[n - 1] < t)
  {
    if ts == [] then 0 else if ts[|ts| - 1] < t then |ts| else IndexOf(ts[..|ts| - 1], t)
  }

  /** In an ascending list exactly the stamps before the index are before `t`. */
  lemma {:induction false} IndexSplits(ts: seq<int>, t: int, k: nat)
    requires Ascending(ts) && k < |ts|
    ensures k < IndexOf(ts, t) <==> ts[k] < t
  {
    if ts[|ts| - 1] >= t && k < |ts| - 1 {
      IndexSplits(ts[..|ts| - 1], t, k);
    }
  }

  lemma IndexUnique(ts: seq<int>, t: int, n: nat)
    requires Ascending(ts) && n <= |ts|
    requires (n > 0 ==> ts[n - 1] < t) && (n < |ts| ==> ts[n] >= t)
    ensures IndexOf(ts, t) == n
  {
    var m := IndexOf(ts, t);
    if m < n {
      IndexSplits(ts, t, n - 1);
    }
    if n < m {
      IndexSplits(ts, t, n);
    }
  }

  lemma IndexMonotone(ts: seq<int>, t: int, u: int)
    requires Ascending(ts) && t <= u
    ensures IndexOf(ts, t) <= IndexOf(ts, u)
  {
    var m := IndexOf(ts, t);
    if m > 0 {
      IndexSplits(ts, u, m - 1);
    }
  }

  // ----- the resample

  datatype Bar = Bar(ts: int, open: real, high: real, low: real, close: real)

  function Stamps(rows: seq<Bar>): (ts: seq<int>)
    ensures |ts| == |rows| && forall i :: 0 <= i < |ts| ==> ts[i] == rows[i].ts
  {
    seq(|rows|, i requires 0 <= i < |rows| => rows[i].ts)
  }

  function DayOf(t: int): int {
    t - t % DAY_MS
  }

  /** A row behind all that are stamped no later than it. */
  function Inserted(sorted: seq<Bar>, b: Bar): seq<Bar> {
    if sorted == [] || sorted[|sorted| - 1].ts <= b.ts then sorted + [b]
    else Inserted(sorted[..|sorted| - 1], b) + [sorted[|sorted| - 1]]
  }

  /** The rows by stamp, equal stamps in the order they came. */
  function StablySorted(rows: seq<Bar>): seq<Bar> {
    if rows == [] then [] else Inserted(StablySorted(rows[..|rows| - 1]), rows[|rows| - 1])
  }

  /** The rows whose successor has another stamp, and the last one. */
  function LastOfEach(sorted: seq<Bar>): seq<Bar> {
    if |sorted| <= 1 then sorted
    else (if sorted[0].ts != sorted[1].ts then [sorted[0]] else []) + LastOfEach(sorted[1..])
  }

  /** Rows as they are when ascending, else sorted with the last row of each stamp kept. */
  function Cleaned(rows: seq<Bar>): seq<Bar> {
    if Ascending(Stamps(rows)) then rows else LastOfEach(StablySorted(rows))
  }

  predicate Below(starts: seq<nat>, n: nat) {
    forall k :: 0 <= k < |starts| ==> starts[k] < n
  }

  /** The indexes below `n` at which a new day starts. */
  function Starts(rows: seq<Bar>, n: nat): (starts: seq<nat>)
    requires n <= |rows|
    ensures Below(starts, n) && (n > 0 ==> starts != [] && starts[0] == 0)
  {
    if n == 0 then []
    else
      var before := Starts(rows, n - 1);
      if n == 1 || DayOf(rows[n - 1].ts) != DayOf(rows[n - 2].ts) then before + [n - 1] else before
  }

  function Highest(rows: seq<Bar>, lo: nat, hi: nat): real
    requires lo < hi <= |rows|
  {
    if hi == lo + 1 then rows[lo].high
    else
      var h := Highest(rows, lo, hi - 1);
      if rows[hi - 1].high > h then rows[hi - 1].high else h
  }

  function Lowest(rows: seq<Bar>, lo: nat, hi: nat): real
    requires lo < hi <= |rows|
  {
    if hi == lo + 1 then rows[lo].low
    else
      var l := Lowest(rows, lo, hi - 1);
      if rows[hi - 1].low < l then rows[hi - 1].low else l
  }

  /** The days of ascending rows: every group of one day but the newest, which may be forming. */
  function Resampled(rows: seq<Bar>): (b: DailyBars)
    ensures b.Valid()
  {
    if rows == [] then DailyBars([], [], [], [], [])
    else
      var starts := Starts(rows, |rows|);
      var m := |starts| - 1;
      StartsAscend(rows, |rows|);
      DailyBars(
        seq(m, k requires 0 <= k < m => DayOf(rows[starts[k]].ts)),
        seq(m, k requires 0 <= k < m => rows[starts[k]].open),
        seq(m, k requires 0 <= k < m => Highest(rows, starts[k], starts[k + 1])),
        seq(m, k requires 0 <= k < m => Lowest(rows, starts[k], starts[k + 1])),
        seq(m, k requires 0 <= k < m => rows[starts[k + 1] - 1].close))
  }

  function Resample(rows: seq<Bar>): DailyBars {
    Resampled(Cleaned(rows))
  }

  lemma {:induction false} StartsAscend(rows: seq<Bar>, n: nat)
    requires n <= |rows|
    ensures Ascending(Starts(rows, n))
  {
    if n > 0 {
      StartsAscend(rows, n - 1);
      var before := Starts(rows, n - 1);
      assert Below(before, n - 1);
    }
  }

  // ----- what the days are

  lemma DayMonotone(t: int, u: int)
    requires t <= u
    ensures DayOf(t) <= DayOf(u) && DayOf(t) <= t < DayOf(t) + DAY_MS
  {
    var a, b := t / DAY_MS, u / DAY_MS;
    assert t == a * DAY_MS + t % DAY_MS && u == b * DAY_MS + u % DAY_MS;
    assert DayOf(t) == a * DAY_MS && DayOf(u) == b * DAY_MS;
    assert a <= b;
  }

  /** Within `n` rows, a row belongs to group `k` when it is at or after that start and
      before the next. */
  ghost predicate InGroup(starts: seq<nat>, n: nat, k: nat, i: nat)
    requires k < |starts|
  {
    starts[k] <= i < n && (k + 1 < |starts| ==> i < starts[k + 1])
  }

  /** The indexes below `n` at which a new day starts, from those below `n - 1`. */
  lemma StartsNext(rows: seq<Bar>, n: nat)
    requires 2 <= n <= |rows|
    ensures var before := Starts(rows, n - 1);
            Starts(rows, n) == if DayOf(rows[n - 1].ts) != DayOf(rows[n - 2].ts) then before + [n - 1] else before
  {
  }

  lemma GroupStep(rows: seq<Bar>, n: nat, before: seq<nat>, starts: seq<nat>, k: nat, i: nat)
    requires 2 <= n <= |rows| && Ascending(Stamps(rows)) && i < n && k < |starts|
    requires Ascending(before) && Below(before, n - 1)
    requires starts == if DayOf(rows[n - 1].ts) != DayOf(rows[n - 2].ts) then before + [n - 1] else before
    requires k < |before| ==> var m := if i < n - 1 then i else n - 2;
               InGroup(before, n - 1, k, m) <==> DayOf(rows[m].ts) == DayOf(rows[before[k]].ts)
    ensures InGroup(starts, n, k, i) <==> DayOf(rows[i].ts) == DayOf(rows[starts[k]].ts)
  {
    DaysGrow(rows, n - 2, n - 1);
    if i < n - 1 {
      DaysGrow(rows, i, n - 2);
    }
    if k < |before| {
      DaysGrow(rows, before[k], n - 2);
    }
    hide DayOf, Stamps;
  }

  lemma {:induction false} GroupsAreDays(rows: seq<Bar>, n: nat, k: nat, i: nat)
    requires n <= |rows| && Ascending(Stamps(rows)) && i < n && k < |Starts(rows, n)|
    ensures InGroup(Starts(rows, n), n, k, i) <==> DayOf(rows[i].ts) == DayOf(rows[Starts(rows, n)[k]].ts)
    decreases n
  {
    if n > 1 {
      var before := Starts(rows, n - 1);
      StartsNext(rows, n);
      StartsAscend(rows, n - 1);
      hide Starts, InGroup, DayOf, Ascending, Stamps;
      if k < |before| {
        GroupsAreDays(rows, n - 1, k, if i < n - 1 then i else n - 2);
      }
      GroupStep(rows, n, before, Starts(rows, n), k, i);
    }
  }

  lemma DaysGrow(rows: seq<Bar>, i: nat, j: nat)
    requires Ascending(Stamps(rows)) && i < |rows| && j < |rows|
    ensures i <= j ==> DayOf(rows[i].ts) <= DayOf(rows[j].ts)
  {
    if i <= j {
      assert i < j ==> Stamps(rows)[i] < Stamps(rows)[j];
      DayMonotone(rows[i].ts, rows[j].ts);
    }
  }

  lemma {:induction false} HighestIsMax(rows: seq<Bar>, lo: nat, hi: nat)
    requires lo < hi <= |rows|
    ensures forall i :: lo <= i < hi ==> rows[i].high <= Highest(rows, lo, hi)
    ensures exists i :: lo <= i < hi && rows[i].high == Highest(rows, lo, hi)
  {
    if hi == lo + 1 {
      assert rows[lo].high == Highest(rows, lo, hi);
    } else {
      HighestIsMax(rows, lo, hi - 1);
      var i :| lo <= i < hi - 1 && rows[i].high == Highest(rows, lo, hi - 1);
      assert rows[hi - 1].high == Highest(rows, lo, hi) || rows[i].high == Highest(rows, lo, hi);
    }
  }

  lemma {:induction false} LowestIsMin(rows: seq<Bar>, lo: nat, hi: nat)
    requires lo < hi <= |rows|
    ensures forall i :: lo <= i < hi ==> rows[i].low >= Lowest(rows, lo, hi)
    ensures exists i :: lo <= i < hi && rows[i].low == Lowest(rows, lo, hi)
  {
    if hi == lo + 1 {
      assert rows[lo].low == Lowest(rows, lo, hi);
    } else {
      LowestIsMin(rows, lo, hi - 1);
      var i :| lo <= i < hi - 1 && rows[i].low == Lowest(rows, lo, hi - 1);
      assert rows[hi - 1].low == Lowest(rows, lo, hi) || rows[i].low == Lowest(rows, lo, hi);
    }
  }

  /** Day `k` of `b` is the calendar day of the rows `[lo, hi)` and of no others: first open,
      extremes, last close. */
  ghost predicate IsDay(rows: seq<Bar>, b: DailyBars, k: nat, lo: nat, hi: nat)
    requires b.Valid() && k < b.Length()
  {
    && lo < hi < |rows| && b.ts[k] == DayOf(rows[lo].ts)
    && (forall i :: 0 <= i < |rows| ==> (lo <= i < hi <==> DayOf(rows[i].ts) == b.ts[k]))
    && b.open[k] == rows[lo].open && b.close[k] == rows[hi - 1].close
    && (forall i :: lo <= i < hi ==> rows[i].low >= b.low[k] && rows[i].high <= b.high[k])
    && (exists i :: lo <= i < hi && rows[i].high == b.high[k])
    && (exists i :: lo <= i < hi && rows[i].low == b.low[k])
  }

  lemma ResampledFields(rows: seq<Bar>, k: nat)
    requires k < Resampled(rows).Length()
    ensures var s, b := Starts(rows, |rows|), Resampled(rows);
            && k + 1 < |s| && s[k + 1] < |rows| && s[k] < |rows| && b.ts[k] == DayOf(rows[s[k]].ts)
            && (s[k] < s[k + 1] ==>
                  && b.open[k] == rows[s[k]].open && b.close[k] == rows[s[k + 1] - 1].close
                  && b.high[k] == Highest(rows, s[k], s[k + 1]) && b.low[k] == Lowest(rows, s[k], s[k + 1]))
  {
  }

  /** Each resampled day is its calendar day, complete, with a later row on the tape. */
  lemma DaysAreCalendarDays(rows: seq<Bar>, k: nat)
    requires Ascending(Stamps(rows)) && k < Resampled(rows).Length()
    ensures var s := Starts(rows, |rows|); k + 1 < |s| && IsDay(rows, Resampled(rows), k, s[k], s[k + 1])
  {
    hide Starts, Resampled, DayOf, Stamps, Highest, Lowest, InGroup, IsDay;
    var s, b := Starts(rows, |rows|), Resampled(rows);
    ResampledFields(rows, k);
    StartsAscend(rows, |rows|);
    assert s[k] < s[k + 1];
    hide Ascending;
    forall i | 0 <= i < |rows| ensures s[k] <= i < s[k + 1] <==> DayOf(rows[i].ts) == b.ts[k] {
      GroupsAreDays(rows, |rows|, k, i);
      InnerGroup(s, |rows|, k, i);
    }
    DayOfGroup(rows, b, k, s[k], s[k + 1]);
  }

  lemma InnerGroup(starts: seq<nat>, n: nat, k: nat, i: nat)
    requires k + 1 < |starts| && starts[k + 1] < n
    ensures InGroup(starts, n, k, i) <==> starts[k] <= i < starts[k + 1]
  {
  }

  lemma DayOfGroup(rows: seq<Bar>, b: DailyBars, k: nat, lo: nat, hi: nat)
    requires b.Valid() && k < b.Length() && lo < hi < |rows| && b.ts[k] == DayOf(rows[lo].ts)
    requires forall i :: 0 <= i < |rows| ==> (lo <= i < hi <==> DayOf(rows[i].ts) == b.ts[k])
    requires b.open[k] == rows[lo].open && b.close[k] == rows[hi - 1].close
    requires b.high[k] == Highest(rows, lo, hi) && b.low[k] == Lowest(rows, lo, hi)
    ensures IsDay(rows, b, k, lo, hi)
  {
    hide Highest, Lowest, DayOf;
    HighestIsMax(rows, lo, hi);
    LowestIsMin(rows, lo, hi);
  }

  lemma {:induction false} EveryRowHasItsGroup(rows: seq<Bar>, n: nat, i: nat) returns (k: nat)
    requires i < n <= |rows|
    ensures k < |Starts(rows, n)| && InGroup(Starts(rows, n), n, k, i)
    ensures i == n - 1 ==> k == |Starts(rows, n)| - 1
    decreases n
  {
    var before := Starts(rows, n - 1);
    if i == n - 1 {
      k := |Starts(rows, n)| - 1;
    } else {
      k := EveryRowHasItsGroup(rows, n - 1, i);
    }
  }

  lemma ResampledStamps(rows: seq<Bar>)
    requires rows != []
    ensures var s, b := Starts(rows, |rows|), Resampled(rows);
            b.Length() == |s| - 1 && forall k :: 0 <= k < |s| - 1 ==> b.ts[k] == DayOf(rows[s[k]].ts)
  {
  }

  lemma GroupOfRow(rows: seq<Bar>, i: nat, k: nat, j: nat)
    requires Ascending(Stamps(rows)) && i < |rows| && k < |Starts(rows, |rows|)|
    requires InGroup(Starts(rows, |rows|), |rows|, k, i) && j < |Starts(rows, |rows|)|
    ensures DayOf(rows[i].ts) == DayOf(rows[Starts(rows, |rows|)[j]].ts) <==> j == k
  {
    var s := Starts(rows, |rows|);
    StartsAscend(rows, |rows|);
    GroupsAreDays(rows, |rows|, j, i);
    hide Starts, DayOf, Stamps, Ascending, InGroup;
    if InGroup(s, |rows|, j, i) {
      OneGroup(s, |rows|, j, k, i);
    }
  }

  /** No completed day is missed, and the day of the newest row is never one of them. */
  lemma EveryCompletedDayIsThere(rows: seq<Bar>, i: nat)
    requires Ascending(Stamps(rows)) && i < |rows|
    ensures DayOf(rows[i].ts) in Resampled(rows).ts <==> DayOf(rows[i].ts) != DayOf(rows[|rows| - 1].ts)
  {
    hide Starts, Resampled, DayOf, Stamps, InGroup, Ascending, Below;
    var n, b := |rows|, Resampled(rows);
    ResampledStamps(rows);
    var k := EveryRowHasItsGroup(rows, n, i);
    var last := EveryRowHasItsGroup(rows, n, n - 1);
    assert |b.ts| == last;
    GroupOfRow(rows, i, k, last);
    GroupOfRow(rows, n - 1, last, last);
    forall j | 0 <= j < |b.ts| ensures b.ts[j] == DayOf(rows[i].ts) <==> j == k {
      GroupOfRow(rows, i, k, j);
    }
    assert DayOf(rows[i].ts) != DayOf(rows[n - 1].ts) <==> k < last;
    IsListed(b.ts, DayOf(rows[i].ts), k);
  }

  lemma IsListed(days: seq<int>, day: int, k: nat)
    requires forall j :: 0 <= j < |days| ==> (days[j] == day <==> j == k)
    ensures day in days <==> k < |days|
  {
    if k < |days| {
      assert days[k] == day;
    }
  }

  lemma OneGroup(starts: seq<nat>, n: nat, j: nat, k: nat, i: nat)
    requires Ascending(starts) && j < |starts| && k < |starts|
    requires InGroup(starts, n, j, i) && InGroup(starts, n, k, i)
    ensures j == k
  {
  }

  /** The days ascend, as the engine requires of its bars. */
  lemma DaysAscend(rows: seq<Bar>)
    requires Ascending(Stamps(rows))
    ensures Ascending(Resampled(rows).ts)
  {
    if rows != [] {
      var n, s, b := |rows|, Starts(rows, |rows|), Resampled(rows);
      ResampledStamps(rows);
      StartsAscend(rows, n);
      hide Resampled, Starts;
      forall j, k | 0 <= j < k < |b.ts| ensures b.ts[j] < b.ts[k] {
        assert s[j] < s[k] < n;
        GroupsAreDays(rows, n, k, s[j]);
        DaysGrow(rows, s[j], s[k]);
      }
    }
  }

  // ----- stability

  lemma {:induction false} StartsLocal(rows: seq<Bar>, more: seq<Bar>, n: nat)
    requires n <= |rows|
    ensures Starts(rows + more, n) == Starts(rows, n)
  {
    if n > 0 {
      StartsLocal(rows, more, n - 1);
    }
  }

  lemma {:induction false} StartsExtend(rows: seq<Bar>, m: nat, n: nat)
    requires m <= n <= |rows|
    ensures Starts(rows, m) <= Starts(rows, n)
  {
    if m < n {
      StartsExtend(rows, m, n - 1);
    }
  }

  lemma {:induction false} ExtremesLocal(rows: seq<Bar>, more: seq<Bar>, lo: nat, hi: nat)
    requires lo < hi <= |rows|
    ensures Highest(rows + more, lo, hi) == Highest(rows, lo, hi)
    ensures Lowest(rows + more, lo, hi) == Lowest(rows, lo, hi)
  {
    if hi > lo + 1 {
      ExtremesLocal(rows, more, lo, hi - 1);
    }
  }

  /** Whatever comes after, the completed days of a tape are the first days of the longer one. */
  lemma CompletedDaysAreFinal(rows: seq<Bar>, more: seq<Bar>)
    requires Ascending(Stamps(rows + more))
    ensures var b, b' := Resample(rows), Resample(rows + more);
            b.Valid() && b'.Valid() && b.Length() <= b'.Length() && b == b'.Take(b.Length())
  {
    forall i, j | 0 <= i < j < |rows| ensures Stamps(rows)[i] < Stamps(rows)[j] {
      assert Stamps(rows + more)[i] < Stamps(rows + more)[j];
    }
    if rows != [] {
      ResampledIsFinal(rows, more);
    }
  }

  lemma DayIsFinal(rows: seq<Bar>, more: seq<Bar>, k: nat)
    requires k < Resampled(rows).Length()
    ensures var b, b' := Resampled(rows), Resampled(rows + more);
            && k < b'.Length() && b.ts[k] == b'.ts[k] && b.open[k] == b'.open[k] && b.close[k] == b'.close[k]
            && b.high[k] == b'.high[k] && b.low[k] == b'.low[k]
  {
    var whole := rows + more;
    var s, s' := Starts(rows, |rows|), Starts(whole, |whole|);
    StartsLocal(rows, more, |rows|);
    StartsExtend(whole, |rows|, |whole|);
    StartsAscend(rows, |rows|);
    hide Starts;
    assert s[k] == s'[k] && s[k + 1] == s'[k + 1] && s[k] < s[k + 1];
    ExtremesLocal(rows, more, s[k], s[k + 1]);
  }

  lemma ResampledIsFinal(rows: seq<Bar>, more: seq<Bar>)
    requires rows != []
    ensures var b, b' := Resampled(rows), Resampled(rows + more);
            b.Length() <= b'.Length() && b == b'.Take(b.Length())
  {
    var b, b' := Resampled(rows), Resampled(rows + more);
    forall k | 0 <= k < b.Length()
      ensures k < b'.Length() && b.ts[k] == b'.ts[k] && b.open[k] == b'.open[k] && b.close[k] == b'.close[k]
      ensures b.high[k] == b'.high[k] && b.low[k] == b'.low[k]
    {
      DayIsFinal(rows, more, k);
    }
    if b.Length() > 0 {
      DayIsFinal(rows, more, b.Length() - 1);
    }
    hide Resampled;
  }
}
