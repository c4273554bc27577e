/** Named OHLC structure: Donchian levels, confirmed swings, doubles. No level is `None`. */
module Structure {
  import opened Ordering
  import opened Reals
  import opened Wrappers

  const NEAR_PCT := 0.002
  const NEAR_ATR_MULT := 0.25
  const NEAR_ATR_PERIOD := 14
  const HOLD_PCT := 0.01
  const HOLD_ATR_MULT := 1.0

  // ----- extremes

  /** `a` is at least as extreme as `b`. */
  predicate Beats(high: bool, a: real, b: real) {
    if high then a >= b else a <= b
  }

  predicate StrictlyBeats(high: bool, a: real, b: real) {
    if high then a > b else a < b
  }

  /** `x` is attained in `values[lo..hi]` and at least as extreme as everything there. */
  ghost predicate IsExtreme(values: seq<real>, lo: int, hi: int, high: bool, x: real)
    requires 0 <= lo < hi <= |values|
  {
    && (exists t :: lo <= t < hi && values[t] == x)
    && (forall t :: lo <= t < hi ==> Beats(high, x, values[t]))
  }

  /** The max (or min) of `values[lo..hi]`. */
  function Extreme(values: seq<real>, lo: int, hi: int, high: bool): (x: real)
    requires 0 <= lo < hi <= |values|
    ensures IsExtreme(values, lo, hi, high, x)
    decreases hi - lo
  {
    if hi == lo + 1 then values[lo]
    else
      var rest := Extreme(values, lo, hi - 1, high);
      if Beats(high, rest, values[hi - 1]) then rest else values[hi - 1]
  }

  lemma ExtremeUnique(values: seq<real>, lo: int, hi: int, high: bool, x: real)
    requires 0 <= lo < hi <= |values| && IsExtreme(values, lo, hi, high, x)
    ensures x == Extreme(values, lo, hi, high)
  {
    var y := Extreme(values, lo, hi, high);
    var s :| lo <= s < hi && values[s] == x;
    var t :| lo <= t < hi && values[t] == y;
    assert Beats(high, x, values[t]) && Beats(high, y, values[s]);
  }

  /** The extreme of the `n` bars before `i`, when there are that many. */
  function LevelBefore(values: seq<real>, n: int, i: nat, high: bool): Option<real>
    requires i < |values|
  {
    if n < 1 || i < n then None else Some(Extreme(values, i - n, i, high))
  }

  /** The extreme of the `k` bars after `j`, when there are that many. */
  function LevelAfter(values: seq<real>, k: int, j: nat, high: bool): Option<real>
    requires j < |values|
  {
    if k < 1 || j + k >= |values| then None else Some(Extreme(values, j + 1, j + 1 + k, high))
  }

  // ----- the deque pass

  /** Some deque entry at or after bar `t` is at least as extreme as it. */
  ghost predicate Covered(values: seq<real>, dq: seq<int>, high: bool, t: int)
    requires 0 <= t < |values| && forall j :: 0 <= j < |dq| ==> 0 <= dq[j] < |values|
  {
    exists j :: 0 <= j < |dq| && t <= dq[j] && Beats(high, values[dq[j]], values[t])
  }

  /** Entries are bar indexes in order, each strictly more extreme than the next. */
  ghost predicate Monotonic(values: seq<real>, dq: seq<int>, high: bool, i: int) {
    && (forall j :: 0 <= j < |dq| ==> 0 <= dq[j] < i <= |values|)
    && (forall j, l :: 0 <= j < l < |dq| ==> dq[j] < dq[l])
    && (forall j, l :: 0 <= j < l < |dq| ==> StrictlyBeats(high, values[dq[j]], values[dq[l]]))
  }

  lemma FrontIsExtreme(values: seq<real>, dq: seq<int>, high: bool, lo: int, hi: int)
    requires 0 <= lo < hi <= |values| && |dq| > 0 && Monotonic(values, dq, high, hi) && lo <= dq[0]
    requires forall t :: lo <= t < hi ==> Covered(values, dq, high, t)
    ensures values[dq[0]] == Extreme(values, lo, hi, high)
  {
    forall t | lo <= t < hi
      ensures Beats(high, values[dq[0]], values[t])
    {
      assert Covered(values, dq, high, t);
      var j :| 0 <= j < |dq| && t <= dq[j] && Beats(high, values[dq[j]], values[t]);
      assert j == 0 || StrictlyBeats(high, values[dq[0]], values[dq[j]]);
    }
    ExtremeUnique(values, lo, hi, high, values[dq[0]]);
  }

  /** Every bar of `[floor, i)` is covered by the deque, or by the new bar's value `v`. */
  ghost predicate CoversFrom(values: seq<real>, dq: seq<int>, high: bool, floor: int, i: int, v: Option<real>)
    requires 0 <= floor <= i <= |values| && forall j :: 0 <= j < |dq| ==> 0 <= dq[j] < |values|
  {
    forall t {:trigger Covered(values, dq, high, t)} ::
      floor <= t < i ==> Covered(values, dq, high, t) || (v.Some? && Beats(high, v.value, values[t]))
  }

  lemma DropFirst(values: seq<real>, dq: seq<int>, high: bool, i: int)
    requires |dq| > 0 && Monotonic(values, dq, high, i)
    ensures Monotonic(values, dq[1..], high, i)
  {
    var rest := dq[1..];
    assert forall j :: 0 <= j < |rest| ==> rest[j] == dq[j + 1];
  }

  lemma PopFront(values: seq<real>, dq: seq<int>, high: bool, floor: int, i: int, f: int)
    requires |dq| > 0 && Monotonic(values, dq, high, i) && 0 <= floor <= i <= |values|
    requires CoversFrom(values, dq, high, floor, i, None)
    requires f == if dq[0] + 1 > floor then dq[0] + 1 else floor
    ensures Monotonic(values, dq[1..], high, i)
    ensures f <= i && CoversFrom(values, dq[1..], high, f, i, None)
  {
    DropFirst(values, dq, high, i);
    var rest := dq[1..];
    forall t | f <= t < i
      ensures Covered(values, rest, high, t)
    {
      assert Covered(values, dq, high, t);
      var j :| 0 <= j < |dq| && t <= dq[j] && Beats(high, values[dq[j]], values[t]);
      assert j > 0 && rest[j - 1] == dq[j];
    }
  }

  lemma PopBack(values: seq<real>, dq: seq<int>, high: bool, floor: int, i: int)
    requires |dq| > 0 && Monotonic(values, dq, high, i) && 0 <= floor <= i < |values|
    requires CoversFrom(values, dq, high, floor, i, Some(values[i]))
    requires Beats(high, values[i], values[dq[|dq| - 1]])
    ensures var rest := dq[..|dq| - 1];
            Monotonic(values, rest, high, i) && CoversFrom(values, rest, high, floor, i, Some(values[i]))
  {
    var rest := dq[..|dq| - 1];
    forall t | floor <= t < i
      ensures Covered(values, rest, high, t) || Beats(high, values[i], values[t])
    {
      if Covered(values, dq, high, t) {
        var j :| 0 <= j < |dq| && t <= dq[j] && Beats(high, values[dq[j]], values[t]);
        if j < |rest| {
          assert rest[j] == dq[j];
        }
      }
    }
  }

  lemma PushBack(values: seq<real>, dq: seq<int>, high: bool, floor: int, i: int)
    requires Monotonic(values, dq, high, i) && 0 <= floor <= i < |values|
    requires CoversFrom(values, dq, high, floor, i, Some(values[i]))
    requires dq != [] ==> !Beats(high, values[i], values[dq[|dq| - 1]])
    ensures Monotonic(values, dq + [i], high, i + 1)
    ensures CoversFrom(values, dq + [i], high, floor, i + 1, None)
  {
    var next := dq + [i];
    forall j, l | 0 <= j < l < |next|
      ensures next[j] < next[l] && StrictlyBeats(high, values[next[j]], values[next[l]])
    {
      if l == |dq| && j < |dq| - 1 {
        assert StrictlyBeats(high, values[dq[j]], values[dq[|dq| - 1]]);
      }
    }
    forall t | floor <= t < i + 1
      ensures Covered(values, next, high, t)
    {
      if t < i && Covered(values, dq, high, t) {
        var j :| 0 <= j < |dq| && t <= dq[j] && Beats(high, values[dq[j]], values[t]);
        assert next[j] == dq[j];
      } else {
        assert next[|dq|] == i;
      }
    }
  }

  /** The deque before bar `i`: it covers every bar from `floor` on and ends at `i - 1`. */
  ghost predicate Window(values: seq<real>, dq: seq<int>, high: bool, n: int, floor: int, i: int) {
    && Monotonic(values, dq, high, i) && i <= |values|
    && (i > 0 ==> |dq| > 0 && dq[|dq| - 1] == i - 1)
    && 0 <= floor <= i && (floor == 0 || floor <= i - n)
    && CoversFrom(values, dq, high, floor, i, None)
  }

  /** Drop the entries that have left the window of bar `i`. */
  method Expire(values: seq<real>, before: seq<int>, high: bool, n: int, i: int, ghost floorBefore: int)
    returns (dq: seq<int>, ghost floor: int)
    requires n >= 1 && 0 <= i < |values| && Window(values, before, high, n, floorBefore, i)
    ensures Window(values, dq, high, n, floor, i)
    ensures dq != [] ==> dq[0] >= i - n
  {
    dq, floor := before, floorBefore;
    while dq != [] && dq[0] < i - n
      invariant Window(values, dq, high, n, floor, i)
      decreases |dq|
    {
      ghost var next := if dq[0] + 1 > floor then dq[0] + 1 else floor;
      PopFront(values, dq, high, floor, i, next);
      floor := next;
      dq := dq[1..];
    }
  }

  /** Drop the entries bar `i` is at least as extreme as, and append it. */
  method Push(values: seq<real>, before: seq<int>, high: bool, n: int, i: int, ghost floor: int)
    returns (dq: seq<int>)
    requires n >= 1 && 0 <= i < |values| && Window(values, before, high, n, floor, i)
    ensures Window(values, dq, high, n, floor, i + 1)
  {
    dq := before;
    while dq != [] && Beats(high, values[i], values[dq[|dq| - 1]])
      invariant Monotonic(values, dq, high, i)
      invariant CoversFrom(values, dq, high, floor, i, Some(values[i]))
      decreases |dq|
    {
      PopBack(values, dq, high, floor, i);
      dq := dq[..|dq| - 1];
    }
    PushBack(values, dq, high, floor, i);
    dq := dq + [i];
  }

  /** The whole series of levels. */
  ghost function Levels(values: seq<real>, n: int, high: bool): (levels: seq<Option<real>>)
    ensures |levels| == |values|
  {
    seq(|values|, i requires 0 <= i < |values| => LevelBefore(values, n, i, high))
  }

  lemma LevelsAt(values: seq<real>, n: int, high: bool, levels: seq<Option<real>>)
    requires levels == Levels(values, n, high)
    ensures forall i :: 0 <= i < |values| ==> levels[i] == LevelBefore(values, n, i, high)
  {
  }

  lemma FrontIsLevel(values: seq<real>, dq: seq<int>, high: bool, n: int, floor: int, i: int)
    requires n >= 1 && n <= i < |values| && Window(values, dq, high, n, floor, i) && dq[0] >= i - n
    ensures LevelBefore(values, n, i, high) == Some(values[dq[0]])
    ensures Levels(values, n, high)[i] == Some(values[dq[0]])
  {
    forall t | i - n <= t < i
      ensures Covered(values, dq, high, t)
    {
    }
    FrontIsExtreme(values, dq, high, i - n, i);
  }

  lemma NoLevelYet(values: seq<real>, n: int, high: bool)
    ensures forall i :: 0 <= i < |values| && (n < 1 || i < n) ==> LevelBefore(values, n, i, high).None?
  {
  }

  lemma NewWindow(values: seq<real>, high: bool, n: int)
    ensures Window(values, [], high, n, 0, 0)
  {
  }

  lemma WindowFront(values: seq<real>, dq: seq<int>, high: bool, n: int, floor: int, i: int)
    requires Window(values, dq, high, n, floor, i)
    ensures i > 0 ==> dq != []
    ensures dq != [] ==> 0 <= dq[0] < |values|
  {
  }

  /** One forward pass: the extreme of the `n` bars before each bar. */
  method RangeBefore(values: seq<real>, n: int, high: bool) returns (levels: seq<Option<real>>)
    ensures |levels| == |values|
    ensures forall i :: 0 <= i < |values| ==> levels[i] == LevelBefore(values, n, i, high)
  {
    hide LevelBefore, Levels, Window;
    NoLevelYet(values, n, high);
    var length := |values|;
    var out := new Option<real>[length](_ => None);
    if n < 1 {
      return out[..];
    }
    NewWindow(values, high, n);
    ghost var want := Levels(values, n, high);
    LevelsAt(values, n, high, want);
    var dq: seq<int> := [];
    ghost var floor := 0;
    var i := 0;
    while i < length
      invariant 0 <= i <= length
      invariant Window(values, dq, high, n, floor, i)
      invariant forall m :: 0 <= m < i ==> out[m] == want[m]
      invariant forall m :: i <= m < length ==> out[m] == None
    {
      dq, floor := Expire(values, dq, high, n, i, floor);
      WindowFront(values, dq, high, n, floor, i);
      if i >= n && dq != [] {
        FrontIsLevel(values, dq, high, n, floor, i);
        out[i] := Some(values[dq[0]]);
      }
      dq := Push(values, dq, high, n, i, floor);
      i := i + 1;
    }
    levels := out[..];
  }

  function Reversed(values: seq<real>): (r: seq<real>)
    ensures |r| == |values|
    ensures forall k :: 0 <= k < |values| ==> r[k] == values[|values| - 1 - k]
  {
    seq(|values|, k requires 0 <= k < |values| => values[|values| - 1 - k])
  }

  /** A window of the reversed series has the extreme of the mirrored window. */
  lemma ReversedExtreme(values: seq<real>, lo: int, hi: int, high: bool)
    requires 0 <= lo < hi <= |values|
    ensures Extreme(Reversed(values), lo, hi, high) == Extreme(values, |values| - hi, |values| - lo, high)
  {
    var n := |values|;
    var rev := Reversed(values);
    var x := Extreme(rev, lo, hi, high);
    var s :| lo <= s < hi && rev[s] == x;
    assert values[n - 1 - s] == x;
    forall t | n - hi <= t < n - lo
      ensures Beats(high, x, values[t])
    {
      assert rev[n - 1 - t] == values[t];
    }
    ExtremeUnique(values, n - hi, n - lo, high, x);
  }

  /** The extreme of the `k` bars after each bar: the pass above on the reversed series. */
  method RangeAfter(values: seq<real>, k: int, high: bool) returns (levels: seq<Option<real>>)
    ensures |levels| == |values|
    ensures forall j :: 0 <= j < |values| ==> levels[j] == LevelAfter(values, k, j, high)
  {
    var n := |values|;
    var rev := RangeBefore(Reversed(values), k, high);
    var out := new Option<real>[n](_ => None);
    var j := 0;
    while j < n
      invariant 0 <= j <= n
      invariant forall m :: 0 <= m < j ==> out[m] == LevelAfter(values, k, m, high)
    {
      var src := n - 1 - j;
      if k >= 1 && src >= k {
        ReversedExtreme(values, src - k, src, high);
      }
      out[j] := rev[src];
      j := j + 1;
    }
    levels := out[..];
  }

  // ----- pivots

  /** `j` is the strict unique extreme of `values[j-k..j+k]`, and that window exists. */
  ghost predicate IsPivot(values: seq<real>, k: int, high: bool, j: int) {
    && 1 <= k <= j && j + k < |values|
    && forall t :: j - k <= t <= j + k && t != j ==> StrictlyBeats(high, values[j], values[t])
  }

  /** The indexes of exactly the pivots, oldest first. */
  ghost predicate ListsPivots(values: seq<real>, k: int, high: bool, idx: seq<int>, px: seq<real>) {
    && Ascending(idx)
    && (forall j :: j in idx <==> IsPivot(values, k, high, j))
    && |px| == |idx| && forall m :: 0 <= m < |idx| ==> 0 <= idx[m] < |values| && px[m] == values[idx[m]]
  }

  lemma PivotByLevels(values: seq<real>, k: int, high: bool, j: int)
    requires 1 <= k <= j && j + k < |values|
    ensures IsPivot(values, k, high, j) <==>
              && StrictlyBeats(high, values[j], LevelBefore(values, k, j, high).value)
              && StrictlyBeats(high, values[j], LevelAfter(values, k, j, high).value)
  {
    var before, after := Extreme(values, j - k, j, high), Extreme(values, j + 1, j + 1 + k, high);
    var s :| j - k <= s < j && values[s] == before;
    var t :| j + 1 <= t < j + 1 + k && values[t] == after;
    assert forall u :: j - k <= u < j ==> Beats(high, before, values[u]);
    assert forall u :: j + 1 <= u < j + 1 + k ==> Beats(high, after, values[u]);
  }

  method PivotArrays(values: seq<real>, k: int, wantHigh: bool) returns (idx: seq<int>, px: seq<real>)
    ensures ListsPivots(values, k, wantHigh, idx, px)
  {
    var n := |values|;
    idx, px := [], [];
    if k < 1 || n < 2 * k + 1 {
      return;
    }
    var left := RangeBefore(values, k, wantHigh);
    var right := RangeAfter(values, k, wantHigh);
    var j := k;
    while j < n - k
      invariant k <= j <= n - k
      invariant Ascending(idx) && forall m :: 0 <= m < |idx| ==> idx[m] < j
      invariant forall m :: m in idx <==> IsPivot(values, k, wantHigh, m) && m < j
      invariant |px| == |idx| && forall m :: 0 <= m < |idx| ==> 0 <= idx[m] < n && px[m] == values[idx[m]]
    {
      var v := values[j];
      PivotByLevels(values, k, wantHigh, j);
      if left[j].Some? && right[j].Some? {
        if StrictlyBeats(wantHigh, v, left[j].value) && StrictlyBeats(wantHigh, v, right[j].value) {
          idx := idx + [j];
          px := px + [v];
        }
      }
      j := j + 1;
    }
  }

  // ----- confirmed swings

  datatype Swing = Swing(index: int, price: real)

  /** A pivot whose right-hand window has closed by bar `i`. */
  ghost predicate Confirmed(values: seq<real>, k: int, high: bool, i: int, j: int) {
    IsPivot(values, k, high, j) && j + k <= i
  }

  /** The newest confirmed swings, newest first: all of them, or the newest `limit`. */
  ghost predicate NewestSwings(values: seq<real>, k: int, high: bool, i: int, limit: Option<int>, swings: seq<Swing>) {
    && (forall m :: 0 <= m < |swings| ==>
          Confirmed(values, k, high, i, swings[m].index) && swings[m].price == values[swings[m].index])
    && (forall a, b :: 0 <= a < b < |swings| ==> swings[a].index > swings[b].index)
    && (forall j :: Confirmed(values, k, high, i, j) ==>
          || (exists m :: 0 <= m < |swings| && swings[m].index == j)
          || (limit.Some? && |swings| == (if limit.value < 0 then 0 else limit.value)
              && forall m :: 0 <= m < |swings| ==> j < swings[m].index))
    && (limit.Some? ==> |swings| <= (if limit.value < 0 then 0 else limit.value))
  }

  /** How many listed pivots are confirmed by bar `i`, by binary search. */
  method CountConfirmed(idx: seq<int>, k: int, i: int) returns (lo: nat)
    requires Ascending(idx)
    ensures lo <= |idx|
    ensures forall m :: 0 <= m < |idx| ==> (m < lo <==> idx[m] + k <= i)
  {
    lo := 0;
    var hi := |idx|;
    while lo < hi
      invariant 0 <= lo <= hi <= |idx|
      invariant forall m :: 0 <= m < lo ==> idx[m] + k <= i
      invariant forall m :: hi <= m < |idx| ==> idx[m] + k > i
    {
      var mid := (lo + hi) / 2;
      if idx[mid] + k <= i {
        lo := mid + 1;
      } else {
        hi := mid;
      }
    }
  }

  method ConfirmedSwings(values: seq<real>, k: int, i: int, wantHigh: bool, limit: Option<int>)
    returns (swings: seq<Swing>)
    ensures NewestSwings(values, k, wantHigh, i, limit, swings)
  {
    swings := [];
    if k < 1 || i < 2 * k {
      return;
    }
    var idx, px := PivotArrays(values, k, wantHigh);
    var lo := CountConfirmed(idx, k, i);
    var start := match limit case None => 0 case Some(l) => if lo - l > 0 then lo - l else 0;
    var n := lo - 1;
    while n >= start
      invariant n < lo && if start <= lo then start - 1 <= n else n == lo - 1
      invariant |swings| == lo - 1 - n
      invariant forall m :: 0 <= m < |swings| ==> swings[m] == Swing(idx[lo - 1 - m], px[lo - 1 - m])
      decreases n
    {
      swings := swings + [Swing(idx[n], px[n])];
      n := n - 1;
    }
    TakenAreNewest(values, k, wantHigh, i, limit, idx, px, lo, start, swings);
  }

  lemma TakenAreNewest(
    values: seq<real>, k: int, high: bool, i: int, limit: Option<int>,
    idx: seq<int>, px: seq<real>, lo: nat, start: int, swings: seq<Swing>)
    requires ListsPivots(values, k, high, idx, px) && lo <= |idx|
    requires forall m :: 0 <= m < |idx| ==> (m < lo <==> idx[m] + k <= i)
    requires start == match limit case None => 0 case Some(l) => if lo - l > 0 then lo - l else 0
    requires |swings| == if start <= lo then lo - start else 0
    requires forall m :: 0 <= m < |swings| ==> swings[m] == Swing(idx[lo - 1 - m], px[lo - 1 - m])
    ensures NewestSwings(values, k, high, i, limit, swings)
  {
    forall m | 0 <= m < |swings|
      ensures Confirmed(values, k, high, i, swings[m].index) && swings[m].price == values[swings[m].index]
    {
      assert idx[lo - 1 - m] in idx;
    }
    forall j | Confirmed(values, k, high, i, j)
      ensures || (exists m :: 0 <= m < |swings| && swings[m].index == j)
              || (limit.Some? && |swings| == (if limit.value < 0 then 0 else limit.value)
                  && forall m :: 0 <= m < |swings| ==> j < swings[m].index)
    {
      assert j in idx;
      var p :| 0 <= p < |idx| && idx[p] == j;
      if p >= start {
        assert swings[lo - 1 - p].index == j;
      }
    }
  }

  /** The most recent confirmed swing's price. */
  method LastConfirmedSwing(values: seq<real>, k: int, i: int, wantHigh: bool) returns (level: Option<real>)
    ensures level.None? <==> forall j :: !Confirmed(values, k, wantHigh, i, j)
    ensures level.Some? ==> exists j :: NewestConfirmed(values, k, wantHigh, i, j) && values[j] == level.value
  {
    var found := ConfirmedSwings(values, k, i, wantHigh, Some(1));
    if found == [] {
      return None;
    }
    assert NewestConfirmed(values, k, wantHigh, i, found[0].index);
    return Some(found[0].price);
  }

  ghost predicate NewestConfirmed(values: seq<real>, k: int, high: bool, i: int, j: int) {
    && Confirmed(values, k, high, i, j)
    && forall l :: Confirmed(values, k, high, i, l) ==> l <= j
  }

  /** `j1` then `j2` are the two newest confirmed swings. */
  ghost predicate NewestPair(values: seq<real>, k: int, high: bool, i: int, j1: int, j2: int) {
    && NewestConfirmed(values, k, high, i, j2)
    && Confirmed(values, k, high, i, j1) && j1 < j2
    && forall l :: Confirmed(values, k, high, i, l) && l != j2 ==> l <= j1
  }

  // ----- the average true range

  function TrueRange(highs: seq<real>, lows: seq<real>, closes: seq<real>, j: nat): real
    requires 1 <= j < |closes| == |highs| == |lows|
  {
    Max(highs[j] - lows[j], Max(Abs(highs[j] - closes[j - 1]), Abs(lows[j] - closes[j - 1])))
  }

  function TrueRangeSum(highs: seq<real>, lows: seq<real>, closes: seq<real>, lo: nat, hi: nat): real
    requires 1 <= lo <= hi <= |closes| == |highs| == |lows|
  {
    if lo == hi then 0.0
    else TrueRangeSum(highs, lows, closes, lo, hi - 1) + TrueRange(highs, lows, closes, hi - 1)
  }

  /** The mean true range of the `period` bars ending at bar `i`. */
  function AtrAt(highs: seq<real>, lows: seq<real>, closes: seq<real>, period: int, i: nat): Option<real>
    requires i < |closes| == |highs| == |lows|
  {
    if period <= 0 || i < period then None
    else Some(TrueRangeSum(highs, lows, closes, i - period + 1, i + 1) / period as real)
  }

  lemma NoAtrYet(highs: seq<real>, lows: seq<real>, closes: seq<real>, period: int)
    requires |closes| == |highs| == |lows|
    ensures forall i :: 0 <= i < |closes| && (period <= 0 || i < period) ==>
                          AtrAt(highs, lows, closes, period, i).None?
  {
  }

  method TrueRanges(highs: seq<real>, lows: seq<real>, closes: seq<real>) returns (trs: array<real>)
    requires |closes| == |highs| == |lows|
    ensures fresh(trs) && trs.Length == |closes|
    ensures forall m :: 1 <= m < trs.Length ==> trs[m] == TrueRange(highs, lows, closes, m)
  {
    hide TrueRange;
    trs := new real[|closes|](_ => 0.0);
    if |closes| > 1 {
      for j := 1 to |closes|
        invariant forall m :: 1 <= m < j ==> trs[m] == TrueRange(highs, lows, closes, m)
      {
        trs[j] := TrueRange(highs, lows, closes, j);
      }
    }
  }

  /** The mean of the last `period` true ranges. */
  method MeanRange(
    trs: array<real>, period: nat, i: nat, ghost highs: seq<real>, ghost lows: seq<real>, ghost closes: seq<real>)
    returns (mean: real)
    requires 1 <= period <= i < trs.Length == |closes| == |highs| == |lows|
    requires forall m :: 1 <= m < trs.Length ==> trs[m] == TrueRange(highs, lows, closes, m)
    ensures AtrAt(highs, lows, closes, period, i) == Some(mean)
  {
    hide TrueRange;
    var sum := 0.0;
    for t := i - period + 1 to i + 1
      invariant sum == TrueRangeSum(highs, lows, closes, i - period + 1, t)
    {
      sum := sum + trs[t];
    }
    mean := sum / period as real;
  }

  method AtrSeries(highs: seq<real>, lows: seq<real>, closes: seq<real>, period: int)
    returns (atr: seq<Option<real>>)
    requires |closes| == |highs| == |lows|
    ensures |atr| == |closes|
    ensures forall i :: 0 <= i < |closes| ==> atr[i] == AtrAt(highs, lows, closes, period, i)
  {
    hide AtrAt, TrueRange;
    NoAtrYet(highs, lows, closes, period);
    var n := |closes|;
    var out := new Option<real>[n](_ => None);
    if period <= 0 || n <= period {
      return out[..];
    }
    var trs := TrueRanges(highs, lows, closes);
    var i := period;
    while i < n
      invariant period <= i <= n
      invariant forall m :: 1 <= m < n ==> trs[m] == TrueRange(highs, lows, closes, m)
      invariant forall m :: 0 <= m < i ==> out[m] == AtrAt(highs, lows, closes, period, m)
      invariant forall m :: i <= m < n ==> out[m] == None
    {
      var mean := MeanRange(trs, period, i, highs, lows, closes);
      out[i] := Some(mean);
      i := i + 1;
    }
    atr := out[..];
  }

  // ----- the atoms' meaning

  function Band(pct: real, base: real, mult: real, atr: Option<real>): real {
    if atr.Some? && atr.value > 0.0 then Max(pct * base, mult * atr.value) else pct * base
  }

  predicate IsNear(close: real, level: real, atr: Option<real>) {
    Abs(close - level) <= Band(NEAR_PCT, close, NEAR_ATR_MULT, atr)
  }

  predicate Holds(first: real, second: real, atr: Option<real>) {
    Abs(second - first) <= Band(HOLD_PCT, Abs(first), HOLD_ATR_MULT, atr)
  }

  datatype Tape = Tape(closes: seq<real>, highs: seq<real>, lows: seq<real>) {
    predicate Valid() {
      |closes| == |highs| == |lows|
    }

    function Side(high: bool): seq<real> {
      if high then highs else lows
    }

    function Atr(i: nat): Option<real>
      requires Valid() && i < |closes|
    {
      AtrAt(highs, lows, closes, NEAR_ATR_PERIOD, i)
    }
  }

  /** The close is within the near band of the newest confirmed swing. */
  ghost predicate NearSwing(tape: Tape, k: int, high: bool, i: nat)
    requires tape.Valid() && i < |tape.closes|
  {
    exists j :: NewestConfirmed(tape.Side(high), k, high, i, j)
                && IsNear(tape.closes[i], tape.Side(high)[j], tape.Atr(i))
  }

  /** The two newest confirmed swings hold and the close has left the second: above a
      second low, below a second high. */
  ghost predicate Double(tape: Tape, k: int, high: bool, i: nat)
    requires tape.Valid() && i < |tape.closes|
  {
    exists j1, j2 :: NewestPair(tape.Side(high), k, high, i, j1, j2)
                     && DoubleAt(tape, high, i, tape.Side(high)[j1], tape.Side(high)[j2])
  }

  predicate DoubleAt(tape: Tape, high: bool, i: nat, first: real, second: real)
    requires tape.Valid() && i < |tape.closes|
  {
    && Holds(first, second, tape.Atr(i))
    && (if high then tape.closes[i] < second else tape.closes[i] > second)
  }

  /** A close above the prior `n`-bar high, or near the prior `n`-bar low. */
  predicate Donchian(tape: Tape, n: int, high: bool, i: nat)
    requires tape.Valid() && i < |tape.closes|
  {
    var level := LevelBefore(tape.Side(high), n, i, high);
    level.Some? &&
    if high then tape.closes[i] > level.value else IsNear(tape.closes[i], level.value, tape.Atr(i))
  }

  /** Near is within 0.2 % of the close, or within a quarter of a positive range. */
  lemma NearIff(close: real, level: real, atr: Option<real>)
    ensures IsNear(close, level, atr) <==>
            || Abs(close - level) <= 0.002 * close
            || (atr.Some? && atr.value > 0.0 && 4.0 * Abs(close - level) <= atr.value)
  {
  }

  /** Two swings hold when they are within 1 % of the first, or within one positive range. */
  lemma HoldsIff(first: real, second: real, atr: Option<real>)
    ensures Holds(first, second, atr) <==>
            || Abs(second - first) <= 0.01 * Abs(first)
            || (atr.Some? && atr.value > 0.0 && Abs(second - first) <= atr.value)
  {
  }

  /** A double bottom needs the close above its second low, a double top below its second high, and
      the two within 1 % of the first or within one 14-bar range. */
  lemma DoubleIff(tape: Tape, high: bool, i: nat, first: real, second: real)
    requires tape.Valid() && i < |tape.closes|
    ensures var atr := AtrAt(tape.highs, tape.lows, tape.closes, 14, i);
            DoubleAt(tape, high, i, first, second) <==>
            && (tape.closes[i] < second <==> high) && tape.closes[i] != second
            && (|| Abs(second - first) <= 0.01 * Abs(first)
                || (atr.Some? && atr.value > 0.0 && Abs(second - first) <= atr.value))
  {
    HoldsIff(first, second, tape.Atr(i));
  }

  /** A breakout closes above every high of the `n` bars before it; at the low side the close is near
      the lowest low of those bars. */
  lemma DonchianIff(tape: Tape, n: int, high: bool, i: nat)
    requires tape.Valid() && i < |tape.closes|
    ensures Donchian(tape, n, high, i) <==>
            && 1 <= n <= i
            && if high then forall t :: i - n <= t < i ==> tape.highs[t] < tape.closes[i]
               else exists t :: i - n <= t < i && IsLowest(tape.lows, i - n, i, t)
                                && IsNear(tape.closes[i], tape.lows[t], tape.Atr(i))
  {
    if 1 <= n <= i {
      var values := tape.Side(high);
      var x := Extreme(values, i - n, i, high);
      var at :| i - n <= at < i && values[at] == x;
      assert !high ==> IsLowest(values, i - n, i, at);
    }
  }

  ghost predicate IsLowest(values: seq<real>, lo: int, hi: int, t: int)
    requires 0 <= lo <= t < hi <= |values|
  {
    forall u :: lo <= u < hi ==> values[t] <= values[u]
  }

  /** The true range of a candle is the height of the box that holds it and the close before. */
  lemma TrueRangeIsTheBox(highs: seq<real>, lows: seq<real>, closes: seq<real>, j: nat)
    requires 1 <= j < |closes| == |highs| == |lows| && lows[j] <= highs[j]
    ensures TrueRange(highs, lows, closes, j) == Max(highs[j], closes[j - 1]) - Min(lows[j], closes[j - 1])
  {
  }

  // ----- the atoms as the program evaluates them, one bar at a time

  datatype OhlcError = MissingHighLow | LengthMismatch

  function RequireOhlc(
    closes: seq<real>, highs: Option<seq<real>>, lows: Option<seq<real>>): (r: Result<Tape, OhlcError>)
    ensures r.Success? <==> highs.Some? && lows.Some? && |highs.value| == |lows.value| == |closes|
    ensures r.Success? ==> r.value.Valid() && r.value == Tape(closes, highs.value, lows.value)
  {
    if highs.None? || lows.None? then Failure(MissingHighLow)
    else if |highs.value| != |closes| || |lows.value| != |closes| then Failure(LengthMismatch)
    else Success(Tape(closes, highs.value, lows.value))
  }

  method EvalNearSwing(closes: seq<real>, highs: Option<seq<real>>, lows: Option<seq<real>>, k: int, high: bool, i: nat)
    returns (r: Result<bool, OhlcError>)
    requires i < |closes|
    ensures var tape := RequireOhlc(closes, highs, lows);
            if tape.Failure? then r == Failure(tape.error)
            else r.Success? && (r.value <==> NearSwing(tape.value, k, high, i))
  {
    var checked := RequireOhlc(closes, highs, lows);
    if checked.Failure? {
      return Failure(checked.error);
    }
    var tape := checked.value;
    var level := LastConfirmedSwing(tape.Side(high), k, i, high);
    if level.None? {
      return Success(false);
    }
    var atr := AtrSeries(tape.highs, tape.lows, tape.closes, NEAR_ATR_PERIOD);
    return Success(IsNear(closes[i], level.value, atr[i]));
  }

  /** The pair of newest swings is the only one. */
  lemma OnePair(values: seq<real>, k: int, high: bool, i: int, j1: int, j2: int, l1: int, l2: int)
    requires NewestPair(values, k, high, i, j1, j2) && NewestPair(values, k, high, i, l1, l2)
    ensures j1 == l1 && j2 == l2
  {
  }

  /** The two newest swings, or the lack of them, decide the double. */
  lemma DoubleFromSwings(tape: Tape, k: int, high: bool, i: nat, swings: seq<Swing>)
    requires tape.Valid() && i < |tape.closes| && NewestSwings(tape.Side(high), k, high, i, Some(2), swings)
    ensures Double(tape, k, high, i) <==>
            |swings| >= 2 && DoubleAt(tape, high, i, swings[1].price, swings[0].price)
  {
    var values := tape.Side(high);
    if |swings| < 2 {
      assert forall j1, j2 :: Confirmed(values, k, high, i, j1) && Confirmed(values, k, high, i, j2) ==> j1 == j2;
    } else {
      var j1, j2 := swings[1].index, swings[0].index;
      assert NewestPair(values, k, high, i, j1, j2);
      forall l1, l2 | NewestPair(values, k, high, i, l1, l2) ensures l1 == j1 && l2 == j2 {
        OnePair(values, k, high, i, j1, j2, l1, l2);
      }
      hide NewestPair, Confirmed, DoubleAt;
    }
  }

  method EvalDouble(closes: seq<real>, highs: Option<seq<real>>, lows: Option<seq<real>>, k: int, high: bool, i: nat)
    returns (r: Result<bool, OhlcError>)
    requires i < |closes|
    ensures var tape := RequireOhlc(closes, highs, lows);
            if tape.Failure? then r == Failure(tape.error)
            else r.Success? && (r.value <==> Double(tape.value, k, high, i))
  {
    hide Double, NewestSwings, Holds;
    var checked := RequireOhlc(closes, highs, lows);
    if checked.Failure? {
      return Failure(checked.error);
    }
    var tape := checked.value;
    var values := tape.Side(high);
    var swings := ConfirmedSwings(values, k, i, high, Some(2));
    DoubleFromSwings(tape, k, high, i, swings);
    if |swings| < 2 {
      return Success(false);
    }
    var atr := AtrSeries(tape.highs, tape.lows, tape.closes, NEAR_ATR_PERIOD);
    if !Holds(swings[1].price, swings[0].price, atr[i]) {
      return Success(false);
    }
    return Success(if high then closes[i] < swings[0].price else closes[i] > swings[0].price);
  }

  method EvalDonchian(closes: seq<real>, highs: Option<seq<real>>, lows: Option<seq<real>>, n: int, high: bool, i: nat)
    returns (r: Result<bool, OhlcError>)
    requires i < |closes|
    ensures var tape := RequireOhlc(closes, highs, lows);
            if tape.Failure? then r == Failure(tape.error)
            else r == Success(Donchian(tape.value, n, high, i))
  {
    var checked := RequireOhlc(closes, highs, lows);
    if checked.Failure? {
      return Failure(checked.error);
    }
    var tape := checked.value;
    if n < 1 || i < n {
      return Success(false);
    }
    var levels := RangeBefore(tape.Side(high), n, high);
    if levels[i].None? {
      return Success(false);
    }
    if high {
      return Success(closes[i] > levels[i].value);
    }
    var atr := AtrSeries(tape.highs, tape.lows, tape.closes, NEAR_ATR_PERIOD);
    return Success(IsNear(closes[i], levels[i].value, atr[i]));
  }

  // ----- no lookahead

  /** Two tapes that agree up to and including bar `i`. */
  ghost predicate AgreeUpTo(a: Tape, b: Tape, i: nat) {
    && a.Valid() && b.Valid() && i < |a.closes| && i < |b.closes|
    && a.closes[..i + 1] == b.closes[..i + 1]
    && a.highs[..i + 1] == b.highs[..i + 1]
    && a.lows[..i + 1] == b.lows[..i + 1]
  }

  lemma AgreeAt(a: Tape, b: Tape, i: nat)
    requires AgreeUpTo(a, b, i)
    ensures forall t :: 0 <= t <= i ==>
              a.closes[t] == b.closes[t] && a.highs[t] == b.highs[t] && a.lows[t] == b.lows[t]
    ensures forall t, high :: 0 <= t <= i ==> a.Side(high)[t] == b.Side(high)[t]
  {
    forall t | 0 <= t <= i
      ensures a.closes[t] == b.closes[t] && a.highs[t] == b.highs[t] && a.lows[t] == b.lows[t]
    {
      assert a.closes[t] == a.closes[..i + 1][t];
      assert a.highs[t] == a.highs[..i + 1][t];
      assert a.lows[t] == a.lows[..i + 1][t];
    }
  }

  lemma ConfirmedAgree(a: Tape, b: Tape, k: int, high: bool, i: nat, j: int)
    requires AgreeUpTo(a, b, i)
    ensures Confirmed(a.Side(high), k, high, i, j) <==> Confirmed(b.Side(high), k, high, i, j)
  {
    AgreeAt(a, b, i);
  }

  lemma {:induction false} TrueRangeSumAgrees(a: Tape, b: Tape, i: nat, lo: nat, hi: nat)
    requires AgreeUpTo(a, b, i) && 1 <= lo <= hi <= i + 1
    ensures TrueRangeSum(a.highs, a.lows, a.closes, lo, hi) == TrueRangeSum(b.highs, b.lows, b.closes, lo, hi)
  {
    AgreeAt(a, b, i);
    if lo < hi {
      TrueRangeSumAgrees(a, b, i, lo, hi - 1);
    }
  }

  lemma AtrAgrees(a: Tape, b: Tape, i: nat)
    requires AgreeUpTo(a, b, i)
    ensures a.Atr(i) == b.Atr(i)
  {
    if i >= NEAR_ATR_PERIOD {
      TrueRangeSumAgrees(a, b, i, i - NEAR_ATR_PERIOD + 1, i + 1);
    }
  }

  lemma LevelAgrees(a: Tape, b: Tape, n: int, high: bool, i: nat)
    requires AgreeUpTo(a, b, i)
    ensures LevelBefore(a.Side(high), n, i, high) == LevelBefore(b.Side(high), n, i, high)
  {
    AgreeAt(a, b, i);
    if n >= 1 && i >= n {
      var x := Extreme(a.Side(high), i - n, i, high);
      var s :| i - n <= s < i && a.Side(high)[s] == x;
      assert b.Side(high)[s] == x;
      ExtremeUnique(b.Side(high), i - n, i, high, x);
    }
  }

  /** No bar after `i` can change a swing, double or Donchian flag at bar `i`, although the
      pivots are listed once from the whole tape. */
  lemma StructureHasNoLookahead(a: Tape, b: Tape, k: int, high: bool, i: nat)
    requires AgreeUpTo(a, b, i)
    ensures NearSwing(a, k, high, i) <==> NearSwing(b, k, high, i)
    ensures Double(a, k, high, i) <==> Double(b, k, high, i)
    ensures Donchian(a, k, high, i) <==> Donchian(b, k, high, i)
  {
    AgreeAt(a, b, i);
    AtrAgrees(a, b, i);
    LevelAgrees(a, b, k, high, i);
    forall j
      ensures Confirmed(a.Side(high), k, high, i, j) <==> Confirmed(b.Side(high), k, high, i, j)
    {
      ConfirmedAgree(a, b, k, high, i, j);
    }
    SwingFlagsFollow(a, b, k, high, i);
    SwingFlagsFollow(b, a, k, high, i);
  }

  lemma SwingFlagsFollow(a: Tape, b: Tape, k: int, high: bool, i: nat)
    requires a.Valid() && b.Valid() && i < |a.closes| && i < |b.closes|
    requires a.closes[i] == b.closes[i] && a.Atr(i) == b.Atr(i)
    requires forall j :: Confirmed(a.Side(high), k, high, i, j) <==> Confirmed(b.Side(high), k, high, i, j)
    requires forall t :: 0 <= t <= i ==> a.Side(high)[t] == b.Side(high)[t]
    ensures NearSwing(a, k, high, i) ==> NearSwing(b, k, high, i)
    ensures Double(a, k, high, i) ==> Double(b, k, high, i)
  {
    if NearSwing(a, k, high, i) {
      var j :| NewestConfirmed(a.Side(high), k, high, i, j)
               && IsNear(a.closes[i], a.Side(high)[j], a.Atr(i));
      assert NewestConfirmed(b.Side(high), k, high, i, j);
    }
    if Double(a, k, high, i) {
      var j1, j2 :| NewestPair(a.Side(high), k, high, i, j1, j2)
                    && DoubleAt(a, high, i, a.Side(high)[j1], a.Side(high)[j2]);
      assert NewestPair(b.Side(high), k, high, i, j1, j2);
    }
  }
}
