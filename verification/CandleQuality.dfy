/** The 5m grid: which bar is closed, and which gaps are a known suspension of the exchange. */
module CandleQuality {
  import opened Wrappers

  const TF_MS := 300_000

  // ----- which bar is closed

  /** The open of the newest closed bar; a width that is not positive is refused. */
  function LastClosedOpen(nowMs: int, tfMs: int): Option<int> {
    if tfMs <= 0 then None else Some(nowMs - nowMs % tfMs - tfMs)
  }

  /** On the 5m grid, which is the default. */
  function LastClosed5m(nowMs: int): int {
    LastClosedOpen(nowMs, TF_MS).value
  }

  predicate OnGrid(open: int) {
    open % TF_MS == 0
  }

  lemma Quotient(x: int, d: int)
    requires d > 0
    ensures x == (x / d) * d + x % d && 0 <= x % d < d
  {
  }

  lemma {:induction false} ProductAtLeast(k: int, d: int)
    requires k >= 1 && d > 0
    ensures k * d >= d
    decreases k
  {
    if k > 1 {
      ProductAtLeast(k - 1, d);
      assert k * d == (k - 1) * d + d;
    }
  }

  lemma SmallMultiple(m: int, d: int)
    requires d > 0 && -d < m * d < d
    ensures m == 0
  {
    assert (-m) * d == -(m * d);
    if m >= 1 {
      ProductAtLeast(m, d);
    } else if m <= -1 {
      ProductAtLeast(-m, d);
    }
  }

  lemma MultipleLeavesNothing(k: int, d: int)
    requires d > 0
    ensures (k * d) % d == 0
  {
    var x := k * d;
    var q, r := x / d, x % d;
    Quotient(x, d);
    assert (k - q) * d == r;
    SmallMultiple(k - q, d);
  }

  lemma FitsBelow(k: int, q: int, r: int, d: int)
    requires d > 0 && 0 <= r < d
    ensures k * d + d <= q * d + r <==> k <= q - 1
  {
    assert (q - 1 - k) * d == q * d - d - k * d;
    if k <= q - 2 {
      ProductAtLeast(q - 1 - k, d);
    } else if k > q - 1 {
      ProductAtLeast(k - (q - 1), d);
      assert (k - (q - 1)) * d == -((q - 1 - k) * d);
    }
  }

  /** For any positive width: of all the opens on its grid, those up to the last closed one are
      exactly those whose bar is over. */
  lemma LastClosedIsNewest(nowMs: int, tfMs: int, open: int)
    ensures LastClosedOpen(nowMs, tfMs).None? <==> tfMs <= 0
    ensures tfMs > 0 ==> LastClosedOpen(nowMs, tfMs).value % tfMs == 0
    ensures tfMs > 0 && open % tfMs == 0 ==>
              (open + tfMs <= nowMs <==> open <= LastClosedOpen(nowMs, tfMs).value)
  {
    if tfMs > 0 {
      var q, r := nowMs / tfMs, nowMs % tfMs;
      Quotient(nowMs, tfMs);
      assert LastClosedOpen(nowMs, tfMs).value == (q - 1) * tfMs;
      MultipleLeavesNothing(q - 1, tfMs);
      if open % tfMs == 0 {
        var k := open / tfMs;
        Quotient(open, tfMs);
        FitsBelow(k, q, r, tfMs);
        FitsBelow(k, q, 0, tfMs);
      }
    }
  }

  lemma NextOnGrid(x: int, m: int)
    requires OnGrid(x) && OnGrid(m) && m > x
    ensures m >= x + TF_MS
  {
    var a, b := x / TF_MS, m / TF_MS;
    assert x == a * TF_MS && m == b * TF_MS;
    assert b >= a + 1;
  }

  // ----- known suspensions

  /** The bucket that opens at `open` overlaps the window. */
  predicate Overlaps(open: int, window: (int, int)) {
    open < window.1 && open + TF_MS > window.0
  }

  predicate InBoth(t: int, open: int, window: (int, int)) {
    open <= t < open + TF_MS && window.0 <= t < window.1
  }

  /** A bucket overlaps a window that is not empty when some instant is in both. */
  lemma OverlapsIff(open: int, window: (int, int))
    requires window.0 < window.1
    ensures Overlaps(open, window) <==> exists t :: InBoth(t, open, window)
  {
    if Overlaps(open, window) {
      assert InBoth(if open < window.0 then window.0 else open, open, window);
    }
  }

  /** The first of the windows that the gap's first and last missing opens both overlap. */
  function KnownOutage(prev: int, next: int, windows: seq<(int, int)>): Option<(int, int)> {
    if windows == [] then None
    else
      var first := prev + TF_MS;
      var last := if next - TF_MS < first then first else next - TF_MS;
      if Overlaps(first, windows[0]) && Overlaps(last, windows[0]) then Some(windows[0])
      else KnownOutage(prev, next, windows[1..])
  }

  /** The opens missing between two stored bars. */
  predicate Missing(open: int, prev: int, next: int) {
    OnGrid(open) && prev < open < next
  }

  /** The window overlaps every open the gap misses. */
  ghost predicate Covered(prev: int, next: int, window: (int, int)) {
    forall open :: Missing(open, prev, next) ==> Overlaps(open, window)
  }

  lemma EndsDecide(prev: int, next: int, window: (int, int))
    requires OnGrid(prev) && OnGrid(next) && next - prev > TF_MS
    ensures Covered(prev, next, window) <==> Overlaps(prev + TF_MS, window) && Overlaps(next - TF_MS, window)
  {
    NextOnGrid(prev, next);
    assert Missing(prev + TF_MS, prev, next) && Missing(next - TF_MS, prev, next);
    forall open | Missing(open, prev, next)
      ensures prev + TF_MS <= open <= next - TF_MS
    {
      NextOnGrid(prev, open);
      NextOnGrid(open, next);
    }
  }

  /** A gap counts as known exactly when one window overlaps every open it misses, although
      only its two ends are looked at. */
  lemma {:induction false} KnownMeansEveryMissingOpen(prev: int, next: int, windows: seq<(int, int)>)
    requires OnGrid(prev) && OnGrid(next) && next - prev > TF_MS
    ensures KnownOutage(prev, next, windows).Some? <==>
            exists k :: 0 <= k < |windows| && Covered(prev, next, windows[k])
    decreases |windows|
  {
    NextOnGrid(prev, next);
    GapIsWide(prev, next);
    if windows != [] {
      var rest := windows[1..];
      EndsDecide(prev, next, windows[0]);
      KnownMeansEveryMissingOpen(prev, next, rest);
      hide Covered, Overlaps;
      if k :| 0 <= k < |rest| && Covered(prev, next, rest[k]) {
        assert Covered(prev, next, windows[k + 1]);
      }
      if k :| 0 <= k < |windows| && Covered(prev, next, windows[k]) {
        assert k > 0 ==> Covered(prev, next, rest[k - 1]);
      }
    }
  }

  lemma GapIsWide(prev: int, next: int)
    requires OnGrid(prev) && OnGrid(next) && next - prev > TF_MS
    ensures next - TF_MS >= prev + TF_MS
  {
    NextOnGrid(prev + TF_MS, next);
  }

  /** The outage named is the first of the windows that covers the gap. */
  lemma {:induction false} TheFirstCoveringWindow(prev: int, next: int, windows: seq<(int, int)>)
    requires OnGrid(prev) && OnGrid(next) && next - prev > TF_MS && KnownOutage(prev, next, windows).Some?
    ensures exists k :: 0 <= k < |windows| && KnownOutage(prev, next, windows) == Some(windows[k])
                        && Covered(prev, next, windows[k])
                        && forall j :: 0 <= j < k ==> !Covered(prev, next, windows[j])
    decreases |windows|
  {
    GapIsWide(prev, next);
    EndsDecide(prev, next, windows[0]);
    hide Covered, Overlaps;
    if Covered(prev, next, windows[0]) {
      assert KnownOutage(prev, next, windows) == Some(windows[0]);
    } else {
      var rest := windows[1..];
      TheFirstCoveringWindow(prev, next, rest);
      var k :| 0 <= k < |rest| && KnownOutage(prev, next, rest) == Some(rest[k]) && Covered(prev, next, rest[k])
               && forall j :: 0 <= j < k ==> !Covered(prev, next, rest[j]);
      forall j | 0 <= j < k + 1 ensures !Covered(prev, next, windows[j]) {
        assert j > 0 ==> windows[j] == rest[j - 1];
      }
      assert KnownOutage(prev, next, windows) == Some(windows[k + 1]) && Covered(prev, next, windows[k + 1]);
    }
  }
}
