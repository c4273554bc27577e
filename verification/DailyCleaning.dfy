/** Tapes out of order and with repeated stamps: what cleaning keeps of them, and their days. */
module DailyCleaning {
  import opened DailyTape
  import opened Ordering

  ghost predicate Stamped(rows: seq<Bar>, t: int) {
    exists i :: 0 <= i < |rows| && rows[i].ts == t
  }

  /** The last row stamped `t`. */
  ghost function LastAt(rows: seq<Bar>, t: int): Bar
    requires Stamped(rows, t)
  {
    if rows[|rows| - 1].ts == t then rows[|rows| - 1] else LastAt(rows[..|rows| - 1], t)
  }

  lemma {:induction false} LastAtIsLast(rows: seq<Bar>, t: int) returns (k: nat)
    requires Stamped(rows, t)
    ensures k < |rows| && rows[k] == LastAt(rows, t) && rows[k].ts == t
    ensures forall j :: k < j < |rows| ==> rows[j].ts != t
  {
    if rows[|rows| - 1].ts == t {
      k := |rows| - 1;
    } else {
      k := LastAtIsLast(rows[..|rows| - 1], t);
    }
  }

  /** The same stamps, and the same last row for each of them. */
  ghost predicate SameLasts(a: seq<Bar>, b: seq<Bar>) {
    forall t :: (Stamped(a, t) <==> Stamped(b, t)) && (Stamped(a, t) ==> LastAt(a, t) == LastAt(b, t))
  }

  // ----- one more row

  lemma StampedSnoc(rows: seq<Bar>, b: Bar, t: int)
    ensures Stamped(rows + [b], t) <==> Stamped(rows, t) || b.ts == t
    ensures b.ts == t ==> LastAt(rows + [b], t) == b
    ensures b.ts != t && Stamped(rows, t) ==> LastAt(rows + [b], t) == LastAt(rows, t)
  {
    var more := rows + [b];
    assert more[..|rows|] == rows && more[|rows|] == b;
    assert forall i :: 0 <= i < |rows| ==> more[i] == rows[i];
  }

  ghost predicate Sorted(rows: seq<Bar>) {
    forall i, j :: 0 <= i < j < |rows| ==> rows[i].ts <= rows[j].ts
  }

  lemma {:induction false} InsertedIsSorted(sorted: seq<Bar>, b: Bar)
    requires Sorted(sorted)
    ensures Sorted(Inserted(sorted, b)) && |Inserted(sorted, b)| == |sorted| + 1
    ensures forall x :: x in Inserted(sorted, b) <==> x == b || x in sorted
  {
    if sorted != [] && sorted[|sorted| - 1].ts > b.ts {
      var front, last := sorted[..|sorted| - 1], sorted[|sorted| - 1];
      assert sorted == front + [last];
      InsertedIsSorted(front, b);
      var into := Inserted(front, b);
      forall i | 0 <= i < |into| ensures into[i].ts <= last.ts {
        assert into[i] in into;
      }
    }
  }

  /** The row put in is the last of its stamp, and every other stamp's last row stays. */
  lemma {:induction false} InsertedLast(sorted: seq<Bar>, b: Bar, t: int)
    requires Sorted(sorted)
    ensures Stamped(Inserted(sorted, b), t) <==> Stamped(sorted, t) || b.ts == t
    ensures Stamped(Inserted(sorted, b), t) ==>
              LastAt(Inserted(sorted, b), t) == if b.ts == t then b else LastAt(sorted, t)
  {
    if sorted == [] || sorted[|sorted| - 1].ts <= b.ts {
      StampedSnoc(sorted, b, t);
    } else {
      var front, last := sorted[..|sorted| - 1], sorted[|sorted| - 1];
      assert sorted == front + [last];
      InsertedLast(front, b, t);
      StampedSnoc(Inserted(front, b), last, t);
      StampedSnoc(front, last, t);
    }
  }

  lemma {:induction false} SortedKeepsLasts(rows: seq<Bar>)
    ensures Sorted(StablySorted(rows)) && SameLasts(StablySorted(rows), rows)
  {
    if rows != [] {
      var front, b := rows[..|rows| - 1], rows[|rows| - 1];
      SortedKeepsLasts(front);
      InsertedIsSorted(StablySorted(front), b);
      assert rows == front + [b];
      forall t
        ensures Stamped(StablySorted(rows), t) <==> Stamped(rows, t)
        ensures Stamped(rows, t) ==> LastAt(StablySorted(rows), t) == LastAt(rows, t)
      {
        InsertedLast(StablySorted(front), b, t);
        StampedSnoc(front, b, t);
      }
    }
  }

  // ----- keeping the last row of each stamp

  lemma {:induction false} LastAtCons(a: Bar, rest: seq<Bar>, t: int)
    ensures Stamped([a] + rest, t) <==> Stamped(rest, t) || a.ts == t
    ensures Stamped([a] + rest, t) ==> LastAt([a] + rest, t) == if Stamped(rest, t) then LastAt(rest, t) else a
  {
    var all := [a] + rest;
    assert all[0] == a && forall i :: 0 <= i < |rest| ==> all[i + 1] == rest[i];
    if rest != [] && rest[|rest| - 1].ts != t {
      LastAtCons(a, rest[..|rest| - 1], t);
      assert all[..|all| - 1] == [a] + rest[..|rest| - 1];
      assert rest == rest[..|rest| - 1] + [rest[|rest| - 1]];
      StampedSnoc(rest[..|rest| - 1], rest[|rest| - 1], t);
      StampedSnoc([a] + rest[..|rest| - 1], rest[|rest| - 1], t);
    }
  }

  lemma {:induction false} LastOfEachAscends(sorted: seq<Bar>)
    requires Sorted(sorted)
    ensures Ascending(Stamps(LastOfEach(sorted)))
    ensures sorted != [] ==> LastOfEach(sorted) != [] && LastOfEach(sorted)[0].ts == sorted[0].ts
  {
    if |sorted| > 1 {
      LastOfEachAscends(sorted[1..]);
      var rest := LastOfEach(sorted[1..]);
      if sorted[0].ts != sorted[1].ts {
        AscendingCons(sorted[0], rest);
      } else {
        assert [] + rest == rest;
      }
    }
  }

  lemma AscendingCons(b: Bar, rest: seq<Bar>)
    requires Ascending(Stamps(rest)) && (rest != [] ==> b.ts < rest[0].ts)
    ensures Ascending(Stamps([b] + rest))
  {
    forall i, j | 0 <= i < j < |rest| + 1 ensures Stamps([b] + rest)[i] < Stamps([b] + rest)[j] {
      assert j >= 1 && Stamps([b] + rest)[j] == Stamps(rest)[j - 1];
      if i > 0 {
        assert Stamps([b] + rest)[i] == Stamps(rest)[i - 1];
      } else if j > 1 {
        assert Stamps(rest)[0] < Stamps(rest)[j - 1];
      }
    }
  }

  lemma {:induction false} LastOfEachKeepsLasts(sorted: seq<Bar>, t: int)
    requires Sorted(sorted)
    ensures Stamped(LastOfEach(sorted), t) <==> Stamped(sorted, t)
    ensures Stamped(sorted, t) ==> LastAt(LastOfEach(sorted), t) == LastAt(sorted, t)
  {
    if |sorted| > 1 {
      var a, rest := sorted[0], sorted[1..];
      assert sorted == [a] + rest;
      LastOfEachKeepsLasts(rest, t);
      LastAtCons(a, rest, t);
      if a.ts != sorted[1].ts {
        LastAtCons(a, LastOfEach(rest), t);
      } else {
        assert [] + LastOfEach(rest) == LastOfEach(rest) && rest[0].ts == a.ts;
      }
    }
  }

  /** Cleaning any tape leaves ascending rows: exactly the last row of each of its stamps. */
  lemma CleaningKeepsTheLast(rows: seq<Bar>)
    ensures Ascending(Stamps(Cleaned(rows))) && SameLasts(Cleaned(rows), rows)
  {
    if !Ascending(Stamps(rows)) {
      var sorted := StablySorted(rows);
      SortedKeepsLasts(rows);
      LastOfEachAscends(sorted);
      forall t
        ensures Stamped(Cleaned(rows), t) <==> Stamped(rows, t)
        ensures Stamped(rows, t) ==> LastAt(Cleaned(rows), t) == LastAt(rows, t)
      {
        LastOfEachKeepsLasts(sorted, t);
      }
    }
  }

  // ----- nothing else decides it

  lemma AscendingOnce(ts: seq<int>, m: nat, k: nat)
    requires Ascending(ts) && m < |ts| && k < |ts| && ts[m] == ts[k]
    ensures m == k
  {
  }

  lemma AscendingRowIsLast(rows: seq<Bar>, k: nat)
    requires Ascending(Stamps(rows)) && k < |rows|
    ensures Stamped(rows, rows[k].ts) && LastAt(rows, rows[k].ts) == rows[k]
  {
    hide LastAt, Ascending;
    var t := rows[k].ts;
    assert Stamped(rows, t);
    var m := LastAtIsLast(rows, t);
    AscendingOnce(Stamps(rows), m, k);
  }

  lemma LastIsGreatest(xs: seq<int>, t: int)
    requires Ascending(xs) && xs != []
    ensures t in xs ==> t <= xs[|xs| - 1]
    ensures t in xs[..|xs| - 1] <==> t in xs && t != xs[|xs| - 1]
    ensures Ascending(xs[..|xs| - 1])
  {
    assert xs == xs[..|xs| - 1] + [xs[|xs| - 1]];
  }

  lemma Nonempty(xs: seq<int>, ys: seq<int>)
    requires forall y :: y in ys ==> y in xs
    ensures ys != [] ==> xs != []
  {
    if ys != [] {
      var y := ys[0];
      assert y in ys;
    }
  }

  lemma {:induction false} AscendingAgree(xs: seq<int>, ys: seq<int>)
    requires Ascending(xs) && Ascending(ys) && forall x :: x in xs <==> x in ys
    ensures xs == ys
  {
    hide Ascending;
    if xs == [] || ys == [] {
      Nonempty(xs, ys);
      Nonempty(ys, xs);
    } else {
      var x, y := xs[|xs| - 1], ys[|ys| - 1];
      var front, back := xs[..|xs| - 1], ys[..|ys| - 1];
      LastIsGreatest(xs, y);
      LastIsGreatest(ys, x);
      assert x in xs && y in ys;
      forall t ensures t in front <==> t in back {
        LastIsGreatest(xs, t);
        LastIsGreatest(ys, t);
      }
      AscendingAgree(front, back);
      assert xs == front + [x] && ys == back + [y];
    }
  }

  lemma StampsMembers(rows: seq<Bar>, t: int)
    ensures t in Stamps(rows) <==> Stamped(rows, t)
  {
    if Stamped(rows, t) {
      var i :| 0 <= i < |rows| && rows[i].ts == t;
      assert Stamps(rows)[i] == t;
    }
  }

  /** Tapes with the same last row for each stamp, in whatever order and however repeated, have
      the same days. */
  lemma DaysDependOnLastsOnly(a: seq<Bar>, b: seq<Bar>)
    requires SameLasts(a, b)
    ensures Cleaned(a) == Cleaned(b) && Resample(a) == Resample(b)
  {
    hide Cleaned, Resampled, LastAt, Stamped;
    CleaningKeepsTheLast(a);
    CleaningKeepsTheLast(b);
    SameRows(Cleaned(a), Cleaned(b));
  }

  lemma SameRows(x: seq<Bar>, y: seq<Bar>)
    requires Ascending(Stamps(x)) && Ascending(Stamps(y)) && SameLasts(x, y)
    ensures x == y
  {
    forall t ensures t in Stamps(x) <==> t in Stamps(y) {
      StampsMembers(x, t);
      StampsMembers(y, t);
    }
    AscendingAgree(Stamps(x), Stamps(y));
    hide Stamped, LastAt, Ascending;
    forall k | 0 <= k < |x| ensures x[k] == y[k] {
      assert Stamps(x)[k] == Stamps(y)[k];
      AscendingRowIsLast(x, k);
      AscendingRowIsLast(y, k);
    }
  }

  // ----- the days of any tape

  ghost predicate OnDay(rows: seq<Bar>, day: int) {
    exists i :: 0 <= i < |rows| && DayOf(rows[i].ts) == day
  }

  ghost predicate After(rows: seq<Bar>, day: int) {
    exists i :: 0 <= i < |rows| && DayOf(rows[i].ts) > day
  }

  /** Whatever the order of the rows, a day is listed if and only if some row falls on it and some
      row on a later day. */
  lemma AnyTapesDays(rows: seq<Bar>, day: int)
    ensures day in Resample(rows).ts <==> OnDay(rows, day) && After(rows, day)
  {
    hide LastOfEach, StablySorted, LastAt, Stamped, OnDay, After, Resampled;
    CleaningKeepsTheLast(rows);
    SameDays(rows, Cleaned(rows), day);
    AscendingTapesDays(Cleaned(rows), day);
  }

  lemma SameDays(a: seq<Bar>, b: seq<Bar>, day: int)
    requires forall t :: Stamped(a, t) <==> Stamped(b, t)
    ensures OnDay(a, day) <==> OnDay(b, day)
    ensures After(a, day) <==> After(b, day)
  {
    SameDaysOneWay(a, b, day);
    SameDaysOneWay(b, a, day);
  }

  lemma SameDaysOneWay(a: seq<Bar>, b: seq<Bar>, day: int)
    requires forall t :: Stamped(a, t) ==> Stamped(b, t)
    ensures OnDay(a, day) ==> OnDay(b, day)
    ensures After(a, day) ==> After(b, day)
  {
    hide DayOf;
    if i :| 0 <= i < |a| && DayOf(a[i].ts) == day {
      assert Stamped(a, a[i].ts);
    }
    if i :| 0 <= i < |a| && DayOf(a[i].ts) > day {
      assert Stamped(a, a[i].ts);
    }
  }

  lemma AscendingTapesDays(rows: seq<Bar>, day: int)
    requires Ascending(Stamps(rows))
    ensures day in Resampled(rows).ts <==> OnDay(rows, day) && After(rows, day)
  {
    hide DayOf, Ascending, Resampled;
    if rows == [] {
      NoRowsNoDays(rows);
    } else {
      var last := |rows| - 1;
      if day in Resampled(rows).ts {
        var i := ListedHasARow(rows, day);
        EveryCompletedDayIsThere(rows, i);
        DaysGrow(rows, i, last);
      }
      if OnDay(rows, day) && After(rows, day) {
        var i :| 0 <= i < |rows| && DayOf(rows[i].ts) == day;
        var j :| 0 <= j < |rows| && DayOf(rows[j].ts) > day;
        DaysGrow(rows, j, last);
        EveryCompletedDayIsThere(rows, i);
      }
    }
  }

  lemma NoRowsNoDays(rows: seq<Bar>)
    requires rows == []
    ensures Resampled(rows).ts == []
  {
  }

  lemma ListedHasARow(rows: seq<Bar>, day: int) returns (i: nat)
    requires rows != [] && day in Resampled(rows).ts
    ensures i < |rows| && DayOf(rows[i].ts) == day
  {
    var k :| 0 <= k < |Resampled(rows).ts| && Resampled(rows).ts[k] == day;
    ResampledStamps(rows);
    i := Starts(rows, |rows|)[k];
  }

  /** Rows that are all later than a tape's, in whatever order either came, leave its completed days
      the first days of the longer one. */
  lemma LaterRowsKeepTheDays(rows: seq<Bar>, more: seq<Bar>)
    requires forall i, j :: 0 <= i < |rows| && 0 <= j < |more| ==> rows[i].ts < more[j].ts
    ensures var b, b' := Resample(rows), Resample(rows + more);
            b.Valid() && b'.Valid() && b.Length() <= b'.Length() && b == b'.Take(b.Length())
  {
    var front, back := Cleaned(rows), Cleaned(more);
    CleaningKeepsTheLast(rows);
    CleaningKeepsTheLast(more);
    CleanedApart(rows, more);
    CompletedDaysAreFinal(front, back);
    hide Resampled, LastOfEach, StablySorted, SameLasts;
    assert Ascending(Stamps(front)) && Ascending(Stamps(front + back));
    assert Resample(front) == Resampled(front) && Resample(front + back) == Resampled(front + back);
  }

  lemma LastAtApart(rows: seq<Bar>, more: seq<Bar>, t: int)
    ensures Stamped(rows + more, t) <==> Stamped(rows, t) || Stamped(more, t)
    ensures Stamped(more, t) ==> LastAt(rows + more, t) == LastAt(more, t)
    ensures !Stamped(more, t) && Stamped(rows, t) ==> LastAt(rows + more, t) == LastAt(rows, t)
    decreases |more|
  {
    if more == [] {
      assert rows + more == rows;
    } else {
      var front, b := more[..|more| - 1], more[|more| - 1];
      LastAtApart(rows, front, t);
      assert more == front + [b] && rows + more == (rows + front) + [b];
      StampedSnoc(front, b, t);
      StampedSnoc(rows + front, b, t);
    }
  }

  lemma CleanedApart(rows: seq<Bar>, more: seq<Bar>)
    requires forall i, j :: 0 <= i < |rows| && 0 <= j < |more| ==> rows[i].ts < more[j].ts
    ensures Ascending(Stamps(Cleaned(rows) + Cleaned(more)))
    ensures Cleaned(rows + more) == Cleaned(rows) + Cleaned(more)
  {
    var front, back := Cleaned(rows), Cleaned(more);
    CleaningKeepsTheLast(rows);
    CleaningKeepsTheLast(more);
    CleaningKeepsTheLast(rows + more);
    hide Cleaned, LastAt;
    forall i, j | 0 <= i < |front| && 0 <= j < |back| ensures front[i].ts < back[j].ts {
      assert Stamped(front, front[i].ts) && Stamped(back, back[j].ts);
      assert Stamped(rows, front[i].ts) && Stamped(more, back[j].ts);
    }
    AscendingJoins(front, back);
    forall t
      ensures Stamped(front + back, t) <==> Stamped(Cleaned(rows + more), t)
      ensures Stamped(front + back, t) ==> LastAt(front + back, t) == LastAt(Cleaned(rows + more), t)
    {
      LastAtApart(front, back, t);
      LastAtApart(rows, more, t);
    }
    SameRows(Cleaned(rows + more), front + back);
  }

  lemma AscendingJoins(a: seq<Bar>, b: seq<Bar>)
    requires Ascending(Stamps(a)) && Ascending(Stamps(b))
    requires forall i, j :: 0 <= i < |a| && 0 <= j < |b| ==> a[i].ts < b[j].ts
    ensures Ascending(Stamps(a + b))
  {
    var n, ts := |a|, Stamps(a + b);
    forall i, j | 0 <= i < j < |ts| ensures ts[i] < ts[j] {
      if j < n {
        assert ts[i] == Stamps(a)[i] && ts[j] == Stamps(a)[j];
      } else if i >= n {
        assert ts[i] == Stamps(b)[i - n] && ts[j] == Stamps(b)[j - n];
      }
    }
  }
}
