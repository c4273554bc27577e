/** Target weights of the fund.

    Analyst votes blend into a sleeve, the sleeves net by capital slice into one book, and the
    book is clamped to the limits. A ticker is its place in alphabetical order. */
module FundWeights {
  import opened Ordering
  import opened Reals

  type Weights = map<int, real>

  predicate Covers(w: Weights, ts: seq<int>) {
    forall k :: 0 <= k < |ts| ==> ts[k] in w
  }

  /** The book's tickers, in order. */
  function Names(w: Weights): (ts: seq<int>)
    ensures Covers(w, ts) && Ascending(ts) && forall t :: t in ts <==> t in w
  {
    InOrder(w.Keys)
  }

  /** The summed size of the weights of `ts`. */
  function Gross(ts: seq<int>, w: Weights): real
    requires Covers(w, ts)
  {
    if ts == [] then 0.0 else Gross(ts[..|ts| - 1], w) + Abs(w[ts[|ts| - 1]])
  }

  function Total(ts: seq<int>, w: Weights): real
    requires Covers(w, ts)
  {
    if ts == [] then 0.0 else Total(ts[..|ts| - 1], w) + w[ts[|ts| - 1]]
  }

  /** The gross exposure of a whole book. */
  function BookGross(w: Weights): real {
    Gross(Names(w), w)
  }

  function Times(a: real, k: real): real {
    a * k
  }

  function Scaled(w: Weights, k: real): Weights {
    map t | t in w :: Times(w[t], k)
  }

  lemma ScaleOne(a: real, k: real)
    requires k >= 0.0
    ensures Abs(Times(a, k)) == Times(Abs(a), k)
  {
    if a >= 0.0 {
      MulLe(0.0, a, k);
    } else {
      MulLe(a, 0.0, k);
    }
  }

  lemma {:induction false} GrossScales(ts: seq<int>, w: Weights, k: real)
    requires Covers(w, ts) && k >= 0.0
    ensures Gross(ts, Scaled(w, k)) == Times(Gross(ts, w), k)
  {
    if ts != [] {
      var last := ts[|ts| - 1];
      GrossScales(ts[..|ts| - 1], w, k);
      ScaleOne(w[last], k);
      Distributes(Gross(ts[..|ts| - 1], w), Abs(w[last]), k);
    }
  }

  lemma Distributes(a: real, b: real, k: real)
    ensures Times(a + b, k) == Times(a, k) + Times(b, k)
  {
  }

  lemma Ratio(part: real, whole: real)
    requires whole > 0.0
    ensures Times(whole, part / whole) == part
    ensures 0.0 < part <= whole ==> 0.0 < part / whole <= 1.0
    ensures 0.0 <= part ==> 0.0 <= part / whole
  {
  }

  lemma {:induction false} GrossIsPositive(ts: seq<int>, w: Weights)
    requires Covers(w, ts)
    ensures Gross(ts, w) >= 0.0
    ensures Total(ts, w) <= Gross(ts, w)
    ensures forall k :: 0 <= k < |ts| ==> Abs(w[ts[k]]) <= Gross(ts, w)
  {
    if ts != [] {
      GrossIsPositive(ts[..|ts| - 1], w);
    }
  }

  // ----- the limits

  datatype Limits = Limits(maxPosition: real, maxGross: real) {
    predicate Valid() {
      0.0 < maxPosition <= 1.0 && maxGross > 0.0
    }
  }

  datatype Clamp = PositionCap(ticker: int, before: real, after: real) | GrossCap(before: real, after: real)

  function ClampOne(w: real, cap: real): real {
    if Abs(w) > cap then (if w > 0.0 then cap else -cap) else w
  }

  function Capped(w: Weights, cap: real): Weights {
    map t | t in w :: ClampOne(w[t], cap)
  }

  /** The weights the limits leave. */
  function Limited(w: Weights, l: Limits): Weights
    requires l.Valid()
  {
    var capped := Capped(w, l.maxPosition);
    var gross := BookGross(capped);
    if gross > l.maxGross then Scaled(capped, l.maxGross / gross) else capped
  }

  function PositionCaps(ts: seq<int>, w: Weights, cap: real): seq<Clamp>
    requires Covers(w, ts)
  {
    if ts == [] then []
    else
      var t := ts[|ts| - 1];
      var before := PositionCaps(ts[..|ts| - 1], w, cap);
      if Abs(w[t]) > cap then before + [PositionCap(t, w[t], ClampOne(w[t], cap))] else before
  }

  /** Every limit that fired, tickers in order, the portfolio's last. */
  function Clamps(w: Weights, l: Limits): seq<Clamp> {
    var gross := BookGross(Capped(w, l.maxPosition));
    PositionCaps(Names(w), w, l.maxPosition) + if gross > l.maxGross then [GrossCap(gross, l.maxGross)] else []
  }

  /** The pass over the tickers of `ts` only. */
  function CappedFor(w: Weights, ts: seq<int>, cap: real): Weights {
    map t | t in w && t in ts :: ClampOne(w[t], cap)
  }

  lemma CapsNext(ts: seq<int>, k: nat, w: Weights, cap: real)
    requires k < |ts| && Covers(w, ts)
    ensures PositionCaps(ts[..k + 1], w, cap)
         == PositionCaps(ts[..k], w, cap)
            + if Abs(w[ts[k]]) > cap then [PositionCap(ts[k], w[ts[k]], ClampOne(w[ts[k]], cap))] else []
    ensures CappedFor(w, ts[..k + 1], cap) == CappedFor(w, ts[..k], cap)[ts[k] := ClampOne(w[ts[k]], cap)]
  {
    assert ts[..k + 1][..k] == ts[..k];
    assert ts[..k + 1] == ts[..k] + [ts[k]];
  }

  lemma CappedForAll(w: Weights, ts: seq<int>, cap: real)
    requires forall t :: t in w ==> t in ts
    ensures CappedFor(w, ts, cap) == Capped(w, cap)
  {
    var v := CappedFor(w, ts, cap);
    forall t | t in w ensures t in v && v[t] == ClampOne(w[t], cap) {
      assert t in ts;
    }
    assert v.Keys == w.Keys;
  }

  /** The per-ticker pass. */
  method CapPositions(w: Weights, cap: real) returns (weights: Weights, clamps: seq<Clamp>)
    ensures weights == Capped(w, cap) && clamps == PositionCaps(Names(w), w, cap)
  {
    weights, clamps := map[], [];
    var ts := Names(w);
    CappedForAll(w, ts, cap);
    hide CappedFor, PositionCaps, Names, Capped;
    var k := 0;
    NothingCapped(w, cap);
    assert ts[..0] == [] && ts[..|ts|] == ts;
    while k < |ts|
      invariant 0 <= k <= |ts|
      invariant weights == CappedFor(w, ts[..k], cap) && clamps == PositionCaps(ts[..k], w, cap)
    {
      var t := ts[k];
      CapsNext(ts, k, w, cap);
      if Abs(w[t]) > cap {
        var clamped := if w[t] > 0.0 then cap else -cap;
        clamps := clamps + [PositionCap(t, w[t], clamped)];
        weights := weights[t := clamped];
      } else {
        weights := weights[t := w[t]];
      }
      k := k + 1;
    }
  }

  lemma NothingCapped(w: Weights, cap: real)
    ensures CappedFor(w, [], cap) == map[] && PositionCaps([], w, cap) == []
  {
  }

  method ApplyLimits(w: Weights, l: Limits) returns (weights: Weights, clamps: seq<Clamp>)
    requires l.Valid()
    ensures weights == Limited(w, l) && clamps == Clamps(w, l)
  {
    weights, clamps := CapPositions(w, l.maxPosition);
    hide BookGross, Capped, PositionCaps;
    var gross := BookGross(weights);
    if gross > l.maxGross {
      weights := Scaled(weights, l.maxGross / gross);
      clamps := clamps + [GrossCap(gross, l.maxGross)];
    }
  }

  lemma ShrinkOne(a: real, k: real)
    requires 0.0 <= k <= 1.0
    ensures Abs(Times(a, k)) <= Abs(a) && (a >= 0.0 ==> Times(a, k) >= 0.0) && (a <= 0.0 ==> Times(a, k) <= 0.0)
  {
    ScaleOne(a, k);
    MulLe(k, 1.0, Abs(a));
    if a >= 0.0 {
      MulLe(0.0, a, k);
    } else {
      MulLe(a, 0.0, k);
    }
  }

  lemma ScaledBook(w: Weights, k: real)
    requires k >= 0.0
    ensures Scaled(w, k).Keys == w.Keys && BookGross(Scaled(w, k)) == Times(BookGross(w), k)
  {
    assert Scaled(w, k).Keys == w.Keys;
    GrossScales(Names(w), w, k);
  }

  /** `v` is `w` with no weight grown or turned round. */
  ghost predicate Shrunk(w: Weights, v: Weights) {
    v.Keys == w.Keys && forall t :: t in w ==>
      && Abs(v[t]) <= Abs(w[t]) && (w[t] >= 0.0 ==> v[t] >= 0.0) && (w[t] <= 0.0 ==> v[t] <= 0.0)
  }

  lemma ScalingShrinks(w: Weights, k: real)
    requires 0.0 <= k <= 1.0
    ensures Shrunk(w, Scaled(w, k))
  {
    forall t | t in w
      ensures Abs(Times(w[t], k)) <= Abs(w[t])
      ensures (w[t] >= 0.0 ==> Times(w[t], k) >= 0.0) && (w[t] <= 0.0 ==> Times(w[t], k) <= 0.0)
    {
      ShrinkOne(w[t], k);
    }
  }

  ghost predicate WithinCap(w: Weights, cap: real) {
    forall t :: t in w ==> Abs(w[t]) <= cap
  }

  lemma CappingShrinks(w: Weights, cap: real)
    requires cap > 0.0
    ensures Shrunk(w, Capped(w, cap)) && WithinCap(Capped(w, cap), cap)
  {
  }

  lemma ShrinkAgain(w: Weights, v: Weights, u: Weights, cap: real)
    requires Shrunk(w, v) && Shrunk(v, u) && WithinCap(v, cap)
    ensures Shrunk(w, u) && WithinCap(u, cap)
  {
  }

  /** The limits only ever shrink: no weight grows or changes its sign, each is within the
      position cap and the book within the gross cap. */
  lemma LimitsOnlyShrink(w: Weights, l: Limits)
    requires l.Valid()
    ensures var v := Limited(w, l);
            Shrunk(w, v) && WithinCap(v, l.maxPosition) && BookGross(v) <= l.maxGross
  {
    hide Scaled, Capped, BookGross, Shrunk, WithinCap;
    var capped := Capped(w, l.maxPosition);
    CappingShrinks(w, l.maxPosition);
    var gross := BookGross(capped);
    if gross > l.maxGross {
      var k := l.maxGross / gross;
      Ratio(l.maxGross, gross);
      ScaledBook(capped, k);
      ScalingShrinks(capped, k);
      ShrinkAgain(w, capped, Scaled(capped, k), l.maxPosition);
    }
  }

  lemma CappedAlready(w: Weights, cap: real)
    requires WithinCap(w, cap)
    ensures Capped(w, cap) == w
  {
    var v := Capped(w, cap);
    assert v.Keys == w.Keys;
    forall t | t in w ensures v[t] == w[t] {
      assert Abs(w[t]) <= cap;
    }
  }

  /** Limited weights pass through the limits unchanged, and no limit fires on them. */
  lemma LimitsAreIdempotent(w: Weights, l: Limits)
    requires l.Valid()
    ensures Limited(Limited(w, l), l) == Limited(w, l) && Clamps(Limited(w, l), l) == []
  {
    var v := Limited(w, l);
    LimitsOnlyShrink(w, l);
    hide Limited, BookGross, WithinCap, Capped, Names;
    CappedAlready(v, l.maxPosition);
    NoCapFires(Names(v), v, l.maxPosition);
    LimitedAlready(v, l);
  }

  lemma LimitedAlready(v: Weights, l: Limits)
    requires l.Valid() && Capped(v, l.maxPosition) == v && BookGross(v) <= l.maxGross
    ensures Limited(v, l) == v
  {
  }

  lemma {:induction false} NoCapFires(ts: seq<int>, w: Weights, cap: real)
    requires Covers(w, ts) && WithinCap(w, cap)
    ensures PositionCaps(ts, w, cap) == []
  {
    if ts != [] {
      NoCapFires(ts[..|ts| - 1], w, cap);
    }
  }

  // ----- blending one sleeve

  /** One analyst's vote on one ticker, with the model's blend weight. */
  datatype Vote = Vote(ticker: int, weight: real, value: real, abstained: bool)

  function WeightTotal(votes: seq<Vote>, t: int): real {
    if votes == [] then 0.0
    else
      var v := votes[|votes| - 1];
      WeightTotal(votes[..|votes| - 1], t) + if v.ticker == t && !v.abstained then v.weight else 0.0
  }

  function WeightedSum(votes: seq<Vote>, t: int): real {
    if votes == [] then 0.0
    else
      var v := votes[|votes| - 1];
      WeightedSum(votes[..|votes| - 1], t) + if v.ticker == t && !v.abstained then Times(v.weight, v.value) else 0.0
  }

  function Conviction(votes: seq<Vote>, t: int): real {
    if WeightTotal(votes, t) != 0.0 then WeightedSum(votes, t) / WeightTotal(votes, t) else 0.0
  }

  function Tickers(votes: seq<Vote>): set<int> {
    set v | v in votes :: v.ticker
  }

  function Convictions(votes: seq<Vote>): Weights {
    map t | t in Tickers(votes) :: Conviction(votes, t)
  }

  function Demeaned(c: Weights): Weights {
    if |c| == 0 then c
    else
      var mean := Total(Names(c), c) / |c| as real;
      map t | t in c :: c[t] - mean
  }

  /** What is blended: the convictions, demeaned in a market-neutral sleeve. */
  function Views(votes: seq<Vote>, marketNeutral: bool): Weights {
    if marketNeutral then Demeaned(Convictions(votes)) else Convictions(votes)
  }

  const NO_VIEW := 0.000000001

  /** The sleeve's weights: convictions, perhaps demeaned, scaled to the gross target. */
  function Blend(votes: seq<Vote>, grossTarget: real, marketNeutral: bool): Weights {
    var scaled := Views(votes, marketNeutral);
    var gross := BookGross(scaled);
    if gross < NO_VIEW then map t | t in Convictions(votes) :: 0.0
    else map t | t in scaled :: Times(scaled[t] / gross, grossTarget)
  }

  lemma {:induction false} GrossOfNone(ts: seq<int>, w: Weights)
    requires Covers(w, ts) && forall k :: 0 <= k < |ts| ==> w[ts[k]] == 0.0
    ensures Gross(ts, w) == 0.0
  {
    if ts != [] {
      GrossOfNone(ts[..|ts| - 1], w);
    }
  }

  lemma ShareOf(a: real, gross: real, target: real)
    requires gross > 0.0
    ensures Times(a / gross, target) == Times(a, target / gross)
  {
  }

  /** The sleeve is its views, scaled. */
  lemma BlendScales(votes: seq<Vote>, grossTarget: real, marketNeutral: bool)
    requires BookGross(Views(votes, marketNeutral)) >= NO_VIEW
    ensures var views := Views(votes, marketNeutral);
            Blend(votes, grossTarget, marketNeutral) == Scaled(views, grossTarget / BookGross(views))
  {
    var views := Views(votes, marketNeutral);
    hide BookGross;
    var gross := BookGross(views);
    forall t | t in views ensures Times(views[t] / gross, grossTarget) == Times(views[t], grossTarget / gross) {
      ShareOf(views[t], gross, grossTarget);
    }
  }

  lemma FlatBook(w: Weights)
    requires forall t :: t in w ==> w[t] == 0.0
    ensures BookGross(w) == 0.0 && Total(Names(w), w) == 0.0
  {
    GrossOfNone(Names(w), w);
    TotalOfNone(Names(w), w);
  }

  lemma {:induction false} TotalOfNone(ts: seq<int>, w: Weights)
    requires Covers(w, ts) && forall k :: 0 <= k < |ts| ==> w[ts[k]] == 0.0
    ensures Total(ts, w) == 0.0
  {
    if ts != [] {
      TotalOfNone(ts[..|ts| - 1], w);
    }
  }

  /** A sleeve deploys exactly its gross target, or nothing when there is no view. */
  lemma BlendDeploysItsTarget(votes: seq<Vote>, grossTarget: real, marketNeutral: bool)
    requires grossTarget >= 0.0
    ensures BookGross(Blend(votes, grossTarget, marketNeutral))
         == if BookGross(Views(votes, marketNeutral)) < 0.000000001 then 0.0 else grossTarget
  {
    var views := Views(votes, marketNeutral);
    if BookGross(views) < NO_VIEW {
      FlatBook(Blend(votes, grossTarget, marketNeutral));
    } else {
      BlendScales(votes, grossTarget, marketNeutral);
      hide BookGross, Blend, Views;
      Ratio(grossTarget, BookGross(views));
      ScaledBook(views, grossTarget / BookGross(views));
    }
  }

  lemma {:induction false} AbstentionsAreNotVotes(votes: seq<Vote>, t: int)
    ensures WeightTotal(Voting(votes), t) == WeightTotal(votes, t)
    ensures WeightedSum(Voting(votes), t) == WeightedSum(votes, t)
  {
    if votes != [] {
      AbstentionsAreNotVotes(votes[..|votes| - 1], t);
      var front, v := Voting(votes[..|votes| - 1]), votes[|votes| - 1];
      assert (front + [v])[..|front|] == front;
    }
  }

  function Voting(votes: seq<Vote>): seq<Vote> {
    if votes == [] then []
    else
      var front := Voting(votes[..|votes| - 1]);
      if votes[|votes| - 1].abstained then front else front + [votes[|votes| - 1]]
  }

  /** An abstention leaves every conviction where it was. */
  lemma AbstainingChangesNothing(votes: seq<Vote>, t: int)
    ensures Conviction(votes, t) == Conviction(Voting(votes), t)
  {
    AbstentionsAreNotVotes(votes, t);
  }

  lemma VoteBound(v: Vote, lo: real, hi: real)
    requires v.weight > 0.0 && lo <= v.value <= hi
    ensures Times(v.weight, lo) <= Times(v.weight, v.value) <= Times(v.weight, hi)
  {
    MulLe(lo, v.value, v.weight);
    MulLe(v.value, hi, v.weight);
  }

  /** The vote is about `t` and not an abstention. */
  predicate Counts(v: Vote, t: int) {
    v.ticker == t && !v.abstained
  }

  /** Every vote that counts for `t` has a weight and a value between the two. */
  ghost predicate VotesWithin(votes: seq<Vote>, t: int, lo: real, hi: real) {
    forall k :: 0 <= k < |votes| && Counts(votes[k], t) ==> votes[k].weight > 0.0 && lo <= votes[k].value <= hi
  }

  lemma {:induction false} VotesBound(votes: seq<Vote>, t: int, lo: real, hi: real)
    requires VotesWithin(votes, t, lo, hi)
    ensures WeightTotal(votes, t) >= 0.0
    ensures WeightTotal(votes, t) > 0.0 <==> exists k :: 0 <= k < |votes| && Counts(votes[k], t)
    ensures Times(WeightTotal(votes, t), lo) <= WeightedSum(votes, t) <= Times(WeightTotal(votes, t), hi)
  {
    if votes != [] {
      var front, v := votes[..|votes| - 1], votes[|votes| - 1];
      VotesBound(front, t, lo, hi);
      assert forall k :: 0 <= k < |front| ==> front[k] == votes[k];
      if Counts(v, t) {
        VoteBound(v, lo, hi);
        Distributes(WeightTotal(front, t), v.weight, lo);
        Distributes(WeightTotal(front, t), v.weight, hi);
      }
      hide Times;
    } else {
      assert Times(0.0, lo) == 0.0 && Times(0.0, hi) == 0.0;
    }
  }

  lemma Cancel(c: real, a: real, b: real)
    requires c > 0.0 && Times(c, a) <= Times(c, b)
    ensures a <= b
  {
    assert c * (a - b) == c * a - c * b;
    if a > b {
      MulPos(c, a - b);
    }
  }

  lemma MeanBetween(sum: real, total: real, lo: real, hi: real)
    requires total > 0.0 && Times(total, lo) <= sum <= Times(total, hi)
    ensures lo <= sum / total <= hi
  {
    Ratio(sum, total);
    Cancel(total, lo, sum / total);
    Cancel(total, sum / total, hi);
  }

  /** A conviction lies between the votes it blends, whatever their weights; without any it is
      zero. */
  lemma ConvictionIsAMean(votes: seq<Vote>, t: int, lo: real, hi: real)
    requires VotesWithin(votes, t, lo, hi)
    ensures if exists k :: 0 <= k < |votes| && Counts(votes[k], t) then lo <= Conviction(votes, t) <= hi
            else Conviction(votes, t) == 0.0
  {
    VotesBound(votes, t, lo, hi);
    if WeightTotal(votes, t) > 0.0 {
      MeanBetween(WeightedSum(votes, t), WeightTotal(votes, t), lo, hi);
    }
  }

  lemma {:induction false} TotalShifts(ts: seq<int>, w: Weights, v: Weights, shift: real)
    requires Covers(w, ts) && Covers(v, ts) && forall k :: 0 <= k < |ts| ==> v[ts[k]] == w[ts[k]] - shift
    ensures Total(ts, v) == Total(ts, w) - Times(shift, |ts| as real)
  {
    if ts != [] {
      assert Times(shift, |ts| as real) == Times(shift, (|ts| - 1) as real) + shift;
      TotalShifts(ts[..|ts| - 1], w, v, shift);
    }
  }

  lemma {:induction false} TotalScales(ts: seq<int>, w: Weights, k: real)
    requires Covers(w, ts)
    ensures Total(ts, Scaled(w, k)) == Times(Total(ts, w), k)
  {
    if ts != [] {
      var last := ts[|ts| - 1];
      Distributes(Total(ts[..|ts| - 1], w), w[last], k);
      TotalScales(ts[..|ts| - 1], w, k);
    }
  }

  lemma {:induction false} OrderIsWhole(s: set<int>)
    ensures |InOrder(s)| == |s|
    decreases |s|
  {
    if s != {} {
      OrderIsWhole(s - {First(s)});
    }
  }

  lemma NamesCount(w: Weights)
    ensures |Names(w)| == |w|
  {
    OrderIsWhole(w.Keys);
    assert |w.Keys| == |w|;
  }

  /** A market-neutral sleeve sums to no dollars. */
  lemma NeutralSleeveSumsToZero(votes: seq<Vote>, grossTarget: real)
    ensures var w := Blend(votes, grossTarget, true); Total(Names(w), w) == 0.0
  {
    var d := Views(votes, true);
    if BookGross(d) < NO_VIEW {
      FlatBook(Blend(votes, grossTarget, true));
    } else {
      var k := grossTarget / BookGross(d);
      BlendScales(votes, grossTarget, true);
      DemeanedTotal(Convictions(votes));
      hide Blend, BookGross, Names, Total;
      assert Scaled(d, k).Keys == d.Keys;
      TotalScales(Names(d), d, k);
      assert Times(0.0, k) == 0.0;
    }
  }

  lemma DemeanedTotal(c: Weights)
    ensures Demeaned(c).Keys == c.Keys && Total(Names(c), Demeaned(c)) == 0.0
  {
    var ts, d := Names(c), Demeaned(c);
    assert d.Keys == c.Keys;
    NamesCount(c);
    if |c| != 0 {
      var mean := Total(ts, c) / |c| as real;
      Ratio(Total(ts, c), |c| as real);
      assert Times(mean, |c| as real) == Total(ts, c);
      hide Names, Total, Times;
      TotalShifts(ts, c, d, mean);
    }
  }

  // ----- netting the sleeves

  /** A strategy's capital slice before normalising, and its sleeve. */
  datatype Sleeve = Sleeve(weight: real, weights: Weights)

  function SliceTotal(sleeves: seq<Sleeve>): real {
    if sleeves == [] then 0.0 else SliceTotal(sleeves[..|sleeves| - 1]) + sleeves[|sleeves| - 1].weight
  }

  function WeightIn(s: Sleeve, t: int): real {
    if t in s.weights then s.weights[t] else 0.0
  }

  /** The netted weight of one ticker over the first `|sleeves|` slices of `total`. */
  function Net(sleeves: seq<Sleeve>, total: real, t: int): real
    requires total > 0.0
  {
    if sleeves == [] then 0.0
    else
      var s := sleeves[|sleeves| - 1];
      Net(sleeves[..|sleeves| - 1], total, t) + Times(s.weight / total, WeightIn(s, t))
  }

  function Netted(tradeable: set<int>, sleeves: seq<Sleeve>): Weights
    requires SliceTotal(sleeves) > 0.0
  {
    map t | t in tradeable :: Net(sleeves, SliceTotal(sleeves), t)
  }

  /** The netted weight of one ticker over the first `k` sleeves. */
  ghost function NetTo(sleeves: seq<Sleeve>, k: nat, t: int): real
    requires SliceTotal(sleeves) > 0.0 && k <= |sleeves|
  {
    Net(sleeves[..k], SliceTotal(sleeves), t)
  }

  ghost predicate NettedSoFar(netted: Weights, tradeable: set<int>, sleeves: seq<Sleeve>, k: nat)
    requires SliceTotal(sleeves) > 0.0 && k <= |sleeves|
  {
    netted.Keys == tradeable && forall t :: t in tradeable ==> netted[t] == NetTo(sleeves, k, t)
  }

  /** One sleeve more adds its share of its weight, and nothing where it has none. */
  lemma NetNext(sleeves: seq<Sleeve>, k: nat, slice: real, t: int)
    requires SliceTotal(sleeves) > 0.0 && k < |sleeves| && slice == sleeves[k].weight / SliceTotal(sleeves)
    ensures NetTo(sleeves, k + 1, t) == NetTo(sleeves, k, t)
         + if t in sleeves[k].weights then Times(slice, sleeves[k].weights[t]) else 0.0
  {
    assert sleeves[..k + 1][..k] == sleeves[..k];
    assert Times(slice, 0.0) == 0.0;
    hide Times, SliceTotal;
  }

  lemma NettingEnds(netted: Weights, tradeable: set<int>, sleeves: seq<Sleeve>)
    requires SliceTotal(sleeves) > 0.0 && NettedSoFar(netted, tradeable, sleeves, |sleeves|)
    ensures netted == Netted(tradeable, sleeves)
  {
    hide Net, SliceTotal;
    assert sleeves[..|sleeves|] == sleeves;
  }

  /** The netting loop, sleeve by sleeve. */
  method NetSleeves(tradeable: set<int>, sleeves: seq<Sleeve>) returns (netted: Weights)
    requires SliceTotal(sleeves) > 0.0 && forall s :: s in sleeves ==> s.weights.Keys <= tradeable
    ensures netted == Netted(tradeable, sleeves)
  {
    var total := SliceTotal(sleeves);
    netted := map t | t in tradeable :: 0.0;
    var k := 0;
    assert sleeves[..0] == [];
    hide SliceTotal, Netted, Times;
    while k < |sleeves|
      invariant 0 <= k <= |sleeves| && NettedSoFar(netted, tradeable, sleeves, k)
    {
      hide NetTo;
      var s := sleeves[k];
      var slice := s.weight / total;
      forall t | t in tradeable
        ensures NetTo(sleeves, k + 1, t) ==
                NetTo(sleeves, k, t) + if t in s.weights then Times(slice, s.weights[t]) else 0.0
      {
        NetNext(sleeves, k, slice, t);
      }
      netted := map t | t in tradeable :: netted[t] + if t in s.weights then Times(slice, s.weights[t]) else 0.0;
      k := k + 1;
    }
    NettingEnds(netted, tradeable, sleeves);
  }

  ghost predicate LongOnly(w: Weights) {
    forall t :: t in w ==> w[t] >= 0.0
  }

  lemma TimesIsPositive(a: real, k: real)
    requires a >= 0.0 && k >= 0.0
    ensures Times(a, k) >= 0.0
  {
  }

  /** Votes that are never negative make a sleeve without shorts. */
  lemma PositiveVotesMakeALongSleeve(votes: seq<Vote>, grossTarget: real)
    requires grossTarget >= 0.0 && forall v :: v in votes ==> v.weight > 0.0 && 0.0 <= v.value <= 1.0
    ensures LongOnly(Blend(votes, grossTarget, false))
  {
    var views := Convictions(votes);
    forall t | t in views ensures views[t] >= 0.0 {
      ConvictionIsAMean(votes, t, 0.0, 1.0);
    }
    if BookGross(views) >= NO_VIEW {
      var k := grossTarget / BookGross(views);
      BlendScales(votes, grossTarget, false);
      Ratio(grossTarget, BookGross(views));
      forall t | t in views ensures Times(views[t], k) >= 0.0 {
        TimesIsPositive(views[t], k);
      }
    }
  }

  lemma {:induction false} NetIsPositive(sleeves: seq<Sleeve>, total: real, t: int)
    requires total > 0.0 && forall s :: s in sleeves ==> s.weight > 0.0 && LongOnly(s.weights)
    ensures Net(sleeves, total, t) >= 0.0
  {
    if sleeves != [] {
      var front, s := sleeves[..|sleeves| - 1], sleeves[|sleeves| - 1];
      assert sleeves == front + [s] && s in sleeves;
      NetIsPositive(front, total, t);
      Ratio(s.weight, total);
      TimesIsPositive(s.weight / total, WeightIn(s, t));
    }
  }

  lemma NettingKeepsLong(tradeable: set<int>, sleeves: seq<Sleeve>)
    requires SliceTotal(sleeves) > 0.0 && forall s :: s in sleeves ==> s.weight > 0.0 && LongOnly(s.weights)
    ensures LongOnly(Netted(tradeable, sleeves))
  {
    forall t | t in tradeable ensures Net(sleeves, SliceTotal(sleeves), t) >= 0.0 {
      NetIsPositive(sleeves, SliceTotal(sleeves), t);
    }
  }

  /** The gross exposure over `ts` of the netted sleeves, and of one sleeve. */
  function NetGross(ts: seq<int>, sleeves: seq<Sleeve>, total: real): real
    requires total > 0.0
  {
    if ts == [] then 0.0 else NetGross(ts[..|ts| - 1], sleeves, total) + Abs(Net(sleeves, total, ts[|ts| - 1]))
  }

  function SleeveGross(ts: seq<int>, s: Sleeve): real {
    if ts == [] then 0.0 else SleeveGross(ts[..|ts| - 1], s) + Abs(WeightIn(s, ts[|ts| - 1]))
  }

  lemma AbsOfSum(a: real, b: real, k: real)
    requires k >= 0.0
    ensures Abs(a + Times(k, b)) <= Abs(a) + Times(k, Abs(b))
  {
    ScaleOne(b, k);
    assert Times(k, b) == Times(b, k) && Times(k, Abs(b)) == Times(Abs(b), k);
  }

  lemma DistributesRight(k: real, a: real, b: real)
    ensures Times(k, a + b) == Times(k, a) + Times(k, b)
  {
  }

  lemma {:induction false} OneMoreSleeve(ts: seq<int>, sleeves: seq<Sleeve>, total: real)
    requires total > 0.0 && sleeves != [] && sleeves[|sleeves| - 1].weight > 0.0
    ensures var s := sleeves[|sleeves| - 1];
            NetGross(ts, sleeves, total)
            <= NetGross(ts, sleeves[..|sleeves| - 1], total) + Times(s.weight / total, SleeveGross(ts, s))
  {
    var front, s := sleeves[..|sleeves| - 1], sleeves[|sleeves| - 1];
    var slice := s.weight / total;
    if ts == [] {
      assert Times(slice, 0.0) == 0.0;
    } else {
      var t := ts[|ts| - 1];
      OneMoreSleeve(ts[..|ts| - 1], sleeves, total);
      Ratio(s.weight, total);
      AbsOfSum(Net(front, total, t), WeightIn(s, t), slice);
      assert Net(sleeves, total, t) == Net(front, total, t) + Times(slice, WeightIn(s, t));
      DistributesRight(slice, SleeveGross(ts[..|ts| - 1], s), Abs(WeightIn(s, t)));
      hide Net, Times, WeightIn, Abs;
    }
  }

  lemma SliceBound(slice: real, gross: real, most: real)
    requires slice >= 0.0 && gross <= most
    ensures Times(slice, gross) <= Times(most, slice)
  {
    MulLe(gross, most, slice);
  }

  lemma {:induction false} NetGrossBound(ts: seq<int>, sleeves: seq<Sleeve>, total: real, most: real)
    requires total > 0.0
    requires forall s :: s in sleeves ==> s.weight > 0.0 && SleeveGross(ts, s) <= most
    ensures NetGross(ts, sleeves, total) <= Times(most, SliceTotal(sleeves) / total)
  {
    if sleeves == [] {
      NoSleeves(ts, total);
      assert Times(most, 0.0 / total) == 0.0;
    } else {
      var front, s := sleeves[..|sleeves| - 1], sleeves[|sleeves| - 1];
      assert sleeves == front + [s] && s in sleeves;
      NetGrossBound(ts, front, total, most);
      OneMoreSleeve(ts, sleeves, total);
      Ratio(s.weight, total);
      SliceBound(s.weight / total, SleeveGross(ts, s), most);
      SlicesAdd(SliceTotal(front), s.weight, total, most);
    }
  }

  lemma SlicesAdd(a: real, b: real, total: real, most: real)
    requires total > 0.0
    ensures Times(most, (a + b) / total) == Times(most, a / total) + Times(most, b / total)
  {
    assert (a + b) / total == a / total + b / total;
  }

  lemma {:induction false} NoSleeves(ts: seq<int>, total: real)
    requires total > 0.0
    ensures NetGross(ts, [], total) == 0.0
  {
    if ts != [] {
      NoSleeves(ts[..|ts| - 1], total);
    }
  }

  lemma {:induction false} NetGrossIsGross(ts: seq<int>, w: Weights, sleeves: seq<Sleeve>, total: real)
    requires total > 0.0 && Covers(w, ts) && forall k :: 0 <= k < |ts| ==> w[ts[k]] == Net(sleeves, total, ts[k])
    ensures Gross(ts, w) == NetGross(ts, sleeves, total)
  {
    if ts != [] {
      NetGrossIsGross(ts[..|ts| - 1], w, sleeves, total);
    }
  }

  /** Netting by capital slice never lifts the gross exposure over the sleeves' own. */
  lemma NettingKeepsTheGross(tradeable: set<int>, sleeves: seq<Sleeve>, most: real)
    requires SliceTotal(sleeves) > 0.0
    requires forall s :: s in sleeves ==>
               s.weight > 0.0 && SleeveGross(Names(Netted(tradeable, sleeves)), s) <= most
    ensures BookGross(Netted(tradeable, sleeves)) <= most
  {
    var w, total := Netted(tradeable, sleeves), SliceTotal(sleeves);
    NetGrossIsGross(Names(w), w, sleeves, total);
    NetGrossBound(Names(w), sleeves, total, most);
    assert total / total == 1.0;
    assert Times(most, 1.0) == most;
  }

  // ----- no more than it must

  lemma ClampOneIs(w: real, cap: real)
    requires cap > 0.0
    ensures var c := ClampOne(w, cap);
            && (Abs(w) <= cap ==> c == w)
            && (Abs(w) > cap ==> Abs(c) == cap && (c > 0.0 <==> w > 0.0))
  {
  }

  /** Two scaled weights stand to each other as they did. */
  lemma SameShares(a: real, b: real, k: real)
    ensures Times(Times(a, k), b) == Times(Times(b, k), a)
  {
  }

  /** The limits cut exactly what is over: a weight over the cap is at the cap on its own side, any
      other as it was. When that leaves the book over its gross cap the book is at that cap, and
      all weights are cut in one proportion. */
  lemma LimitsCutWhatIsOver(w: Weights, l: Limits)
    requires l.Valid()
    ensures var v, c := Limited(w, l), Capped(w, l.maxPosition);
            && v.Keys == c.Keys == w.Keys
            && (forall t :: t in w && Abs(w[t]) <= l.maxPosition ==> c[t] == w[t])
            && (forall t :: t in w && Abs(w[t]) > l.maxPosition ==>
                  Abs(c[t]) == l.maxPosition && (c[t] > 0.0 <==> w[t] > 0.0))
            && (BookGross(c) <= l.maxGross ==> v == c)
            && (BookGross(c) > l.maxGross ==>
                  && BookGross(v) == l.maxGross
                  && forall t, u :: t in w && u in w ==> Times(v[t], c[u]) == Times(v[u], c[t]))
  {
    var c := Capped(w, l.maxPosition);
    assert c.Keys == w.Keys;
    forall t | t in w
      ensures Abs(w[t]) <= l.maxPosition ==> c[t] == w[t]
      ensures Abs(w[t]) > l.maxPosition ==> Abs(c[t]) == l.maxPosition && (c[t] > 0.0 <==> w[t] > 0.0)
    {
      ClampOneIs(w[t], l.maxPosition);
    }
    hide BookGross, Capped, Times, ClampOne;
    if BookGross(c) > l.maxGross {
      var k := l.maxGross / BookGross(c);
      Ratio(l.maxGross, BookGross(c));
      ScaledBook(c, k);
      forall t, u | t in w && u in w ensures Times(Times(c[t], k), c[u]) == Times(Times(c[u], k), c[t]) {
        SameShares(c[t], c[u], k);
      }
    }
  }

  lemma {:induction false} CapsListed(ts: seq<int>, w: Weights, cap: real, e: Clamp)
    requires Covers(w, ts) && cap > 0.0
    ensures e in PositionCaps(ts, w, cap) <==>
            && e.PositionCap? && e.ticker in ts && Abs(w[e.ticker]) > cap
            && e.before == w[e.ticker] && e.after == ClampOne(w[e.ticker], cap)
  {
    if ts != [] {
      CapsListed(ts[..|ts| - 1], w, cap, e);
      assert ts == ts[..|ts| - 1] + [ts[|ts| - 1]];
    }
  }

  /** The record of the clamps is complete and lists nothing else: each weight over the cap with
      what it was and became, and the book's gross when it was over. */
  lemma EveryClampIsListed(w: Weights, l: Limits, e: Clamp)
    requires l.Valid()
    ensures e in Clamps(w, l) <==>
            var c := Capped(w, l.maxPosition);
            match e
            case PositionCap(t, before, after) =>
              t in w && Abs(w[t]) > l.maxPosition && before == w[t] && after == c[t]
            case GrossCap(before, after) => before == BookGross(c) > l.maxGross == after
  {
    CapsListed(Names(w), w, l.maxPosition, e);
  }

  lemma Spread(a: real, b: real, gross: real, target: real)
    requires gross > 0.0
    ensures Times(Times(a / gross, target) - Times(b / gross, target), gross) == Times(a - b, target)
  {
    var x, y := a / gross, b / gross;
    assert x * gross == a && y * gross == b;
    assert (x * target - y * target) * gross == (x * gross - y * gross) * target;
  }

  /** Two weights of a sleeve differ as their convictions do, market-neutral or not; one that is
      not demeaned gives each conviction its own share. */
  lemma WeightsFollowConvictions(votes: seq<Vote>, grossTarget: real, marketNeutral: bool, t: int, u: int)
    requires t in Tickers(votes) && u in Tickers(votes) && BookGross(Views(votes, marketNeutral)) >= NO_VIEW
    ensures var w, gross := Blend(votes, grossTarget, marketNeutral), BookGross(Views(votes, marketNeutral));
            && t in w && u in w
            && Times(w[t] - w[u], gross) == Times(Conviction(votes, t) - Conviction(votes, u), grossTarget)
            && (!marketNeutral ==> Times(w[t], gross) == Times(Conviction(votes, t), grossTarget))
  {
    var views := Views(votes, marketNeutral);
    hide BookGross, Times, Conviction, Views, Blend;
    ViewsDiffer(votes, marketNeutral, t, u);
    BlendAt(votes, grossTarget, marketNeutral, t);
    BlendAt(votes, grossTarget, marketNeutral, u);
    Spread(views[t], views[u], BookGross(views), grossTarget);
    NoShare(BookGross(views), grossTarget);
    Spread(views[t], 0.0, BookGross(views), grossTarget);
  }

  lemma BlendAt(votes: seq<Vote>, grossTarget: real, marketNeutral: bool, t: int)
    requires t in Views(votes, marketNeutral) && BookGross(Views(votes, marketNeutral)) >= NO_VIEW
    ensures var views, w := Views(votes, marketNeutral), Blend(votes, grossTarget, marketNeutral);
            t in w && w[t] == Times(views[t] / BookGross(views), grossTarget)
  {
    hide BookGross, Times, Views;
  }

  lemma NoShare(gross: real, target: real)
    requires gross > 0.0
    ensures Times(0.0 / gross, target) == 0.0
  {
  }

  lemma ViewsDiffer(votes: seq<Vote>, marketNeutral: bool, t: int, u: int)
    requires t in Tickers(votes) && u in Tickers(votes)
    ensures var views := Views(votes, marketNeutral);
            && t in views && u in views && views[t] - views[u] == Conviction(votes, t) - Conviction(votes, u)
            && (!marketNeutral ==> views[t] == Conviction(votes, t))
  {
    hide Conviction;
  }

  /** A vote cut in two of the same value counts as it did. */
  lemma SplitVoteCountsOnce(votes: seq<Vote>, v: Vote, part: real, t: int)
    ensures var two := votes + [v.(weight := part)] + [v.(weight := v.weight - part)];
            Conviction(two, t) == Conviction(votes + [v], t)
  {
    var first, second := v.(weight := part), v.(weight := v.weight - part);
    var one, two := votes + [first], votes + [first] + [second];
    VoteAdds(votes, v, t);
    VoteAdds(votes, first, t);
    VoteAdds(one, second, t);
    SplitProduct(v.weight, part, v.value);
    hide WeightTotal, WeightedSum, Times;
  }

  lemma VoteAdds(votes: seq<Vote>, v: Vote, t: int)
    ensures var counted := v.ticker == t && !v.abstained;
            && WeightTotal(votes + [v], t) == WeightTotal(votes, t) + (if counted then v.weight else 0.0)
            && WeightedSum(votes + [v], t) ==
               WeightedSum(votes, t) + (if counted then Times(v.weight, v.value) else 0.0)
  {
    assert (votes + [v])[..|votes|] == votes;
  }

  lemma SplitProduct(whole: real, part: real, value: real)
    ensures Times(whole, value) == Times(part, value) + Times(whole - part, value)
  {
    Distributes(part, whole - part, value);
  }

  /** A sleeve cut in two of the same weights nets as it did: capital counts, not the number of
      sleeves. */
  lemma SplitSleeveNetsOnce(sleeves: seq<Sleeve>, s: Sleeve, part: real, total: real, t: int)
    requires total > 0.0
    ensures var two := sleeves + [s.(weight := part)] + [s.(weight := s.weight - part)];
            Net(two, total, t) == Net(sleeves + [s], total, t) && SliceTotal(two) == SliceTotal(sleeves + [s])
  {
    var first, second := s.(weight := part), s.(weight := s.weight - part);
    var one, two := sleeves + [first], sleeves + [first] + [second];
    assert two[..|two| - 1] == one && one[..|one| - 1] == sleeves && (sleeves + [s])[..|sleeves|] == sleeves;
    assert part / total + (s.weight - part) / total == s.weight / total;
    Distributes(part / total, (s.weight - part) / total, WeightIn(s, t));
  }

  /** Sleeves that agree on a ticker net to what they agree on. */
  lemma {:induction false} AgreeingSleevesNet(sleeves: seq<Sleeve>, total: real, t: int, x: real)
    requires total > 0.0 && forall k :: 0 <= k < |sleeves| ==> WeightIn(sleeves[k], t) == x
    ensures Net(sleeves, total, t) == Times(SliceTotal(sleeves) / total, x)
  {
    if sleeves == [] {
      assert Times(0.0 / total, x) == 0.0;
    } else {
      var front, s := sleeves[..|sleeves| - 1], sleeves[|sleeves| - 1];
      AgreeingSleevesNet(front, total, t, x);
      assert SliceTotal(front) / total + s.weight / total == SliceTotal(sleeves) / total;
      Distributes(SliceTotal(front) / total, s.weight / total, x);
      hide Times, WeightIn;
    }
  }
}
