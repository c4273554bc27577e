/** A whole tick of the fund, from the votes of each strategy's analysts to the fills. */
module FundDesk {
  import opened FundWeights
  import opened FundBook
  import opened Ordering
  import opened Wrappers

  /** A strategy's share of the capital, its analysts' votes this tick and how it blends them. */
  datatype Strategy = Strategy(weight: real, votes: seq<Vote>, grossTarget: real, marketNeutral: bool)

  function SleeveOf(s: Strategy): Sleeve {
    Sleeve(s.weight, Blend(s.votes, s.grossTarget, s.marketNeutral))
  }

  function SleevesOf(desk: seq<Strategy>): (sleeves: seq<Sleeve>)
    ensures |sleeves| == |desk| && forall k :: 0 <= k < |desk| ==> sleeves[k] == SleeveOf(desk[k])
  {
    seq(|desk|, k requires 0 <= k < |desk| => SleeveOf(desk[k]))
  }

  /** Slices are positive, and the analysts are asked about the priced universe only. */
  ghost predicate Staffed(desk: seq<Strategy>, tradeable: set<int>) {
    && desk != []
    && forall k :: 0 <= k < |desk| ==> desk[k].weight > 0.0 && Tickers(desk[k].votes) <= tradeable
  }

  lemma {:induction false} SlicesArePositive(sleeves: seq<Sleeve>)
    requires sleeves != [] && forall k :: 0 <= k < |sleeves| ==> sleeves[k].weight > 0.0
    ensures SliceTotal(sleeves) > 0.0
  {
    if |sleeves| > 1 {
      SlicesArePositive(sleeves[..|sleeves| - 1]);
    } else {
      assert SliceTotal(sleeves[..0]) == 0.0;
    }
  }

  lemma BlendNames(votes: seq<Vote>, grossTarget: real, marketNeutral: bool)
    ensures Blend(votes, grossTarget, marketNeutral).Keys == Tickers(votes)
  {
  }

  /** The tick that a desk's votes come to. */
  function TickOf(universe: set<int>, marks: Marks, desk: seq<Strategy>): Tick
    requires SliceTotal(SleevesOf(desk)) > 0.0
  {
    Tick(universe, marks, Netted(universe * marks.Keys, SleevesOf(desk)))
  }

  /** One tick as the program performs it: blend each sleeve, net them, trade. */
  method RunDesk(broker: SimBroker, universe: set<int>, marks: Marks, desk: seq<Strategy>, l: Limits)
    returns (r: Result<real, Failure>)
    requires Staffed(desk, universe * marks.Keys) && l.Valid() && forall t :: t in marks ==> marks[t] > 0.0
    modifies broker
    ensures SliceTotal(SleevesOf(desk)) > 0.0
    ensures var b0 := old(broker.View());
            var c := RunCycle(b0, TickOf(universe, marks, desk), l);
            && (c.Failure? ==> r == Result.Failure(c.error) && broker.View() == old(broker.View()))
            && (c.Success? ==> broker.View() == c.value && b0.shares.Keys <= marks.Keys
                               && r == Success(NavAt(c.value, b0, TickOf(universe, marks, desk))))
  {
    hide RunCycle, Blend, SliceTotal, Tickers, NavAt, Net;
    var sleeves: seq<Sleeve> := [];
    for k := 0 to |desk|
      invariant |sleeves| == k && forall j :: 0 <= j < k ==> sleeves[j] == SleeveOf(desk[j])
    {
      sleeves := sleeves + [Sleeve(desk[k].weight, Blend(desk[k].votes, desk[k].grossTarget, desk[k].marketNeutral))];
    }
    assert sleeves == SleevesOf(desk);
    SlicesArePositive(sleeves);
    forall s | s in sleeves ensures s.weights.Keys <= universe * marks.Keys {
      var k :| 0 <= k < |sleeves| && sleeves[k] == s;
      BlendNames(desk[k].votes, desk[k].grossTarget, desk[k].marketNeutral);
    }
    var netted := NetSleeves(universe * marks.Keys, sleeves);
    r := RunTick(broker, Tick(universe, marks, netted), l);
  }

  // ----- a desk that never votes short

  ghost predicate Bullish(s: Strategy) {
    && s.grossTarget >= 0.0 && !s.marketNeutral
    && forall v :: v in s.votes ==> v.weight > 0.0 && 0.0 <= v.value <= 1.0
  }

  /** What one tick is given. */
  datatype Session = Session(universe: set<int>, marks: Marks, desk: seq<Strategy>)
  {
    ghost predicate Valid() {
      && (forall t :: t in marks ==> marks[t] > 0.0) && Staffed(desk, universe * marks.Keys)
      && forall k :: 0 <= k < |desk| ==> Bullish(desk[k])
    }
  }

  lemma DeskIsLong(s: Session)
    requires s.Valid()
    ensures SliceTotal(SleevesOf(s.desk)) > 0.0
    ensures TickOf(s.universe, s.marks, s.desk).Valid() && LongOnly(TickOf(s.universe, s.marks, s.desk).netted)
  {
    var sleeves := SleevesOf(s.desk);
    SlicesArePositive(sleeves);
    forall x | x in sleeves ensures x.weight > 0.0 && LongOnly(x.weights) {
      var k :| 0 <= k < |sleeves| && sleeves[k] == x;
      PositiveVotesMakeALongSleeve(s.desk[k].votes, s.desk[k].grossTarget);
    }
    NettingKeepsLong(s.universe * s.marks.Keys, sleeves);
  }

  function TickOfSession(s: Session): Tick {
    if SliceTotal(SleevesOf(s.desk)) > 0.0 then TickOf(s.universe, s.marks, s.desk)
    else Tick(s.universe, s.marks, map[])
  }

  function TicksOf(sessions: seq<Session>): (ticks: seq<Tick>)
    ensures |ticks| == |sessions| && forall k :: 0 <= k < |ticks| ==> ticks[k] == TickOfSession(sessions[k])
  {
    seq(|sessions|, k requires 0 <= k < |sessions| => TickOfSession(sessions[k]))
  }

  /** A fund whose analysts never vote short and whose limits allow no leverage can always size its
      book, from the votes of every tick to come and at any positive marks. */
  lemma ABullishDeskNeverRunsOut(b: Sim, sessions: seq<Session>, l: Limits)
    requires l.Valid() && l.maxGross <= 1.0 && Alive(b)
    requires forall k :: 0 <= k < |sessions| ==> sessions[k].Valid()
    ensures forall k :: 0 <= k < |sessions| ==> TicksOf(sessions)[k].Valid()
    ensures var r := RunTicks(b, TicksOf(sessions), l); if r.Success? then Alive(r.value) else r.error.Unpriced?
  {
    forall k | 0 <= k < |sessions|
      ensures TicksOf(sessions)[k].Valid() && LongOnly(TicksOf(sessions)[k].netted)
    {
      DeskIsLong(sessions[k]);
    }
    TheFundNeverRunsOut(b, TicksOf(sessions), l);
  }

  // ----- what each strategy is given, and a desk that is neutral

  /** Each sleeve has its strategy's capital, deploys its gross target or nothing, and sums to no
      dollars when the strategy is market-neutral. */
  lemma EverySleeveIsItsStrategys(desk: seq<Strategy>, k: nat)
    requires k < |desk| && desk[k].grossTarget >= 0.0
    ensures var s, w := desk[k], SleevesOf(desk)[k].weights;
            && SleevesOf(desk)[k].weight == s.weight
            && (BookGross(Views(s.votes, s.marketNeutral)) >= NO_VIEW ==> BookGross(w) == s.grossTarget)
            && (BookGross(Views(s.votes, s.marketNeutral)) < NO_VIEW ==> BookGross(w) == 0.0)
            && (s.marketNeutral ==> Total(Names(w), w) == 0.0)
  {
    hide Blend, BookGross, Names, Total, Views;
    BlendDeploysItsTarget(desk[k].votes, desk[k].grossTarget, desk[k].marketNeutral);
    NeutralSleeveSumsToZero(desk[k].votes, desk[k].grossTarget);
  }

  /** A sleeve's weights over `ts`. */
  function TotalIn(ts: seq<int>, s: Sleeve): real {
    if ts == [] then 0.0 else TotalIn(ts[..|ts| - 1], s) + WeightIn(s, ts[|ts| - 1])
  }

  /** Over any ascending list that covers its names they sum to the sleeve's total. */
  lemma {:induction false} TotalInIsTotal(names: seq<int>, ts: seq<int>, s: Sleeve)
    requires Ascending(names) && Ascending(ts) && Covers(s.weights, names)
    requires Within(names, ts) && forall t :: t in ts && t in s.weights ==> t in names
    ensures TotalIn(ts, s) == Total(names, s.weights)
    decreases |ts|
  {
    if ts == [] {
      NoNames(names, ts);
    } else {
      var last, front := ts[|ts| - 1], ts[..|ts| - 1];
      FrontOf(ts);
      WithinFronts(names, ts);
      hide Within;
      if last in names {
        FrontOf(names);
        hide Ascending;
        TotalInIsTotal(names[..|names| - 1], front, s);
      } else {
        hide Ascending;
        TotalInIsTotal(names, front, s);
      }
    }
  }

  /** The netted weights over `ts`. */
  function NetTotal(ts: seq<int>, sleeves: seq<Sleeve>, total: real): real
    requires total > 0.0
  {
    if ts == [] then 0.0 else NetTotal(ts[..|ts| - 1], sleeves, total) + Net(sleeves, total, ts[|ts| - 1])
  }

  lemma {:induction false} OneMoreTotal(ts: seq<int>, sleeves: seq<Sleeve>, total: real)
    requires total > 0.0 && sleeves != []
    ensures var front, s := sleeves[..|sleeves| - 1], sleeves[|sleeves| - 1];
            NetTotal(ts, sleeves, total) == NetTotal(ts, front, total) + Times(s.weight / total, TotalIn(ts, s))
  {
    var s := sleeves[|sleeves| - 1];
    if ts == [] {
      assert Times(s.weight / total, 0.0) == 0.0;
    } else {
      OneMoreTotal(ts[..|ts| - 1], sleeves, total);
      DistributesRight(s.weight / total, TotalIn(ts[..|ts| - 1], s), WeightIn(s, ts[|ts| - 1]));
      hide Times, WeightIn;
    }
  }

  lemma {:induction false} NeutralNet(ts: seq<int>, sleeves: seq<Sleeve>, total: real)
    requires total > 0.0 && forall k :: 0 <= k < |sleeves| ==> TotalIn(ts, sleeves[k]) == 0.0
    ensures NetTotal(ts, sleeves, total) == 0.0
    decreases |sleeves|
  {
    if sleeves == [] {
      NothingNets(ts, total);
    } else {
      OneMoreTotal(ts, sleeves, total);
      NeutralNet(ts, sleeves[..|sleeves| - 1], total);
      assert Times(sleeves[|sleeves| - 1].weight / total, 0.0) == 0.0;
    }
  }

  lemma {:induction false} NothingNets(ts: seq<int>, total: real)
    requires total > 0.0
    ensures NetTotal(ts, [], total) == 0.0
  {
    if ts != [] {
      NothingNets(ts[..|ts| - 1], total);
    }
  }

  lemma {:induction false} TotalIsNet(ts: seq<int>, w: Weights, sleeves: seq<Sleeve>, total: real)
    requires total > 0.0 && Covers(w, ts) && forall k :: 0 <= k < |ts| ==> w[ts[k]] == Net(sleeves, total, ts[k])
    ensures Total(ts, w) == NetTotal(ts, sleeves, total)
  {
    if ts != [] {
      TotalIsNet(ts[..|ts| - 1], w, sleeves, total);
    }
  }

  lemma SleeveTotal(desk: seq<Strategy>, k: nat, tradeable: set<int>, w: Weights)
    requires k < |desk| && desk[k].marketNeutral && Tickers(desk[k].votes) <= tradeable && w.Keys == tradeable
    ensures TotalIn(Names(w), SleevesOf(desk)[k]) == 0.0
  {
    var s := SleevesOf(desk)[k];
    var names, ts := Names(s.weights), Names(w);
    BlendNames(desk[k].votes, desk[k].grossTarget, true);
    NeutralSleeveSumsToZero(desk[k].votes, desk[k].grossTarget);
    hide Blend, Names, Total, TotalIn;
    forall j | 0 <= j < |names| ensures names[j] in ts {
      assert names[j] in s.weights;
    }
    TotalInIsTotal(names, ts, s);
  }

  /** A desk of market-neutral strategies trades a book that sums to no dollars before its limits. */
  lemma ANeutralDeskIsNeutral(universe: set<int>, marks: Marks, desk: seq<Strategy>)
    requires Staffed(desk, universe * marks.Keys) && forall k :: 0 <= k < |desk| ==> desk[k].marketNeutral
    requires SliceTotal(SleevesOf(desk)) > 0.0
    ensures var w := TickOf(universe, marks, desk).netted; Total(Names(w), w) == 0.0
  {
    var sleeves, w := SleevesOf(desk), TickOf(universe, marks, desk).netted;
    var total := SliceTotal(sleeves);
    assert w.Keys == universe * marks.Keys;
    forall k | 0 <= k < |sleeves| ensures TotalIn(Names(w), sleeves[k]) == 0.0 {
      SleeveTotal(desk, k, universe * marks.Keys, w);
    }
    hide Names, SliceTotal, Net, TotalIn, SleeveOf;
    NeutralNet(Names(w), sleeves, total);
    TotalIsNet(Names(w), w, sleeves, total);
  }
}
