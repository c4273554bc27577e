/** The strategy atoms: what each means at a bar, and the kernels that flag every bar of a
    tape in one pass with moving pointers and running values. */
module Kernels {
  import opened Ordering
  import opened Reals
  import opened Wrappers
  import opened Structure

  // ----- moving averages

  function Sum(values: seq<real>, lo: nat, hi: nat): real
    requires lo <= hi <= |values|
  {
    if lo == hi then 0.0 else Sum(values, lo, hi - 1) + values[hi - 1]
  }

  /** The mean of the `period` values ending at `i`. */
  function SmaAt(values: seq<real>, period: int, i: nat): Option<real>
    requires i < |values|
  {
    if period <= 0 || i < period - 1 then None
    else Some(Sum(values, i - period + 1, i + 1) / period as real)
  }

  /** The exponential average seeded with the first `period` values' mean. */
  function EmaAt(values: seq<real>, period: int, i: nat): Option<real>
    requires i < |values|
  {
    if period <= 0 || i < period - 1 then None
    else if i == period - 1 then Some(Sum(values, 0, period) / period as real)
    else Some(Blend(values[i], EmaAt(values, period, i - 1).value, period))
  }

  function Blend(value: real, before: real, period: nat): real {
    var k := 2.0 / (period + 1) as real;
    value * k + before * (1.0 - k)
  }

  function MaAt(values: seq<real>, period: int, ema: bool, i: nat): Option<real>
    requires i < |values|
  {
    if ema then EmaAt(values, period, i) else SmaAt(values, period, i)
  }

  // ----- the relative strength

  function GainSum(closes: seq<real>, lo: nat, hi: nat): (sum: real)
    requires 1 <= lo <= hi <= |closes|
    ensures sum >= 0.0
  {
    if lo == hi then 0.0 else GainSum(closes, lo, hi - 1) + Max(0.0, closes[hi - 1] - closes[hi - 2])
  }

  function LossSum(closes: seq<real>, lo: nat, hi: nat): (sum: real)
    requires 1 <= lo <= hi <= |closes|
    ensures sum >= 0.0
  {
    if lo == hi then 0.0 else LossSum(closes, lo, hi - 1) + Max(0.0, -(closes[hi - 1] - closes[hi - 2]))
  }

  /** The index from the summed gains and losses of a window. */
  function RsiOf(gains: real, losses: real, period: nat): real
    requires gains >= 0.0 && losses >= 0.0 && period > 0
  {
    var avgGain, avgLoss := gains / period as real, losses / period as real;
    if avgLoss == 0.0 then (if avgGain > 0.0 then 100.0 else 50.0)
    else
      RatioNonNegative(avgGain, avgLoss, gains, losses, period);
      100.0 - 100.0 / (1.0 + avgGain / avgLoss)
  }

  lemma RatioNonNegative(avgGain: real, avgLoss: real, gains: real, losses: real, period: nat)
    requires gains >= 0.0 && losses >= 0.0 && period > 0 && avgLoss != 0.0
    requires avgGain == gains / period as real && avgLoss == losses / period as real
    ensures avgGain / avgLoss >= 0.0
  {
    var p := period as real;
    assert avgGain * p == gains && avgLoss * p == losses;
    assert avgGain >= 0.0 && avgLoss > 0.0;
    var q := avgGain / avgLoss;
    assert q * avgLoss == avgGain;
  }

  /** The index lies between 0 and 100. */
  lemma RsiInRange(gains: real, losses: real, period: nat)
    requires gains >= 0.0 && losses >= 0.0 && period > 0
    ensures 0.0 <= RsiOf(gains, losses, period) <= 100.0
  {
    var avgGain, avgLoss := gains / period as real, losses / period as real;
    if avgLoss != 0.0 {
      RatioNonNegative(avgGain, avgLoss, gains, losses, period);
      var share := 1.0 / (1.0 + avgGain / avgLoss);
      assert share * (1.0 + avgGain / avgLoss) == 1.0;
      assert 0.0 <= share <= 1.0;
    }
  }

  /** `None` before the lookback, and for a period of nothing, which has no mean. */
  function RsiAt(closes: seq<real>, period: int, i: nat): Option<real>
    requires i < |closes|
  {
    if i < period || period <= 0 then None
    else Some(RsiOf(GainSum(closes, i - period + 1, i + 1), LossSum(closes, i - period + 1, i + 1), period))
  }

  // ----- higher timeframes

  /** How many higher-timeframe bars have closed at bar `i`. */
  function CompletedCount(i: int, barsPer: int): nat {
    if i < 0 || barsPer <= 0 then 0 else (i + 1) / barsPer
  }

  /** The bar that closes bucket `k`. */
  function BucketClose(k: int, barsPer: int): int {
    (k + 1) * barsPer - 1
  }

  /** How many buckets `n` bars complete. */
  function Buckets(n: nat, barsPer: int): nat
    requires barsPer > 0
  {
    n / barsPer
  }

  lemma BucketInside(n: nat, barsPer: int, k: nat)
    requires barsPer > 0 && k < Buckets(n, barsPer)
    ensures 0 <= BucketClose(k, barsPer) < n
  {
    assert (k + 1) * barsPer <= (n / barsPer) * barsPer <= n;
  }

  /** The close of bucket `k`: that of its last bar. */
  function BucketValue(closes: seq<real>, barsPer: int, k: nat): real
    requires barsPer > 0 && k < Buckets(|closes|, barsPer)
  {
    BucketInside(|closes|, barsPer, k);
    closes[BucketClose(k, barsPer)]
  }

  /** The closes of all complete buckets. */
  function HtfCloses(closes: seq<real>, barsPer: int): (htf: seq<real>)
    requires barsPer > 0
    ensures |htf| == Buckets(|closes|, barsPer)
    ensures forall k :: 0 <= k < |htf| ==> htf[k] == BucketValue(closes, barsPer, k)
  {
    hide Buckets, BucketClose, BucketValue;
    seq(Buckets(|closes|, barsPer), k requires 0 <= k < Buckets(|closes|, barsPer) => BucketValue(closes, barsPer, k))
  }

  /** The last complete bucket's close is above the average of the bucket closes. */
  predicate HtfAbove(closes: seq<real>, barsPer: int, period: int, ema: bool, i: nat)
    requires i < |closes|
  {
    period > 0 && barsPer > 0 && CompletedCount(i, barsPer) >= period &&
    var htf := HtfCloses(closes, barsPer);
    CompletedInside(i, |closes|, barsPer);
    var last := CompletedCount(i, barsPer) - 1;
    var ma := MaAt(htf, period, ema, last);
    ma.Some? && htf[last] > ma.value
  }

  lemma CompletedInside(i: nat, n: nat, barsPer: int)
    requires i < n && barsPer > 0
    ensures CompletedCount(i, barsPer) <= n / barsPer
  {
    DivMono(i + 1, n, barsPer);
  }

  lemma DivMono(a: nat, b: nat, d: int)
    requires a <= b && d > 0
    ensures a / d <= b / d
  {
    DivBound(a, d);
    DivBound(b, d);
    MulStep(b / d, a / d, d);
  }

  lemma DivBound(a: nat, d: int)
    requires d > 0
    ensures a / d * d <= a < a / d * d + d
  {
  }

  lemma {:induction false} MulStep(x: int, y: int, d: int)
    requires d > 0
    ensures x < y ==> x * d + d <= y * d
    decreases y - x
  {
    if x + 1 < y {
      MulStep(x, y - 1, d);
      assert y * d == (y - 1) * d + d;
    }
  }

  // ----- atoms

  datatype Atom =
    | SwingAtom(high: bool, k: int)
    | DoubleAtom(high: bool, k: int)
    | DonchianAtom(high: bool, n: int)
    | StackAtom(ema: bool, periods: seq<int>)
    | MaAtom(ema: bool, period: int)
    | MomentumAtom(up: bool, lookback: int, threshold: real)
    | HtfAtom(ema: bool, barsPer: int, period: int)
    | RsiAtom(period: int, min: real, max: real)

  /** What the parser produces: a stack names at least one period, and no count is negative. */
  predicate WellFormed(a: Atom) {
    && (a.StackAtom? ==> a.periods != [])
    && (a.RsiAtom? ==> a.period >= 0)
  }

  ghost predicate Nonzero(closes: seq<real>) {
    forall i :: 0 <= i < |closes| ==> closes[i] != 0.0
  }

  /** A tape whose returns are defined. */
  ghost predicate NonzeroCloses(tape: Tape) {
    tape.Valid() && Nonzero(tape.closes)
  }

  /** The atom divides by no close of the tape that is zero. */
  ghost predicate Evaluable(a: Atom, tape: Tape) {
    tape.Valid() && WellFormed(a) && (a.MomentumAtom? ==> Nonzero(tape.closes))
  }

  /** The change over `lookback` bars. */
  function ReturnOver(closes: seq<real>, lookback: int, i: nat): Option<real>
    requires i < |closes| && forall t :: 0 <= t < |closes| ==> closes[t] != 0.0
  {
    if i < lookback || lookback <= 0 then None
    else Some(closes[i] / closes[i - lookback] - 1.0)
  }

  predicate Stacked(closes: seq<real>, ema: bool, periods: seq<int>, i: nat)
    requires i < |closes| && periods != []
  {
    && (forall j :: 0 <= j < |periods| ==> MaAt(closes, periods[j], ema, i).Some?)
    && closes[i] > MaAt(closes, periods[0], ema, i).value
    && (forall j :: 0 <= j < |periods| - 1 ==>
          MaAt(closes, periods[j], ema, i).value > MaAt(closes, periods[j + 1], ema, i).value)
  }

  /** The atom's predicate at bar `i`, as the interpreter evaluates it. */
  ghost predicate AtomHolds(a: Atom, tape: Tape, i: nat)
    requires Evaluable(a, tape) && i < |tape.closes|
  {
    var closes := tape.closes;
    match a
    case SwingAtom(high, k) => NearSwing(tape, k, high, i)
    case DoubleAtom(high, k) => Double(tape, k, high, i)
    case DonchianAtom(high, n) => Donchian(tape, n, high, i)
    case StackAtom(ema, periods) => Stacked(closes, ema, periods, i)
    case MaAtom(ema, period) =>
      var ma := MaAt(closes, period, ema, i);
      ma.Some? && closes[i] > ma.value
    case MomentumAtom(up, lookback, threshold) =>
      var r := ReturnOver(closes, lookback, i);
      r.Some? && if up then r.value > threshold else r.value < threshold
    case HtfAtom(ema, barsPer, period) => HtfAbove(closes, barsPer, period, ema, i)
    case RsiAtom(period, min, max) =>
      var r := RsiAt(closes, period, i);
      r.Some? && r.value > min && r.value <= max
  }

  // ----- the kernels

  method SmaArray(closes: seq<real>, period: int) returns (ma: seq<Option<real>>)
    ensures |ma| == |closes| && forall i :: 0 <= i < |closes| ==> ma[i] == SmaAt(closes, period, i)
  {
    var n := |closes|;
    var out := new Option<real>[n](_ => None);
    if period > 0 && n >= period {
      for idx := period - 1 to n
        invariant forall m :: 0 <= m < idx ==> out[m] == SmaAt(closes, period, m)
        invariant forall m :: idx <= m < n ==> out[m] == None
      {
        out[idx] := Some(Sum(closes, idx - period + 1, idx + 1) / period as real);
      }
    }
    ma := out[..];
  }

  lemma EmaNext(values: seq<real>, period: int, i: nat, before: real)
    requires 0 < period <= i < |values| && EmaAt(values, period, i - 1) == Some(before)
    ensures EmaAt(values, period, i) == Some(Blend(values[i], before, period))
  {
  }

  lemma EmaBegins(values: seq<real>, period: int)
    ensures forall i :: 0 <= i < |values| && (period <= 0 || i < period - 1) ==> EmaAt(values, period, i).None?
    ensures 0 < period <= |values| ==>
              EmaAt(values, period, period - 1) == Some(Sum(values, 0, period) / period as real)
  {
  }

  method EmaArray(closes: seq<real>, period: int) returns (ma: seq<Option<real>>)
    ensures |ma| == |closes| && forall i :: 0 <= i < |closes| ==> ma[i] == EmaAt(closes, period, i)
  {
    hide EmaAt, Blend, Sum;
    EmaBegins(closes, period);
    var n := |closes|;
    var out := new Option<real>[n](_ => None);
    if period > 0 && n >= period {
      var val := Sum(closes, 0, period) / period as real;
      out[period - 1] := Some(val);
      for idx := period to n
        invariant EmaAt(closes, period, idx - 1) == Some(val)
        invariant forall m :: 0 <= m < idx ==> out[m] == EmaAt(closes, period, m)
        invariant forall m :: idx <= m < n ==> out[m] == None
      {
        EmaNext(closes, period, idx, val);
        val := Blend(closes[idx], val, period);
        out[idx] := Some(val);
      }
    }
    ma := out[..];
  }

  method MaArray(closes: seq<real>, period: int, ema: bool) returns (ma: seq<Option<real>>)
    ensures |ma| == |closes| && forall i :: 0 <= i < |closes| ==> ma[i] == MaAt(closes, period, ema, i)
  {
    if ema {
      ma := EmaArray(closes, period);
    } else {
      ma := SmaArray(closes, period);
    }
  }

  /** The newest of the listed pivots that bar `i` can see is the pointer's last step. */
  lemma PointerIsNewest(values: seq<real>, k: int, high: bool, idx: seq<int>, px: seq<real>, p: nat, i: int)
    requires ListsPivots(values, k, high, idx, px) && p <= |idx|
    requires forall m :: 0 <= m < |idx| ==> (m < p <==> idx[m] + k <= i)
    ensures p > 0 ==> NewestConfirmed(values, k, high, i, idx[p - 1])
    ensures p == 0 ==> forall j :: !Confirmed(values, k, high, i, j)
    ensures p > 1 ==> NewestPair(values, k, high, i, idx[p - 2], idx[p - 1])
    ensures p == 1 ==> forall j :: Confirmed(values, k, high, i, j) ==> j == idx[0]
  {
    forall m | 0 <= m < p
      ensures Confirmed(values, k, high, i, idx[m])
    {
      assert idx[m] in idx;
    }
    forall j | Confirmed(values, k, high, i, j)
      ensures exists m :: 0 <= m < p && idx[m] == j
    {
      assert j in idx;
    }
  }

  lemma NearSwingAtPointer(tape: Tape, k: int, high: bool, idx: seq<int>, px: seq<real>, p: nat, i: nat)
    requires tape.Valid() && i < |tape.closes| && ListsPivots(tape.Side(high), k, high, idx, px) && p <= |idx|
    requires forall m :: 0 <= m < |idx| ==> (m < p <==> idx[m] + k <= i)
    ensures NearSwing(tape, k, high, i) <==> p > 0 && IsNear(tape.closes[i], px[p - 1], tape.Atr(i))
  {
    PointerIsNewest(tape.Side(high), k, high, idx, px, p, i);
    if p > 0 {
      assert forall l :: NewestConfirmed(tape.Side(high), k, high, i, l) ==> l == idx[p - 1];
    }
  }

  lemma DoubleAtPointer(tape: Tape, k: int, high: bool, idx: seq<int>, px: seq<real>, p: nat, i: nat)
    requires tape.Valid() && i < |tape.closes| && ListsPivots(tape.Side(high), k, high, idx, px) && p <= |idx|
    requires forall m :: 0 <= m < |idx| ==> (m < p <==> idx[m] + k <= i)
    ensures Double(tape, k, high, i) <==> p > 1 && DoubleAt(tape, high, i, px[p - 2], px[p - 1])
  {
    PointerIsNewest(tape.Side(high), k, high, idx, px, p, i);
    if p > 1 {
      assert forall l1, l2 :: NewestPair(tape.Side(high), k, high, i, l1, l2) ==> l1 == idx[p - 2] && l2 == idx[p - 1];
    }
  }

  /** Move the pointer past every pivot bar `i` can see, keeping the last price. */
  method Advance(idx: seq<int>, px: seq<real>, k: int, i: int, start: nat, last0: Option<real>)
    returns (p: nat, last: Option<real>)
    requires Ascending(idx) && |px| == |idx| && start <= |idx|
    requires forall m :: 0 <= m < start ==> idx[m] + k <= i
    requires last0 == if start == 0 then None else Some(px[start - 1])
    ensures p <= |idx| && forall m :: 0 <= m < |idx| ==> (m < p <==> idx[m] + k <= i)
    ensures last == if p == 0 then None else Some(px[p - 1])
  {
    p, last := start, last0;
    while p < |idx| && idx[p] + k <= i
      invariant 0 <= p <= |idx|
      invariant forall m :: 0 <= m < p ==> idx[m] + k <= i
      invariant last == if p == 0 then None else Some(px[p - 1])
    {
      last := Some(px[p]);
      p := p + 1;
    }
  }

  method NearSwingSignal(tape: Tape, k: int, wantHigh: bool) returns (out: array<bool>)
    requires tape.Valid()
    ensures fresh(out) && out.Length == |tape.closes|
    ensures forall i :: 0 <= i < out.Length ==> (out[i] <==> NearSwing(tape, k, wantHigh, i))
  {
    hide NearSwing, IsNear;
    var values := tape.Side(wantHigh);
    var idx, px := PivotArrays(values, k, wantHigh);
    var atr := AtrSeries(tape.highs, tape.lows, tape.closes, NEAR_ATR_PERIOD);
    var n := |tape.closes|;
    out := new bool[n](_ => false);
    var p := 0;
    var last: Option<real> := None;
    var i := 0;
    while i < n
      invariant 0 <= i <= n && 0 <= p <= |idx|
      invariant forall m :: 0 <= m < p ==> idx[m] + k <= i
      invariant last == if p == 0 then None else Some(px[p - 1])
      invariant forall m :: 0 <= m < i ==> (out[m] <==> NearSwing(tape, k, wantHigh, m))
      invariant forall m :: i <= m < n ==> !out[m]
    {
      p, last := Advance(idx, px, k, i, p, last);
      NearSwingAtPointer(tape, k, wantHigh, idx, px, p, i);
      if last.Some? {
        if IsNear(tape.closes[i], last.value, atr[i]) {
          out[i] := true;
        }
      }
      i := i + 1;
    }
  }

  /** Move the pointer past every pivot bar `i` can see, keeping the last two prices. */
  method AdvancePair(
    idx: seq<int>, px: seq<real>, k: int, i: int, start: nat, older0: Option<real>, newer0: Option<real>)
    returns (p: nat, older: Option<real>, newer: Option<real>)
    requires Ascending(idx) && |px| == |idx| && start <= |idx|
    requires forall m :: 0 <= m < start ==> idx[m] + k <= i
    requires newer0 == if start == 0 then None else Some(px[start - 1])
    requires older0 == if start <= 1 then None else Some(px[start - 2])
    ensures p <= |idx| && forall m :: 0 <= m < |idx| ==> (m < p <==> idx[m] + k <= i)
    ensures newer == if p == 0 then None else Some(px[p - 1])
    ensures older == if p <= 1 then None else Some(px[p - 2])
  {
    p, older, newer := start, older0, newer0;
    while p < |idx| && idx[p] + k <= i
      invariant 0 <= p <= |idx|
      invariant forall m :: 0 <= m < p ==> idx[m] + k <= i
      invariant newer == if p == 0 then None else Some(px[p - 1])
      invariant older == if p <= 1 then None else Some(px[p - 2])
    {
      older := newer;
      newer := Some(px[p]);
      p := p + 1;
    }
  }

  method DoubleSignal(tape: Tape, k: int, wantHigh: bool) returns (out: array<bool>)
    requires tape.Valid()
    ensures fresh(out) && out.Length == |tape.closes|
    ensures forall i :: 0 <= i < out.Length ==> (out[i] <==> Double(tape, k, wantHigh, i))
  {
    hide Double, Structure.Holds;
    var values := tape.Side(wantHigh);
    var idx, px := PivotArrays(values, k, wantHigh);
    var atr := AtrSeries(tape.highs, tape.lows, tape.closes, NEAR_ATR_PERIOD);
    var n := |tape.closes|;
    out := new bool[n](_ => false);
    var p := 0;
    var older: Option<real>, newer: Option<real> := None, None;
    var i := 0;
    while i < n
      invariant 0 <= i <= n && 0 <= p <= |idx|
      invariant forall m :: 0 <= m < p ==> idx[m] + k <= i
      invariant newer == if p == 0 then None else Some(px[p - 1])
      invariant older == if p <= 1 then None else Some(px[p - 2])
      invariant forall m :: 0 <= m < i ==> (out[m] <==> Double(tape, k, wantHigh, m))
      invariant forall m :: i <= m < n ==> !out[m]
    {
      p, older, newer := AdvancePair(idx, px, k, i, p, older, newer);
      DoubleAtPointer(tape, k, wantHigh, idx, px, p, i);
      if older.Some? && newer.Some? {
        if Holds(older.value, newer.value, atr[i]) {
          var close := tape.closes[i];
          if wantHigh {
            if close < newer.value {
              out[i] := true;
            }
          } else if close > newer.value {
            out[i] := true;
          }
        }
      }
      i := i + 1;
    }
  }

  method DonchianSignal(tape: Tape, bars: int, high: bool) returns (out: array<bool>)
    requires tape.Valid()
    ensures fresh(out) && out.Length == |tape.closes|
    ensures forall i :: 0 <= i < out.Length ==> (out[i] <==> Donchian(tape, bars, high, i))
  {
    var n := |tape.closes|;
    out := new bool[n](_ => false);
    var level := RangeBefore(tape.Side(high), bars, high);
    var atr := AtrSeries(tape.highs, tape.lows, tape.closes, NEAR_ATR_PERIOD);
    for i := 0 to n
      invariant forall m :: 0 <= m < i ==> (out[m] <==> Donchian(tape, bars, high, m))
      invariant forall m :: i <= m < n ==> !out[m]
    {
      if level[i].Some? {
        if high {
          if tape.closes[i] > level[i].value {
            out[i] := true;
          }
        } else if IsNear(tape.closes[i], level[i].value, atr[i]) {
          out[i] := true;
        }
      }
    }
  }

  /** Strictly on the wanted side of a present average. */
  predicate BeyondMa(close: real, ma: Option<real>, above: bool) {
    ma.Some? && if above then close > ma.value else close < ma.value
  }

  method CompareMa(closes: seq<real>, ma: seq<Option<real>>, above: bool) returns (out: array<bool>)
    requires |ma| == |closes|
    ensures fresh(out) && out.Length == |closes|
    ensures forall i :: 0 <= i < out.Length ==> (out[i] <==> BeyondMa(closes[i], ma[i], above))
  {
    var n := |closes|;
    out := new bool[n](_ => false);
    for i := 0 to n
      invariant forall m :: 0 <= m < i ==> (out[m] <==> BeyondMa(closes[m], ma[m], above))
      invariant forall m :: i <= m < n ==> !out[m]
    {
      if ma[i].None? {
        continue;
      }
      if above && closes[i] > ma[i].value {
        out[i] := true;
      } else if !above && closes[i] < ma[i].value {
        out[i] := true;
      }
    }
  }

  method StackSignal(closes: seq<real>, periods: seq<int>, ema: bool) returns (out: array<bool>)
    requires periods != []
    ensures fresh(out) && out.Length == |closes|
    ensures forall i :: 0 <= i < out.Length ==> (out[i] <==> Stacked(closes, ema, periods, i))
  {
    var n := |closes|;
    out := new bool[n](_ => false);
    var series: seq<seq<Option<real>>> := [];
    for j := 0 to |periods|
      invariant |series| == j && forall m :: 0 <= m < j ==> |series[m]| == n
      invariant forall m :: 0 <= m < j ==> forall i :: 0 <= i < n ==> series[m][i] == MaAt(closes, periods[m], ema, i)
      invariant forall m :: 0 <= m < n ==> !out[m]
    {
      var ma := MaArray(closes, periods[j], ema);
      series := series + [ma];
    }
    for i := 0 to n
      invariant forall m :: 0 <= m < i ==> (out[m] <==> Stacked(closes, ema, periods, m))
      invariant forall m :: i <= m < n ==> !out[m]
    {
      var stacked := StackedAt(closes, series, i);
      StackedBySeries(closes, periods, ema, series, i);
      if stacked {
        out[i] := true;
      }
    }
  }

  ghost predicate SeriesStacked(closes: seq<real>, series: seq<seq<Option<real>>>, i: nat)
    requires i < |closes| && series != [] && forall m :: 0 <= m < |series| ==> |series[m]| == |closes|
  {
    && (forall j :: 0 <= j < |series| ==> series[j][i].Some?)
    && closes[i] > series[0][i].value
    && (forall j :: 0 <= j < |series| - 1 ==> series[j][i].value > series[j + 1][i].value)
  }

  method StackedAt(closes: seq<real>, series: seq<seq<Option<real>>>, i: nat) returns (r: bool)
    requires i < |closes| && series != [] && forall m :: 0 <= m < |series| ==> |series[m]| == |closes|
    ensures r <==> SeriesStacked(closes, series, i)
  {
    for j := 0 to |series|
      invariant forall m :: 0 <= m < j ==> series[m][i].Some?
    {
      if series[j][i].None? {
        return false;
      }
    }
    if closes[i] <= series[0][i].value {
      return false;
    }
    for j := 0 to |series| - 1
      invariant forall m :: 0 <= m < j ==> series[m][i].value > series[m + 1][i].value
    {
      if series[j][i].value <= series[j + 1][i].value {
        return false;
      }
    }
    return true;
  }

  lemma StackedBySeries(closes: seq<real>, periods: seq<int>, ema: bool, series: seq<seq<Option<real>>>, i: nat)
    requires i < |closes| && periods != [] && |series| == |periods|
    requires forall m :: 0 <= m < |series| ==> |series[m]| == |closes|
    requires forall m :: 0 <= m < |series| ==> series[m][i] == MaAt(closes, periods[m], ema, i)
    ensures SeriesStacked(closes, series, i) <==> Stacked(closes, ema, periods, i)
  {
  }

  method MomentumSignal(closes: seq<real>, lookback: int, threshold: real, up: bool) returns (out: array<bool>)
    requires Nonzero(closes)
    ensures fresh(out) && out.Length == |closes|
    ensures forall i :: 0 <= i < out.Length ==>
              (out[i] <==> var r := ReturnOver(closes, lookback, i);
                           r.Some? && if up then r.value > threshold else r.value < threshold)
  {
    var n := |closes|;
    out := new bool[n](_ => false);
    if lookback <= 0 || lookback > n {
      return;
    }
    for i := lookback to n
      invariant forall m :: 0 <= m < i ==>
                  (out[m] <==> var r := ReturnOver(closes, lookback, m);
                               r.Some? && if up then r.value > threshold else r.value < threshold)
      invariant forall m :: i <= m < n ==> !out[m]
    {
      var r := closes[i] / closes[i - lookback] - 1.0;
      if up && r > threshold {
        out[i] := true;
      } else if !up && r < threshold {
        out[i] := true;
      }
    }
  }

  method HtfSignal(closes: seq<real>, barsPer: int, period: int, ema: bool) returns (out: array<bool>)
    ensures fresh(out) && out.Length == |closes|
    ensures forall i :: 0 <= i < out.Length ==> (out[i] <==> HtfAbove(closes, barsPer, period, ema, i))
  {
    var n := |closes|;
    out := new bool[n](_ => false);
    if period <= 0 || barsPer <= 0 {
      return;
    }
    var htf := HtfCloses(closes, barsPer);
    var ma := MaArray(htf, period, ema);
    for i := 0 to n
      invariant forall m :: 0 <= m < i ==> (out[m] <==> HtfAbove(closes, barsPer, period, ema, m))
      invariant forall m :: i <= m < n ==> !out[m]
    {
      var complete := CompletedCount(i, barsPer);
      CompletedInside(i, n, barsPer);
      if complete >= period {
        var last := complete - 1;
        if ma[last].Some? && htf[last] > ma[last].value {
          out[i] := true;
        }
      }
    }
  }

  method RsiSignal(closes: seq<real>, period: int, min: real, max: real) returns (out: array<bool>)
    ensures fresh(out) && out.Length == |closes|
    ensures forall i :: 0 <= i < out.Length ==>
              (out[i] <==> var r := RsiAt(closes, period, i); r.Some? && r.value > min && r.value <= max)
  {
    var n := |closes|;
    out := new bool[n](_ => false);
    if period <= 0 || period > n {
      return;
    }
    for i := period to n
      invariant forall m :: 0 <= m < i ==>
                  (out[m] <==> var r := RsiAt(closes, period, m); r.Some? && r.value > min && r.value <= max)
      invariant forall m :: i <= m < n ==> !out[m]
    {
      var r := RsiFromRunningSums(closes, period, i);
      if r > min && r <= max {
        out[i] := true;
      }
    }
  }

  method RsiFromRunningSums(closes: seq<real>, period: nat, i: nat) returns (r: real)
    requires 0 < period <= i < |closes|
    ensures RsiAt(closes, period, i) == Some(r)
  {
    var gains, losses := 0.0, 0.0;
    for idx := i - period + 1 to i + 1
      invariant gains == GainSum(closes, i - period + 1, idx)
      invariant losses == LossSum(closes, i - period + 1, idx)
    {
      var diff := closes[idx] - closes[idx - 1];
      if diff >= 0.0 {
        gains := gains + diff;
      } else {
        losses := losses + -diff;
      }
    }
    r := RsiOf(gains, losses, period);
  }

  /** The kernel of an atom flags exactly the bars where its predicate holds. */
  method AtomSignal(a: Atom, tape: Tape) returns (out: array<bool>)
    requires Evaluable(a, tape)
    ensures fresh(out) && out.Length == |tape.closes|
    ensures forall i :: 0 <= i < out.Length ==> (out[i] <==> AtomHolds(a, tape, i))
  {
    match a
    case SwingAtom(high, k) => out := NearSwingSignal(tape, k, high);
    case DoubleAtom(high, k) => out := DoubleSignal(tape, k, high);
    case DonchianAtom(high, n) => out := DonchianSignal(tape, n, high);
    case StackAtom(ema, periods) => out := StackSignal(tape.closes, periods, ema);
    case MaAtom(ema, period) =>
      var ma := MaArray(tape.closes, period, ema);
      out := CompareMa(tape.closes, ma, true);
    case MomentumAtom(up, lookback, threshold) => out := MomentumSignal(tape.closes, lookback, threshold, up);
    case HtfAtom(ema, barsPer, period) => out := HtfSignal(tape.closes, barsPer, period, ema);
    case RsiAtom(period, min, max) => out := RsiSignal(tape.closes, period, min, max);
  }

  // ----- one bar at a time, as the interpreter computes it

  method AddUp(values: seq<real>, lo: nat, hi: nat) returns (total: real)
    requires lo <= hi <= |values|
    ensures total == Sum(values, lo, hi)
  {
    total := 0.0;
    for k := lo to hi
      invariant total == Sum(values, lo, k)
    {
      total := total + values[k];
    }
  }

  /** The last bar's window is summed by itself; an earlier bar is read off the whole series. */
  method SmaOf(closes: seq<real>, period: int, i: nat) returns (ma: Option<real>)
    requires i < |closes|
    ensures ma == SmaAt(closes, period, i)
  {
    if i < period - 1 || period <= 0 {
      return None;
    }
    if i == |closes| - 1 {
      var total := AddUp(closes, i - period + 1, i + 1);
      return Some(total / period as real);
    }
    var series := SmaArray(closes, period);
    ma := series[i];
  }

  method EmaOf(closes: seq<real>, period: int, i: nat) returns (ma: Option<real>)
    requires i < |closes|
    ensures ma == EmaAt(closes, period, i)
  {
    if i < period - 1 || period <= 0 {
      return None;
    }
    var series := EmaArray(closes, period);
    ma := series[i];
  }

  method MaOf(closes: seq<real>, period: int, ema: bool, i: nat) returns (ma: Option<real>)
    requires i < |closes|
    ensures ma == MaAt(closes, period, ema, i)
  {
    if ema {
      ma := EmaOf(closes, period, i);
    } else {
      ma := SmaOf(closes, period, i);
    }
  }

  datatype Fault = ZeroDivision

  /** The mean gain over the mean loss of lists of moves; a window of nothing has no mean. */
  method RsiOfLists(closes: seq<real>, period: nat, i: nat) returns (r: Result<Option<real>, Fault>)
    requires i < |closes|
    ensures r.Failure? <==> period == 0
    ensures r.Success? ==> r.value == RsiAt(closes, period, i)
  {
    if i < period {
      return Success(None);
    }
    var gains: seq<real>, losses: seq<real> := [], [];
    for idx := i - period + 1 to i + 1
      invariant |gains| == |losses| == idx - (i - period + 1)
      invariant forall k :: 0 <= k < |gains| ==>
                  && gains[k] == Max(0.0, closes[i - period + 1 + k] - closes[i - period + k])
                  && losses[k] == Max(0.0, -(closes[i - period + 1 + k] - closes[i - period + k]))
    {
      var diff := closes[idx] - closes[idx - 1];
      gains := gains + [Max(0.0, diff)];
      losses := losses + [Max(0.0, -diff)];
    }
    if period == 0 {
      return Failure(ZeroDivision);
    }
    ListsSumUp(closes, gains, losses, i - period + 1, period);
    var gain := AddUp(gains, 0, period);
    var loss := AddUp(losses, 0, period);
    r := Success(Some(RsiOf(gain, loss, period)));
  }

  lemma {:induction false} ListsSumUp(closes: seq<real>, gains: seq<real>, losses: seq<real>, lo: nat, n: nat)
    requires 1 <= lo <= lo + n <= |closes| && n <= |gains| && n <= |losses|
    requires forall k :: 0 <= k < n ==>
               && gains[k] == Max(0.0, closes[lo + k] - closes[lo - 1 + k])
               && losses[k] == Max(0.0, -(closes[lo + k] - closes[lo - 1 + k]))
    ensures Sum(gains, 0, n) == GainSum(closes, lo, lo + n)
    ensures Sum(losses, 0, n) == LossSum(closes, lo, lo + n)
  {
    if n > 0 {
      ListsSumUp(closes, gains, losses, lo, n - 1);
    }
  }

  method StackOf(closes: seq<real>, periods: seq<int>, ema: bool, i: nat) returns (r: bool)
    requires i < |closes| && periods != []
    ensures r <==> Stacked(closes, ema, periods, i)
  {
    var vals: seq<Option<real>> := [];
    for j := 0 to |periods|
      invariant |vals| == j && forall m :: 0 <= m < j ==> vals[m] == MaAt(closes, periods[m], ema, i)
    {
      var ma := MaOf(closes, periods[j], ema, i);
      vals := vals + [ma];
    }
    if exists j :: 0 <= j < |vals| && vals[j].None? {
      return false;
    }
    r := closes[i] > vals[0].value && forall j :: 0 <= j < |vals| - 1 ==> vals[j].value > vals[j + 1].value;
  }

  /** The cached closes of all buckets, read at the last one complete at the bar. */
  method HtfOf(closes: seq<real>, barsPer: int, period: int, ema: bool, i: nat) returns (r: bool)
    requires i < |closes|
    ensures r <==> HtfAbove(closes, barsPer, period, ema, i)
  {
    if period <= 0 || barsPer <= 0 {
      return false;
    }
    var complete := CompletedCount(i, barsPer);
    if complete < period {
      return false;
    }
    var htf := HtfCloses(closes, barsPer);
    CompletedInside(i, |closes|, barsPer);
    var ma := MaOf(htf, period, ema, complete - 1);
    r := ma.Some? && htf[complete - 1] > ma.value;
  }

  /** The interpreter evaluates the atom without dividing by zero. */
  predicate Evaluates(a: Atom) {
    a.RsiAtom? ==> a.period != 0
  }

  /** One bar of an atom as the interpreter evaluates it: the predicate of the kernels, except that
      an index of period zero divides by it where its kernel flags nothing. */
  method EvalAtom(a: Atom, tape: Tape, i: nat) returns (r: Result<bool, Fault>)
    requires Evaluable(a, tape) && i < |tape.closes|
    ensures r.Success? <==> Evaluates(a)
    ensures r.Success? ==> (r.value <==> AtomHolds(a, tape, i))
    ensures r.Failure? ==> !AtomHolds(a, tape, i)
  {
    var closes, highs, lows := tape.closes, Some(tape.highs), Some(tape.lows);
    var holds: bool;
    match a {
      case SwingAtom(high, k) =>
        var answer := EvalNearSwing(closes, highs, lows, k, high, i);
        holds := answer.value;
      case DoubleAtom(high, k) =>
        var answer := EvalDouble(closes, highs, lows, k, high, i);
        holds := answer.value;
      case DonchianAtom(high, n) =>
        var answer := EvalDonchian(closes, highs, lows, n, high, i);
        holds := answer.value;
      case StackAtom(ema, periods) =>
        holds := StackOf(closes, periods, ema, i);
      case MaAtom(ema, period) =>
        var ma := MaOf(closes, period, ema, i);
        holds := ma.Some? && closes[i] > ma.value;
      case MomentumAtom(up, lookback, threshold) =>
        if i < lookback || lookback <= 0 {
          holds := false;
        } else {
          var change := closes[i] / closes[i - lookback] - 1.0;
          holds := if up then change > threshold else change < threshold;
        }
      case HtfAtom(ema, barsPer, period) =>
        holds := HtfOf(closes, barsPer, period, ema, i);
      case RsiAtom(period, min, max) =>
        var rsi := RsiOfLists(closes, period, i);
        if rsi.Failure? {
          return Failure(rsi.error);
        }
        holds := rsi.value.Some? && rsi.value.value > min && rsi.value.value <= max;
    }
    r := Success(holds);
  }

  // ----- no lookahead

  lemma {:induction false} SumAgrees(a: seq<real>, b: seq<real>, n: nat, lo: nat, hi: nat)
    requires lo <= hi <= n <= |a| && n <= |b| && a[..n] == b[..n]
    ensures Sum(a, lo, hi) == Sum(b, lo, hi)
  {
    if lo < hi {
      assert a[hi - 1] == a[..n][hi - 1] && b[hi - 1] == b[..n][hi - 1];
      SumAgrees(a, b, n, lo, hi - 1);
    }
  }

  lemma {:induction false} EmaAgrees(a: seq<real>, b: seq<real>, n: nat, period: int, i: nat)
    requires i < n <= |a| && n <= |b| && a[..n] == b[..n]
    ensures EmaAt(a, period, i) == EmaAt(b, period, i)
  {
    assert a[i] == a[..n][i] && b[i] == b[..n][i];
    if period > 0 && i >= period - 1 {
      if i == period - 1 {
        SumAgrees(a, b, n, 0, period);
      } else {
        EmaAgrees(a, b, n, period, i - 1);
      }
    }
  }

  lemma MaAgrees(a: seq<real>, b: seq<real>, n: nat, period: int, ema: bool, i: nat)
    requires i < n <= |a| && n <= |b| && a[..n] == b[..n]
    ensures MaAt(a, period, ema, i) == MaAt(b, period, ema, i)
  {
    if ema {
      EmaAgrees(a, b, n, period, i);
    } else if period > 0 && i >= period - 1 {
      SumAgrees(a, b, n, i - period + 1, i + 1);
    }
  }

  lemma {:induction false} MoveSumsAgree(a: seq<real>, b: seq<real>, n: nat, lo: nat, hi: nat)
    requires 1 <= lo <= hi <= n <= |a| && n <= |b| && a[..n] == b[..n]
    ensures GainSum(a, lo, hi) == GainSum(b, lo, hi) && LossSum(a, lo, hi) == LossSum(b, lo, hi)
  {
    if lo < hi {
      assert a[hi - 1] == a[..n][hi - 1] && b[hi - 1] == b[..n][hi - 1];
      assert a[hi - 2] == a[..n][hi - 2] && b[hi - 2] == b[..n][hi - 2];
      MoveSumsAgree(a, b, n, lo, hi - 1);
    }
  }

  /** The buckets complete at bar `i` close on the same values in both tapes. */
  lemma HtfPrefix(a: seq<real>, b: seq<real>, n: nat, barsPer: int, count: nat)
    requires n <= |a| && n <= |b| && a[..n] == b[..n] && barsPer > 0 && count <= n / barsPer
    ensures count <= |HtfCloses(a, barsPer)| && count <= |HtfCloses(b, barsPer)|
    ensures HtfCloses(a, barsPer)[..count] == HtfCloses(b, barsPer)[..count]
  {
    DivMono(n, |a|, barsPer);
    DivMono(n, |b|, barsPer);
    forall k | 0 <= k < count
      ensures HtfCloses(a, barsPer)[k] == HtfCloses(b, barsPer)[k]
    {
      BucketInside(n, barsPer, k);
      var t := BucketClose(k, barsPer);
      assert a[t] == a[..n][t] && b[t] == b[..n][t];
    }
  }

  lemma HtfHasNoLookahead(a: seq<real>, b: seq<real>, barsPer: int, period: int, ema: bool, i: nat)
    requires i < |a| && i < |b| && a[..i + 1] == b[..i + 1]
    ensures HtfAbove(a, barsPer, period, ema, i) <==> HtfAbove(b, barsPer, period, ema, i)
  {
    if period > 0 && barsPer > 0 && CompletedCount(i, barsPer) >= period {
      var count := CompletedCount(i, barsPer);
      HtfPrefix(a, b, i + 1, barsPer, count);
      var ha, hb := HtfCloses(a, barsPer), HtfCloses(b, barsPer);
      MaAgrees(ha, hb, count, period, ema, count - 1);
      assert ha[count - 1] == ha[..count][count - 1] && hb[count - 1] == hb[..count][count - 1];
    }
  }

  // ----- which bar closes a bucket

  lemma QuotientIs(q: int, r: int, d: int)
    requires 0 <= r < d
    ensures (q * d + r) / d == q && (q * d + r) % d == r
  {
    var n := q * d + r;
    MulStep(n / d, q, d);
    MulStep(q, n / d, d);
  }

  /** A bucket closes on its last bar, and counts from that bar on. */
  lemma BucketClosesLast(k: nat, barsPer: int)
    requires barsPer > 0
    ensures BucketClose(k, barsPer) / barsPer == k
    ensures forall j: nat :: j / barsPer == k ==> j <= BucketClose(k, barsPer)
    ensures forall i: nat :: k < CompletedCount(i, barsPer) <==> BucketClose(k, barsPer) <= i
  {
    QuotientIs(k, barsPer - 1, barsPer);
    assert BucketClose(k, barsPer) == k * barsPer + barsPer - 1;
    forall j: nat | j / barsPer == k ensures j <= BucketClose(k, barsPer) {
      DivBound(j, barsPer);
    }
    forall i: nat ensures k < CompletedCount(i, barsPer) <==> BucketClose(k, barsPer) <= i {
      DivBound(i + 1, barsPer);
      MulStep(k, CompletedCount(i, barsPer), barsPer);
      MulStep(CompletedCount(i, barsPer), k + 1, barsPer);
    }
  }

  /** The closes agree at every bar that closes a bucket. */
  ghost predicate SameAtBucketEnds(a: seq<real>, b: seq<real>, barsPer: int)
    requires |a| == |b| && barsPer > 0
  {
    forall t :: 0 <= t < |a| && (t + 1) % barsPer == 0 ==> a[t] == b[t]
  }

  /** Only the bars that close a bucket are read. */
  lemma HtfReadsBucketEnds(
    a: seq<real>, b: seq<real>, barsPer: int, period: int, ema: bool, i: nat)
    requires i < |a| == |b| && barsPer > 0 && SameAtBucketEnds(a, b, barsPer)
    ensures HtfAbove(a, barsPer, period, ema, i) <==> HtfAbove(b, barsPer, period, ema, i)
  {
    hide HtfCloses, MaAt;
    var ha, hb := HtfCloses(a, barsPer), HtfCloses(b, barsPer);
    forall k | 0 <= k < |ha| ensures ha[k] == hb[k] {
      BucketInside(|a|, barsPer, k);
      QuotientIs(k + 1, 0, barsPer);
    }
    assert ha == hb;
  }

  lemma StackHasNoLookahead(a: seq<real>, b: seq<real>, ema: bool, periods: seq<int>, i: nat)
    requires i < |a| && i < |b| && a[..i + 1] == b[..i + 1] && periods != []
    ensures Stacked(a, ema, periods, i) <==> Stacked(b, ema, periods, i)
  {
    assert a[i] == a[..i + 1][i] && b[i] == b[..i + 1][i];
    forall j | 0 <= j < |periods|
      ensures MaAt(a, periods[j], ema, i) == MaAt(b, periods[j], ema, i)
    {
      MaAgrees(a, b, i + 1, periods[j], ema, i);
    }
  }

  /** No atom's flag at bar `i` depends on a bar after `i`. */
  lemma AtomsHaveNoLookahead(a: Atom, s: Tape, t: Tape, i: nat)
    requires Evaluable(a, s) && Evaluable(a, t) && AgreeUpTo(s, t, i)
    ensures AtomHolds(a, s, i) <==> AtomHolds(a, t, i)
  {
    AgreeAt(s, t, i);
    match a
    case SwingAtom(high, k) => StructureHasNoLookahead(s, t, k, high, i);
    case DoubleAtom(high, k) => StructureHasNoLookahead(s, t, k, high, i);
    case DonchianAtom(high, n) => StructureHasNoLookahead(s, t, n, high, i);
    case StackAtom(ema, periods) => StackHasNoLookahead(s.closes, t.closes, ema, periods, i);
    case MaAtom(ema, period) => MaAgrees(s.closes, t.closes, i + 1, period, ema, i);
    case MomentumAtom(up, lookback, threshold) =>
    case HtfAtom(ema, barsPer, period) => HtfHasNoLookahead(s.closes, t.closes, barsPer, period, ema, i);
    case RsiAtom(period, min, max) =>
      if 0 < period <= i {
        MoveSumsAgree(s.closes, t.closes, i + 1, i - period + 1, i + 1);
      }
  }


  // ----- the measures in their own terms

  /** The index is the gains' share of all moves, in percent; 50 when nothing moved. */
  lemma RsiIsTheShareOfGains(gains: real, losses: real, period: nat)
    requires gains >= 0.0 && losses >= 0.0 && period > 0
    ensures RsiOf(gains, losses, period) * (gains + losses) ==
            if gains + losses > 0.0 then 100.0 * gains else 0.0
    ensures gains + losses == 0.0 ==> RsiOf(gains, losses, period) == 50.0
  {
    var p := period as real;
    var avgGain, avgLoss := gains / p, losses / p;
    assert avgGain * p == gains && avgLoss * p == losses;
    if avgLoss != 0.0 {
      RatioNonNegative(avgGain, avgLoss, gains, losses, period);
      ShareOfMoves(gains, losses, avgGain / avgLoss, p, avgGain, avgLoss);
    } else {
      assert losses == 0.0;
      assert avgGain > 0.0 <==> gains > 0.0 by { MulSign(avgGain, p); }
    }
  }

  lemma ShareOfMoves(gains: real, losses: real, ratio: real, p: real, avgGain: real, avgLoss: real)
    requires ratio >= 0.0 && gains == avgGain * p && losses == avgLoss * p && ratio * avgLoss == avgGain
    ensures (100.0 - 100.0 / (1.0 + ratio)) * (gains + losses) == 100.0 * gains
  {
    var share := 1.0 / (1.0 + ratio);
    assert share * (1.0 + ratio) == 1.0;
    assert gains == ratio * losses by {
      assert (ratio * avgLoss) * p == ratio * (avgLoss * p);
    }
    assert gains + losses == (1.0 + ratio) * losses;
    assert share * (gains + losses) == (share * (1.0 + ratio)) * losses == losses;
    assert 100.0 / (1.0 + ratio) == 100.0 * share;
  }

  /** Gains less losses is the change of the close over the window. */
  lemma {:induction false} MovesTelescope(closes: seq<real>, lo: nat, hi: nat)
    requires 1 <= lo <= hi <= |closes|
    ensures GainSum(closes, lo, hi) - LossSum(closes, lo, hi) == closes[hi - 1] - closes[lo - 1]
  {
    if lo < hi {
      MovesTelescope(closes, lo, hi - 1);
    }
  }

  ghost predicate Between(values: seq<real>, lo: nat, hi: nat, least: real, most: real)
    requires lo <= hi <= |values|
  {
    forall t :: lo <= t < hi ==> least <= values[t] <= most
  }

  function Product(x: real, n: nat): real {
    x * n as real
  }

  lemma ProductNext(x: real, n: nat)
    ensures Product(x, n + 1) == Product(x, n) + x && Product(x, 0) == 0.0
  {
  }

  lemma {:induction false} SumBetween(values: seq<real>, lo: nat, hi: nat, least: real, most: real)
    requires lo <= hi <= |values| && Between(values, lo, hi, least, most)
    ensures Product(least, hi - lo) <= Sum(values, lo, hi) <= Product(most, hi - lo)
  {
    hide Product;
    ProductNext(least, 0);
    ProductNext(most, 0);
    if lo < hi {
      SumBetween(values, lo, hi - 1, least, most);
      ProductNext(least, hi - 1 - lo);
      ProductNext(most, hi - 1 - lo);
    }
  }

  lemma MeanBetween(sum: real, n: nat, least: real, most: real)
    requires n > 0 && Product(least, n) <= sum <= Product(most, n)
    ensures least <= sum / n as real <= most
  {
    var d := n as real;
    var mean := sum / d;
    assert mean * d == sum;
    if mean < least {
      MulPos(least - mean, d);
    }
    if mean > most {
      MulPos(mean - most, d);
    }
  }

  /** A simple average lies between the values it averages. */
  lemma SmaBetween(values: seq<real>, period: int, i: nat, least: real, most: real)
    requires i < |values| && 0 < period <= i + 1 && Between(values, i - period + 1, i + 1, least, most)
    ensures SmaAt(values, period, i).Some? && least <= SmaAt(values, period, i).value <= most
  {
    SumBetween(values, i - period + 1, i + 1, least, most);
    MeanBetween(Sum(values, i - period + 1, i + 1), period, least, most);
  }

  lemma {:induction false} SumSplits(values: seq<real>, lo: nat, mid: nat, hi: nat)
    requires lo <= mid <= hi <= |values|
    ensures Sum(values, lo, hi) == Sum(values, lo, mid) + Sum(values, mid, hi)
  {
    if mid < hi {
      SumSplits(values, lo, mid, hi - 1);
    }
  }

  /** From one bar to the next the average takes in the new value and lets the oldest go. */
  lemma SmaSlides(values: seq<real>, period: int, i: nat)
    requires 0 < period <= i < |values|
    ensures SmaAt(values, period, i).Some? && SmaAt(values, period, i - 1).Some?
    ensures Product(SmaAt(values, period, i).value - SmaAt(values, period, i - 1).value, period) ==
            values[i] - values[i - period]
  {
    var oldest := i - period;
    SumSplits(values, oldest, oldest + 1, i + 1);
    SumSplits(values, oldest, oldest + 1, i);
    assert Sum(values, oldest, oldest + 1) == Sum(values, oldest, oldest) + values[oldest];
    DifferenceOfMeans(Sum(values, oldest + 1, i + 1), Sum(values, oldest, i), period);
  }

  lemma DifferenceOfMeans(a: real, b: real, n: nat)
    requires n > 0
    ensures Product(a / n as real - b / n as real, n) == a - b
  {
    var d := n as real;
    var x, y := a / d, b / d;
    assert x * d == a && y * d == b;
    assert (x - y) * d == x * d - y * d;
  }

  /** The exponential average moves from where it was 2 parts in `period + 1` of the way to the
      new value. */
  lemma EmaMovesTowards(values: seq<real>, period: int, i: nat)
    requires 0 < period <= i < |values|
    ensures EmaAt(values, period, i).Some? && EmaAt(values, period, i - 1).Some?
    ensures var before, after := EmaAt(values, period, i - 1).value, EmaAt(values, period, i).value;
            Product(after - before, period + 1) == 2.0 * (values[i] - before)
  {
    var before, d := EmaAt(values, period, i - 1).value, (period + 1) as real;
    var k := 2.0 / d;
    assert k * d == 2.0;
    var v := values[i];
    assert v * k + before * (1.0 - k) - before == (v - before) * k;
    assert ((v - before) * k) * d == (v - before) * (k * d);
  }

  /** A return is above its threshold when the close is above the old one by that much. */
  lemma ReturnIff(closes: seq<real>, lookback: int, i: nat, threshold: real)
    requires 0 < lookback <= i < |closes| && forall t :: 0 <= t < |closes| ==> closes[t] != 0.0
    requires closes[i - lookback] > 0.0
    ensures var r := ReturnOver(closes, lookback, i);
            && r.Some?
            && (r.value > threshold <==> closes[i] > (1.0 + threshold) * closes[i - lookback])
            && (r.value < threshold <==> closes[i] < (1.0 + threshold) * closes[i - lookback])
  {
    var before := closes[i - lookback];
    var q := closes[i] / before;
    assert q * before == closes[i];
    assert (q - (1.0 + threshold)) * before == closes[i] - (1.0 + threshold) * before;
    MulSign(q - (1.0 + threshold), before);
    MulSign((1.0 + threshold) - q, before);
    assert ((1.0 + threshold) - q) * before == (1.0 + threshold) * before - closes[i];
  }


  // ----- the average range

  ghost predicate RangesBetween(tape: Tape, lo: nat, hi: nat, least: real, most: real)
    requires tape.Valid() && 1 <= lo <= hi <= |tape.closes|
  {
    forall t :: lo <= t < hi ==> least <= TrueRange(tape.highs, tape.lows, tape.closes, t) <= most
  }

  lemma {:induction false} RangeSumBetween(tape: Tape, lo: nat, hi: nat, least: real, most: real)
    requires tape.Valid() && 1 <= lo <= hi <= |tape.closes| && RangesBetween(tape, lo, hi, least, most)
    ensures Product(least, hi - lo) <= TrueRangeSum(tape.highs, tape.lows, tape.closes, lo, hi) <=
            Product(most, hi - lo)
  {
    hide Product, TrueRange;
    ProductNext(least, 0);
    ProductNext(most, 0);
    if lo < hi {
      RangeSumBetween(tape, lo, hi - 1, least, most);
      ProductNext(least, hi - 1 - lo);
      ProductNext(most, hi - 1 - lo);
    }
  }

  /** The average range lies between the true ranges it averages. */
  lemma AtrBetween(tape: Tape, period: int, i: nat, least: real, most: real)
    requires tape.Valid() && 0 < period <= i < |tape.closes| && RangesBetween(tape, i - period + 1, i + 1, least, most)
    ensures var atr := AtrAt(tape.highs, tape.lows, tape.closes, period, i);
            atr.Some? && least <= atr.value <= most
  {
    RangeSumBetween(tape, i - period + 1, i + 1, least, most);
    MeanBetween(TrueRangeSum(tape.highs, tape.lows, tape.closes, i - period + 1, i + 1), period, least, most);
  }

  lemma {:induction false} RangeSumSplits(tape: Tape, lo: nat, mid: nat, hi: nat)
    requires tape.Valid() && 1 <= lo <= mid <= hi <= |tape.closes|
    ensures TrueRangeSum(tape.highs, tape.lows, tape.closes, lo, hi) ==
            TrueRangeSum(tape.highs, tape.lows, tape.closes, lo, mid)
            + TrueRangeSum(tape.highs, tape.lows, tape.closes, mid, hi)
  {
    hide TrueRange;
    if mid < hi {
      RangeSumSplits(tape, lo, mid, hi - 1);
    }
  }

  /** From one bar to the next it takes in the new true range and lets the oldest go. */
  lemma AtrSlides(tape: Tape, period: int, i: nat)
    requires tape.Valid() && 1 <= period < i < |tape.closes|
    ensures var before, after := AtrAt(tape.highs, tape.lows, tape.closes, period, i - 1),
                                 AtrAt(tape.highs, tape.lows, tape.closes, period, i);
            && before.Some? && after.Some?
            && Product(after.value - before.value, period) ==
               TrueRange(tape.highs, tape.lows, tape.closes, i)
               - TrueRange(tape.highs, tape.lows, tape.closes, i - period)
  {
    hide TrueRange;
    var oldest := i - period;
    RangeSumSplits(tape, oldest, oldest + 1, i + 1);
    RangeSumSplits(tape, oldest, oldest + 1, i);
    assert TrueRangeSum(tape.highs, tape.lows, tape.closes, oldest, oldest) == 0.0;
    DifferenceOfMeans(TrueRangeSum(tape.highs, tape.lows, tape.closes, oldest + 1, i + 1),
                      TrueRangeSum(tape.highs, tape.lows, tape.closes, oldest, i), period);
  }

  // ----- the atoms without their divisions

  lemma AboveMean(x: real, sum: real, n: nat)
    requires n > 0
    ensures x > sum / n as real <==> Product(x, n) > sum
  {
    var d := n as real;
    var mean := sum / d;
    assert mean * d == sum;
    assert (x - mean) * d == x * d - sum;
    MulSign(x - mean, d);
  }

  /** `sma_n`: the close, `period` times over, exceeds the sum of the last `period` closes. */
  lemma SmaAtomIff(tape: Tape, period: int, i: nat)
    requires tape.Valid() && i < |tape.closes|
    ensures AtomHolds(MaAtom(false, period), tape, i) <==>
            0 < period <= i + 1 && Product(tape.closes[i], period) > Sum(tape.closes, i - period + 1, i + 1)
  {
    if 0 < period <= i + 1 {
      AboveMean(tape.closes[i], Sum(tape.closes, i - period + 1, i + 1), period);
    }
  }

  /** `h_sma_n`: so many buckets have closed, and the last one's close, `period` times over,
      exceeds the sum of the last `period` of their closes. */
  lemma HtfAtomIff(tape: Tape, barsPer: int, period: int, i: nat)
    requires tape.Valid() && i < |tape.closes|
    ensures AtomHolds(HtfAtom(false, barsPer, period), tape, i) <==>
            && period > 0 && barsPer > 0 && CompletedCount(i, barsPer) >= period
            && var count, htf := CompletedCount(i, barsPer), HtfCloses(tape.closes, barsPer);
               && count <= |htf| && Product(htf[count - 1], period) > Sum(htf, count - period, count)
  {
    hide HtfCloses, CompletedCount;
    if period > 0 && barsPer > 0 && CompletedCount(i, barsPer) >= period {
      var count, htf := CompletedCount(i, barsPer), HtfCloses(tape.closes, barsPer);
      CompletedInside(i, |tape.closes|, barsPer);
      AboveMean(htf[count - 1], Sum(htf, count - period, count), period);
    }
  }

  /** `mom`: the close is past the old one by more than the threshold, above it or below. */
  lemma MomentumAtomIff(tape: Tape, up: bool, lookback: int, threshold: real, i: nat)
    requires tape.Valid() && i < |tape.closes| && Nonzero(tape.closes)
    requires 0 < lookback <= i ==> tape.closes[i - lookback] > 0.0
    ensures AtomHolds(MomentumAtom(up, lookback, threshold), tape, i) <==>
            && 0 < lookback <= i
            && var level := (1.0 + threshold) * tape.closes[i - lookback];
               if up then tape.closes[i] > level else tape.closes[i] < level
  {
    if 0 < lookback <= i {
      ReturnIff(tape.closes, lookback, i, threshold);
    }
  }

  /** `rsi`: the gains' share of all moves is above the one bound and at most the other, both in
      percent; a window without a move counts as 50. */
  lemma RsiAtomIff(tape: Tape, period: int, min: real, max: real, i: nat)
    requires tape.Valid() && i < |tape.closes| && period >= 0
    ensures AtomHolds(RsiAtom(period, min, max), tape, i) <==>
            && 0 < period <= i
            && var gains := GainSum(tape.closes, i - period + 1, i + 1);
               var moves := gains + LossSum(tape.closes, i - period + 1, i + 1);
               if moves > 0.0 then min * moves < 100.0 * gains <= max * moves else min < 50.0 <= max
  {
    hide RsiOf, GainSum, LossSum;
    if 0 < period <= i {
      var gains := GainSum(tape.closes, i - period + 1, i + 1);
      var losses := LossSum(tape.closes, i - period + 1, i + 1);
      IndexInRange(gains, losses, period, min, max);
    }
  }

  lemma IndexInRange(gains: real, losses: real, period: nat, min: real, max: real)
    requires gains >= 0.0 && losses >= 0.0 && period > 0
    ensures min < RsiOf(gains, losses, period) <= max <==>
            if gains + losses > 0.0 then min * (gains + losses) < 100.0 * gains <= max * (gains + losses)
            else min < 50.0 <= max
  {
    hide RsiOf;
    RsiIsTheShareOfGains(gains, losses, period);
    if gains + losses > 0.0 {
      ShareInRange(RsiOf(gains, losses, period), gains + losses, 100.0 * gains, min, max);
    }
  }

  lemma ShareInRange(rsi: real, moves: real, part: real, min: real, max: real)
    requires moves > 0.0 && rsi * moves == part
    ensures min < rsi <= max <==> min * moves < part <= max * moves
  {
    assert (rsi - min) * moves == part - min * moves && (rsi - max) * moves == part - max * moves;
    MulSign(rsi - min, moves);
    MulSign(rsi - max, moves);
  }
}
