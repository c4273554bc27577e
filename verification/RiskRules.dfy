/** The frozen stop and size policy: the stop band, the risk manager's gate and its
    drawdown breaker. */
module RiskRules {
  import opened Reals
  import opened Wrappers

  const RISK_FRAC := 0.01
  const MAX_OPEN_RISK_FRAC := 0.05
  const MAX_DRAWDOWN := 0.15
  const CONFIDENCE_MIN := 0.5
  const CONFIDENCE_MAX := 2.0
  const MAX_NOTIONAL_FRAC := 1.0
  const MIN_LOT_NOTIONAL := 10.0

  const MAX_LOTS_PER_SYMBOL := 3
  const ATR_STOP_MULT := 2.0
  const STOP_FLOOR_FRAC := 0.015
  const STOP_CAP_FRAC := 0.040
  const STOP_FALLBACK_FRAC := 0.025
  const FEE_TAKER := 0.001
  const FEE_SLIPPAGE := 0.0002

  /** Distance from entry to stop. An absent or non-positive range falls back to 2.5 %. */
  function AtrStopDistance(entry: real, atr: Option<real>): real {
    if atr.None? || atr.value <= 0.0 then entry * STOP_FALLBACK_FRAC
    else Max(entry * STOP_FLOOR_FRAC, Min(entry * STOP_CAP_FRAC, ATR_STOP_MULT * atr.value))
  }

  function AtrStopPrice(entry: real, atr: Option<real>): real {
    entry - AtrStopDistance(entry, atr)
  }

  /** Whatever the range, the stop lies 1.5 to 4 % below a positive entry. */
  lemma StopBand(entry: real, atr: Option<real>)
    requires entry > 0.0
    ensures STOP_FLOOR_FRAC * entry <= entry - AtrStopPrice(entry, atr) <= STOP_CAP_FRAC * entry
    ensures 0.0 < AtrStopPrice(entry, atr) < entry
  {
  }

  /** The stop distance is twice the range, or the nearest to that in the band of 1.5 to 4 %. */
  lemma StopIsNearestInBand(entry: real, atr: Option<real>, other: real)
    requires entry > 0.0
    requires STOP_FLOOR_FRAC * entry <= other <= STOP_CAP_FRAC * entry
    ensures var distance := entry - AtrStopPrice(entry, atr);
            if atr.Some? && atr.value > 0.0 then Abs(distance - 2.0 * atr.value) <= Abs(other - 2.0 * atr.value)
            else distance == 0.025 * entry
  {
  }

  datatype Lot = Lot(qty: real, entry: real, stop: real, openedAt: int)

  datatype Verdict = Halted | BadStop | OpenRiskCap | NotionalCap
  datatype Decision = Approved(size: real) | Refused(why: Verdict)

  /** The manager's settings and what it remembers. */
  datatype Risk = Risk(riskFrac: real, maxOpenRiskFrac: real, maxDrawdown: real, peak: real, halted: bool) {
    /** A new equity reading: the peak rises, and a deep enough fall halts for good. */
    function Updated(equity: real): (r: Risk)
      ensures r.peak >= peak && r.peak >= equity && (halted ==> r.halted)
    {
      var top := if equity > peak then equity else peak;
      var breach := top > 0.0 && (top - equity) / top >= maxDrawdown;
      this.(peak := top, halted := halted || breach)
    }
  }

  function RiskSum(lots: seq<Lot>): real {
    if lots == [] then 0.0
    else RiskSum(lots[..|lots| - 1]) + (lots[|lots| - 1].entry - lots[|lots| - 1].stop) * lots[|lots| - 1].qty
  }

  /** The cash at risk across the open lots. */
  function OpenRisk(lots: seq<Lot>): real {
    Max(0.0, RiskSum(lots))
  }

  function Clamped(confidence: real): real {
    Max(CONFIDENCE_MIN, Min(CONFIDENCE_MAX, confidence))
  }

  /** The size that risks the fixed fraction of equity between entry and stop. */
  function RiskSize(equity: real, riskFrac: real, confidence: real, entry: real, stop: real): real
    requires entry > stop
  {
    equity * riskFrac * Clamped(confidence) / (entry - stop)
  }

  /** The size whose full cost uses up the room. */
  function RoomSize(room: real, unitCost: real): real {
    if unitCost > 0.0 then room / unitCost else 0.0
  }

  function UnitCost(entry: real, costMult: real): real {
    entry * Max(1.0, costMult)
  }

  /** The gate for a proposed long: halt, stop, open risk, then the cash it may spend. */
  function SizePosition(
    r: Risk, equity: real, entry: real, stop: real, lots: seq<Lot>, confidence: real,
    cash: Option<real>, costMult: real): Decision
  {
    if r.halted then Refused(Halted)
    else if stop <= 0.0 || entry <= stop then Refused(BadStop)
    else
      var size := RiskSize(equity, r.riskFrac, confidence, entry, stop);
      if lots != [] && OpenRisk(lots) + (entry - stop) * size > equity * r.maxOpenRiskFrac then Refused(OpenRiskCap)
      else if cash.None? then Approved(size)
      else
        var room := cash.value - equity * (1.0 - MAX_NOTIONAL_FRAC);
        var most := RoomSize(room, UnitCost(entry, costMult));
        if most * entry < MIN_LOT_NOTIONAL then Refused(NotionalCap)
        else Approved(if size > most then most else size)
  }

  class RiskManager {
    const riskFrac: real
    const maxOpenRiskFrac: real
    const maxDrawdown: real
    var peak: real
    var halted: bool

    function View(): Risk
      reads this
    {
      Risk(riskFrac, maxOpenRiskFrac, maxDrawdown, peak, halted)
    }

    constructor (r: Risk)
      ensures View() == r
    {
      riskFrac, maxOpenRiskFrac, maxDrawdown, peak, halted :=
        r.riskFrac, r.maxOpenRiskFrac, r.maxDrawdown, r.peak, r.halted;
    }

    method UpdateEquity(equity: real)
      modifies this
      ensures View() == old(View()).Updated(equity)
    {
      if equity > peak {
        peak := equity;
      }
      if peak > 0.0 {
        var dd := (peak - equity) / peak;
        if dd >= maxDrawdown {
          halted := true;
        }
      }
    }
  }

  // ----- what an approval guarantees

  lemma RiskSizeRisks(equity: real, riskFrac: real, confidence: real, entry: real, stop: real)
    requires entry > stop
    ensures (entry - stop) * RiskSize(equity, riskFrac, confidence, entry, stop) ==
            equity * riskFrac * Clamped(confidence)
  {
  }

  lemma RoomSizeFits(room: real, unitCost: real)
    requires unitCost > 0.0
    ensures RoomSize(room, unitCost) * unitCost == room
  {
  }

  /** An approved size fits the cash with its costs, risks at most its fraction of equity, and
      with lots already open keeps the open risk under its cap. It is the largest such size: it
      risks exactly the fraction or spends exactly the cash. */
  lemma ApprovalBounds(
    r: Risk, equity: real, entry: real, stop: real, lots: seq<Lot>, confidence: real,
    cash: Option<real>, costMult: real)
    requires entry > 0.0
    requires SizePosition(r, equity, entry, stop, lots, confidence, cash, costMult).Approved?
    ensures var size := SizePosition(r, equity, entry, stop, lots, confidence, cash, costMult).size;
            var allowed := equity * r.riskFrac * Clamped(confidence);
            var spent := size * UnitCost(entry, costMult);
            && !r.halted && 0.0 < stop < entry
            && (cash.Some? ==> spent <= cash.value && cash.value >= MIN_LOT_NOTIONAL)
            && (entry - stop) * size <= allowed
            && ((entry - stop) * size == allowed || (cash.Some? && spent == cash.value))
            && (lots != [] ==> OpenRisk(lots) + (entry - stop) * size <= equity * r.maxOpenRiskFrac)
  {
    hide SizePosition, RiskSize, RoomSize, UnitCost, OpenRisk, Clamped;
    WhatIsApproved(r, equity, entry, stop, lots, confidence, cash, costMult);
    var wanted := RiskSize(equity, r.riskFrac, confidence, entry, stop);
    RiskSizeRisks(equity, r.riskFrac, confidence, entry, stop);
    if cash.Some? {
      var unit := UnitCost(entry, costMult);
      UnitIsDear(entry, costMult);
      RoomSizeFits(cash.value, unit);
      SmallerOfTwo(wanted, RoomSize(cash.value, unit), entry - stop, unit, entry);
    }
  }

  /** A proposed long is approved if and only if the breaker has not tripped, its stop is positive
      and below its entry, it keeps the open risk of the lots already on under the cap, and the
      cash, where it counts, pays for a least lot with its costs. */
  lemma ApprovedIff(
    r: Risk, equity: real, entry: real, stop: real, lots: seq<Lot>, confidence: real,
    cash: Option<real>, costMult: real)
    ensures SizePosition(r, equity, entry, stop, lots, confidence, cash, costMult).Approved? <==>
            && !r.halted && 0.0 < stop < entry
            && (lots != [] ==> OpenRisk(lots) + equity * r.riskFrac * Clamped(confidence) <= equity * r.maxOpenRiskFrac)
            && (cash.Some? ==> cash.value >= MIN_LOT_NOTIONAL * Max(1.0, costMult))
  {
    hide RiskSize, RoomSize, UnitCost, OpenRisk, Clamped;
    if 0.0 < stop < entry {
      RiskSizeRisks(equity, r.riskFrac, confidence, entry, stop);
      if cash.Some? {
        assert cash.value - equity * (1.0 - MAX_NOTIONAL_FRAC) == cash.value;
        LeastLot(cash.value, entry, costMult);
      }
    }
  }

  lemma LeastLot(cash: real, entry: real, costMult: real)
    requires entry > 0.0
    ensures RoomSize(cash, UnitCost(entry, costMult)) * entry >= MIN_LOT_NOTIONAL <==>
            cash >= MIN_LOT_NOTIONAL * Max(1.0, costMult)
  {
    var mult := Max(1.0, costMult);
    MulPos(entry, mult);
    var unit := entry * mult;
    var worth := cash / unit * entry;
    assert cash / unit * unit == cash;
    assert worth * mult == cash / unit * (entry * mult);
    if worth >= MIN_LOT_NOTIONAL {
      MulLe(MIN_LOT_NOTIONAL, worth, mult);
    } else {
      MulPos(MIN_LOT_NOTIONAL - worth, mult);
    }
  }

  /** A confidence counts as it is between a half and two, and else as the nearer of the two. */
  lemma ClampedIsNearest(confidence: real, other: real)
    requires 0.5 <= other <= 2.0
    ensures 0.5 <= Clamped(confidence) <= 2.0
    ensures Abs(Clamped(confidence) - confidence) <= Abs(other - confidence)
  {
  }

  /** The branch of the gate that approves. */
  lemma WhatIsApproved(
    r: Risk, equity: real, entry: real, stop: real, lots: seq<Lot>, confidence: real,
    cash: Option<real>, costMult: real)
    requires SizePosition(r, equity, entry, stop, lots, confidence, cash, costMult).Approved?
    ensures !r.halted && 0.0 < stop < entry
    ensures var size := SizePosition(r, equity, entry, stop, lots, confidence, cash, costMult).size;
            var wanted := RiskSize(equity, r.riskFrac, confidence, entry, stop);
            && (lots != [] ==> OpenRisk(lots) + (entry - stop) * wanted <= equity * r.maxOpenRiskFrac)
            && (cash.None? ==> size == wanted)
            && (cash.Some? ==>
                  var most := RoomSize(cash.value, UnitCost(entry, costMult));
                  size == Min(wanted, most) && most * entry >= MIN_LOT_NOTIONAL)
  {
    hide RiskSize, RoomSize, UnitCost, OpenRisk, Clamped;
    assert cash.Some? ==> cash.value - equity * (1.0 - MAX_NOTIONAL_FRAC) == cash.value;
  }

  lemma UnitIsDear(entry: real, costMult: real)
    requires entry > 0.0
    ensures UnitCost(entry, costMult) >= entry
  {
    MulLe(1.0, Max(1.0, costMult), entry);
  }

  /** The smaller of two sizes is within both budgets and uses up one of them. */
  lemma SmallerOfTwo(wanted: real, most: real, risk: real, unit: real, entry: real)
    requires risk > 0.0 && 0.0 < entry <= unit && most * entry >= MIN_LOT_NOTIONAL
    ensures var size := Min(wanted, most);
            && risk * size <= risk * wanted && size * unit <= most * unit
            && (risk * size == risk * wanted || size * unit == most * unit)
            && most * unit >= MIN_LOT_NOTIONAL
  {
    var size := Min(wanted, most);
    MulLe(size, most, unit);
    MulLe(size, wanted, risk);
    DustBound(most, entry, unit);
  }

  lemma DustBound(most: real, entry: real, unit: real)
    requires most * entry >= MIN_LOT_NOTIONAL && 0.0 < entry <= unit
    ensures most * unit >= MIN_LOT_NOTIONAL
  {
    if most < 0.0 {
      MulPos(-most, entry);
    }
    MulLe(entry, unit, most);
  }
}
