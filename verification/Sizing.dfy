/** Lot sizing: from risk, from a quantity, and the cut that makes a lot fit the free margin. */
module Sizing {
  import opened Wrappers
  import opened Rounding
  import opened Stops
  import opened Staleness

  const EPSILON: real := 0.000000001
  const USABLE: real := 0.95

  /** The broker's lot grid: a positive step with the stated decimals, and both limits on it. */
  ghost predicate GridAligned(spec: Spec) {
    && spec.volumeStep > 0.0 && 0.0 < spec.volumeMin <= spec.volumeMax
    && OnGrid(spec.volumeStep, StepScale(spec))
    && (exists k: int :: spec.volumeMin == Steps(k, spec.volumeStep))
    && (exists k: int :: spec.volumeMax == Steps(k, spec.volumeStep))
  }

  function StepScale(spec: Spec): (p: real)
    ensures p >= 1.0
  {
    Pow10(spec.stepDigits) as real
  }

  function Clamp(spec: Spec, lot: real): real { Max(spec.volumeMin, Min(lot, spec.volumeMax)) }

  /** `volume` rounded down onto the step grid, a hair of tolerance included. */
  function FloorSteps(volume: real, step: real): (k: int)
    requires step > 0.0
    ensures Steps(k, step) <= volume + EPSILON < Steps(k + 1, step)
  {
    var q := Div(volume + EPSILON, step);
    var k := q.Floor;
    Compare(k as real, q, step, Steps(k, step), volume + EPSILON);
    Compare(q, (k + 1) as real, step, volume + EPSILON, Steps(k + 1, step));
    k
  }

  function NormalizeVolume(spec: Option<Spec>, volume: real): real
    requires spec.Some? ==> spec.value.volumeStep > 0.0
  {
    if spec.None? then volume
    else RoundTo(Clamp(spec.value, Steps(FloorSteps(volume, spec.value.volumeStep), spec.value.volumeStep)),
                 StepScale(spec.value))
  }

  function ConvertQuantityToLots(spec: Option<Spec>, quantity: real): real
    requires spec.Some? ==> spec.value.volumeStep > 0.0
  {
    if spec.None? then 0.01
    else if spec.value.contractSize <= 0.0 then quantity
    else NormalizeVolume(spec, Div(quantity, spec.value.contractSize))
  }

  function RiskCash(capital: real, riskPercent: real): real { capital * (riskPercent / 100.0) }

  /** What one lot loses between `entry` and `sl`. */
  function LossPerLot(spec: Spec, entry: real, sl: real): real
    requires spec.tickSize != 0.0
  {
    Abs(entry - sl) * Div(spec.tickValue, spec.tickSize)
  }

  /** Points to the stop times the value of a point: what one lot loses, as the lot formula has it. */
  function LotDivisor(spec: Spec, entry: real, sl: real): (d: real)
    requires Sizeable(spec) && entry != sl
    ensures d == LossPerLot(spec, entry, sl) && d > 0.0
  {
    var points := Div(Abs(entry - sl), spec.point);
    var tick := Div(spec.tickValue, spec.tickSize);
    Compare(0.0, tick, spec.tickSize, 0.0, spec.tickValue);
    SizingDivisor(points, tick, spec.point, Abs(entry - sl));
    points * (tick * spec.point)
  }

  /** The lot before clamping: the risk spread over the stop distance, rounded to whole steps. */
  function RoundedLot(spec: Spec, entry: real, sl: real, cash: real): (lot: real)
    requires Sizeable(spec) && entry != sl
    ensures exists n: int :: lot == Steps(n, spec.volumeStep)
  {
    Steps(RoundHalfEven(Div(Div(cash, LotDivisor(spec, entry, sl)), spec.volumeStep)), spec.volumeStep)
  }

  predicate Sizeable(spec: Spec) {
    spec.point > 0.0 && spec.tickSize > 0.0 && spec.tickValue > 0.0 && spec.volumeStep > 0.0
  }

  function CalculateLotSize(spec: Option<Spec>, entry: real, sl: real, riskPercent: real, capital: real): real
    requires spec.Some? && spec.value.point > 0.0 && spec.value.tickSize != 0.0 && spec.value.tickValue != 0.0 ==>
               Sizeable(spec.value)
  {
    if spec.None? then 0.01
    else
      var s := spec.value;
      if s.point <= 0.0 || entry == sl || s.tickSize == 0.0 || s.tickValue == 0.0 then s.volumeMin
      else
        var lot := Clamp(s, RoundedLot(s, entry, sl, RiskCash(capital, riskPercent)));
        if s.volumeStep >= 0.01 then RoundTo(lot, 100.0) else lot
  }

  /** The divisor of the lot formula is the loss of one lot. */
  lemma SizingDivisor(points: real, tick: real, point: real, distance: real)
    requires points * point == distance && distance > 0.0 && point > 0.0 && tick > 0.0
    ensures points * (tick * point) == distance * tick && distance * tick > 0.0
  {
    Regroup(points, point, tick, distance, tick * point);
    Compare(0.0, distance, tick, 0.0, distance * tick);
  }

  // ----- the risk a sized lot carries

  /** Half a volume step's loss. */
  function HalfStepLoss(spec: Spec, loss: real): real { 0.5 * spec.volumeStep * loss }

  lemma RoundedLotRisk(spec: Spec, entry: real, sl: real, cash: real, value: real)
    requires Sizeable(spec) && entry != sl
    requires value == RoundedLot(spec, entry, sl, cash) * LossPerLot(spec, entry, sl)
    ensures LossPerLot(spec, entry, sl) > 0.0
    ensures var slack := HalfStepLoss(spec, LossPerLot(spec, entry, sl)); cash - slack <= value <= cash + slack
  {
    var loss, step := LotDivisor(spec, entry, sl), spec.volumeStep;
    var lot := Div(cash, loss);
    var x := Div(lot, step);
    RoundHalfEvenNear(x);
    RoundingError(RoundHalfEven(x) as real, x, step, lot, loss, cash, RoundedLot(spec, entry, sl, cash),
                  0.5 * step, value, HalfStepLoss(spec, loss));
  }

  /** Half a step of rounding costs at most half a step's loss. */
  lemma RoundingError(n: real, x: real, step: real, lot: real, loss: real, cash: real,
                      rounded: real, half: real, value: real, slack: real)
    requires -0.5 <= n - x <= 0.5 && step > 0.0 && loss > 0.0 && lot == x * step && cash == lot * loss
    requires rounded == n * step && half == 0.5 * step && value == rounded * loss && slack == half * loss
    ensures cash - slack <= value <= cash + slack
  {
    Near(n, x, 0.5, step, lot, rounded, half);
    Near(rounded, lot, half, loss, cash, value, slack);
  }

  /** The loss at the stop is within the risk cash and half a step's loss, unless the lot the risk asks for
      is below the broker's minimum and was raised to it. */
  ghost predicate WithinRisk(spec: Spec, entry: real, sl: real, lot: real, cash: real)
    requires Sizeable(spec) && entry != sl
  {
    RoundedLot(spec, entry, sl, cash) >= spec.volumeMin ==>
      lot * LossPerLot(spec, entry, sl) <= cash + HalfStepLoss(spec, LossPerLot(spec, entry, sl))
  }

  /** A number of whole steps as it leaves the sizer. */
  function FinalLot(spec: Spec, k: int): real {
    var lot := Clamp(spec, Steps(k, spec.volumeStep));
    if spec.volumeStep >= 0.01 then RoundTo(lot, 100.0) else lot
  }

  /** The last rounding, to two decimals, never lifts a lot that was not raised to the minimum. */
  ghost predicate NeverLifts(spec: Spec) {
    forall k: int :: Steps(k, spec.volumeStep) >= spec.volumeMin ==> FinalLot(spec, k) <= Steps(k, spec.volumeStep)
  }

  /** The sized lot is the final form of the nearest number of whole steps. */
  lemma SizedLot(spec: Spec, entry: real, sl: real, riskPercent: real, capital: real) returns (k: int)
    requires Sizeable(spec) && entry != sl
    ensures RoundedLot(spec, entry, sl, RiskCash(capital, riskPercent)) == Steps(k, spec.volumeStep)
    ensures CalculateLotSize(Some(spec), entry, sl, riskPercent, capital) == FinalLot(spec, k)
  {
    k := RoundHalfEven(Div(Div(RiskCash(capital, riskPercent), LotDivisor(spec, entry, sl)), spec.volumeStep));
  }

  /** No lot up to the rounded one loses more than the risk cash and half a step's loss. */
  lemma UpToRoundedKeepsRisk(spec: Spec, entry: real, sl: real, cash: real, lot: real)
    requires Sizeable(spec) && entry != sl && lot <= RoundedLot(spec, entry, sl, cash)
    ensures lot * LossPerLot(spec, entry, sl) <= cash + HalfStepLoss(spec, LossPerLot(spec, entry, sl))
  {
    var loss, rounded := LossPerLot(spec, entry, sl), RoundedLot(spec, entry, sl, cash);
    var value := rounded * loss;
    RoundedLotRisk(spec, entry, sl, cash, value);
    Compare(lot, rounded, loss, lot * loss, value);
  }

  /** A lot no larger than the sized one keeps the bound. */
  lemma NeverLiftsKeepsRisk(spec: Spec, entry: real, sl: real, riskPercent: real, capital: real, lot: real)
    requires Sizeable(spec) && entry != sl && NeverLifts(spec)
    requires lot <= CalculateLotSize(Some(spec), entry, sl, riskPercent, capital)
    ensures WithinRisk(spec, entry, sl, lot, RiskCash(capital, riskPercent))
  {
    var cash := RiskCash(capital, riskPercent);
    var k := SizedLot(spec, entry, sl, riskPercent, capital);
    if RoundedLot(spec, entry, sl, cash) >= spec.volumeMin { UpToRoundedKeepsRisk(spec, entry, sl, cash, lot); }
  }

  /** A capital that asks for just more than half a step below `k` steps, at a stop one unit away. */
  function CriticalCapital(spec: Spec, k: int): real
    requires Sizeable(spec)
  {
    var excess := Div(FinalLot(spec, k) - Steps(k, spec.volumeStep), spec.volumeStep);
    (k as real - 0.5 + Min(0.5, excess / 2.0)) * spec.volumeStep * LossPerLot(spec, 1.0, 0.0)
  }

  lemma CriticalSteps(k: int, delta: real, step: real, loss: real, cash: real)
    requires step > 0.0 && loss > 0.0 && 0.0 < delta <= 0.5 && cash == (k as real - 0.5 + delta) * step * loss
    ensures RoundHalfEven(Div(Div(cash, loss), step)) == k
  {
    var x := k as real - 0.5 + delta;
    var lot := x * step;
    Cancel(Div(cash, loss), lot, loss);
    Cancel(Div(lot, step), x, step);
  }

  /** That capital is sized to exactly `k` steps. */
  lemma CriticalIsSized(spec: Spec, k: int, delta: real, cash: real)
    requires Sizeable(spec) && 0.0 < delta <= 0.5
    requires cash == (k as real - 0.5 + delta) * spec.volumeStep * LossPerLot(spec, 1.0, 0.0)
    ensures RoundedLot(spec, 1.0, 0.0, RiskCash(cash, 100.0)) == Steps(k, spec.volumeStep)
    ensures CalculateLotSize(Some(spec), 1.0, 0.0, 100.0, cash) == FinalLot(spec, k)
    ensures RiskCash(cash, 100.0) == cash
  {
    CriticalSteps(k, delta, spec.volumeStep, LotDivisor(spec, 1.0, 0.0), cash);
  }

  lemma CriticalExceeds(spec: Spec, k: int)
    requires Sizeable(spec) && FinalLot(spec, k) > Steps(k, spec.volumeStep)
    ensures var loss := LossPerLot(spec, 1.0, 0.0);
            FinalLot(spec, k) * loss > CriticalCapital(spec, k) + HalfStepLoss(spec, loss)
  {
    var step, loss, lot := spec.volumeStep, LotDivisor(spec, 1.0, 0.0), FinalLot(spec, k);
    var excess := Div(lot - Steps(k, step), step);
    Compare(0.0, excess, step, 0.0, lot - Steps(k, step));
    LiftExceeds(k, Min(0.5, excess / 2.0), excess, step, loss, lot, CriticalCapital(spec, k));
  }

  lemma CriticalDelta(spec: Spec, k: int)
    requires Sizeable(spec) && FinalLot(spec, k) > Steps(k, spec.volumeStep)
    ensures 0.0 < Min(0.5, Div(FinalLot(spec, k) - Steps(k, spec.volumeStep), spec.volumeStep) / 2.0) <= 0.5
  {
    var lift := FinalLot(spec, k) - Steps(k, spec.volumeStep);
    Compare(0.0, Div(lift, spec.volumeStep), spec.volumeStep, 0.0, lift);
  }

  /** A lot lifted by the last rounding exceeds what half a step allows, for some risk. */
  lemma LiftedLotExceedsRisk(spec: Spec, k: int)
    requires Sizeable(spec) && Steps(k, spec.volumeStep) >= spec.volumeMin && FinalLot(spec, k) > Steps(k, spec.volumeStep)
    ensures var capital := CriticalCapital(spec, k);
            !WithinRisk(spec, 1.0, 0.0, CalculateLotSize(Some(spec), 1.0, 0.0, 100.0, capital), RiskCash(capital, 100.0))
  {
    CriticalDelta(spec, k);
    CriticalExceeds(spec, k);
    CriticalIsSized(spec, k, Min(0.5, Div(FinalLot(spec, k) - Steps(k, spec.volumeStep), spec.volumeStep) / 2.0), CriticalCapital(spec, k));
  }

  lemma LiftExceeds(k: int, delta: real, excess: real, step: real, loss: real, lot: real, cash: real)
    requires step > 0.0 && loss > 0.0 && 0.0 < delta <= excess / 2.0
    requires excess * step == lot - k as real * step && cash == (k as real - 0.5 + delta) * step * loss
    ensures lot * loss > cash + 0.5 * step * loss
  {
    var a, b := k as real + delta, k as real + excess;
    assert b * step == lot;
    Compare(a, b, step, a * step, lot);
    var limit := a * step;
    Compare(limit, lot, loss, limit * loss, lot * loss);
    assert limit * loss == cash + 0.5 * step * loss by {
      var x := k as real - 0.5 + delta;
      SumTimes(x, 0.5, step, x * step, 0.5 * step);
      SumTimes(x * step, 0.5 * step, loss, cash, 0.5 * step * loss);
    }
  }

  ghost predicate AlwaysWithinRisk(spec: Spec)
    requires Sizeable(spec)
  {
    forall entry, sl, riskPercent, capital :: entry != sl ==>
      WithinRisk(spec, entry, sl, CalculateLotSize(Some(spec), entry, sl, riskPercent, capital), RiskCash(capital, riskPercent))
  }

  /** The risk bound holds for every entry, stop, risk and capital exactly when the last rounding lifts no lot:
      at steps below a hundredth always, else when no number of whole steps is rounded up. */
  lemma RiskBoundIff(spec: Spec)
    requires Sizeable(spec)
    ensures AlwaysWithinRisk(spec) <==> NeverLifts(spec)
  {
    if NeverLifts(spec) {
      forall entry, sl, riskPercent, capital | entry != sl
        ensures WithinRisk(spec, entry, sl, CalculateLotSize(Some(spec), entry, sl, riskPercent, capital), RiskCash(capital, riskPercent))
      {
        NeverLiftsKeepsRisk(spec, entry, sl, riskPercent, capital, CalculateLotSize(Some(spec), entry, sl, riskPercent, capital));
      }
    } else {
      var k: int :| Steps(k, spec.volumeStep) >= spec.volumeMin && FinalLot(spec, k) > Steps(k, spec.volumeStep);
      LiftedLotExceedsRisk(spec, k);
    }
  }

  /** Steps below a hundredth are not rounded again, and lots of whole hundredths are not moved. */
  lemma CentGridNeverLifts(spec: Spec)
    requires CentGrid(spec)
    ensures NeverLifts(spec)
  {
    forall k: int | Steps(k, spec.volumeStep) >= spec.volumeMin ensures FinalLot(spec, k) <= Steps(k, spec.volumeStep) {
      if spec.volumeStep >= 0.01 { ClampedOnGrid(spec, k, 100.0); }
    }
  }

  /** With steps of at least a hundredth, lots and limits have two decimals, so the last rounding of
      `CalculateLotSize` does nothing. */
  ghost predicate CentGrid(spec: Spec) {
    spec.volumeStep >= 0.01 ==>
      OnGrid(spec.volumeStep, 100.0) && OnGrid(spec.volumeMin, 100.0) && OnGrid(spec.volumeMax, 100.0)
  }

  /** On a grid of hundredths the configured risk is kept on both sides: the sized lot loses at the stop at most
      the risk cash plus half a volume step's loss, unless it was raised to the broker's minimum, and it falls
      short of the risk by no more than that, unless it was cut to its maximum. */
  lemma LotRiskBound(spec: Spec, entry: real, sl: real, riskPercent: real, capital: real)
    requires Sizeable(spec) && entry != sl && CentGrid(spec) && spec.volumeMin <= spec.volumeMax
    ensures var lot := CalculateLotSize(Some(spec), entry, sl, riskPercent, capital);
            var loss := LossPerLot(spec, entry, sl);
            var cash := RiskCash(capital, riskPercent);
            && spec.volumeMin <= lot <= spec.volumeMax
            && WithinRisk(spec, entry, sl, lot, cash)
            && (lot < spec.volumeMax ==> lot * loss >= cash - HalfStepLoss(spec, loss))
  {
    var cash, loss := RiskCash(capital, riskPercent), LossPerLot(spec, entry, sl);
    var rounded := RoundedLot(spec, entry, sl, cash);
    var value := rounded * loss;
    RoundedLotRisk(spec, entry, sl, cash, value);
    var lot := CalculateLotSize(Some(spec), entry, sl, riskPercent, capital);
    assert lot == Clamp(spec, rounded) by { LotHasCents(spec, entry, sl, cash); }
    Compare(lot, rounded, loss, lot * loss, value);
  }

  /** Clamping whole steps to limits on the grid leaves a number that rounding does not move. */
  lemma ClampedOnGrid(spec: Spec, k: int, scale: real)
    requires scale > 0.0 && OnGrid(spec.volumeStep, scale) && OnGrid(spec.volumeMin, scale) && OnGrid(spec.volumeMax, scale)
    ensures RoundTo(Clamp(spec, Steps(k, spec.volumeStep)), scale) == Clamp(spec, Steps(k, spec.volumeStep))
  {
    MultipleOnGrid(k, spec.volumeStep, scale);
    var steps := Steps(k, spec.volumeStep);
    var clamped := Clamp(spec, steps);
    assert clamped == spec.volumeMin || clamped == steps || clamped == spec.volumeMax;
    RoundToFixes(clamped, scale);
  }

  lemma LotHasCents(spec: Spec, entry: real, sl: real, cash: real)
    requires Sizeable(spec) && entry != sl && CentGrid(spec) && spec.volumeMin <= spec.volumeMax
    ensures var lot := Clamp(spec, RoundedLot(spec, entry, sl, cash));
            spec.volumeStep >= 0.01 ==> RoundTo(lot, 100.0) == lot
  {
    if spec.volumeStep >= 0.01 {
      var n: int :| RoundedLot(spec, entry, sl, cash) == Steps(n, spec.volumeStep);
      ClampedOnGrid(spec, n, 100.0);
    }
  }

  /** At a step of 0.025 the last rounding lifts 0.075 to 0.08, so the bound fails for some risk. */
  lemma OffGridStepExceedsRisk(spec: Spec)
    requires Sizeable(spec) && spec.volumeMin == 0.01 && spec.volumeStep == 0.025 && spec.volumeMax == 100.0
    ensures !AlwaysWithinRisk(spec)
  {
    assert Steps(3, 0.025) == 0.075 && Clamp(spec, 0.075) == 0.075;
    RoundsUp();
    RiskBoundIff(spec);
    assert FinalLot(spec, 3) > Steps(3, spec.volumeStep);
  }

  lemma RoundsUp()
    ensures RoundTo(0.075, 100.0) == 0.08
  {
    assert RoundHalfEven(7.5) == 8;
    Cancel(RoundTo(0.075, 100.0), 0.08, 100.0);
  }

  /** A step of 0.024 that is also the only lot is rounded down, so the bound holds off the grid too. */
  lemma OffGridStepMayKeepRisk(spec: Spec)
    requires Sizeable(spec) && spec.volumeMin == spec.volumeStep == spec.volumeMax == 0.024
    ensures AlwaysWithinRisk(spec) && !CentGrid(spec)
  {
    RoundsDown();
    forall k: int | Steps(k, spec.volumeStep) >= spec.volumeMin ensures FinalLot(spec, k) <= Steps(k, spec.volumeStep) {
      assert Clamp(spec, Steps(k, spec.volumeStep)) == 0.024;
    }
    RiskBoundIff(spec);
    assert forall n: int :: !Scaled(0.024, 100.0, n);
  }

  lemma RoundsDown()
    ensures RoundTo(0.024, 100.0) == 0.02
  {
    assert RoundHalfEven(2.4) == 2;
    Cancel(RoundTo(0.024, 100.0), 0.02, 100.0);
  }

  /** A wider stop never sizes a larger lot. */
  lemma WiderStopNeverRaisesLot(spec: Spec, entry: real, sl: real, wider: real, riskPercent: real, capital: real)
    requires Sizeable(spec) && 0.0 < Abs(entry - sl) <= Abs(entry - wider) && capital >= 0.0 && riskPercent >= 0.0
    ensures CalculateLotSize(Some(spec), entry, wider, riskPercent, capital)
            <= CalculateLotSize(Some(spec), entry, sl, riskPercent, capital)
  {
    var cash := RiskCash(capital, riskPercent);
    assert cash >= 0.0 by { MulMonotone(0.0, riskPercent / 100.0, capital); }
    RoundedLotMonotone(spec, entry, sl, wider, cash);
    var a, b := Clamp(spec, RoundedLot(spec, entry, wider, cash)), Clamp(spec, RoundedLot(spec, entry, sl, cash));
    assert a <= b;
    RoundToMonotone(a, b, 100.0);
  }

  lemma RoundedLotMonotone(spec: Spec, entry: real, sl: real, wider: real, cash: real)
    requires Sizeable(spec) && 0.0 < Abs(entry - sl) <= Abs(entry - wider) && cash >= 0.0
    ensures RoundedLot(spec, entry, wider, cash) <= RoundedLot(spec, entry, sl, cash)
  {
    var n, f := LotDivisor(spec, entry, sl), LotDivisor(spec, entry, wider);
    DivisorMonotone(spec, entry, sl, wider);
    var p, q := Div(cash, f), Div(cash, n);
    QuotientMonotone(p, q, f, n, cash);
    RoundedStepsMonotone(p, q, spec.volumeStep);
  }

  lemma DivisorMonotone(spec: Spec, entry: real, sl: real, wider: real)
    requires Sizeable(spec) && 0.0 < Abs(entry - sl) <= Abs(entry - wider)
    ensures 0.0 < LotDivisor(spec, entry, sl) <= LotDivisor(spec, entry, wider)
  {
    var tick := Div(spec.tickValue, spec.tickSize);
    Compare(0.0, tick, spec.tickSize, 0.0, spec.tickValue);
    Compare(Abs(entry - sl), Abs(entry - wider), tick, LotDivisor(spec, entry, sl), LotDivisor(spec, entry, wider));
    Compare(0.0, Abs(entry - sl), tick, 0.0, LotDivisor(spec, entry, sl));
  }

  lemma RoundedStepsMonotone(p: real, q: real, step: real)
    requires p <= q && step > 0.0
    ensures Steps(RoundHalfEven(Div(p, step)), step) <= Steps(RoundHalfEven(Div(q, step)), step)
  {
    var x, y := Div(p, step), Div(q, step);
    Compare(x, y, step, p, q);
    RoundHalfEvenMonotone(x, y);
    Compare(RoundHalfEven(x) as real, RoundHalfEven(y) as real, step, Steps(RoundHalfEven(x), step), Steps(RoundHalfEven(y), step));
  }

  lemma QuotientMonotone(p: real, q: real, f: real, n: real, cash: real)
    requires p * f == cash && q * n == cash && 0.0 < n <= f && cash >= 0.0
    ensures p <= q
  {
    Compare(0.0, q, n, 0.0, cash);
    MulMonotone(n, f, q);
    Compare(p, q, f, cash, q * f);
  }

  // ----- margin

  /** Margin is linear in the lot, so the shortfall ratio gives the lot that fits. */
  function Affordable(volume: real, budget: real, required: real): real
    requires required > 0.0
  {
    Div(volume * budget, required)
  }

  /** The entry lot the account can carry, or nothing when the entry is refused. */
  function FitVolumeToMargin(calcMargin: real -> Option<real>, free: Option<real>, volume: real, spec: Option<Spec>):
    Option<real>
    requires spec.Some? ==> spec.value.volumeStep > 0.0
  {
    var required := calcMargin(volume);
    if required.None? || required.value <= 0.0 || spec.None? || free.None? then Some(volume)
    else
      var budget := free.value * USABLE;
      if required.value <= budget then Some(volume)
      else
        var affordable := Min(volume, NormalizeVolume(spec, Affordable(volume, budget, required.value)));
        var margin := calcMargin(affordable);
        if margin.Some? && margin.value > budget then None else Some(affordable)
  }

  /** The margin is `perLot` for every lot. */
  ghost predicate Linear(calcMargin: real -> Option<real>, perLot: real) {
    perLot > 0.0 && forall v :: calcMargin(v) == Some(perLot * v)
  }

  /** A lot the broker accepts. */
  ghost predicate ValidLot(spec: Spec, lot: real) {
    spec.volumeMin <= lot <= spec.volumeMax && exists k: int :: lot == Steps(k, spec.volumeStep)
  }

  lemma NormalizedIsClamped(spec: Spec, volume: real)
    requires GridAligned(spec)
    ensures NormalizeVolume(Some(spec), volume)
            == Clamp(spec, Steps(FloorSteps(volume, spec.volumeStep), spec.volumeStep))
  {
    var k := FloorSteps(volume, spec.volumeStep);
    var low: int :| spec.volumeMin == Steps(low, spec.volumeStep);
    var high: int :| spec.volumeMax == Steps(high, spec.volumeStep);
    MultipleOnGrid(low, spec.volumeStep, StepScale(spec));
    MultipleOnGrid(high, spec.volumeStep, StepScale(spec));
    ClampedOnGrid(spec, k, StepScale(spec));
  }

  /** Rounding down leaves no whole step below `volume` out. */
  lemma FloorStepsLargest(k: int, volume: real, step: real)
    requires step > 0.0 && Steps(k, step) <= volume
    ensures k <= FloorSteps(volume, step)
  {
    var f := FloorSteps(volume, step);
    Compare(k as real, (f + 1) as real, step, Steps(k, step), Steps(f + 1, step));
  }

  /** The affordable lot: the budget divided by the margin of one lot. */
  lemma AffordableLot(volume: real, budget: real, perLot: real, required: real, b: real, margin: real)
    requires perLot > 0.0 && volume > 0.0 && required == perLot * volume
    requires b * required == volume * budget && margin == perLot * b
    ensures required > 0.0 && margin == budget
  {
    Compare(0.0, volume, perLot, 0.0, required);
    Regroup(b, perLot, volume, margin, required);
    Compare(margin, budget, volume, margin * volume, budget * volume);
  }

  /** Exactly the lots up to `b` fit the budget. */
  ghost predicate Cutoff(calcMargin: real -> Option<real>, budget: real, b: real) {
    forall lot :: calcMargin(lot).Some? && (calcMargin(lot).value <= budget <==> lot <= b)
  }

  lemma LinearAt(calcMargin: real -> Option<real>, perLot: real, lot: real, margin: real)
    requires Linear(calcMargin, perLot) && margin == perLot * lot
    ensures calcMargin(lot) == Some(margin)
  {
  }

  lemma AffordableIsCutoff(calcMargin: real -> Option<real>, perLot: real, budget: real, volume: real)
    requires Linear(calcMargin, perLot) && volume > 0.0
    ensures calcMargin(volume).Some? && calcMargin(volume).value > 0.0
    ensures Cutoff(calcMargin, budget, Affordable(volume, budget, calcMargin(volume).value))
    ensures calcMargin(Affordable(volume, budget, calcMargin(volume).value)) == Some(budget)
  {
    var required := calcMargin(volume).value;
    Compare(0.0, volume, perLot, 0.0, required);
    var b := Affordable(volume, budget, required);
    var margin := perLot * b;
    AffordableLot(volume, budget, perLot, required, b, margin);
    LinearAt(calcMargin, perLot, b, margin);
    forall lot ensures calcMargin(lot).Some? && (calcMargin(lot).value <= budget <==> lot <= b) {
      Compare(lot, b, perLot, perLot * lot, budget);
    }
  }

  /** What the margin check returns never exceeds the request, fits the usable margin, and is at least
      every lot the broker accepts that is no larger than the request and fits. */
  lemma FittedLotIsBest(calcMargin: real -> Option<real>, perLot: real, free: real, volume: real, spec: Spec)
    requires Linear(calcMargin, perLot) && GridAligned(spec) && volume > 0.0
    requires FitVolumeToMargin(calcMargin, Some(free), volume, Some(spec)).Some?
    ensures BestFit(calcMargin, free * USABLE, volume, spec,
                    FitVolumeToMargin(calcMargin, Some(free), volume, Some(spec)).value)
  {
    AffordableIsCutoff(calcMargin, perLot, free * USABLE, volume);
    CutoffFit(calcMargin, free, volume, spec);
  }

  /** `lot` is within the request and the budget, and no accepted lot within both is larger. */
  ghost predicate BestFit(calcMargin: real -> Option<real>, budget: real, volume: real, spec: Spec, lot: real) {
    && lot <= volume
    && calcMargin(lot).Some? && calcMargin(lot).value <= budget
    && forall other :: ValidLot(spec, other) && other <= volume && Fits(calcMargin, budget, other) ==> other <= lot
  }

  lemma CutoffFit(calcMargin: real -> Option<real>, free: real, volume: real, spec: Spec)
    requires calcMargin(volume).Some? && calcMargin(volume).value > 0.0 && GridAligned(spec)
    requires Cutoff(calcMargin, free * USABLE, Affordable(volume, free * USABLE, calcMargin(volume).value))
    ensures var fitted := FitVolumeToMargin(calcMargin, Some(free), volume, Some(spec));
            var b := Affordable(volume, free * USABLE, calcMargin(volume).value);
            && (fitted.Some? ==> BestFit(calcMargin, free * USABLE, volume, spec, fitted.value))
            && (fitted.None? ==> !Fits(calcMargin, free * USABLE, Min(spec.volumeMin, volume)) || JustBelowGrid(spec, b))
  {
    var budget := free * USABLE;
    var b := Affordable(volume, budget, calcMargin(volume).value);
    if calcMargin(volume).value > budget {
      forall other | ValidLot(spec, other) && other <= volume && other <= b ensures other <= Reduced(spec, volume, b) {
        ReducedDominates(spec, volume, b, other);
      }
      if Reduced(spec, volume, b) > b { ReducedAbove(spec, volume, b); }
    }
  }

  ghost predicate Fits(calcMargin: real -> Option<real>, budget: real, lot: real) {
    calcMargin(lot).Some? && calcMargin(lot).value <= budget
  }

  /** The lot tried when the request does not fit. */
  function Reduced(spec: Spec, volume: real, b: real): real
    requires spec.volumeStep > 0.0
  {
    Min(volume, NormalizeVolume(Some(spec), b))
  }

  lemma ReducedDominates(spec: Spec, volume: real, b: real, other: real)
    requires GridAligned(spec) && ValidLot(spec, other) && other <= volume && other <= b
    ensures other <= Reduced(spec, volume, b)
  {
    NormalizedIsClamped(spec, b);
    ValidLotIsSteps(spec, other, b);
  }

  /** A reduced lot above `b` is the smallest usable lot, or a grid point the tolerance reached. */
  lemma ReducedAbove(spec: Spec, volume: real, b: real)
    requires GridAligned(spec) && Reduced(spec, volume, b) > b
    ensures Reduced(spec, volume, b) == Min(spec.volumeMin, volume) || JustBelowGrid(spec, b)
  {
    NormalizedIsClamped(spec, b);
    var k := FloorSteps(b, spec.volumeStep);
    if Reduced(spec, volume, b) != Min(spec.volumeMin, volume) {
      assert b < Steps(k, spec.volumeStep) <= b + EPSILON;
    }
  }

  /** A valid lot of at most `b` is at most `b` rounded down. */
  lemma ValidLotIsSteps(spec: Spec, other: real, b: real)
    requires ValidLot(spec, other) && other <= b && spec.volumeStep > 0.0
    ensures other <= Steps(FloorSteps(b, spec.volumeStep), spec.volumeStep)
  {
    var k: int :| other == Steps(k, spec.volumeStep);
    FloorStepsLargest(k, b, spec.volumeStep);
    var f := FloorSteps(b, spec.volumeStep);
    Compare(k as real, f as real, spec.volumeStep, other, Steps(f, spec.volumeStep));
  }

  /** `lot` lies at most the tolerance below a grid point. */
  ghost predicate JustBelowGrid(spec: Spec, lot: real) {
    exists k: int :: lot < Steps(k, spec.volumeStep) <= lot + EPSILON
  }

  /** An entry is refused only when the smallest lot it may use does not fit, or the affordable lot lies
      within a billionth below a grid point, which the tolerance then rounds up to. */
  lemma RefusalMeansUnaffordable(calcMargin: real -> Option<real>, perLot: real, free: real, volume: real, spec: Spec)
    requires Linear(calcMargin, perLot) && GridAligned(spec) && volume > 0.0
    requires FitVolumeToMargin(calcMargin, Some(free), volume, Some(spec)).None?
    ensures || !Fits(calcMargin, free * USABLE, Min(spec.volumeMin, volume))
            || exists lot :: calcMargin(lot) == Some(free * USABLE) && JustBelowGrid(spec, lot)
  {
    AffordableIsCutoff(calcMargin, perLot, free * USABLE, volume);
    CutoffFit(calcMargin, free, volume, spec);
  }

  /** The request stands when nothing tells that it does not fit: no quote, no rules, no free margin, or enough of it. */
  lemma UnknownMarginKeepsRequest(calcMargin: real -> Option<real>, free: Option<real>, volume: real, spec: Option<Spec>)
    requires spec.Some? ==> spec.value.volumeStep > 0.0
    requires var required := calcMargin(volume);
      spec.None? || free.None? || required.None? || required.value <= 0.0 || required.value <= 0.95 * free.value
    ensures FitVolumeToMargin(calcMargin, free, volume, spec) == Some(volume)
  {
  }

  /** A quantity becomes a lot the broker accepts: no more contracts than it covers, a hair aside, unless raised to
      the minimum, and short of them by less than a step, unless cut to the maximum. */
  lemma QuantityLotBound(spec: Spec, quantity: real, contracts: real)
    requires GridAligned(spec) && spec.contractSize > 0.0 && contracts * spec.contractSize == quantity
    ensures var lot := ConvertQuantityToLots(Some(spec), quantity);
      && ValidLot(spec, lot)
      && (lot > spec.volumeMin ==> lot - 0.000000001 <= contracts)
      && (lot < spec.volumeMax ==> contracts < lot + spec.volumeStep)
  {
    Compare(Div(quantity, spec.contractSize), contracts, spec.contractSize, quantity, quantity);
    FlooredLot(spec, contracts);
    assert ConvertQuantityToLots(Some(spec), quantity) == NormalizeVolume(Some(spec), contracts);
  }

  /** A lot rounded down onto the grid and between its limits. */
  lemma FlooredLot(spec: Spec, volume: real)
    requires GridAligned(spec)
    ensures var lot := NormalizeVolume(Some(spec), volume);
      && ValidLot(spec, lot)
      && (lot > spec.volumeMin ==> lot - 0.000000001 <= volume)
      && (lot < spec.volumeMax ==> volume < lot + spec.volumeStep)
  {
    var k := FloorSteps(volume, spec.volumeStep);
    NormalizedIsClamped(spec, volume);
    StepsOneMore(k, spec.volumeStep);
    var steps := Steps(k, spec.volumeStep);
    assert steps <= volume + EPSILON && volume + EPSILON < steps + spec.volumeStep;
    assert Clamp(spec, steps) == spec.volumeMin || Clamp(spec, steps) == spec.volumeMax || Clamp(spec, steps) == steps;
  }

  lemma StepsOneMore(k: int, step: real)
    ensures Steps(k + 1, step) == Steps(k, step) + step
  {
  }

  /** Without the contract's size the quantity is the lot, without any rules the lot is the smallest usual one. */
  lemma UnsizedQuantity(spec: Spec, quantity: real)
    requires spec.volumeStep > 0.0 && spec.contractSize <= 0.0
    ensures ConvertQuantityToLots(Some(spec), quantity) == quantity && ConvertQuantityToLots(None, quantity) == 0.01
  {
  }

  /** Without a usable distance or tick the lot is the broker's minimum, without any rules the smallest usual one. */
  lemma UnsizedRisk(spec: Spec, entry: real, sl: real, riskPercent: real, capital: real)
    requires spec.point <= 0.0 || entry == sl || spec.tickSize == 0.0 || spec.tickValue == 0.0
    requires spec.point > 0.0 && spec.tickSize != 0.0 && spec.tickValue != 0.0 ==> Sizeable(spec)
    ensures CalculateLotSize(Some(spec), entry, sl, riskPercent, capital) == spec.volumeMin
    ensures CalculateLotSize(None, entry, sl, riskPercent, capital) == 0.01
  {
  }

  // ----- the entry pipeline

  datatype Sizing = Sizing(
    volumeDecision: bool, capital: real, riskPercentage: real, useAccountEquity: Option<bool>, customRisk: bool)

  /** The sizing wishes a signal carries; `scale` is its scale-in factor, one for a normal entry. */
  datatype SizingRequest = SizingRequest(
    quantity: real, riskPercent: Option<real>, useEquity: Option<bool>, scale: real)

  function ResolveEquitySizing(cfg: Sizing, flag: Option<bool>): Option<bool> {
    if cfg.useAccountEquity.Some? then cfg.useAccountEquity else flag
  }

  predicate UsesPayloadQuantity(cfg: Sizing, flag: Option<bool>) {
    var equity := ResolveEquitySizing(cfg, flag);
    if equity.Some? then !equity.value else !cfg.volumeDecision
  }

  function RiskPercentFor(cfg: Sizing, req: SizingRequest): real {
    (if !cfg.customRisk && req.riskPercent.Some? && req.riskPercent.value > 0.0 then req.riskPercent.value
     else cfg.riskPercentage) * req.scale
  }

  function CapitalFor(cfg: Sizing, req: SizingRequest, equity: Option<real>): Option<real> {
    if ResolveEquitySizing(cfg, req.useEquity) == Some(true) then equity else Some(cfg.capital)
  }

  function ResolveEntryVolume(
    cfg: Sizing, req: SizingRequest, spec: Option<Spec>, price: real, sl: Option<real>, equity: Option<real>): real
    requires spec.Some? ==> Sizeable(spec.value)
  {
    if UsesPayloadQuantity(cfg, req.useEquity) then ConvertQuantityToLots(spec, req.quantity)
    else if !HasPrice(sl) then (if spec.Some? then spec.value.volumeMin else 0.01)
    else
      var capital := CapitalFor(cfg, req, equity);
      if capital.None? then 0.01
      else CalculateLotSize(spec, price, sl.value, RiskPercentFor(cfg, req), capital.value)
  }

  // ----- which mode sizes an entry

  /** The setting decides; unset, the signal does; silent too, the old switch does. */
  predicate ByQuantity(cfg: Sizing, req: SizingRequest) {
    || cfg.useAccountEquity == Some(false)
    || (cfg.useAccountEquity == None && (req.useEquity == Some(false) || (req.useEquity == None && !cfg.volumeDecision)))
  }

  predicate FromEquity(cfg: Sizing, req: SizingRequest) {
    cfg.useAccountEquity == Some(true) || (cfg.useAccountEquity == None && req.useEquity == Some(true))
  }

  /** The signal's own risk counts when it is positive and the operator has not fixed one; it is scaled either way. */
  predicate RiskAsked(cfg: Sizing, req: SizingRequest, percent: real) {
    if cfg.customRisk || req.riskPercent == None || req.riskPercent.value <= 0.0 then percent == cfg.riskPercentage * req.scale
    else percent == req.riskPercent.value * req.scale
  }

  /** The lot an entry asks for, by mode: from its quantity; the minimum without a stop; a fixed one when the equity it
      is to be sized from is unknown; else from the risk asked for on the equity or the fixed capital. */
  lemma RequestedLotIs(
    cfg: Sizing, req: SizingRequest, spec: Option<Spec>, price: real, sl: Option<real>, equity: Option<real>, percent: real)
    requires (spec.Some? ==> Sizeable(spec.value)) && RiskAsked(cfg, req, percent)
    ensures UsesPayloadQuantity(cfg, req.useEquity) <==> ByQuantity(cfg, req)
    ensures RiskPercentFor(cfg, req) == percent
    ensures CapitalFor(cfg, req, equity) == if FromEquity(cfg, req) then equity else Some(cfg.capital)
    ensures var stopped := sl != None && sl != Some(0.0);
      ResolveEntryVolume(cfg, req, spec, price, sl, equity) ==
        if ByQuantity(cfg, req) then ConvertQuantityToLots(spec, req.quantity)
        else if !stopped then (if spec.None? then 0.01 else spec.value.volumeMin)
        else if FromEquity(cfg, req) && equity == None then 0.01
        else CalculateLotSize(spec, price, sl.value, percent, if FromEquity(cfg, req) then equity.value else cfg.capital)
  {
  }

  /** An order as it leaves: the fill price, the stop it carries, the lot asked for and the lot sent. */
  datatype Order = Order(price: real, sl: Option<real>, tp: Option<real>, requested: real, volume: real)

  function EntryPrice(side: Side, tick: Tick): real { if side.Long? then tick.ask else tick.bid }

  /** The order `open_position` sends, or nothing when it refuses the entry. */
  function BuildOrder(
    cfg: Sizing, req: SizingRequest, levels: Levels, spec: Option<Spec>, side: Side, tick: Option<Tick>,
    equity: Option<real>, calcMargin: real -> Option<real>, free: Option<real>): Option<Order>
    requires spec.Some? ==> Sizeable(spec.value)
  {
    if tick.None? || EntryPrice(side, tick.value) <= 0.0 then None
    else
      var price := EntryPrice(side, tick.value);
      var (sl, tp) := ValidateStops(spec, side, tick, levels.sl, levels.tp2);
      var requested := ResolveEntryVolume(cfg, req, spec, price, sl, equity);
      var volume := FitVolumeToMargin(calcMargin, free, requested, spec);
      if volume.None? then None else Some(Order(price, sl, tp, requested, volume.value))
  }

  /** An entry sized from risk: its stop passed the staleness guard on this quote. */
  predicate SizedFromRisk(
    cfg: Sizing, req: SizingRequest, levels: Levels, spec: Spec, side: Side, tick: Tick, limits: DriftLimits, equity: Option<real>)
  {
    && Sizeable(spec) && Usable(Some(tick)) && PointOutweighsRounding(spec.point, Scale(spec))
    && !StaleRejects(side, levels, Some(EntryPrice(side, tick)), limits) && HasPrice(levels.sl)
    && !UsesPayloadQuantity(cfg, req.useEquity) && CapitalFor(cfg, req, equity).Some?
  }

  /** The margin check never raises a lot, whatever the platform says of its margin. */
  lemma FittedIsNoLarger(calcMargin: real -> Option<real>, free: Option<real>, volume: real, spec: Spec)
    requires spec.volumeStep > 0.0
    ensures var fitted := FitVolumeToMargin(calcMargin, free, volume, Some(spec)); fitted.Some? ==> fitted.value <= volume
  {
  }

  /** From guard to order, on one quote and for any margin the platform quotes or does not quote: the entry
      leaves with its stop strictly on the losing side, never nearer than the signal's; the lot is never larger
      than the signal's own stop would have sized, the margin check only lowers it, and unless it was raised to
      the broker's minimum it loses at the stop placed at most the risk cash plus half a step's loss. */
  lemma OrderKeepsRisk(
    cfg: Sizing, req: SizingRequest, levels: Levels, spec: Spec, side: Side, tick: Tick, limits: DriftLimits,
    equity: Option<real>, calcMargin: real -> Option<real>, free: Option<real>)
    requires SizedFromRisk(cfg, req, levels, spec, side, tick, limits, equity) && NeverLifts(spec)
    ensures var order := BuildOrder(cfg, req, levels, Some(spec), side, Some(tick), equity, calcMargin, free);
            var risk, capital := RiskPercentFor(cfg, req), CapitalFor(cfg, req, equity).value;
            order.Some? ==>
              var o := order.value;
              && o.sl.Some? && LosingSide(side, o.price, levels.sl.value, o.sl.value)
              && o.volume <= o.requested == CalculateLotSize(Some(spec), o.price, o.sl.value, risk, capital)
              && (risk >= 0.0 && capital >= 0.0 ==>
                    o.requested <= CalculateLotSize(Some(spec), o.price, levels.sl.value, risk, capital))
              && WithinRisk(spec, o.price, o.sl.value, o.volume, RiskCash(capital, risk))
  {
    var order := BuildOrder(cfg, req, levels, Some(spec), side, Some(tick), equity, calcMargin, free);
    if order.Some? {
      var o := order.value;
      var risk, capital := RiskPercentFor(cfg, req), CapitalFor(cfg, req, equity).value;
      StopOnLosingSide(spec, side, tick, levels, limits);
      assert o.requested == CalculateLotSize(Some(spec), o.price, o.sl.value, risk, capital);
      if risk >= 0.0 && capital >= 0.0 { WiderStopNeverRaisesLot(spec, o.price, levels.sl.value, o.sl.value, risk, capital); }
      FittedIsNoLarger(calcMargin, free, o.requested, spec);
      NeverLiftsKeepsRisk(spec, o.price, o.sl.value, risk, capital, o.volume);
    }
  }

  /** What an order carries: the side's own price, the validated levels, the lot its mode asks for and what the
      margin allows of it. There is none exactly without a price or a lot the margin allows. */
  lemma OrderIs(
    cfg: Sizing, req: SizingRequest, levels: Levels, spec: Option<Spec>, side: Side, tick: Tick,
    equity: Option<real>, calcMargin: real -> Option<real>, free: Option<real>)
    requires spec.Some? ==> Sizeable(spec.value)
    ensures
      var price := if side == Long then tick.ask else tick.bid;
      var (sl, tp) := ValidateStops(spec, side, Some(tick), levels.sl, levels.tp2);
      var asked := ResolveEntryVolume(cfg, req, spec, price, sl, equity);
      var fitted := FitVolumeToMargin(calcMargin, free, asked, spec);
      BuildOrder(cfg, req, levels, spec, side, Some(tick), equity, calcMargin, free)
        == if price > 0.0 && fitted.Some? then Some(Order(price, sl, tp, asked, fitted.value)) else None
    ensures BuildOrder(cfg, req, levels, spec, side, None, equity, calcMargin, free) == None
  {
  }

  lemma MinimumIsAStep(spec: Spec)
    requires GridAligned(spec)
    ensures spec.volumeMin >= spec.volumeStep
  {
    var k: int :| spec.volumeMin == Steps(k, spec.volumeStep);
    Compare(0.0, k as real, spec.volumeStep, 0.0, spec.volumeMin);
    Compare(1.0, k as real, spec.volumeStep, spec.volumeStep, spec.volumeMin);
  }

  /** On an aligned grid the sized lot is positive even after the last rounding. */
  lemma SizedLotIsPositive(spec: Spec, entry: real, sl: real, riskPercent: real, capital: real)
    requires Sizeable(spec) && GridAligned(spec) && entry != sl
    ensures CalculateLotSize(Some(spec), entry, sl, riskPercent, capital) > 0.0
  {
    var k := SizedLot(spec, entry, sl, riskPercent, capital);
    var lot := Clamp(spec, Steps(k, spec.volumeStep));
    MinimumIsAStep(spec);
    if spec.volumeStep >= 0.01 {
      RoundToMonotone(0.01, lot, 100.0);
      assert RoundHalfEven(0.01 * 100.0) == 1;
      Cancel(RoundTo(0.01, 100.0), 0.01, 100.0);
    }
  }

  /** When margin is linear and a free margin is reported, the order also takes the best lot it can. */
  lemma OrderTakesBestFit(
    cfg: Sizing, req: SizingRequest, levels: Levels, spec: Spec, side: Side, tick: Tick, limits: DriftLimits,
    equity: Option<real>, calcMargin: real -> Option<real>, perLot: real, free: real)
    requires SizedFromRisk(cfg, req, levels, spec, side, tick, limits, equity) && GridAligned(spec) && Linear(calcMargin, perLot)
    ensures var order := BuildOrder(cfg, req, levels, Some(spec), side, Some(tick), equity, calcMargin, Some(free));
            order.Some? ==> BestFit(calcMargin, free * USABLE, order.value.requested, spec, order.value.volume)
  {
    var order := BuildOrder(cfg, req, levels, Some(spec), side, Some(tick), equity, calcMargin, Some(free));
    if order.Some? {
      var o := order.value;
      StopOnLosingSide(spec, side, tick, levels, limits);
      SizedLotIsPositive(spec, o.price, o.sl.value, RiskPercentFor(cfg, req), CapitalFor(cfg, req, equity).value);
      FittedLotIsBest(calcMargin, perLot, free, o.requested, spec);
    }
  }

  /** The stop placed is no nearer than the signal's, and strictly on the side where the entry loses. */
  predicate LosingSide(side: Side, price: real, wanted: real, placed: real) {
    if side.Long? then placed <= wanted && placed < price else placed >= wanted && placed > price
  }

  lemma StopOnLosingSide(spec: Spec, side: Side, tick: Tick, levels: Levels, limits: DriftLimits)
    requires Usable(Some(tick)) && PointOutweighsRounding(spec.point, Scale(spec)) && HasPrice(levels.sl)
    requires !StaleRejects(side, levels, Some(EntryPrice(side, tick)), limits)
    ensures var (sl, tp) := ValidateStops(Some(spec), side, Some(tick), levels.sl, levels.tp2);
            && HasPrice(sl) && LosingSide(side, EntryPrice(side, tick), levels.sl.value, sl.value)
            && 0.0 < Abs(EntryPrice(side, tick) - levels.sl.value) <= Abs(EntryPrice(side, tick) - sl.value)
  {
    ValidStopsClearTheQuote(spec, side, tick, levels.sl, levels.tp2);
  }
}
