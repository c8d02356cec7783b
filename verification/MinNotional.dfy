/** Raising a crypto entry to the exchange's minimum order value. */
module MinNotional {
  import opened Wrappers
  import opened Rounding

  /** Whole steps in a quotient; the epsilon forgives a quotient that fell just short. */
  function WholeSteps(quotient: real): int { (quotient + 0.000000001).Floor }

  /** Down to the step; the decimals kept are the step's own, so the last rounding changes nothing. */
  function NormalizeVolume(volume: real, step: real): real {
    if step <= 0.0 then RoundTo(volume, 100000000.0) else Steps(WholeSteps(Div(volume, step)), step)
  }

  /** `price` is `None` when it cannot be fetched; the entry is then refused. */
  function EnforceMinNotional(qty: real, price: Option<real>, minNotional: real, step: real): Option<real> {
    if minNotional <= 0.0 then Some(qty)
    else if price.None? then None
    else if price.value <= 0.0 || qty * price.value >= minNotional then Some(qty)
    else
      var bumped := NormalizeVolume(Div(minNotional, price.value), step);
      if bumped > qty then Some(bumped)
      else Some(if step > 0.0 then NormalizeVolume(bumped + step, step) else bumped)
  }

  /** The whole steps in the quantity the minimum value asks for. */
  function NeededSteps(price: real, minNotional: real, step: real): int
    requires price > 0.0 && step > 0.0
  {
    WholeSteps(Div(Div(minNotional, price), step))
  }

  lemma StepsNormalize(k: int, step: real)
    requires step > 0.0
    ensures NormalizeVolume(Steps(k, step), step) == Steps(k, step)
  {
    Cancel(Div(Steps(k, step), step), k as real, step);
  }

  lemma NextStep(k: int, step: real)
    ensures Steps(k, step) + step == Steps(k + 1, step)
  {
  }

  lemma CompareSteps(k: int, x: real, step: real)
    requires step > 0.0
    ensures (Steps(k, step) <= x <==> k as real <= Div(x, step)) && (Steps(k, step) < x <==> k as real < Div(x, step))
    ensures (x <= Steps(k, step) <==> Div(x, step) <= k as real) && (x < Steps(k, step) <==> Div(x, step) < k as real)
  {
    Cancel(k as real, Div(x, step), step);
    Cancel(Div(x, step), k as real, step);
  }

  lemma Affords(q: real, price: real, minNotional: real)
    requires price > 0.0
    ensures q * price >= minNotional <==> q >= Div(minNotional, price)
  {
    Cancel(Div(minNotional, price), q, price);
  }

  /** A quantity is kept when no minimum applies, it is worth enough, or the price is not one; it is refused when the
      price that decides is missing; and only otherwise it is raised. */
  lemma KeptOrRefused(qty: real, price: Option<real>, minNotional: real, step: real)
    ensures minNotional <= 0.0 ==> EnforceMinNotional(qty, price, minNotional, step) == Some(qty)
    ensures EnforceMinNotional(qty, price, minNotional, step).None? <==> minNotional > 0.0 && price.None?
    ensures price.Some? && (price.value <= 0.0 || qty * price.value >= minNotional) ==> EnforceMinNotional(qty, price, minNotional, step) == Some(qty)
  {
  }

  /** Without a step the raised quantity is the needed one, rounded to eight decimals. */
  lemma UnsteppedBump(qty: real, price: real, minNotional: real, step: real)
    requires price > 0.0 && step <= 0.0 && minNotional > 0.0 && qty * price < minNotional
    ensures var q := EnforceMinNotional(qty, Some(price), minNotional, step);
      q.Some? && -0.5 <= (q.value - Div(minNotional, price)) * 100000000.0 <= 0.5
      && q.value * 100000000.0 == (q.value * 100000000.0).Floor as real
  {
    RoundToNear(Div(minNotional, price), 100000000.0);
  }

  /** A quantity of whole steps below the minimum value becomes the needed steps, or one step more than it had. */
  lemma BumpedSteps(k: int, price: real, minNotional: real, step: real)
    requires price > 0.0 && step > 0.0 && minNotional > 0.0 && Steps(k, step) * price < minNotional
    ensures var m := NeededSteps(price, minNotional, step);
      && k <= m
      && EnforceMinNotional(Steps(k, step), Some(price), minNotional, step) == Some(Steps(if m == k then k + 1 else m, step))
  {
    var need := Div(minNotional, price);
    var m := NeededSteps(price, minNotional, step);
    Affords(Steps(k, step), price, minNotional);
    CompareSteps(k, need, step);
    assert k <= m;
    Cancel(k as real, m as real, step);
    if m == k {
      NextStep(k, step);
      StepsNormalize(k + 1, step);
    }
  }

  /**
   * The raised quantity is larger, and short of the minimum value by less than one step's worth. It reaches
   * the minimum exactly when the needed quantity is less than one step away or a whole number of steps.
   */
  lemma BumpReachesFloorIff(k: int, price: real, minNotional: real, step: real)
    requires price > 0.0 && step > 0.0 && minNotional > 0.0 && Steps(k, step) * price < minNotional
    ensures var q, m := EnforceMinNotional(Steps(k, step), Some(price), minNotional, step).GetOr(0.0), NeededSteps(price, minNotional, step);
      && q > Steps(k, step) && (q + step) * price > minNotional
      && (q * price >= minNotional <==> m == k || Div(minNotional, price) <= Steps(m, step))
  {
    var need, m := Div(minNotional, price), NeededSteps(price, minNotional, step);
    BumpedSteps(k, price, minNotional, step);
    var n := if m == k then k + 1 else m;
    var q := Steps(n, step);
    Cancel(k as real, n as real, step);
    NextStep(n, step);
    CompareSteps(n + 1, need, step);
    CompareSteps(n, need, step);
    Affords(q, price, minNotional);
    Cancel(need, q + step, price);
  }
}
