/** The entry guard that compares a signal with the price it would fill at. */
module Staleness {
  import opened Wrappers
  import opened Rounding
  import opened Stops

  /** The prices an entry signal carries. */
  datatype Levels = Levels(price: Option<real>, sl: Option<real>, tp2: Option<real>)

  /** Thresholds from the settings; an absent one falls back to its default, zero turns it off. */
  datatype DriftLimits = DriftLimits(riskPercent: Option<real>, pricePercent: Option<real>)

  /** A price that is present and not zero. */
  predicate HasPrice(x: Option<real>) { x.Some? && x.value != 0.0 }

  predicate DriftRejects(s: Levels, live: real, limits: DriftLimits) {
    HasPrice(s.price) && s.price.value > 0.0 &&
    var drift := Abs(live - s.price.value);
    var risk := if HasPrice(s.sl) then Abs(s.price.value - s.sl.value) else 0.0;
    if risk > 0.0 then
      var limit := limits.riskPercent.GetOr(50.0);
      limit > 0.0 && Div(drift, risk) * 100.0 > limit
    else
      var limit := limits.pricePercent.GetOr(0.5);
      limit > 0.0 && Div(drift, s.price.value) * 100.0 > limit
  }

  predicate StaleRejects(side: Side, s: Levels, live: Option<real>, limits: DriftLimits) {
    live.Some? && live.value > 0.0 &&
    if HasPrice(s.tp2) && (if side.Long? then live.value >= s.tp2.value else live.value <= s.tp2.value) then true
    else if HasPrice(s.sl) && (if side.Long? then live.value <= s.sl.value else live.value >= s.sl.value) then true
    else DriftRejects(s, live.value, limits)
  }

  /** Drift is measured against the planned risk when there is one, and against the price otherwise. */
  predicate PlansRisk(s: Levels) { HasPrice(s.price) && HasPrice(s.sl) && s.sl.value != s.price.value }

  function Reference(s: Levels): real
    requires HasPrice(s.price)
  {
    if PlansRisk(s) then Abs(s.price.value - s.sl.value) else s.price.value
  }

  function Limit(s: Levels, limits: DriftLimits): real {
    if PlansRisk(s) then limits.riskPercent.GetOr(50.0) else limits.pricePercent.GetOr(0.5)
  }

  /** A positive limit bounds the distance from the planned price, as a percentage of the reference. */
  predicate WithinLimit(s: Levels, live: real, limits: DriftLimits) {
    HasPrice(s.price) && s.price.value > 0.0 && Limit(s, limits) > 0.0 ==>
      Abs(live - s.price.value) * 100.0 <= Limit(s, limits) * Reference(s)
  }

  lemma PercentageIff(drift: real, reference: real, limit: real)
    requires reference > 0.0
    ensures Div(drift, reference) * 100.0 > limit <==> drift * 100.0 > limit * reference
  {
    var q := Div(drift, reference);
    assert (q * 100.0) * reference == drift * 100.0;
    Compare(limit, q * 100.0, reference, limit * reference, drift * 100.0);
  }

  lemma DriftAdmitsIff(s: Levels, live: real, limits: DriftLimits)
    ensures !DriftRejects(s, live, limits) <==> WithinLimit(s, live, limits)
  {
    if HasPrice(s.price) && s.price.value > 0.0 {
      PercentageIff(Abs(live - s.price.value), Reference(s), Limit(s, limits));
    }
  }

  /** What an admitted entry on a readable quote guarantees: the fill lies strictly between stop and
      target, and its distance from the planned price is within the limit in force. */
  lemma AdmittedIsFresh(side: Side, s: Levels, live: real, limits: DriftLimits)
    requires live > 0.0
    ensures !StaleRejects(side, s, Some(live), limits) <==>
            && (HasPrice(s.tp2) ==> if side.Long? then live < s.tp2.value else live > s.tp2.value)
            && (HasPrice(s.sl) ==> if side.Long? then live > s.sl.value else live < s.sl.value)
            && WithinLimit(s, live, limits)
  {
    DriftAdmitsIff(s, live, limits);
  }

  /** Without a readable price the guard lets the entry pass. */
  lemma UnreadablePriceAdmits(side: Side, s: Levels, limits: DriftLimits, live: real)
    requires live <= 0.0
    ensures !StaleRejects(side, s, None, limits) && !StaleRejects(side, s, Some(live), limits)
  {
  }
}
