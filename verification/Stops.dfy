/** Moving a stop or target that is too close to the quote to the nearest level the broker accepts. */
module Stops {
  import opened Wrappers
  import opened Rounding

  datatype Side = Long | Short

  datatype Tick = Tick(bid: real, ask: real)

  /** A symbol's trading rules; `stepDigits` is the number of decimals of `volumeStep`. */
  datatype Spec = Spec(
    point: real, digits: nat, volumeMin: real, volumeStep: real, volumeMax: real, stepDigits: nat,
    tickValue: real, tickSize: real, contractSize: real, stopsLevel: int)

  /** The adjusted level, unless it is not a positive price. */
  function ResolveStop(candidate: real, original: real): real {
    if candidate <= 0.0 then original else candidate
  }

  /** A level that must lie below `limit`. */
  function KeepBelow(level: real, limit: real, point: real, scale: real): real
    requires scale > 0.0
  {
    if level >= limit then ResolveStop(RoundTo(limit - point, scale), level) else level
  }

  /** A level that must lie above `limit`. */
  function KeepAbove(level: real, limit: real, point: real, scale: real): real
    requires scale > 0.0
  {
    if level <= limit then ResolveStop(RoundTo(limit + point, scale), level) else level
  }

  /** Ten to the price digits. */
  function Scale(spec: Spec): (p: real)
    ensures p >= 1.0
  {
    Pow10(spec.digits) as real
  }

  function StopDistance(spec: Spec): real { spec.stopsLevel as real * spec.point }

  function ValidateSellStops(sl: Option<real>, tp: Option<real>, tick: Tick, dist: real, point: real, scale: real):
    (Option<real>, Option<real>)
    requires scale > 0.0
  {
    (if sl.None? then sl else Some(KeepAbove(sl.value, tick.ask + dist, point, scale)),
     if tp.None? then tp else Some(KeepBelow(tp.value, tick.bid - dist, point, scale)))
  }

  function ValidateBuyStops(sl: Option<real>, tp: Option<real>, tick: Tick, dist: real, point: real, scale: real):
    (Option<real>, Option<real>)
    requires scale > 0.0
  {
    (if sl.None? then sl else Some(KeepBelow(sl.value, tick.bid - dist, point, scale)),
     if tp.None? then tp else Some(KeepAbove(tp.value, tick.ask + dist, point, scale)))
  }

  predicate Usable(tick: Option<Tick>) { tick.Some? && tick.value.bid > 0.0 && tick.value.ask > 0.0 }

  function ValidateStops(spec: Option<Spec>, side: Side, tick: Option<Tick>, sl: Option<real>, tp: Option<real>):
    (Option<real>, Option<real>)
  {
    if spec.None? || !Usable(tick) then (sl, tp)
    else if side.Short? then
      ValidateSellStops(sl, tp, tick.value, StopDistance(spec.value), spec.value.point, Scale(spec.value))
    else
      ValidateBuyStops(sl, tp, tick.value, StopDistance(spec.value), spec.value.point, Scale(spec.value))
  }

  // ----- what the adjustment guarantees

  /** One point outweighs the rounding of the price. A point of ten to the minus digits does. */
  predicate PointOutweighsRounding(point: real, scale: real) { scale > 0.0 && point * scale > 0.5 }

  lemma CandidateBelow(limit: real, point: real, scale: real)
    requires PointOutweighsRounding(point, scale)
    ensures limit - 2.0 * point < RoundTo(limit - point, scale) < limit
  {
    var x := limit - point;
    RoundToNear(x, scale);
    StepUp(RoundTo(x, scale), x, point, scale);
    StepDown(RoundTo(x, scale), x, point, scale);
  }

  lemma CandidateAbove(limit: real, point: real, scale: real)
    requires PointOutweighsRounding(point, scale)
    ensures limit < RoundTo(limit + point, scale) < limit + 2.0 * point
  {
    var x := limit + point;
    RoundToNear(x, scale);
    StepUp(RoundTo(x, scale), x, point, scale);
    StepDown(RoundTo(x, scale), x, point, scale);
  }

  /** Half a unit of rounding does not make up for a step of more than half a unit. */
  lemma StepUp(rounded: real, x: real, step: real, scale: real)
    requires PointOutweighsRounding(step, scale) && rounded * scale - x * scale <= 0.5
    ensures rounded < x + step
  {
    var a, b, c := rounded * scale, x * scale, step * scale;
    assert a < b + c && (x + step) * scale == b + c;
    Cancel(rounded, x + step, scale);
  }

  lemma StepDown(rounded: real, x: real, step: real, scale: real)
    requires PointOutweighsRounding(step, scale) && rounded * scale - x * scale >= -0.5
    ensures x - step < rounded
  {
    var a, b, c := rounded * scale, x * scale, step * scale;
    assert b - c < a && (x - step) * scale == b - c;
    Cancel(x - step, rounded, scale);
  }

  /** Unless the adjusted level is not a price at all, the result strictly clears the limit; a level
      that cleared it stays, another lands within two points of it; and a second pass changes nothing. */
  lemma KeepBelowClears(level: real, limit: real, point: real, scale: real)
    requires PointOutweighsRounding(point, scale)
    ensures var r := KeepBelow(level, limit, point, scale);
            && (r < limit || (r == level && RoundTo(limit - point, scale) <= 0.0))
            && r <= level && (level < limit ==> r == level) && (r != level ==> r > limit - 2.0 * point)
            && KeepBelow(r, limit, point, scale) == r
  {
    CandidateBelow(limit, point, scale);
  }

  lemma KeepAboveClears(level: real, limit: real, point: real, scale: real)
    requires PointOutweighsRounding(point, scale)
    ensures var r := KeepAbove(level, limit, point, scale);
            && (r > limit || (r == level && RoundTo(limit + point, scale) <= 0.0))
            && r >= level && (level > limit ==> r == level) && (r != level ==> r < limit + 2.0 * point)
            && KeepAbove(r, limit, point, scale) == r
  {
    CandidateAbove(limit, point, scale);
  }

  /** The stop's and the target's distance from the quote, negative on the wrong side. */
  function StopGap(side: Side, tick: Tick, sl: real): real {
    if side.Long? then tick.bid - sl else sl - tick.ask
  }

  function TargetGap(side: Side, tick: Tick, tp: real): real {
    if side.Long? then tp - tick.ask else tick.bid - tp
  }

  /** A distance from the quote before and after validation. */
  predicate Moved(before: real, after: real, spec: Spec) {
    && after >= before
    && (before > StopDistance(spec) ==> after == before)
    && (after != before ==> after < StopDistance(spec) + 2.0 * spec.point)
  }

  /** The level an adjustment would use for the stop and for the target. */
  function StopCandidate(spec: Spec, side: Side, tick: Tick): real {
    if side.Long? then RoundTo(tick.bid - StopDistance(spec) - spec.point, Scale(spec))
    else RoundTo(tick.ask + StopDistance(spec) + spec.point, Scale(spec))
  }

  function TargetCandidate(spec: Spec, side: Side, tick: Tick): real {
    if side.Long? then RoundTo(tick.ask + StopDistance(spec) + spec.point, Scale(spec))
    else RoundTo(tick.bid - StopDistance(spec) - spec.point, Scale(spec))
  }

  /** On a usable quote, a stop or target whose adjusted level is a price ends up strictly further from
      the quote than the broker's minimum, after rounding; no level moves nearer; one the broker accepts
      stays and another lands within two points of the minimum; none appears or vanishes; and
      validating twice equals validating once. */
  lemma ValidStopsClearTheQuote(spec: Spec, side: Side, tick: Tick, sl: Option<real>, tp: Option<real>)
    requires Usable(Some(tick)) && PointOutweighsRounding(spec.point, Scale(spec))
    ensures var (s, t) := ValidateStops(Some(spec), side, Some(tick), sl, tp);
            && s.Some? == sl.Some? && t.Some? == tp.Some?
            && (s.Some? && StopCandidate(spec, side, tick) > 0.0 ==> StopGap(side, tick, s.value) > StopDistance(spec))
            && (t.Some? && TargetCandidate(spec, side, tick) > 0.0 ==>
                  TargetGap(side, tick, t.value) > StopDistance(spec))
            && (s.Some? ==> Moved(StopGap(side, tick, sl.value), StopGap(side, tick, s.value), spec))
            && (t.Some? ==> Moved(TargetGap(side, tick, tp.value), TargetGap(side, tick, t.value), spec))
            && ValidateStops(Some(spec), side, Some(tick), s, t) == (s, t)
  {
    var below, above := tick.bid - StopDistance(spec), tick.ask + StopDistance(spec);
    if sl.Some? {
      KeepBelowClears(sl.value, below, spec.point, Scale(spec));
      KeepAboveClears(sl.value, above, spec.point, Scale(spec));
    }
    if tp.Some? {
      KeepBelowClears(tp.value, below, spec.point, Scale(spec));
      KeepAboveClears(tp.value, above, spec.point, Scale(spec));
    }
  }

  lemma MovedClears(level: real, limit: real, point: real, scale: real)
    requires PointOutweighsRounding(point, scale)
    ensures KeepBelow(level, limit, point, scale) == level || KeepBelow(level, limit, point, scale) < limit
    ensures KeepAbove(level, limit, point, scale) == level || KeepAbove(level, limit, point, scale) > limit
  {
    KeepBelowClears(level, limit, point, scale);
    KeepAboveClears(level, limit, point, scale);
  }

  /** The placed level is the wanted one, or on the far side of the limit. */
  predicate Below(wanted: real, placed: Option<real>, limit: real) { placed.Some? && (placed.value == wanted || placed.value < limit) }

  predicate Above(wanted: real, placed: Option<real>, limit: real) { placed.Some? && (placed.value == wanted || placed.value > limit) }

  lemma SidesClear(tick: Tick, distance: real, point: real, scale: real, sl: real, tp: real)
    requires PointOutweighsRounding(point, scale)
    ensures var (s, t) := ValidateBuyStops(Some(sl), Some(tp), tick, distance, point, scale);
      Below(sl, s, tick.bid - distance) && Above(tp, t, tick.ask + distance)
    ensures var (s, t) := ValidateSellStops(Some(sl), Some(tp), tick, distance, point, scale);
      Above(sl, s, tick.ask + distance) && Below(tp, t, tick.bid - distance)
  {
    MovedClears(sl, tick.bid - distance, point, scale);
    MovedClears(tp, tick.ask + distance, point, scale);
    MovedClears(sl, tick.ask + distance, point, scale);
    MovedClears(tp, tick.bid - distance, point, scale);
  }

  /** In the broker's own terms: a stop or target that had to move is placed more than the minimum of `stopsLevel`
      points beyond the quote it is measured against, the bid for what lies below and the ask for what lies above. */
  lemma PlacedLevelsClearTheMinimum(spec: Spec, side: Side, tick: Tick, sl: real, tp: real, distance: real)
    requires tick.bid > 0.0 && tick.ask > 0.0 && PointOutweighsRounding(spec.point, Scale(spec))
    requires distance == spec.stopsLevel as real * spec.point
    ensures var (s, t) := ValidateStops(Some(spec), side, Some(tick), Some(sl), Some(tp));
      if side == Long then Below(sl, s, tick.bid - distance) && Above(tp, t, tick.ask + distance)
      else Above(sl, s, tick.ask + distance) && Below(tp, t, tick.bid - distance)
  {
    MinimumApplies(spec, side, tick, sl, tp, distance);
    SidesClear(tick, distance, spec.point, Scale(spec), sl, tp);
  }

  lemma MinimumApplies(spec: Spec, side: Side, tick: Tick, sl: real, tp: real, distance: real)
    requires tick.bid > 0.0 && tick.ask > 0.0 && distance == spec.stopsLevel as real * spec.point
    ensures ValidateStops(Some(spec), side, Some(tick), Some(sl), Some(tp)) ==
      if side == Short then ValidateSellStops(Some(sl), Some(tp), tick, distance, spec.point, Scale(spec))
      else ValidateBuyStops(Some(sl), Some(tp), tick, distance, spec.point, Scale(spec))
  {
    assert StopDistance(spec) == distance;
  }

  /** Without the symbol's rules or a usable quote nothing is adjusted. */
  lemma UnusableQuoteKeeps(spec: Option<Spec>, side: Side, tick: Option<Tick>, sl: Option<real>, tp: Option<real>)
    requires spec == None || tick == None || tick.value.bid <= 0.0 || tick.value.ask <= 0.0
    ensures ValidateStops(spec, side, tick, sl, tp) == (sl, tp)
  {
  }

  /** How large a point must be: with a smaller one some stop is adjusted onto the limit itself. */
  lemma ClearsEveryLimitIff(point: real, scale: real)
    requires point > 0.0 && scale > 0.0
    ensures (forall limit, level :: KeepBelow(level, limit, point, scale) < limit
                                    || RoundTo(limit - point, scale) <= 0.0)
            <==> PointOutweighsRounding(point, scale)
  {
    if PointOutweighsRounding(point, scale) {
      forall limit, level
        ensures KeepBelow(level, limit, point, scale) < limit || RoundTo(limit - point, scale) <= 0.0
      {
        KeepBelowClears(level, limit, point, scale);
      }
    } else {
      var limit := Div(4.0, scale);
      var p := point * scale;
      assert (limit - point) * scale == 4.0 - p by { Distribute(limit, point, scale); }
      assert 0.0 < p by { Cancel(0.0, point, scale); }
      assert RoundHalfEven(4.0 - p) == 4;
      Cancel(RoundTo(limit - point, scale), limit, scale);
      Cancel(0.0, limit, scale);
      assert limit > 0.0;
      assert KeepBelow(limit, limit, point, scale) == limit;
    }
  }
}
