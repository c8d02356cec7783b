/**
 * Stop protection on an exchange. One symbol's legs, its resting stops, and gateway calls each of
 * which may succeed, be refused, or raise; an exception leaves the operation without a result.
 */
module CryptoStops {
  import opened Wrappers

  datatype Side = LongSide | ShortSide

  datatype Answer = Fine | Refused | Raise

  /** Leg sizes, whether a stop rests for each side, and the number of gateway calls made so far. */
  datatype Exchange = Exchange(long: real, short: real, longStop: bool, shortStop: bool, calls: nat)

  datatype Outcome = Raised | Returned(success: bool, unprotected: bool)

  function Volume(e: Exchange, s: Side): real { if s.LongSide? then e.long else e.short }

  /** Flat, or a stop resting for every live leg. */
  predicate Protected(e: Exchange) {
    (e.long > 0.0 ==> e.longStop) && (e.short > 0.0 ==> e.shortStop)
  }

  predicate Sized(e: Exchange) { e.long >= 0.0 && e.short >= 0.0 }

  predicate OneLeg(e: Exchange) { e.long == 0.0 || e.short == 0.0 }

  /** In one-way mode orders net into a single leg. */
  predicate Valid(e: Exchange, hedge: bool) { Sized(e) && (!hedge ==> OneLeg(e)) }

  function Legs(e: Exchange): seq<Side> {
    (if e.long > 0.0 then [LongSide] else []) + (if e.short > 0.0 then [ShortSide] else [])
  }

  // ----- gateway calls

  function Counted(e: Exchange): Exchange { e.(calls := e.calls + 1) }

  function WithVolume(e: Exchange, s: Side, v: real): Exchange { if s.LongSide? then e.(long := v) else e.(short := v) }

  /** An order adds to its side's leg in hedge mode, and nets in one-way mode. */
  function Filled(e: Exchange, hedge: bool, s: Side, qty: real): Exchange {
    if hedge then WithVolume(e, s, Volume(e, s) + qty)
    else
      var net := e.long - e.short + (if s.LongSide? then qty else -qty);
      e.(long := if net > 0.0 then net else 0.0, short := if net < 0.0 then -net else 0.0)
  }

  /** A reduce-only order takes from its side's leg at most what is there. */
  function Reduced(e: Exchange, s: Side, qty: real): Exchange {
    WithVolume(e, s, if qty < Volume(e, s) then Volume(e, s) - qty else 0.0)
  }

  function Ordered(e: Exchange, hedge: bool, s: Side, qty: real, answers: nat -> Answer): (Exchange, Answer) {
    (if answers(e.calls).Fine? then Filled(Counted(e), hedge, s, qty) else Counted(e), answers(e.calls))
  }

  /** With nothing to reduce, a reduce-only order is refused. */
  function Reducing(e: Exchange, s: Side, qty: real, answers: nat -> Answer): (Exchange, Answer) {
    var answer := if Volume(e, s) <= 0.0 && answers(e.calls).Fine? then Refused else answers(e.calls);
    (if answer.Fine? then Reduced(Counted(e), s, qty) else Counted(e), answer)
  }

  function StopSet(e: Exchange, s: Side, answers: nat -> Answer): (Exchange, Answer) {
    var after := Counted(e);
    if !answers(e.calls).Fine? then (after, answers(e.calls))
    else (if s.LongSide? then after.(longStop := true) else after.(shortStop := true), Fine)
  }

  /** A refused cancellation is not reported to the caller. */
  function AllCancelled(e: Exchange, answers: nat -> Answer): (Exchange, Answer) {
    (if answers(e.calls).Fine? then Counted(e).(longStop := false, shortStop := false) else Counted(e), answers(e.calls))
  }

  /** Reading positions, or placing a take-profit: nothing the stops depend on. */
  function Called(e: Exchange, answers: nat -> Answer): (Exchange, Answer) { (Counted(e), answers(e.calls)) }

  // ----- the executor's operations

  /** Entry, its stop, and the rollback when the stop is refused. */
  function Entered(e: Exchange, hedge: bool, s: Side, qty: real, sl: bool, tp: bool, answers: nat -> Answer): (Exchange, Outcome) {
    if qty <= 0.0 then (e, Returned(false, false))
    else
      var (open, entry) := Ordered(e, hedge, s, qty, answers);
      if entry.Raise? then (open, Raised)
      else if entry.Refused? then (open, Returned(false, false))
      else
        var (stopped, stop) := if sl then StopSet(open, s, answers) else (open, Fine);
        if stop.Raise? then (stopped, Raised)
        else if stop.Refused? then
          var (back, rollback) := Reducing(stopped, s, qty, answers);
          (back, if rollback.Raise? then Raised else Returned(false, !rollback.Fine?))
        else if !tp then (stopped, Returned(true, false))
        else
          var (done, target) := Called(stopped, answers);
          (done, if target.Raise? then Raised else Returned(true, false))
  }

  /** Reduce-only orders for each leg; the answer is `Fine` when at least one was filled. */
  function LegsClosed(e: Exchange, legs: seq<Side>, answers: nat -> Answer): (Exchange, Answer) {
    if legs == [] then (e, Refused)
    else
      var n := |legs| - 1;
      var (before, sofar) := LegsClosed(e, legs[..n], answers);
      if sofar.Raise? then (before, Raise)
      else
        var (after, answer) := Reducing(before, legs[n], Volume(before, legs[n]), answers);
        (after, if answer.Raise? then Raise else if answer.Fine? then Fine else sofar)
  }

  /** Cancels the resting stops before it closes. */
  function AllClosed(e: Exchange, answers: nat -> Answer): (Exchange, Answer) {
    var (read, positions) := Called(e, answers);
    if positions.Raise? then (read, Raise)
    else if Legs(read) == [] then (read, Refused)
    else
      var (bare, cancel) := AllCancelled(read, answers);
      if cancel.Raise? then (bare, Raise) else LegsClosed(bare, Legs(read), answers)
  }

  function PartlyClosed(e: Exchange, s: Side, volume: real, normalize: real -> real, answers: nat -> Answer): (Exchange, Answer) {
    var (read, positions) := Called(e, answers);
    var own := Volume(e, s);
    var safe := normalize(if volume < own then volume else own);
    if positions.Raise? then (read, Raise)
    else if safe <= 0.0 then (read, Refused)
    else Reducing(read, s, safe, answers)
  }

  /** The addressed leg if it is still live, else the first one. */
  function PickLeg(e: Exchange, s: Side): Side
    requires Legs(e) != []
  {
    if Volume(e, s) > 0.0 then s else Legs(e)[0]
  }

  /** Every resting order is cancelled, then the stop is placed again and, if one is stored, the target. */
  function StopMoved(e: Exchange, s: Side, tp2: bool, answers: nat -> Answer): (Exchange, Answer) {
    var (read, positions) := Called(e, answers);
    if positions.Raise? then (read, Raise)
    else if Legs(read) == [] then (read, Refused)
    else
      var (bare, cancel) := AllCancelled(read, answers);
      if cancel.Raise? then (bare, Raise)
      else
        var (stopped, stop) := StopSet(bare, PickLeg(read, s), answers);
        if !stop.Fine? || !tp2 then (stopped, stop)
        else
          var (done, target) := Called(stopped, answers);
          (done, if target.Raise? then Raise else Fine)
  }

  /** What TP1 is asked to do: the volume to close (`None` if it cannot be sized), and the breakeven move. */
  datatype Tp1Request = Tp1Request(volume: Option<real>, moveSl: bool, tp2: bool, normalize: real -> real)

  function FailsafeClosed(e: Exchange, answers: nat -> Answer): (Exchange, Outcome) {
    var (after, close) := AllClosed(e, answers);
    (after, if close.Raise? then Raised else Returned(true, !close.Fine?))
  }

  function BreakevenMoved(e: Exchange, s: Side, tp2: bool, answers: nat -> Answer): (Exchange, Outcome) {
    var (moved, stop) := StopMoved(e, s, tp2, answers);
    if stop.Raise? then (moved, Raised)
    else if stop.Fine? then (moved, Returned(true, false))
    else FailsafeClosed(moved, answers)
  }

  function Tp1Handled(e: Exchange, r: Tp1Request, answers: nat -> Answer): (Exchange, Outcome) {
    var (read, positions) := Called(e, answers);
    if positions.Raise? then (read, Raised)
    else if Legs(read) == [] || r.volume.None? then (read, Returned(false, false))
    else
      var s := Legs(read)[0];
      var (reduced, close) := PartlyClosed(read, s, r.volume.value, r.normalize, answers);
      if close.Raise? then (reduced, Raised)
      else if close.Refused? then (reduced, Returned(false, false))
      else if !r.moveSl then (reduced, Returned(true, false))
      else BreakevenMoved(reduced, s, r.tp2, answers)
  }

  // ----- entries

  /** A result is honest about protection: the symbol is protected, or the result says it is not. */
  predicate Accounted(after: (Exchange, Outcome)) {
    after.1.Returned? ==> Protected(after.0) || after.1.unprotected
  }

  ghost predicate NeverRaises(answers: nat -> Answer) { forall n :: !answers(n).Raise? }

  /** Closing what an entry added leaves what was there, or nothing. */
  lemma RollbackUndoes(e: Exchange, hedge: bool, s: Side, qty: real)
    requires Valid(e, hedge) && Protected(e) && qty > 0.0
    ensures Protected(Reduced(Filled(e, hedge, s, qty), s, qty))
  {
  }

  /** A position that an entry extends or opens is protected once its own side's stop rests. */
  lemma StopProtects(e: Exchange, hedge: bool, s: Side, qty: real, answers: nat -> Answer)
    requires Valid(e, hedge) && Protected(e) && qty > 0.0
    ensures var (after, stop) := StopSet(Filled(e, hedge, s, qty), s, answers); stop.Fine? ==> Protected(after)
  {
  }

  /** After an entry with a stop, in either position mode and whatever fails. */
  lemma EntryIsAccounted(e: Exchange, hedge: bool, s: Side, qty: real, tp: bool, answers: nat -> Answer)
    requires Valid(e, hedge) && Protected(e)
    ensures Accounted(Entered(e, hedge, s, qty, true, tp, answers))
  {
    if qty > 0.0 && answers(e.calls).Fine? {
      var start := Counted(e);
      StopProtects(start, hedge, s, qty, answers);
      RollbackUndoes(Counted(start), hedge, s, qty);
    }
  }

  /** Without an exception an entry has a result. */
  lemma EntryReturns(e: Exchange, hedge: bool, s: Side, qty: real, tp: bool, answers: nat -> Answer)
    requires NeverRaises(answers)
    ensures Entered(e, hedge, s, qty, true, tp, answers).1.Returned?
  {
  }

  // ----- an entry, call by call

  /** The legs once an order for `qty` of `s` is filled: added to its own leg in hedge mode, netted otherwise. */
  predicate Grown(e: Exchange, after: Exchange, hedge: bool, s: Side, qty: real) {
    var long, short := if s == LongSide then qty else 0.0, if s == ShortSide then qty else 0.0;
    && (hedge ==> after.long == e.long + long && after.short == e.short + short)
    && (!hedge ==> after.long - after.short == e.long + long - e.short - short && after.long >= 0.0 && after.short >= 0.0
                   && (after.long == 0.0 || after.short == 0.0))
  }

  predicate SameLegs(a: Exchange, b: Exchange) { a.long == b.long && a.short == b.short }

  predicate SameStops(a: Exchange, b: Exchange) { a.longStop == b.longStop && a.shortStop == b.shortStop }

  /** The side's own stop rests, the other side's is as it was. */
  predicate OwnStopSet(e: Exchange, after: Exchange, s: Side) {
    after.longStop == (s == LongSide || e.longStop) && after.shortStop == (s == ShortSide || e.shortStop)
  }

  /** At most `qty` of the side's leg is taken from it. */
  predicate Taken(e: Exchange, after: Exchange, s: Side, qty: real) {
    && after.long == (if s != LongSide then e.long else if qty < e.long then e.long - qty else 0.0)
    && after.short == (if s != ShortSide then e.short else if qty < e.short then e.short - qty else 0.0)
  }

  lemma GrownIs(e: Exchange, hedge: bool, s: Side, qty: real)
    ensures Grown(e, Filled(e, hedge, s, qty), hedge, s, qty) && SameStops(e, Filled(e, hedge, s, qty))
  {
  }

  /** Nothing is sent without a quantity, and an order that is not filled changes nothing. */
  lemma UnfilledEntryOutcome(e: Exchange, hedge: bool, s: Side, qty: real, sl: bool, tp: bool, answers: nat -> Answer)
    requires qty <= 0.0 || answers(e.calls) != Fine
    ensures var (after, out) := Entered(e, hedge, s, qty, sl, tp, answers);
      if qty <= 0.0 then after == e && out == Returned(false, false)
      else after == e.(calls := e.calls + 1) && out == if answers(e.calls) == Raise then Raised else Returned(false, false)
  {
  }

  /**
   * A filled entry. Its stop is the next call, when it has one; then its target. It succeeds exactly when the stop,
   * if any, is placed and the target, if any, does not raise; a target that is refused costs nothing.
   */
  lemma FilledEntryOutcome(e: Exchange, hedge: bool, s: Side, qty: real, sl: bool, tp: bool, answers: nat -> Answer)
    requires qty > 0.0 && answers(e.calls) == Fine && (sl ==> answers(e.calls + 1) != Refused)
    ensures var (after, out) := Entered(e, hedge, s, qty, sl, tp, answers);
      var target := e.calls + (if sl then 2 else 1);
      var raised := (sl && answers(e.calls + 1) == Raise) || (tp && answers(target) == Raise);
      && Grown(e, after, hedge, s, qty)
      && out == (if raised then Raised else Returned(true, false))
      && (if sl && answers(e.calls + 1) == Fine then OwnStopSet(e, after, s) else SameStops(e, after))
      && after.calls == (if tp && !(sl && answers(e.calls + 1) == Raise) then target + 1 else target)
  {
    GrownIs(Counted(e), hedge, s, qty);
  }

  /**
   * A stop that is refused is answered by a reduce-only order for the entry's quantity. The entry has failed either
   * way, and is flagged unprotected exactly when that order, or the leg it should reduce, is missing.
   */
  lemma RolledBackEntryOutcome(e: Exchange, hedge: bool, s: Side, qty: real, tp: bool, answers: nat -> Answer, filled: Exchange)
    requires qty > 0.0 && answers(e.calls) == Fine && answers(e.calls + 1) == Refused
    requires Grown(e, filled, hedge, s, qty) && SameStops(e, filled)
    ensures var (after, out) := Entered(e, hedge, s, qty, true, tp, answers);
      var own := if s == LongSide then filled.long else filled.short;
      var undone := answers(e.calls + 2) == Fine && own > 0.0;
      && (if undone then Taken(filled, after, s, qty) else SameLegs(filled, after))
      && SameStops(e, after) && after.calls == e.calls + 3
      && out == (if answers(e.calls + 2) == Raise then Raised else Returned(false, !undone))
  {
    GrownIs(Counted(e), hedge, s, qty);
    assert SameLegs(filled, Filled(Counted(e), hedge, s, qty));
  }

  // ----- TP1

  lemma OneLegClosed(e: Exchange, answers: nat -> Answer, s: Side)
    requires Sized(e) && OneLeg(e) && Volume(e, s) > 0.0
    ensures LegsClosed(e, [s], answers).1.Fine? ==> Legs(LegsClosed(e, [s], answers).0) == []
  {
    assert [s][..0] == [];
    assert LegsClosed(e, [], answers) == (e, Refused);
  }

  lemma OnlyLeg(e: Exchange)
    requires Sized(e) && OneLeg(e) && Legs(e) != []
    ensures Legs(e) == [Legs(e)[0]] && Volume(e, Legs(e)[0]) > 0.0
  {
  }

  /** With one leg, a close that reports success leaves the symbol flat. */
  lemma SuccessfulCloseIsFlat(e: Exchange, answers: nat -> Answer)
    requires Sized(e) && OneLeg(e)
    ensures AllClosed(e, answers).1.Fine? ==> Legs(AllClosed(e, answers).0) == []
  {
    var read, bare := Counted(e), AllCancelled(Counted(e), answers).0;
    if !answers(e.calls).Raise? && Legs(read) != [] && !answers(read.calls).Raise? {
      OnlyLeg(read);
      var s := Legs(read)[0];
      OneLegClosed(bare, answers, s);
      CloseUnfolds(e, answers, s);
    }
  }

  lemma CloseUnfolds(e: Exchange, answers: nat -> Answer, s: Side)
    requires Legs(Counted(e)) == [s] && !answers(e.calls).Raise? && !answers(e.calls + 1).Raise?
    ensures AllClosed(e, answers) == LegsClosed(AllCancelled(Counted(e), answers).0, [s], answers)
  {
  }

  lemma TwoLegClose(e: Exchange, answers: nat -> Answer)
    requires e.long > 0.0 && e.short > 0.0 && forall n :: answers(n) == if n == e.calls + 3 then Refused else Fine
    ensures AllClosed(e, answers).1.Fine? && !Protected(AllClosed(e, answers).0)
  {
    var bare := AllCancelled(Counted(e), answers).0;
    var both := [LongSide, ShortSide];
    assert Legs(Counted(e)) == both && both[..1] == [LongSide] && [LongSide][..0] == [];
    assert LegsClosed(bare, [], answers) == (bare, Refused);
    assert LegsClosed(bare, both[..1], answers) == (Reduced(Counted(bare), LongSide, e.long), Fine);
  }

  /** A full close that reports success leaves the symbol protected, under every pattern of failures, exactly with one leg. */
  lemma SuccessMeansProtectedIff(e: Exchange)
    requires Sized(e)
    ensures (forall answers: nat -> Answer :: AllClosed(e, answers).1.Fine? ==> Protected(AllClosed(e, answers).0)) <==> OneLeg(e)
  {
    if OneLeg(e) {
      forall answers: nat -> Answer | AllClosed(e, answers).1.Fine? ensures Protected(AllClosed(e, answers).0) {
        SuccessfulCloseIsFlat(e, answers);
        assert Legs(AllClosed(e, answers).0) == [] ==> Protected(AllClosed(e, answers).0);
      }
    } else {
      var answers: nat -> Answer := n => if n == e.calls + 3 then Refused else Fine;
      TwoLegClose(e, answers);
    }
  }

  lemma FailsafeIsAccounted(e: Exchange, answers: nat -> Answer)
    requires Sized(e) && OneLeg(e)
    ensures Accounted(FailsafeClosed(e, answers))
  {
    SuccessfulCloseIsFlat(e, answers);
    var after := AllClosed(e, answers).0;
    assert Legs(after) == [] ==> Protected(after);
  }

  lemma OneLegBreakevenIsAccounted(e: Exchange, s: Side, tp2: bool, answers: nat -> Answer)
    requires Sized(e) && OneLeg(e) && Protected(e)
    ensures Accounted(BreakevenMoved(e, s, tp2, answers))
  {
    FailsafeIsAccounted(StopMoved(e, s, tp2, answers).0, answers);
  }

  function SafeVolume(e: Exchange, s: Side, r: Tp1Request): real
    requires r.volume.Some?
  {
    r.normalize(if r.volume.value < Volume(e, s) then r.volume.value else Volume(e, s))
  }

  /** Both legs are live, and TP1 takes a part of the first one and moves its stop. */
  predicate StripsOtherLeg(e: Exchange, r: Tp1Request) {
    e.long > 0.0 && e.short > 0.0 && r.volume.Some? && r.moveSl && 0.0 < SafeVolume(e, LongSide, r) < e.long
  }

  /** What the partial close leaves: still protected, and when filled either one leg or the stripped case. */
  lemma PartialLeaves(e: Exchange, s: Side, r: Tp1Request, answers: nat -> Answer)
    requires Sized(e) && Protected(e) && Legs(e) != [] && s == Legs(e)[0] && r.volume.Some?
    ensures var (after, close) := PartlyClosed(e, s, r.volume.value, r.normalize, answers);
      Sized(after) && Protected(after) && (close.Fine? && r.moveSl ==> OneLeg(after) || StripsOtherLeg(e, r))
  {
  }

  lemma Tp1IsAccounted(e: Exchange, r: Tp1Request, answers: nat -> Answer)
    requires Sized(e) && Protected(e) && !StripsOtherLeg(e, r)
    ensures Accounted(Tp1Handled(e, r, answers))
  {
    var read := Counted(e);
    if Legs(read) != [] && r.volume.Some? {
      var s := Legs(read)[0];
      PartialLeaves(read, s, r, answers);
      var (reduced, close) := PartlyClosed(read, s, r.volume.value, r.normalize, answers);
      if close.Fine? && r.moveSl { OneLegBreakevenIsAccounted(reduced, s, r.tp2, answers); }
    }
  }

  /** Cancelling is symbol-wide and only the first leg's stop is placed again. */
  lemma OtherLegIsStripped(e: Exchange, r: Tp1Request, answers: nat -> Answer)
    requires Sized(e) && StripsOtherLeg(e, r) && forall n :: answers(n).Fine?
    ensures !Accounted(Tp1Handled(e, r, answers))
  {
    var read := Counted(e);
    assert Legs(read)[0] == LongSide;
    var (reduced, close) := PartlyClosed(read, LongSide, r.volume.value, r.normalize, answers);
    assert close.Fine? && reduced.long > 0.0 && reduced.short == e.short;
    var (moved, stop) := StopMoved(reduced, LongSide, r.tp2, answers);
    assert stop.Fine? && moved.short == e.short && !moved.shortStop;
  }

  /**
   * After TP1 the symbol is flat, or protected, or the result says it is not, under every pattern of
   * failures, exactly when TP1 does not reduce one of two live legs: in one-way mode always.
   */
  lemma Tp1AccountedIff(e: Exchange, r: Tp1Request)
    requires Sized(e) && Protected(e)
    ensures (forall answers: nat -> Answer :: Accounted(Tp1Handled(e, r, answers))) <==> !StripsOtherLeg(e, r)
    ensures OneLeg(e) ==> !StripsOtherLeg(e, r)
  {
    if StripsOtherLeg(e, r) {
      var answers: nat -> Answer := _ => Fine;
      OtherLegIsStripped(e, r, answers);
      assert !Accounted(Tp1Handled(e, r, answers));
    } else {
      forall answers: nat -> Answer ensures Accounted(Tp1Handled(e, r, answers)) {
        Tp1IsAccounted(e, r, answers);
      }
    }
  }

  lemma {:induction false} LegsNeverRaise(e: Exchange, legs: seq<Side>, answers: nat -> Answer)
    requires NeverRaises(answers)
    ensures !LegsClosed(e, legs, answers).1.Raise?
  {
    if legs != [] { LegsNeverRaise(e, legs[..|legs| - 1], answers); }
  }

  lemma CallsNeverRaise(e: Exchange, s: Side, r: Tp1Request, answers: nat -> Answer)
    requires NeverRaises(answers)
    ensures !AllClosed(e, answers).1.Raise? && !StopMoved(e, s, r.tp2, answers).1.Raise?
    ensures r.volume.Some? ==> !PartlyClosed(e, s, r.volume.value, r.normalize, answers).1.Raise?
  {
    LegsNeverRaise(AllCancelled(Counted(e), answers).0, Legs(Counted(e)), answers);
  }

  /** Without an exception TP1 always has a result, so the guarantee above is about every such call. */
  lemma Tp1Returns(e: Exchange, r: Tp1Request, answers: nat -> Answer)
    requires NeverRaises(answers)
    ensures Tp1Handled(e, r, answers).1.Returned?
  {
    var read := Counted(e);
    if Legs(read) != [] && r.volume.Some? {
      var s := Legs(read)[0];
      CallsNeverRaise(read, s, r, answers);
      var reduced := PartlyClosed(read, s, r.volume.value, r.normalize, answers).0;
      CallsNeverRaise(reduced, s, r, answers);
      CallsNeverRaise(StopMoved(reduced, s, r.tp2, answers).0, s, r, answers);
    }
  }

  /**
   * An exception is different: when the stop is refused and reading positions for the failsafe raises, the
   * runner is left without a stop and there is no result to say so.
   */
  lemma RaiseLeavesNaked(e: Exchange, r: Tp1Request, answers: nat -> Answer)
    requires Sized(e) && Legs(e) == [LongSide] && r.volume.Some? && r.moveSl && 0.0 < SafeVolume(e, LongSide, r) < e.long
    requires forall n :: answers(n) == if n == e.calls + 5 then Refused else if n == e.calls + 6 then Raise else Fine
    ensures Tp1Handled(e, r, answers).1.Raised? && !Protected(Tp1Handled(e, r, answers).0)
  {
    var read := Counted(e);
    var (reduced, close) := PartlyClosed(read, LongSide, r.volume.value, r.normalize, answers);
    assert close.Fine? && reduced.long > 0.0 && reduced.calls == e.calls + 3;
    var (moved, stop) := StopMoved(reduced, LongSide, r.tp2, answers);
    assert stop.Refused? && moved.long > 0.0 && !moved.longStop && moved.calls == e.calls + 6;
  }

  // ----- closing, moving a stop and TP1, call by call

  /** Both stops are gone when the cancellation took effect, and as they were otherwise. */
  predicate StopsAfterCancel(e: Exchange, after: Exchange, cancel: Answer) {
    && after.longStop == (e.longStop && cancel != Fine) && after.shortStop == (e.shortStop && cancel != Fine)
  }

  /** Nothing but `n` calls happened. */
  predicate OnlyCalls(e: Exchange, after: Exchange, n: nat) { after == e.(calls := e.calls + n) }

  lemma SingleLeg(e: Exchange, s: Side, answers: nat -> Answer)
    requires (if s == LongSide then e.long else e.short) > 0.0
    ensures var (after, answer) := LegsClosed(e, [s], answers);
      && answer == answers(e.calls) && SameStops(e, after) && after.calls == e.calls + 1
      && after.long == (if s == LongSide && answer == Fine then 0.0 else e.long)
      && after.short == (if s == ShortSide && answer == Fine then 0.0 else e.short)
  {
    assert [s][..0] == [];
    assert LegsClosed(e, [], answers) == (e, Refused);
  }

  lemma BothLegs(e: Exchange, answers: nat -> Answer)
    requires e.long > 0.0 && e.short > 0.0
    ensures var (after, answer) := LegsClosed(e, [LongSide, ShortSide], answers);
      var first, second := answers(e.calls), answers(e.calls + 1);
      && SameStops(e, after) && after.calls == e.calls + (if first == Raise then 1 else 2)
      && after.long == (if first == Fine then 0.0 else e.long)
      && after.short == (if first != Raise && second == Fine then 0.0 else e.short)
      && answer == if first == Raise || second == Raise then Raise else if first == Fine || second == Fine then Fine else Refused
  {
    assert [LongSide, ShortSide][..1] == [LongSide];
    SingleLeg(e, LongSide, answers);
  }

  /**
   * A full close: the positions are read, every resting order is cancelled, and each live leg gets its own order, long
   * before short. One filled order is success; a leg is gone exactly when its own was filled; an exception ends it.
   */
  lemma CloseOutcome(e: Exchange, answers: nat -> Answer)
    requires Sized(e)
    ensures var (after, answer) := AllClosed(e, answers);
      var n := e.calls;
      var both := e.long > 0.0 && e.short > 0.0;
      var first, second := answers(n + 2), if both then answers(n + 3) else Refused;
      if answers(n) == Raise then OnlyCalls(e, after, 1) && answer == Raise
      else if e.long == 0.0 && e.short == 0.0 then OnlyCalls(e, after, 1) && answer == Refused
      else if answers(n + 1) == Raise then OnlyCalls(e, after, 2) && answer == Raise
      else
        && StopsAfterCancel(e, after, answers(n + 1))
        && after.long == (if e.long > 0.0 && first == Fine then 0.0 else e.long)
        && after.short == (if e.short > 0.0 && first != Raise && (if both then second else first) == Fine then 0.0
                           else e.short)
        && after.calls == n + (if both && first != Raise then 4 else 3)
        && answer == if first == Raise || second == Raise then Raise else if first == Fine || second == Fine then Fine else Refused
  {
    var read, bare := Counted(e), AllCancelled(Counted(e), answers).0;
    if e.long > 0.0 && e.short > 0.0 {
      assert Legs(read) == [LongSide, ShortSide];
      BothLegs(bare, answers);
    } else if e.long > 0.0 {
      assert Legs(read) == [LongSide];
      SingleLeg(bare, LongSide, answers);
    } else if e.short > 0.0 {
      assert Legs(read) == [ShortSide];
      SingleLeg(bare, ShortSide, answers);
    }
  }

  /**
   * Moving a stop: every resting order is cancelled and the stop set for the addressed leg, or for the other one when
   * that is gone; then the stored target is placed again, whose refusal costs nothing. No leg changes.
   */
  lemma StopOutcome(e: Exchange, s: Side, tp2: bool, answers: nat -> Answer)
    requires Sized(e)
    ensures var (after, answer) := StopMoved(e, s, tp2, answers);
      var n := e.calls;
      var own := if s == LongSide then e.long > 0.0 else e.short > 0.0;
      var long := if own then s == LongSide else s != LongSide;
      && SameLegs(e, after)
      && if answers(n) == Raise then OnlyCalls(e, after, 1) && answer == Raise
         else if e.long == 0.0 && e.short == 0.0 then OnlyCalls(e, after, 1) && answer == Refused
         else if answers(n + 1) == Raise then OnlyCalls(e, after, 2) && answer == Raise
         else
           var placed := answers(n + 2) == Fine;
           && after.longStop == ((placed && long) || (e.longStop && answers(n + 1) != Fine))
           && after.shortStop == ((placed && !long) || (e.shortStop && answers(n + 1) != Fine))
           && after.calls == n + (if placed && tp2 then 4 else 3)
           && answer == if !placed then answers(n + 2) else if tp2 && answers(n + 3) == Raise then Raise else Fine
  {
  }

  /** A partial close: the volume, at most what is open, on the exchange's grid; a quantity of nothing is not sent. */
  lemma PartialOutcome(e: Exchange, s: Side, volume: real, normalize: real -> real, answers: nat -> Answer)
    ensures var (after, answer) := PartlyClosed(e, s, volume, normalize, answers);
      var n := e.calls;
      var own := if s == LongSide then e.long else e.short;
      var qty := normalize(if volume <= own then volume else own);
      && SameStops(e, after)
      && if answers(n) == Raise then OnlyCalls(e, after, 1) && answer == Raise
         else if qty <= 0.0 then OnlyCalls(e, after, 1) && answer == Refused
         else
           && after.calls == n + 2
           && answer == (if own <= 0.0 && answers(n + 1) == Fine then Refused else answers(n + 1))
           && (if answer == Fine then Taken(e, after, s, qty) else SameLegs(e, after))
  {
  }

  /** What TP1 reports, by what its own steps report: the partial close, the breakeven stop, the emergency close. */
  predicate Tp1Reports(out: Outcome, close: Answer, moveSl: bool, stop: Answer, failsafe: Answer) {
    && (close == Raise ==> out == Raised)
    && (close == Refused ==> out == Returned(false, false))
    && (close == Fine && (!moveSl || stop == Fine) ==> out == Returned(true, false))
    && (close == Fine && moveSl && stop == Raise ==> out == Raised)
    && (close == Fine && moveSl && stop == Refused ==> out == if failsafe == Raise then Raised else Returned(true, failsafe == Refused))
  }

  /**
   * TP1 takes its volume from the first leg, long before short, and reports failure without a leg, a volume or a fill;
   * the emergency close runs exactly when the breakeven stop is refused, and its failure is the flag.
   */
  lemma Tp1Outcome(e: Exchange, r: Tp1Request, answers: nat -> Answer)
    requires Sized(e)
    ensures var (after, out) := Tp1Handled(e, r, answers);
      var read := e.(calls := e.calls + 1);
      if answers(e.calls) == Raise then after == read && out == Raised
      else if (e.long == 0.0 && e.short == 0.0) || r.volume == None then after == read && out == Returned(false, false)
      else
        var s := if e.long > 0.0 then LongSide else ShortSide;
        var (reduced, close) := PartlyClosed(read, s, r.volume.value, r.normalize, answers);
        var (moved, stop) := StopMoved(reduced, s, r.tp2, answers);
        var (closed, failsafe) := AllClosed(moved, answers);
        && Tp1Reports(out, close, r.moveSl, stop, failsafe)
        && after == if close != Fine || !r.moveSl then reduced else if stop == Refused then closed else moved
  {
  }

  // ----- exactly when an exception leaves a naked leg

  /** An entry that ends in an exception leaves a naked leg exactly when its order was filled, the fill is not
      covered by a stop already resting, and the stop raised or was refused with the rollback raising. */
  lemma EntryRaisesNakedIff(e: Exchange, hedge: bool, s: Side, qty: real, tp: bool, answers: nat -> Answer)
    requires Valid(e, hedge) && Protected(e)
    ensures var (after, out) := Entered(e, hedge, s, qty, true, tp, answers);
      var n := e.calls;
      (out.Raised? && !Protected(after)) <==>
        && qty > 0.0 && answers(n).Fine? && !Protected(Filled(e, hedge, s, qty))
        && (answers(n + 1).Raise? || (answers(n + 1).Refused? && answers(n + 2).Raise?))
  {
    if qty > 0.0 && answers(e.calls).Fine? {
      var start := Counted(e);
      assert Protected(Filled(start, hedge, s, qty)) == Protected(Filled(e, hedge, s, qty));
      StopProtects(start, hedge, s, qty, answers);
    }
  }

  /** Nothing protects the runner: the first cancellation took effect and the stop raised; or the stop was refused
      and the failsafe raised before its fill, after one of the two cancellations took effect. `n` numbers the
      first position read of the breakeven move. */
  predicate RaisesNaked(n: nat, answers: nat -> Answer) {
    && !answers(n).Raise?
    && (|| (answers(n + 1).Fine? && answers(n + 2).Raise?)
        || (!answers(n + 1).Raise? && answers(n + 2).Refused? && FailsafeRaisesNaked(n + 3, answers(n + 1).Fine?, answers)))
  }

  /** `bare` says that no stop rests any more. */
  predicate FailsafeRaisesNaked(n: nat, bare: bool, answers: nat -> Answer) {
    || (bare && (answers(n).Raise? || answers(n + 1).Raise?))
    || (!answers(n).Raise? && !answers(n + 1).Raise? && answers(n + 2).Raise? && (bare || answers(n + 1).Fine?))
  }

  lemma OneLegCloses(e: Exchange, answers: nat -> Answer, s: Side)
    requires Sized(e) && OneLeg(e) && Volume(e, s) > 0.0
    ensures LegsClosed(e, [s], answers) == Reducing(e, s, Volume(e, s), answers)
  {
    assert [s][..0] == [];
    assert LegsClosed(e, [], answers) == (e, Refused);
  }

  lemma FailsafeRaisesNakedIff(e: Exchange, answers: nat -> Answer)
    requires Sized(e) && OneLeg(e) && Legs(e) != []
    ensures var (after, out) := FailsafeClosed(e, answers);
      (out.Raised? && !Protected(after)) <==> FailsafeRaisesNaked(e.calls, !Protected(e), answers)
  {
    OnlyLeg(e);
    var s := Legs(e)[0];
    var read, bare := Counted(e), AllCancelled(Counted(e), answers).0;
    if !answers(e.calls).Raise? && !answers(e.calls + 1).Raise? {
      CloseUnfolds(e, answers, s);
      OneLegCloses(bare, answers, s);
    }
  }

  lemma BreakevenRaisesNakedIff(e: Exchange, s: Side, tp2: bool, answers: nat -> Answer)
    requires Sized(e) && OneLeg(e) && Protected(e) && Legs(e) == [s]
    ensures var (after, out) := BreakevenMoved(e, s, tp2, answers);
      (out.Raised? && !Protected(after)) <==> RaisesNaked(e.calls, answers)
  {
    var moved := StopMoved(e, s, tp2, answers).0;
    if !answers(e.calls).Raise? && !answers(e.calls + 1).Raise? && answers(e.calls + 2).Refused? {
      FailsafeRaisesNakedIff(moved, answers);
    }
  }

  /** TP1 takes a part of the position and leaves a runner. */
  predicate LeavesRunner(e: Exchange, s: Side, r: Tp1Request) {
    r.volume.Some? && 0.0 < SafeVolume(e, s, r) < Volume(e, s)
  }

  lemma PartialRunner(e: Exchange, s: Side, r: Tp1Request, answers: nat -> Answer)
    requires Sized(e) && OneLeg(e) && Protected(e) && Legs(e) == [s] && r.volume.Some?
    ensures var (reduced, close) := PartlyClosed(e, s, r.volume.value, r.normalize, answers);
      && Sized(reduced) && OneLeg(reduced) && Protected(reduced)
      && (close.Fine? <==> SafeVolume(e, s, r) > 0.0 && !answers(e.calls).Raise? && answers(e.calls + 1).Fine?)
      && (close.Fine? ==> reduced.calls == e.calls + 2 && Legs(reduced) == if LeavesRunner(e, s, r) then [s] else [])
  {
    OnlyLeg(e);
    assert s == Legs(e)[0] && Volume(e, s) > 0.0;
  }

  /** Once the symbol is flat, nothing the breakeven move does can leave it naked. */
  lemma FlatStaysProtected(e: Exchange, s: Side, tp2: bool, answers: nat -> Answer)
    requires Sized(e) && Legs(e) == []
    ensures Protected(BreakevenMoved(e, s, tp2, answers).0)
  {
  }

  /** With one leg, TP1 ends in an exception with the position naked exactly when it left a runner, the
      cancellation took effect, and the stop raised or was refused with the failsafe raising before its fill. */
  lemma Tp1RaisesNakedIff(e: Exchange, s: Side, r: Tp1Request, answers: nat -> Answer)
    requires Sized(e) && OneLeg(e) && Protected(e) && Legs(e) == [s]
    ensures var (after, out) := Tp1Handled(e, r, answers);
      var n := e.calls;
      (out.Raised? && !Protected(after)) <==>
        && LeavesRunner(e, s, r) && r.moveSl
        && !answers(n).Raise? && !answers(n + 1).Raise? && answers(n + 2).Fine? && RaisesNaked(n + 3, answers)
  {
    var read := Counted(e);
    if r.volume.Some? {
      PartialRunner(read, s, r, answers);
      var (reduced, close) := PartlyClosed(read, s, r.volume.value, r.normalize, answers);
      if close.Fine? && r.moveSl {
        if LeavesRunner(e, s, r) {
          BreakevenRaisesNakedIff(reduced, s, r.tp2, answers);
        } else {
          FlatStaysProtected(reduced, s, r.tp2, answers);
        }
      }
    }
  }

  // ----- the executor, call by call

  class CryptoExecutor {
    var state: Exchange
    const hedge: bool
    const answers: nat -> Answer

    constructor (state: Exchange, hedge: bool, answers: nat -> Answer)
      ensures this.state == state && this.hedge == hedge && this.answers == answers
    {
      this.state, this.hedge, this.answers := state, hedge, answers;
    }

    method PlaceMarketOrder(s: Side, qty: real, reduceOnly: bool) returns (a: Answer)
      modifies this
      ensures (state, a) == if reduceOnly then Reducing(old(state), s, qty, answers) else Ordered(old(state), hedge, s, qty, answers)
    {
      a := answers(state.calls);
      if reduceOnly && Volume(state, s) <= 0.0 && a.Fine? { a := Refused; }
      state := Counted(state);
      if a.Fine? { state := if reduceOnly then Reduced(state, s, qty) else Filled(state, hedge, s, qty); }
    }

    method SetStopLoss(s: Side) returns (a: Answer)
      modifies this
      ensures (state, a) == StopSet(old(state), s, answers)
    {
      a := answers(state.calls);
      state := Counted(state);
      if a.Fine? { state := if s.LongSide? then state.(longStop := true) else state.(shortStop := true); }
    }

    method CancelAllOrders() returns (a: Answer)
      modifies this
      ensures (state, a) == AllCancelled(old(state), answers)
    {
      a := answers(state.calls);
      state := Counted(state);
      if a.Fine? { state := state.(longStop := false, shortStop := false); }
    }

    method Call() returns (a: Answer)
      modifies this
      ensures (state, a) == Called(old(state), answers)
    {
      a := answers(state.calls);
      state := Counted(state);
    }

    method OpenPosition(s: Side, qty: real, sl: bool, tp: bool) returns (out: Outcome)
      modifies this
      ensures (state, out) == Entered(old(state), hedge, s, qty, sl, tp, answers)
    {
      if qty <= 0.0 { return Returned(false, false); }
      var entry := PlaceMarketOrder(s, qty, false);
      if entry.Raise? { return Raised; }
      if entry.Refused? { return Returned(false, false); }
      if sl {
        var stop := SetStopLoss(s);
        if stop.Raise? { return Raised; }
        if stop.Refused? {
          var rollback := PlaceMarketOrder(s, qty, true);
          return if rollback.Raise? then Raised else Returned(false, !rollback.Fine?);
        }
      }
      if tp {
        var target := Call();
        if target.Raise? { return Raised; }
      }
      return Returned(true, false);
    }

    method PartialClosePosition(s: Side, volume: real, normalize: real -> real) returns (a: Answer)
      modifies this
      ensures (state, a) == PartlyClosed(old(state), s, volume, normalize, answers)
    {
      var own := Volume(state, s);
      var positions := Call();
      if positions.Raise? { return Raise; }
      var safe := normalize(if volume < own then volume else own);
      if safe <= 0.0 { return Refused; }
      a := PlaceMarketOrder(s, safe, true);
    }

    method UpdatePositionSl(s: Side, tp2: bool) returns (a: Answer)
      modifies this
      ensures (state, a) == StopMoved(old(state), s, tp2, answers)
    {
      var positions := Call();
      if positions.Raise? { return Raise; }
      if Legs(state) == [] { return Refused; }
      var leg := PickLeg(state, s);
      var cancel := CancelAllOrders();
      if cancel.Raise? { return Raise; }
      a := SetStopLoss(leg);
      if a.Fine? && tp2 {
        var target := Call();
        if target.Raise? { return Raise; }
      }
    }

    method CloseAllPositions() returns (a: Answer)
      modifies this
      ensures (state, a) == AllClosed(old(state), answers)
    {
      var positions := Call();
      if positions.Raise? { return Raise; }
      var legs := Legs(state);
      if legs == [] { return Refused; }
      var cancel := CancelAllOrders();
      if cancel.Raise? { return Raise; }
      ghost var bare := state;
      a := Refused;
      for i := 0 to |legs|
        invariant (state, a) == LegsClosed(bare, legs[..i], answers) && !a.Raise?
      {
        assert legs[..i + 1][..i] == legs[..i];
        var filled := PlaceMarketOrder(legs[i], Volume(state, legs[i]), true);
        if filled.Raise? {
          RaiseStops(bare, legs, i + 1, answers);
          return Raise;
        }
        if filled.Fine? { a := Fine; }
      }
      assert legs[..|legs|] == legs;
    }

    method HandleTp1(r: Tp1Request) returns (out: Outcome)
      modifies this
      ensures (state, out) == Tp1Handled(old(state), r, answers)
    {
      var positions := Call();
      if positions.Raise? { return Raised; }
      var legs := Legs(state);
      if legs == [] || r.volume.None? { return Returned(false, false); }
      var close := PartialClosePosition(legs[0], r.volume.value, r.normalize);
      if close.Raise? { return Raised; }
      if close.Refused? { return Returned(false, false); }
      if !r.moveSl { return Returned(true, false); }
      var stop := UpdatePositionSl(legs[0], r.tp2);
      if stop.Raise? { return Raised; }
      if stop.Fine? { return Returned(true, false); }
      var failsafe := CloseAllPositions();
      return if failsafe.Raise? then Raised else Returned(true, !failsafe.Fine?);
    }
  }

  /** Once an order raised, the legs after it are not tried. */
  lemma {:induction false} RaiseStops(e: Exchange, legs: seq<Side>, n: nat, answers: nat -> Answer)
    requires n <= |legs| && LegsClosed(e, legs[..n], answers).1.Raise?
    ensures LegsClosed(e, legs, answers) == LegsClosed(e, legs[..n], answers)
    decreases |legs| - n
  {
    if n == |legs| {
      assert legs[..n] == legs;
    } else {
      assert legs[..n + 1][..n] == legs[..n];
      RaiseStops(e, legs, n + 1, answers);
    }
  }
}
