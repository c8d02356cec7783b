/**
 * Row and broker after a TP1, in every addressing mode and for every pattern of failures: the partial
 * close, the breakeven stop, and the failsafe that goes out for the whole strategy.
 */
module Tp1Exits {
  import opened Wrappers
  import opened CycleStatus
  import opened Repository
  import opened Broker
  import opened Guard
  import opened SignalHandler
  import opened Isolation
  import opened Processor
  import opened Exits

  /** Some position, whatever is left of it, is live under the ticket. */
  ghost predicate StillHeld(live: seq<Position>, ticket: int) { exists q :: q in live && q.ticket == ticket }

  /** The strategy's positions on the symbol. */
  function Held(b: Book, cfg: Config, sig: Signal): seq<Position> {
    OpenPositions(b.live, cfg.resolve(sig.symbol), Own(cfg, sig))
  }

  // ----- the steps of a TP1

  /** The book once the partial close of `first` is filled: reduced, or closed when the volume covers it. */
  function AfterPartial(b: Book, first: Position, volume: real): Book {
    Book(if volume < first.volume then WithVolume(b.live, first.ticket, first.volume - volume) else Without(b.live, first.ticket), b.next + 1)
  }

  lemma PartialOutcome(b: Book, cfg: Config, sig: Signal, first: Position, volume: real, ok: int -> bool)
    requires Owns(b, cfg, sig, first)
    ensures PartlyClosed(b, cfg.resolve(sig.symbol), Own(cfg, sig), first.ticket, volume, ok) ==
      if ok(b.next) then (AfterPartial(b, first, volume), Result(true, b.next, Some(Ticket(first.ticket)), None))
      else (b.(next := b.next + 1), Fail())
  {
    PicksOwn(b, cfg.resolve(sig.symbol), Own(cfg, sig), first);
  }

  lemma ReducedIff(live: seq<Position>, first: Position, volume: real, q: Position)
    requires first in live && forall r :: r in live && r.ticket == first.ticket ==> r == first
    ensures q in WithVolume(live, first.ticket, first.volume - volume) <==> (q in live && q.ticket != first.ticket) || q == Runner(first, volume)
  {
    var after := WithVolume(live, first.ticket, first.volume - volume);
    if q in after {
      var i :| 0 <= i < |after| && after[i] == q;
      assert live[i] in live;
    }
    if q in live && q.ticket != first.ticket {
      var i :| 0 <= i < |live| && live[i] == q;
      assert after[i] == q;
    }
    var n :| 0 <= n < |live| && live[n] == first;
    assert after[n] == Runner(first, volume);
  }

  lemma ReducedBookIff(b: Book, first: Position, volume: real)
    requires Numbered(b) && first in b.live
    ensures forall q :: q in WithVolume(b.live, first.ticket, first.volume - volume) <==>
      (q in b.live && q.ticket != first.ticket) || q == Runner(first, volume)
  {
    forall r | r in b.live && r.ticket == first.ticket ensures r == first { SameTicketSamePosition(b, first, r); }
    forall q ensures q in WithVolume(b.live, first.ticket, first.volume - volume) <==> (q in b.live && q.ticket != first.ticket) || q == Runner(first, volume) {
      ReducedIff(b.live, first, volume, q);
    }
  }

  lemma AfterPartialIff(b: Book, first: Position, volume: real)
    requires Numbered(b) && first in b.live
    ensures Numbered(AfterPartial(b, first, volume))
    ensures forall q :: q in AfterPartial(b, first, volume).live <==>
      (q in b.live && q.ticket != first.ticket) || (volume < first.volume && q == Runner(first, volume))
  {
    if volume < first.volume {
      VolumeKeepsNumbers(b, first, volume);
      ReducedBookIff(b, first, volume);
    } else {
      var keep := (q: Position) => false;
      WithoutIff(b.live, first.ticket);
      WithoutKeeps(b, first.ticket, keep);
    }
  }

  /** The breakeven move and, when it fails, the failsafe. */
  function Breakeven(b: Book, cfg: Config, sig: Signal, first: Position, r: Result, ok: int -> bool): (Book, Result) {
    var (moved, placed) := SlMoved(b, cfg.resolve(sig.symbol), Own(cfg, sig), first.ticket, first.priceOpen, ok);
    if placed then (moved, r)
    else
      var (after, failsafe) := ClosedAll(moved, cfg.resolve(sig.symbol), Own(cfg, sig), None, ok);
      (after, r.(failsafe := Some(failsafe.success)))
  }

  /** The first listed position is the only one a TP1 asks to reduce. */
  ghost predicate IsFirst(b: Book, cfg: Config, sig: Signal, ticket: Option<Ref>, first: Position) {
    Owns(b, cfg, sig, first) && LiveOf(b, cfg, sig, ticket) != [] && LiveOf(b, cfg, sig, ticket)[0] == first
  }

  lemma Tp1Unfolds(b: Book, cfg: Config, sig: Signal, plan: Plan, ticket: Option<Ref>, first: Position, ok: int -> bool)
    requires IsFirst(b, cfg, sig, ticket, first)
    ensures Tp1Handled(b, cfg, sig, plan, ticket, ok) ==
      if plan.tp1.None? then (b, Fail())
      else if !ok(b.next) then (b.(next := b.next + 1), Fail())
      else
        var r := Result(true, b.next, Some(Ticket(first.ticket)), None);
        var reduced := AfterPartial(b, first, plan.tp1.value);
        if !plan.moveSl then (reduced, r) else Breakeven(reduced, cfg, sig, first, r, ok)
  {
    if plan.tp1.Some? { PartialOutcome(b, cfg, sig, first, plan.tp1.value, ok); }
  }

  /** A stop that is placed moves no ticket. */
  lemma StopKeepsTickets(live: seq<Position>, ticket: int, sl: real, held: int)
    ensures StillHeld(WithSl(live, ticket, sl), held) <==> StillHeld(live, held)
  {
    var after := WithSl(live, ticket, sl);
    if StillHeld(live, held) {
      var q :| q in live && q.ticket == held;
      var i :| 0 <= i < |live| && live[i] == q;
      assert after[i] in after;
    }
    if StillHeld(after, held) {
      var q :| q in after && q.ticket == held;
      var i :| 0 <= i < |after| && after[i] == q;
      assert live[i] in live;
    }
  }

  lemma BreakevenPlaced(b: Book, cfg: Config, sig: Signal, first: Position, r: Result, ok: int -> bool, held: int)
    requires Held(b, cfg, sig) != [] && ok(b.next)
    ensures var (after, s) := Breakeven(b, cfg, sig, first, r, ok);
      s == r && (StillHeld(after.live, held) <==> StillHeld(b.live, held))
  {
    StopKeepsTickets(b.live, Pick(Held(b, cfg, sig), first.ticket).ticket, first.priceOpen, held);
  }

  /** The book the failsafe finds: a refused stop has used up an order, a missing position has not. */
  function BeforeFailsafe(b: Book, cfg: Config, sig: Signal): Book {
    if Held(b, cfg, sig) == [] then b else b.(next := b.next + 1)
  }

  /** The failsafe reports success when any order is filled; `p` is gone when its own was. */
  lemma BreakevenFails(b: Book, cfg: Config, sig: Signal, first: Position, r: Result, ok: int -> bool, p: Position)
    requires Numbered(b) && p in b.live && (Held(b, cfg, sig) != [] ==> !ok(b.next))
    ensures var (after, s) := Breakeven(b, cfg, sig, first, r, ok);
      var m, rest := BeforeFailsafe(b, cfg, sig), Held(b, cfg, sig);
      && s == r.(failsafe := Some(AnyFilled(m, |rest|, ok)))
      && (StillHeld(after.live, p.ticket) <==> !FilledFor(m, rest, p.ticket, ok))
      && (p in after.live <==> !FilledFor(m, rest, p.ticket, ok))
  {
    var m, rest := BeforeFailsafe(b, cfg, sig), Held(b, cfg, sig);
    var after := Breakeven(b, cfg, sig, first, r, ok).0;
    CloseOutcome(m, cfg.resolve(sig.symbol), Own(cfg, sig), None, ok, p);
    if StillHeld(after.live, p.ticket) {
      var q :| q in after.live && q.ticket == p.ticket;
      ClosedEachRemoves(m, rest, ok, q);
      SameTicketSamePosition(b, p, q);
    }
  }

  lemma NothingLeftToClose(b: Book, cfg: Config, sig: Signal, first: Position, r: Result, ok: int -> bool)
    requires Held(b, cfg, sig) == []
    ensures Breakeven(b, cfg, sig, first, r, ok) == (b, r.(failsafe := Some(false)))
  {
  }

  // ----- the row

  lemma Tp1Status(w: World, cfg: Config, cap: int, i: Input, ok: int -> bool, k: int, p: Position)
    requires Holding(w, cfg, i.sig, k, p) && i.sig.action.ExitTp1?
    ensures var after := Processed(w, cfg, cap, i, ok);
      var (book, r) := Tp1Handled(w.book, cfg, i.sig, i.plan, ExitTicket(cfg, i.sig, w.rows[k]), ok);
      && |after.rows| == |w.rows| && after.book == book
      && (!r.success ==> after.rows[k] == w.rows[k])
      && (r.success ==> after.rows[k].status == if r.failsafe == Some(true) then ForcedClosed else Tp1)
  {
    HoldingIsFound(w, cfg, i, k, p);
    TargetsIff(w.book, cfg, i.sig, w.rows[k]);
    assert p in Targets(w.book, cfg, i.sig, w.rows[k]);
    ProcessedExit(w, cfg, cap, i, ok);
    var r := Handled(w, cfg, i.sig, i.plan, i.now, ok).1;
    if r.success { UpdateShrinks(Healed(w, cfg, i), w.book.next, w.rows[k].refSource, ExitChange(i.sig, r), i.now); }
  }

  /** The row is closed exactly when the failsafe reports success, so this is what row and position agree on. */
  ghost predicate Agrees(outcome: (Book, Result), ticket: int) {
    StillHeld(outcome.0.live, ticket) <==> !(outcome.1.success && outcome.1.failsafe == Some(true))
  }

  /** The row is active exactly when something of its position is live. */
  ghost predicate Tp1InStep(w: World, cfg: Config, cap: int, i: Input, ok: int -> bool, k: int, p: Position)
    requires i.sig.strategy in cfg.magics && 0 <= k
  {
    var after := Processed(w, cfg, cap, i, ok);
    k < |after.rows| && (Active(after.rows[k]) <==> StillHeld(after.book.live, p.ticket))
  }

  lemma InStepMeansAgrees(w: World, cfg: Config, cap: int, i: Input, ok: int -> bool, k: int, p: Position)
    requires Holding(w, cfg, i.sig, k, p) && i.sig.action.ExitTp1?
    ensures Tp1InStep(w, cfg, cap, i, ok, k, p) <==>
      Agrees(Tp1Handled(w.book, cfg, i.sig, i.plan, ExitTicket(cfg, i.sig, w.rows[k]), ok), p.ticket)
  {
    HoldingIsFound(w, cfg, i, k, p);
    Tp1Status(w, cfg, cap, i, ok, k, p);
  }

  // ----- exactly when they stay in step

  /** What TP1 must not do, for the row's position `p` and the first listed position. */
  ghost predicate KeepsStep(b: Book, cfg: Config, sig: Signal, plan: Plan, p: Position, first: Position) {
    || plan.tp1.None?
    || (if first == p then plan.tp1.value < p.volume && (!plan.moveSl || forall q :: !Sibling(b, cfg, sig, p, q))
        else !plan.moveSl || (plan.tp1.value >= first.volume && forall q :: Sibling(b, cfg, sig, p, q) ==> q == first))
  }

  /** What is left of `p` after the partial close of `first`. */
  function LeftOf(p: Position, first: Position, volume: real): Position { if first == p then Runner(p, volume) else p }

  /** After the partial close the strategy holds what is left of `p`, and another position exactly as follows. */
  lemma HeldAfterPartial(b: Book, cfg: Config, sig: Signal, p: Position, first: Position, volume: real, q: Position)
    requires Owns(b, cfg, sig, p) && Owns(b, cfg, sig, first)
    ensures q in Held(AfterPartial(b, first, volume), cfg, sig) <==>
      || (q.ticket != first.ticket && (q == p || Sibling(b, cfg, sig, p, q)))
      || (volume < first.volume && q == Runner(first, volume))
  {
    AfterPartialIff(b, first, volume);
    OpenPositionsIff(AfterPartial(b, first, volume).live, cfg.resolve(sig.symbol), Own(cfg, sig));
    if q in b.live && q.ticket == p.ticket { SameTicketSamePosition(b, p, q); }
  }

  /** The failsafe agrees with the row when all it can close is what is left of the row's position. */
  lemma OnlyLeftAgrees(b: Book, cfg: Config, sig: Signal, first: Position, r: Result, ok: int -> bool, left: Position)
    requires Numbered(b) && left in Held(b, cfg, sig) && r.success && r.failsafe.None?
    requires forall q :: q in Held(b, cfg, sig) ==> q == left
    ensures Agrees(Breakeven(b, cfg, sig, first, r, ok), left.ticket)
  {
    OpenPositionsIff(b.live, cfg.resolve(sig.symbol), Own(cfg, sig));
    if ok(b.next) {
      BreakevenPlaced(b, cfg, sig, first, r, ok, left.ticket);
    } else {
      BreakevenFails(b, cfg, sig, first, r, ok, left);
      OneKindOfOrder(BeforeFailsafe(b, cfg, sig), Held(b, cfg, sig), left, ok);
    }
  }

  /** A pattern that refuses the last order before `b` and then fills `q` and not `p`. */
  lemma RefusedThenOther(b: Book, targets: seq<Position>, p: Position, q: Position) returns (ok: int -> bool)
    requires forall j, k :: 0 <= j < k < |targets| ==> targets[j].ticket != targets[k].ticket
    requires p in targets && q in targets && p.ticket != q.ticket
    ensures !ok(b.next - 1) && forall n :: n < b.next - 1 ==> ok(n)
    ensures AnyFilled(b, |targets|, ok) && !FilledFor(b, targets, p.ticket, ok)
  {
    var late := OtherOrderFills(b, targets, p, q);
    ok := x => if x < b.next then x != b.next - 1 else late(x);
    var n :| b.next <= n < b.next + |targets| && late(n);
    assert ok(n);
    forall k | 0 <= k < |targets| && targets[k].ticket == p.ticket ensures !ok(b.next + k) { }
  }

  /** With another position in its reach, the failsafe can close that one alone and report success. */
  lemma FailsafeTakesOther(b: Book, cfg: Config, sig: Signal, first: Position, r: Result, left: Position, other: Position) returns (ok: int -> bool)
    requires Numbered(b) && r.success && r.failsafe.None?
    requires left in Held(b, cfg, sig) && other in Held(b, cfg, sig) && left.ticket != other.ticket
    ensures forall n :: n < b.next ==> ok(n)
    ensures var (after, s) := Breakeven(b, cfg, sig, first, r, ok); s == r.(failsafe := Some(true)) && left in after.live
  {
    var m, rest := BeforeFailsafe(b, cfg, sig), Held(b, cfg, sig);
    OpenPositionsIff(b.live, cfg.resolve(sig.symbol), Own(cfg, sig));
    OpenPositionsDistinct(b.live, cfg.resolve(sig.symbol), Own(cfg, sig));
    ok := RefusedThenOther(m, rest, left, other);
    BreakevenFails(b, cfg, sig, first, r, ok, left);
  }

  /** Under every pattern of failures the row and the position stay in step. */
  lemma KeptInStep(b: Book, cfg: Config, sig: Signal, plan: Plan, ticket: Option<Ref>, p: Position, first: Position, ok: int -> bool)
    requires Owns(b, cfg, sig, p) && IsFirst(b, cfg, sig, ticket, first) && KeepsStep(b, cfg, sig, plan, p, first)
    ensures Agrees(Tp1Handled(b, cfg, sig, plan, ticket, ok), p.ticket)
  {
    Tp1Unfolds(b, cfg, sig, plan, ticket, first, ok);
    if plan.tp1.Some? && ok(b.next) {
      PartialKeepsStep(b, cfg, sig, plan, p, first, ok);
    } else {
      assert p in b.live;
    }
  }

  lemma PartialKeepsStep(b: Book, cfg: Config, sig: Signal, plan: Plan, p: Position, first: Position, ok: int -> bool)
    requires Owns(b, cfg, sig, p) && Owns(b, cfg, sig, first) && plan.tp1.Some? && KeepsStep(b, cfg, sig, plan, p, first)
    ensures var r := Result(true, b.next, Some(Ticket(first.ticket)), None);
      var reduced := AfterPartial(b, first, plan.tp1.value);
      Agrees(if !plan.moveSl then (reduced, r) else Breakeven(reduced, cfg, sig, first, r, ok), p.ticket)
  {
    var r := Result(true, b.next, Some(Ticket(first.ticket)), None);
    var reduced, left := AfterPartial(b, first, plan.tp1.value), LeftOf(p, first, plan.tp1.value);
    AfterPartialIff(b, first, plan.tp1.value);
    if first != p && first.ticket == p.ticket { SameTicketSamePosition(b, p, first); }
    assert left in reduced.live;
    if plan.moveSl {
      forall q ensures q in Held(reduced, cfg, sig) <==> q == left {
        HeldAfterPartial(b, cfg, sig, p, first, plan.tp1.value, q);
      }
      OnlyLeftAgrees(reduced, cfg, sig, first, r, ok, left);
    }
  }

  /** The whole position is closed and the row left at TP1, when every order is filled. */
  lemma WholeVolumeLeavesRow(b: Book, cfg: Config, sig: Signal, plan: Plan, ticket: Option<Ref>, p: Position, ok: int -> bool)
    requires IsFirst(b, cfg, sig, ticket, p) && plan.tp1.Some? && plan.tp1.value >= p.volume && forall n :: ok(n)
    ensures var (after, r) := Tp1Handled(b, cfg, sig, plan, ticket, ok);
      r.success && r.failsafe != Some(true) && !StillHeld(after.live, p.ticket)
  {
    var r := Result(true, b.next, Some(Ticket(p.ticket)), None);
    var reduced := AfterPartial(b, p, plan.tp1.value);
    Tp1Unfolds(b, cfg, sig, plan, ticket, p, ok);
    AfterPartialIff(b, p, plan.tp1.value);
    if plan.moveSl {
      if Held(reduced, cfg, sig) == [] {
        NothingLeftToClose(reduced, cfg, sig, p, r, ok);
      } else {
        BreakevenPlaced(reduced, cfg, sig, p, r, ok, p.ticket);
      }
    }
  }

  /** The stop is refused, the failsafe closes another position and reports success: what is left of `p` stays live. */
  lemma FailsafeLeavesPosition(b: Book, cfg: Config, sig: Signal, plan: Plan, ticket: Option<Ref>, p: Position, first: Position, other: Position)
      returns (ok: int -> bool)
    requires Owns(b, cfg, sig, p) && IsFirst(b, cfg, sig, ticket, first) && plan.tp1.Some? && plan.moveSl
    requires var reduced := AfterPartial(b, first, plan.tp1.value);
      var left := LeftOf(p, first, plan.tp1.value);
      left in Held(reduced, cfg, sig) && other in Held(reduced, cfg, sig) && other.ticket != p.ticket
    ensures var (after, r) := Tp1Handled(b, cfg, sig, plan, ticket, ok);
      r.success && r.failsafe == Some(true) && LeftOf(p, first, plan.tp1.value) in after.live
  {
    var r := Result(true, b.next, Some(Ticket(first.ticket)), None);
    AfterPartialIff(b, first, plan.tp1.value);
    ok := FailsafeTakesOther(AfterPartial(b, first, plan.tp1.value), cfg, sig, first, r, LeftOf(p, first, plan.tp1.value), other);
    Tp1Unfolds(b, cfg, sig, plan, ticket, first, ok);
  }

  /** The other position the failsafe can take, where TP1 does not keep step by closing the whole. */
  lemma OtherInReach(b: Book, cfg: Config, sig: Signal, plan: Plan, p: Position, first: Position) returns (other: Position)
    requires Owns(b, cfg, sig, p) && Owns(b, cfg, sig, first) && !KeepsStep(b, cfg, sig, plan, p, first)
    requires first == p ==> plan.tp1.value < p.volume
    ensures var held := Held(AfterPartial(b, first, plan.tp1.value), cfg, sig);
      plan.moveSl && LeftOf(p, first, plan.tp1.value) in held && other in held && other.ticket != p.ticket
  {
    var volume := plan.tp1.value;
    HeldAfterPartial(b, cfg, sig, p, first, volume, LeftOf(p, first, volume));
    if first != p && first.ticket == p.ticket { SameTicketSamePosition(b, p, first); }
    if first == p {
      other :| Sibling(b, cfg, sig, p, other);
    } else if volume < first.volume {
      other := Runner(first, volume);
    } else {
      other :| Sibling(b, cfg, sig, p, other) && other != first;
      if other.ticket == first.ticket { SameTicketSamePosition(b, first, other); }
    }
    HeldAfterPartial(b, cfg, sig, p, first, volume, other);
  }

  lemma OutOfStep(b: Book, cfg: Config, sig: Signal, plan: Plan, ticket: Option<Ref>, p: Position, first: Position) returns (ok: int -> bool)
    requires Owns(b, cfg, sig, p) && IsFirst(b, cfg, sig, ticket, first) && !KeepsStep(b, cfg, sig, plan, p, first)
    ensures !Agrees(Tp1Handled(b, cfg, sig, plan, ticket, ok), p.ticket)
  {
    if first == p && plan.tp1.value >= p.volume {
      ok := _ => true;
      WholeVolumeLeavesRow(b, cfg, sig, plan, ticket, p, ok);
    } else {
      var other := OtherInReach(b, cfg, sig, plan, p, first);
      ok := FailsafeLeavesPosition(b, cfg, sig, plan, ticket, p, first, other);
      assert LeftOf(p, first, plan.tp1.value).ticket == p.ticket;
    }
  }

  /**
   * In every mode: after a TP1 the row is active exactly when something of its position is live, under every
   * pattern of failures, exactly when TP1 is not sized; or it takes a part of the row's own position and either
   * moves no stop or the strategy holds nothing else on the symbol; or it takes another position and either
   * moves no stop or closes that one whole and it is the only other. Under a uxid the position is the row's own.
   */
  lemma Tp1InStepIff(w: World, cfg: Config, cap: int, i: Input, k: int, p: Position, first: Position)
    requires Holding(w, cfg, i.sig, k, p) && i.sig.action.ExitTp1?
    requires Targets(w.book, cfg, i.sig, w.rows[k]) != [] && first == Targets(w.book, cfg, i.sig, w.rows[k])[0]
    ensures (forall ok: int -> bool :: Tp1InStep(w, cfg, cap, i, ok, k, p)) <==> KeepsStep(w.book, cfg, i.sig, i.plan, p, first)
    ensures UxidScope(cfg, i.sig).Some? ==> first == p
  {
    var ticket := ExitTicket(cfg, i.sig, w.rows[k]);
    FirstTarget(w, cfg, i.sig, k, p, first);
    if KeepsStep(w.book, cfg, i.sig, i.plan, p, first) {
      forall ok: int -> bool ensures Tp1InStep(w, cfg, cap, i, ok, k, p) {
        KeptInStep(w.book, cfg, i.sig, i.plan, ticket, p, first, ok);
        InStepMeansAgrees(w, cfg, cap, i, ok, k, p);
      }
    } else {
      var ok := OutOfStep(w.book, cfg, i.sig, i.plan, ticket, p, first);
      InStepMeansAgrees(w, cfg, cap, i, ok, k, p);
      assert !Tp1InStep(w, cfg, cap, i, ok, k, p);
    }
  }

  /** Under a uxid, with a sibling: a refused stop can end with the row FORCED_CLOSED and its reduced position live. */
  lemma ForcedClosedWhileLive(w: World, cfg: Config, cap: int, i: Input, k: int, p: Position, q: Position)
    requires Holding(w, cfg, i.sig, k, p) && i.sig.action.ExitTp1? && UxidScope(cfg, i.sig).Some?
    requires i.plan.tp1.Some? && i.plan.tp1.value < p.volume && i.plan.moveSl && Sibling(w.book, cfg, i.sig, p, q)
    ensures exists ok: int -> bool :: var after := Processed(w, cfg, cap, i, ok);
      |after.rows| == |w.rows| && after.rows[k].status == ForcedClosed && Runner(p, i.plan.tp1.value) in after.book.live
  {
    ScopedTargets(w, cfg, i, k, p);
    FirstTarget(w, cfg, i.sig, k, p, p);
    var other := OtherInReach(w.book, cfg, i.sig, i.plan, p, p);
    var ok := FailsafeLeavesPosition(w.book, cfg, i.sig, i.plan, ExitTicket(cfg, i.sig, w.rows[k]), p, p, other);
    Tp1Status(w, cfg, cap, i, ok, k, p);
  }

  /** Under a uxid: a TP1 that covers the whole position closes it and leaves the row at TP1, which is active. */
  lemma Tp1RowWithoutPosition(w: World, cfg: Config, cap: int, i: Input, ok: int -> bool, k: int, p: Position)
    requires Holding(w, cfg, i.sig, k, p) && i.sig.action.ExitTp1? && UxidScope(cfg, i.sig).Some?
    requires i.plan.tp1.Some? && i.plan.tp1.value >= p.volume && forall n :: ok(n)
    ensures var after := Processed(w, cfg, cap, i, ok);
      |after.rows| == |w.rows| && after.rows[k].status == Tp1 && !StillHeld(after.book.live, p.ticket)
  {
    ScopedTargets(w, cfg, i, k, p);
    FirstTarget(w, cfg, i.sig, k, p, p);
    WholeVolumeLeavesRow(w.book, cfg, i.sig, i.plan, ExitTicket(cfg, i.sig, w.rows[k]), p, ok);
    Tp1Status(w, cfg, cap, i, ok, k, p);
  }
}
