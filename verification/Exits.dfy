/**
 * Row and broker after an exit, in every addressing mode. With a uxid in scope an exit is narrowed to the
 * ticket of its row; without one it closes whatever the strategy holds on the symbol.
 */
module Exits {
  import opened Wrappers
  import opened CycleStatus
  import opened Repository
  import opened Broker
  import opened Guard
  import opened SignalHandler
  import opened Isolation
  import opened Processor

  /** Row `k` is the tracked row the lookup returns, and `p` its live position. */
  ghost predicate Holding(w: World, cfg: Config, sig: Signal, k: int, p: Position) {
    && WellFormed(w) && sig.strategy in cfg.magics && 0 <= k < |w.rows|
    && OwnRows(w.rows, cfg, sig) != [] && OwnRows(w.rows, cfg, sig)[0] == w.rows[k]
    && w.rows[k].refSource == Ticket(p.ticket) && Owns(w.book, cfg, sig, p)
  }

  /** The rows once duplicates of the key are healed. */
  function Healed(w: World, cfg: Config, i: Input): seq<Row> { DbPosition(w.rows, cfg, i.sig, i.now).0 }

  /** The positions the exit addresses. */
  function Targets(b: Book, cfg: Config, sig: Signal, row: Row): seq<Position> {
    LiveOf(b, cfg, sig, ExitTicket(cfg, sig, row))
  }

  lemma HoldingIsFound(w: World, cfg: Config, i: Input, k: int, p: Position)
    requires Holding(w, cfg, i.sig, k, p)
    ensures DbPosition(w.rows, cfg, i.sig, i.now) == (Healed(w, cfg, i), Some(w.rows[k]))
    ensures Ledger(Healed(w, cfg, i), w.book.next) && |Healed(w, cfg, i)| == |w.rows| && Healed(w, cfg, i)[k] == w.rows[k]
    ensures Active(w.rows[k])
  {
    DbPositionKeeps(w.rows, w.book.next, cfg, i.sig, i.now);
    var healed := Healed(w, cfg, i);
    var j :| 0 <= j < |healed| && healed[j] == w.rows[k] && Active(healed[j]);
    assert w.rows[j].refSource == healed[j].refSource == w.rows[k].refSource && w.rows[k].refSource.Ticket?;
    assert j == k;
  }

  lemma TargetsIff(b: Book, cfg: Config, sig: Signal, row: Row)
    ensures forall q :: q in Targets(b, cfg, sig, row) <==>
      q in b.live && IsAddressed(q, cfg.resolve(sig.symbol), Own(cfg, sig), ExitTicket(cfg, sig, row))
  {
    AddressedIff(b, cfg.resolve(sig.symbol), Own(cfg, sig), ExitTicket(cfg, sig, row));
  }

  /** One of the orders of a close of `n` positions is filled. */
  ghost predicate AnyFilled(b: Book, n: nat, ok: int -> bool) { exists k :: b.next <= k < b.next + n && ok(k) }

  /** A close of listed positions: who is gone, and whether it reports success. */
  lemma CloseOutcome(b: Book, symbol: string, magics: set<int>, ticket: Option<Ref>, ok: int -> bool, p: Position)
    ensures var positions := FilterByTicket(OpenPositions(b.live, symbol, magics), ticket);
      var (after, r) := ClosedAll(b, symbol, magics, ticket, ok);
      && (p in after.live <==> p in b.live && !FilledFor(b, positions, p.ticket, ok))
      && (r.success <==> AnyFilled(b, |positions|, ok)) && after.next == b.next + |positions| && r.failsafe.None?
  {
    var positions := FilterByTicket(OpenPositions(b.live, symbol, magics), ticket);
    ClosedEachRemoves(b, positions, ok, p);
    ClosedEachSucceedsIff(b, positions, ok);
  }

  // ----- TP2, SL and R_SL

  predicate FullExit(a: Action) { a.ExitTp2? || a.ExitSl? || a.ExitRSl? }

  lemma ExitUnfolds(w: World, cfg: Config, i: Input, ok: int -> bool, k: int, p: Position)
    requires Holding(w, cfg, i.sig, k, p) && FullExit(i.sig.action)
    ensures var (book, r) := ClosedAll(w.book, cfg.resolve(i.sig.symbol), Own(cfg, i.sig), ExitTicket(cfg, i.sig, w.rows[k]), ok);
      Handled(w, cfg, i.sig, i.plan, i.now, ok) ==
        (World(Healed(w, cfg, i), book), if r.success then r.(source := Some(w.rows[k].refSource)) else r)
  {
    HoldingIsFound(w, cfg, i, k, p);
    TargetsIff(w.book, cfg, i.sig, w.rows[k]);
    assert p in Targets(w.book, cfg, i.sig, w.rows[k]);
  }

  lemma ProcessedExit(w: World, cfg: Config, cap: int, i: Input, ok: int -> bool)
    requires i.sig.strategy in cfg.magics && !IsEntry(i.sig.action)
    ensures var (after, r) := Handled(w, cfg, i.sig, i.plan, i.now, ok);
      var rows := if r.success then Applied(after.rows, SourceOf(r), ExitChange(i.sig, r), i.now) else after.rows;
      Processed(w, cfg, cap, i, ok) == after.(rows := rows)
  {
  }

  lemma ClosingApplies(rows: seq<Row>, ref: Ref, c: Change, now: int, k: nat)
    requires k < |rows| && rows[k].refSource == ref && !Live(c.status)
    ensures |Applied(rows, ref, c, now)| == |rows| && Applied(rows, ref, c, now)[k].status == c.status
  {
  }

  lemma ExitBook(w: World, cfg: Config, i: Input, ok: int -> bool, k: int, p: Position)
    requires Holding(w, cfg, i.sig, k, p) && FullExit(i.sig.action)
    ensures var (after, r) := Handled(w, cfg, i.sig, i.plan, i.now, ok);
      var targets := Targets(w.book, cfg, i.sig, w.rows[k]);
      && after.rows == Healed(w, cfg, i) && r.failsafe.None?
      && (p !in after.book.live <==> FilledFor(w.book, targets, p.ticket, ok))
      && (r.success <==> AnyFilled(w.book, |targets|, ok)) && (r.success ==> r.source == Some(w.rows[k].refSource))
  {
    ExitUnfolds(w, cfg, i, ok, k, p);
    CloseOutcome(w.book, cfg.resolve(i.sig.symbol), Own(cfg, i.sig), ExitTicket(cfg, i.sig, w.rows[k]), ok, p);
  }

  lemma ExitRow(w: World, cfg: Config, cap: int, i: Input, ok: int -> bool, k: int, p: Position)
    requires Holding(w, cfg, i.sig, k, p) && FullExit(i.sig.action)
    requires var (after, r) := Handled(w, cfg, i.sig, i.plan, i.now, ok);
      after.rows == Healed(w, cfg, i) && r.failsafe.None? && (r.success ==> r.source == Some(w.rows[k].refSource))
    ensures var after, r := Processed(w, cfg, cap, i, ok), Handled(w, cfg, i.sig, i.plan, i.now, ok).1;
      && |after.rows| == |w.rows|
      && (r.success ==> after.rows[k].status == ExitStatus(i.sig.action))
      && (!r.success ==> after.rows[k] == w.rows[k])
  {
    HoldingIsFound(w, cfg, i, k, p);
    ProcessedExit(w, cfg, cap, i, ok);
    var r := Handled(w, cfg, i.sig, i.plan, i.now, ok).1;
    if r.success { ClosingApplies(Healed(w, cfg, i), w.rows[k].refSource, ExitChange(i.sig, r), i.now, k); }
  }

  /** In every mode: the row is closed exactly when some order was filled, the position gone exactly when its own was. */
  lemma ExitOutcome(w: World, cfg: Config, cap: int, i: Input, ok: int -> bool, k: int, p: Position)
    requires Holding(w, cfg, i.sig, k, p) && FullExit(i.sig.action)
    ensures var after, targets := Processed(w, cfg, cap, i, ok), Targets(w.book, cfg, i.sig, w.rows[k]);
      && |after.rows| == |w.rows|
      && (p !in after.book.live <==> FilledFor(w.book, targets, p.ticket, ok))
      && (!Active(after.rows[k]) <==> AnyFilled(w.book, |targets|, ok))
      && (Active(after.rows[k]) ==> after.rows[k] == w.rows[k])
      && (!Active(after.rows[k]) ==> after.rows[k].status == ExitStatus(i.sig.action))
  {
    HoldingIsFound(w, cfg, i, k, p);
    ExitBook(w, cfg, i, ok, k, p);
    ExitRow(w, cfg, cap, i, ok, k, p);
    ProcessedExit(w, cfg, cap, i, ok);
  }

  /** Row and position go together. */
  ghost predicate InStep(w: World, cfg: Config, cap: int, i: Input, ok: int -> bool, k: int, p: Position)
    requires i.sig.strategy in cfg.magics && 0 <= k
  {
    var after := Processed(w, cfg, cap, i, ok);
    k < |after.rows| && (Active(after.rows[k]) <==> p in after.book.live)
  }

  lemma InStepIff(w: World, cfg: Config, cap: int, i: Input, ok: int -> bool, k: int, p: Position)
    requires Holding(w, cfg, i.sig, k, p) && FullExit(i.sig.action)
    ensures var targets := Targets(w.book, cfg, i.sig, w.rows[k]);
      InStep(w, cfg, cap, i, ok, k, p) <==> (AnyFilled(w.book, |targets|, ok) <==> FilledFor(w.book, targets, p.ticket, ok))
  {
    ExitOutcome(w, cfg, cap, i, ok, k, p);
  }

  lemma OnlyTarget(w: World, cfg: Config, sig: Signal, k: int, p: Position)
    requires Holding(w, cfg, sig, k, p) && (UxidScope(cfg, sig).Some? || forall q :: !Sibling(w.book, cfg, sig, p, q))
    ensures forall q :: q in Targets(w.book, cfg, sig, w.rows[k]) ==> q == p
  {
    TargetsIff(w.book, cfg, sig, w.rows[k]);
    forall q | q in Targets(w.book, cfg, sig, w.rows[k]) ensures q == p {
      assert q.ticket == p.ticket || Sibling(w.book, cfg, sig, p, q);
      SameTicketSamePosition(w.book, p, q);
    }
  }

  /** When a close can only be of `p`, any fill is its own. */
  lemma OneKindOfOrder(b: Book, targets: seq<Position>, p: Position, ok: int -> bool)
    requires forall q :: q in targets ==> q == p
    ensures AnyFilled(b, |targets|, ok) <==> FilledFor(b, targets, p.ticket, ok)
  {
    if AnyFilled(b, |targets|, ok) {
      var n :| b.next <= n < b.next + |targets| && ok(n);
      assert targets[n - b.next] in targets && ok(b.next + (n - b.next));
    }
    if k :| 0 <= k < |targets| && targets[k].ticket == p.ticket && ok(b.next + k) {
      assert b.next <= b.next + k < b.next + |targets|;
    }
  }

  /** With another position among the targets, a pattern of fills takes it and not `p`. */
  lemma OtherOrderFills(b: Book, targets: seq<Position>, p: Position, q: Position) returns (ok: int -> bool)
    requires forall j, k :: 0 <= j < k < |targets| ==> targets[j].ticket != targets[k].ticket
    requires p in targets && q in targets && p.ticket != q.ticket
    ensures AnyFilled(b, |targets|, ok) && !FilledFor(b, targets, p.ticket, ok)
  {
    var m :| 0 <= m < |targets| && targets[m] == p;
    var n :| 0 <= n < |targets| && targets[n] == q;
    ok := x => x != b.next + m;
    assert ok(b.next + n);
  }

  lemma SiblingClosesRow(w: World, cfg: Config, cap: int, i: Input, k: int, p: Position, q: Position)
    requires Holding(w, cfg, i.sig, k, p) && FullExit(i.sig.action) && UxidScope(cfg, i.sig).None? && Sibling(w.book, cfg, i.sig, p, q)
    ensures exists ok: int -> bool :: !InStep(w, cfg, cap, i, ok, k, p)
  {
    var b, targets := w.book, Targets(w.book, cfg, i.sig, w.rows[k]);
    TargetsIff(b, cfg, i.sig, w.rows[k]);
    OpenPositionsDistinct(b.live, cfg.resolve(i.sig.symbol), Own(cfg, i.sig));
    var ok := OtherOrderFills(b, targets, p, q);
    InStepIff(w, cfg, cap, i, ok, k, p);
    assert !InStep(w, cfg, cap, i, ok, k, p);
  }

  /**
   * TP2, SL and R_SL close the row exactly when its position is gone, under every pattern of failures, exactly
   * when a uxid narrows the exit or the strategy holds nothing else on the symbol: otherwise a sibling's fill
   * closes the row of a live position.
   */
  lemma ExitInStepIff(w: World, cfg: Config, cap: int, i: Input, k: int, p: Position)
    requires Holding(w, cfg, i.sig, k, p) && FullExit(i.sig.action)
    ensures (forall ok: int -> bool :: InStep(w, cfg, cap, i, ok, k, p))
      <==> UxidScope(cfg, i.sig).Some? || forall q :: !Sibling(w.book, cfg, i.sig, p, q)
  {
    if UxidScope(cfg, i.sig).Some? || forall q :: !Sibling(w.book, cfg, i.sig, p, q) {
      forall ok: int -> bool ensures InStep(w, cfg, cap, i, ok, k, p) {
        OnlyTargetInStep(w, cfg, cap, i, ok, k, p);
      }
    } else {
      var q :| Sibling(w.book, cfg, i.sig, p, q);
      SiblingClosesRow(w, cfg, cap, i, k, p, q);
    }
  }

  lemma OnlyTargetInStep(w: World, cfg: Config, cap: int, i: Input, ok: int -> bool, k: int, p: Position)
    requires Holding(w, cfg, i.sig, k, p) && FullExit(i.sig.action)
    requires UxidScope(cfg, i.sig).Some? || forall q :: !Sibling(w.book, cfg, i.sig, p, q)
    ensures InStep(w, cfg, cap, i, ok, k, p)
  {
    OnlyTarget(w, cfg, i.sig, k, p);
    InStepIff(w, cfg, cap, i, ok, k, p);
    OneKindOfOrder(w.book, Targets(w.book, cfg, i.sig, w.rows[k]), p, ok);
  }

  lemma OneOrder(b: Book, p: Position, ok: int -> bool)
    ensures FilledFor(b, [p], p.ticket, ok) <==> ok(b.next)
    ensures AnyFilled(b, 1, ok) <==> ok(b.next)
  {
    assert [p][0] == p;
    if ok(b.next) { assert ok(b.next + 0); }
  }

  lemma UnfilledExitChangesNoRow(w: World, cfg: Config, cap: int, i: Input, ok: int -> bool, k: int, p: Position)
    requires Holding(w, cfg, i.sig, k, p) && FullExit(i.sig.action) && UxidScope(cfg, i.sig).Some? && !ok(w.book.next)
    ensures Processed(w, cfg, cap, i, ok).rows == w.rows
  {
    ScopedTargets(w, cfg, i, k, p);
    ExitUnfolds(w, cfg, i, ok, k, p);
    OneOrder(w.book, p, ok);
    CloseOutcome(w.book, cfg.resolve(i.sig.symbol), Own(cfg, i.sig), ExitTicket(cfg, i.sig, w.rows[k]), ok, p);
    ProcessedExit(w, cfg, cap, i, ok);
  }

  /** Under a uxid the exit makes one order; unfilled it changes no row, and filled it closes its own. */
  lemma ExitFollowsTheBroker(w: World, cfg: Config, cap: int, i: Input, ok: int -> bool, k: int, p: Position)
    requires Holding(w, cfg, i.sig, k, p) && FullExit(i.sig.action) && UxidScope(cfg, i.sig).Some?
    ensures var after := Processed(w, cfg, cap, i, ok);
      && |after.rows| == |w.rows|
      && (p in after.book.live <==> !ok(w.book.next))
      && (p in after.book.live ==> after.rows == w.rows)
      && (p !in after.book.live ==> after.rows[k].status == ExitStatus(i.sig.action))
  {
    ExitOutcome(w, cfg, cap, i, ok, k, p);
    ScopedTargets(w, cfg, i, k, p);
    OneOrder(w.book, p, ok);
    if !ok(w.book.next) { UnfilledExitChangesNoRow(w, cfg, cap, i, ok, k, p); }
  }

  lemma ScopedTargets(w: World, cfg: Config, i: Input, k: int, p: Position)
    requires Holding(w, cfg, i.sig, k, p) && UxidScope(cfg, i.sig).Some?
    ensures Targets(w.book, cfg, i.sig, w.rows[k]) == [p] && Healed(w, cfg, i) == w.rows
  {
    AddressedIsOne(w.book, cfg.resolve(i.sig.symbol), Own(cfg, i.sig), p);
    OpenIsSingle(w.rows, i.sig.strategy, i.sig.symbol, UxidScope(cfg, i.sig).value);
    assert OwnRows(w.rows, cfg, i.sig)[1..] == [];
  }

  // ----- FLAT

  predicate Retries(cfg: Config, r: Result) { !r.success && !cfg.multiStrategy && !cfg.multiPositions }

  lemma ScopedMeansMulti(cfg: Config, sig: Signal)
    ensures UxidScope(cfg, sig).Some? ==> cfg.multiPositions
  {
  }

  /** The position is closed by the first pass, or by the retry that drops the strategy filter. */
  ghost predicate FlatFills(b: Book, cfg: Config, sig: Signal, row: Row, ok: int -> bool, p: Position) {
    var (mid, r) := ClosedAll(b, cfg.resolve(sig.symbol), Own(cfg, sig), ExitTicket(cfg, sig, row), ok);
    || FilledFor(b, Targets(b, cfg, sig, row), p.ticket, ok)
    || (Retries(cfg, r) && FilledFor(mid, OpenPositions(mid.live, cfg.resolve(sig.symbol), cfg.magics.Values), p.ticket, ok))
  }

  lemma FlatBookOutcome(b: Book, cfg: Config, sig: Signal, row: Row, ok: int -> bool, p: Position)
    requires p in b.live
    ensures p !in FlatClosed(b, cfg, sig, ExitTicket(cfg, sig, row), ok).0.live <==> FlatFills(b, cfg, sig, row, ok, p)
    ensures FlatClosed(b, cfg, sig, ExitTicket(cfg, sig, row), ok).1.failsafe.None?
  {
    var symbol := cfg.resolve(sig.symbol);
    var mid := ClosedAll(b, symbol, Own(cfg, sig), ExitTicket(cfg, sig, row), ok).0;
    CloseOutcome(b, symbol, Own(cfg, sig), ExitTicket(cfg, sig, row), ok, p);
    CloseOutcome(mid, symbol, cfg.magics.Values, None, ok, p);
  }

  lemma FlatUnfolds(w: World, cfg: Config, i: Input, ok: int -> bool, k: int, p: Position)
    requires Holding(w, cfg, i.sig, k, p) && i.sig.action.ExitFlat?
    ensures var (book, r) := FlatClosed(w.book, cfg, i.sig, ExitTicket(cfg, i.sig, w.rows[k]), ok);
      var rows := if r.success then Healed(w, cfg, i) else Applied(Healed(w, cfg, i), w.rows[k].refSource, AsFlatted(i.sig), i.now);
      Handled(w, cfg, i.sig, i.plan, i.now, ok) == (World(rows, book), if r.success then r.(source := Some(w.rows[k].refSource)) else r)
  {
    HoldingIsFound(w, cfg, i, k, p);
  }

  lemma FlatRow(w: World, cfg: Config, cap: int, i: Input, ok: int -> bool, k: int, p: Position)
    requires Holding(w, cfg, i.sig, k, p) && i.sig.action.ExitFlat?
    ensures var after := Processed(w, cfg, cap, i, ok);
      && |after.rows| == |w.rows| && after.rows[k].status == Flatted
      && after.book == FlatClosed(w.book, cfg, i.sig, ExitTicket(cfg, i.sig, w.rows[k]), ok).0
  {
    HoldingIsFound(w, cfg, i, k, p);
    FlatUnfolds(w, cfg, i, ok, k, p);
    FlatBookOutcome(w.book, cfg, i.sig, w.rows[k], ok, p);
    ProcessedExit(w, cfg, cap, i, ok);
    var r := Handled(w, cfg, i.sig, i.plan, i.now, ok).1;
    if r.success {
      ClosingApplies(Healed(w, cfg, i), w.rows[k].refSource, ExitChange(i.sig, r), i.now, k);
    } else {
      ClosingApplies(Healed(w, cfg, i), w.rows[k].refSource, AsFlatted(i.sig), i.now, k);
    }
  }

  /**
   * In every mode a FLAT marks its row FLATTED whether or not the close is filled, so the row is really flat
   * exactly when the position's own order is filled, in the first pass or in the unfiltered retry.
   */
  lemma FlatFlattensRegardless(w: World, cfg: Config, cap: int, i: Input, ok: int -> bool, k: int, p: Position)
    requires Holding(w, cfg, i.sig, k, p) && i.sig.action.ExitFlat?
    ensures var after := Processed(w, cfg, cap, i, ok);
      && |after.rows| == |w.rows| && after.rows[k].status == Flatted
      && (p !in after.book.live <==> FlatFills(w.book, cfg, i.sig, w.rows[k], ok, p))
      && (UxidScope(cfg, i.sig).Some? ==> (FlatFills(w.book, cfg, i.sig, w.rows[k], ok, p) <==> ok(w.book.next)))
  {
    FlatRow(w, cfg, cap, i, ok, k, p);
    FlatBookOutcome(w.book, cfg, i.sig, w.rows[k], ok, p);
    if UxidScope(cfg, i.sig).Some? {
      ScopedTargets(w, cfg, i, k, p);
      OneOrder(w.book, p, ok);
      ScopedMeansMulti(cfg, i.sig);
    }
  }

  // ----- TP1

  lemma Tp1UsesFirst(b: Book, cfg: Config, sig: Signal, plan: Plan, ticket: Option<Ref>, p: Position, ok: int -> bool)
    requires Owns(b, cfg, sig, p) && LiveOf(b, cfg, sig, ticket) != [] && LiveOf(b, cfg, sig, ticket)[0] == p
    ensures Tp1Handled(b, cfg, sig, plan, ticket, ok) == Tp1Handled(b, cfg, sig, plan, Some(Ticket(p.ticket)), ok)
  {
    OwnedIsFirst(b, cfg, sig, p);
  }

  lemma PicksOwn(b: Book, symbol: string, magics: set<int>, p: Position)
    requires Numbered(b) && p in b.live && IsAddressed(p, symbol, magics, None)
    ensures var positions := OpenPositions(b.live, symbol, magics); positions != [] && Pick(positions, p.ticket) == p
  {
    AddressedIsOne(b, symbol, magics, p);
    OpenPositionsIff(b.live, symbol, magics);
    assert p in OpenPositions(b.live, symbol, magics);
  }

  /** The position with its volume reduced. */
  function Runner(p: Position, volume: real): Position { p.(volume := p.volume - volume) }

  lemma VolumeKeepsNumbers(b: Book, p: Position, volume: real)
    requires Numbered(b) && p in b.live
    ensures Numbered(Book(WithVolume(b.live, p.ticket, p.volume - volume), b.next + 1))
    ensures Runner(p, volume) in WithVolume(b.live, p.ticket, p.volume - volume)
  {
    var i :| 0 <= i < |b.live| && b.live[i] == p;
    assert WithVolume(b.live, p.ticket, p.volume - volume)[i] == Runner(p, volume);
  }

  lemma PartialLeavesRunner(b: Book, symbol: string, magics: set<int>, p: Position, volume: real, ok: int -> bool)
    requires Numbered(b) && p in b.live && IsAddressed(p, symbol, magics, None) && volume < p.volume && ok(b.next)
    ensures PartlyClosed(b, symbol, magics, p.ticket, volume, ok) ==
      (Book(WithVolume(b.live, p.ticket, p.volume - volume), b.next + 1), Result(true, b.next, Some(Ticket(p.ticket)), None))
  {
    PicksOwn(b, symbol, magics, p);
  }

  lemma PartialThenBreakeven(b: Book, cfg: Config, sig: Signal, plan: Plan, p: Position, ok: int -> bool)
    requires Owns(b, cfg, sig, p) && plan.tp1.Some? && plan.tp1.value < p.volume && plan.moveSl && ok(b.next) && ok(b.next + 1)
    ensures Tp1Handled(b, cfg, sig, plan, Some(Ticket(p.ticket)), ok) ==
      (Book(WithSl(WithVolume(b.live, p.ticket, p.volume - plan.tp1.value), p.ticket, p.priceOpen), b.next + 2),
       Result(true, b.next, Some(Ticket(p.ticket)), None))
  {
    var symbol, own := cfg.resolve(sig.symbol), Own(cfg, sig);
    OwnedIsFirst(b, cfg, sig, p);
    PartialLeavesRunner(b, symbol, own, p, plan.tp1.value, ok);
    VolumeKeepsNumbers(b, p, plan.tp1.value);
    PicksOwn(Book(WithVolume(b.live, p.ticket, p.volume - plan.tp1.value), b.next + 1), symbol, own, Runner(p, plan.tp1.value));
  }

  /** A successful TP1 is written to the tracked row, whichever position it took. */
  lemma Tp1Row(w: World, cfg: Config, cap: int, i: Input, ok: int -> bool, k: int, p: Position)
    requires Holding(w, cfg, i.sig, k, p) && i.sig.action.ExitTp1?
    requires var r := Tp1Handled(w.book, cfg, i.sig, i.plan, ExitTicket(cfg, i.sig, w.rows[k]), ok).1; r.success && r.failsafe.None?
    ensures var after := Processed(w, cfg, cap, i, ok);
      && |after.rows| == |w.rows| && after.rows[k].status == Tp1
      && after.book == Tp1Handled(w.book, cfg, i.sig, i.plan, ExitTicket(cfg, i.sig, w.rows[k]), ok).0
  {
    HoldingIsFound(w, cfg, i, k, p);
    TargetsIff(w.book, cfg, i.sig, w.rows[k]);
    assert p in Targets(w.book, cfg, i.sig, w.rows[k]);
    ProcessedExit(w, cfg, cap, i, ok);
    var r := Handled(w, cfg, i.sig, i.plan, i.now, ok).1;
    assert r.source == Some(w.rows[k].refSource);
    UpdateShrinks(Healed(w, cfg, i), w.book.next, w.rows[k].refSource, ExitChange(i.sig, r), i.now);
  }

  /** The stop moved onto the runner, nobody else touched. */
  lemma RunnerAtBreakeven(b: Book, p: Position, volume: real)
    requires Numbered(b) && p in b.live
    ensures var after := WithSl(WithVolume(b.live, p.ticket, p.volume - volume), p.ticket, p.priceOpen);
      Runner(p, volume).(sl := p.priceOpen) in after
  {
    var n :| 0 <= n < |b.live| && b.live[n] == p;
    assert WithSl(WithVolume(b.live, p.ticket, p.volume - volume), p.ticket, p.priceOpen)[n] == Runner(p, volume).(sl := p.priceOpen);
  }

  lemma OwnTp1AtBreakeven(b: Book, cfg: Config, sig: Signal, plan: Plan, p: Position, ok: int -> bool)
    requires Owns(b, cfg, sig, p) && plan.tp1.Some? && plan.tp1.value < p.volume && plan.moveSl && ok(b.next) && ok(b.next + 1)
    ensures Runner(p, plan.tp1.value).(sl := p.priceOpen) in Tp1Book(b, cfg, sig, plan, p, ok).live
    ensures SiblingsSame(b, Tp1Book(b, cfg, sig, plan, p, ok), p)
  {
    PartialThenBreakeven(b, cfg, sig, plan, p, ok);
    RunnerAtBreakeven(b, p, plan.tp1.value);
    Tp1NarrowBeforeFailsafeIff(b, cfg, sig, plan, p);
    assert NarrowBeforeFailsafe(b, cfg, sig, plan, p, ok);
  }

  lemma Tp1BookAtBreakeven(b: Book, cfg: Config, sig: Signal, plan: Plan, ticket: Option<Ref>, first: Position, ok: int -> bool)
    requires Owns(b, cfg, sig, first) && LiveOf(b, cfg, sig, ticket) != [] && LiveOf(b, cfg, sig, ticket)[0] == first
    requires plan.tp1.Some? && plan.tp1.value < first.volume && plan.moveSl && ok(b.next) && ok(b.next + 1)
    ensures var (after, r) := Tp1Handled(b, cfg, sig, plan, ticket, ok);
      && r == Result(true, b.next, Some(Ticket(first.ticket)), None) && after == Tp1Book(b, cfg, sig, plan, first, ok)
  {
    Tp1UsesFirst(b, cfg, sig, plan, ticket, first, ok);
    PartialThenBreakeven(b, cfg, sig, plan, first, ok);
  }

  lemma FirstTarget(w: World, cfg: Config, sig: Signal, k: int, p: Position, first: Position)
    requires Holding(w, cfg, sig, k, p)
    requires Targets(w.book, cfg, sig, w.rows[k]) != [] && first == Targets(w.book, cfg, sig, w.rows[k])[0]
    ensures Owns(w.book, cfg, sig, first) && (UxidScope(cfg, sig).Some? ==> first == p)
  {
    TargetsIff(w.book, cfg, sig, w.rows[k]);
    assert first in Targets(w.book, cfg, sig, w.rows[k]);
    if UxidScope(cfg, sig).Some? { SameTicketSamePosition(w.book, p, first); }
  }

  /**
   * In every mode: when its two orders are filled, TP1 takes the first position it lists, leaves the rest of it
   * with its stop at the entry price and every other position as it was, and the row at TP1. Under a uxid that
   * position is the row's own.
   */
  lemma Tp1LeavesRunnerAtBreakeven(w: World, cfg: Config, cap: int, i: Input, ok: int -> bool, k: int, p: Position, first: Position)
    requires Holding(w, cfg, i.sig, k, p) && i.sig.action.ExitTp1? && ok(w.book.next) && ok(w.book.next + 1)
    requires Targets(w.book, cfg, i.sig, w.rows[k]) != [] && first == Targets(w.book, cfg, i.sig, w.rows[k])[0]
    requires i.plan.tp1.Some? && i.plan.tp1.value < first.volume && i.plan.moveSl
    ensures var after := Processed(w, cfg, cap, i, ok);
      && |after.rows| == |w.rows| && after.rows[k].status == Tp1
      && Runner(first, i.plan.tp1.value).(sl := first.priceOpen) in after.book.live
      && SiblingsSame(w.book, after.book, first)
      && (UxidScope(cfg, i.sig).Some? ==> first == p)
  {
    FirstTarget(w, cfg, i.sig, k, p, first);
    Tp1BookAtBreakeven(w.book, cfg, i.sig, i.plan, ExitTicket(cfg, i.sig, w.rows[k]), first, ok);
    OwnTp1AtBreakeven(w.book, cfg, i.sig, i.plan, first, ok);
    Tp1Row(w, cfg, cap, i, ok, k, p);
  }

  // ----- the rows an unscoped lookup heals

  lemma {:induction false} DoomedAreClosed(rows: seq<Row>, next: int, doomed: seq<Row>, now: int, j: nat)
    requires Ledger(rows, next) && j < |rows| && exists k :: 0 <= k < |doomed| && doomed[k].refSource == rows[j].refSource
    ensures var after := ForceClosedRows(rows, doomed, now); |after| == |rows| && after[j].status == ForcedClosed
  {
    var n := |doomed| - 1;
    var mid := ForceClosedRows(rows, doomed[..n], now);
    ForceClosedShrinks(rows, next, doomed[..n], now);
    UpdateShrinks(mid, next, doomed[n].refSource, AsForceClosed(), now);
    if doomed[n].refSource != rows[j].refSource {
      var k :| 0 <= k < |doomed| && doomed[k].refSource == rows[j].refSource;
      assert doomed[..n][k] == doomed[k];
      DoomedAreClosed(rows, next, doomed[..n], now, j);
    }
  }

  /**
   * The lookup force-closes every further row of the key and touches no position. Under a full key there is
   * none; without a uxid these are the rows of sibling signals.
   */
  lemma LookupForceClosesSiblings(rows: seq<Row>, next: int, cfg: Config, sig: Signal, now: int, j: nat)
    requires Ledger(rows, next) && j < |rows| && rows[j] in OwnRows(rows, cfg, sig) && rows[j] != OwnRows(rows, cfg, sig)[0]
    ensures var healed := DbPosition(rows, cfg, sig, now).0; |healed| == |rows| && healed[j].status == ForcedClosed
    ensures UxidScope(cfg, sig).None?
  {
    var own := OwnRows(rows, cfg, sig);
    var k :| 0 <= k < |own| && own[k] == rows[j];
    assert own[1..][k - 1] == rows[j];
    DoomedAreClosed(rows, next, own[1..], now, j);
    if UxidScope(cfg, sig).Some? { OpenIsSingle(rows, sig.strategy, sig.symbol, UxidScope(cfg, sig).value); }
  }
}
