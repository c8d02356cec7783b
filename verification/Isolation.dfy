/** Which live positions a signal can reach: other strategies and sibling signals stay untouched. */
module Isolation {
  import opened Wrappers
  import opened CycleStatus
  import opened Repository
  import opened Broker
  import opened Guard
  import opened SignalHandler

  // ----- every path of the handler, for any choice of positions it does not address

  ghost predicate SparesOwn(b: Book, cfg: Config, sig: Signal, ticket: Option<Ref>, keep: Position -> bool) {
    Spares(b, cfg.resolve(sig.symbol), Own(cfg, sig), ticket, keep)
  }

  /** The position an entry would open is not a chosen one. */
  ghost predicate SparesNew(b: Book, cfg: Config, sig: Signal, keep: Position -> bool)
    requires sig.strategy in cfg.magics
  {
    forall p: Position :: p.ticket >= b.next && p.magic == cfg.magics[sig.strategy] ==> !keep(p)
  }

  lemma {:induction false} StaleClosedKeeps(b: Book, cfg: Config, sig: Signal, tickets: seq<Option<Ref>>, ok: int -> bool, keep: Position -> bool)
    requires Numbered(b) && ByIdentity(keep) && forall i :: 0 <= i < |tickets| ==> SparesOwn(b, cfg, sig, tickets[i], keep)
    ensures Keeps(b, StaleClosed(b, cfg, sig, tickets, ok).0, keep)
    decreases |tickets|
  {
    if tickets == [] {
      KeepsRefl(b, keep);
    } else {
      var symbol, own := cfg.resolve(sig.symbol), Own(cfg, sig);
      var (after, r) := ClosedAll(b, symbol, own, tickets[0], ok);
      ClosedAllKeeps(b, symbol, own, tickets[0], ok, keep);
      if r.success {
        forall i | 0 <= i < |tickets[1..]| ensures SparesOwn(after, cfg, sig, tickets[1..][i], keep) {
          SparesStays(b, after, symbol, own, tickets[i + 1], keep);
        }
        StaleClosedKeeps(after, cfg, sig, tickets[1..], ok, keep);
        KeepsTrans(b, after, StaleClosed(after, cfg, sig, tickets[1..], ok).0, keep);
      }
    }
  }

  /** Chosen positions alone: a new position may appear, but it is not one of them. */
  ghost predicate Undisturbed(b: Book, after: Book, keep: Position -> bool) {
    Numbered(after) && b.next <= after.next && Same(b.live, after.live, keep)
  }

  lemma EntryPlacedKeeps(b: Book, cfg: Config, sig: Signal, plan: Plan, ok: int -> bool, keep: Position -> bool)
    requires sig.strategy in cfg.magics && Numbered(b) && SparesNew(b, cfg, sig, keep)
    ensures var (after, r) := EntryPlaced(b, cfg, sig, plan, ok);
      Undisturbed(b, after, keep) && (r.success ==> b.next <= r.ticket < after.next)
  {
  }

  lemma EntryHandledKeeps(w: World, cfg: Config, sig: Signal, plan: Plan, now: int, ok: int -> bool, keep: Position -> bool)
    requires sig.strategy in cfg.magics && Numbered(w.book) && ByIdentity(keep) && SparesNew(w.book, cfg, sig, keep)
    requires var tickets := StaleTickets(cfg, sig, OwnRows(w.rows, cfg, sig));
      forall i :: 0 <= i < |tickets| ==> SparesOwn(w.book, cfg, sig, tickets[i], keep)
    ensures var (after, r) := EntryHandled(w, cfg, sig, plan, now, ok);
      Undisturbed(w.book, after.book, keep) && (r.success ==> w.book.next <= r.ticket < after.book.next)
  {
    var tickets := StaleTickets(cfg, sig, OwnRows(w.rows, cfg, sig));
    StaleClosedKeeps(w.book, cfg, sig, tickets, ok, keep);
    EntryPlacedKeeps(w.book, cfg, sig, plan, ok, keep);
    EntryPlacedKeeps(StaleClosed(w.book, cfg, sig, tickets, ok).0, cfg, sig, plan, ok, keep);
  }

  lemma Tp1HandledKeeps(b: Book, cfg: Config, sig: Signal, plan: Plan, ticket: Option<Ref>, ok: int -> bool, keep: Position -> bool)
    requires Numbered(b) && ByIdentity(keep) && SparesOwn(b, cfg, sig, None, keep)
    ensures var (after, r) := Tp1Handled(b, cfg, sig, plan, ticket, ok);
      Keeps(b, after, keep) && (r.success ==> b.next <= r.ticket < after.next && r.source.Some?)
  {
    KeepsRefl(b, keep);
    var positions, symbol, own := LiveOf(b, cfg, sig, ticket), cfg.resolve(sig.symbol), Own(cfg, sig);
    if positions != [] && plan.tp1.Some? {
      var p := positions[0];
      SparesPickIf(b, symbol, own, p.ticket, keep);
      PartlyClosedKeeps(b, symbol, own, p.ticket, plan.tp1.value, ok, keep);
      var reduced := PartlyClosed(b, symbol, own, p.ticket, plan.tp1.value, ok).0;
      BreakevenKeeps(b, reduced, cfg, sig, p, ok, keep);
    }
  }

  lemma BreakevenKeeps(b: Book, reduced: Book, cfg: Config, sig: Signal, p: Position, ok: int -> bool, keep: Position -> bool)
    requires Keeps(b, reduced, keep) && ByIdentity(keep) && SparesOwn(b, cfg, sig, None, keep)
    ensures var (moved, _) := SlMoved(reduced, cfg.resolve(sig.symbol), Own(cfg, sig), p.ticket, p.priceOpen, ok);
      var (after, _) := ClosedAll(moved, cfg.resolve(sig.symbol), Own(cfg, sig), None, ok);
      Keeps(b, moved, keep) && Keeps(b, after, keep) && reduced.next <= moved.next <= after.next
  {
    var symbol, own := cfg.resolve(sig.symbol), Own(cfg, sig);
    SparesStays(b, reduced, symbol, own, None, keep);
    SparesPickIf(reduced, symbol, own, p.ticket, keep);
    SlMovedKeeps(reduced, symbol, own, p.ticket, p.priceOpen, ok, keep);
    var moved := SlMoved(reduced, symbol, own, p.ticket, p.priceOpen, ok).0;
    KeepsTrans(b, reduced, moved, keep);
    SparesStays(b, moved, symbol, own, None, keep);
    ClosedAllKeeps(moved, symbol, own, None, ok, keep);
    KeepsTrans(b, moved, ClosedAll(moved, symbol, own, None, ok).0, keep);
  }

  lemma FlatClosedKeeps(b: Book, cfg: Config, sig: Signal, ticket: Option<Ref>, ok: int -> bool, keep: Position -> bool)
    requires Numbered(b) && ByIdentity(keep) && SparesOwn(b, cfg, sig, ticket, keep)
    requires cfg.multiStrategy || cfg.multiPositions || Spares(b, cfg.resolve(sig.symbol), cfg.magics.Values, None, keep)
    ensures var (after, r) := FlatClosed(b, cfg, sig, ticket, ok);
      Keeps(b, after, keep) && (r.success ==> b.next <= r.ticket < after.next && r.source.Some?)
  {
    var symbol := cfg.resolve(sig.symbol);
    ClosedAllKeeps(b, symbol, Own(cfg, sig), ticket, ok, keep);
    var book := ClosedAll(b, symbol, Own(cfg, sig), ticket, ok).0;
    if !cfg.multiStrategy && !cfg.multiPositions {
      SparesStays(b, book, symbol, cfg.magics.Values, None, keep);
      ClosedAllKeeps(book, symbol, cfg.magics.Values, None, ok, keep);
      KeepsTrans(b, book, ClosedAll(book, symbol, cfg.magics.Values, None, ok).0, keep);
    }
  }

  /** Any signal, when no position of its own strategy and symbol is chosen. */
  lemma HandledKeeps(w: World, cfg: Config, sig: Signal, plan: Plan, now: int, ok: int -> bool, keep: Position -> bool)
    requires sig.strategy in cfg.magics && Numbered(w.book) && ByIdentity(keep) && SparesNew(w.book, cfg, sig, keep)
    requires SparesOwn(w.book, cfg, sig, None, keep)
    requires cfg.multiStrategy || cfg.multiPositions || !sig.action.ExitFlat?
      || Spares(w.book, cfg.resolve(sig.symbol), cfg.magics.Values, None, keep)
    ensures var (after, r) := Handled(w, cfg, sig, plan, now, ok);
      Undisturbed(w.book, after.book, keep) && (r.success ==> w.book.next <= r.ticket < after.book.next)
      && (r.success && !IsEntry(sig.action) ==> r.source.Some?)
  {
    var b := w.book;
    forall ticket: Option<Ref> ensures SparesOwn(b, cfg, sig, ticket, keep) {
      forall p | p in b.live && IsAddressed(p, cfg.resolve(sig.symbol), Own(cfg, sig), ticket) ensures !keep(p) {
        assert IsAddressed(p, cfg.resolve(sig.symbol), Own(cfg, sig), None);
      }
    }
    KeepsRefl(b, keep);
    var found := DbPosition(w.rows, cfg, sig, now).1;
    var ticket := if found.Some? then ExitTicket(cfg, sig, found.value) else None;
    if IsEntry(sig.action) {
      EntryHandledKeeps(w, cfg, sig, plan, now, ok, keep);
    } else if sig.action.ExitFlat? {
      FlatClosedKeeps(b, cfg, sig, ticket, ok, keep);
    } else if sig.action.ExitTp1? {
      Tp1HandledKeeps(b, cfg, sig, plan, ticket, ok, keep);
    } else {
      ClosedAllKeeps(b, cfg.resolve(sig.symbol), Own(cfg, sig), ticket, ok, keep);
    }
  }

  // ----- strategies

  /** With either toggle on, no signal changes a live position under another magic, whatever fails. */
  lemma MagicIsolation(w: World, cfg: Config, sig: Signal, plan: Plan, now: int, ok: int -> bool)
    requires sig.strategy in cfg.magics && Numbered(w.book) && (cfg.multiStrategy || cfg.multiPositions)
    ensures var after := Handled(w, cfg, sig, plan, now, ok).0.book;
      forall p: Position :: p.magic != cfg.magics[sig.strategy] ==> (p in w.book.live <==> p in after.live)
  {
    var keep := (p: Position) => p.magic != cfg.magics[sig.strategy];
    HandledKeeps(w, cfg, sig, plan, now, ok, keep);
    assert forall p: Position :: p.magic != cfg.magics[sig.strategy] ==> keep(p);
  }

  /** Positions of this symbol that another strategy of the worker holds. */
  predicate Foreign(p: Position, cfg: Config, sig: Signal) {
    p.symbol == cfg.resolve(sig.symbol) && p.magic in cfg.magics.Values && p.magic !in Own(cfg, sig)
  }

  ghost predicate OtherMagicsSame(w: World, cfg: Config, sig: Signal, plan: Plan, now: int, ok: int -> bool)
    requires sig.strategy in cfg.magics
  {
    forall p: Position :: p.magic !in Own(cfg, sig) ==> (p in w.book.live <==> p in Handled(w, cfg, sig, plan, now, ok).0.book.live)
  }

  lemma DefaultFlatBook(w: World, cfg: Config, sig: Signal, plan: Plan, now: int, ok: int -> bool)
    requires sig.strategy in cfg.magics && !cfg.multiStrategy && !cfg.multiPositions && sig.action.ExitFlat?
    ensures Handled(w, cfg, sig, plan, now, ok).0.book == FlatClosed(w.book, cfg, sig, None, ok).0
  {
  }

  lemma NoForeignMeansSame(w: World, cfg: Config, sig: Signal, plan: Plan, now: int, ok: int -> bool)
    requires sig.strategy in cfg.magics && Numbered(w.book) && !cfg.multiStrategy && !cfg.multiPositions && sig.action.ExitFlat?
    requires forall p :: p in w.book.live ==> !Foreign(p, cfg, sig)
    ensures OtherMagicsSame(w, cfg, sig, plan, now, ok)
  {
    var keep := (p: Position) => p.magic !in Own(cfg, sig);
    FlatClosedKeeps(w.book, cfg, sig, None, ok, keep);
    DefaultFlatBook(w, cfg, sig, plan, now, ok);
    assert forall p: Position :: p.magic !in Own(cfg, sig) ==> keep(p);
  }

  lemma ForeignIsReached(w: World, cfg: Config, sig: Signal, plan: Plan, now: int, q: Position)
    requires sig.strategy in cfg.magics && !cfg.multiStrategy && !cfg.multiPositions && sig.action.ExitFlat?
    requires q in w.book.live && Foreign(q, cfg, sig)
    ensures exists ok: int -> bool :: !OtherMagicsSame(w, cfg, sig, plan, now, ok)
  {
    var ok: int -> bool := n => n >= w.book.next + |LiveOf(w.book, cfg, sig, None)|;
    RetryReachesForeign(w.book, cfg, sig, ok, q);
    DefaultFlatBook(w, cfg, sig, plan, now, ok);
    assert !OtherMagicsSame(w, cfg, sig, plan, now, ok);
  }

  /**
   * With both toggles off, a FLAT leaves other magics alone under every pattern of failures exactly when
   * no other strategy holds the symbol: its retry drops the strategy filter.
   */
  lemma DefaultFlatIsolatedIff(w: World, cfg: Config, sig: Signal, plan: Plan, now: int)
    requires sig.strategy in cfg.magics && Numbered(w.book) && !cfg.multiStrategy && !cfg.multiPositions && sig.action.ExitFlat?
    ensures (forall ok: int -> bool :: OtherMagicsSame(w, cfg, sig, plan, now, ok)) <==> forall p :: p in w.book.live ==> !Foreign(p, cfg, sig)
  {
    if q :| q in w.book.live && Foreign(q, cfg, sig) {
      ForeignIsReached(w, cfg, sig, plan, now, q);
    } else {
      forall ok: int -> bool ensures OtherMagicsSame(w, cfg, sig, plan, now, ok) {
        NoForeignMeansSame(w, cfg, sig, plan, now, ok);
      }
    }
  }

  lemma RetryReachesForeign(b: Book, cfg: Config, sig: Signal, ok: int -> bool, q: Position)
    requires !cfg.multiStrategy && !cfg.multiPositions && q in b.live && Foreign(q, cfg, sig)
    requires forall n :: ok(n) <==> n >= b.next + |LiveOf(b, cfg, sig, None)|
    ensures q !in FlatClosed(b, cfg, sig, None, ok).0.live
  {
    var symbol, own := cfg.resolve(sig.symbol), LiveOf(b, cfg, sig, None);
    ClosedEachSucceedsIff(b, own, ok);
    ClosedEachRemoves(b, own, ok, q);
    var (first, r) := ClosedAll(b, symbol, Own(cfg, sig), None, ok);
    assert !r.success && q in first.live && first.next == b.next + |own|;
    var all := OpenPositions(first.live, symbol, cfg.magics.Values);
    OpenPositionsIff(first.live, symbol, cfg.magics.Values);
    assert q in all;
    var k :| 0 <= k < |all| && all[k] == q;
    assert ok(first.next + k) && FilledFor(first, all, q.ticket, ok);
    ClosedEachRemoves(first, all, ok, q);
  }

  // ----- signals of one strategy, told apart by uxid

  predicate IsOwnTicket(own: seq<Row>, ticket: int) {
    exists i :: 0 <= i < |own| && own[i].refSource == Ticket(ticket)
  }

  /** An exit other than TP1 under a uxid closes at most the first tracked row's position. */
  lemma ScopedExitBook(w: World, cfg: Config, sig: Signal, plan: Plan, now: int, ok: int -> bool)
    requires sig.strategy in cfg.magics && UxidScope(cfg, sig).Some? && !IsEntry(sig.action) && !sig.action.ExitTp1?
    ensures var after, own := Handled(w, cfg, sig, plan, now, ok).0.book, OwnRows(w.rows, cfg, sig);
      || after == w.book
      || (own != [] && after == ClosedAll(w.book, cfg.resolve(sig.symbol), Own(cfg, sig), Some(own[0].refSource), ok).0)
  {
  }

  lemma OwnTicketsAreSpared(b: Book, cfg: Config, sig: Signal, own: seq<Row>, keep: Position -> bool)
    requires forall p: Position :: keep(p) <==> p.ticket < b.next && !IsOwnTicket(own, p.ticket)
    ensures ByIdentity(keep)
    ensures forall i :: 0 <= i < |own| ==> SparesOwn(b, cfg, sig, Some(own[i].refSource), keep)
  {
    forall i | 0 <= i < |own| ensures SparesOwn(b, cfg, sig, Some(own[i].refSource), keep) {
      forall p | p in b.live && Ticket(p.ticket) == own[i].refSource ensures IsOwnTicket(own, p.ticket) { }
    }
  }

  /**
   * With several positions per symbol and a uxid, an entry's cleanup, TP2, SL, R_SL and FLAT change no
   * live position but the one tracked for that uxid.
   */
  lemma TicketIsolation(w: World, cfg: Config, sig: Signal, plan: Plan, now: int, ok: int -> bool)
    requires sig.strategy in cfg.magics && Numbered(w.book) && UxidScope(cfg, sig).Some? && !sig.action.ExitTp1?
    ensures var after, own := Handled(w, cfg, sig, plan, now, ok).0.book, OwnRows(w.rows, cfg, sig);
      forall p: Position :: p.ticket < w.book.next && !IsOwnTicket(own, p.ticket) ==> (p in w.book.live <==> p in after.live)
  {
    var b, own := w.book, OwnRows(w.rows, cfg, sig);
    var keep := (p: Position) => p.ticket < b.next && !IsOwnTicket(own, p.ticket);
    OwnTicketsAreSpared(b, cfg, sig, own, keep);
    var after := Handled(w, cfg, sig, plan, now, ok).0.book;
    assert Same(b.live, after.live, keep) by {
      if IsEntry(sig.action) {
        EntryHandledKeeps(w, cfg, sig, plan, now, ok, keep);
      } else {
        ScopedExitBook(w, cfg, sig, plan, now, ok);
        if own != [] { ClosedAllKeeps(b, cfg.resolve(sig.symbol), Own(cfg, sig), Some(own[0].refSource), ok, keep); }
      }
    }
    forall p: Position | p.ticket < b.next && !IsOwnTicket(own, p.ticket) ensures p in b.live <==> p in after.live {
      assert keep(p);
    }
  }

  // ----- TP1, whose later steps are not narrowed to the ticket

  /** `p` is live and what a signal tracked under its ticket addresses. */
  ghost predicate Owns(b: Book, cfg: Config, sig: Signal, p: Position) {
    Numbered(b) && p in b.live && IsAddressed(p, cfg.resolve(sig.symbol), Own(cfg, sig), None)
  }

  lemma OwnedIsFirst(b: Book, cfg: Config, sig: Signal, p: Position)
    requires Owns(b, cfg, sig, p)
    ensures var positions := LiveOf(b, cfg, sig, Some(Ticket(p.ticket))); positions != [] && positions[0] == p
  {
    var positions := LiveOf(b, cfg, sig, Some(Ticket(p.ticket)));
    AddressedIff(b, cfg.resolve(sig.symbol), Own(cfg, sig), Some(Ticket(p.ticket)));
    assert p in positions;
    assert positions[0] in positions;
    SameTicketSamePosition(b, p, positions[0]);
  }

  lemma SameTicketSamePosition(b: Book, p: Position, q: Position)
    requires Numbered(b) && p in b.live && q in b.live && p.ticket == q.ticket
    ensures p == q
  {
    var i :| 0 <= i < |b.live| && b.live[i] == p;
    var j :| 0 <= j < |b.live| && b.live[j] == q;
  }

  function Tp1Book(b: Book, cfg: Config, sig: Signal, plan: Plan, p: Position, ok: int -> bool): Book {
    Tp1Handled(b, cfg, sig, plan, Some(Ticket(p.ticket)), ok).0
  }

  ghost predicate SiblingsSame(b: Book, after: Book, p: Position) {
    forall q: Position :: q.ticket != p.ticket ==> (q in b.live <==> q in after.live)
  }

  /** Another live position of the same strategy on the same symbol. */
  predicate Sibling(b: Book, cfg: Config, sig: Signal, p: Position, q: Position) {
    q in b.live && q.ticket != p.ticket && IsAddressed(q, cfg.resolve(sig.symbol), Own(cfg, sig), None)
  }

  lemma Tp1WithoutSiblings(b: Book, cfg: Config, sig: Signal, plan: Plan, p: Position, ok: int -> bool)
    requires Owns(b, cfg, sig, p) && forall q :: !Sibling(b, cfg, sig, p, q)
    ensures SiblingsSame(b, Tp1Book(b, cfg, sig, plan, p, ok), p)
  {
    var keep := (q: Position) => q.ticket != p.ticket;
    forall q | q in b.live && IsAddressed(q, cfg.resolve(sig.symbol), Own(cfg, sig), None) ensures !keep(q) {
      assert !Sibling(b, cfg, sig, p, q);
    }
    Tp1HandledKeeps(b, cfg, sig, plan, Some(Ticket(p.ticket)), ok, keep);
    assert forall q: Position :: q.ticket != p.ticket ==> keep(q);
  }

  /** The partial close itself reaches only the position it names. */
  lemma PartialIsNarrow(b: Book, cfg: Config, sig: Signal, p: Position, volume: real, ok: int -> bool, keep: Position -> bool)
    requires Owns(b, cfg, sig, p) && forall q: Position :: keep(q) <==> q.ticket != p.ticket
    ensures Keeps(b, PartlyClosed(b, cfg.resolve(sig.symbol), Own(cfg, sig), p.ticket, volume, ok).0, keep)
  {
    SparesPickIf(b, cfg.resolve(sig.symbol), Own(cfg, sig), p.ticket, keep);
    PartlyClosedKeeps(b, cfg.resolve(sig.symbol), Own(cfg, sig), p.ticket, volume, ok, keep);
  }

  lemma Tp1StopsEarly(b: Book, cfg: Config, sig: Signal, plan: Plan, p: Position, ok: int -> bool)
    requires Owns(b, cfg, sig, p) && (plan.tp1.None? || !plan.moveSl)
    ensures Tp1Book(b, cfg, sig, plan, p, ok) ==
      if plan.tp1.None? then b else PartlyClosed(b, cfg.resolve(sig.symbol), Own(cfg, sig), p.ticket, plan.tp1.value, ok).0
  {
    OwnedIsFirst(b, cfg, sig, p);
  }

  /** Nothing beyond the partial close is attempted. */
  lemma Tp1WithoutBreakeven(b: Book, cfg: Config, sig: Signal, plan: Plan, p: Position, ok: int -> bool)
    requires Owns(b, cfg, sig, p) && (plan.tp1.None? || !plan.moveSl)
    ensures SiblingsSame(b, Tp1Book(b, cfg, sig, plan, p, ok), p)
  {
    var keep := (q: Position) => q.ticket != p.ticket;
    Tp1StopsEarly(b, cfg, sig, plan, p, ok);
    if plan.tp1.Some? { PartialIsNarrow(b, cfg, sig, p, plan.tp1.value, ok, keep); }
    assert forall q: Position :: q.ticket != p.ticket ==> keep(q);
  }

  lemma PartialFills(b: Book, cfg: Config, sig: Signal, p: Position, volume: real, ok: int -> bool)
    requires Owns(b, cfg, sig, p) && ok(b.next)
    ensures var (reduced, r) := PartlyClosed(b, cfg.resolve(sig.symbol), Own(cfg, sig), p.ticket, volume, ok);
      r.success && reduced.next == b.next + 1
  {
    OpenPositionsIff(b.live, cfg.resolve(sig.symbol), Own(cfg, sig));
  }

  /** The partial close fills, the stop does not move, and the failsafe goes out for the whole strategy. */
  lemma Tp1Fails(b: Book, cfg: Config, sig: Signal, plan: Plan, p: Position, ok: int -> bool)
    requires Owns(b, cfg, sig, p) && plan.tp1.Some? && plan.moveSl && ok(b.next) && !ok(b.next + 1)
    ensures var symbol, own := cfg.resolve(sig.symbol), Own(cfg, sig);
      var reduced := PartlyClosed(b, symbol, own, p.ticket, plan.tp1.value, ok).0;
      OpenPositions(reduced.live, symbol, own) != [] ==>
        Tp1Book(b, cfg, sig, plan, p, ok) == ClosedAll(Book(reduced.live, b.next + 2), symbol, own, None, ok).0
  {
    OwnedIsFirst(b, cfg, sig, p);
    PartialFills(b, cfg, sig, p, plan.tp1.value, ok);
  }

  /** A failed breakeven move closes every sibling whose order fills. */
  lemma FailsafeReachesSibling(b: Book, cfg: Config, sig: Signal, plan: Plan, p: Position, q: Position, ok: int -> bool)
    requires Owns(b, cfg, sig, p) && Sibling(b, cfg, sig, p, q) && plan.tp1.Some? && plan.moveSl
    requires forall n :: ok(n) <==> n != b.next + 1
    ensures q !in Tp1Book(b, cfg, sig, plan, p, ok).live
  {
    var symbol, own := cfg.resolve(sig.symbol), Own(cfg, sig);
    var live := PartlyClosed(b, symbol, own, p.ticket, plan.tp1.value, ok).0.live;
    SiblingSurvivesPartial(b, cfg, sig, p, plan.tp1.value, ok, q);
    Tp1Fails(b, cfg, sig, plan, p, ok);
    ClosedAllReaches(Book(live, b.next + 2), symbol, own, ok, q);
  }

  lemma SiblingSurvivesPartial(b: Book, cfg: Config, sig: Signal, p: Position, volume: real, ok: int -> bool, q: Position)
    requires Owns(b, cfg, sig, p) && Sibling(b, cfg, sig, p, q)
    ensures q in PartlyClosed(b, cfg.resolve(sig.symbol), Own(cfg, sig), p.ticket, volume, ok).0.live
  {
    var keep := (r: Position) => r.ticket != p.ticket;
    PartialIsNarrow(b, cfg, sig, p, volume, ok, keep);
    assert keep(q);
  }

  lemma ClosedAllReaches(b: Book, symbol: string, magics: set<int>, ok: int -> bool, q: Position)
    requires q in b.live && IsAddressed(q, symbol, magics, None) && forall n :: n >= b.next ==> ok(n)
    ensures OpenPositions(b.live, symbol, magics) != [] && q !in ClosedAll(b, symbol, magics, None, ok).0.live
  {
    var all := OpenPositions(b.live, symbol, magics);
    OpenPositionsIff(b.live, symbol, magics);
    assert q in all;
    var k :| 0 <= k < |all| && all[k] == q;
    assert ok(b.next + k) && FilledFor(b, all, q.ticket, ok);
    ClosedEachRemoves(b, all, ok, q);
  }

  lemma SiblingIsReached(b: Book, cfg: Config, sig: Signal, plan: Plan, p: Position, q: Position)
    requires Owns(b, cfg, sig, p) && Sibling(b, cfg, sig, p, q) && plan.tp1.Some? && plan.moveSl
    ensures exists ok: int -> bool :: !SiblingsSame(b, Tp1Book(b, cfg, sig, plan, p, ok), p)
  {
    var ok: int -> bool := n => n != b.next + 1;
    FailsafeReachesSibling(b, cfg, sig, plan, p, q, ok);
    assert !SiblingsSame(b, Tp1Book(b, cfg, sig, plan, p, ok), p);
  }

  /**
   * A TP1 narrowed to one ticket leaves every other position alone under every pattern of failures exactly
   * when it stops before the breakeven move, or the strategy holds nothing else on the symbol.
   */
  lemma Tp1SparesSiblingsIff(b: Book, cfg: Config, sig: Signal, plan: Plan, p: Position)
    requires Owns(b, cfg, sig, p)
    ensures (forall ok: int -> bool :: SiblingsSame(b, Tp1Book(b, cfg, sig, plan, p, ok), p))
      <==> (plan.tp1.None? || !plan.moveSl || forall q :: !Sibling(b, cfg, sig, p, q))
  {
    if plan.tp1.None? || !plan.moveSl {
      forall ok: int -> bool ensures SiblingsSame(b, Tp1Book(b, cfg, sig, plan, p, ok), p) {
        Tp1WithoutBreakeven(b, cfg, sig, plan, p, ok);
      }
    } else if q :| Sibling(b, cfg, sig, p, q) {
      SiblingIsReached(b, cfg, sig, plan, p, q);
    } else {
      forall ok: int -> bool ensures SiblingsSame(b, Tp1Book(b, cfg, sig, plan, p, ok), p) {
        Tp1WithoutSiblings(b, cfg, sig, plan, p, ok);
      }
    }
  }

  lemma Tp1StopsBeforeFailsafe(b: Book, cfg: Config, sig: Signal, plan: Plan, p: Position, ok: int -> bool)
    requires Owns(b, cfg, sig, p) && plan.tp1.Some? && plan.moveSl
    requires Tp1Handled(b, cfg, sig, plan, Some(Ticket(p.ticket)), ok).1.failsafe.None?
    ensures var reduced := PartlyClosed(b, cfg.resolve(sig.symbol), Own(cfg, sig), p.ticket, plan.tp1.value, ok).0;
      var moved := SlMoved(reduced, cfg.resolve(sig.symbol), Own(cfg, sig), p.ticket, p.priceOpen, ok).0;
      Tp1Book(b, cfg, sig, plan, p, ok) == reduced || Tp1Book(b, cfg, sig, plan, p, ok) == moved
  {
    OwnedIsFirst(b, cfg, sig, p);
  }

  lemma BreakevenIsNarrow(b: Book, cfg: Config, sig: Signal, p: Position, volume: real, ok: int -> bool, keep: Position -> bool)
    requires Owns(b, cfg, sig, p) && volume < p.volume && forall q: Position :: keep(q) <==> q.ticket != p.ticket
    ensures var reduced := PartlyClosed(b, cfg.resolve(sig.symbol), Own(cfg, sig), p.ticket, volume, ok).0;
      Keeps(b, reduced, keep) && Keeps(b, SlMoved(reduced, cfg.resolve(sig.symbol), Own(cfg, sig), p.ticket, p.priceOpen, ok).0, keep)
  {
    var symbol, own := cfg.resolve(sig.symbol), Own(cfg, sig);
    PartialIsNarrow(b, cfg, sig, p, volume, ok, keep);
    RunnerIsPicked(b, cfg, sig, volume, p, ok, keep);
    var reduced := PartlyClosed(b, symbol, own, p.ticket, volume, ok).0;
    SlMovedKeeps(reduced, symbol, own, p.ticket, p.priceOpen, ok, keep);
    KeepsTrans(b, reduced, SlMoved(reduced, symbol, own, p.ticket, p.priceOpen, ok).0, keep);
  }

  /** Up to its failsafe, a TP1 that closes less than the whole position reaches only its own ticket. */
  lemma Tp1BeforeFailsafe(b: Book, cfg: Config, sig: Signal, plan: Plan, p: Position, ok: int -> bool)
    requires Owns(b, cfg, sig, p) && (plan.tp1.Some? ==> plan.tp1.value < p.volume)
    requires Tp1Handled(b, cfg, sig, plan, Some(Ticket(p.ticket)), ok).1.failsafe.None?
    ensures SiblingsSame(b, Tp1Book(b, cfg, sig, plan, p, ok), p)
  {
    if plan.tp1.None? || !plan.moveSl {
      Tp1WithoutBreakeven(b, cfg, sig, plan, p, ok);
    } else {
      var keep := (q: Position) => q.ticket != p.ticket;
      BreakevenIsNarrow(b, cfg, sig, p, plan.tp1.value, ok, keep);
      Tp1StopsBeforeFailsafe(b, cfg, sig, plan, p, ok);
      assert forall q: Position :: q.ticket != p.ticket ==> keep(q);
    }
  }

  lemma RunnerIsPicked(b: Book, cfg: Config, sig: Signal, volume: real, p: Position, ok: int -> bool, keep: Position -> bool)
    requires Owns(b, cfg, sig, p) && volume < p.volume && forall q: Position :: keep(q) <==> q.ticket != p.ticket
    ensures SparesPick(PartlyClosed(b, cfg.resolve(sig.symbol), Own(cfg, sig), p.ticket, volume, ok).0, cfg.resolve(sig.symbol), Own(cfg, sig), p.ticket, keep)
  {
    var symbol, own := cfg.resolve(sig.symbol), Own(cfg, sig);
    var positions := OpenPositions(b.live, symbol, own);
    OpenPositionsIff(b.live, symbol, own);
    PickIff(positions, p.ticket);
    SameTicketSamePosition(b, p, Pick(positions, p.ticket));
    var reduced := PartlyClosed(b, symbol, own, p.ticket, volume, ok).0;
    var i :| 0 <= i < |b.live| && b.live[i] == p;
    assert |reduced.live| == |b.live| && SameIdentity(reduced.live[i], p) && reduced.live[i] in reduced.live;
    SparesPickIf(reduced, symbol, own, p.ticket, keep);
  }

  /** What is left of the strategy's positions on the symbol once `p` is closed. */
  function Remaining(b: Book, cfg: Config, sig: Signal, p: Position): seq<Position> {
    OpenPositions(Without(b.live, p.ticket), cfg.resolve(sig.symbol), Own(cfg, sig))
  }

  /** The whole position is closed, and the breakeven move falls on the first sibling, whose stop it changes. */
  predicate MovesSiblingStop(b: Book, cfg: Config, sig: Signal, plan: Plan, p: Position) {
    && plan.tp1.Some? && plan.moveSl && plan.tp1.value >= p.volume
    && Remaining(b, cfg, sig, p) != [] && Remaining(b, cfg, sig, p)[0].sl != p.priceOpen
  }

  ghost predicate NarrowBeforeFailsafe(b: Book, cfg: Config, sig: Signal, plan: Plan, p: Position, ok: int -> bool) {
    Tp1Handled(b, cfg, sig, plan, Some(Ticket(p.ticket)), ok).1.failsafe.None? ==> SiblingsSame(b, Tp1Book(b, cfg, sig, plan, p, ok), p)
  }

  lemma WholePartial(b: Book, cfg: Config, sig: Signal, p: Position, volume: real, ok: int -> bool)
    requires Owns(b, cfg, sig, p) && volume >= p.volume
    ensures var (reduced, r) := PartlyClosed(b, cfg.resolve(sig.symbol), Own(cfg, sig), p.ticket, volume, ok);
      && r.success == ok(b.next)
      && reduced == Book(if ok(b.next) then Without(b.live, p.ticket) else b.live, b.next + 1)
  {
    var positions := OpenPositions(b.live, cfg.resolve(sig.symbol), Own(cfg, sig));
    OpenPositionsIff(b.live, cfg.resolve(sig.symbol), Own(cfg, sig));
    assert p in positions;
    PickIff(positions, p.ticket);
    SameTicketSamePosition(b, p, Pick(positions, p.ticket));
  }

  /** With the position gone, `_pick` falls back to the first of what remains. */
  lemma FallbackPick(b: Book, cfg: Config, sig: Signal, p: Position)
    requires Remaining(b, cfg, sig, p) != []
    ensures Pick(Remaining(b, cfg, sig, p), p.ticket) == Remaining(b, cfg, sig, p)[0]
    ensures forall q :: q in Remaining(b, cfg, sig, p) ==> q in b.live && q.ticket != p.ticket
  {
    OpenPositionsIff(Without(b.live, p.ticket), cfg.resolve(sig.symbol), Own(cfg, sig));
    WithoutIff(b.live, p.ticket);
    PickIff(Remaining(b, cfg, sig, p), p.ticket);
  }

  lemma SiblingStopMoves(b: Book, cfg: Config, sig: Signal, plan: Plan, p: Position, ok: int -> bool)
    requires Owns(b, cfg, sig, p) && MovesSiblingStop(b, cfg, sig, plan, p) && forall n :: ok(n)
    ensures !NarrowBeforeFailsafe(b, cfg, sig, plan, p, ok)
  {
    var symbol, own, q := cfg.resolve(sig.symbol), Own(cfg, sig), Remaining(b, cfg, sig, p)[0];
    OwnedIsFirst(b, cfg, sig, p);
    WholePartial(b, cfg, sig, p, plan.tp1.value, ok);
    FallbackPick(b, cfg, sig, p);
    assert q in Remaining(b, cfg, sig, p);
    var reduced := Book(Without(b.live, p.ticket), b.next + 1);
    var moved := Book(WithSl(reduced.live, q.ticket, p.priceOpen), b.next + 2);
    assert SlMoved(reduced, symbol, own, p.ticket, p.priceOpen, ok) == (moved, true);
    StopIsReplaced(reduced.live, q, p.priceOpen);
  }

  lemma StopIsReplaced(live: seq<Position>, q: Position, sl: real)
    requires q.sl != sl
    ensures q !in WithSl(live, q.ticket, sl)
  {
  }

  /** Setting the stop a position already has changes nothing. */
  lemma SameStopStays(b: Book, q: Position)
    requires Numbered(b) && q in b.live
    ensures WithSl(b.live, q.ticket, q.sl) == b.live
  {
    var i :| 0 <= i < |b.live| && b.live[i] == q;
  }

  lemma WholeCloseSpares(b: Book, cfg: Config, sig: Signal, plan: Plan, p: Position, ok: int -> bool)
    requires Owns(b, cfg, sig, p) && plan.tp1.Some? && plan.moveSl && plan.tp1.value >= p.volume
    requires !MovesSiblingStop(b, cfg, sig, plan, p)
    ensures NarrowBeforeFailsafe(b, cfg, sig, plan, p, ok)
  {
    if Tp1Handled(b, cfg, sig, plan, Some(Ticket(p.ticket)), ok).1.failsafe.None? {
      Tp1StopsBeforeFailsafe(b, cfg, sig, plan, p, ok);
      WholePartial(b, cfg, sig, p, plan.tp1.value, ok);
      WithoutIff(b.live, p.ticket);
      if ok(b.next) {
        FallbackStaysOrFails(b, cfg, sig, p, ok);
      } else {
        UnfilledPartialStops(b, cfg, sig, plan, p, ok);
      }
    }
  }

  /** Where the fallback's stop is at the entry price already, moving it changes nothing. */
  lemma FallbackStaysOrFails(b: Book, cfg: Config, sig: Signal, p: Position, ok: int -> bool)
    requires Numbered(b) && (Remaining(b, cfg, sig, p) != [] ==> Remaining(b, cfg, sig, p)[0].sl == p.priceOpen)
    ensures var reduced := Book(Without(b.live, p.ticket), b.next + 1);
      SlMoved(reduced, cfg.resolve(sig.symbol), Own(cfg, sig), p.ticket, p.priceOpen, ok).0.live == reduced.live
  {
    if Remaining(b, cfg, sig, p) != [] {
      var q := Remaining(b, cfg, sig, p)[0];
      FallbackPick(b, cfg, sig, p);
      OpenPositionsIff(Without(b.live, p.ticket), cfg.resolve(sig.symbol), Own(cfg, sig));
      assert q in Remaining(b, cfg, sig, p);
      SameStopIn(b, p.ticket, q);
    }
  }

  lemma UnfilledPartialStops(b: Book, cfg: Config, sig: Signal, plan: Plan, p: Position, ok: int -> bool)
    requires Owns(b, cfg, sig, p) && plan.tp1.Some? && !ok(b.next)
    ensures Tp1Book(b, cfg, sig, plan, p, ok).live == b.live
  {
    OwnedIsFirst(b, cfg, sig, p);
  }

  lemma SameStopIn(b: Book, ticket: int, q: Position)
    requires Numbered(b) && q in Without(b.live, ticket)
    ensures WithSl(Without(b.live, ticket), q.ticket, q.sl) == Without(b.live, ticket)
  {
    var live := Without(b.live, ticket);
    WithoutIff(b.live, ticket);
    WithoutKeepsDistinct(b.live, ticket);
    forall i | 0 <= i < |live| ensures live[i].ticket < b.next { assert live[i] in live; }
    SameStopStays(Book(live, b.next), q);
  }

  /**
   * Up to its failsafe TP1 reaches only its own ticket under every pattern of failures, exactly when it does
   * not close the whole position and then move the stop of a sibling.
   */
  lemma Tp1NarrowBeforeFailsafeIff(b: Book, cfg: Config, sig: Signal, plan: Plan, p: Position)
    requires Owns(b, cfg, sig, p)
    ensures (forall ok: int -> bool :: NarrowBeforeFailsafe(b, cfg, sig, plan, p, ok)) <==> !MovesSiblingStop(b, cfg, sig, plan, p)
  {
    if MovesSiblingStop(b, cfg, sig, plan, p) {
      var ok: int -> bool := _ => true;
      SiblingStopMoves(b, cfg, sig, plan, p, ok);
      assert !NarrowBeforeFailsafe(b, cfg, sig, plan, p, ok);
    } else {
      forall ok: int -> bool ensures NarrowBeforeFailsafe(b, cfg, sig, plan, p, ok) {
        if plan.tp1.None? || !plan.moveSl {
          Tp1WithoutBreakeven(b, cfg, sig, plan, p, ok);
        } else if plan.tp1.value >= p.volume {
          WholeCloseSpares(b, cfg, sig, plan, p, ok);
        } else if Tp1Handled(b, cfg, sig, plan, Some(Ticket(p.ticket)), ok).1.failsafe.None? {
          Tp1BeforeFailsafe(b, cfg, sig, plan, p, ok);
        }
      }
    }
  }
}
