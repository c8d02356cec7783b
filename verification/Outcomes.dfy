/**
 * What one signal leaves behind, stated outright: which positions are addressed, in which order their orders go
 * out, which rows change and to what. Nothing here refers to how the handler gets there.
 */
module Outcomes {
  import opened Wrappers
  import opened CycleStatus
  import opened Repository
  import opened Broker
  import opened Guard
  import opened SignalHandler
  import opened Processor
  import Isolation
  import Tp1Exits

  // ----- who is addressed

  /** Positions are told apart by uxid: the toggle is on and the signal carries one. */
  predicate ByUxid(cfg: Config, sig: Signal) { cfg.multiPositions && sig.uxid.Some? && sig.uxid.value != "" }

  /** An open row of the signal's own key. */
  predicate UnderKey(r: Row, cfg: Config, sig: Signal) {
    && (r.status == Opened || r.status == Tp1)
    && r.strategy == sig.strategy && r.symbol == sig.symbol
    && (ByUxid(cfg, sig) ==> r.uxid == sig.uxid)
  }

  /** Row `k` is the oldest of them. */
  ghost predicate Oldest(rows: seq<Row>, cfg: Config, sig: Signal, k: int) {
    0 <= k < |rows| && UnderKey(rows[k], cfg, sig) && forall j :: 0 <= j < k ==> !UnderKey(rows[j], cfg, sig)
  }

  predicate NoneUnderKey(rows: seq<Row>, cfg: Config, sig: Signal) {
    forall j :: 0 <= j < |rows| ==> !UnderKey(rows[j], cfg, sig)
  }

  /** The positions that satisfy `keep`, in the broker's order. */
  function Select(live: seq<Position>, keep: Position -> bool): seq<Position> {
    if live == [] then []
    else Select(live[..|live| - 1], keep) + (if keep(live[|live| - 1]) then [live[|live| - 1]] else [])
  }

  /** The strategy's positions on the symbol. */
  function OwnPositions(live: seq<Position>, cfg: Config, sig: Signal): seq<Position>
    requires sig.strategy in cfg.magics
  {
    var symbol, magic := cfg.resolve(sig.symbol), cfg.magics[sig.strategy];
    Select(live, (p: Position) => p.symbol == symbol && p.magic == magic)
  }

  /** Under a uxid only the position of the row. */
  function Addressed(live: seq<Position>, cfg: Config, sig: Signal, row: Row): seq<Position>
    requires sig.strategy in cfg.magics
  {
    var own := OwnPositions(live, cfg, sig);
    if ByUxid(cfg, sig) then Select(own, (p: Position) => row.refSource == Ticket(p.ticket)) else own
  }

  /** One of `n` orders from `next` on is filled. */
  ghost predicate SomeFilled(next: int, n: nat, ok: int -> bool) { exists k :: next <= k < next + n && ok(k) }

  /** The order for this position, the k-th of the targets, is filled. */
  ghost predicate OwnFilled(next: int, targets: seq<Position>, p: Position, ok: int -> bool) {
    exists k :: 0 <= k < |targets| && targets[k].ticket == p.ticket && ok(next + k)
  }

  /** Each target is gone exactly when its own order was filled; every other position is as it was. */
  ghost predicate TargetsClosed(before: seq<Position>, after: seq<Position>, next: int, targets: seq<Position>, ok: int -> bool) {
    forall p :: p in after <==> p in before && !OwnFilled(next, targets, p, ok)
  }

  // ----- the handler's lookups are those

  lemma {:induction false} OpenIsSelect(live: seq<Position>, symbol: string, magic: int, keep: Position -> bool)
    requires forall p: Position :: keep(p) <==> p.symbol == symbol && p.magic == magic
    ensures OpenPositions(live, symbol, {magic}) == Select(live, keep)
  {
    if live != [] { OpenIsSelect(live[..|live| - 1], symbol, magic, keep); }
  }

  lemma {:induction false} FilterIsSelect(live: seq<Position>, ref: Ref, keep: Position -> bool)
    requires forall p: Position :: keep(p) <==> ref == Ticket(p.ticket)
    ensures FilterByTicket(live, Some(ref)) == Select(live, keep)
  {
    if live != [] { FilterIsSelect(live[..|live| - 1], ref, keep); }
  }

  lemma LiveOfIs(b: Book, cfg: Config, sig: Signal, row: Row)
    requires sig.strategy in cfg.magics
    ensures Own(cfg, sig) == {cfg.magics[sig.strategy]}
    ensures OpenPositions(b.live, cfg.resolve(sig.symbol), Own(cfg, sig)) == OwnPositions(b.live, cfg, sig)
    ensures FilterByTicket(OpenPositions(b.live, cfg.resolve(sig.symbol), Own(cfg, sig)), if ByUxid(cfg, sig) then Some(row.refSource) else None)
      == Addressed(b.live, cfg, sig, row)
  {
    var symbol, magic := cfg.resolve(sig.symbol), cfg.magics[sig.strategy];
    OpenIsSelect(b.live, symbol, magic, (p: Position) => p.symbol == symbol && p.magic == magic);
    FilterIsSelect(OwnPositions(b.live, cfg, sig), row.refSource, (p: Position) => row.refSource == Ticket(p.ticket));
  }

  lemma ScopeIs(cfg: Config, sig: Signal)
    ensures UxidScope(cfg, sig) == if ByUxid(cfg, sig) then sig.uxid else None
  {
  }

  lemma OwnMatches(r: Row, cfg: Config, sig: Signal)
    ensures Matches(Tracked(sig.strategy, sig.symbol, UxidScope(cfg, sig)), r) <==> UnderKey(r, cfg, sig)
  {
  }

  lemma {:induction false} FirstOpenIsOldest(rows: seq<Row>, cfg: Config, sig: Signal, k: int)
    requires Oldest(rows, cfg, sig, k)
    ensures OwnRows(rows, cfg, sig) != [] && OwnRows(rows, cfg, sig)[0] == rows[k]
  {
    var n := |rows| - 1;
    OwnMatches(rows[n], cfg, sig);
    if k == n {
      forall j | 0 <= j < n ensures !Matches(Tracked(sig.strategy, sig.symbol, UxidScope(cfg, sig)), rows[..n][j]) {
        OwnMatches(rows[j], cfg, sig);
      }
      NothingOpenIff(rows[..n], Tracked(sig.strategy, sig.symbol, UxidScope(cfg, sig)));
    } else {
      FirstOpenIsOldest(rows[..n], cfg, sig, k);
    }
  }

  lemma NoneOpen(rows: seq<Row>, cfg: Config, sig: Signal)
    ensures OwnRows(rows, cfg, sig) == [] <==> NoneUnderKey(rows, cfg, sig)
  {
    NothingOpenIff(rows, Tracked(sig.strategy, sig.symbol, UxidScope(cfg, sig)));
    forall j | 0 <= j < |rows| ensures Matches(Tracked(sig.strategy, sig.symbol, UxidScope(cfg, sig)), rows[j]) <==> UnderKey(rows[j], cfg, sig) {
      OwnMatches(rows[j], cfg, sig);
    }
  }

  /** A close of the targets, in order. */
  lemma CloseIs(b: Book, symbol: string, magics: set<int>, ticket: Option<Ref>, ok: int -> bool)
    ensures var targets := FilterByTicket(OpenPositions(b.live, symbol, magics), ticket);
      var (after, r) := ClosedAll(b, symbol, magics, ticket, ok);
      && TargetsClosed(b.live, after.live, b.next, targets, ok)
      && after.next == b.next + |targets| && r.failsafe.None?
      && (r.success <==> SomeFilled(b.next, |targets|, ok))
  {
    var targets := FilterByTicket(OpenPositions(b.live, symbol, magics), ticket);
    ClosedEachSucceedsIff(b, targets, ok);
    forall q ensures q in ClosedEach(b, targets, ok).0.live <==> q in b.live && !OwnFilled(b.next, targets, q, ok) {
      ClosedEachRemoves(b, targets, ok, q);
    }
  }

  // ----- entries

  /** The entry's order goes out: nothing of its own was live, or a close of it was filled. */
  ghost predicate Cleared(next: int, targets: seq<Position>, ok: int -> bool) {
    targets == [] || SomeFilled(next, |targets|, ok)
  }

  /** The positions an admitted entry clears: its strategy's on the symbol, and none when told apart by uxid. */
  function Stale(live: seq<Position>, cfg: Config, sig: Signal): seq<Position>
    requires sig.strategy in cfg.magics
  {
    if ByUxid(cfg, sig) then [] else OwnPositions(live, cfg, sig)
  }

  lemma CleanupIs(b: Book, cfg: Config, sig: Signal, ok: int -> bool)
    requires sig.strategy in cfg.magics
    ensures var tickets := StaleTickets(cfg, sig, []);
      var (cleaned, clear) := if StaleLive(b, cfg, sig, tickets) == [] then (b, true) else StaleClosed(b, cfg, sig, tickets, ok);
      && TargetsClosed(b.live, cleaned.live, b.next, Stale(b.live, cfg, sig), ok)
      && cleaned.next == b.next + |Stale(b.live, cfg, sig)|
      && (clear <==> Cleared(b.next, Stale(b.live, cfg, sig), ok))
  {
    var tickets, targets := StaleTickets(cfg, sig, []), Stale(b.live, cfg, sig);
    ScopeIs(cfg, sig);
    if ByUxid(cfg, sig) {
      assert tickets == [];
    } else {
      LiveOfIs(b, cfg, sig, Row(Tag(""), Tag(""), "", "", None, 0.0, None, Opened, None, Pending, None, 0));
      assert tickets == [None] && tickets[..0] == [] && tickets[1..] == [];
      assert StaleLive(b, cfg, sig, tickets) == StaleLive(b, cfg, sig, []) + LiveOf(b, cfg, sig, None);
      assert StaleLive(b, cfg, sig, tickets) == targets;
      CloseIs(b, cfg.resolve(sig.symbol), Own(cfg, sig), None, ok);
    }
  }

  /**
   * An entry the guards admit. Its order is numbered after the orders that clear what the strategy holds on the
   * symbol, and goes out when there was nothing to clear or one of those was filled. Its row and its position
   * appear together, exactly when it goes out and is filled; a cleared position is gone exactly when its own
   * order was filled; nothing else changes.
   */
  lemma EntryOutcome(w: World, cfg: Config, cap: int, i: Input, ok: int -> bool)
    requires WellFormed(w) && i.sig.strategy in cfg.magics && IsEntry(i.sig.action) && !Refused(w, cfg, cap, i)
    ensures
      var sig, after := i.sig, Processed(w, cfg, cap, i, ok);
      var targets := Stale(w.book.live, cfg, sig);
      var n := w.book.next + |targets|;
      var sent := i.plan.entry.Some? && Cleared(w.book.next, targets, ok);
      if sent && ok(n) then
        var (volume, price, sl) := i.plan.entry.value;
        && after.rows == w.rows + [Row(
             Ticket(n), Ticket(n), sig.strategy, sig.symbol, sig.uxid, volume, None, Opened, Some(sig.message), Pending, None, i.now)]
        && after.book.next == n + 1
        && |after.book.live| > 0
        && after.book.live[|after.book.live| - 1] == Position(n, cfg.magics[sig.strategy], cfg.resolve(sig.symbol), volume, price, sl)
        && TargetsClosed(w.book.live, after.book.live[..|after.book.live| - 1], w.book.next, targets, ok)
      else
        && after.rows == w.rows && after.book.next == n + (if sent then 1 else 0)
        && TargetsClosed(w.book.live, after.book.live, w.book.next, targets, ok)
  {
    AdmittedOwnsNothing(w.rows, i.sig, cfg);
    AdmittedInsertSucceeds(w, cfg, cap, i, ok);
    CleanupIs(w.book, cfg, i.sig, ok);
  }

  // ----- which entries are admitted

  /** An open row that keeps the entry out: another strategy's unless strategies may share a symbol, its own
      strategy's unless a uxid tells the two apart. A signal without a symbol is weighed against every open row. */
  predicate KeepsOut(r: Row, cfg: Config, sig: Signal) {
    && (r.status == Opened || r.status == Tp1) && (r.symbol == sig.symbol || sig.symbol == "")
    && (r.strategy != sig.strategy ==> !cfg.multiStrategy)
    && (r.strategy == sig.strategy ==> !ByUxid(cfg, sig) || r.uxid == sig.uxid)
  }

  ghost function OpenRows(rows: seq<Row>): set<int> {
    set k | 0 <= k < |rows| && (rows[k].status == Opened || rows[k].status == Tp1)
  }

  lemma OpenRowsGrow(rows: seq<Row>)
    requires rows != []
    ensures var n := |rows| - 1; OpenRows(rows) == OpenRows(rows[..n]) + (if Active(rows[n]) then {n} else {}) && n !in OpenRows(rows[..n])
  {
  }

  lemma {:induction false} OpenCountIs(rows: seq<Row>)
    ensures OpenCount(rows) == |OpenRows(rows)|
  {
    if rows == [] {
      assert OpenRows(rows) == {};
    } else {
      OpenCountIs(rows[..|rows| - 1]);
      OpenRowsGrow(rows);
    }
  }

  /** The cap guard on its own: it rejects when the cap is reached, except for an entry whose own position is open,
      which under multiple positions is the one of its uxid. */
  lemma CapRejectsIff(rows: seq<Row>, cap: int, cfg: Config, sig: Signal)
    ensures MaxOrdersReached(rows, cap, sig, cfg) <==>
      && cap > 0 && |OpenRows(rows)| >= cap
      && forall k :: k in OpenRows(rows) && rows[k].strategy == sig.strategy && rows[k].symbol == sig.symbol ==>
        cfg.multiPositions && rows[k].uxid != sig.uxid
  {
    OpenCountIs(rows);
    if AlreadyHeld(rows, sig, cfg) {
      var k :| 0 <= k < |rows| && Active(rows[k]) && rows[k].strategy == sig.strategy && rows[k].symbol == sig.symbol
        && (cfg.multiPositions ==> rows[k].uxid == sig.uxid);
      assert k in OpenRows(rows);
    }
  }

  /** An entry is refused exactly when an open row keeps it out, a positive cap is reached, or it is stale; then
      its one trace is a REJECTED row. */
  lemma RefusalIff(w: World, cfg: Config, cap: int, i: Input, ok: int -> bool)
    requires WellFormed(w) && i.sig.strategy in cfg.magics && IsEntry(i.sig.action)
    ensures Refused(w, cfg, cap, i) <==>
      (exists k :: 0 <= k < |w.rows| && KeepsOut(w.rows[k], cfg, i.sig)) || (cap > 0 && |OpenRows(w.rows)| >= cap) || i.stale
    ensures Refused(w, cfg, cap, i) ==>
      var ref := Tag(if i.sig.id.Some? then i.sig.id.value else i.sig.tag);
      Processed(w, cfg, cap, i, ok) == w.(rows := w.rows + [Row(
        ref, ref, i.sig.strategy, i.sig.symbol, i.sig.uxid, 0.0, None, Rejected, Some(i.sig.message), Pending, None, i.now)])
  {
    OpenCountIs(w.rows);
    Processor.RefusedKeeps(w, cfg, cap, i);
    forall k | 0 <= k < |w.rows| ensures KeepsOut(w.rows[k], cfg, i.sig) <==>
      Matches(OnSymbol(i.sig.symbol), w.rows[k]) && Blocks(w.rows[k], i.sig, cfg) { }
    if AlreadyHeld(w.rows, i.sig, cfg) { HeldMeansBlocked(w.rows, i.sig, cfg); }
  }

  // ----- the rows an exit leaves

  function AsClosed(r: Row, status: Status, now: int): Row { r.(status := status, sync := Pending, updatedAt := now) }

  lemma {:induction false} ForceClosedIs(rows: seq<Row>, next: int, doomed: seq<Row>, now: int)
    requires Ledger(rows, next)
    ensures var after := ForceClosedRows(rows, doomed, now);
      |after| == |rows| && forall j :: 0 <= j < |rows| ==>
        after[j] == if exists d :: 0 <= d < |doomed| && doomed[d].refSource == rows[j].refSource
                    then AsClosed(rows[j], ForcedClosed, now) else rows[j]
  {
    if doomed != [] {
      var n := |doomed| - 1;
      var mid := ForceClosedRows(rows, doomed[..n], now);
      ForceClosedIs(rows, next, doomed[..n], now);
      ForceClosedShrinks(rows, next, doomed[..n], now);
      UpdateShrinks(mid, next, doomed[n].refSource, AsForceClosed(), now);
      assert forall d :: 0 <= d < n ==> doomed[..n][d] == doomed[d];
    }
  }

  /** Every further open row of the key is force-closed. */
  function Healed(rows: seq<Row>, cfg: Config, sig: Signal, k: int, now: int): seq<Row> {
    seq(|rows|, j requires 0 <= j < |rows| => if j != k && UnderKey(rows[j], cfg, sig) then AsClosed(rows[j], ForcedClosed, now) else rows[j])
  }

  lemma HealedIs(rows: seq<Row>, next: int, cfg: Config, sig: Signal, k: int, now: int)
    requires Ledger(rows, next) && Oldest(rows, cfg, sig, k)
    ensures DbPosition(rows, cfg, sig, now) == (Healed(rows, cfg, sig, k, now), Some(rows[k]))
    ensures Ledger(Healed(rows, cfg, sig, k, now), next)
  {
    var own := OwnRows(rows, cfg, sig);
    FirstOpenIsOldest(rows, cfg, sig, k);
    ForceClosedIs(rows, next, own[1..], now);
    ForceClosedShrinks(rows, next, own[1..], now);
    forall j | 0 <= j < |rows| ensures (exists d :: 0 <= d < |own[1..]| && own[1..][d].refSource == rows[j].refSource)
      <==> j != k && UnderKey(rows[j], cfg, sig)
    {
      FurtherRowIff(rows, next, cfg, sig, k, j);
    }
    assert ForceClosedRows(rows, own[1..], now) == Healed(rows, cfg, sig, k, now);
  }

  lemma FurtherRowIff(rows: seq<Row>, next: int, cfg: Config, sig: Signal, k: int, j: int)
    requires Ledger(rows, next) && Oldest(rows, cfg, sig, k) && 0 <= j < |rows|
    ensures var own := OwnRows(rows, cfg, sig);
      own != [] && ((exists d :: 0 <= d < |own[1..]| && own[1..][d].refSource == rows[j].refSource) <==> j != k && UnderKey(rows[j], cfg, sig))
  {
    var q, own := Tracked(sig.strategy, sig.symbol, UxidScope(cfg, sig)), OwnRows(rows, cfg, sig);
    FirstOpenIsOldest(rows, cfg, sig, k);
    OpenIff(rows, q);
    OpenRefsDistinct(rows, next, q);
    OwnMatches(rows[j], cfg, sig);
    if j != k && UnderKey(rows[j], cfg, sig) {
      assert rows[j] in own;
      var d :| 0 <= d < |own| && own[d] == rows[j];
      assert own[1..][d - 1] == own[d];
    }
    if d :| 0 <= d < |own[1..]| && own[1..][d].refSource == rows[j].refSource {
      assert own[d + 1] in own;
      var m :| 0 <= m < |rows| && rows[m] == own[d + 1];
      OwnMatches(rows[m], cfg, sig);
      assert m == j;
    }
  }

  lemma {:induction false} UnfilledChangesNothing(b: Book, positions: seq<Position>, ok: int -> bool)
    requires !SomeFilled(b.next, |positions|, ok)
    ensures ClosedEach(b, positions, ok).0.live == b.live
  {
    if positions != [] {
      var n := |positions| - 1;
      UnfilledChangesNothing(b, positions[..n], ok);
      ClosedEachSucceedsIff(b, positions[..n], ok);
    }
  }

  /** The number of the last of `n` orders that was filled. */
  ghost predicate LastFilled(next: int, n: nat, ok: int -> bool, last: int) {
    next <= last < next + n && ok(last) && forall m :: last < m < next + n ==> !ok(m)
  }

  lemma {:induction false} TicketIsLastFilled(b: Book, positions: seq<Position>, ok: int -> bool)
    ensures var filled := ClosedEach(b, positions, ok).1; filled.Some? ==> LastFilled(b.next, |positions|, ok, filled.value)
  {
    if positions != [] {
      var n := |positions| - 1;
      TicketIsLastFilled(b, positions[..n], ok);
      ClosedEachSucceedsIff(b, positions[..n], ok);
    }
  }

  /** The row's final status, the last filled order and the signal are written to it. */
  function AsExited(r: Row, status: Status, order: int, message: string, now: int): Row {
    AsClosed(r, status, now).(refId := Ticket(order), message := Some(message))
  }

  lemma RewrittenIs(rows: seq<Row>, next: int, k: int, c: Change, now: int)
    requires Ledger(rows, next) && 0 <= k < |rows| && rows[k].refSource.Ticket? && Active(rows[k])
    ensures Applied(rows, rows[k].refSource, c, now) == rows[k := Changed(rows[k], c, now)]
  {
    UpdateShrinks(rows, next, rows[k].refSource, c, now);
    assert forall j :: 0 <= j < |rows| && rows[j].refSource == rows[k].refSource ==> j == k;
  }

  predicate ClosesAll(a: Action) { a == ExitTp2 || a == ExitSl || a == ExitRSl }

  /** What an exit of row `k` leaves. */
  ghost predicate ExitLeaves(w: World, after: World, cfg: Config, i: Input, ok: int -> bool, k: int)
    requires i.sig.strategy in cfg.magics && 0 <= k < |w.rows|
  {
    var healed := Healed(w.rows, cfg, i.sig, k, i.now);
    var targets := Addressed(w.book.live, cfg, i.sig, w.rows[k]);
    var status := if i.sig.action == ExitTp2 then Tp2 else if i.sig.action == ExitSl then Sl else RSl;
    && TargetsClosed(w.book.live, after.book.live, w.book.next, targets, ok)
    && after.book.next == w.book.next + |targets|
    && (!SomeFilled(w.book.next, |targets|, ok) ==> after.rows == healed)
    && (SomeFilled(w.book.next, |targets|, ok) ==>
          exists n :: LastFilled(w.book.next, |targets|, ok, n) && after.rows == healed[k := AsExited(w.rows[k], status, n, i.sig.message, i.now)])
  }

  /**
   * TP2, SL and R_SL. Without an open row of the key nothing happens. Otherwise the oldest one is exited: its
   * position under a uxid, else everything the strategy holds on the symbol. The row gets the action's own status
   * exactly when some order was filled, a position is gone exactly when its own was, and further rows of the key
   * are force-closed either way.
   */
  lemma ExitOutcome(w: World, cfg: Config, cap: int, i: Input, ok: int -> bool)
    requires WellFormed(w) && i.sig.strategy in cfg.magics && ClosesAll(i.sig.action)
    ensures NoneUnderKey(w.rows, cfg, i.sig) ==> Processed(w, cfg, cap, i, ok) == w
    ensures forall k :: Oldest(w.rows, cfg, i.sig, k) ==> ExitLeaves(w, Processed(w, cfg, cap, i, ok), cfg, i, ok, k)
  {
    NoneOpen(w.rows, cfg, i.sig);
    forall k | Oldest(w.rows, cfg, i.sig, k)
      ensures ExitLeaves(w, Processed(w, cfg, cap, i, ok), cfg, i, ok, k)
    {
      OldestIsExited(w, cfg, cap, i, ok, k);
    }
  }

  /** What a handled exit of the oldest row writes to it. */
  lemma ExitPersists(w: World, cfg: Config, cap: int, i: Input, ok: int -> bool, k: int, book: Book, r: Result)
    requires WellFormed(w) && i.sig.strategy in cfg.magics && !IsEntry(i.sig.action) && Oldest(w.rows, cfg, i.sig, k)
    requires Handled(w, cfg, i.sig, i.plan, i.now, ok) == (World(Healed(w.rows, cfg, i.sig, k, i.now), book), r)
    requires r.success ==> r.source == Some(w.rows[k].refSource)
    ensures var healed := Healed(w.rows, cfg, i.sig, k, i.now);
      Processed(w, cfg, cap, i, ok) == World(
        if r.success then healed[k := AsExited(w.rows[k], PersistedStatus(i.sig, r), r.ticket, i.sig.message, i.now)] else healed, book)
  {
    HealedIs(w.rows, w.book.next, cfg, i.sig, k, i.now);
    if r.success { RewrittenIs(Healed(w.rows, cfg, i.sig, k, i.now), w.book.next, k, ExitChange(i.sig, r), i.now); }
  }

  lemma ExitHandles(w: World, cfg: Config, i: Input, ok: int -> bool, k: int)
    requires WellFormed(w) && i.sig.strategy in cfg.magics && ClosesAll(i.sig.action) && Oldest(w.rows, cfg, i.sig, k)
    ensures var targets := Addressed(w.book.live, cfg, i.sig, w.rows[k]);
      var (after, r) := Handled(w, cfg, i.sig, i.plan, i.now, ok);
      && after.rows == Healed(w.rows, cfg, i.sig, k, i.now) && r.failsafe.None?
      && TargetsClosed(w.book.live, after.book.live, w.book.next, targets, ok) && after.book.next == w.book.next + |targets|
      && (r.success <==> SomeFilled(w.book.next, |targets|, ok))
      && (r.success ==> r.source == Some(w.rows[k].refSource) && LastFilled(w.book.next, |targets|, ok, r.ticket))
  {
    var symbol, own := cfg.resolve(i.sig.symbol), Own(cfg, i.sig);
    HealedIs(w.rows, w.book.next, cfg, i.sig, k, i.now);
    LiveOfIs(w.book, cfg, i.sig, w.rows[k]);
    ScopeIs(cfg, i.sig);
    CloseIs(w.book, symbol, own, ExitTicket(cfg, i.sig, w.rows[k]), ok);
    TicketIsLastFilled(w.book, Addressed(w.book.live, cfg, i.sig, w.rows[k]), ok);
  }

  lemma OldestIsExited(w: World, cfg: Config, cap: int, i: Input, ok: int -> bool, k: int)
    requires WellFormed(w) && i.sig.strategy in cfg.magics && ClosesAll(i.sig.action) && Oldest(w.rows, cfg, i.sig, k)
    ensures ExitLeaves(w, Processed(w, cfg, cap, i, ok), cfg, i, ok, k)
  {
    var (after, r) := Handled(w, cfg, i.sig, i.plan, i.now, ok);
    ExitHandles(w, cfg, i, ok, k);
    ExitPersists(w, cfg, cap, i, ok, k, after.book, r);
  }

  // ----- FLAT

  /** With both toggles off, a close that filled nothing is tried again over every magic the worker owns. */
  predicate Retries(cfg: Config) { !cfg.multiStrategy && !cfg.multiPositions }

  function EveryOwned(live: seq<Position>, cfg: Config, sig: Signal): seq<Position> {
    var symbol := cfg.resolve(sig.symbol);
    Select(live, (p: Position) => p.symbol == symbol && p.magic in cfg.magics.Values)
  }

  lemma {:induction false} OpenIsSelectAny(live: seq<Position>, symbol: string, magics: set<int>, keep: Position -> bool)
    requires forall p: Position :: keep(p) <==> p.symbol == symbol && p.magic in magics
    ensures OpenPositions(live, symbol, magics) == Select(live, keep)
  {
    if live != [] { OpenIsSelectAny(live[..|live| - 1], symbol, magics, keep); }
  }

  /** The close a FLAT of `targets` amounts to: which orders, from which number on. */
  ghost predicate FlatCloses(b: Book, after: Book, cfg: Config, sig: Signal, targets: seq<Position>, ok: int -> bool) {
    var next := b.next + |targets|;
    if SomeFilled(b.next, |targets|, ok) || !Retries(cfg) then
      TargetsClosed(b.live, after.live, b.next, targets, ok) && after.next == next
    else
      var all := EveryOwned(b.live, cfg, sig);
      TargetsClosed(b.live, after.live, next, all, ok) && after.next == next + |all|
  }

  /** The order a FLAT reports: the last one filled of the pass that filled any. */
  ghost predicate FlatFilled(b: Book, cfg: Config, sig: Signal, targets: seq<Position>, ok: int -> bool, order: int) {
    || LastFilled(b.next, |targets|, ok, order)
    || (!SomeFilled(b.next, |targets|, ok) && Retries(cfg) && LastFilled(b.next + |targets|, |EveryOwned(b.live, cfg, sig)|, ok, order))
  }

  lemma ClosedBy(b: Book, symbol: string, magics: set<int>, ticket: Option<Ref>, ok: int -> bool)
    ensures var targets := FilterByTicket(OpenPositions(b.live, symbol, magics), ticket);
      var (after, r) := ClosedAll(b, symbol, magics, ticket, ok);
      && (r.success ==> LastFilled(b.next, |targets|, ok, r.ticket))
      && (!r.success ==> after.live == b.live)
  {
    var targets := FilterByTicket(OpenPositions(b.live, symbol, magics), ticket);
    TicketIsLastFilled(b, targets, ok);
    CloseIs(b, symbol, magics, ticket, ok);
    if !SomeFilled(b.next, |targets|, ok) { UnfilledChangesNothing(b, targets, ok); }
  }

  lemma FlatPasses(b: Book, cfg: Config, sig: Signal, ticket: Option<Ref>, targets: seq<Position>, ok: int -> bool)
    requires sig.strategy in cfg.magics && targets == FilterByTicket(OpenPositions(b.live, cfg.resolve(sig.symbol), Own(cfg, sig)), ticket)
    ensures var symbol, next := cfg.resolve(sig.symbol), b.next + |targets|;
      FlatClosed(b, cfg, sig, ticket, ok) ==
        if SomeFilled(b.next, |targets|, ok) || !Retries(cfg) then ClosedAll(b, symbol, Own(cfg, sig), ticket, ok)
        else ClosedAll(Book(b.live, next), symbol, cfg.magics.Values, None, ok)
    ensures FilterByTicket(OpenPositions(b.live, cfg.resolve(sig.symbol), cfg.magics.Values), None) == EveryOwned(b.live, cfg, sig)
  {
    var symbol, magics := cfg.resolve(sig.symbol), cfg.magics.Values;
    CloseIs(b, symbol, Own(cfg, sig), ticket, ok);
    ClosedBy(b, symbol, Own(cfg, sig), ticket, ok);
    OpenIsSelectAny(b.live, symbol, magics, (p: Position) => p.symbol == symbol && p.magic in magics);
  }

  lemma FlatClosedIs(b: Book, cfg: Config, sig: Signal, ticket: Option<Ref>, targets: seq<Position>, ok: int -> bool)
    requires sig.strategy in cfg.magics && targets == FilterByTicket(OpenPositions(b.live, cfg.resolve(sig.symbol), Own(cfg, sig)), ticket)
    ensures var (after, r) := FlatClosed(b, cfg, sig, ticket, ok);
      && FlatCloses(b, after, cfg, sig, targets, ok) && r.failsafe.None?
      && (r.success ==> FlatFilled(b, cfg, sig, targets, ok, r.ticket))
      && (!r.success ==> forall order :: !FlatFilled(b, cfg, sig, targets, ok, order))
  {
    var symbol, second := cfg.resolve(sig.symbol), Book(b.live, b.next + |targets|);
    FlatPasses(b, cfg, sig, ticket, targets, ok);
    CloseIs(b, symbol, Own(cfg, sig), ticket, ok);
    ClosedBy(b, symbol, Own(cfg, sig), ticket, ok);
    CloseIs(second, symbol, cfg.magics.Values, None, ok);
    ClosedBy(second, symbol, cfg.magics.Values, None, ok);
  }

  /** What a FLAT of row `k` leaves: FLATTED either way, the order written only when one was filled. */
  ghost predicate FlatLeaves(w: World, after: World, cfg: Config, i: Input, ok: int -> bool, k: int)
    requires i.sig.strategy in cfg.magics && 0 <= k < |w.rows|
  {
    var healed, targets := Healed(w.rows, cfg, i.sig, k, i.now), Addressed(w.book.live, cfg, i.sig, w.rows[k]);
    && FlatCloses(w.book, after.book, cfg, i.sig, targets, ok)
    && ((forall n :: !FlatFilled(w.book, cfg, i.sig, targets, ok, n)) ==>
          after.rows == healed[k := AsClosed(w.rows[k], Flatted, i.now).(message := Some(i.sig.message))])
    && ((exists n :: FlatFilled(w.book, cfg, i.sig, targets, ok, n)) ==>
          exists n :: FlatFilled(w.book, cfg, i.sig, targets, ok, n) && after.rows == healed[k := AsExited(w.rows[k], Flatted, n, i.sig.message, i.now)])
  }

  /** A FLAT that finds no row of its key writes to whatever rows carry the ticket of the first position it closed. */
  ghost predicate UntrackedWrites(w: World, rows: seq<Row>, cfg: Config, i: Input, ok: int -> bool)
    requires i.sig.strategy in cfg.magics
  {
    var own, all := OwnPositions(w.book.live, cfg, i.sig), EveryOwned(w.book.live, cfg, i.sig);
    var pass := if SomeFilled(w.book.next, |own|, ok) then own else all;
    && ((forall n :: !FlatFilled(w.book, cfg, i.sig, own, ok, n)) ==> rows == w.rows)
    && ((exists n :: FlatFilled(w.book, cfg, i.sig, own, ok, n)) ==>
          pass != [] && exists n :: FlatFilled(w.book, cfg, i.sig, own, ok, n) && WrittenTo(w.rows, rows, Ticket(pass[0].ticket), i, n))
  }

  predicate WrittenTo(before: seq<Row>, after: seq<Row>, ref: Ref, i: Input, order: int) {
    |after| == |before| && forall j :: 0 <= j < |before| ==>
      after[j] == if before[j].refSource == ref then AsExited(before[j], Flatted, order, i.sig.message, i.now) else before[j]
  }

  lemma OldestIsFlatted(w: World, cfg: Config, cap: int, i: Input, ok: int -> bool, k: int)
    requires WellFormed(w) && i.sig.strategy in cfg.magics && i.sig.action == ExitFlat && Oldest(w.rows, cfg, i.sig, k)
    ensures FlatLeaves(w, Processed(w, cfg, cap, i, ok), cfg, i, ok, k)
  {
    var healed, targets := Healed(w.rows, cfg, i.sig, k, i.now), Addressed(w.book.live, cfg, i.sig, w.rows[k]);
    var ticket := ExitTicket(cfg, i.sig, w.rows[k]);
    HealedIs(w.rows, w.book.next, cfg, i.sig, k, i.now);
    LiveOfIs(w.book, cfg, i.sig, w.rows[k]);
    ScopeIs(cfg, i.sig);
    FlatClosedIs(w.book, cfg, i.sig, ticket, targets, ok);
    var r := FlatClosed(w.book, cfg, i.sig, ticket, ok).1;
    if r.success {
      RewrittenIs(healed, w.book.next, k, ExitChange(i.sig, r.(source := Some(w.rows[k].refSource))), i.now);
    } else {
      RewrittenIs(healed, w.book.next, k, AsFlatted(i.sig), i.now);
    }
  }

  lemma SourceIsFirst(b: Book, symbol: string, magics: set<int>, ticket: Option<Ref>, ok: int -> bool)
    ensures var targets, r := FilterByTicket(OpenPositions(b.live, symbol, magics), ticket), ClosedAll(b, symbol, magics, ticket, ok).1;
      r.success ==> targets != [] && r.source == Some(Ticket(targets[0].ticket))
  {
  }

  lemma FlatSource(b: Book, cfg: Config, sig: Signal, ok: int -> bool)
    requires sig.strategy in cfg.magics
    ensures var own, r := OwnPositions(b.live, cfg, sig), FlatClosed(b, cfg, sig, None, ok).1;
      var pass := if SomeFilled(b.next, |own|, ok) then own else EveryOwned(b.live, cfg, sig);
      r.success ==> pass != [] && r.source == Some(Ticket(pass[0].ticket))
  {
    var symbol, own, second := cfg.resolve(sig.symbol), OwnPositions(b.live, cfg, sig), Book(b.live, b.next + |OwnPositions(b.live, cfg, sig)|);
    OwnIs(b, cfg, sig);
    FlatPasses(b, cfg, sig, None, own, ok);
    CloseIs(b, symbol, Own(cfg, sig), None, ok);
    SourceIsFirst(b, symbol, Own(cfg, sig), None, ok);
    SourceIsFirst(second, symbol, cfg.magics.Values, None, ok);
  }

  lemma UntrackedIsFlatted(w: World, cfg: Config, cap: int, i: Input, ok: int -> bool)
    requires WellFormed(w) && i.sig.strategy in cfg.magics && i.sig.action == ExitFlat
    requires NoneUnderKey(w.rows, cfg, i.sig) && !ByUxid(cfg, i.sig)
    ensures var after := Processed(w, cfg, cap, i, ok);
      FlatCloses(w.book, after.book, cfg, i.sig, OwnPositions(w.book.live, cfg, i.sig), ok) && UntrackedWrites(w, after.rows, cfg, i, ok)
  {
    var own := OwnPositions(w.book.live, cfg, i.sig);
    ScopeIs(cfg, i.sig);
    NoneOpen(w.rows, cfg, i.sig);
    LiveOfIs(w.book, cfg, i.sig, Row(Tag(""), Tag(""), "", "", None, 0.0, None, Opened, None, Pending, None, 0));
    FlatClosedIs(w.book, cfg, i.sig, None, own, ok);
    FlatSource(w.book, cfg, i.sig, ok);
    var r := FlatClosed(w.book, cfg, i.sig, None, ok).1;
    assert Handled(w, cfg, i.sig, i.plan, i.now, ok).1 == r;
    if r.success {
      assert WrittenTo(w.rows, Processed(w, cfg, cap, i, ok).rows, r.source.value, i, r.ticket);
    }
  }

  /**
   * FLAT. Without an open row of the key nothing happens under a uxid, and otherwise only positions are closed.
   * The oldest row of the key is FLATTED whatever the broker does.
   */
  lemma FlatOutcome(w: World, cfg: Config, cap: int, i: Input, ok: int -> bool)
    requires WellFormed(w) && i.sig.strategy in cfg.magics && i.sig.action == ExitFlat
    ensures NoneUnderKey(w.rows, cfg, i.sig) ==>
      var after := Processed(w, cfg, cap, i, ok);
      if ByUxid(cfg, i.sig) then after == w
      else FlatCloses(w.book, after.book, cfg, i.sig, OwnPositions(w.book.live, cfg, i.sig), ok) && UntrackedWrites(w, after.rows, cfg, i, ok)
    ensures forall k :: Oldest(w.rows, cfg, i.sig, k) ==> FlatLeaves(w, Processed(w, cfg, cap, i, ok), cfg, i, ok, k)
  {
    ScopeIs(cfg, i.sig);
    NoneOpen(w.rows, cfg, i.sig);
    if NoneUnderKey(w.rows, cfg, i.sig) && !ByUxid(cfg, i.sig) { UntrackedIsFlatted(w, cfg, cap, i, ok); }
    forall k | Oldest(w.rows, cfg, i.sig, k) ensures FlatLeaves(w, Processed(w, cfg, cap, i, ok), cfg, i, ok, k) {
      OldestIsFlatted(w, cfg, cap, i, ok, k);
    }
  }

  // ----- TP1

  /** The partial close of `p`: what is left of it, or nothing when the volume covers it. */
  function Reduced(live: seq<Position>, p: Position, volume: real): seq<Position> {
    if volume < p.volume then
      seq(|live|, j requires 0 <= j < |live| => if live[j].ticket == p.ticket then live[j].(volume := p.volume - volume) else live[j])
    else Select(live, (q: Position) => q.ticket != p.ticket)
  }

  function Restopped(live: seq<Position>, ticket: int, sl: real): seq<Position> {
    seq(|live|, j requires 0 <= j < |live| => if live[j].ticket == ticket then live[j].(sl := sl) else live[j])
  }

  /**
   * After the partial close: the breakeven stop goes to the position that was reduced, or when it is gone to the
   * first one the strategy still holds; refused, everything the strategy holds on the symbol is closed.
   */
  ghost predicate StopLeaves(reduced: seq<Position>, next: int, after: Book, cfg: Config, sig: Signal, p: Position, whole: bool, ok: int -> bool)
    requires sig.strategy in cfg.magics
  {
    var held := OwnPositions(reduced, cfg, sig);
    if held == [] then after == Book(reduced, next)
    else if ok(next) then after == Book(Restopped(reduced, if whole then held[0].ticket else p.ticket, p.priceOpen), next + 1)
    else TargetsClosed(reduced, after.live, next + 1, held, ok) && after.next == next + 1 + |held|
  }

  /** The stop was refused and an emergency close filled an order. */
  ghost predicate EmergencyFilled(reduced: seq<Position>, next: int, cfg: Config, sig: Signal, ok: int -> bool)
    requires sig.strategy in cfg.magics
  {
    !ok(next) && SomeFilled(next + 1, |OwnPositions(reduced, cfg, sig)|, ok)
  }

  /** The order that takes the volume goes out, and is filled. */
  predicate Taken(b: Book, plan: Plan, targets: seq<Position>, ok: int -> bool) { targets != [] && plan.tp1.Some? && ok(b.next) }

  ghost predicate Emergency(b: Book, cfg: Config, sig: Signal, plan: Plan, targets: seq<Position>, ok: int -> bool)
    requires sig.strategy in cfg.magics && Taken(b, plan, targets, ok)
  {
    plan.moveSl && EmergencyFilled(Reduced(b.live, targets[0], plan.tp1.value), b.next + 1, cfg, sig, ok)
  }

  /** The book a TP1 leaves: untouched, one order refused, or the first target reduced and then its stop seen to. */
  ghost predicate Tp1BookLeaves(b: Book, after: Book, cfg: Config, sig: Signal, plan: Plan, targets: seq<Position>, ok: int -> bool)
    requires sig.strategy in cfg.magics
  {
    if targets == [] || plan.tp1.None? then after == b
    else if !ok(b.next) then after == Book(b.live, b.next + 1)
    else
      var p, volume := targets[0], plan.tp1.value;
      var reduced := Reduced(b.live, p, volume);
      if !plan.moveSl then after == Book(reduced, b.next + 1)
      else StopLeaves(reduced, b.next + 1, after, cfg, sig, p, volume >= p.volume, ok)
  }

  /** What a TP1 of row `k` leaves. */
  ghost predicate Tp1Leaves(w: World, after: World, cfg: Config, i: Input, ok: int -> bool, k: int)
    requires i.sig.strategy in cfg.magics && 0 <= k < |w.rows|
  {
    var healed, targets := Healed(w.rows, cfg, i.sig, k, i.now), Addressed(w.book.live, cfg, i.sig, w.rows[k]);
    && Tp1BookLeaves(w.book, after.book, cfg, i.sig, i.plan, targets, ok)
    && after.rows ==
      if !Taken(w.book, i.plan, targets, ok) then healed
      else
        var status := if Emergency(w.book, cfg, i.sig, i.plan, targets, ok) then ForcedClosed else Tp1;
        healed[k := AsExited(w.rows[k], status, w.book.next, i.sig.message, i.now)]
  }

  lemma {:induction false} WithoutIsSelect(live: seq<Position>, ticket: int, keep: Position -> bool)
    requires forall q: Position :: keep(q) <==> q.ticket != ticket
    ensures Without(live, ticket) == Select(live, keep)
  {
    if live != [] { WithoutIsSelect(live[..|live| - 1], ticket, keep); }
  }

  lemma ReducedIs(b: Book, p: Position, volume: real)
    ensures Tp1Exits.AfterPartial(b, p, volume) == Book(Reduced(b.live, p, volume), b.next + 1)
  {
    WithoutIsSelect(b.live, p.ticket, (q: Position) => q.ticket != p.ticket);
  }

  lemma OwnIs(b: Book, cfg: Config, sig: Signal)
    requires sig.strategy in cfg.magics
    ensures OpenPositions(b.live, cfg.resolve(sig.symbol), Own(cfg, sig)) == OwnPositions(b.live, cfg, sig)
  {
    LiveOfIs(b, cfg, sig, Row(Tag(""), Tag(""), "", "", None, 0.0, None, Opened, None, Pending, None, 0));
  }

  lemma PickedIs(b: Book, cfg: Config, sig: Signal, p: Position, volume: real)
    requires Isolation.Owns(b, cfg, sig, p) && sig.strategy in cfg.magics
    ensures var reduced := Reduced(b.live, p, volume);
      var held := OwnPositions(reduced, cfg, sig);
      held != [] ==> Pick(held, p.ticket).ticket == if volume >= p.volume then held[0].ticket else p.ticket
  {
    var reduced := Book(Reduced(b.live, p, volume), b.next + 1);
    var held := OwnPositions(reduced.live, cfg, sig);
    ReducedIs(b, p, volume);
    Tp1Exits.AfterPartialIff(b, p, volume);
    OwnIs(reduced, cfg, sig);
    OpenPositionsIff(reduced.live, cfg.resolve(sig.symbol), Own(cfg, sig));
    if held != [] {
      PickIff(held, p.ticket);
      if volume < p.volume { assert p.(volume := p.volume - volume) in held; }
    }
  }

  lemma BreakevenIs(b: Book, cfg: Config, sig: Signal, p: Position, volume: real, r: Result, ok: int -> bool)
    requires Isolation.Owns(b, cfg, sig, p) && sig.strategy in cfg.magics && r.success && r.failsafe.None?
    ensures var reduced := Reduced(b.live, p, volume);
      var (after, s) := Tp1Exits.Breakeven(Book(reduced, b.next + 1), cfg, sig, p, r, ok);
      && StopLeaves(reduced, b.next + 1, after, cfg, sig, p, volume >= p.volume, ok)
      && s == r.(failsafe := s.failsafe) && (s.failsafe == Some(true) <==> EmergencyFilled(reduced, b.next + 1, cfg, sig, ok))
  {
    var reduced := Book(Reduced(b.live, p, volume), b.next + 1);
    OwnIs(reduced, cfg, sig);
    PickedIs(b, cfg, sig, p, volume);
    CloseIs(Book(reduced.live, reduced.next + 1), cfg.resolve(sig.symbol), Own(cfg, sig), None, ok);
  }

  lemma Tp1Is(b: Book, cfg: Config, sig: Signal, plan: Plan, ticket: Option<Ref>, targets: seq<Position>, ok: int -> bool)
    requires Numbered(b) && sig.strategy in cfg.magics && targets == LiveOf(b, cfg, sig, ticket)
    ensures var (after, r) := Tp1Handled(b, cfg, sig, plan, ticket, ok);
      && (r.success <==> Taken(b, plan, targets, ok))
      && Tp1BookLeaves(b, after, cfg, sig, plan, targets, ok)
      && (r.success ==> r.ticket == b.next && (r.failsafe == Some(true) <==> Emergency(b, cfg, sig, plan, targets, ok)))
  {
    if targets != [] && plan.tp1.Some? {
      var p := targets[0];
      AddressedIff(b, cfg.resolve(sig.symbol), Own(cfg, sig), ticket);
      assert p in targets;
      Tp1Exits.Tp1Unfolds(b, cfg, sig, plan, ticket, p, ok);
      ReducedIs(b, p, plan.tp1.value);
      if ok(b.next) { BreakevenIs(b, cfg, sig, p, plan.tp1.value, Result(true, b.next, Some(Ticket(p.ticket)), None), ok); }
    }
  }

  lemma Tp1Handles(w: World, cfg: Config, i: Input, ok: int -> bool, k: int)
    requires WellFormed(w) && i.sig.strategy in cfg.magics && i.sig.action == ExitTp1 && Oldest(w.rows, cfg, i.sig, k)
    ensures var ticket := if ByUxid(cfg, i.sig) then Some(w.rows[k].refSource) else None;
      var (book, r) := Tp1Handled(w.book, cfg, i.sig, i.plan, ticket, ok);
      && LiveOf(w.book, cfg, i.sig, ticket) == Addressed(w.book.live, cfg, i.sig, w.rows[k])
      && Handled(w, cfg, i.sig, i.plan, i.now, ok) ==
        (World(Healed(w.rows, cfg, i.sig, k, i.now), book), if r.success then r.(source := Some(w.rows[k].refSource)) else Fail())
  {
    HealedIs(w.rows, w.book.next, cfg, i.sig, k, i.now);
    LiveOfIs(w.book, cfg, i.sig, w.rows[k]);
    ScopeIs(cfg, i.sig);
    Tp1Is(w.book, cfg, i.sig, i.plan, ExitTicket(cfg, i.sig, w.rows[k]), Addressed(w.book.live, cfg, i.sig, w.rows[k]), ok);
  }

  lemma OldestIsTp1(w: World, cfg: Config, cap: int, i: Input, ok: int -> bool, k: int)
    requires WellFormed(w) && i.sig.strategy in cfg.magics && i.sig.action == ExitTp1 && Oldest(w.rows, cfg, i.sig, k)
    ensures Tp1Leaves(w, Processed(w, cfg, cap, i, ok), cfg, i, ok, k)
  {
    var targets := Addressed(w.book.live, cfg, i.sig, w.rows[k]);
    var ticket := if ByUxid(cfg, i.sig) then Some(w.rows[k].refSource) else None;
    var (after, r) := Handled(w, cfg, i.sig, i.plan, i.now, ok);
    Tp1Handles(w, cfg, i, ok, k);
    Tp1Is(w.book, cfg, i.sig, i.plan, ticket, targets, ok);
    ExitPersists(w, cfg, cap, i, ok, k, after.book, r);
  }

  /**
   * TP1. Without an open row of the key nothing happens. Otherwise it takes the first position an exit of the
   * oldest row addresses, and the row becomes TP1, or FORCED_CLOSED when a refused breakeven stop led to an
   * emergency close that filled an order.
   */
  lemma Tp1Outcome(w: World, cfg: Config, cap: int, i: Input, ok: int -> bool)
    requires WellFormed(w) && i.sig.strategy in cfg.magics && i.sig.action == ExitTp1
    ensures NoneUnderKey(w.rows, cfg, i.sig) ==> Processed(w, cfg, cap, i, ok) == w
    ensures forall k :: Oldest(w.rows, cfg, i.sig, k) ==> Tp1Leaves(w, Processed(w, cfg, cap, i, ok), cfg, i, ok, k)
  {
    NoneOpen(w.rows, cfg, i.sig);
    forall k | Oldest(w.rows, cfg, i.sig, k) ensures Tp1Leaves(w, Processed(w, cfg, cap, i, ok), cfg, i, ok, k) {
      OldestIsTp1(w, cfg, cap, i, ok, k);
    }
  }

  // ----- an entry that finds its own row open

  /** An open row on the symbol; every open row when there is none. */
  predicate OpenOn(r: Row, symbol: string) { (r.status == Opened || r.status == Tp1) && (r.symbol == symbol || symbol == "") }

  /** Another strategy holds the symbol, and strategies may not share one. */
  predicate HeldByOther(rows: seq<Row>, cfg: Config, sig: Signal) {
    && !cfg.multiStrategy
    && exists k :: 0 <= k < |rows| && rows[k].strategy != sig.strategy && OpenOn(rows[k], sig.symbol)
  }

  lemma HeldByOtherIs(rows: seq<Row>, cfg: Config, sig: Signal)
    ensures HeldByOther(rows, cfg, sig) <==> OtherHolders(rows, sig) && !cfg.multiStrategy
  {
  }

  lemma OneCleanup(b: Book, cfg: Config, sig: Signal, ticket: Option<Ref>, targets: seq<Position>, ok: int -> bool)
    requires targets == LiveOf(b, cfg, sig, ticket)
    ensures StaleLive(b, cfg, sig, [ticket]) == targets
    ensures var (cleaned, clear) := if targets == [] then (b, true) else StaleClosed(b, cfg, sig, [ticket], ok);
      && TargetsClosed(b.live, cleaned.live, b.next, targets, ok) && cleaned.next == b.next + |targets|
      && (clear <==> Cleared(b.next, targets, ok))
  {
    assert [ticket][..0] == [] && [ticket][1..] == [];
    assert StaleLive(b, cfg, sig, [ticket]) == StaleLive(b, cfg, sig, []) + LiveOf(b, cfg, sig, ticket);
    CloseIs(b, cfg.resolve(sig.symbol), Own(cfg, sig), ticket, ok);
  }

  lemma OwnRowIff(rows: seq<Row>, next: int, cfg: Config, sig: Signal, j: int)
    requires Ledger(rows, next) && 0 <= j < |rows|
    ensures var own := OwnRows(rows, cfg, sig);
      (exists d :: 0 <= d < |own| && own[d].refSource == rows[j].refSource) <==> UnderKey(rows[j], cfg, sig)
  {
    var q, own := Tracked(sig.strategy, sig.symbol, UxidScope(cfg, sig)), OwnRows(rows, cfg, sig);
    OpenIff(rows, q);
    OwnMatches(rows[j], cfg, sig);
    if d :| 0 <= d < |own| && own[d].refSource == rows[j].refSource {
      assert own[d] in own;
      var m :| 0 <= m < |rows| && rows[m] == own[d];
      assert m == j;
    }
    if UnderKey(rows[j], cfg, sig) { assert rows[j] in own; }
  }

  /** Every open row of the key. */
  lemma AllOwnAreClosed(rows: seq<Row>, next: int, cfg: Config, sig: Signal, now: int)
    requires Ledger(rows, next)
    ensures ForceClosedRows(rows, OwnRows(rows, cfg, sig), now) == Healed(rows, cfg, sig, -1, now)
  {
    var own := OwnRows(rows, cfg, sig);
    ForceClosedIs(rows, next, own, now);
    forall j | 0 <= j < |rows| ensures (exists d :: 0 <= d < |own| && own[d].refSource == rows[j].refSource) <==> UnderKey(rows[j], cfg, sig) {
      OwnRowIff(rows, next, cfg, sig, j);
    }
  }

  lemma TicketsOfOldest(rows: seq<Row>, cfg: Config, sig: Signal, k: int)
    requires OneActive(rows) && Oldest(rows, cfg, sig, k)
    ensures StaleTickets(cfg, sig, OwnRows(rows, cfg, sig)) == [if ByUxid(cfg, sig) then Some(rows[k].refSource) else None]
  {
    ScopeIs(cfg, sig);
    FirstOpenIsOldest(rows, cfg, sig, k);
    if ByUxid(cfg, sig) { OpenIsSingle(rows, sig.strategy, sig.symbol, sig.uxid.value); }
  }

  /** What an entry that replaces open rows of its own key leaves, and whether it opened its position. */
  ghost predicate Replaces(w: World, after: World, r: Result, cfg: Config, sig: Signal, plan: Plan, now: int, ok: int -> bool, targets: seq<Position>)
    requires sig.strategy in cfg.magics
  {
    var n := w.book.next + |targets|;
    if !Cleared(w.book.next, targets, ok) then
      !r.success && after.rows == w.rows && after.book.next == n && TargetsClosed(w.book.live, after.book.live, w.book.next, targets, ok)
    else
      && after.rows == Healed(w.rows, cfg, sig, -1, now)
      && (r.success <==> plan.entry.Some? && ok(n)) && after.book.next == n + (if plan.entry.Some? then 1 else 0)
      && (!r.success ==> TargetsClosed(w.book.live, after.book.live, w.book.next, targets, ok))
      && (r.success ==>
            var (volume, price, sl) := plan.entry.value;
            && r.ticket == n && |after.book.live| > 0
            && after.book.live[|after.book.live| - 1] == Position(n, cfg.magics[sig.strategy], cfg.resolve(sig.symbol), volume, price, sl)
            && TargetsClosed(w.book.live, after.book.live[..|after.book.live| - 1], w.book.next, targets, ok))
  }

  /**
   * The handler's own entry, past the guards or not: refused when another strategy holds the symbol; otherwise it
   * clears its own position first, and only when that succeeds are its rows force-closed and its order sent.
   */
  lemma ReplacingEntryOutcome(w: World, cfg: Config, sig: Signal, plan: Plan, now: int, ok: int -> bool, k: int)
    requires WellFormed(w) && sig.strategy in cfg.magics && Oldest(w.rows, cfg, sig, k)
    ensures var (after, r) := EntryHandled(w, cfg, sig, plan, now, ok);
      if HeldByOther(w.rows, cfg, sig) then after == w && !r.success
      else Replaces(w, after, r, cfg, sig, plan, now, ok, Addressed(w.book.live, cfg, sig, w.rows[k]))
  {
    HeldByOtherIs(w.rows, cfg, sig);
    if !HeldByOther(w.rows, cfg, sig) {
      var ticket := if ByUxid(cfg, sig) then Some(w.rows[k].refSource) else None;
      var targets := Addressed(w.book.live, cfg, sig, w.rows[k]);
      ReplacingEntryUnfolds(w, cfg, sig, plan, now, ok, k);
      LiveOfIs(w.book, cfg, sig, w.rows[k]);
      OneCleanup(w.book, cfg, sig, ticket, targets, ok);
      var (cleaned, clear) := if targets == [] then (w.book, true) else StaleClosed(w.book, cfg, sig, [ticket], ok);
      PlacedAfterCleanup(w, cfg, sig, plan, now, ok, targets, cleaned, clear);
    }
  }

  lemma PlacedAfterCleanup(w: World, cfg: Config, sig: Signal, plan: Plan, now: int, ok: int -> bool, targets: seq<Position>, cleaned: Book, clear: bool)
    requires sig.strategy in cfg.magics && TargetsClosed(w.book.live, cleaned.live, w.book.next, targets, ok)
    requires cleaned.next == w.book.next + |targets| && (clear <==> Cleared(w.book.next, targets, ok))
    ensures var (placed, r) := EntryPlaced(cleaned, cfg, sig, plan, ok);
      Replaces(w, if clear then World(Healed(w.rows, cfg, sig, -1, now), placed) else w.(book := cleaned), if clear then r else Fail(),
               cfg, sig, plan, now, ok, targets)
  {
    var placed := EntryPlaced(cleaned, cfg, sig, plan, ok).0;
    if plan.entry.Some? && ok(cleaned.next) { assert placed.live[..|placed.live| - 1] == cleaned.live; }
  }

  lemma ReplacingEntryUnfolds(w: World, cfg: Config, sig: Signal, plan: Plan, now: int, ok: int -> bool, k: int)
    requires WellFormed(w) && sig.strategy in cfg.magics && Oldest(w.rows, cfg, sig, k) && !HeldByOther(w.rows, cfg, sig)
    ensures var ticket := if ByUxid(cfg, sig) then Some(w.rows[k].refSource) else None;
      var targets := Addressed(w.book.live, cfg, sig, w.rows[k]);
      var (cleaned, clear) := if targets == [] then (w.book, true) else StaleClosed(w.book, cfg, sig, [ticket], ok);
      var (placed, r) := EntryPlaced(cleaned, cfg, sig, plan, ok);
      EntryHandled(w, cfg, sig, plan, now, ok) ==
        if !clear then (w.(book := cleaned), Fail()) else (World(Healed(w.rows, cfg, sig, -1, now), placed), r)
  {
    var ticket := if ByUxid(cfg, sig) then Some(w.rows[k].refSource) else None;
    HeldByOtherIs(w.rows, cfg, sig);
    TicketsOfOldest(w.rows, cfg, sig, k);
    LiveOfIs(w.book, cfg, sig, w.rows[k]);
    OneCleanup(w.book, cfg, sig, ticket, Addressed(w.book.live, cfg, sig, w.rows[k]), ok);
    AllOwnAreClosed(w.rows, w.book.next, cfg, sig, now);
  }
}
