/**
 * One signal end to end: the entry guards, the handler, and what is persisted. The main results are
 * about every run of signals, while the broker moves on its own and the settings change.
 */
module Processor {
  import opened Wrappers
  import opened CycleStatus
  import opened Repository
  import opened Broker
  import opened Guard
  import opened SignalHandler
  import opened Isolation

  // ----- what is written down

  function ExitStatus(a: Action): Status
    requires !IsEntry(a)
  {
    match a
    case ExitTp1 => Tp1
    case ExitTp2 => Tp2
    case ExitSl => Sl
    case ExitRSl => RSl
    case ExitFlat => Flatted
  }

  /** A filled failsafe is recorded as the emergency close of the whole position, whichever position it closed. */
  function PersistedStatus(sig: Signal, r: Result): Status
    requires !IsEntry(sig.action)
  {
    if r.failsafe == Some(true) then ForcedClosed else ExitStatus(sig.action)
  }

  /** The headline the trade's message gets for this action. */
  function CycleStatusOf(sig: Signal, r: Result): Status {
    if !r.success then Failed
    else if IsEntry(sig.action) then Opened
    else if r.failsafe == Some(true) then ForcedClosed
    else ExitStatus(sig.action)
  }

  function OpenedRow(sig: Signal, plan: Plan, r: Result, now: int): Row {
    var volume := if plan.entry.Some? then plan.entry.value.0 else 0.0;
    Row(Ticket(r.ticket), Ticket(r.ticket), sig.strategy, sig.symbol, sig.uxid, volume, None, Opened, Some(sig.message), Pending, None, now)
  }

  function RejectedRow(sig: Signal, now: int): Row {
    var ref := Tag(sig.id.GetOr(sig.tag));
    Row(ref, ref, sig.strategy, sig.symbol, sig.uxid, 0.0, None, Rejected, Some(sig.message), Pending, None, now)
  }

  function SourceOf(r: Result): Ref { r.source.GetOr(Ticket(r.ticket)) }

  function ExitChange(sig: Signal, r: Result): Change
    requires !IsEntry(sig.action)
  {
    Change(PersistedStatus(sig, r), Some(Ticket(r.ticket)), None, Some(sig.message))
  }

  /** `None` when the unique index refuses the write: the trade is then live but not tracked. */
  function Persisted(rows: seq<Row>, sig: Signal, plan: Plan, r: Result, now: int): Option<seq<Row>> {
    if IsEntry(sig.action) then Insert(rows, OpenedRow(sig, plan, r, now))
    else Update(rows, SourceOf(r), ExitChange(sig, r), now)
  }

  /** A signal that passed the block and the unknown-strategy gate, given the settings of the moment. */
  datatype Input = Input(sig: Signal, plan: Plan, stale: bool, now: int)

  predicate Refused(w: World, cfg: Config, cap: int, i: Input) {
    IsEntry(i.sig.action) && EntryRejected(w.rows, cap, i.sig, cfg, i.stale)
  }

  function Processed(w: World, cfg: Config, cap: int, i: Input, ok: int -> bool): World
    requires i.sig.strategy in cfg.magics
  {
    if Refused(w, cfg, cap, i) then w.(rows := Insert(w.rows, RejectedRow(i.sig, i.now)).GetOr(w.rows))
    else
      var (after, r) := Handled(w, cfg, i.sig, i.plan, i.now, ok);
      if !r.success then after else after.(rows := Persisted(after.rows, i.sig, i.plan, r, i.now).GetOr(after.rows))
  }

  class SignalProcessor {
    const db: PositionRepository
    const executor: ForexExecutor
    const handler: Handler
    /** The broker pushes the cap and the magic map at run time. */
    var cap: int
    var cfg: Config

    constructor (db: PositionRepository, executor: ForexExecutor, cfg: Config, cap: int)
      ensures this.db == db && this.executor == executor && handler.db == db && handler.executor == executor
      ensures this.cfg == cfg && this.cap == cap
    {
      this.db, this.executor, this.cfg, this.cap := db, executor, cfg, cap;
      handler := new Handler(db, executor);
    }

    ghost predicate Wired() { handler.db == db && handler.executor == executor }

    /** False when persisting raised. */
    method ProcessSignal(i: Input) returns (stored: bool)
      requires Wired() && i.sig.strategy in cfg.magics
      modifies db, executor
      ensures handler.View() == Processed(old(handler.View()), cfg, cap, i, executor.ok)
      ensures WellFormed(old(handler.View())) ==> stored && WellFormed(handler.View())
    {
      NeverRefused(handler.View(), cfg, cap, i, executor.ok);
      if IsEntry(i.sig.action) {
        var open := SymbolOpenRejection(db.rows, i.sig, cfg);
        if open || MaxOrdersReached(db.rows, cap, i.sig, cfg) || i.stale {
          stored := db.InsertPosition(RejectedRow(i.sig, i.now));
          return;
        }
      }
      var r := handler.Handle(cfg, i.sig, i.plan, i.now);
      if !r.success { return true; }
      if IsEntry(i.sig.action) {
        stored := db.InsertPosition(OpenedRow(i.sig, i.plan, r, i.now));
      } else {
        stored := db.UpdatePositionStatus(SourceOf(r), ExitChange(i.sig, r), i.now);
      }
    }
  }

  // ----- the ledger invariant

  /** One active row per key; active rows carry tickets; tickets are distinct and already handed out. */
  ghost predicate Ledger(rows: seq<Row>, next: int) {
    && OneActive(rows)
    && (forall i :: 0 <= i < |rows| && Active(rows[i]) ==> rows[i].refSource.Ticket?)
    && (forall i :: 0 <= i < |rows| && rows[i].refSource.Ticket? ==> rows[i].refSource.number < next)
    && (forall i, j :: 0 <= i < j < |rows| && rows[i].refSource.Ticket? ==> rows[j].refSource != rows[i].refSource)
  }

  ghost predicate WellFormed(w: World) { Ledger(w.rows, w.book.next) && Numbered(w.book) }

  /** The same rows under the same keys, none of them newly active. */
  ghost predicate Shrinks(rows: seq<Row>, after: seq<Row>) {
    && |after| == |rows|
    && forall i :: 0 <= i < |rows| ==>
      after[i].refSource == rows[i].refSource && KeyOf(after[i]) == KeyOf(rows[i]) && (Active(after[i]) ==> Active(rows[i]))
  }

  lemma ShrinksKeepsLedger(rows: seq<Row>, after: seq<Row>, next: int, later: int)
    requires Ledger(rows, next) && Shrinks(rows, after) && next <= later
    ensures Ledger(after, later)
  {
  }

  ghost predicate SafeUpdate(rows: seq<Row>, ref: Ref, c: Change) {
    Live(c.status) ==> exists i :: 0 <= i < |rows| && rows[i].refSource == ref && Active(rows[i])
  }

  /** Closing rows, or moving an active one to TP1, is never refused and makes nothing newly active. */
  lemma UpdateShrinks(rows: seq<Row>, next: int, ref: Ref, c: Change, now: int)
    requires Ledger(rows, next) && SafeUpdate(rows, ref, c)
    ensures Update(rows, ref, c, now) == Some(Rewritten(rows, ref, c, now))
    ensures Shrinks(rows, Rewritten(rows, ref, c, now))
  {
    if Live(c.status) {
      var i :| 0 <= i < |rows| && rows[i].refSource == ref && Active(rows[i]);
      assert forall j :: 0 <= j < |rows| && rows[j].refSource == ref ==> j == i;
      assert forall j :: 0 <= j < |rows| && j != i && Active(rows[j]) ==> KeyOf(rows[j]) != KeyOf(rows[i]);
    }
  }

  /** Force-closing rows touches only the rows carrying their references. */
  lemma {:induction false} ForceClosedShrinks(rows: seq<Row>, next: int, doomed: seq<Row>, now: int)
    requires Ledger(rows, next)
    ensures var after := ForceClosedRows(rows, doomed, now);
      && Ledger(after, next) && Shrinks(rows, after)
      && forall i :: 0 <= i < |rows| && (forall k :: 0 <= k < |doomed| ==> doomed[k].refSource != rows[i].refSource) ==> after[i] == rows[i]
  {
    if doomed != [] {
      var n := |doomed| - 1;
      ForceClosedShrinks(rows, next, doomed[..n], now);
      var mid := ForceClosedRows(rows, doomed[..n], now);
      UpdateShrinks(mid, next, doomed[n].refSource, AsForceClosed(), now);
      ShrinksKeepsLedger(mid, Rewritten(mid, doomed[n].refSource, AsForceClosed(), now), next, next);
      assert forall k :: 0 <= k < n ==> doomed[..n][k] == doomed[k];
    }
  }

  /** Rows a query selects come from different places of the table, so their tickets differ. */
  lemma {:induction false} OpenRefsDistinct(rows: seq<Row>, next: int, q: Query)
    requires Ledger(rows, next)
    ensures forall j, k :: 0 <= j < k < |Open(rows, q)| ==> Open(rows, q)[j].refSource != Open(rows, q)[k].refSource
  {
    if rows != [] {
      var front := rows[..|rows| - 1];
      assert Ledger(front, next);
      OpenRefsDistinct(front, next, q);
      OpenIff(front, q);
      forall j | 0 <= j < |Open(front, q)| ensures Open(front, q)[j].refSource != rows[|rows| - 1].refSource {
        assert Open(front, q)[j] in front;
      }
    }
  }

  /** Healing duplicates keeps the ledger, and the tracked row it returns is still active in it. */
  lemma DbPositionKeeps(rows: seq<Row>, next: int, cfg: Config, sig: Signal, now: int)
    requires Ledger(rows, next)
    ensures var (after, found) := DbPosition(rows, cfg, sig, now);
      && Ledger(after, next) && Shrinks(rows, after)
      && (found.Some? ==> exists i :: 0 <= i < |after| && after[i] == found.value && Active(after[i]))
  {
    var own := OwnRows(rows, cfg, sig);
    if own != [] {
      OpenRefsDistinct(rows, next, Tracked(sig.strategy, sig.symbol, UxidScope(cfg, sig)));
      OpenIff(rows, Tracked(sig.strategy, sig.symbol, UxidScope(cfg, sig)));
      ForceClosedShrinks(rows, next, own[1..], now);
      assert own[0] in own;
      var i :| 0 <= i < |rows| && rows[i] == own[0];
      assert ForceClosedRows(rows, own[1..], now)[i] == own[0];
    }
  }

  // ----- no run ever violates the index

  lemma NumberedAfter(w: World, cfg: Config, sig: Signal, plan: Plan, now: int, ok: int -> bool)
    requires Numbered(w.book) && sig.strategy in cfg.magics
    ensures var (after, r) := Handled(w, cfg, sig, plan, now, ok);
      && Numbered(after.book) && w.book.next <= after.book.next
      && (r.success ==> w.book.next <= r.ticket < after.book.next) && (r.success && !IsEntry(sig.action) ==> r.source.Some?)
  {
    var keep := (p: Position) => false;
    HandledKeeps(w, cfg, sig, plan, now, ok, keep);
  }

  /** The rows a refused entry leaves. */
  lemma RefusedKeeps(w: World, cfg: Config, cap: int, i: Input)
    requires WellFormed(w)
    ensures Insert(w.rows, RejectedRow(i.sig, i.now)) == Some(w.rows + [RejectedRow(i.sig, i.now)])
    ensures Ledger(w.rows + [RejectedRow(i.sig, i.now)], w.book.next)
  {
    InsertSucceedsIff(w.rows, RejectedRow(i.sig, i.now));
  }

  /** A fresh ticket's row under the entry's key, when the symbol guard let the entry through. */
  lemma FreshRowFits(rows: seq<Row>, next: int, later: int, cfg: Config, sig: Signal, row: Row)
    requires Ledger(rows, next) && !SymbolOpen(rows, sig, cfg)
    requires row.strategy == sig.strategy && row.symbol == sig.symbol && row.uxid == sig.uxid
    requires row.refSource.Ticket? && next <= row.refSource.number < later
    ensures Insert(rows, row) == Some(rows + [row]) && Ledger(rows + [row], later)
  {
    AdmittedOwnsNothing(rows, sig, cfg);
    forall k | 0 <= k < |rows| && Active(rows[k]) ensures KeyOf(rows[k]) != KeyOf(row) {
    }
    InsertSucceedsIff(rows, row);
  }

  lemma AdmittedChangesNoRow(w: World, cfg: Config, sig: Signal, plan: Plan, now: int, ok: int -> bool)
    requires sig.strategy in cfg.magics && !SymbolOpen(w.rows, sig, cfg)
    ensures EntryHandled(w, cfg, sig, plan, now, ok).0.rows == w.rows
  {
    AdmittedOwnsNothing(w.rows, sig, cfg);
  }

  /** An admitted entry finds nothing of its own, so the handler writes no row and the insert is never refused. */
  lemma AdmittedInsertSucceeds(w: World, cfg: Config, cap: int, i: Input, ok: int -> bool)
    requires WellFormed(w) && i.sig.strategy in cfg.magics && IsEntry(i.sig.action) && !Refused(w, cfg, cap, i)
    ensures var (after, r) := Handled(w, cfg, i.sig, i.plan, i.now, ok);
      var longer := w.rows + [OpenedRow(i.sig, i.plan, r, i.now)];
      && after.rows == w.rows
      && (r.success ==> Persisted(after.rows, i.sig, i.plan, r, i.now) == Some(longer) && Ledger(longer, after.book.next))
  {
    var (after, r) := Handled(w, cfg, i.sig, i.plan, i.now, ok);
    NumberedAfter(w, cfg, i.sig, i.plan, i.now, ok);
    AdmittedChangesNoRow(w, cfg, i.sig, i.plan, i.now, ok);
    if r.success { FreshRowFits(w.rows, w.book.next, after.book.next, cfg, i.sig, OpenedRow(i.sig, i.plan, r, i.now)); }
  }

  lemma FlatRowsKeep(w: World, cfg: Config, sig: Signal, now: int, ok: int -> bool, next: int)
    requires Ledger(w.rows, next)
    ensures var (after, r) := FlatHandled(w, cfg, sig, now, ok); Shrinks(w.rows, after.rows) && Ledger(after.rows, next)
  {
    DbPositionKeeps(w.rows, next, cfg, sig, now);
    var (rows, found) := DbPosition(w.rows, cfg, sig, now);
    if found.Some? {
      UpdateShrinks(rows, next, found.value.refSource, AsFlatted(sig), now);
      ShrinksKeepsLedger(rows, Rewritten(rows, found.value.refSource, AsFlatted(sig), now), next, next);
    }
  }

  lemma ExitRowsKeep(w: World, cfg: Config, sig: Signal, plan: Plan, now: int, ok: int -> bool, next: int)
    requires Ledger(w.rows, next)
    ensures var (after, r) := ExitHandled(w, cfg, sig, plan, now, ok);
      && Shrinks(w.rows, after.rows) && Ledger(after.rows, next)
      && (r.success ==> exists i :: 0 <= i < |after.rows| && after.rows[i].refSource == SourceOf(r) && Active(after.rows[i]))
  {
    DbPositionKeeps(w.rows, next, cfg, sig, now);
  }

  lemma ExitKeeps(w: World, cfg: Config, i: Input, ok: int -> bool)
    requires WellFormed(w) && i.sig.strategy in cfg.magics && !IsEntry(i.sig.action)
    ensures var (after, r) := Handled(w, cfg, i.sig, i.plan, i.now, ok);
      && Shrinks(w.rows, after.rows) && Ledger(after.rows, after.book.next)
      && (r.success ==> SafeUpdate(after.rows, SourceOf(r), ExitChange(i.sig, r)))
  {
    NumberedAfter(w, cfg, i.sig, i.plan, i.now, ok);
    var next := Handled(w, cfg, i.sig, i.plan, i.now, ok).0.book.next;
    ShrinksKeepsLedger(w.rows, w.rows, w.book.next, next);
    if i.sig.action.ExitFlat? {
      FlatRowsKeep(w, cfg, i.sig, i.now, ok, next);
    } else {
      ExitRowsKeep(w, cfg, i.sig, i.plan, i.now, ok, next);
    }
  }

  /**
   * In every combination of toggles, processing one signal keeps the ledger well formed, and no write
   * of its own is ever refused by the unique index.
   */
  lemma SignalKeepsLedger(w: World, cfg: Config, cap: int, i: Input, ok: int -> bool)
    requires WellFormed(w) && i.sig.strategy in cfg.magics
    ensures WellFormed(Processed(w, cfg, cap, i, ok))
    ensures !Refused(w, cfg, cap, i) ==>
      var (after, r) := Handled(w, cfg, i.sig, i.plan, i.now, ok);
      r.success ==> Persisted(after.rows, i.sig, i.plan, r, i.now).Some?
  {
    if Refused(w, cfg, cap, i) {
      RefusedKeeps(w, cfg, cap, i);
    } else {
      var (after, r) := Handled(w, cfg, i.sig, i.plan, i.now, ok);
      NumberedAfter(w, cfg, i.sig, i.plan, i.now, ok);
      if IsEntry(i.sig.action) {
        AdmittedInsertSucceeds(w, cfg, cap, i, ok);
        ShrinksKeepsLedger(w.rows, w.rows, w.book.next, after.book.next);
      } else {
        ExitKeeps(w, cfg, i, ok);
        if r.success {
          UpdateShrinks(after.rows, after.book.next, SourceOf(r), ExitChange(i.sig, r), i.now);
          ShrinksKeepsLedger(after.rows, Rewritten(after.rows, SourceOf(r), ExitChange(i.sig, r), i.now), after.book.next, after.book.next);
        }
      }
    }
  }

  lemma NeverRefused(w: World, cfg: Config, cap: int, i: Input, ok: int -> bool)
    requires i.sig.strategy in cfg.magics
    ensures WellFormed(w) && Refused(w, cfg, cap, i) ==> Insert(w.rows, RejectedRow(i.sig, i.now)).Some?
    ensures WellFormed(w) ==> WellFormed(Processed(w, cfg, cap, i, ok))
    ensures WellFormed(w) && !Refused(w, cfg, cap, i) ==>
      var (after, r) := Handled(w, cfg, i.sig, i.plan, i.now, ok);
      r.success ==> Persisted(after.rows, i.sig, i.plan, r, i.now).Some?
  {
    if WellFormed(w) {
      SignalKeepsLedger(w, cfg, cap, i, ok);
      RefusedKeeps(w, cfg, cap, i);
    }
  }

  // ----- an admitted entry replaces nothing that is tracked

  /** An active row whose position `p` is: same ticket, its symbol resolved, its strategy's magic. */
  predicate TracksAt(rows: seq<Row>, cfg: Config, p: Position, k: int)
    requires 0 <= k < |rows|
  {
    && Active(rows[k]) && rows[k].refSource == Ticket(p.ticket)
    && cfg.resolve(rows[k].symbol) == p.symbol
    && rows[k].strategy in cfg.magics && cfg.magics[rows[k].strategy] == p.magic
  }

  predicate IsTracked(rows: seq<Row>, cfg: Config, p: Position) {
    exists k :: 0 <= k < |rows| && TracksAt(rows, cfg, p, k)
  }

  predicate SharesMagic(r: Row, cfg: Config, sig: Signal)
    requires sig.strategy in cfg.magics
  {
    r.strategy in cfg.magics && cfg.magics[r.strategy] == cfg.magics[sig.strategy]
  }

  /** The symbol lookup and the magic map keep the entry's symbol and strategy apart from the open rows' others. */
  ghost predicate ToldApart(rows: seq<Row>, cfg: Config, sig: Signal)
    requires sig.strategy in cfg.magics
  {
    forall k :: 0 <= k < |rows| && Active(rows[k]) ==>
      && (cfg.resolve(rows[k].symbol) == cfg.resolve(sig.symbol) ==> rows[k].symbol == sig.symbol)
      && (cfg.multiStrategy && SharesMagic(rows[k], cfg, sig) ==> rows[k].strategy == sig.strategy)
  }

  /**
   * An entry that passes the guards changes no tracked position and no row: it only adds its own. In the
   * default mode its cleanup may close positions, but none that an open row tracks.
   */
  lemma AdmittedEntryReplacesNothing(w: World, cfg: Config, cap: int, i: Input, ok: int -> bool)
    requires WellFormed(w) && i.sig.strategy in cfg.magics && IsEntry(i.sig.action)
    requires !Refused(w, cfg, cap, i) && ToldApart(w.rows, cfg, i.sig)
    ensures var after := Processed(w, cfg, cap, i, ok);
      && (after.rows == w.rows || exists r :: after.rows == w.rows + [OpenedRow(i.sig, i.plan, r, i.now)])
      && forall p: Position :: p.ticket < w.book.next && IsTracked(w.rows, cfg, p) ==> (p in w.book.live <==> p in after.book.live)
  {
    var sig, b := i.sig, w.book;
    var keep := (p: Position) => p.ticket < b.next && IsTracked(w.rows, cfg, p);
    AdmittedOwnsNothing(w.rows, sig, cfg);
    AdmittedInsertSucceeds(w, cfg, cap, i, ok);
    TrackedIsByIdentity(w.rows, cfg, b.next, keep);
    if UxidScope(cfg, sig).None? { CleanupSparesTracked(w, cfg, sig, keep); }
    EntryHandledKeeps(w, cfg, sig, i.plan, i.now, ok, keep);
    var (after, r) := Handled(w, cfg, sig, i.plan, i.now, ok);
    assert Processed(w, cfg, cap, i, ok).book == after.book;
    assert forall p: Position :: p.ticket < b.next && IsTracked(w.rows, cfg, p) ==> keep(p);
  }

  lemma TrackedIsByIdentity(rows: seq<Row>, cfg: Config, next: int, keep: Position -> bool)
    requires forall p: Position :: keep(p) <==> p.ticket < next && IsTracked(rows, cfg, p)
    ensures ByIdentity(keep)
  {
    forall p, q | SameIdentity(p, q) ensures keep(p) == keep(q) {
      forall k | 0 <= k < |rows| ensures TracksAt(rows, cfg, p, k) == TracksAt(rows, cfg, q, k) { }
      assert IsTracked(rows, cfg, p) == IsTracked(rows, cfg, q);
    }
  }

  lemma CleanupSparesTracked(w: World, cfg: Config, sig: Signal, keep: Position -> bool)
    requires sig.strategy in cfg.magics && !SymbolOpen(w.rows, sig, cfg) && ToldApart(w.rows, cfg, sig)
    requires UxidScope(cfg, sig).None?
    requires forall p: Position :: keep(p) ==> IsTracked(w.rows, cfg, p)
    ensures SparesOwn(w.book, cfg, sig, None, keep)
  {
    AdmittedOwnsNothing(w.rows, sig, cfg);
    forall p | p in w.book.live && IsAddressed(p, cfg.resolve(sig.symbol), Own(cfg, sig), None) ensures !IsTracked(w.rows, cfg, p) {
      forall k | 0 <= k < |w.rows| ensures !TracksAt(w.rows, cfg, p, k) {
      }
    }
  }

  lemma {:induction false} CleanupOnlyCloses(b: Book, cfg: Config, sig: Signal, tickets: seq<Option<Ref>>, ok: int -> bool)
    ensures forall p :: p in StaleClosed(b, cfg, sig, tickets, ok).0.live ==> p in b.live
    decreases |tickets|
  {
    if tickets != [] {
      var symbol, own := cfg.resolve(sig.symbol), Own(cfg, sig);
      var (after, r) := ClosedAll(b, symbol, own, tickets[0], ok);
      forall p ensures p in after.live ==> p in b.live {
        ClosedEachRemoves(b, FilterByTicket(OpenPositions(b.live, symbol, own), tickets[0]), ok, p);
      }
      CleanupOnlyCloses(after, cfg, sig, tickets[1..], ok);
    }
  }

  /** The position the entry was planned as: symbol, magic, volume, price and stop. */
  predicate AsPlanned(p: Position, cfg: Config, i: Input)
    requires i.sig.strategy in cfg.magics
  {
    && i.plan.entry == Some((p.volume, p.priceOpen, p.sl))
    && p.symbol == cfg.resolve(i.sig.symbol) && p.magic == cfg.magics[i.sig.strategy]
  }

  lemma EntryOpensAsPlanned(w: World, cfg: Config, i: Input, ok: int -> bool)
    requires i.sig.strategy in cfg.magics && IsEntry(i.sig.action)
    ensures var (after, r) := Handled(w, cfg, i.sig, i.plan, i.now, ok);
      && (r.success ==> exists p :: p in after.book.live && p.ticket == r.ticket && AsPlanned(p, cfg, i))
      && (!r.success ==> forall p :: p in after.book.live ==> p in w.book.live)
      && (r.success ==> r.source.None?)
  {
    var (after, r) := Handled(w, cfg, i.sig, i.plan, i.now, ok);
    CleanupOnlyCloses(w.book, cfg, i.sig, StaleTickets(cfg, i.sig, OwnRows(w.rows, cfg, i.sig)), ok);
    if r.success {
      var p := after.book.live[|after.book.live| - 1];
      assert p in after.book.live && p.ticket == r.ticket && AsPlanned(p, cfg, i);
    }
  }

  /**
   * An admitted entry ends as one new row tracking one new position, opened as planned, or it adds neither.
   */
  lemma EntryRowMeansPosition(w: World, cfg: Config, cap: int, i: Input, ok: int -> bool)
    requires WellFormed(w) && i.sig.strategy in cfg.magics && IsEntry(i.sig.action) && !Refused(w, cfg, cap, i)
    ensures var after := Processed(w, cfg, cap, i, ok);
      if after.rows != w.rows then
        && |after.rows| == |w.rows| + 1
        && exists p :: p in after.book.live && p !in w.book.live && TracksAt(after.rows, cfg, p, |w.rows|) && AsPlanned(p, cfg, i)
      else forall p :: p in after.book.live ==> p in w.book.live
  {
    var (after, r) := Handled(w, cfg, i.sig, i.plan, i.now, ok);
    EntryOpensAsPlanned(w, cfg, i, ok);
    AdmittedInsertSucceeds(w, cfg, cap, i, ok);
    NumberedAfter(w, cfg, i.sig, i.plan, i.now, ok);
    if r.success {
      var p :| p in after.book.live && p.ticket == r.ticket && AsPlanned(p, cfg, i);
      var rows := w.rows + [OpenedRow(i.sig, i.plan, r, i.now)];
      assert Processed(w, cfg, cap, i, ok).rows == rows && rows[|w.rows|] == OpenedRow(i.sig, i.plan, r, i.now);
      assert TracksAt(rows, cfg, p, |w.rows|);
    }
  }

  // ----- whole runs, with the broker and the settings moving in between

  datatype Event =
    | Signalled(input: Input)
    | Configured(cfg: Config, cap: int)
    | BrokerMoved(live: seq<Position>, next: int)         // fills, stops and manual trades
    | RowClosed(ref: Ref, change: Change, now: int)       // a detected, reconciled or admin close

  datatype Worker = Worker(world: World, cfg: Config, cap: int)

  /** A signal whose strategy has no magic is skipped before anything is done. */
  function Next(s: Worker, e: Event, ok: int -> bool): Worker {
    match e
    case Signalled(i) => if i.sig.strategy !in s.cfg.magics then s else s.(world := Processed(s.world, s.cfg, s.cap, i, ok))
    case Configured(cfg, cap) => s.(cfg := cfg, cap := cap)
    case BrokerMoved(live, next) => s.(world := s.world.(book := Book(live, next)))
    case RowClosed(ref, c, now) => s.(world := s.world.(rows := Applied(s.world.rows, ref, c, now)))
  }

  function Run(s: Worker, events: seq<Event>, ok: int -> bool): Worker
    decreases |events|
  {
    if events == [] then s else Run(Next(s, events[0], ok), events[1..], ok)
  }

  /** One event of a run: a signal without a magic is skipped, a mapped one is processed under the settings of the
      moment, and every other event changes its own part alone. */
  lemma EventOutcome(s: Worker, e: Event, ok: int -> bool)
    ensures Run(s, [e], ok) == Next(s, e, ok)
    ensures e.Signalled? && e.input.sig.strategy !in s.cfg.magics ==> Next(s, e, ok) == s
    ensures e.Signalled? && e.input.sig.strategy in s.cfg.magics ==>
      Next(s, e, ok) == Worker(Processed(s.world, s.cfg, s.cap, e.input, ok), s.cfg, s.cap)
    ensures e.Configured? ==> Next(s, e, ok) == Worker(s.world, e.cfg, e.cap)
    ensures e.BrokerMoved? ==> Next(s, e, ok) == Worker(World(s.world.rows, Book(e.live, e.next)), s.cfg, s.cap)
    ensures e.RowClosed? ==> Next(s, e, ok) == Worker(World(Applied(s.world.rows, e.ref, e.change, e.now), s.world.book), s.cfg, s.cap)
  {
    assert [e][1..] == [] && Run(Next(s, e, ok), [], ok) == Next(s, e, ok);
  }

  lemma {:induction false} RunOn(s: Worker, first: seq<Event>, rest: seq<Event>, ok: int -> bool)
    ensures Run(s, first + rest, ok) == Run(Run(s, first, ok), rest, ok)
    decreases |first|
  {
    if first == [] {
      assert first + rest == rest;
    } else {
      assert (first + rest)[1..] == first[1..] + rest;
      RunOn(Next(s, first[0], ok), first[1..], rest, ok);
    }
  }

  /** The broker numbers its tickets, never backwards, and only closes come from the other jobs. */
  ghost predicate Allowed(s: Worker, e: Event) {
    && (e.BrokerMoved? ==> Numbered(Book(e.live, e.next)) && s.world.book.next <= e.next)
    && (e.RowClosed? ==> !Live(e.change.status))
  }

  ghost predicate AllowedRun(s: Worker, events: seq<Event>, ok: int -> bool)
    decreases |events|
  {
    events != [] ==> Allowed(s, events[0]) && AllowedRun(Next(s, events[0], ok), events[1..], ok)
  }

  lemma StepKeepsLedger(s: Worker, e: Event, ok: int -> bool)
    requires WellFormed(s.world) && Allowed(s, e)
    ensures WellFormed(Next(s, e, ok).world)
  {
    match e
    case Signalled(i) => if i.sig.strategy in s.cfg.magics { SignalKeepsLedger(s.world, s.cfg, s.cap, i, ok); }
    case Configured(_, _) =>
    case BrokerMoved(live, next) => ShrinksKeepsLedger(s.world.rows, s.world.rows, s.world.book.next, next);
    case RowClosed(ref, c, now) =>
      UpdateShrinks(s.world.rows, s.world.book.next, ref, c, now);
      ShrinksKeepsLedger(s.world.rows, Rewritten(s.world.rows, ref, c, now), s.world.book.next, s.world.book.next);
  }

  /** At most one active row per key, over every run and every combination and change of toggles. */
  lemma {:induction false} RunKeepsOneActive(s: Worker, events: seq<Event>, ok: int -> bool)
    requires WellFormed(s.world) && AllowedRun(s, events, ok)
    ensures WellFormed(Run(s, events, ok).world) && OneActive(Run(s, events, ok).world.rows)
    decreases |events|
  {
    if events != [] {
      StepKeepsLedger(s, events[0], ok);
      RunKeepsOneActive(Next(s, events[0], ok), events[1..], ok);
    }
  }

  // ----- the exposure cap

  lemma {:induction false} ShrinksKeepsCount(rows: seq<Row>, after: seq<Row>)
    requires Shrinks(rows, after)
    ensures OpenCount(after) <= OpenCount(rows)
  {
    if rows != [] {
      var n := |rows| - 1;
      assert Shrinks(rows[..n], after[..n]);
      ShrinksKeepsCount(rows[..n], after[..n]);
    }
  }

  lemma CountAppend(rows: seq<Row>, r: Row)
    ensures OpenCount(rows + [r]) == OpenCount(rows) + if Active(r) then 1 else 0
  {
    assert (rows + [r])[..|rows|] == rows;
  }

  /** Only an admitted entry adds to the open rows, by one, and under a positive cap only while below it. */
  lemma SignalKeepsCap(w: World, cfg: Config, cap: int, i: Input, ok: int -> bool)
    requires WellFormed(w) && i.sig.strategy in cfg.magics
    ensures var after := OpenCount(Processed(w, cfg, cap, i, ok).rows);
      || after <= OpenCount(w.rows)
      || (IsEntry(i.sig.action) && after == OpenCount(w.rows) + 1 && (cap > 0 ==> after <= cap))
  {
    if Refused(w, cfg, cap, i) {
      RefusedKeeps(w, cfg, cap, i);
      CountAppend(w.rows, RejectedRow(i.sig, i.now));
    } else {
      var (after, r) := Handled(w, cfg, i.sig, i.plan, i.now, ok);
      if IsEntry(i.sig.action) {
        AdmittedInsertSucceeds(w, cfg, cap, i, ok);
        if r.success { CountAppend(w.rows, OpenedRow(i.sig, i.plan, r, i.now)); }
        if cap > 0 { AdmittedIsBelowCap(w.rows, cap, i.sig, cfg, i.stale); }
      } else {
        ExitKeeps(w, cfg, i, ok);
        ShrinksKeepsCount(w.rows, after.rows);
        if r.success {
          UpdateShrinks(after.rows, after.book.next, SourceOf(r), ExitChange(i.sig, r), i.now);
          ShrinksKeepsCount(after.rows, Rewritten(after.rows, SourceOf(r), ExitChange(i.sig, r), i.now));
        }
      }
    }
  }

  /** Every cap ever in force is positive and at most `most`. */
  ghost predicate CapsWithin(s: Worker, events: seq<Event>, most: int) {
    0 < s.cap <= most && forall k :: 0 <= k < |events| && events[k].Configured? ==> 0 < events[k].cap <= most
  }

  /** The open rows never exceed the larger of what they were at the start and the largest cap in force. */
  lemma {:induction false} RunStaysUnderCap(s: Worker, events: seq<Event>, ok: int -> bool, most: int, bound: int)
    requires WellFormed(s.world) && AllowedRun(s, events, ok) && CapsWithin(s, events, most)
    requires most <= bound && OpenCount(s.world.rows) <= bound
    ensures OpenCount(Run(s, events, ok).world.rows) <= bound
    decreases |events|
  {
    if events != [] {
      var e, after := events[0], Next(s, events[0], ok);
      StepKeepsLedger(s, e, ok);
      if e.Signalled? && e.input.sig.strategy in s.cfg.magics {
        SignalKeepsCap(s.world, s.cfg, s.cap, e.input, ok);
      } else if e.RowClosed? {
        UpdateShrinks(s.world.rows, s.world.book.next, e.ref, e.change, e.now);
        ShrinksKeepsCount(s.world.rows, Rewritten(s.world.rows, e.ref, e.change, e.now));
      }
      assert CapsWithin(after, events[1..], most);
      RunStaysUnderCap(after, events[1..], ok, most, bound);
    }
  }

  /** A failed action's message says so whatever the action; a filled entry's says OPENED; and an exit's is final
      unless it was a TP1 without an emergency close. */
  lemma HeadlineIs(sig: Signal, r: Result)
    ensures CycleStatusOf(sig, r) == Failed <==> !r.success
    ensures r.success && (sig.action == EntryLong || sig.action == EntryShort) ==> CycleStatusOf(sig, r) == Opened
    ensures r.success && !(sig.action == EntryLong || sig.action == EntryShort) ==>
      (Terminal(CycleStatusOf(sig, r)) <==> sig.action != ExitTp1 || r.failsafe == Some(true))
  {
  }

  /** The headline of the message and the status of the row agree after every successful signal. */
  lemma HeadlineMatchesRow(w: World, cfg: Config, cap: int, i: Input, ok: int -> bool)
    requires WellFormed(w) && i.sig.strategy in cfg.magics && !Refused(w, cfg, cap, i)
    requires Handled(w, cfg, i.sig, i.plan, i.now, ok).1.success
    ensures var after, r := Processed(w, cfg, cap, i, ok).rows, Handled(w, cfg, i.sig, i.plan, i.now, ok).1;
      && (forall k :: 0 <= k < |after| && after[k].refSource == SourceOf(r) ==> after[k].status == CycleStatusOf(i.sig, r))
      && (IsEntry(i.sig.action) ==> |after| == |w.rows| + 1 && after[|w.rows|].refSource == SourceOf(r))
  {
    var (after, r) := Handled(w, cfg, i.sig, i.plan, i.now, ok);
    NumberedAfter(w, cfg, i.sig, i.plan, i.now, ok);
    SignalKeepsLedger(w, cfg, cap, i, ok);
    if IsEntry(i.sig.action) {
      AdmittedInsertSucceeds(w, cfg, cap, i, ok);
      assert r.source.None?;
    }
  }
}
