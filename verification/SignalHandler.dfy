/**
 * From one signal to the sequence of table writes and broker calls it stands for. What a signal
 * does is a function of the world it finds; the handler object does it step by step.
 */
module SignalHandler {
  import opened Wrappers
  import opened CycleStatus
  import opened Repository
  import opened Broker
  import opened Guard

  /** The tracked rows and the live positions. */
  datatype World = World(rows: seq<Row>, book: Book)

  /**
   * What sizing and the signal's parameters come to: the entry's volume, price and stop (`None` when
   * no order can be sent), the volume TP1 closes, and whether TP1 moves the stop to breakeven.
   */
  datatype Plan = Plan(entry: Option<(real, real, real)>, tp1: Option<real>, moveSl: bool)

  function Own(cfg: Config, sig: Signal): set<int> {
    if sig.strategy in cfg.magics then {cfg.magics[sig.strategy]} else {}
  }

  /** The worker's positions the signal's strategy holds on its symbol, or the addressed one of them. */
  function LiveOf(b: Book, cfg: Config, sig: Signal, ticket: Option<Ref>): seq<Position> {
    FilterByTicket(OpenPositions(b.live, cfg.resolve(sig.symbol), Own(cfg, sig)), ticket)
  }

  // ----- the table

  function AsForceClosed(): Change { Change(ForcedClosed, None, None, None) }

  function ForceClosedRows(rows: seq<Row>, doomed: seq<Row>, now: int): seq<Row> {
    if doomed == [] then rows
    else Applied(ForceClosedRows(rows, doomed[..|doomed| - 1], now), doomed[|doomed| - 1].refSource, AsForceClosed(), now)
  }

  /** The tracked position of a key; further rows under the key are force-closed. */
  function DbPosition(rows: seq<Row>, cfg: Config, sig: Signal, now: int): (seq<Row>, Option<Row>) {
    var found := OwnRows(rows, cfg, sig);
    if found == [] then (rows, None) else (ForceClosedRows(rows, found[1..], now), Some(found[0]))
  }

  // ----- entries

  predicate OtherHolders(rows: seq<Row>, sig: Signal) {
    exists i :: 0 <= i < |rows| && Matches(OnSymbol(sig.symbol), rows[i]) && rows[i].strategy != sig.strategy
  }

  /** One cleanup per tracked ticket when a uxid is in play, else a single unscoped one. */
  function StaleTickets(cfg: Config, sig: Signal, own: seq<Row>): seq<Option<Ref>> {
    if UxidScope(cfg, sig).None? then [None]
    else seq(|own|, i requires 0 <= i < |own| => Some(own[i].refSource))
  }

  function StaleLive(b: Book, cfg: Config, sig: Signal, tickets: seq<Option<Ref>>): seq<Position> {
    if tickets == [] then []
    else StaleLive(b, cfg, sig, tickets[..|tickets| - 1]) + LiveOf(b, cfg, sig, tickets[|tickets| - 1])
  }

  /** The first failed close aborts the cleanup. */
  function StaleClosed(b: Book, cfg: Config, sig: Signal, tickets: seq<Option<Ref>>, ok: int -> bool): (Book, bool)
    decreases |tickets|
  {
    if tickets == [] then (b, true)
    else
      var (after, r) := ClosedAll(b, cfg.resolve(sig.symbol), Own(cfg, sig), tickets[0], ok);
      if !r.success then (after, false) else StaleClosed(after, cfg, sig, tickets[1..], ok)
  }

  function EntryPlaced(b: Book, cfg: Config, sig: Signal, plan: Plan, ok: int -> bool): (Book, Result)
    requires sig.strategy in cfg.magics
  {
    if plan.entry.None? then (b, Fail())
    else Placed(b, cfg.resolve(sig.symbol), cfg.magics[sig.strategy], plan.entry.value.0, plan.entry.value.1, plan.entry.value.2, ok)
  }

  function EntryHandled(w: World, cfg: Config, sig: Signal, plan: Plan, now: int, ok: int -> bool): (World, Result)
    requires sig.strategy in cfg.magics
  {
    if OtherHolders(w.rows, sig) && !cfg.multiStrategy then (w, Fail())
    else
      var own := OwnRows(w.rows, cfg, sig);
      var tickets := StaleTickets(cfg, sig, own);
      var (cleaned, clear) :=
        if StaleLive(w.book, cfg, sig, tickets) == [] then (w.book, true) else StaleClosed(w.book, cfg, sig, tickets, ok);
      if !clear then (w.(book := cleaned), Fail())
      else
        var (after, r) := EntryPlaced(cleaned, cfg, sig, plan, ok);
        (World(ForceClosedRows(w.rows, own, now), after), r)
  }

  // ----- exits

  /** Partial close, then the stop to breakeven, then a strategy-wide close if that stop cannot be placed. */
  function Tp1Handled(b: Book, cfg: Config, sig: Signal, plan: Plan, ticket: Option<Ref>, ok: int -> bool): (Book, Result) {
    var positions := LiveOf(b, cfg, sig, ticket);
    if positions == [] || plan.tp1.None? then (b, Fail())
    else
      var p, symbol, own := positions[0], cfg.resolve(sig.symbol), Own(cfg, sig);
      var (reduced, r) := PartlyClosed(b, symbol, own, p.ticket, plan.tp1.value, ok);
      if !r.success || !plan.moveSl then (reduced, r)
      else
        var (moved, atBreakeven) := SlMoved(reduced, symbol, own, p.ticket, p.priceOpen, ok);
        if atBreakeven then (moved, r)
        else
          var (after, failsafe) := ClosedAll(moved, symbol, own, None, ok);
          (after, r.(failsafe := Some(failsafe.success)))
  }

  /** The ticket an exit is narrowed to: the tracked one, and only when siblings may exist. */
  function ExitTicket(cfg: Config, sig: Signal, tracked: Row): Option<Ref> {
    if UxidScope(cfg, sig).Some? then Some(tracked.refSource) else None
  }

  function ExitHandled(w: World, cfg: Config, sig: Signal, plan: Plan, now: int, ok: int -> bool): (World, Result) {
    var (rows, found) := DbPosition(w.rows, cfg, sig, now);
    if found.None? then (World(rows, w.book), Fail())
    else
      var ticket := ExitTicket(cfg, sig, found.value);
      if LiveOf(w.book, cfg, sig, ticket) == [] then (World(rows, w.book), Fail())
      else
        var (book, r) :=
          if sig.action.ExitTp1? then Tp1Handled(w.book, cfg, sig, plan, ticket, ok)
          else ClosedAll(w.book, cfg.resolve(sig.symbol), Own(cfg, sig), ticket, ok);
        (World(rows, book), if r.success then r.(source := Some(found.value.refSource)) else r)
  }

  function AsFlatted(sig: Signal): Change { Change(Flatted, None, None, Some(sig.message)) }

  /** The close a FLAT makes: its own, then without a toggle an unscoped retry over every owned magic. */
  function FlatClosed(b: Book, cfg: Config, sig: Signal, ticket: Option<Ref>, ok: int -> bool): (Book, Result) {
    var symbol := cfg.resolve(sig.symbol);
    var (book, r) := ClosedAll(b, symbol, Own(cfg, sig), ticket, ok);
    if r.success || cfg.multiStrategy || cfg.multiPositions then (book, r)
    else ClosedAll(book, symbol, cfg.magics.Values, None, ok)
  }

  function FlatHandled(w: World, cfg: Config, sig: Signal, now: int, ok: int -> bool): (World, Result) {
    var (rows, owned) := DbPosition(w.rows, cfg, sig, now);
    if UxidScope(cfg, sig).Some? && owned.None? then (World(rows, w.book), Fail())
    else
      var ticket := if owned.Some? then ExitTicket(cfg, sig, owned.value) else None;
      var (book, r) := FlatClosed(w.book, cfg, sig, ticket, ok);
      if owned.None? then (World(rows, book), r)
      else if r.success then (World(rows, book), r.(source := Some(owned.value.refSource)))
      else (World(Applied(rows, owned.value.refSource, AsFlatted(sig), now), book), r)
  }

  function Handled(w: World, cfg: Config, sig: Signal, plan: Plan, now: int, ok: int -> bool): (World, Result)
    requires sig.strategy in cfg.magics
  {
    if IsEntry(sig.action) then EntryHandled(w, cfg, sig, plan, now, ok)
    else if sig.action.ExitFlat? then FlatHandled(w, cfg, sig, now, ok)
    else ExitHandled(w, cfg, sig, plan, now, ok)
  }

  // ----- the handler

  class Handler {
    const db: PositionRepository
    const executor: ForexExecutor

    constructor (db: PositionRepository, executor: ForexExecutor)
      ensures this.db == db && this.executor == executor
    {
      this.db, this.executor := db, executor;
    }

    ghost function View(): World
      reads db, executor
    {
      World(db.rows, executor.View())
    }

    method ForceClose(doomed: seq<Row>, now: int)
      modifies db
      ensures db.rows == ForceClosedRows(old(db.rows), doomed, now)
    {
      for i := 0 to |doomed|
        invariant db.rows == ForceClosedRows(old(db.rows), doomed[..i], now)
      {
        assert doomed[..i + 1][..i] == doomed[..i];
        var _ := db.UpdatePositionStatus(doomed[i].refSource, AsForceClosed(), now);
      }
      assert doomed[..|doomed|] == doomed;
    }

    method GetDbPosition(cfg: Config, sig: Signal, now: int) returns (found: Option<Row>)
      modifies db
      ensures (db.rows, found) == DbPosition(old(db.rows), cfg, sig, now)
    {
      var positions := OwnRows(db.rows, cfg, sig);
      if positions == [] { return None; }
      if |positions| > 1 {
        ForceClose(positions[1..], now);
      }
      return Some(positions[0]);
    }

    method ForceCloseStale(cfg: Config, sig: Signal, tickets: seq<Option<Ref>>) returns (clear: bool)
      modifies executor
      ensures (executor.View(), clear) == StaleClosed(old(executor.View()), cfg, sig, tickets, executor.ok)
    {
      for i := 0 to |tickets|
        invariant StaleClosed(executor.View(), cfg, sig, tickets[i..], executor.ok)
          == StaleClosed(old(executor.View()), cfg, sig, tickets, executor.ok)
      {
        assert tickets[i..][0] == tickets[i] && tickets[i..][1..] == tickets[i + 1..];
        var cleanup := executor.CloseAllPositions(cfg.resolve(sig.symbol), Own(cfg, sig), tickets[i]);
        if !cleanup.success { return false; }
      }
      return true;
    }

    method HandleEntry(cfg: Config, sig: Signal, plan: Plan, now: int) returns (r: Result)
      requires sig.strategy in cfg.magics
      modifies db, executor
      ensures (View(), r) == EntryHandled(old(View()), cfg, sig, plan, now, executor.ok)
    {
      if OtherHolders(db.rows, sig) && !cfg.multiStrategy { return Fail(); }
      var own := OwnRows(db.rows, cfg, sig);
      var tickets := StaleTickets(cfg, sig, own);
      var stale: seq<Position> := [];
      for i := 0 to |tickets|
        invariant stale == StaleLive(executor.View(), cfg, sig, tickets[..i])
        invariant View() == old(View())
      {
        assert tickets[..i + 1][..i] == tickets[..i];
        stale := stale + FilterByTicket(OpenPositions(executor.live, cfg.resolve(sig.symbol), Own(cfg, sig)), tickets[i]);
      }
      assert tickets[..|tickets|] == tickets;
      if stale != [] {
        var clear := ForceCloseStale(cfg, sig, tickets);
        if !clear { return Fail(); }
      }
      ForceClose(own, now);
      if plan.entry.None? { return Fail(); }
      var (volume, price, sl) := plan.entry.value;
      r := executor.PlaceOrder(cfg.resolve(sig.symbol), cfg.magics[sig.strategy], volume, price, sl);
    }

    method HandleTp1(cfg: Config, sig: Signal, plan: Plan, ticket: Option<Ref>) returns (r: Result)
      modifies executor
      ensures (executor.View(), r) == Tp1Handled(old(executor.View()), cfg, sig, plan, ticket, executor.ok)
    {
      var symbol, own := cfg.resolve(sig.symbol), Own(cfg, sig);
      var positions := FilterByTicket(OpenPositions(executor.live, symbol, own), ticket);
      if positions == [] || plan.tp1.None? { return Fail(); }
      var p := positions[0];
      r := executor.PartialClosePosition(symbol, own, p.ticket, plan.tp1.value);
      if !r.success || !plan.moveSl { return; }
      var moved := executor.UpdatePositionSl(symbol, own, p.ticket, p.priceOpen);
      if !moved {
        var failsafe := executor.CloseAllPositions(symbol, own, None);
        r := r.(failsafe := Some(failsafe.success));
      }
    }

    method ExecuteExit(cfg: Config, sig: Signal, plan: Plan, now: int) returns (r: Result)
      modifies db, executor
      ensures (View(), r) == ExitHandled(old(View()), cfg, sig, plan, now, executor.ok)
    {
      var found := GetDbPosition(cfg, sig, now);
      if found.None? { return Fail(); }
      var ticket := ExitTicket(cfg, sig, found.value);
      if FilterByTicket(OpenPositions(executor.live, cfg.resolve(sig.symbol), Own(cfg, sig)), ticket) == [] { return Fail(); }
      if sig.action.ExitTp1? {
        r := HandleTp1(cfg, sig, plan, ticket);
      } else {
        r := executor.CloseAllPositions(cfg.resolve(sig.symbol), Own(cfg, sig), ticket);
      }
      if r.success { r := r.(source := Some(found.value.refSource)); }
    }

    method HandleFlat(cfg: Config, sig: Signal, now: int) returns (r: Result)
      modifies db, executor
      ensures (View(), r) == FlatHandled(old(View()), cfg, sig, now, executor.ok)
    {
      var owned := GetDbPosition(cfg, sig, now);
      if UxidScope(cfg, sig).Some? && owned.None? { return Fail(); }
      var ticket := if owned.Some? then ExitTicket(cfg, sig, owned.value) else None;
      r := executor.CloseAllPositions(cfg.resolve(sig.symbol), Own(cfg, sig), ticket);
      if !r.success && !cfg.multiStrategy && !cfg.multiPositions {
        r := executor.CloseAllPositions(cfg.resolve(sig.symbol), cfg.magics.Values, None);
      }
      if owned.Some? {
        if r.success {
          r := r.(source := Some(owned.value.refSource));
        } else {
          var _ := db.UpdatePositionStatus(owned.value.refSource, AsFlatted(sig), now);
        }
      }
    }

    method Handle(cfg: Config, sig: Signal, plan: Plan, now: int) returns (r: Result)
      requires sig.strategy in cfg.magics
      modifies db, executor
      ensures (View(), r) == Handled(old(View()), cfg, sig, plan, now, executor.ok)
    {
      if IsEntry(sig.action) {
        r := HandleEntry(cfg, sig, plan, now);
      } else if sig.action.ExitFlat? {
        r := HandleFlat(cfg, sig, now);
      } else {
        r := ExecuteExit(cfg, sig, plan, now);
      }
    }
  }
}
