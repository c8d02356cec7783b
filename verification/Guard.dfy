/** Signals, the toggles that widen the position key, and the guards an entry must pass. */
module Guard {
  import opened Wrappers
  import opened CycleStatus
  import opened Repository

  datatype Action = EntryLong | EntryShort | ExitTp1 | ExitTp2 | ExitSl | ExitRSl | ExitFlat

  /** `tag` stands in for a missing signal id on the row of a rejected entry. */
  datatype Signal = Signal(strategy: string, symbol: string, uxid: Option<string>, action: Action, id: Option<string>, tag: string, message: string)

  predicate IsEntry(a: Action) { a.EntryLong? || a.EntryShort? }

  /** The FOREX market's toggles, its symbol lookup and the broker's strategy-to-magic map. */
  datatype Config = Config(multiStrategy: bool, multiPositions: bool, resolve: string -> string, magics: map<string, int>)

  // ----- one open order per symbol

  /** An open row that keeps the entry out. */
  predicate Blocks(r: Row, sig: Signal, cfg: Config) {
    if r.strategy != sig.strategy then !cfg.multiStrategy
    else !(cfg.multiPositions && Given(sig.uxid).Some? && r.uxid != sig.uxid)
  }

  predicate SymbolOpen(rows: seq<Row>, sig: Signal, cfg: Config) {
    exists i :: 0 <= i < |rows| && Matches(OnSymbol(sig.symbol), rows[i]) && Blocks(rows[i], sig, cfg)
  }

  method SymbolOpenRejection(rows: seq<Row>, sig: Signal, cfg: Config) returns (rejected: bool)
    ensures rejected <==> SymbolOpen(rows, sig, cfg)
  {
    var open := Open(rows, OnSymbol(sig.symbol));
    var matchUxid := cfg.multiPositions && Given(sig.uxid).Some?;
    var blocking: seq<Row> := [];
    for i := 0 to |open|
      invariant blocking != [] <==> exists k :: 0 <= k < i && Blocks(open[k], sig, cfg)
    {
      var held := open[i];
      if held.strategy != sig.strategy {
        if !cfg.multiStrategy { blocking := blocking + [held]; }
      } else if !(matchUxid && held.uxid != sig.uxid) {
        blocking := blocking + [held];
      }
    }
    rejected := blocking != [];
    SymbolOpenIff(rows, open, sig, cfg);
  }

  /** What the loop below the query looks for, in terms of the whole table. */
  lemma SymbolOpenIff(rows: seq<Row>, open: seq<Row>, sig: Signal, cfg: Config)
    requires open == Open(rows, OnSymbol(sig.symbol))
    ensures SymbolOpen(rows, sig, cfg) <==> exists k :: 0 <= k < |open| && Blocks(open[k], sig, cfg)
  {
    OpenIff(rows, OnSymbol(sig.symbol));
    if SymbolOpen(rows, sig, cfg) {
      var i :| 0 <= i < |rows| && Matches(OnSymbol(sig.symbol), rows[i]) && Blocks(rows[i], sig, cfg);
      assert rows[i] in open;
      var k :| 0 <= k < |open| && open[k] == rows[i];
      assert Blocks(open[k], sig, cfg);
    } else {
      forall k | 0 <= k < |open| ensures !Blocks(open[k], sig, cfg) {
        assert open[k] in open;
        var i :| 0 <= i < |rows| && rows[i] == open[k];
      }
    }
  }

  // ----- the exposure cap

  function OpenCount(rows: seq<Row>): nat { |Open(rows, EveryOpen())| }

  predicate AlreadyHeld(rows: seq<Row>, sig: Signal, cfg: Config) {
    exists i :: 0 <= i < |rows| && Active(rows[i]) && rows[i].strategy == sig.strategy && rows[i].symbol == sig.symbol
      && (cfg.multiPositions ==> rows[i].uxid == sig.uxid)
  }

  /** A cap of zero or less is no limit. */
  predicate MaxOrdersReached(rows: seq<Row>, cap: int, sig: Signal, cfg: Config) {
    cap > 0 && !AlreadyHeld(rows, sig, cfg) && OpenCount(rows) >= cap
  }

  /** The exemption for a position already held never applies to an entry the symbol guard let through. */
  lemma HeldMeansBlocked(rows: seq<Row>, sig: Signal, cfg: Config)
    requires AlreadyHeld(rows, sig, cfg)
    ensures SymbolOpen(rows, sig, cfg)
  {
    var i :| 0 <= i < |rows| && Active(rows[i]) && rows[i].strategy == sig.strategy && rows[i].symbol == sig.symbol
      && (cfg.multiPositions ==> rows[i].uxid == sig.uxid);
    assert Matches(OnSymbol(sig.symbol), rows[i]) && Blocks(rows[i], sig, cfg);
  }

  /** `stale` is the verdict of the staleness guard, which runs last. */
  predicate EntryRejected(rows: seq<Row>, cap: int, sig: Signal, cfg: Config, stale: bool) {
    SymbolOpen(rows, sig, cfg) || MaxOrdersReached(rows, cap, sig, cfg) || stale
  }

  /** An admitted entry saw strictly fewer open rows than a positive cap. */
  lemma AdmittedIsBelowCap(rows: seq<Row>, cap: int, sig: Signal, cfg: Config, stale: bool)
    requires !EntryRejected(rows, cap, sig, cfg, stale) && cap > 0
    ensures OpenCount(rows) < cap
  {
    if AlreadyHeld(rows, sig, cfg) { HeldMeansBlocked(rows, sig, cfg); }
  }

  /** The uxid a signal's rows are addressed by, when the market tells positions apart by it. */
  function UxidScope(cfg: Config, sig: Signal): Option<string> {
    if cfg.multiPositions then Given(sig.uxid) else None
  }

  function OwnRows(rows: seq<Row>, cfg: Config, sig: Signal): seq<Row> {
    Open(rows, Tracked(sig.strategy, sig.symbol, UxidScope(cfg, sig)))
  }

  /** An entry the symbol guard lets through finds no row open under its own key, nor under a key it would share. */
  lemma AdmittedOwnsNothing(rows: seq<Row>, sig: Signal, cfg: Config)
    requires !SymbolOpen(rows, sig, cfg)
    ensures OwnRows(rows, cfg, sig) == []
    ensures forall i :: 0 <= i < |rows| && Active(rows[i]) && rows[i].symbol == sig.symbol ==>
      if rows[i].strategy != sig.strategy then cfg.multiStrategy
      else cfg.multiPositions && Given(sig.uxid).Some? && rows[i].uxid != sig.uxid
  {
    forall i | 0 <= i < |rows| && Active(rows[i]) && rows[i].symbol == sig.symbol
      ensures !Blocks(rows[i], sig, cfg)
    {
      assert Matches(OnSymbol(sig.symbol), rows[i]);
    }
    NothingOpenIff(rows, Tracked(sig.strategy, sig.symbol, UxidScope(cfg, sig)));
  }
}
