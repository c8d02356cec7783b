/**
 * Importing positions that were opened outside the worker. The reconciler decides from the positions and
 * rows it read at the start of its scan, while other threads go on writing; imports come from it alone.
 */
module ManualImport {
  import opened Wrappers
  import opened CycleStatus
  import opened Repository
  import opened Keys
  import Cdc
  import Reconcile

  predicate ActiveManual(r: Row) { Active(r) && r.strategy == Manual }

  ghost predicate OneManualPerSymbol(rows: seq<Row>, resolve: string -> string) {
    forall i, j :: 0 <= i < j < |rows| && ActiveManual(rows[i]) && ActiveManual(rows[j]) ==>
      resolve(rows[i].symbol) != resolve(rows[j].symbol)
  }

  /** `live` and `snapshot` are what the current scan read, `imported` the symbols it has imported so far. */
  datatype State = State(rows: seq<Row>, live: seq<ExchangePosition>, snapshot: seq<Row>, imported: set<string>)

  datatype Step =
    | Others(write: Cdc.Write)
    | Read(live: seq<ExchangePosition>)
    | Import(position: ExchangePosition, id: Ref, now: int)

  /** What the reconciler takes for untracked, from what it read. */
  function Candidates(s: State, resolve: string -> string): set<string> {
    Reconcile.UntrackedIds(CryptoRows(s.snapshot, resolve), CryptoPositions(s.live))
  }

  /** The handed positions are candidates of the scan, one per symbol. */
  predicate Handed(s: State, p: ExchangePosition, resolve: string -> string) {
    p in s.live && p.symbol in Candidates(s, resolve) && p.symbol !in s.imported
  }

  function Next(s: State, step: Step, resolve: string -> string): State {
    match step
    case Others(w) => s.(rows := Cdc.Written(s.rows, w))
    case Read(live) => State(s.rows, live, s.rows, {})
    case Import(p, id, now) =>
      if !Handed(s, p, resolve) then s
      else s.(rows := Insert(s.rows, ManualRow(p, id, now)).GetOr(s.rows), imported := s.imported + {p.symbol})
  }

  function Run(s: State, steps: seq<Step>, resolve: string -> string): State
    decreases |steps|
  {
    if steps == [] then s else Run(Next(s, steps[0], resolve), steps[1..], resolve)
  }

  /** Other threads open no manual row and reopen none, and live symbols resolve to themselves. */
  ghost predicate Allowed(s: State, step: Step, resolve: string -> string) {
    match step
    case Others(w) => OthersAllowed(s.rows, w)
    case Read(live) => forall p :: p in live ==> resolve(p.symbol) == p.symbol
    case Import(_, _, _) => true
  }

  ghost predicate OthersAllowed(rows: seq<Row>, w: Cdc.Write) {
    match w
    case Inserting(r) => r.strategy != Manual
    case Updating(ref, c, _) =>
      Live(c.status) ==> forall i :: 0 <= i < |rows| && rows[i].refSource == ref && rows[i].strategy == Manual ==> Active(rows[i])
  }

  ghost predicate AllowedRun(s: State, steps: seq<Step>, resolve: string -> string)
    decreases |steps|
  {
    steps != [] ==> Allowed(s, steps[0], resolve) && AllowedRun(Next(s, steps[0], resolve), steps[1..], resolve)
  }

  // ----- what every interleaving keeps

  /** An active manual row was open when the scan read the table, or the scan imported it. */
  ghost predicate Known(s: State, r: Row, resolve: string -> string) {
    || resolve(r.symbol) in s.imported
    || exists k :: 0 <= k < |s.snapshot| && Active(s.snapshot[k]) && resolve(s.snapshot[k].symbol) == resolve(r.symbol)
  }

  ghost predicate Inv(s: State, resolve: string -> string) {
    && OneManualPerSymbol(s.rows, resolve)
    && (forall i :: 0 <= i < |s.rows| && ActiveManual(s.rows[i]) ==> Known(s, s.rows[i], resolve))
    && (forall p :: p in s.live ==> resolve(p.symbol) == p.symbol)
  }

  lemma HandedIsUnknown(s: State, p: ExchangePosition, resolve: string -> string)
    requires Inv(s, resolve) && Handed(s, p, resolve)
    ensures forall i :: 0 <= i < |s.rows| && ActiveManual(s.rows[i]) ==> resolve(s.rows[i].symbol) != p.symbol
  {
    UntrackedIff(s.snapshot, s.live, p, resolve);
    forall i | 0 <= i < |s.rows| && ActiveManual(s.rows[i]) ensures resolve(s.rows[i].symbol) != p.symbol {
      assert Known(s, s.rows[i], resolve);
    }
  }

  /** A handed position is stored, never refused by the index, and its row is the only one for its symbol. */
  lemma ImportIsStored(s: State, p: ExchangePosition, id: Ref, now: int, resolve: string -> string)
    requires Inv(s, resolve) && Handed(s, p, resolve)
    ensures Insert(s.rows, ManualRow(p, id, now)) == Some(s.rows + [ManualRow(p, id, now)])
    ensures OneManualPerSymbol(s.rows + [ManualRow(p, id, now)], resolve)
  {
    var r := ManualRow(p, id, now);
    HandedIsUnknown(s, p, resolve);
    forall i | 0 <= i < |s.rows| && Active(s.rows[i]) ensures KeyOf(s.rows[i]) != KeyOf(r) {
      if KeyOf(s.rows[i]) == KeyOf(r) { assert ActiveManual(s.rows[i]); }
    }
  }

  lemma ImportKeeps(s: State, p: ExchangePosition, id: Ref, now: int, resolve: string -> string)
    requires Inv(s, resolve) && Handed(s, p, resolve)
    ensures Inv(Next(s, Import(p, id, now), resolve), resolve)
  {
    var after := Next(s, Import(p, id, now), resolve);
    ImportIsStored(s, p, id, now, resolve);
    forall i | 0 <= i < |after.rows| && ActiveManual(after.rows[i]) ensures Known(after, after.rows[i], resolve) {
      if i < |s.rows| { assert after.rows[i] == s.rows[i] && Known(s, s.rows[i], resolve); }
    }
  }

  /** No other thread makes a manual row active, or changes what one is. */
  lemma OthersKeepManual(rows: seq<Row>, w: Cdc.Write)
    requires OthersAllowed(rows, w)
    ensures var after := Cdc.Written(rows, w);
      && |rows| <= |after|
      && (forall i :: |rows| <= i < |after| ==> !ActiveManual(after[i]))
      && (forall i :: 0 <= i < |rows| && ActiveManual(after[i]) ==> ActiveManual(rows[i]) && after[i].symbol == rows[i].symbol)
  {
  }

  lemma OthersKeep(s: State, w: Cdc.Write, resolve: string -> string)
    requires Inv(s, resolve) && OthersAllowed(s.rows, w)
    ensures Inv(Next(s, Others(w), resolve), resolve)
  {
    var after := Next(s, Others(w), resolve);
    OthersKeepManual(s.rows, w);
    forall i | 0 <= i < |after.rows| && ActiveManual(after.rows[i]) ensures Known(after, after.rows[i], resolve) {
      assert Known(s, s.rows[i], resolve);
    }
  }

  lemma ReadKeeps(s: State, live: seq<ExchangePosition>, resolve: string -> string)
    requires Inv(s, resolve) && forall p :: p in live ==> resolve(p.symbol) == p.symbol
    ensures Inv(Next(s, Read(live), resolve), resolve)
  {
  }

  lemma StepKeeps(s: State, step: Step, resolve: string -> string)
    requires Inv(s, resolve) && Allowed(s, step, resolve)
    ensures Inv(Next(s, step, resolve), resolve)
  {
    match step
    case Others(w) => OthersKeep(s, w, resolve);
    case Read(live) => ReadKeeps(s, live, resolve);
    case Import(p, id, now) => if Handed(s, p, resolve) { ImportKeeps(s, p, id, now, resolve); }
  }

  /**
   * Over every run of scans, imports and other threads' writes, at most one active MANUAL row exists per
   * resolved symbol, and every position the reconciler hands over is stored.
   */
  lemma {:induction false} RunKeepsOneManual(s: State, steps: seq<Step>, resolve: string -> string)
    requires Inv(s, resolve) && AllowedRun(s, steps, resolve)
    ensures Inv(Run(s, steps, resolve), resolve) && OneManualPerSymbol(Run(s, steps, resolve).rows, resolve)
    decreases |steps|
  {
    if steps != [] {
      StepKeeps(s, steps[0], resolve);
      RunKeepsOneManual(Next(s, steps[0], resolve), steps[1..], resolve);
    }
  }

  lemma EmptyTableRun(steps: seq<Step>, resolve: string -> string)
    requires AllowedRun(State([], [], [], {}), steps, resolve)
    ensures OneManualPerSymbol(Run(State([], [], [], {}), steps, resolve).rows, resolve)
  {
    RunKeepsOneManual(State([], [], [], {}), steps, resolve);
  }

  /** What the reconciler's own run hands over at a scan is a candidate of that scan. */
  lemma ReconcilerHandsCandidates(scans: seq<Reconcile.Scan>, i: nat, s: State, p: ExchangePosition, resolve: string -> string)
    requires i < |scans| && scans[i] == Reconcile.Looked(CryptoPositions(s.live), CryptoRows(s.snapshot, resolve))
    requires p in s.live && p.symbol !in s.imported && p.symbol in Reconcile.Imported(scans, i)
    ensures Handed(s, p, resolve)
  {
  }

  /** What each step does to the table: an import adds its one row, anything not handed over adds none. */
  lemma StepOutcome(s: State, step: Step, resolve: string -> string)
    requires Inv(s, resolve)
    ensures step.Others? ==> Next(s, step, resolve).rows == Cdc.Written(s.rows, step.write)
    ensures step.Import? && !Handed(s, step.position, resolve) ==> Next(s, step, resolve).rows == s.rows
    ensures step.Import? && Handed(s, step.position, resolve) ==>
      var p := step.position;
      Next(s, step, resolve).rows == s.rows + [Row(
        step.id, step.id, "MANUAL", p.symbol, None, p.volume, None, Opened, None, Pending, None, step.now)]
    ensures Run(s, [step], resolve) == Next(s, step, resolve)
  {
    assert [step][1..] == [];
    assert Run(Next(s, step, resolve), [], resolve) == Next(s, step, resolve);
    if step.Import? && Handed(s, step.position, resolve) { ImportIsStored(s, step.position, step.id, step.now, resolve); }
  }

  lemma {:induction false} RunOn(s: State, first: seq<Step>, rest: seq<Step>, resolve: string -> string)
    ensures Run(s, first + rest, resolve) == Run(Run(s, first, resolve), rest, resolve)
    decreases |first|
  {
    if first == [] {
      assert first + rest == rest;
    } else {
      assert (first + rest)[1..] == first[1..] + rest;
      RunOn(Next(s, first[0], resolve), first[1..], rest, resolve);
    }
  }

  // ----- the import handler, other threads writing in between

  /** The rows after the first `n` positions were imported, each after some writes of others. */
  function Imported(rows: seq<Row>, handed: seq<ExchangePosition>, ids: seq<Ref>, now: int, others: nat -> seq<Cdc.Write>, n: nat): seq<Row>
    requires n <= |handed| == |ids|
  {
    if n == 0 then rows
    else
      var before := Cdc.AllWritten(Imported(rows, handed, ids, now, others, n - 1), others(n - 1));
      Insert(before, ManualRow(handed[n - 1], ids[n - 1], now)).GetOr(before)
  }

  /** Every one of the writes is allowed where it lands. */
  ghost predicate AllAllowed(rows: seq<Row>, writes: seq<Cdc.Write>) {
    writes != [] ==>
      var n := |writes| - 1;
      AllAllowed(rows, writes[..n]) && OthersAllowed(Cdc.AllWritten(rows, writes[..n]), writes[n])
  }

  lemma {:induction false} OthersKeepAll(s: State, writes: seq<Cdc.Write>, resolve: string -> string)
    requires Inv(s, resolve) && AllAllowed(s.rows, writes)
    ensures Inv(s.(rows := Cdc.AllWritten(s.rows, writes)), resolve)
  {
    if writes != [] {
      var n := |writes| - 1;
      OthersKeepAll(s, writes[..n], resolve);
      OthersKeep(s.(rows := Cdc.AllWritten(s.rows, writes[..n])), writes[n], resolve);
    }
  }

  /** The state after other threads wrote and one position was imported. */
  function AfterImport(s: State, p: ExchangePosition, id: Ref, now: int, writes: seq<Cdc.Write>): State {
    s.(rows := Cdc.AllWritten(s.rows, writes) + [ManualRow(p, id, now)], imported := s.imported + {p.symbol})
  }

  lemma ImportRound(s: State, p: ExchangePosition, id: Ref, now: int, writes: seq<Cdc.Write>, resolve: string -> string)
    requires Inv(s, resolve) && Handed(s, p, resolve) && AllAllowed(s.rows, writes)
    ensures Insert(Cdc.AllWritten(s.rows, writes), ManualRow(p, id, now)) == Some(AfterImport(s, p, id, now, writes).rows)
    ensures Inv(AfterImport(s, p, id, now, writes), resolve)
  {
    var before := s.(rows := Cdc.AllWritten(s.rows, writes));
    OthersKeepAll(s, writes, resolve);
    ImportIsStored(before, p, id, now, resolve);
    ImportKeeps(before, p, id, now, resolve);
  }

  ghost predicate AllHanded(s: State, handed: seq<ExchangePosition>, resolve: string -> string) {
    && (forall k :: 0 <= k < |handed| ==> Handed(s, handed[k], resolve))
    && (forall j, k :: 0 <= j < k < |handed| ==> handed[j].symbol != handed[k].symbol)
  }

  lemma RestIsHanded(s: State, handed: seq<ExchangePosition>, id: Ref, now: int, writes: seq<Cdc.Write>, resolve: string -> string)
    requires handed != [] && AllHanded(s, handed, resolve)
    ensures AllHanded(AfterImport(s, handed[0], id, now, writes), handed[1..], resolve)
  {
    var after := AfterImport(s, handed[0], id, now, writes);
    assert Candidates(after, resolve) == Candidates(s, resolve);
    forall k | 0 <= k < |handed[1..]| ensures Handed(after, handed[1..][k], resolve) {
      assert Handed(s, handed[k + 1], resolve);
    }
  }

  /** The table holds the row this position was imported as, whatever became of it since. */
  ghost predicate Stored(rows: seq<Row>, p: ExchangePosition, id: Ref) {
    exists i :: 0 <= i < |rows| && ImportedAs(rows[i], p, id)
  }

  predicate ImportedAs(r: Row, p: ExchangePosition, id: Ref) {
    r.refSource == id && r.strategy == "MANUAL" && r.symbol == p.symbol && r.volume == p.volume && r.uxid == None
  }

  lemma {:induction false} StoredStays(rows: seq<Row>, writes: seq<Cdc.Write>, p: ExchangePosition, id: Ref)
    requires Stored(rows, p, id)
    ensures Stored(Cdc.AllWritten(rows, writes), p, id)
  {
    if writes != [] {
      var before := Cdc.AllWritten(rows, writes[..|writes| - 1]);
      StoredStays(rows, writes[..|writes| - 1], p, id);
      var i :| 0 <= i < |before| && ImportedAs(before[i], p, id);
      assert ImportedAs(Cdc.Written(before, writes[|writes| - 1])[i], p, id);
    }
  }

  lemma StoredAfterRound(rows: seq<Row>, writes: seq<Cdc.Write>, p: ExchangePosition, id: Ref, now: int)
    ensures var after := Cdc.AllWritten(rows, writes) + [ManualRow(p, id, now)];
      && Stored(after, p, id)
      && forall q, other :: Stored(rows, q, other) ==> Stored(after, q, other)
  {
    var before := Cdc.AllWritten(rows, writes);
    var after := before + [ManualRow(p, id, now)];
    assert ImportedAs(after[|before|], p, id);
    forall q, other | Stored(rows, q, other) ensures Stored(after, q, other) {
      StoredStays(rows, writes, q, other);
      var i :| 0 <= i < |before| && ImportedAs(before[i], q, other);
      assert after[i] == before[i];
    }
  }

  class CryptoImporter {
    const db: PositionRepository
    const resolve: string -> string

    constructor (db: PositionRepository, resolve: string -> string)
      ensures this.db == db && this.resolve == resolve
    {
      this.db, this.resolve := db, resolve;
    }

    /** Imports the handed positions under fresh ids; `scan` is what the reconciler had read. */
    method ImportManual(handed: seq<ExchangePosition>, ids: seq<Ref>, now: int, others: nat -> seq<Cdc.Write>, ghost scan: State)
      returns (allStored: bool)
      requires |ids| == |handed| && scan.rows == db.rows && Inv(scan, resolve) && AllHanded(scan, handed, resolve)
      requires forall n :: 0 <= n < |handed| ==> AllAllowed(Imported(db.rows, handed, ids, now, others, n), others(n))
      modifies db
      ensures allStored && OneManualPerSymbol(db.rows, resolve)
      ensures db.rows == Imported(old(db.rows), handed, ids, now, others, |handed|)
      ensures forall k :: 0 <= k < |handed| ==> Stored(db.rows, handed[k], ids[k])
    {
      allStored := true;
      ghost var s := scan;
      for n := 0 to |handed|
        invariant allStored && s.rows == db.rows && Inv(s, resolve) && AllHanded(s, handed[n..], resolve)
        invariant db.rows == Imported(old(db.rows), handed, ids, now, others, n)
        invariant forall k :: 0 <= k < n ==> Stored(db.rows, handed[k], ids[k])
      {
        assert handed[n..][0] == handed[n] && handed[n..][1..] == handed[n + 1..];
        ImportRound(s, handed[n], ids[n], now, others(n), resolve);
        RestIsHanded(s, handed[n..], ids[n], now, others(n), resolve);
        StoredAfterRound(s.rows, others(n), handed[n], ids[n], now);
        Cdc.Interleave(db, others(n));
        var stored := db.InsertPosition(ManualRow(handed[n], ids[n], now));
        allStored := allStored && stored;
        s := AfterImport(s, handed[n], ids[n], now, others(n));
      }
    }

    /** A confirmed missed close: every row with the reference is closed. */
    method OnMissedClose(ref: Ref, price: Option<real>, now: int) returns (stored: bool)
      modifies db
      ensures stored && db.rows == Rewritten(old(db.rows), ref, Change(TerminalClosed, None, price, None), now)
      ensures forall i :: 0 <= i < |db.rows| && db.rows[i].refSource == ref ==> !Active(db.rows[i])
    {
      stored := db.UpdatePositionStatus(ref, Change(TerminalClosed, None, price, None), now);
    }
  }
}
