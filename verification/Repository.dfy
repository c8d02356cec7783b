/**
 * The `positions` and `position_logs` tables. A table is the sequence of its rows in insertion
 * order, which is the order every query returns them in and, because no row is ever deleted,
 * makes a row's index its primary key. Reads are total: a failing SELECT is not modelled.
 */
module Repository {
  import opened Wrappers
  import opened CycleStatus

  /** A stored reference: the text of a broker ticket, or any other tag such as a signal id. */
  datatype Ref = Ticket(number: int) | Tag(text: string)

  datatype Sync = Pending | Published

  datatype Row = Row(
    refSource: Ref, refId: Ref, strategy: string, symbol: string, uxid: Option<string>,
    volume: real, closedPrice: Option<real>, status: Status, message: Option<string>,
    sync: Sync, syncTime: Option<int>, updatedAt: int)

  /** OPENED and TP1 rows are the ones tracked as live. */
  predicate Active(r: Row) { Live(r.status) }

  datatype Key = Key(strategy: string, symbol: string, uxid: string)

  /** The indexed expression: a row without a uxid is filed under the empty one. */
  function KeyOf(r: Row): Key { Key(r.strategy, r.symbol, r.uxid.GetOr("")) }

  /** The partial unique index: at most one active row per key. */
  ghost predicate OneActive(rows: seq<Row>) {
    forall i, j :: 0 <= i < j < |rows| && Active(rows[i]) && Active(rows[j]) ==> KeyOf(rows[i]) != KeyOf(rows[j])
  }

  // ----- writes

  predicate Holds(rows: seq<Row>, key: Key) {
    exists i :: 0 <= i < |rows| && Active(rows[i]) && KeyOf(rows[i]) == key
  }

  /** `None` when the unique index refuses the row. */
  function Insert(rows: seq<Row>, r: Row): Option<seq<Row>> {
    if Active(r) && Holds(rows, KeyOf(r)) then None else Some(rows + [r])
  }

  /** The columns an UPDATE sets; `None` keeps the stored value, as COALESCE does. */
  datatype Change = Change(status: Status, refId: Option<Ref>, closedPrice: Option<real>, message: Option<string>)

  function Changed(r: Row, c: Change, now: int): Row {
    r.(status := c.status,
       refId := c.refId.GetOr(r.refId),
       closedPrice := if c.closedPrice.Some? then c.closedPrice else r.closedPrice,
       message := if c.message.Some? then c.message else r.message,
       sync := Pending,
       updatedAt := now)
  }

  /** Every row carrying the reference is rewritten, whatever its status was. */
  function Rewritten(rows: seq<Row>, ref: Ref, c: Change, now: int): seq<Row> {
    seq(|rows|, i requires 0 <= i < |rows| => if rows[i].refSource == ref then Changed(rows[i], c, now) else rows[i])
  }

  /** Rows `i` and `j` would both be active under one key once `ref` is rewritten to an active status. */
  predicate Clash(rows: seq<Row>, ref: Ref, i: int, j: int)
    requires 0 <= i < |rows| && 0 <= j < |rows|
  {
    i != j && rows[i].refSource == ref && (rows[j].refSource == ref || Active(rows[j])) && KeyOf(rows[i]) == KeyOf(rows[j])
  }

  predicate Clashes(rows: seq<Row>, ref: Ref) {
    exists i, j :: 0 <= i < |rows| && 0 <= j < |rows| && Clash(rows, ref, i, j)
  }

  function Update(rows: seq<Row>, ref: Ref, c: Change, now: int): Option<seq<Row>> {
    if Live(c.status) && Clashes(rows, ref) then None else Some(Rewritten(rows, ref, c, now))
  }

  /** A write the index refuses raises and leaves the table as it was. */
  function Applied(rows: seq<Row>, ref: Ref, c: Change, now: int): seq<Row> {
    Update(rows, ref, c, now).GetOr(rows)
  }

  /** The row is published unless it was written again since the stamp was read. */
  function MarkSynced(rows: seq<Row>, id: nat, stamp: int, now: int): seq<Row> {
    if id < |rows| && rows[id].updatedAt == stamp && rows[id].sync.Pending?
    then rows[id := rows[id].(sync := Published, syncTime := Some(now))]
    else rows
  }

  // ----- reads

  datatype Query = Query(strategy: Option<string>, symbol: Option<string>, uxid: Option<string>, refId: Option<Ref>)

  predicate Matches(q: Query, r: Row) {
    && Active(r)
    && (q.strategy.Some? ==> q.strategy == Some(r.strategy))
    && (q.symbol.Some? ==> q.symbol == Some(r.symbol))
    && (q.uxid.Some? ==> q.uxid == r.uxid)
    && (q.refId.Some? ==> q.refId == Some(r.refId))
  }

  /** The active rows a query selects, oldest first. */
  function Open(rows: seq<Row>, q: Query): seq<Row> {
    if rows == [] then []
    else
      var last := rows[|rows| - 1];
      Open(rows[..|rows| - 1], q) + (if Matches(q, last) then [last] else [])
  }

  /** An empty string passed as a filter is no filter. */
  function Given(filter: Option<string>): Option<string> { if filter == Some("") then None else filter }

  function EveryOpen(): Query { Query(None, None, None, None) }

  function OnSymbol(symbol: string): Query { Query(None, Given(Some(symbol)), None, None) }

  function Tracked(strategy: string, symbol: string, uxid: Option<string>): Query {
    Query(Some(strategy), Some(symbol), Given(uxid), None)
  }

  /** A query returns an open row exactly when it agrees with every filter that was given, whatever the others are. */
  lemma MatchesIff(q: Query, r: Row)
    ensures Matches(q, r) <==>
      && (r.status == Opened || r.status == Tp1)
      && q.strategy in {None, Some(r.strategy)} && q.symbol in {None, Some(r.symbol)}
      && q.uxid in {None, r.uxid} && q.refId in {None, Some(r.refId)}
  {
  }

  /** Only a row still pending under the stamp that was read is published; any other keeps its publication as it was. */
  lemma MarkOutcome(rows: seq<Row>, id: nat, stamp: int, now: int, i: nat)
    requires i < |rows|
    ensures var after := MarkSynced(rows, id, stamp, now);
      && |after| == |rows|
      && (i == id && rows[i].updatedAt == stamp && rows[i].sync == Pending ==>
            after[i].sync == Published && after[i].syncTime == Some(now) && after[i] == rows[i].(sync := Published, syncTime := Some(now)))
      && (i != id || rows[i].updatedAt != stamp || rows[i].sync == Published ==> after[i] == rows[i])
  {
  }

  // ----- the index and the writes checked against it

  lemma InsertSucceedsIff(rows: seq<Row>, r: Row)
    requires OneActive(rows)
    ensures Insert(rows, r).Some? <==> OneActive(rows + [r])
  {
    var after := rows + [r];
    if Insert(rows, r).None? {
      var i :| 0 <= i < |rows| && Active(rows[i]) && KeyOf(rows[i]) == KeyOf(r);
      assert after[i] == rows[i] && after[|rows|] == r;
    } else {
      forall i, j | 0 <= i < j < |after| && Active(after[i]) && Active(after[j])
        ensures KeyOf(after[i]) != KeyOf(after[j])
      {
        assert after[i] == rows[i];
        if j < |rows| { assert after[j] == rows[j]; }
      }
    }
  }

  /** A status update succeeds exactly when the rewritten table satisfies the index. */
  lemma UpdateSucceedsIff(rows: seq<Row>, ref: Ref, c: Change, now: int)
    requires OneActive(rows)
    ensures Update(rows, ref, c, now).Some? <==> OneActive(Rewritten(rows, ref, c, now))
    ensures OneActive(Applied(rows, ref, c, now))
  {
    var after := Rewritten(rows, ref, c, now);
    if Update(rows, ref, c, now).None? {
      var i, j :| 0 <= i < |rows| && 0 <= j < |rows| && Clash(rows, ref, i, j);
      assert Active(after[i]) && Active(after[j]) && KeyOf(after[i]) == KeyOf(after[j]);
    } else {
      forall i, j | 0 <= i < j < |after| && Active(after[i]) && Active(after[j])
        ensures KeyOf(after[i]) != KeyOf(after[j])
      {
        assert KeyOf(after[i]) == KeyOf(rows[i]) && KeyOf(after[j]) == KeyOf(rows[j]);
        assert Live(c.status) ==> !Clash(rows, ref, i, j) && !Clash(rows, ref, j, i);
      }
    }
  }

  /** There is no guard on the old status: a late TP1 reopens a closed row unless its key was taken. */
  lemma LateUpdateReopensIff(rows: seq<Row>, id: nat, c: Change, now: int)
    requires id < |rows| && !Active(rows[id]) && Live(c.status)
    requires forall j :: 0 <= j < |rows| && j != id ==> rows[j].refSource != rows[id].refSource
    ensures Active(Applied(rows, rows[id].refSource, c, now)[id]) <==> !Holds(rows, KeyOf(rows[id]))
  {
    var ref := rows[id].refSource;
    if Holds(rows, KeyOf(rows[id])) {
      var j :| 0 <= j < |rows| && Active(rows[j]) && KeyOf(rows[j]) == KeyOf(rows[id]);
      assert Clash(rows, ref, id, j);
    }
  }

  lemma {:induction false} OpenIff(rows: seq<Row>, q: Query)
    ensures forall r :: r in Open(rows, q) <==> r in rows && Matches(q, r)
  {
    if rows != [] {
      var front := rows[..|rows| - 1];
      OpenIff(front, q);
      assert rows == front + [rows[|rows| - 1]];
    }
  }

  lemma {:induction false} NothingOpenIff(rows: seq<Row>, q: Query)
    ensures Open(rows, q) == [] <==> forall i :: 0 <= i < |rows| ==> !Matches(q, rows[i])
  {
    if rows != [] {
      var front := rows[..|rows| - 1];
      NothingOpenIff(front, q);
      assert forall i :: 0 <= i < |front| ==> front[i] == rows[i];
    }
  }

  /** A lookup under a full key finds at most one row. */
  lemma {:induction false} OpenIsSingle(rows: seq<Row>, strategy: string, symbol: string, uxid: string)
    requires OneActive(rows) && uxid != ""
    ensures |Open(rows, Tracked(strategy, symbol, Some(uxid)))| <= 1
  {
    var q := Tracked(strategy, symbol, Some(uxid));
    if rows != [] {
      var front, last := rows[..|rows| - 1], rows[|rows| - 1];
      OpenIsSingle(front, strategy, symbol, uxid);
      NothingOpenIff(front, q);
      if Matches(q, last) {
        assert forall i :: 0 <= i < |front| && Active(rows[i]) ==> KeyOf(rows[i]) != KeyOf(last);
      }
    }
  }

  // ----- the repository object

  class PositionRepository {
    var rows: seq<Row>

    constructor ()
      ensures rows == []
    {
      rows := [];
    }

    method InsertPosition(r: Row) returns (stored: bool)
      modifies this
      ensures stored == Insert(old(rows), r).Some?
      ensures rows == Insert(old(rows), r).GetOr(old(rows))
      ensures OneActive(old(rows)) ==> OneActive(rows)
    {
      InsertWhenUnique(rows, r);
      stored := !(Active(r) && Holds(rows, KeyOf(r)));
      if stored { rows := rows + [r]; }
    }

    method UpdatePositionStatus(ref: Ref, c: Change, now: int) returns (stored: bool)
      modifies this
      ensures stored == Update(old(rows), ref, c, now).Some?
      ensures rows == Applied(old(rows), ref, c, now)
      ensures OneActive(old(rows)) ==> OneActive(rows)
    {
      UpdateWhenUnique(rows, ref, c, now);
      stored := !(Live(c.status) && Clashes(rows, ref));
      if stored { rows := Rewritten(rows, ref, c, now); }
    }

    method MarkPositionSynced(id: nat, stamp: int, now: int) returns (changed: bool)
      modifies this
      ensures changed <==> id < |old(rows)| && old(rows)[id].updatedAt == stamp && old(rows)[id].sync.Pending?
      ensures rows == MarkSynced(old(rows), id, stamp, now)
    {
      changed := id < |rows| && rows[id].updatedAt == stamp && rows[id].sync.Pending?;
      if changed { rows := rows[id := rows[id].(sync := Published, syncTime := Some(now))]; }
    }
  }

  lemma InsertWhenUnique(rows: seq<Row>, r: Row)
    ensures OneActive(rows) ==> OneActive(Insert(rows, r).GetOr(rows))
  {
    if OneActive(rows) { InsertSucceedsIff(rows, r); }
  }

  lemma UpdateWhenUnique(rows: seq<Row>, ref: Ref, c: Change, now: int)
    ensures OneActive(rows) ==> OneActive(Applied(rows, ref, c, now))
  {
    if OneActive(rows) { UpdateSucceedsIff(rows, ref, c, now); }
  }
}
