/**
 * The administrator's FLAT: close every live position the filter selects, then reconcile the rows it
 * selects against what actually closed. Positions and rows meet through match keys, one per position
 * and a set per row; which keys is the market's choice.
 */
module AdminFlat {
  import opened Wrappers
  import opened CycleStatus
  import opened Repository
  import Keys

  /** A live position under its match key; `id` tells apart positions that share one. */
  datatype Leg = Leg(id: nat, key: string)

  ghost predicate DistinctIds(live: seq<Leg>) { forall i, j :: 0 <= i < j < |live| ==> live[i].id != live[j].id }

  /**
   * The directive: which live positions the executor returns for it, which rows the query returns, and
   * whether a reference narrows the positions to those rows' keys.
   */
  datatype Directive = Directive(selects: Leg -> bool, query: Query)

  /** The union of the keys of the rows a query returns. */
  function AllowedKeys(rows: seq<Row>, q: Query, keys: Row -> set<string>): set<string> {
    var open := Open(rows, q);
    set r <- open, k <- keys(r) :: k
  }

  /** The positions a FLAT tries to close. */
  predicate Chosen(p: Leg, d: Directive, rows: seq<Row>, keys: Row -> set<string>) {
    d.selects(p) && (d.query.refId.Some? ==> p.key in AllowedKeys(rows, d.query, keys))
  }

  /** The directive selects it and, when it names a reference, some open row the query returns is recognised in it. */
  ghost predicate Closes(p: Leg, d: Directive, rows: seq<Row>, keys: Row -> set<string>) {
    && d.selects(p)
    && (d.query.refId.Some? ==> exists i :: 0 <= i < |rows| && Matches(d.query, rows[i]) && p.key in keys(rows[i]))
  }

  lemma ChosenIff(p: Leg, d: Directive, rows: seq<Row>, keys: Row -> set<string>)
    ensures Chosen(p, d, rows, keys) <==> Closes(p, d, rows, keys)
  {
    OpenIff(rows, d.query);
    if i :| 0 <= i < |rows| && Matches(d.query, rows[i]) && p.key in keys(rows[i]) { assert rows[i] in Open(rows, d.query); }
    if r :| r in Open(rows, d.query) && p.key in keys(r) {
      var i :| 0 <= i < |rows| && rows[i] == r;
      assert Matches(d.query, rows[i]);
    }
  }

  // ----- what was attempted, what was closed

  function AttemptedKeys(live: seq<Leg>, chosen: Leg -> bool): set<string> {
    set p <- live | chosen(p) :: p.key
  }

  function ClosedKeys(live: seq<Leg>, chosen: Leg -> bool, ok: nat -> bool): set<string> {
    set p <- live | chosen(p) && ok(p.id) :: p.key
  }

  function StillLive(live: seq<Leg>, chosen: Leg -> bool, ok: nat -> bool): seq<Leg> {
    if live == [] then []
    else
      var last := live[|live| - 1];
      StillLive(live[..|live| - 1], chosen, ok) + (if chosen(last) && ok(last.id) then [] else [last])
  }

  lemma {:induction false} StillLiveIff(live: seq<Leg>, chosen: Leg -> bool, ok: nat -> bool)
    ensures forall p :: p in StillLive(live, chosen, ok) <==> p in live && !(chosen(p) && ok(p.id))
  {
    if live != [] {
      StillLiveIff(live[..|live| - 1], chosen, ok);
      assert live == live[..|live| - 1] + [live[|live| - 1]];
    }
  }

  /** Closed, or never seen live; a row whose close was tried and failed is left alone. */
  predicate Flattens(keys: set<string>, closed: set<string>, attempted: set<string>) {
    keys * closed != {} || keys !! attempted
  }

  // ----- exactly when a flattened row is really flat

  predicate MatchesRow(p: Leg, keys: set<string>) { p.key in keys }

  /** If this row is flattened, no position under its keys is left live. */
  ghost predicate FlatIsHonest(live: seq<Leg>, chosen: Leg -> bool, ok: nat -> bool, keys: set<string>) {
    Flattens(keys, ClosedKeys(live, chosen, ok), AttemptedKeys(live, chosen)) ==>
      forall p :: p in StillLive(live, chosen, ok) ==> !MatchesRow(p, keys)
  }

  /** Every live position under the row's keys is one the FLAT closes, and there are not two of them. */
  ghost predicate MatchedOnce(live: seq<Leg>, chosen: Leg -> bool, keys: set<string>) {
    && (forall p :: p in live && MatchesRow(p, keys) ==> chosen(p))
    && (forall p, q :: p in live && q in live && MatchesRow(p, keys) && MatchesRow(q, keys) ==> p == q)
  }

  lemma MatchedOnceIsHonest(live: seq<Leg>, chosen: Leg -> bool, ok: nat -> bool, keys: set<string>)
    requires MatchedOnce(live, chosen, keys)
    ensures FlatIsHonest(live, chosen, ok, keys)
  {
    StillLiveIff(live, chosen, ok);
    forall p | p in StillLive(live, chosen, ok) && MatchesRow(p, keys)
      ensures !Flattens(keys, ClosedKeys(live, chosen, ok), AttemptedKeys(live, chosen))
    {
      assert p.key in AttemptedKeys(live, chosen);
      forall k | k in keys ensures k !in ClosedKeys(live, chosen, ok) {
      }
    }
  }

  lemma UnchosenIsMissed(live: seq<Leg>, chosen: Leg -> bool, keys: set<string>, p: Leg)
    requires p in live && MatchesRow(p, keys) && !chosen(p)
    ensures exists ok: nat -> bool :: !FlatIsHonest(live, chosen, ok, keys)
  {
    var ok: nat -> bool := _ => true;
    StillLiveIff(live, chosen, ok);
    assert ClosedKeys(live, chosen, ok) == AttemptedKeys(live, chosen);
    if k :| k in keys && k in AttemptedKeys(live, chosen) { assert k in keys * ClosedKeys(live, chosen, ok); }
    assert p in StillLive(live, chosen, ok);
    assert !FlatIsHonest(live, chosen, ok, keys);
  }

  lemma SecondIsMissed(live: seq<Leg>, chosen: Leg -> bool, keys: set<string>, p: Leg, q: Leg)
    requires DistinctIds(live) && p in live && q in live && p != q && chosen(p)
    requires MatchesRow(p, keys) && MatchesRow(q, keys)
    ensures exists ok: nat -> bool :: !FlatIsHonest(live, chosen, ok, keys)
  {
    var i :| 0 <= i < |live| && live[i] == p;
    var j :| 0 <= j < |live| && live[j] == q;
    var ok: nat -> bool := id => id == p.id;
    StillLiveIff(live, chosen, ok);
    assert p.key in keys * ClosedKeys(live, chosen, ok);
    assert q in StillLive(live, chosen, ok);
    assert !FlatIsHonest(live, chosen, ok, keys);
  }

  /**
   * For every pattern of failing closes a flattened row is really flat, exactly when the FLAT closes every
   * live position under the row's keys and there is at most one such position.
   */
  lemma FlatIsHonestIff(live: seq<Leg>, chosen: Leg -> bool, keys: set<string>)
    requires DistinctIds(live)
    ensures (forall ok: nat -> bool :: FlatIsHonest(live, chosen, ok, keys)) <==> MatchedOnce(live, chosen, keys)
  {
    if MatchedOnce(live, chosen, keys) {
      forall ok: nat -> bool ensures FlatIsHonest(live, chosen, ok, keys) {
        MatchedOnceIsHonest(live, chosen, ok, keys);
      }
    } else if p :| p in live && MatchesRow(p, keys) && !chosen(p) {
      UnchosenIsMissed(live, chosen, keys, p);
    } else {
      var p, q :| p in live && q in live && MatchesRow(p, keys) && MatchesRow(q, keys) && p != q;
      SecondIsMissed(live, chosen, keys, p, q);
    }
  }

  /** Two legs of one symbol in hedge mode share a key: their row can be flattened with one leg left. */
  lemma HedgedRowIsNotHonest(live: seq<Leg>, chosen: Leg -> bool, symbol: string, p: Leg, q: Leg)
    requires DistinctIds(live) && p in live && q in live && p != q && p.key == q.key == symbol
    ensures !forall ok: nat -> bool :: FlatIsHonest(live, chosen, ok, {symbol})
  {
    FlatIsHonestIff(live, chosen, {symbol});
    assert MatchesRow(p, {symbol}) && MatchesRow(q, {symbol});
  }

  // ----- the FOREX keys: tickets as text

  /** Each position's key is its ticket. */
  predicate KeyedByTicket(live: seq<Leg>) { forall p :: p in live ==> p.key == Keys.TextOf(p.id) }

  function TicketKeys(r: Row): set<string> { {Keys.RefText(r.refId), Keys.RefText(r.refSource)} }

  predicate Names(ref: Ref, p: Leg) { Keys.RefText(ref) == Keys.TextOf(p.id) }

  lemma NamedOnce(live: seq<Leg>, ref: Ref, p: Leg, q: Leg)
    requires DistinctIds(live) && p in live && q in live && Names(ref, p) && Names(ref, q)
    ensures p == q
  {
    Keys.TextIsInjective(p.id, q.id);
    var i :| 0 <= i < |live| && live[i] == p;
    var j :| 0 <= j < |live| && live[j] == q;
  }

  /** The row's two references name two different live positions. */
  ghost predicate NamesTwo(live: seq<Leg>, r: Row) {
    exists p, q :: p in live && q in live && p != q && Names(r.refId, p) && Names(r.refSource, q)
  }

  /**
   * With tickets as keys a flattened row is really flat, for every pattern of failing closes, exactly when the
   * FLAT closes every live position the row names and its two references do not name two of them.
   */
  lemma TicketFlatIsHonestIff(live: seq<Leg>, chosen: Leg -> bool, r: Row)
    requires DistinctIds(live) && KeyedByTicket(live)
    ensures (forall ok: nat -> bool :: FlatIsHonest(live, chosen, ok, TicketKeys(r))) <==>
      (forall p :: p in live && (Names(r.refId, p) || Names(r.refSource, p)) ==> chosen(p)) && !NamesTwo(live, r)
  {
    FlatIsHonestIff(live, chosen, TicketKeys(r));
    forall p | p in live ensures MatchesRow(p, TicketKeys(r)) <==> Names(r.refId, p) || Names(r.refSource, p) { }
    if !NamesTwo(live, r) {
      forall p, q | p in live && q in live && MatchesRow(p, TicketKeys(r)) && MatchesRow(q, TicketKeys(r)) ensures p == q {
        if Names(r.refId, p) && Names(r.refId, q) { NamedOnce(live, r.refId, p, q); }
        if Names(r.refSource, p) && Names(r.refSource, q) { NamedOnce(live, r.refSource, p, q); }
      }
    }
  }

  /** A row that was never re-ticketed, or whose other reference is an order's number, is flattened honestly
      whenever its own position is among those the FLAT closes. */
  lemma TicketFlatIsHonest(live: seq<Leg>, chosen: Leg -> bool, ok: nat -> bool, r: Row)
    requires DistinctIds(live) && KeyedByTicket(live)
    requires r.refId == r.refSource || forall p :: p in live ==> !Names(r.refId, p)
    requires forall p :: p in live && Names(r.refSource, p) ==> chosen(p)
    ensures FlatIsHonest(live, chosen, ok, TicketKeys(r))
  {
    forall p, q | p in live && q in live && Names(r.refId, p) && Names(r.refSource, q) ensures p == q {
      NamedOnce(live, r.refSource, p, q);
    }
    TicketFlatIsHonestIff(live, chosen, r);
  }

  /** A selected row with a position left live under one of its keys stays open. */
  lemma LiveRowStaysOpen(live: seq<Leg>, chosen: Leg -> bool, ok: nat -> bool, keys: set<string>, p: Leg)
    requires MatchedOnce(live, chosen, keys) && p in StillLive(live, chosen, ok) && MatchesRow(p, keys)
    ensures !Flattens(keys, ClosedKeys(live, chosen, ok), AttemptedKeys(live, chosen))
  {
    MatchedOnceIsHonest(live, chosen, ok, keys);
  }

  // ----- the rows

  /** Some selected row that flattens carries this reference. */
  ghost predicate Reached(selected: seq<Row>, ref: Ref, keys: Row -> set<string>, closed: set<string>, attempted: set<string>) {
    exists k :: 0 <= k < |selected| && selected[k].refSource == ref && Flattens(keys(selected[k]), closed, attempted)
  }

  /** `order` closed a position under `key`, the last one under it to be closed. */
  ghost predicate LastOrder(live: seq<Leg>, chosen: Leg -> bool, ok: nat -> bool, key: string, order: Ref) {
    exists i :: 0 <= i < |live| && ClosedUnder(live[i], chosen, ok, key) && order == Ticket(live[i].id)
      && forall j :: i < j < |live| ==> !ClosedUnder(live[j], chosen, ok, key)
  }

  predicate ClosedUnder(p: Leg, chosen: Leg -> bool, ok: nat -> bool, key: string) { chosen(p) && ok(p.id) && p.key == key }

  lemma LastOrderStays(live: seq<Leg>, p: Leg, chosen: Leg -> bool, ok: nat -> bool, key: string, order: Ref)
    ensures LastOrder(live, chosen, ok, key, order) && !ClosedUnder(p, chosen, ok, key) ==> LastOrder(live + [p], chosen, ok, key, order)
    ensures ClosedUnder(p, chosen, ok, key) && order == Ticket(p.id) ==> LastOrder(live + [p], chosen, ok, key, order)
  {
    var all := live + [p];
    if LastOrder(live, chosen, ok, key, order) && !ClosedUnder(p, chosen, ok, key) {
      var i :| 0 <= i < |live| && ClosedUnder(live[i], chosen, ok, key) && order == Ticket(live[i].id)
        && forall j :: i < j < |live| ==> !ClosedUnder(live[j], chosen, ok, key);
      assert all[i] == live[i];
    }
    if ClosedUnder(p, chosen, ok, key) && order == Ticket(p.id) { assert all[|live|] == p; }
  }

  /** A selected row with this reference has a key that closed. */
  ghost predicate Hit(selected: seq<Row>, ref: Ref, keys: Row -> set<string>, closed: set<string>) {
    exists k :: 0 <= k < |selected| && selected[k].refSource == ref && keys(selected[k]) * closed != {}
  }

  /** `order` closed one of that row's keys. */
  ghost predicate OrderOf(selected: seq<Row>, ref: Ref, keys: Row -> set<string>, closed: map<string, Ref>, order: Ref) {
    exists k, key :: 0 <= k < |selected| && selected[k].refSource == ref && key in keys(selected[k]) && key in closed && closed[key] == order
  }

  /** A row whose close succeeded carries the order of a close of its own, every other row the one it had. */
  ghost predicate OrdersWritten(rows: seq<Row>, after: seq<Row>, selected: seq<Row>, keys: Row -> set<string>, closed: map<string, Ref>) {
    |after| == |rows| && forall i :: 0 <= i < |rows| ==>
      after[i].refSource == rows[i].refSource &&
      if Hit(selected, rows[i].refSource, keys, closed.Keys) then OrderOf(selected, rows[i].refSource, keys, closed, after[i].refId)
      else after[i].refId == rows[i].refId
  }

  lemma OrdersWrittenOne(rows: seq<Row>, mid: seq<Row>, after: seq<Row>, selected: seq<Row>, r: Row, keys: Row -> set<string>, closed: map<string, Ref>, key: string)
    requires OrdersWritten(rows, mid, selected, keys, closed)
    requires var hits := keys(r) * closed.Keys; hits != {} ==> key in hits
    requires |after| == |mid| && forall i :: 0 <= i < |mid| ==>
      after[i].refSource == mid[i].refSource &&
      after[i].refId == if mid[i].refSource == r.refSource && keys(r) * closed.Keys != {} then closed[key] else mid[i].refId
    ensures OrdersWritten(rows, after, selected + [r], keys, closed)
  {
    var longer := selected + [r];
    assert longer[|selected|] == r;
    forall i | 0 <= i < |rows|
      ensures if Hit(longer, rows[i].refSource, keys, closed.Keys) then OrderOf(longer, rows[i].refSource, keys, closed, after[i].refId)
              else after[i].refId == rows[i].refId
    {
      var ref := rows[i].refSource;
      if r.refSource == ref && keys(r) * closed.Keys != {} {
        assert key in keys(longer[|selected|]) && closed[key] == after[i].refId;
      } else if Hit(selected, ref, keys, closed.Keys) {
        var k, name :| 0 <= k < |selected| && selected[k].refSource == ref && name in keys(selected[k]) && name in closed && closed[name] == mid[i].refId;
        assert longer[k] == selected[k] && name in keys(longer[k]) * closed.Keys;
      } else {
        forall k | 0 <= k < |longer| && longer[k].refSource == ref ensures keys(longer[k]) * closed.Keys == {} {
          if k < |selected| { assert longer[k] == selected[k]; }
        }
      }
    }
  }

  /** The row is flattened: everything that identifies it, and its stored entry message, is kept. */
  predicate BecomesFlatted(before: Row, after: Row, now: int) {
    after.(refId := before.refId, closedPrice := before.closedPrice) == before.(status := Flatted, sync := Pending, updatedAt := now)
  }

  ghost predicate Reconciled(rows: seq<Row>, after: seq<Row>, selected: seq<Row>, keys: Row -> set<string>, closed: set<string>, attempted: set<string>, now: int) {
    && |after| == |rows|
    && forall i :: 0 <= i < |rows| ==>
      if Reached(selected, rows[i].refSource, keys, closed, attempted) then BecomesFlatted(rows[i], after[i], now) else after[i] == rows[i]
  }

  lemma ReconcileOne(rows: seq<Row>, mid: seq<Row>, after: seq<Row>, selected: seq<Row>, r: Row, keys: Row -> set<string>, closed: set<string>, attempted: set<string>, now: int)
    requires Reconciled(rows, mid, selected, keys, closed, attempted, now)
    requires |after| == |mid| && forall i :: 0 <= i < |mid| ==>
      if mid[i].refSource == r.refSource && Flattens(keys(r), closed, attempted) then BecomesFlatted(mid[i], after[i], now) else after[i] == mid[i]
    ensures Reconciled(rows, after, selected + [r], keys, closed, attempted, now)
  {
    var longer := selected + [r];
    forall ref ensures Reached(longer, ref, keys, closed, attempted) <==>
      Reached(selected, ref, keys, closed, attempted) || (r.refSource == ref && Flattens(keys(r), closed, attempted))
    {
      assert longer[|selected|] == r;
      if Reached(selected, ref, keys, closed, attempted) {
        var k :| 0 <= k < |selected| && selected[k].refSource == ref && Flattens(keys(selected[k]), closed, attempted);
        assert longer[k] == selected[k];
      }
    }
  }

  /** The loop over these positions has run: what is left, what closed, what was tried. */
  ghost predicate Tried(live: seq<Leg>, chosen: Leg -> bool, ok: nat -> bool, rest: seq<Leg>, closed: set<string>, attempted: set<string>) {
    rest == StillLive(live, chosen, ok) && closed == ClosedKeys(live, chosen, ok) && attempted == AttemptedKeys(live, chosen)
  }

  lemma AttemptedGrows(live: seq<Leg>, p: Leg, chosen: Leg -> bool)
    ensures AttemptedKeys(live + [p], chosen) == AttemptedKeys(live, chosen) + (if chosen(p) then {p.key} else {})
  {
  }

  lemma ClosedGrows(live: seq<Leg>, p: Leg, chosen: Leg -> bool, ok: nat -> bool)
    ensures ClosedKeys(live + [p], chosen, ok) == ClosedKeys(live, chosen, ok) + (if chosen(p) && ok(p.id) then {p.key} else {})
  {
  }

  lemma TryOne(live: seq<Leg>, p: Leg, chosen: Leg -> bool, ok: nat -> bool, rest: seq<Leg>, closed: set<string>, attempted: set<string>)
    requires Tried(live, chosen, ok, rest, closed, attempted)
    ensures !chosen(p) ==> Tried(live + [p], chosen, ok, rest + [p], closed, attempted)
    ensures chosen(p) && !ok(p.id) ==> Tried(live + [p], chosen, ok, rest + [p], closed, attempted + {p.key})
    ensures chosen(p) && ok(p.id) ==> Tried(live + [p], chosen, ok, rest, closed + {p.key}, attempted + {p.key})
  {
    assert (live + [p])[..|live|] == live;
    AttemptedGrows(live, p, chosen);
    ClosedGrows(live, p, chosen, ok);
  }

  /** One of the row's positions closed, or the FLAT tried none of them. */
  ghost predicate IsFlat(r: Row, rows: seq<Row>, live: seq<Leg>, d: Directive, keys: Row -> set<string>, ok: nat -> bool) {
    || (exists p :: p in live && Closes(p, d, rows, keys) && ok(p.id) && p.key in keys(r))
    || (forall p :: p in live && Closes(p, d, rows, keys) ==> p.key !in keys(r))
  }

  /** A flat row the query returns carries this reference. */
  ghost predicate FlatUnder(ref: Ref, rows: seq<Row>, live: seq<Leg>, d: Directive, keys: Row -> set<string>, ok: nat -> bool) {
    exists j :: 0 <= j < |rows| && Matches(d.query, rows[j]) && rows[j].refSource == ref && IsFlat(rows[j], rows, live, d, keys, ok)
  }

  /** Row by row: flattened exactly when a flat row of the filter carries its reference, and untouched otherwise. */
  ghost predicate RowsFlatted(rows: seq<Row>, after: seq<Row>, live: seq<Leg>, d: Directive, keys: Row -> set<string>, ok: nat -> bool, now: int) {
    |after| == |rows| && forall i :: 0 <= i < |rows| ==>
      if FlatUnder(rows[i].refSource, rows, live, d, keys, ok) then BecomesFlatted(rows[i], after[i], now) else after[i] == rows[i]
  }

  lemma FlattensIff(r: Row, rows: seq<Row>, live: seq<Leg>, d: Directive, keys: Row -> set<string>, chosen: Leg -> bool, ok: nat -> bool)
    requires forall p: Leg :: chosen(p) <==> Closes(p, d, rows, keys)
    ensures Flattens(keys(r), ClosedKeys(live, chosen, ok), AttemptedKeys(live, chosen)) <==> IsFlat(r, rows, live, d, keys, ok)
  {
    var closed, attempted := ClosedKeys(live, chosen, ok), AttemptedKeys(live, chosen);
    if p :| p in live && Closes(p, d, rows, keys) && ok(p.id) && p.key in keys(r) { assert p.key in keys(r) * closed; }
    if keys(r) * closed != {} {
      var k :| k in keys(r) * closed;
      var p :| p in live && chosen(p) && ok(p.id) && p.key == k;
    }
    if p :| p in live && Closes(p, d, rows, keys) && p.key in keys(r) { assert p.key in attempted; }
  }

  lemma WholeFlat(rows: seq<Row>, after: seq<Row>, live: seq<Leg>, d: Directive, keys: Row -> set<string>, chosen: Leg -> bool, ok: nat -> bool, now: int)
    requires forall p: Leg :: chosen(p) <==> Closes(p, d, rows, keys)
    requires Reconciled(rows, after, Open(rows, d.query), keys, ClosedKeys(live, chosen, ok), AttemptedKeys(live, chosen), now)
    ensures RowsFlatted(rows, after, live, d, keys, ok, now)
  {
    var open, closed, attempted := Open(rows, d.query), ClosedKeys(live, chosen, ok), AttemptedKeys(live, chosen);
    OpenIff(rows, d.query);
    forall ref ensures Reached(open, ref, keys, closed, attempted) <==> FlatUnder(ref, rows, live, d, keys, ok) {
      if k :| 0 <= k < |open| && open[k].refSource == ref && Flattens(keys(open[k]), closed, attempted) {
        assert open[k] in open;
        var j :| 0 <= j < |rows| && rows[j] == open[k];
        FlattensIff(rows[j], rows, live, d, keys, chosen, ok);
      }
      if j :| 0 <= j < |rows| && Matches(d.query, rows[j]) && rows[j].refSource == ref && IsFlat(rows[j], rows, live, d, keys, ok) {
        FlattensIff(rows[j], rows, live, d, keys, chosen, ok);
        assert rows[j] in open;
        var k :| 0 <= k < |open| && open[k] == rows[j];
      }
    }
  }

  /** What the loop does for one row. */
  function RowReconciled(rows: seq<Row>, r: Row, keys: set<string>, closed: map<string, Ref>, attempted: set<string>, key: string, now: int): seq<Row>
    requires keys * closed.Keys != {} ==> key in closed
  {
    if keys * closed.Keys != {} then Applied(rows, r.refSource, Change(Flatted, Some(closed[key]), None, None), now)
    else if keys !! attempted then Applied(rows, r.refSource, Change(Flatted, None, None, None), now)
    else rows
  }

  lemma FlattenOne(rows: seq<Row>, ref: Ref, order: Option<Ref>, now: int)
    ensures var after := Applied(rows, ref, Change(Flatted, order, None, None), now);
      |after| == |rows| && forall i :: 0 <= i < |rows| ==>
        && after[i].refSource == rows[i].refSource
        && (rows[i].refSource == ref ==> BecomesFlatted(rows[i], after[i], now) && after[i].refId == order.GetOr(rows[i].refId))
        && (rows[i].refSource != ref ==> after[i] == rows[i])
  {
  }

  lemma ReconcileRound(rows: seq<Row>, mid: seq<Row>, after: seq<Row>, selected: seq<Row>, r: Row, keys: Row -> set<string>, closed: map<string, Ref>, attempted: set<string>, key: string, now: int)
    requires Reconciled(rows, mid, selected, keys, closed.Keys, attempted, now) && OrdersWritten(rows, mid, selected, keys, closed)
    requires keys(r) * closed.Keys != {} ==> key in keys(r) * closed.Keys
    requires after == RowReconciled(mid, r, keys(r), closed, attempted, key, now)
    ensures Reconciled(rows, after, selected + [r], keys, closed.Keys, attempted, now) && OrdersWritten(rows, after, selected + [r], keys, closed)
  {
    FlattenOne(mid, r.refSource, if key in closed then Some(closed[key]) else None, now);
    FlattenOne(mid, r.refSource, None, now);
    ReconcileOne(rows, mid, after, selected, r, keys, closed.Keys, attempted, now);
    OrdersWrittenOne(rows, mid, after, selected, r, keys, closed, key);
  }

  class FlatProcessor {
    const db: PositionRepository
    var live: seq<Leg>
    const ok: nat -> bool

    constructor (db: PositionRepository, live: seq<Leg>, ok: nat -> bool)
      ensures this.db == db && this.live == live && this.ok == ok
    {
      this.db, this.live, this.ok := db, live, ok;
    }

    /** The keys whose close succeeded, each with the last successful order, and every key tried. */
    method CloseLivePositionsForFlat(chosen: Leg -> bool) returns (closed: map<string, Ref>, attempted: set<string>)
      modifies this
      ensures live == StillLive(old(live), chosen, ok)
      ensures closed.Keys == ClosedKeys(old(live), chosen, ok) && attempted == AttemptedKeys(old(live), chosen)
      ensures forall key :: key in closed ==> LastOrder(old(live), chosen, ok, key, closed[key])
    {
      closed, attempted := map[], {};
      var all, rest := live, [];
      for i := 0 to |all|
        invariant Tried(all[..i], chosen, ok, rest, closed.Keys, attempted)
        invariant forall key :: key in closed ==> LastOrder(all[..i], chosen, ok, key, closed[key])
      {
        var p := all[i];
        assert all[..i + 1] == all[..i] + [p];
        TryOne(all[..i], p, chosen, ok, rest, closed.Keys, attempted);
        forall key, order: Ref ensures
          && (LastOrder(all[..i], chosen, ok, key, order) && !ClosedUnder(p, chosen, ok, key) ==> LastOrder(all[..i + 1], chosen, ok, key, order))
          && (ClosedUnder(p, chosen, ok, key) && order == Ticket(p.id) ==> LastOrder(all[..i + 1], chosen, ok, key, order))
        {
          LastOrderStays(all[..i], p, chosen, ok, key, order);
        }
        if !chosen(p) {
          rest := rest + [p];
        } else {
          attempted := attempted + {p.key};
          if ok(p.id) {
            ghost var before := closed.Keys;
            closed := closed[p.key := Ticket(p.id)];
            assert closed.Keys == before + {p.key};
          } else {
            rest := rest + [p];
          }
        }
      }
      assert all[..|all|] == all;
      live := rest;
    }

    /** Rows are flattened when their close succeeded or nothing of theirs was live; the others stay open. */
    method ReconcileFlatDb(q: Query, keys: Row -> set<string>, closed: map<string, Ref>, attempted: set<string>, now: int)
      modifies db
      ensures Reconciled(old(db.rows), db.rows, Open(old(db.rows), q), keys, closed.Keys, attempted, now)
      ensures OrdersWritten(old(db.rows), db.rows, Open(old(db.rows), q), keys, closed)
    {
      var selected := Open(db.rows, q);
      ghost var rows := db.rows;
      for i := 0 to |selected|
        invariant Reconciled(rows, db.rows, selected[..i], keys, closed.Keys, attempted, now)
        invariant OrdersWritten(rows, db.rows, selected[..i], keys, closed)
      {
        var r := selected[i];
        ghost var mid := db.rows;
        assert selected[..i + 1] == selected[..i] + [r];
        var hits := keys(r) * closed.Keys;
        var k: string := "";
        if hits != {} {
          k :| k in hits;
          var _ := db.UpdatePositionStatus(r.refSource, Change(Flatted, Some(closed[k]), None, None), now);
        } else if keys(r) !! attempted {
          var _ := db.UpdatePositionStatus(r.refSource, Change(Flatted, None, None, None), now);
        }
        ReconcileRound(rows, mid, db.rows, selected[..i], r, keys, closed, attempted, k, now);
      }
      assert selected[..|selected|] == selected;
    }

    /** The positions it closes are gone, the rows they or nobody answered for are flattened. */
    method Flat(d: Directive, keys: Row -> set<string>, now: int)
      modifies this, db
      ensures forall p :: p in live <==> p in old(live) && !(Closes(p, d, old(db.rows), keys) && ok(p.id))
      ensures RowsFlatted(old(db.rows), db.rows, old(live), d, keys, ok, now)
      ensures var chosen := (p: Leg) => Chosen(p, d, old(db.rows), keys);
        && live == StillLive(old(live), chosen, ok)
        && Reconciled(old(db.rows), db.rows, Open(old(db.rows), d.query), keys, ClosedKeys(old(live), chosen, ok), AttemptedKeys(old(live), chosen), now)
    {
      var rows := db.rows;
      ghost var before := live;
      var chosen := (p: Leg) => Chosen(p, d, rows, keys);
      var closed, attempted := CloseLivePositionsForFlat(chosen);
      ReconcileFlatDb(d.query, keys, closed, attempted, now);
      StillLiveIff(before, chosen, ok);
      forall p: Leg ensures Chosen(p, d, rows, keys) <==> Closes(p, d, rows, keys) { ChosenIff(p, d, rows, keys); }
      WholeFlat(rows, db.rows, before, d, keys, chosen, ok, now);
    }
  }

  /**
   * What a whole FLAT leaves: outside the filter every row is as it was unless it shares a flattened row's
   * reference, every stored entry message is kept, and a newly flattened row of its own has no key left live.
   */
  lemma FlatOutcome(rows: seq<Row>, after: seq<Row>, q: Query, live: seq<Leg>, chosen: Leg -> bool, ok: nat -> bool, keys: Row -> set<string>, now: int, i: nat)
    requires i < |rows|
    requires Reconciled(rows, after, Open(rows, q), keys, ClosedKeys(live, chosen, ok), AttemptedKeys(live, chosen), now)
    requires forall j :: 0 <= j < |rows| && j != i && Matches(q, rows[j]) ==> rows[j].refSource != rows[i].refSource
    ensures |after| == |rows| && after[i].message == rows[i].message && after[i].refSource == rows[i].refSource
    ensures !Matches(q, rows[i]) ==> after[i] == rows[i]
    ensures Matches(q, rows[i]) && MatchedOnce(live, chosen, keys(rows[i])) ==>
      if Active(after[i]) then after[i] == rows[i] && exists p :: p in StillLive(live, chosen, ok) && MatchesRow(p, keys(rows[i]))
      else after[i].status == Flatted && forall p :: p in StillLive(live, chosen, ok) ==> !MatchesRow(p, keys(rows[i]))
  {
    var open, closed, attempted := Open(rows, q), ClosedKeys(live, chosen, ok), AttemptedKeys(live, chosen);
    OpenIff(rows, q);
    ReachedIff(rows, q, keys, closed, attempted, i);
    if Matches(q, rows[i]) && MatchedOnce(live, chosen, keys(rows[i])) {
      MatchedOnceIsHonest(live, chosen, ok, keys(rows[i]));
      if !Flattens(keys(rows[i]), closed, attempted) { AttemptedIsLive(live, chosen, ok, keys(rows[i])); }
    }
  }

  lemma ReachedIff(rows: seq<Row>, q: Query, keys: Row -> set<string>, closed: set<string>, attempted: set<string>, i: nat)
    requires i < |rows|
    requires forall j :: 0 <= j < |rows| && j != i && Matches(q, rows[j]) ==> rows[j].refSource != rows[i].refSource
    ensures Reached(Open(rows, q), rows[i].refSource, keys, closed, attempted) <==> Matches(q, rows[i]) && Flattens(keys(rows[i]), closed, attempted)
  {
    var open := Open(rows, q);
    OpenIff(rows, q);
    forall k | 0 <= k < |open| && open[k].refSource == rows[i].refSource ensures open[k] == rows[i] && Matches(q, rows[i]) {
      assert open[k] in open;
      var j :| 0 <= j < |rows| && rows[j] == open[k];
    }
    if Matches(q, rows[i]) {
      assert rows[i] in open;
      var k :| 0 <= k < |open| && open[k] == rows[i];
    }
  }

  /** A row left open because a close failed has that position still live. */
  lemma AttemptedIsLive(live: seq<Leg>, chosen: Leg -> bool, ok: nat -> bool, keys: set<string>)
    requires !Flattens(keys, ClosedKeys(live, chosen, ok), AttemptedKeys(live, chosen))
    ensures exists p :: p in StillLive(live, chosen, ok) && MatchesRow(p, keys)
  {
    StillLiveIff(live, chosen, ok);
    var k :| k in keys && k in AttemptedKeys(live, chosen);
    var p :| p in live && chosen(p) && p.key == k;
    assert k in keys * ClosedKeys(live, chosen, ok) || !ok(p.id);
  }
}
