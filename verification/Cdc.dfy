/**
 * Change-data-capture: one polling thread publishes every PENDING row and then marks it, while
 * the trading threads keep inserting and updating rows. The mark succeeds only if the row still
 * carries the `updated_at` stamp that was read.
 */
module Cdc {
  import opened Wrappers
  import opened CycleStatus
  import opened Repository

  datatype EventType = Created | Updated

  /** An event's columns; the uxid travels in the stored message, and is the row's. */
  datatype Event = Event(
    kind: EventType, id: nat, refSource: Ref, refId: Ref, strategy: string, symbol: string, uxid: Option<string>,
    volume: real, closedPrice: Option<real>, status: Status, message: Option<string>)

  /** A row as it was read. */
  datatype Seen = Seen(id: nat, row: Row)

  function EventOf(s: Seen): Event {
    var r := s.row;
    Event(if r.syncTime.None? then Created else Updated, s.id, r.refSource, r.refId, r.strategy, r.symbol, r.uxid,
          r.volume, r.closedPrice, r.status, r.message)
  }

  /** The event says about the row everything but when it was written and synchronised. */
  predicate Tells(e: Event, r: Row) {
    && e.refSource == r.refSource && e.refId == r.refId && e.strategy == r.strategy && e.symbol == r.symbol && e.uxid == r.uxid
    && e.volume == r.volume && e.closedPrice == r.closedPrice && e.status == r.status && e.message == r.message
  }

  /** The same columns, when and how far synchronised aside. */
  predicate SameColumns(a: Row, b: Row) {
    && a.refSource == b.refSource && a.refId == b.refId && a.strategy == b.strategy && a.symbol == b.symbol && a.uxid == b.uxid
    && a.volume == b.volume && a.closedPrice == b.closedPrice && a.status == b.status && a.message == b.message
  }

  /** `todo` is what is left of the poll's snapshot, `unmarked` the row published but not yet marked. */
  datatype State = State(rows: seq<Row>, sent: seq<Event>, todo: seq<Seen>, unmarked: Option<Seen>)

  function PendingRows(rows: seq<Row>): (todo: seq<Seen>)
    ensures forall k :: 0 <= k < |todo| ==> todo[k].id < |rows| && todo[k].row == rows[todo[k].id] && todo[k].row.sync.Pending?
    ensures forall j, k :: 0 <= j < k < |todo| ==> todo[j].id < todo[k].id
    ensures forall i :: 0 <= i < |rows| && rows[i].sync.Pending? ==> Seen(i, rows[i]) in todo
  {
    if rows == [] then []
    else
      var last := |rows| - 1;
      PendingRows(rows[..last]) + (if rows[last].sync.Pending? then [Seen(last, rows[last])] else [])
  }

  datatype Write =
    | Inserting(row: Row)
    | Updating(ref: Ref, change: Change, now: int)

  /** A new row takes the table's defaults: pending, never published. */
  function Written(rows: seq<Row>, w: Write): seq<Row> {
    match w
    case Inserting(r) => Insert(rows, r.(sync := Pending, syncTime := None)).GetOr(rows)
    case Updating(ref, c, now) => Applied(rows, ref, c, now)
  }

  datatype Step =
    | Trading(write: Write)
    | Snapshot
    | Publish
    | Mark(now: int)
    | Abandon  // the poll raised, or the worker stopped

  function Next(s: State, step: Step): State {
    match step
    case Trading(w) => s.(rows := Written(s.rows, w))
    case Snapshot => s.(todo := PendingRows(s.rows), unmarked := None)
    case Publish => if s.todo == [] || s.unmarked.Some? then s else
      s.(sent := s.sent + [EventOf(s.todo[0])], todo := s.todo[1..], unmarked := Some(s.todo[0]))
    case Mark(now) => if s.unmarked.None? then s else
      s.(rows := MarkSynced(s.rows, s.unmarked.value.id, s.unmarked.value.row.updatedAt, now), unmarked := None)
    case Abandon => s.(todo := [], unmarked := None)
  }

  function Run(s: State, steps: seq<Step>): State
    decreases |steps|
  {
    if steps == [] then s else Run(Next(s, steps[0]), steps[1..])
  }

  // ----- what the stamps are assumed to do

  /** An update carries a stamp no row it touches already carries: later than the last one. */
  ghost predicate StampsMove(rows: seq<Row>, w: Write) {
    w.Updating? ==> forall i :: 0 <= i < |rows| && rows[i].refSource == w.ref ==> rows[i].updatedAt < w.now
  }

  ghost predicate StampsAlwaysMove(s: State, steps: seq<Step>)
    decreases |steps|
  {
    steps != [] ==>
      && (steps[0].Trading? ==> StampsMove(s.rows, steps[0].write))
      && StampsAlwaysMove(Next(s, steps[0]), steps[1..])
  }

  // ----- the invariant

  /** A row that was read is at least as old as the row now, and equal to it if the stamps agree. */
  ghost predicate ReadFrom(seen: Seen, rows: seq<Row>) {
    && seen.id < |rows|
    && seen.row.updatedAt <= rows[seen.id].updatedAt
    && (seen.row.updatedAt == rows[seen.id].updatedAt ==> SameColumns(seen.row, rows[seen.id]))
    && (seen.row.syncTime.Some? ==> rows[seen.id].syncTime.Some?)
  }

  ghost predicate WasSent(sent: seq<Event>, id: nat, row: Row) {
    exists k :: 0 <= k < |sent| && sent[k].id == id && Tells(sent[k], row)
  }

  /** The promise: an event that says what a PUBLISHED row now says has reached the broker. */
  ghost predicate NothingLost(s: State) {
    forall i :: 0 <= i < |s.rows| && s.rows[i].sync.Published? ==> WasSent(s.sent, i, s.rows[i])
  }

  /** The promise: a row's events are CREATED ones followed by UPDATED ones. */
  ghost predicate CreatedFirst(sent: seq<Event>) {
    forall j, k :: 0 <= j < k < |sent| && sent[j].id == sent[k].id && sent[j].kind.Updated? ==> sent[k].kind.Updated?
  }

  /** Once an UPDATED event went out, the row and every unpublished reading of it know it was synced. */
  ghost predicate KindsKnown(s: State) {
    forall k :: 0 <= k < |s.sent| && s.sent[k].kind.Updated? ==>
      && s.sent[k].id < |s.rows| && s.rows[s.sent[k].id].syncTime.Some?
      && forall t :: 0 <= t < |s.todo| && s.todo[t].id == s.sent[k].id ==> s.todo[t].row.syncTime.Some?
  }

  ghost predicate Inv(s: State) {
    && NothingLost(s)
    && CreatedFirst(s.sent)
    && KindsKnown(s)
    && (forall t :: 0 <= t < |s.todo| ==> ReadFrom(s.todo[t], s.rows))
    && (forall j, k :: 0 <= j < k < |s.todo| ==> s.todo[j].id < s.todo[k].id)
    && (s.unmarked.Some? ==> ReadFrom(s.unmarked.value, s.rows))
    && (s.unmarked.Some? ==> WasSent(s.sent, s.unmarked.value.id, s.unmarked.value.row))
  }

  /** What any step may do to the rows: each keeps its stamp and content, or gets a later stamp. */
  ghost predicate Ages(before: seq<Row>, after: seq<Row>) {
    && |before| <= |after|
    && forall i :: 0 <= i < |before| ==>
      && before[i].updatedAt <= after[i].updatedAt
      && (before[i].updatedAt == after[i].updatedAt ==> SameColumns(before[i], after[i]))
      && (before[i].syncTime.Some? ==> after[i].syncTime.Some?)
  }

  lemma WritesAge(rows: seq<Row>, w: Write)
    requires StampsMove(rows, w)
    ensures Ages(rows, Written(rows, w))
    ensures forall i :: 0 <= i < |Written(rows, w)| ==>
      Written(rows, w)[i].sync.Pending? || (i < |rows| && Written(rows, w)[i] == rows[i])
  {
  }

  lemma MarkAges(rows: seq<Row>, id: nat, stamp: int, now: int)
    ensures Ages(rows, MarkSynced(rows, id, stamp, now)) && |MarkSynced(rows, id, stamp, now)| == |rows|
    ensures forall i :: 0 <= i < |rows| && (i != id || rows[i].updatedAt != stamp) ==> MarkSynced(rows, id, stamp, now)[i] == rows[i]
  {
  }

  lemma SentStays(sent: seq<Event>, e: Event, id: nat, row: Row)
    requires WasSent(sent, id, row)
    ensures WasSent(sent + [e], id, row)
  {
    var k :| 0 <= k < |sent| && sent[k].id == id && Tells(sent[k], row);
    assert (sent + [e])[k] == sent[k];
  }

  lemma TradingKeeps(s: State, w: Write)
    requires Inv(s) && StampsMove(s.rows, w)
    ensures Inv(Next(s, Trading(w)))
  {
    WritesAge(s.rows, w);
  }

  lemma PublishKeeps(s: State)
    requires Inv(s) && s.todo != [] && s.unmarked.None?
    ensures Inv(Next(s, Publish))
  {
    var seen, e, after := s.todo[0], EventOf(s.todo[0]), Next(s, Publish);
    forall i | 0 <= i < |s.rows| && s.rows[i].sync.Published? ensures WasSent(after.sent, i, s.rows[i]) {
      SentStays(s.sent, e, i, s.rows[i]);
    }
    assert after.sent[|s.sent|] == e;
  }

  lemma MarkKeeps(s: State, now: int)
    requires Inv(s) && s.unmarked.Some?
    ensures Inv(Next(s, Mark(now)))
  {
    var seen, after := s.unmarked.value, Next(s, Mark(now));
    MarkAges(s.rows, seen.id, seen.row.updatedAt, now);
    forall i | 0 <= i < |after.rows| && after.rows[i].sync.Published? ensures WasSent(after.sent, i, after.rows[i]) {
      if after.rows[i] != s.rows[i] {
        assert SameColumns(after.rows[i], s.rows[i]) && SameColumns(s.rows[i], seen.row);
      }
    }
  }

  /** With moving stamps every step of any interleaving keeps the invariant. */
  lemma StepKeeps(s: State, step: Step)
    requires Inv(s) && (step.Trading? ==> StampsMove(s.rows, step.write))
    ensures Inv(Next(s, step))
  {
    match step
    case Trading(w) => TradingKeeps(s, w);
    case Snapshot => SnapshotKeeps(s);
    case Publish => if s.todo != [] && s.unmarked.None? { PublishKeeps(s); }
    case Mark(now) => if s.unmarked.Some? { MarkKeeps(s, now); }
    case Abandon =>
  }

  lemma SnapshotKeeps(s: State)
    requires Inv(s)
    ensures Inv(Next(s, Snapshot))
  {
  }

  /** An abandoned poll publishes and marks nothing more. */
  lemma AbandonedPollIsOver(s: State, now: int)
    ensures var over := Next(s, Abandon);
      && over.rows == s.rows && over.sent == s.sent && Next(over, Publish) == over && Next(over, Mark(now)) == over
  {
  }

  /** Over every run: no published row is stale at the broker and no CREATED follows an UPDATED. */
  lemma {:induction false} NoUpdateIsLost(s: State, steps: seq<Step>)
    requires Inv(s) && StampsAlwaysMove(s, steps)
    ensures NothingLost(Run(s, steps)) && CreatedFirst(Run(s, steps).sent) && Inv(Run(s, steps))
    decreases |steps|
  {
    if steps != [] {
      StepKeeps(s, steps[0]);
      NoUpdateIsLost(Next(s, steps[0]), steps[1..]);
    }
  }

  ghost predicate CreatedSent(sent: seq<Event>, id: nat) {
    exists k :: 0 <= k < |sent| && sent[k].id == id && sent[k].kind.Created?
  }

  /** The promise: the first event of a row is a CREATED one. */
  ghost predicate BeginsCreated(sent: seq<Event>) {
    forall k :: 0 <= k < |sent| ==> CreatedSent(sent[..k + 1], sent[k].id)
  }

  /** A row that was ever published began with a CREATED event. */
  ghost predicate Begun(s: State) {
    && BeginsCreated(s.sent)
    && (forall i :: 0 <= i < |s.rows| && s.rows[i].syncTime.Some? ==> CreatedSent(s.sent, i))
    && (s.unmarked.Some? ==> CreatedSent(s.sent, s.unmarked.value.id))
  }

  lemma CreatedStays(sent: seq<Event>, e: Event, id: nat)
    ensures CreatedSent(sent, id) || (e.id == id && e.kind.Created?) ==> CreatedSent(sent + [e], id)
  {
    if k :| 0 <= k < |sent| && sent[k].id == id && sent[k].kind.Created? { assert (sent + [e])[k] == sent[k]; }
    assert (sent + [e])[|sent|] == e;
  }

  lemma PublishBegins(s: State)
    requires Inv(s) && Begun(s) && s.todo != [] && s.unmarked.None?
    ensures Begun(Next(s, Publish))
  {
    var e, sent := EventOf(s.todo[0]), Next(s, Publish).sent;
    forall id: nat ensures CreatedSent(s.sent, id) || (e.id == id && e.kind.Created?) ==> CreatedSent(sent, id) {
      CreatedStays(s.sent, e, id);
    }
    forall k | 0 <= k < |sent| ensures CreatedSent(sent[..k + 1], sent[k].id) {
      if k < |s.sent| {
        assert sent[..k + 1] == s.sent[..k + 1];
      } else {
        assert sent[..k + 1] == sent;
      }
    }
  }

  lemma StepBegins(s: State, step: Step)
    requires Inv(s) && Begun(s)
    ensures Begun(Next(s, step))
  {
    if step.Publish? && s.todo != [] && s.unmarked.None? { PublishBegins(s); }
  }

  lemma {:induction false} RunBegins(s: State, steps: seq<Step>)
    requires Inv(s) && Begun(s) && StampsAlwaysMove(s, steps)
    ensures Begun(Run(s, steps))
    decreases |steps|
  {
    if steps != [] {
      StepKeeps(s, steps[0]);
      StepBegins(s, steps[0]);
      RunBegins(Next(s, steps[0]), steps[1..]);
    }
  }

  /** From an empty table also no event of a row precedes its CREATED one. */
  lemma NoUpdateIsLostFromStart(steps: seq<Step>)
    requires StampsAlwaysMove(State([], [], [], None), steps)
    ensures var s := Run(State([], [], [], None), steps); NothingLost(s) && CreatedFirst(s.sent) && BeginsCreated(s.sent)
  {
    NoUpdateIsLost(State([], [], [], None), steps);
    RunBegins(State([], [], [], None), steps);
  }

  // ----- exactly what the stamp comparison protects against

  /** One row is read, updated before or after it is published from the reading, and marked. */
  function Overtaken(s: State, c: Change, stamp: int, now: int, published: bool): State
    requires s.todo != []
  {
    var write := Trading(Updating(s.todo[0].row.refSource, c, stamp));
    Next(if published then Next(Next(s, Publish), write) else Next(Next(s, write), Publish), Mark(now))
  }

  lemma OvertakenEitherWay(s: State, c: Change, stamp: int, now: int)
    requires s.todo != [] && s.unmarked.None?
    ensures Overtaken(s, c, stamp, now, true) == Overtaken(s, c, stamp, now, false)
  {
  }

  lemma OvertakenRow(s: State, c: Change, stamp: int, now: int)
    requires Inv(s) && s.unmarked.None? && s.todo != [] && s.rows[s.todo[0].id] == s.todo[0].row
    requires Update(s.rows, s.todo[0].row.refSource, c, stamp).Some?
    ensures var seen, after := s.todo[0], Overtaken(s, c, stamp, now, false);
      var written := Changed(seen.row, c, stamp);
      && |after.rows| == |s.rows| && after.sent == s.sent + [EventOf(seen)]
      && after.rows[seen.id] == if stamp == seen.row.updatedAt then written.(sync := Published, syncTime := Some(now)) else written
  {
    var seen := s.todo[0];
    var one := Next(s, Trading(Updating(seen.row.refSource, c, stamp)));
    assert one.rows[seen.id] == Changed(seen.row, c, stamp);
  }

  lemma SentOneMoreIff(sent: seq<Event>, e: Event, id: nat, row: Row)
    ensures WasSent(sent + [e], id, row) <==> WasSent(sent, id, row) || (e.id == id && Tells(e, row))
  {
    if WasSent(sent, id, row) { SentStays(sent, e, id, row); }
    assert (sent + [e])[|sent|] == e;
    if k :| 0 <= k < |sent + [e]| && (sent + [e])[k].id == id && Tells((sent + [e])[k], row) {
      assert k < |sent| ==> sent[k] == (sent + [e])[k];
    }
  }

  /** Before or after the publish, an accepted update that lands between read and mark survives exactly when its stamp is
      not the one that was read, or its content had been sent. */
  lemma OvertakenUpdateSurvivesIff(s: State, c: Change, stamp: int, now: int, published: bool)
    requires Inv(s) && s.unmarked.None? && s.todo != [] && Update(s.rows, s.todo[0].row.refSource, c, stamp).Some?
    requires var seen := s.todo[0]; s.rows[seen.id] == seen.row && seen.row.updatedAt <= stamp
    ensures |Overtaken(s, c, stamp, now, published).rows| == |s.rows|
    ensures
      var seen := s.todo[0];
      var written := Changed(seen.row, c, stamp);
      var after := Overtaken(s, c, stamp, now, published);
      && SameColumns(after.rows[seen.id], written)
      && ((after.rows[seen.id].sync.Published? ==> WasSent(after.sent, seen.id, after.rows[seen.id]))
          <==> (stamp != seen.row.updatedAt || SameColumns(written, seen.row) || WasSent(s.sent, seen.id, written)))
  {
    var seen := s.todo[0];
    OvertakenEitherWay(s, c, stamp, now);
    OvertakenRow(s, c, stamp, now);
    SentOneMoreIff(s.sent, EventOf(seen), seen.id, Overtaken(s, c, stamp, now, published).rows[seen.id]);
  }

  /** Stamps are whole seconds: on an empty table, an entry that is inserted, read, closed and marked within one
      second, the close landing before or after the publish, is never reported closed. */
  lemma SameSecondCloseIsLost(start: State, opening: seq<Step>, closing: seq<Step>, row: Row, c: Change, published: bool)
    requires start == State([], [], [], None) && c == Change(Sl, None, None, None)
    requires row == Row(Ticket(1), Ticket(1), "S", "XAUUSD", None, 1.0, None, Opened, None, Pending, None, 5)
    requires opening == [Trading(Inserting(row)), Snapshot]
    requires |closing| == 3 && closing[2] == Mark(5)
    requires closing[if published then 0 else 1] == Publish && closing[if published then 1 else 0] == Trading(Updating(Ticket(1), c, 5))
    ensures !NothingLost(Run(start, opening + closing))
  {
    var s := State([row], [], [Seen(0, row)], None);
    RunOn(start, opening, closing);
    RunTwo(start, opening);
    SnapshotOfOne(start, row);
    RunThree(s, closing);
    LostOnReading(s, c, row, published);
  }

  lemma SnapshotOfOne(start: State, row: Row)
    requires start == State([], [], [], None) && row.sync.Pending? && row.syncTime.None?
    ensures Next(Next(start, Trading(Inserting(row))), Snapshot) == State([row], [], [Seen(0, row)], None)
  {
    assert Written([], Inserting(row)) == [row];
    assert [row][..0] == [] && PendingRows([]) == [];
  }

  lemma LostOnReading(s: State, c: Change, row: Row, published: bool)
    requires s == State([row], [], [Seen(0, row)], None) && c == Change(Sl, None, None, None)
    requires row.status == Opened && row.sync.Pending? && row.updatedAt == 5
    ensures !NothingLost(Overtaken(s, c, 5, 5, published))
  {
    assert Inv(s);
    OvertakenUpdateSurvivesIff(s, c, 5, 5, published);
    OvertakenEitherWay(s, c, 5, 5);
    OvertakenRow(s, c, 5, 5);
    var after := Overtaken(s, c, 5, 5, published);
    assert after.rows[0].sync.Published? && !WasSent(after.sent, 0, after.rows[0]);
  }

  lemma RunTwo(s: State, t: seq<Step>)
    requires |t| == 2
    ensures Run(s, t) == Next(Next(s, t[0]), t[1])
  {
    assert t == t[..1] + [t[1]] && t[..1] == [] + [t[0]];
    RunOne(s, t[..1], t[1]);
    RunOne(s, [], t[0]);
  }

  lemma RunThree(s: State, t: seq<Step>)
    requires |t| == 3
    ensures Run(s, t) == Next(Next(Next(s, t[0]), t[1]), t[2])
  {
    assert t == t[..2] + [t[2]];
    RunOne(s, t[..2], t[2]);
    RunTwo(s, t[..2]);
  }

  // ----- one poll, as the job runs it

  /** The writes of other threads that land just before each row is published and before it is marked. */
  datatype Others = Others(beforePublish: seq<Write>, beforeMark: seq<Write>, now: int)

  function Traded(writes: seq<Write>): seq<Step> {
    seq(|writes|, i requires 0 <= i < |writes| => Trading(writes[i]))
  }

  function RowSteps(o: Others): seq<Step> {
    Traded(o.beforePublish) + [Publish] + Traded(o.beforeMark) + [Mark(o.now)]
  }

  /** The first `n` rounds of the poll's loop. */
  function LoopSteps(others: nat -> Others, n: nat): seq<Step> {
    if n == 0 then [] else LoopSteps(others, n - 1) + RowSteps(others(n - 1))
  }

  function PollSteps(rows: seq<Row>, others: nat -> Others): seq<Step> {
    [Snapshot] + LoopSteps(others, |PendingRows(rows)|)
  }

  lemma {:induction false} RunOn(s: State, first: seq<Step>, rest: seq<Step>)
    ensures Run(s, first + rest) == Run(Run(s, first), rest)
    decreases |first|
  {
    if first == [] {
      assert first + rest == rest;
    } else {
      assert (first + rest)[1..] == first[1..] + rest;
      RunOn(Next(s, first[0]), first[1..], rest);
    }
  }

  lemma RunOne(s: State, first: seq<Step>, last: Step)
    ensures Run(s, first + [last]) == Next(Run(s, first), last)
  {
    RunOn(s, first, [last]);
    assert [last][1..] == [];
  }

  function AllWritten(rows: seq<Row>, writes: seq<Write>): seq<Row> {
    if writes == [] then rows
    else Written(AllWritten(rows, writes[..|writes| - 1]), writes[|writes| - 1])
  }

  lemma {:induction false} TradedRun(s: State, writes: seq<Write>)
    ensures Run(s, Traded(writes)) == s.(rows := AllWritten(s.rows, writes))
  {
    if writes == [] {
    } else {
      var front, last := writes[..|writes| - 1], writes[|writes| - 1];
      TradedRun(s, front);
      assert Traded(writes) == Traded(front) + [Trading(last)];
      RunOne(s, Traded(front), Trading(last));
    }
  }

  /** One round of the loop: publish the row, then mark it, other threads writing in between. */
  lemma RowRun(s: State, o: Others)
    requires s.todo != [] && s.unmarked.None?
    ensures
      var seen := s.todo[0];
      var rows := AllWritten(AllWritten(s.rows, o.beforePublish), o.beforeMark);
      Run(s, RowSteps(o)) ==
        State(MarkSynced(rows, seen.id, seen.row.updatedAt, o.now), s.sent + [EventOf(seen)], s.todo[1..], None)
  {
    var before, during := Traded(o.beforePublish), Traded(o.beforeMark);
    RunOne(s, before + [Publish] + during, Mark(o.now));
    RunOn(s, before + [Publish], during);
    RunOne(s, before, Publish);
    TradedRun(s, o.beforePublish);
    TradedRun(Run(s, before + [Publish]), o.beforeMark);
  }

  lemma LoopRun(s: State, others: nat -> Others, n: nat)
    ensures Run(s, LoopSteps(others, n + 1)) == Run(Run(s, LoopSteps(others, n)), RowSteps(others(n)))
  {
    RunOn(s, LoopSteps(others, n), RowSteps(others(n)));
  }

  lemma PollRound(start: State, others: nat -> Others, k: nat, rows: seq<Row>, sent: seq<Event>, todo: seq<Seen>)
    requires k < |todo| && State(rows, sent, todo[k..], None) == Run(start, LoopSteps(others, k))
    ensures
      var written := AllWritten(AllWritten(rows, others(k).beforePublish), others(k).beforeMark);
      Run(start, LoopSteps(others, k + 1)) ==
        State(MarkSynced(written, todo[k].id, todo[k].row.updatedAt, others(k).now), sent + [EventOf(todo[k])], todo[k + 1..], None)
  {
    RowRun(State(rows, sent, todo[k..], None), others(k));
    LoopRun(start, others, k);
    assert todo[k..][1..] == todo[k + 1..] && todo[k..][0] == todo[k];
  }

  /** What other threads do to the table while a job is between two of its own actions. */
  method Interleave(db: PositionRepository, writes: seq<Write>)
    modifies db
    ensures db.rows == AllWritten(old(db.rows), writes)
  {
    for k := 0 to |writes|
      invariant db.rows == AllWritten(old(db.rows), writes[..k])
    {
      assert writes[..k + 1][..k] == writes[..k];
      match writes[k] {
        case Inserting(r) => var _ := db.InsertPosition(r.(sync := Pending, syncTime := None));
        case Updating(ref, c, now) => var _ := db.UpdatePositionStatus(ref, c, now);
      }
    }
    assert writes[..|writes|] == writes;
  }

  class PositionCdc {
    const db: PositionRepository
    var sent: seq<Event>

    constructor (db: PositionRepository)
      ensures this.db == db && sent == []
    {
      this.db := db;
      sent := [];
    }

    /** The poll is one interleaving of its own snapshot, publish and mark steps with those of others. */
    method Poll(others: nat -> Others)
      modifies this, db
      ensures
        var start := old(State(db.rows, sent, [], None));
        State(db.rows, sent, [], None) == Run(start, PollSteps(old(db.rows), others))
    {
      var todo := PendingRows(db.rows);
      ghost var start := State(db.rows, sent, todo, None);
      RunOn(State(db.rows, sent, [], None), [Snapshot], LoopSteps(others, |todo|));
      RunOne(State(db.rows, sent, [], None), [], Snapshot);
      for k := 0 to |todo|
        invariant State(db.rows, sent, todo[k..], None) == Run(start, LoopSteps(others, k))
      {
        var seen := todo[k];
        PollRound(start, others, k, db.rows, sent, todo);
        Interleave(db, others(k).beforePublish);
        sent := sent + [EventOf(seen)];
        Interleave(db, others(k).beforeMark);
        var _ := db.MarkPositionSynced(seen.id, seen.row.updatedAt, others(k).now);
      }
    }
  }

  // ----- a poll nobody disturbs

  ghost predicate Quiet(others: nat -> Others) {
    forall k: nat :: others(k).beforePublish == [] && others(k).beforeMark == []
  }

  ghost predicate Unread(s: State) {
    && s.unmarked.None?
    && (forall t :: 0 <= t < |s.todo| ==> s.todo[t].id < |s.rows| && s.rows[s.todo[t].id] == s.todo[t].row)
    && (forall t :: 0 <= t < |s.todo| ==> s.todo[t].row.sync.Pending?)
    && (forall j, k :: 0 <= j < k < |s.todo| ==> s.todo[j].id < s.todo[k].id)
  }

  /** `after` is `s` with the first `n` rows read published and marked, nothing else changed. */
  ghost predicate Drained(s: State, after: State, n: nat)
    requires n <= |s.todo|
  {
    && Unread(after) && after.todo == s.todo[n..]
    && after.sent == s.sent + seq(n, k requires 0 <= k < n => EventOf(s.todo[k]))
    && |after.rows| == |s.rows|
    && (forall i :: 0 <= i < |s.rows| ==> SameColumns(after.rows[i], s.rows[i]))
    && (forall i :: 0 <= i < |s.rows| && after.rows[i].sync.Pending? ==> after.rows[i] == s.rows[i])
    && (forall k :: 0 <= k < n ==> s.todo[k].id < |s.rows| && after.rows[s.todo[k].id].sync.Published?)
  }

  lemma DrainOne(s: State, mid: State, after: State, n: nat, now: int)
    requires n < |s.todo| && Unread(s) && Drained(s, mid, n)
    requires var seen := s.todo[n];
      after == State(MarkSynced(mid.rows, seen.id, seen.row.updatedAt, now), mid.sent + [EventOf(seen)], mid.todo[1..], None)
    ensures Drained(s, after, n + 1)
  {
    var seen := s.todo[n];
    assert mid.todo[0] == seen && mid.rows[seen.id] == seen.row;
    assert after.rows == mid.rows[seen.id := seen.row.(sync := Published, syncTime := Some(now))];
    assert forall t :: 0 <= t < |after.todo| ==> after.todo[t] == mid.todo[t + 1] && after.todo[t].id != seen.id;
    assert after.sent == s.sent + seq(n + 1, k requires 0 <= k < n + 1 => EventOf(s.todo[k]));
  }

  lemma QuietRow(s: State, o: Others)
    requires s.todo != [] && s.unmarked.None? && o.beforePublish == [] && o.beforeMark == []
    ensures var seen := s.todo[0];
      Run(s, RowSteps(o)) ==
        State(MarkSynced(s.rows, seen.id, seen.row.updatedAt, o.now), s.sent + [EventOf(seen)], s.todo[1..], None)
  {
    RowRun(s, o);
  }

  lemma DrainStart(s: State)
    requires Unread(s)
    ensures Drained(s, s, 0)
  {
    assert s.todo[0..] == s.todo && s.sent + [] == s.sent;
  }

  lemma DrainStep(s: State, mid: State, after: State, o: Others, n: nat)
    requires n < |s.todo| && Unread(s) && Drained(s, mid, n) && o.beforePublish == [] && o.beforeMark == []
    requires after == Run(mid, RowSteps(o))
    ensures Drained(s, after, n + 1)
  {
    assert mid.todo[0] == s.todo[n];
    QuietRow(mid, o);
    DrainOne(s, mid, after, n, o.now);
  }

  /** `rounds(k)` is the state after `k` rounds of the loop. */
  lemma {:induction false} QuietLoop(s: State, others: nat -> Others, rounds: nat -> State, n: nat)
    requires Unread(s) && Quiet(others) && n <= |s.todo|
    requires rounds(0) == s && forall k: nat :: rounds(k + 1) == Run(rounds(k), RowSteps(others(k)))
    ensures Drained(s, rounds(n), n)
  {
    if n == 0 {
      DrainStart(s);
    } else {
      QuietLoop(s, others, rounds, n - 1);
      DrainStep(s, rounds(n - 1), rounds(n), others(n - 1), n - 1);
    }
  }

  lemma PollRun(s: State, others: nat -> Others)
    ensures Run(s, PollSteps(s.rows, others)) == Run(Next(s, Snapshot), LoopSteps(others, |PendingRows(s.rows)|))
  {
    RunOn(s, [Snapshot], LoopSteps(others, |PendingRows(s.rows)|));
    RunOne(s, [], Snapshot);
    assert [] + [Snapshot] == [Snapshot];
  }

  lemma SnapshotIsUnread(s: State)
    ensures Unread(Next(s, Snapshot)) && Next(s, Snapshot).todo == PendingRows(s.rows)
  {
  }

  lemma QuietRounds(s: State, others: nat -> Others, n: nat)
    requires Unread(s) && Quiet(others) && n <= |s.todo|
    ensures Drained(s, Run(s, LoopSteps(others, n)), n)
  {
    var rounds := (k: nat) => Run(s, LoopSteps(others, k));
    forall k: nat ensures rounds(k + 1) == Run(rounds(k), RowSteps(others(k))) { LoopRun(s, others, k); }
    assert rounds(0) == s;
    QuietLoop(s, others, rounds, n);
  }

  lemma QuietRun(s: State, others: nat -> Others)
    requires Quiet(others)
    ensures Drained(Next(s, Snapshot), Run(s, PollSteps(s.rows, others)), |PendingRows(s.rows)|)
  {
    PollRun(s, others);
    SnapshotIsUnread(s);
    QuietRounds(Next(s, Snapshot), others, |PendingRows(s.rows)|);
  }

  /** When nobody else writes, one poll sends every pending row once, in table order, as CREATED when it was never
      published and as UPDATED otherwise, and leaves the whole table published as it was. */
  lemma QuietPollDrains(s: State, others: nat -> Others)
    requires Quiet(others) && s.unmarked.None?
    ensures
      var todo := PendingRows(s.rows);
      var after := Run(s, PollSteps(s.rows, others));
      && |after.rows| == |s.rows| && |after.sent| == |s.sent| + |todo| && after.sent[..|s.sent|] == s.sent
      && (forall k :: 0 <= k < |todo| ==>
            var e, row := after.sent[|s.sent| + k], s.rows[todo[k].id];
            e.id == todo[k].id && Tells(e, row) && (e.kind.Created? <==> row.syncTime.None?))
      && forall i :: 0 <= i < |s.rows| ==> after.rows[i].sync.Published? && SameColumns(after.rows[i], s.rows[i])
  {
    var after := Run(s, PollSteps(s.rows, others));
    QuietRun(s, others);
    forall i | 0 <= i < |s.rows| ensures after.rows[i].sync.Published? {
      assert s.rows[i].sync.Pending? ==> Seen(i, s.rows[i]) in PendingRows(s.rows);
    }
  }
}
