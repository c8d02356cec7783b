/**
 * Detecting closes the terminal made on its own: each scan diffs the live tickets against the
 * ones seen by the last completed scan and looks up the deal that flattened each vanished one.
 */
module CloseDetector {
  import opened Wrappers
  import opened CycleStatus
  import opened Repository
  import opened Scans

  datatype Position = Position(ticket: nat, magic: int)

  datatype Entry = In | Out | OutBy | InOut

  /** Why a deal was made; an expert deal is the worker's own order. */
  datatype DealReason = Client | Mobile | Web | Expert | StopLoss | TakeProfit | StopOut | Unmapped

  datatype CloseReason = ClosedBySl | ClosedByTp | ClosedByStopOut | ClosedManually

  datatype Deal = Deal(ticket: nat, time: int, entry: Entry, reason: DealReason, price: real)

  datatype ClosedEvent = ClosedEvent(ticket: nat, deal: int, reason: CloseReason, price: real)

  // ----- the deal that flattened a position

  predicate Closing(d: Deal) { d.entry.Out? || d.entry.OutBy? }

  /** The order of (time, ticket) pairs. */
  predicate Before(a: Deal, b: Deal) { a.time < b.time || (a.time == b.time && a.ticket < b.ticket) }

  /** `d` is the first of the newest closing deals. */
  ghost predicate IsNewest(deals: seq<Deal>, d: Deal) {
    exists k :: 0 <= k < |deals| && NewestAt(deals, d, k)
  }

  ghost predicate NewestAt(deals: seq<Deal>, d: Deal, k: int)
    requires 0 <= k < |deals|
  {
    && deals[k] == d && Closing(d)
    && (forall j :: 0 <= j < |deals| && Closing(deals[j]) ==> !Before(d, deals[j]))
    && (forall j :: 0 <= j < k && Closing(deals[j]) ==> Before(deals[j], d))
  }

  method NewestClosing(deals: seq<Deal>) returns (newest: Option<Deal>)
    ensures newest.None? <==> forall j :: 0 <= j < |deals| ==> !Closing(deals[j])
    ensures newest.Some? ==> IsNewest(deals, newest.value)
  {
    newest := None;
    ghost var at := 0;
    for i := 0 to |deals|
      invariant newest.None? ==> forall j :: 0 <= j < i ==> !Closing(deals[j])
      invariant newest.Some? ==> 0 <= at < i && deals[at] == newest.value && Closing(newest.value)
      invariant newest.Some? ==> forall j :: 0 <= j < i && Closing(deals[j]) ==> !Before(newest.value, deals[j])
      invariant newest.Some? ==> forall j :: 0 <= j < at && Closing(deals[j]) ==> Before(deals[j], newest.value)
    {
      if Closing(deals[i]) && (newest.None? || Before(newest.value, deals[i])) {
        newest := Some(deals[i]);
        at := i;
      }
    }
    assert newest.Some? ==> NewestAt(deals, newest.value, at);
  }

  /** The newest closing deal is unique up to equality, so the reason reported does not depend on the order of history. */
  lemma NewestIsUnique(deals: seq<Deal>, a: Deal, b: Deal)
    requires IsNewest(deals, a) && IsNewest(deals, b)
    ensures a == b
  {
    var i :| 0 <= i < |deals| && NewestAt(deals, a, i);
    var k :| 0 <= k < |deals| && NewestAt(deals, b, k);
    assert i < k ==> Before(a, b);
    assert k < i ==> Before(b, a);
  }

  /** A closing deal later than every other, by time and then by ticket, is the newest. */
  lemma LaterDealIsNewest(deals: seq<Deal>, d: Deal)
    requires d.entry == Out || d.entry == OutBy
    requires forall k :: 0 <= k < |deals| ==> deals[k].time < d.time || (deals[k].time == d.time && deals[k].ticket < d.ticket)
    ensures IsNewest(deals + [d], d)
  {
    assert NewestAt(deals + [d], d, |deals|);
  }

  /** A deal that only opens or reverses never matters. */
  lemma OpeningDealDoesNotMatter(deals: seq<Deal>, d: Deal, newest: Deal)
    requires d.entry == In || d.entry == InOut
    ensures IsNewest(deals + [d], newest) <==> IsNewest(deals, newest)
  {
    var all := deals + [d];
    assert all[|deals|] == d;
    assert forall k :: 0 <= k < |deals| ==> all[k] == deals[k];
    forall k | 0 <= k < |deals| ensures NewestAt(all, newest, k) <==> NewestAt(deals, newest, k) { }
  }

  function ReasonOf(r: DealReason): Option<CloseReason> {
    match r
    case StopLoss => Some(ClosedBySl)
    case TakeProfit => Some(ClosedByTp)
    case StopOut => Some(ClosedByStopOut)
    case Client => Some(ClosedManually)
    case Mobile => Some(ClosedManually)
    case Web => Some(ClosedManually)
    case Expert => None
    case Unmapped => None
  }

  /** The close a terminal's deal stands for: its stop, its target, a stop-out, or a trader's own hand. */
  predicate Means(d: DealReason, c: CloseReason) {
    || (d == StopLoss && c == ClosedBySl) || (d == TakeProfit && c == ClosedByTp) || (d == StopOut && c == ClosedByStopOut)
    || ((d == Client || d == Mobile || d == Web) && c == ClosedManually)
  }

  /** What is reported for a vanished ticket, given its deal history: nothing when there is no closing deal or the
      newest one is the worker's own or unknown, else that deal. */
  ghost predicate Reports(ticket: nat, deals: seq<Deal>, event: Option<ClosedEvent>) {
    match event
    case None => forall d :: IsNewest(deals, d) ==> d.reason == Expert || d.reason == Unmapped
    case Some(e) => exists d :: IsNewest(deals, d) && Means(d.reason, e.reason) && e == ClosedEvent(ticket, d.ticket, e.reason, d.price)
  }

  method BuildEvent(ticket: nat, deals: seq<Deal>) returns (event: Option<ClosedEvent>)
    ensures Reports(ticket, deals, event)
  {
    var newest := NewestClosing(deals);
    if newest.None? { return None; }
    var reason := ReasonOf(newest.value.reason);
    if reason.None? {
      forall d | IsNewest(deals, d) ensures d.reason == Expert || d.reason == Unmapped { NewestIsUnique(deals, d, newest.value); }
      return None;
    }
    return Some(ClosedEvent(ticket, newest.value.ticket, reason.value, newest.value.price));
  }

  // ----- scans

  /** Terminal offline, a history read that raised half way, or a scan that ran to its end. */
  datatype Scan = Offline | Raised | Ran(positions: seq<Position>, magics: set<int>)

  function LiveTickets(s: Scan): set<nat>
    requires s.Ran?
  {
    set p <- s.positions | p.magic in s.magics :: p.ticket
  }

  function Observed(s: Scan): Option<set<nat>> {
    if s.Ran? then Some(LiveTickets(s)) else None
  }

  function Observations(scans: seq<Scan>): seq<Option<set<nat>>> {
    seq(|scans|, i requires 0 <= i < |scans| => Observed(scans[i]))
  }

  /** The tickets whose history scan `i` looks up to the end. */
  function Examined(scans: seq<Scan>, i: nat): set<nat>
    requires i < |scans|
  {
    if scans[i].Ran? then LastSeen(Observations(scans), i) - LiveTickets(scans[i]) else {}
  }

  /** The scan ran to its end and saw the ticket under one of the owned magics. */
  ghost predicate SawLive(s: Scan, ticket: nat) {
    s.Ran? && exists p :: p in s.positions && p.ticket == ticket && p.magic in s.magics
  }

  /** A ticket is examined exactly when it was live at one completed scan and gone at the next. */
  lemma ExaminedIff(scans: seq<Scan>, i: nat, ticket: nat)
    requires i < |scans| && scans[i].Ran?
    ensures ticket in Examined(scans, i) <==>
      !SawLive(scans[i], ticket)
      && exists j :: 0 <= j < i && SawLive(scans[j], ticket) && forall k :: j < k < i ==> !scans[k].Ran?
  {
    var seen := Observations(scans);
    LastSeenIff(seen, i, ticket);
    forall j | 0 <= j < i && scans[j].Ran? && forall k :: j < k < i ==> !scans[k].Ran? ensures Consecutive(seen, j, i) {
    }
  }

  /** A ticket is not examined twice unless it was live again in between: one vanishing, one report. */
  lemma ExaminedOncePerVanishing(scans: seq<Scan>, i: nat, k: nat, ticket: nat)
    requires i < k < |scans| && ticket in Examined(scans, i) && ticket in Examined(scans, k)
    ensures exists j :: i < j < k && SawLive(scans[j], ticket)
  {
    ExaminedIff(scans, i, ticket);
    ExaminedIff(scans, k, ticket);
  }

  /** With every offline or failed scan dropped, each scan examines what it misses from the scan before. */
  lemma OfflineScansDoNotMatter(scans: seq<Scan>, i: nat, k: nat)
    requires i < |scans| && scans[i].Ran? && k == |Completed(Observations(scans)[..i])|
    ensures k < |Completed(Observations(scans))|
    ensures Examined(scans, i) == Previous(Completed(Observations(scans)), k) - Completed(Observations(scans))[k]
  {
    var seen := Observations(scans);
    RunIsRunOfCompletedScans(seen);
    ComparedAt(seen, i);
    assert Comparisons(seen)[k] == (LastSeen(seen, i), LiveTickets(scans[i]));
  }

  // ----- the polling job

  /** The reports of a scan that ran to its end: one per examined ticket whose close was the terminal's. */
  ghost predicate ReportsOf(events: seq<ClosedEvent>, vanished: set<nat>, history: nat -> seq<Deal>) {
    && (forall k :: 0 <= k < |events| ==> events[k].ticket in vanished && Reports(events[k].ticket, history(events[k].ticket), Some(events[k])))
    && (forall t :: t in vanished ==> Reports(t, history(t), None) || exists k :: 0 <= k < |events| && events[k].ticket == t)
    && (forall j, k :: 0 <= j < k < |events| ==> events[j].ticket != events[k].ticket)
  }

  /** The row an event closes; an event whose ticket is not tracked changes nothing. */
  function EventHandled(rows: seq<Row>, e: ClosedEvent, now: int): seq<Row> {
    Applied(rows, Ticket(e.ticket), Change(TerminalClosed, Some(Ticket(e.deal)), Some(e.price), None), now)
  }

  /** Whether handling an event raises, and on which side of its table write. */
  datatype Failure = NoFailure | BeforeWrite | AfterWrite

  /** Handling a batch: an event whose handler raises before its write changes nothing. */
  function BatchHandled(rows: seq<Row>, events: seq<ClosedEvent>, failure: ClosedEvent -> Failure, now: int): seq<Row> {
    if events == [] then rows
    else
      var last := events[|events| - 1];
      var before := BatchHandled(rows, events[..|events| - 1], failure, now);
      if failure(last).BeforeWrite? then before else EventHandled(before, last, now)
  }

  /** The last event about row `r` whose handler reaches its write. */
  ghost predicate LastAbout(events: seq<ClosedEvent>, failure: ClosedEvent -> Failure, r: Row, k: int) {
    && 0 <= k < |events| && failure(events[k]) != BeforeWrite && r.refSource == Ticket(events[k].ticket)
    && forall j :: k < j < |events| ==> failure(events[j]) == BeforeWrite || r.refSource != Ticket(events[j].ticket)
  }

  /** The row closed by the deal of this event. */
  function ClosedByDeal(r: Row, e: ClosedEvent, now: int): Row {
    r.(status := TerminalClosed, refId := Ticket(e.deal), closedPrice := Some(e.price), sync := Pending, updatedAt := now)
  }

  /** A failing event never costs another one its row: a row is closed, with its own deal and price, exactly when
      its own event could be handled. */
  lemma {:induction false} EventsAreIsolated(rows: seq<Row>, events: seq<ClosedEvent>, failure: ClosedEvent -> Failure, now: int, i: nat)
    requires i < |rows|
    ensures var after := BatchHandled(rows, events, failure, now);
      && |after| == |rows|
      && (forall k :: LastAbout(events, failure, rows[i], k) ==> after[i] == ClosedByDeal(rows[i], events[k], now))
      && ((forall k :: !LastAbout(events, failure, rows[i], k)) ==> after[i] == rows[i])
  {
    if events != [] {
      var n := |events| - 1;
      var front, last := events[..n], events[n];
      EventsAreIsolated(rows, front, failure, now, i);
      if failure(last) != BeforeWrite && rows[i].refSource == Ticket(last.ticket) {
        LastIsAbout(events, failure, rows[i]);
        if k :| LastAbout(front, failure, rows[i], k) { assert front[k] == events[k]; }
      } else {
        forall k ensures LastAbout(events, failure, rows[i], k) <==> LastAbout(front, failure, rows[i], k) {
          EarlierIsAbout(events, failure, rows[i], k);
        }
      }
    }
  }

  lemma LastIsAbout(events: seq<ClosedEvent>, failure: ClosedEvent -> Failure, r: Row)
    requires events != [] && failure(events[|events| - 1]) != BeforeWrite && r.refSource == Ticket(events[|events| - 1].ticket)
    ensures forall k :: LastAbout(events, failure, r, k) <==> k == |events| - 1
  {
  }

  lemma EarlierIsAbout(events: seq<ClosedEvent>, failure: ClosedEvent -> Failure, r: Row, k: int)
    requires events != [] && (failure(events[|events| - 1]) == BeforeWrite || r.refSource != Ticket(events[|events| - 1].ticket))
    ensures LastAbout(events, failure, r, k) <==> LastAbout(events[..|events| - 1], failure, r, k)
  {
    var front := events[..|events| - 1];
    assert forall j :: 0 <= j < |front| ==> front[j] == events[j];
  }

  class Mt5EventJob {
    const db: PositionRepository
    /** Mutated in place by each completed scan. */
    var seen: set<nat>

    constructor (db: PositionRepository)
      ensures this.db == db && seen == {}
    {
      this.db := db;
      seen := {};
    }

    /** The history read of the `failAt`-th vanished ticket raises, if that many vanished. */
    method ScanTerminalClosed(positions: Option<seq<Position>>, magics: set<int>, history: nat -> seq<Deal>, failAt: Option<nat>)
        returns (scan: Scan, events: seq<ClosedEvent>)
      modifies this`seen
      ensures scan.Ran? ==> positions.Some? && scan == Ran(positions.value, magics)
      ensures scan.Offline? <==> positions.None?
      ensures positions.Some? ==>
        (scan.Raised? <==> failAt.Some? && failAt.value < |old(seen) - LiveTickets(Ran(positions.value, magics))|)
      ensures scan.Ran? ==> ReportsOf(events, old(seen) - LiveTickets(scan), history) && seen == LiveTickets(scan)
      ensures !scan.Ran? ==> events == [] && seen == old(seen)
    {
      if positions.None? { return Offline, []; }
      scan := Ran(positions.value, magics);
      var current := LiveTickets(scan);
      ghost var vanished := seen - current;
      var rest := seen - current;
      var count := 0;
      events := [];
      while rest != {}
        invariant rest <= vanished && seen == old(seen) && count + |rest| == |vanished|
        invariant failAt.Some? ==> count <= failAt.value
        invariant ReportsOf(events, vanished - rest, history)
        decreases |rest|
      {
        var ticket :| ticket in rest;
        if failAt == Some(count) { return Raised, []; }
        var event := BuildEvent(ticket, history(ticket));
        ReportOne(events, vanished - rest, history, ticket, event);
        if event.Some? { events := events + [event.value]; }
        assert vanished - (rest - {ticket}) == (vanished - rest) + {ticket};
        count, rest := count + 1, rest - {ticket};
      }
      assert vanished - rest == vanished;
      seen := current;
    }

    /** Each event is handled on its own: an exception does not reach the next one. */
    method HandleAll(events: seq<ClosedEvent>, failure: ClosedEvent -> Failure, now: int)
      modifies db
      ensures db.rows == BatchHandled(old(db.rows), events, failure, now)
    {
      for k := 0 to |events|
        invariant db.rows == BatchHandled(old(db.rows), events[..k], failure, now)
      {
        assert events[..k + 1][..k] == events[..k];
        if !failure(events[k]).BeforeWrite? {
          var change := Change(TerminalClosed, Some(Ticket(events[k].deal)), Some(events[k].price), None);
          var _ := db.UpdatePositionStatus(Ticket(events[k].ticket), change, now);
        }
      }
      assert events[..|events|] == events;
    }
  }

  lemma ReportOne(events: seq<ClosedEvent>, done: set<nat>, history: nat -> seq<Deal>, ticket: nat, event: Option<ClosedEvent>)
    requires ReportsOf(events, done, history) && ticket !in done && Reports(ticket, history(ticket), event)
    ensures ReportsOf(if event.Some? then events + [event.value] else events, done + {ticket}, history)
  {
    if event.Some? {
      var after := events + [event.value];
      assert after[|events|].ticket == ticket;
      forall t | t in done + {ticket}
        ensures Reports(t, history(t), None) || exists k :: 0 <= k < |after| && after[k].ticket == t
      {
        if t != ticket && !Reports(t, history(t), None) {
          var k :| 0 <= k < |events| && events[k].ticket == t;
          assert after[k].ticket == t;
        }
      }
    }
  }
}
