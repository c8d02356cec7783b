/**
 * The trading platform behind the FOREX executor: the live positions, and orders each of which may
 * succeed or fail. The n-th order of a run is filled exactly when `ok(n)` holds; a filled order's
 * own ticket is its number, so numbers never repeat.
 */
module Broker {
  import opened Wrappers
  import opened Repository

  datatype Position = Position(ticket: int, magic: int, symbol: string, volume: real, priceOpen: real, sl: real)

  /** `next` numbers the next order; every live ticket is below it. */
  datatype Book = Book(live: seq<Position>, next: int)

  /** A trade result: the order's ticket, the position it is booked on, and after TP1 the failsafe's outcome. */
  datatype Result = Result(success: bool, ticket: int, source: Option<Ref>, failsafe: Option<bool>)

  function Fail(): Result { Result(false, 0, None, None) }

  // ----- which positions a call addresses

  /** Positions on a resolved symbol under any of `magics`: one strategy's, or all the worker owns. */
  function OpenPositions(live: seq<Position>, symbol: string, magics: set<int>): seq<Position> {
    if live == [] then []
    else
      var last := live[|live| - 1];
      OpenPositions(live[..|live| - 1], symbol, magics) + (if last.symbol == symbol && last.magic in magics then [last] else [])
  }

  function FilterByTicket(positions: seq<Position>, ticket: Option<Ref>): seq<Position> {
    if ticket.None? then positions
    else if positions == [] then []
    else
      var last := positions[|positions| - 1];
      FilterByTicket(positions[..|positions| - 1], ticket) + (if Ticket(last.ticket) == ticket.value then [last] else [])
  }

  /** The addressed position if it is listed, else the first one. */
  function Pick(positions: seq<Position>, ticket: int): Position
    requires positions != []
  {
    var own := FilterByTicket(positions, Some(Ticket(ticket)));
    if own != [] then own[0] else positions[0]
  }

  lemma {:induction false} OpenPositionsIff(live: seq<Position>, symbol: string, magics: set<int>)
    ensures forall p :: p in OpenPositions(live, symbol, magics) <==> p in live && p.symbol == symbol && p.magic in magics
  {
    if live != [] {
      OpenPositionsIff(live[..|live| - 1], symbol, magics);
      assert live == live[..|live| - 1] + [live[|live| - 1]];
    }
  }

  lemma {:induction false} FilterByTicketIff(positions: seq<Position>, ticket: Option<Ref>)
    ensures forall p :: p in FilterByTicket(positions, ticket) <==> p in positions && (ticket.Some? ==> Ticket(p.ticket) == ticket.value)
  {
    if ticket.Some? && positions != [] {
      FilterByTicketIff(positions[..|positions| - 1], ticket);
      assert positions == positions[..|positions| - 1] + [positions[|positions| - 1]];
    }
  }

  // ----- orders

  /** The book without a ticket, or with the one position under it replaced. */
  function Without(live: seq<Position>, ticket: int): seq<Position> {
    if live == [] then []
    else
      var last := live[|live| - 1];
      Without(live[..|live| - 1], ticket) + (if last.ticket == ticket then [] else [last])
  }

  function WithVolume(live: seq<Position>, ticket: int, volume: real): seq<Position> {
    seq(|live|, i requires 0 <= i < |live| => if live[i].ticket == ticket then live[i].(volume := volume) else live[i])
  }

  function WithSl(live: seq<Position>, ticket: int, sl: real): seq<Position> {
    seq(|live|, i requires 0 <= i < |live| => if live[i].ticket == ticket then live[i].(sl := sl) else live[i])
  }

  /** A close order for `volume` of a position, its whole volume by default. */
  function Closed(b: Book, p: Position, volume: Option<real>, ok: int -> bool): (Book, bool) {
    if ok(b.next) then (Book(LiveAfter(b.live, p, volume), b.next + 1), true) else (b.(next := b.next + 1), false)
  }

  function LiveAfter(live: seq<Position>, p: Position, volume: Option<real>): seq<Position> {
    if volume.None? || volume.value >= p.volume then Without(live, p.ticket)
    else WithVolume(live, p.ticket, p.volume - volume.value)
  }

  /** Close orders for each of `positions`, and the ticket of the last one filled. */
  function ClosedEach(b: Book, positions: seq<Position>, ok: int -> bool): (Book, Option<int>) {
    if positions == [] then (b, None)
    else
      var n := |positions| - 1;
      var (before, filled) := ClosedEach(b, positions[..n], ok);
      var (after, success) := Closed(before, positions[n], None, ok);
      (after, if success then Some(before.next) else filled)
  }

  /** Close every position on a symbol under `magics`, or the one addressed; booked on the first of them. */
  function ClosedAll(b: Book, symbol: string, magics: set<int>, ticket: Option<Ref>, ok: int -> bool): (Book, Result) {
    var positions := FilterByTicket(OpenPositions(b.live, symbol, magics), ticket);
    if positions == [] then (b, Fail())
    else
      var (after, filled) := ClosedEach(b, positions, ok);
      if filled.Some? then (after, Result(true, filled.value, Some(Ticket(positions[0].ticket)), None))
      else (after, Fail())
  }

  /** A partial close never asks for more than is open. */
  function PartlyClosed(b: Book, symbol: string, magics: set<int>, ticket: int, volume: real, ok: int -> bool): (Book, Result) {
    var positions := OpenPositions(b.live, symbol, magics);
    if positions == [] then (b, Fail())
    else
      var p := Pick(positions, ticket);
      var (after, success) := Closed(b, p, Some(if volume < p.volume then volume else p.volume), ok);
      (after, if success then Result(true, b.next, Some(Ticket(p.ticket)), None) else Fail())
  }

  function SlMoved(b: Book, symbol: string, magics: set<int>, ticket: int, sl: real, ok: int -> bool): (Book, bool) {
    var positions := OpenPositions(b.live, symbol, magics);
    if positions == [] then (b, false)
    else if !ok(b.next) then (b.(next := b.next + 1), false)
    else (Book(WithSl(b.live, Pick(positions, ticket).ticket, sl), b.next + 1), true)
  }

  function Placed(b: Book, symbol: string, magic: int, volume: real, price: real, sl: real, ok: int -> bool): (Book, Result) {
    if !ok(b.next) then (b.(next := b.next + 1), Fail())
    else (Book(b.live + [Position(b.next, magic, symbol, volume, price, sl)], b.next + 1), Result(true, b.next, None, None))
  }

  // ----- what a call can change

  /** Tickets are distinct and below the next number. */
  ghost predicate Numbered(b: Book) {
    && (forall i :: 0 <= i < |b.live| ==> b.live[i].ticket < b.next)
    && (forall i, j :: 0 <= i < j < |b.live| ==> b.live[i].ticket != b.live[j].ticket)
  }

  /** A choice of positions that no volume or stop change can enter or leave. */
  ghost predicate ByIdentity(keep: Position -> bool) {
    forall p, q {:trigger SameIdentity(p, q)} :: SameIdentity(p, q) ==> keep(p) == keep(q)
  }

  predicate SameIdentity(p: Position, q: Position) { p.ticket == q.ticket && p.magic == q.magic && p.symbol == q.symbol }

  /** The chosen positions are live before and after alike, volume and stop included. */
  ghost predicate Same(before: seq<Position>, after: seq<Position>, keep: Position -> bool) {
    forall p :: keep(p) ==> (p in before <==> p in after)
  }

  /** What a call that addresses no chosen position does to the book. */
  ghost predicate Keeps(b: Book, after: Book, keep: Position -> bool) {
    && Numbered(after) && b.next <= after.next
    && Same(b.live, after.live, keep)
    && (forall p :: p in after.live ==> exists q :: q in b.live && SameIdentity(p, q))
  }

  predicate IsAddressed(p: Position, symbol: string, magics: set<int>, ticket: Option<Ref>) {
    p.symbol == symbol && p.magic in magics && (ticket.Some? ==> Ticket(p.ticket) == ticket.value)
  }

  /** A call on this symbol, these magics and this ticket addresses no chosen position. */
  ghost predicate Spares(b: Book, symbol: string, magics: set<int>, ticket: Option<Ref>, keep: Position -> bool) {
    forall p :: p in b.live && IsAddressed(p, symbol, magics, ticket) ==> !keep(p)
  }

  /** Nothing live under the ticket is chosen. */
  ghost predicate SparesTicket(live: seq<Position>, ticket: int, keep: Position -> bool) {
    forall p :: p in live && p.ticket == ticket ==> !keep(p)
  }

  lemma KeepsTrans(a: Book, b: Book, c: Book, keep: Position -> bool)
    requires Keeps(a, b, keep) && Keeps(b, c, keep)
    ensures Keeps(a, c, keep)
  {
    forall p | p in c.live ensures exists q :: q in a.live && SameIdentity(p, q) {
      var q :| q in b.live && SameIdentity(p, q);
      var r :| r in a.live && SameIdentity(q, r);
      assert SameIdentity(p, r);
    }
  }

  lemma KeepsRefl(b: Book, keep: Position -> bool)
    requires Numbered(b)
    ensures Keeps(b, b, keep)
  {
    forall p | p in b.live ensures exists q :: q in b.live && SameIdentity(p, q) {
      assert SameIdentity(p, p);
    }
  }

  lemma RefusedKeeps(b: Book, keep: Position -> bool)
    requires Numbered(b)
    ensures Keeps(b, b.(next := b.next + 1), keep)
  {
    KeepsRefl(b, keep);
  }

  lemma AddressedByIdentity(p: Position, q: Position, symbol: string, magics: set<int>, ticket: Option<Ref>, keep: Position -> bool)
    requires ByIdentity(keep) && SameIdentity(p, q) && IsAddressed(p, symbol, magics, ticket)
    ensures IsAddressed(q, symbol, magics, ticket) && keep(p) == keep(q)
  {
  }

  lemma OriginOf(b: Book, after: Book, keep: Position -> bool, p: Position) returns (q: Position)
    requires Keeps(b, after, keep) && p in after.live
    ensures q in b.live && SameIdentity(p, q)
  {
    q :| q in b.live && SameIdentity(p, q);
  }

  lemma SparesStays(b: Book, after: Book, symbol: string, magics: set<int>, ticket: Option<Ref>, keep: Position -> bool)
    requires ByIdentity(keep) && Keeps(b, after, keep) && Spares(b, symbol, magics, ticket, keep)
    ensures Spares(after, symbol, magics, ticket, keep)
  {
    forall p | p in after.live && IsAddressed(p, symbol, magics, ticket) ensures !keep(p) {
      var q := OriginOf(b, after, keep, p);
      AddressedByIdentity(p, q, symbol, magics, ticket, keep);
    }
  }

  lemma {:induction false} WithoutIff(live: seq<Position>, ticket: int)
    ensures forall p :: p in Without(live, ticket) <==> p in live && p.ticket != ticket
  {
    if live != [] {
      WithoutIff(live[..|live| - 1], ticket);
      assert live == live[..|live| - 1] + [live[|live| - 1]];
    }
  }

  lemma {:induction false} WithoutKeepsDistinct(live: seq<Position>, ticket: int)
    requires forall i, j :: 0 <= i < j < |live| ==> live[i].ticket != live[j].ticket
    ensures forall i, j :: 0 <= i < j < |Without(live, ticket)| ==> Without(live, ticket)[i].ticket != Without(live, ticket)[j].ticket
  {
    if live != [] {
      var front, last := live[..|live| - 1], live[|live| - 1];
      WithoutKeepsDistinct(front, ticket);
      WithoutIff(front, ticket);
      assert forall p :: p in front ==> p.ticket != last.ticket;
      assert forall i :: 0 <= i < |Without(front, ticket)| ==> Without(front, ticket)[i] in front;
    }
  }

  lemma WithoutKeeps(b: Book, ticket: int, keep: Position -> bool)
    requires Numbered(b) && SparesTicket(b.live, ticket, keep)
    ensures Keeps(b, Book(Without(b.live, ticket), b.next + 1), keep)
  {
    var live := Without(b.live, ticket);
    WithoutIff(b.live, ticket);
    WithoutKeepsDistinct(b.live, ticket);
    forall p | p in live ensures exists q :: q in b.live && SameIdentity(p, q) { assert SameIdentity(p, p); }
    forall i | 0 <= i < |live| ensures live[i].ticket < b.next { assert live[i] in live; }
  }

  /** Replacing the position under one ticket by one of the same identity. */
  lemma ReplacedKeeps(b: Book, live: seq<Position>, ticket: int, keep: Position -> bool)
    requires Numbered(b) && ByIdentity(keep) && SparesTicket(b.live, ticket, keep) && |live| == |b.live|
    requires forall i :: 0 <= i < |live| ==> SameIdentity(live[i], b.live[i]) && (b.live[i].ticket != ticket ==> live[i] == b.live[i])
    ensures Keeps(b, Book(live, b.next + 1), keep)
  {
    forall p | keep(p) ensures p in b.live <==> p in live {
      if p in b.live {
        var i :| 0 <= i < |b.live| && b.live[i] == p;
        assert live[i] == p;
      }
      if p in live {
        var i :| 0 <= i < |live| && live[i] == p;
        assert SameIdentity(p, b.live[i]) && keep(b.live[i]) && b.live[i] in b.live;
      }
    }
    forall p | p in live ensures exists q :: q in b.live && SameIdentity(p, q) {
      var i :| 0 <= i < |live| && live[i] == p;
      assert b.live[i] in b.live;
    }
  }

  lemma VolumeReplacedKeeps(b: Book, ticket: int, volume: real, keep: Position -> bool)
    requires Numbered(b) && ByIdentity(keep) && SparesTicket(b.live, ticket, keep)
    ensures Keeps(b, Book(WithVolume(b.live, ticket, volume), b.next + 1), keep)
  {
    ReplacedKeeps(b, WithVolume(b.live, ticket, volume), ticket, keep);
  }

  lemma FilledKeeps(b: Book, p: Position, volume: Option<real>, keep: Position -> bool)
    requires Numbered(b) && ByIdentity(keep) && SparesTicket(b.live, p.ticket, keep)
    ensures Keeps(b, Book(LiveAfter(b.live, p, volume), b.next + 1), keep)
  {
    if volume.None? || volume.value >= p.volume {
      WithoutKeeps(b, p.ticket, keep);
    } else {
      VolumeReplacedKeeps(b, p.ticket, p.volume - volume.value, keep);
    }
  }

  lemma ClosedKeeps(b: Book, p: Position, volume: Option<real>, ok: int -> bool, keep: Position -> bool)
    requires Numbered(b) && ByIdentity(keep) && SparesTicket(b.live, p.ticket, keep)
    ensures Keeps(b, Closed(b, p, volume, ok).0, keep)
  {
    if ok(b.next) { FilledKeeps(b, p, volume, keep); } else { RefusedKeeps(b, keep); }
  }

  lemma SparesTicketStays(b: Book, after: Book, ticket: int, keep: Position -> bool)
    requires ByIdentity(keep) && Keeps(b, after, keep) && SparesTicket(b.live, ticket, keep)
    ensures SparesTicket(after.live, ticket, keep)
  {
    forall p | p in after.live && p.ticket == ticket ensures !keep(p) {
      var q :| q in b.live && SameIdentity(p, q);
    }
  }

  lemma {:induction false} ClosedEachKeeps(b: Book, positions: seq<Position>, ok: int -> bool, keep: Position -> bool)
    requires Numbered(b) && ByIdentity(keep)
    requires forall i :: 0 <= i < |positions| ==> SparesTicket(b.live, positions[i].ticket, keep)
    ensures Keeps(b, ClosedEach(b, positions, ok).0, keep)
  {
    if positions == [] {
      KeepsRefl(b, keep);
    } else {
      var n := |positions| - 1;
      var before := ClosedEach(b, positions[..n], ok).0;
      ClosedEachKeeps(b, positions[..n], ok, keep);
      SparesTicketStays(b, before, positions[n].ticket, keep);
      ClosedKeeps(before, positions[n], None, ok, keep);
      KeepsTrans(b, before, Closed(before, positions[n], None, ok).0, keep);
    }
  }

  /** Closing several succeeds exactly when one of their orders was filled. */
  lemma {:induction false} ClosedEachSucceedsIff(b: Book, positions: seq<Position>, ok: int -> bool)
    ensures var (after, filled) := ClosedEach(b, positions, ok);
      && after.next == b.next + |positions|
      && (filled.Some? <==> exists k :: b.next <= k < b.next + |positions| && ok(k))
      && (filled.Some? ==> b.next <= filled.value < after.next)
  {
    if positions != [] { ClosedEachSucceedsIff(b, positions[..|positions| - 1], ok); }
  }

  /** One of the orders, each for its own position, was filled for this ticket. */
  ghost predicate FilledFor(b: Book, positions: seq<Position>, ticket: int, ok: int -> bool) {
    exists k :: 0 <= k < |positions| && positions[k].ticket == ticket && ok(b.next + k)
  }

  lemma FilledForLast(b: Book, positions: seq<Position>, ticket: int, ok: int -> bool)
    requires positions != []
    ensures var n := |positions| - 1;
      FilledFor(b, positions, ticket, ok) <==> FilledFor(b, positions[..n], ticket, ok) || (positions[n].ticket == ticket && ok(b.next + n))
  {
    var n := |positions| - 1;
    if k :| 0 <= k < n && positions[k].ticket == ticket && ok(b.next + k) {
      assert positions[..n][k] == positions[k];
    }
  }

  /** Exactly the positions whose own order was filled are gone. */
  lemma {:induction false} ClosedEachRemoves(b: Book, positions: seq<Position>, ok: int -> bool, q: Position)
    ensures q in ClosedEach(b, positions, ok).0.live <==> q in b.live && !FilledFor(b, positions, q.ticket, ok)
  {
    if positions != [] {
      var n := |positions| - 1;
      ClosedEachRemoves(b, positions[..n], ok, q);
      ClosedEachSucceedsIff(b, positions[..n], ok);
      FilledForLast(b, positions, q.ticket, ok);
      WithoutIff(ClosedEach(b, positions[..n], ok).0.live, positions[n].ticket);
    }
  }

  lemma AddressedIff(b: Book, symbol: string, magics: set<int>, ticket: Option<Ref>)
    ensures forall p :: p in FilterByTicket(OpenPositions(b.live, symbol, magics), ticket) <==> p in b.live && IsAddressed(p, symbol, magics, ticket)
  {
    OpenPositionsIff(b.live, symbol, magics);
    FilterByTicketIff(OpenPositions(b.live, symbol, magics), ticket);
  }

  lemma {:induction false} OpenPositionsDistinct(live: seq<Position>, symbol: string, magics: set<int>)
    requires forall i, j :: 0 <= i < j < |live| ==> live[i].ticket != live[j].ticket
    ensures forall i, j :: 0 <= i < j < |OpenPositions(live, symbol, magics)| ==>
      OpenPositions(live, symbol, magics)[i].ticket != OpenPositions(live, symbol, magics)[j].ticket
  {
    if live != [] {
      var front, last := live[..|live| - 1], live[|live| - 1];
      OpenPositionsDistinct(front, symbol, magics);
      OpenPositionsIff(front, symbol, magics);
      assert forall p :: p in front ==> p.ticket != last.ticket;
      assert forall i :: 0 <= i < |OpenPositions(front, symbol, magics)| ==> OpenPositions(front, symbol, magics)[i] in front;
    }
  }

  lemma {:induction false} FilterFindsNone(positions: seq<Position>, ticket: int)
    requires forall i :: 0 <= i < |positions| ==> positions[i].ticket != ticket
    ensures FilterByTicket(positions, Some(Ticket(ticket))) == []
  {
    if positions != [] { FilterFindsNone(positions[..|positions| - 1], ticket); }
  }

  lemma {:induction false} FilterFindsOne(positions: seq<Position>, p: Position)
    requires forall i, j :: 0 <= i < j < |positions| ==> positions[i].ticket != positions[j].ticket
    requires p in positions
    ensures FilterByTicket(positions, Some(Ticket(p.ticket))) == [p]
  {
    var front, last := positions[..|positions| - 1], positions[|positions| - 1];
    var k :| 0 <= k < |positions| && positions[k] == p;
    if k == |front| {
      FilterFindsNone(front, p.ticket);
    } else {
      assert front[k] == p;
      FilterFindsOne(front, p);
    }
  }

  /** A live position under its own ticket is the only one addressed. */
  lemma AddressedIsOne(b: Book, symbol: string, magics: set<int>, p: Position)
    requires Numbered(b) && p in b.live && IsAddressed(p, symbol, magics, None)
    ensures FilterByTicket(OpenPositions(b.live, symbol, magics), Some(Ticket(p.ticket))) == [p]
  {
    OpenPositionsIff(b.live, symbol, magics);
    OpenPositionsDistinct(b.live, symbol, magics);
    FilterFindsOne(OpenPositions(b.live, symbol, magics), p);
  }

  lemma SparedTicket(b: Book, p: Position, keep: Position -> bool)
    requires Numbered(b) && p in b.live && !keep(p)
    ensures SparesTicket(b.live, p.ticket, keep)
  {
    forall q | q in b.live && q.ticket == p.ticket ensures q == p {
      var i :| 0 <= i < |b.live| && b.live[i] == p;
      var j :| 0 <= j < |b.live| && b.live[j] == q;
    }
  }

  /** A full close changes no position it does not address, and reports an order of its own on success. */
  lemma ClosedAllKeeps(b: Book, symbol: string, magics: set<int>, ticket: Option<Ref>, ok: int -> bool, keep: Position -> bool)
    requires Numbered(b) && ByIdentity(keep) && Spares(b, symbol, magics, ticket, keep)
    ensures var (after, r) := ClosedAll(b, symbol, magics, ticket, ok);
      Keeps(b, after, keep) && (r.success ==> b.next <= r.ticket < after.next && r.source.Some?)
  {
    var positions := FilterByTicket(OpenPositions(b.live, symbol, magics), ticket);
    AddressedIff(b, symbol, magics, ticket);
    KeepsRefl(b, keep);
    forall i | 0 <= i < |positions| ensures SparesTicket(b.live, positions[i].ticket, keep) {
      assert positions[i] in positions;
      SparedTicket(b, positions[i], keep);
    }
    ClosedEachKeeps(b, positions, ok, keep);
    ClosedEachSucceedsIff(b, positions, ok);
  }

  /** With a listed ticket, `_pick` finds it; otherwise it falls back to the first position listed. */
  lemma PickIff(positions: seq<Position>, ticket: int)
    requires positions != []
    ensures Pick(positions, ticket) in positions
    ensures Pick(positions, ticket).ticket == ticket <==> exists p :: p in positions && p.ticket == ticket
    ensures (forall p :: p in positions ==> p.ticket != ticket) ==> Pick(positions, ticket) == positions[0]
  {
    var own := FilterByTicket(positions, Some(Ticket(ticket)));
    FilterByTicketIff(positions, Some(Ticket(ticket)));
    if own != [] { assert own[0] in own; }
  }

  /** The position `_pick` chooses on this symbol is not a chosen one. */
  ghost predicate SparesPick(b: Book, symbol: string, magics: set<int>, ticket: int, keep: Position -> bool) {
    var positions := OpenPositions(b.live, symbol, magics);
    positions != [] ==> !keep(Pick(positions, ticket))
  }

  lemma SparesPickIf(b: Book, symbol: string, magics: set<int>, ticket: int, keep: Position -> bool)
    requires Spares(b, symbol, magics, None, keep)
      || (SparesTicket(b.live, ticket, keep) && exists p :: p in b.live && IsAddressed(p, symbol, magics, None) && p.ticket == ticket)
    ensures SparesPick(b, symbol, magics, ticket, keep)
  {
    var positions := OpenPositions(b.live, symbol, magics);
    OpenPositionsIff(b.live, symbol, magics);
    if positions != [] {
      PickIff(positions, ticket);
      assert IsAddressed(Pick(positions, ticket), symbol, magics, None);
    }
  }

  lemma PickedIsSpared(b: Book, symbol: string, magics: set<int>, ticket: int, keep: Position -> bool)
    requires Numbered(b) && SparesPick(b, symbol, magics, ticket, keep) && OpenPositions(b.live, symbol, magics) != []
    ensures SparesTicket(b.live, Pick(OpenPositions(b.live, symbol, magics), ticket).ticket, keep)
  {
    OpenPositionsIff(b.live, symbol, magics);
    PickIff(OpenPositions(b.live, symbol, magics), ticket);
    SparedTicket(b, Pick(OpenPositions(b.live, symbol, magics), ticket), keep);
  }

  lemma PartlyClosedKeeps(b: Book, symbol: string, magics: set<int>, ticket: int, volume: real, ok: int -> bool, keep: Position -> bool)
    requires Numbered(b) && ByIdentity(keep) && SparesPick(b, symbol, magics, ticket, keep)
    ensures var (after, r) := PartlyClosed(b, symbol, magics, ticket, volume, ok);
      Keeps(b, after, keep) && (r.success ==> b.next <= r.ticket < after.next && r.source.Some?)
  {
    var positions := OpenPositions(b.live, symbol, magics);
    if positions == [] {
      KeepsRefl(b, keep);
    } else {
      var p := Pick(positions, ticket);
      PickedIsSpared(b, symbol, magics, ticket, keep);
      ClosedKeeps(b, p, Some(if volume < p.volume then volume else p.volume), ok, keep);
    }
  }

  lemma StopReplacedKeeps(b: Book, ticket: int, sl: real, keep: Position -> bool)
    requires Numbered(b) && ByIdentity(keep) && SparesTicket(b.live, ticket, keep)
    ensures Keeps(b, Book(WithSl(b.live, ticket, sl), b.next + 1), keep)
  {
    ReplacedKeeps(b, WithSl(b.live, ticket, sl), ticket, keep);
  }

  lemma SlMovedKeeps(b: Book, symbol: string, magics: set<int>, ticket: int, sl: real, ok: int -> bool, keep: Position -> bool)
    requires Numbered(b) && ByIdentity(keep) && SparesPick(b, symbol, magics, ticket, keep)
    ensures Keeps(b, SlMoved(b, symbol, magics, ticket, sl, ok).0, keep)
  {
    if OpenPositions(b.live, symbol, magics) == [] {
      KeepsRefl(b, keep);
    } else if !ok(b.next) {
      RefusedKeeps(b, keep);
    } else {
      PickedIsSpared(b, symbol, magics, ticket, keep);
      StopReplacedKeeps(b, Pick(OpenPositions(b.live, symbol, magics), ticket).ticket, sl, keep);
    }
  }

  // ----- the executor

  class ForexExecutor {
    var live: seq<Position>
    var next: int
    /** Which orders the platform fills. */
    const ok: int -> bool

    constructor (live: seq<Position>, next: int, ok: int -> bool)
      ensures this.live == live && this.next == next && this.ok == ok
    {
      this.live, this.next, this.ok := live, next, ok;
    }

    ghost function View(): Book
      reads this
    {
      Book(live, next)
    }

    method ClosePosition(p: Position, volume: Option<real>) returns (success: bool)
      modifies this
      ensures (View(), success) == Closed(old(View()), p, volume, ok)
    {
      success := ok(next);
      next := next + 1;
      if success {
        if volume.None? || volume.value >= p.volume {
          live := Without(live, p.ticket);
        } else {
          live := WithVolume(live, p.ticket, p.volume - volume.value);
        }
      }
    }

    method CloseAllPositions(symbol: string, magics: set<int>, ticket: Option<Ref>) returns (r: Result)
      modifies this
      ensures (View(), r) == ClosedAll(old(View()), symbol, magics, ticket, ok)
    {
      var positions := FilterByTicket(OpenPositions(live, symbol, magics), ticket);
      if positions == [] { return Fail(); }
      var count, last := 0, None;
      for i := 0 to |positions|
        invariant (View(), last) == ClosedEach(old(View()), positions[..i], ok)
        invariant count > 0 <==> last.Some?
      {
        assert positions[..i + 1][..i] == positions[..i];
        var number := next;
        var success := ClosePosition(positions[i], None);
        if success { count, last := count + 1, Some(number); }
      }
      assert positions[..|positions|] == positions;
      if count > 0 { return Result(true, last.value, Some(Ticket(positions[0].ticket)), None); }
      return Fail();
    }

    method PartialClosePosition(symbol: string, magics: set<int>, ticket: int, volume: real) returns (r: Result)
      modifies this
      ensures (View(), r) == PartlyClosed(old(View()), symbol, magics, ticket, volume, ok)
    {
      var positions := OpenPositions(live, symbol, magics);
      if positions == [] { return Fail(); }
      var p, number := Pick(positions, ticket), next;
      var success := ClosePosition(p, Some(if volume < p.volume then volume else p.volume));
      return if success then Result(true, number, Some(Ticket(p.ticket)), None) else Fail();
    }

    method UpdatePositionSl(symbol: string, magics: set<int>, ticket: int, sl: real) returns (success: bool)
      modifies this
      ensures (View(), success) == SlMoved(old(View()), symbol, magics, ticket, sl, ok)
    {
      var positions := OpenPositions(live, symbol, magics);
      if positions == [] { return false; }
      success := ok(next);
      next := next + 1;
      if success { live := WithSl(live, Pick(positions, ticket).ticket, sl); }
    }

    method PlaceOrder(symbol: string, magic: int, volume: real, price: real, sl: real) returns (r: Result)
      modifies this
      ensures (View(), r) == Placed(old(View()), symbol, magic, volume, price, sl, ok)
    {
      var number := next;
      next := next + 1;
      if !ok(number) { return Fail(); }
      live := live + [Position(number, magic, symbol, volume, price, sl)];
      return Result(true, number, None, None);
    }
  }
}
