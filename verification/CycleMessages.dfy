/**
 * One message per trade: recorder threads append events to a cycle and store the body they
 * render, while one dispatcher thread brings every chat's message up to date. The two halves
 * share only the tables. A cycle is filed under (strategy, signal_uxid); the state machine below
 * follows one cycle, and the repository class shows that no operation reaches another one.
 */
module CycleMessages {
  import opened Wrappers
  import opened CycleStatus

  datatype Event = Event(action: string, status: Option<Status>)

  function Statuses(events: seq<Event>): seq<Option<Status>> {
    seq(|events|, i requires 0 <= i < |events| => events[i].status)
  }

  /** A rendered message: the whole timeline, the headline and the account footer of the moment. */
  datatype Body = Body(events: seq<Event>, status: Option<Status>, footer: string)

  /** One chat's delivery row, and in `shown` what Telegram last accepted for it. */
  datatype Chat = Chat(messageId: Option<int>, delivered: nat, attempts: nat, shown: Option<Body>)

  datatype Cycle = Cycle(events: seq<Event>, status: Option<Status>, revision: nat, text: Option<Body>, chats: map<string, Chat>)

  const MaxAttempts := 5

  /** A key no action was recorded for yet. */
  function NoCycle(): Cycle { Cycle([], None, 0, None, map[]) }

  // ----- the writes

  function AppendEvent(c: Cycle, e: Event): Cycle {
    c.(events := c.events + [e], status := MergeStatus(c.status, e.status), revision := c.revision + 1)
  }

  function BodyOf(c: Cycle, footer: string): Body { Body(c.events, c.status, footer) }

  function SetMessageText(c: Cycle, body: Body, revision: nat): Cycle {
    if c.revision <= revision then c.(text := Some(body)) else c
  }

  /** Existing rows are kept; an empty entry is skipped. */
  function EnsureChats(c: Cycle, ids: set<string>): Cycle {
    c.(chats := map id | id in c.chats.Keys + (ids - {""}) :: if id in c.chats then c.chats[id] else Chat(None, 0, 0, None))
  }

  /** The named chats are there afterwards, the ones that were there untouched, the others undelivered. */
  lemma ChatsJoined(c: Cycle, ids: set<string>)
    ensures var after := EnsureChats(c, ids);
      && after == c.(chats := after.chats)
      && (forall id :: id in after.chats <==> id in c.chats || (id in ids && id != ""))
      && (forall id :: id in after.chats ==> after.chats[id] == if id in c.chats then c.chats[id] else Chat(None, 0, 0, None))
  {
  }

  /** The whole of `record`, as if nothing could come between its three writes. */
  function Recorded(c: Cycle, e: Event, footer: string, ids: set<string>): Cycle {
    var appended := AppendEvent(c, e);
    EnsureChats(SetMessageText(appended, BodyOf(appended, footer), appended.revision), ids)
  }

  // ----- the deliveries

  predicate IsDue(c: Cycle, id: string) {
    && id in c.chats && c.text.Some?
    && c.chats[id].delivered < c.revision && c.chats[id].attempts < MaxAttempts
  }

  /** A due row as the dispatcher read it. */
  datatype Due = Due(id: string, messageId: Option<int>, revision: nat, text: Body)

  function DueRow(c: Cycle, id: string): Due
    requires IsDue(c, id)
  {
    Due(id, c.chats[id].messageId, c.revision, c.text.value)
  }

  /** Telegram's answer: the message id of a send or an accepted edit, a vanished message, or an error. */
  datatype Answer = Accepted(messageId: int) | Missing | Refused

  function ShownChat(chat: Chat, due: Due, answer: Answer): Chat {
    if answer.Accepted? then chat.(shown := Some(due.text)) else chat
  }

  /** What the dispatcher writes down afterwards: delivered, forget the vanished message, or one more attempt. */
  function NotedChat(chat: Chat, due: Due, answer: Answer): Chat {
    if answer.Accepted? then
      chat.(messageId := if due.messageId.None? then Some(answer.messageId) else chat.messageId,
            delivered := if chat.delivered > due.revision then chat.delivered else due.revision,
            attempts := 0)
    else if answer.Missing? && due.messageId.Some? then chat.(messageId := None)
    else chat.(attempts := chat.attempts + 1)
  }

  function Show(c: Cycle, due: Due, answer: Answer): Cycle {
    if due.id !in c.chats then c else c.(chats := c.chats[due.id := ShownChat(c.chats[due.id], due, answer)])
  }

  function Noted(c: Cycle, due: Due, answer: Answer): Cycle {
    if due.id !in c.chats then c else c.(chats := c.chats[due.id := NotedChat(c.chats[due.id], due, answer)])
  }

  /** An answer, and its note if that commits. */
  function Answered(c: Cycle, due: Due, answer: Answer, noted: bool): Cycle {
    if noted then Noted(Show(c, due, answer), due, answer) else Show(c, due, answer)
  }

  // ----- every interleaving of recorders and dispatcher

  /** A recorder between its transactions. */
  datatype Recorder = Rendered(body: Body, revision: nat) | Stored

  /** `missed` is the newest revision whose text write failed, 0 for none; `unnoted`: some answer was never written down. */
  datatype State = State(
    cycle: Cycle, recorders: map<int, Recorder>, todo: seq<Due>, answered: Option<(Due, Answer)>, unnoted: bool, missed: nat)

  /** A failed append records nothing, and a failed chat write is a `Join` of no chats. */
  datatype Step =
    | Append(thread: int, event: Event, footer: string)
    | Store(thread: int)
    | StoreFails(thread: int)
    | Join(thread: int, ids: set<string>)
    | Record(entry: Event, balance: string, chats: set<string>)
    | Poll(picks: seq<string>)
    | Deliver(answer: Answer)
    | Note
    | NoteFails
    | Crash

  /** The chats picked by backoff and limit, those of them that are due. */
  function DueRows(c: Cycle, picks: seq<string>): (due: seq<Due>)
    ensures forall d :: d in due ==> IsDue(c, d.id) && d == DueRow(c, d.id)
  {
    if picks == [] then []
    else
      var id := picks[|picks| - 1];
      DueRows(c, picks[..|picks| - 1]) + (if IsDue(c, id) then [DueRow(c, id)] else [])
  }

  function Next(s: State, step: Step): State {
    match step
    case Append(t, e, footer) =>
      if t in s.recorders then s else
      var c := AppendEvent(s.cycle, e);
      s.(cycle := c, recorders := s.recorders[t := Rendered(BodyOf(c, footer), c.revision)])
    case Store(t) =>
      if t !in s.recorders || s.recorders[t].Stored? then s else
      s.(cycle := SetMessageText(s.cycle, s.recorders[t].body, s.recorders[t].revision), recorders := s.recorders[t := Stored])
    case StoreFails(t) =>
      if t !in s.recorders || s.recorders[t].Stored? then s else
      s.(missed := if s.recorders[t].revision > s.missed then s.recorders[t].revision else s.missed, recorders := s.recorders[t := Stored])
    case Join(t, ids) =>
      if t !in s.recorders || s.recorders[t].Rendered? then s else
      s.(cycle := EnsureChats(s.cycle, ids), recorders := s.recorders - {t})
    case Record(e, footer, ids) => s.(cycle := Recorded(s.cycle, e, footer, ids))
    case Poll(picks) => if s.todo != [] || s.answered.Some? then s else s.(todo := DueRows(s.cycle, picks))
    case Deliver(answer) =>
      if s.todo == [] || s.answered.Some? then s else
      s.(cycle := Show(s.cycle, s.todo[0], answer), todo := s.todo[1..], answered := Some((s.todo[0], answer)))
    case Note =>
      if s.answered.None? then s else
      s.(cycle := Noted(s.cycle, s.answered.value.0, s.answered.value.1), answered := None)
    case NoteFails => s.(answered := None, unnoted := s.unnoted || s.answered.Some?)
    case Crash => s.(todo := [], answered := None, unnoted := s.unnoted || s.answered.Some?)
  }

  function Run(s: State, steps: seq<Step>): State
    decreases |steps|
  {
    if steps == [] then s else Run(Next(s, steps[0]), steps[1..])
  }

  function Start(): State { State(NoCycle(), map[], [], None, false, 0) }

  // ----- what every interleaving keeps

  /** `b` is a body rendered for some earlier or current revision of the timeline. */
  ghost predicate Renders(b: Body, events: seq<Event>) {
    && |b.events| <= |events| && b.events == events[..|b.events|]
    && b.status == Fold(Statuses(b.events))
  }

  /** The revision the stored text was rendered for. */
  function TextRevision(c: Cycle): nat { if c.text.None? then 0 else |c.text.value.events| }

  ghost predicate Sound(c: Cycle) {
    && c.revision == |c.events|
    && c.status == Fold(Statuses(c.events))
    && (c.text.Some? ==> Renders(c.text.value, c.events) && TextRevision(c) >= 1)
    && (forall id :: id in c.chats ==> c.chats[id].delivered <= c.revision)
  }

  ghost predicate DueSound(d: Due, c: Cycle) {
    d.id in c.chats && 1 <= d.revision <= c.revision && Renders(d.text, c.events)
  }

  /** Recorder `t` has rendered the newest revision and not stored it yet. */
  predicate RendersNewest(s: State, t: int) {
    t in s.recorders && s.recorders[t].Rendered? && s.recorders[t].revision == s.cycle.revision
  }

  predicate SameRevision(s: State, t: int, u: int) {
    t in s.recorders && u in s.recorders && s.recorders[t].Rendered? && s.recorders[u].Rendered?
    && s.recorders[t].revision == s.recorders[u].revision
  }

  /** The newest body is not stored: a recorder still carries it, or its text write failed. */
  ghost predicate Behind(s: State) {
    (exists t :: RendersNewest(s, t)) || (s.missed > 0 && s.missed == s.cycle.revision)
  }

  ghost predicate MissedSound(s: State) {
    && s.missed <= s.cycle.revision && (s.missed > 0 ==> TextRevision(s.cycle) != s.missed)
    && (forall t :: t in s.recorders && s.recorders[t].Rendered? ==> s.recorders[t].revision != s.missed)
  }

  ghost predicate RecordersSound(s: State) {
    && (forall t :: t in s.recorders && s.recorders[t].Rendered? ==>
          Renders(s.recorders[t].body, s.cycle.events) && |s.recorders[t].body.events| == s.recorders[t].revision
          && s.recorders[t].revision >= 1 && TextRevision(s.cycle) != s.recorders[t].revision)
    && (forall t, u :: SameRevision(s, t, u) ==> t == u)
    && MissedSound(s)
    && (TextRevision(s.cycle) == s.cycle.revision || Behind(s))
  }

  ghost predicate DuesSound(s: State) {
    && (forall k :: 0 <= k < |s.todo| ==> DueSound(s.todo[k], s.cycle))
    && (s.answered.Some? ==> DueSound(s.answered.value.0, s.cycle))
  }

  ghost predicate Inv(s: State) { Sound(s.cycle) && RecordersSound(s) && DuesSound(s) }

  /** Nothing goes backwards: events, revision, stored text, or what a chat is known to show. */
  ghost predicate Advances(before: Cycle, after: Cycle) {
    && before.events <= after.events
    && before.revision <= after.revision && TextRevision(before) <= TextRevision(after)
    && forall id :: id in before.chats ==> id in after.chats && before.chats[id].delivered <= after.chats[id].delivered
  }

  lemma RendersLater(b: Body, before: seq<Event>, after: seq<Event>)
    requires Renders(b, before) && before <= after
    ensures Renders(b, after)
  {
    assert after[..|b.events|] == before[..|b.events|];
  }

  /** A row read from an earlier state of the cycle is still one of a later state. */
  lemma DuesStay(s: State, after: State)
    requires DuesSound(s) && Advances(s.cycle, after.cycle)
    requires after.todo == s.todo && after.answered == s.answered
    ensures DuesSound(after)
  {
    forall k | 0 <= k < |s.todo| ensures DueSound(s.todo[k], after.cycle) {
      RendersLater(s.todo[k].text, s.cycle.events, after.cycle.events);
    }
    if s.answered.Some? { RendersLater(s.answered.value.0.text, s.cycle.events, after.cycle.events); }
  }

  lemma FoldAppend(events: seq<Event>, e: Event)
    ensures Fold(Statuses(events + [e])) == MergeStatus(Fold(Statuses(events)), e.status)
  {
    assert Statuses(events + [e])[..|events|] == Statuses(events);
  }

  lemma AppendIsSound(c: Cycle, e: Event, footer: string)
    requires Sound(c)
    ensures Sound(AppendEvent(c, e)) && Advances(c, AppendEvent(c, e))
    ensures Renders(BodyOf(AppendEvent(c, e), footer), AppendEvent(c, e).events)
  {
    FoldAppend(c.events, e);
    var after := AppendEvent(c, e);
    assert after.events[..|after.events|] == after.events;
    if c.text.Some? { RendersLater(c.text.value, c.events, after.events); }
  }

  lemma AppendKeepsRecorders(s: State, t: int, e: Event, footer: string)
    requires Sound(s.cycle) && RecordersSound(s) && t !in s.recorders
    ensures RecordersSound(Next(s, Append(t, e, footer)))
  {
    var after := Next(s, Append(t, e, footer));
    AppendIsSound(s.cycle, e, footer);
    assert RendersNewest(after, t);
    forall u | u in s.recorders && s.recorders[u].Rendered? ensures Renders(s.recorders[u].body, after.cycle.events) {
      RendersLater(s.recorders[u].body, s.cycle.events, after.cycle.events);
    }
    forall u, v | SameRevision(after, u, v) ensures u == v {
      if u != t && v != t { assert SameRevision(s, u, v); }
    }
  }

  lemma AppendKeeps(s: State, t: int, e: Event, footer: string)
    requires Inv(s) && t !in s.recorders
    ensures Inv(Next(s, Append(t, e, footer))) && Advances(s.cycle, Next(s, Append(t, e, footer)).cycle)
  {
    AppendIsSound(s.cycle, e, footer);
    AppendKeepsRecorders(s, t, e, footer);
    DuesStay(s, Next(s, Append(t, e, footer)));
  }

  lemma StoreIsSound(c: Cycle, body: Body, revision: nat)
    requires Sound(c) && Renders(body, c.events) && |body.events| == revision >= 1
    ensures Sound(SetMessageText(c, body, revision)) && Advances(c, SetMessageText(c, body, revision))
  {
  }

  /** Every other recorder carries another revision. */
  lemma OthersDiffer(s: State, t: int)
    requires RecordersSound(s) && t in s.recorders && s.recorders[t].Rendered?
    ensures forall u :: u in s.recorders && u != t && s.recorders[u].Rendered? ==> s.recorders[u].revision != s.recorders[t].revision
  {
    forall u | u in s.recorders && u != t && s.recorders[u].Rendered? ensures s.recorders[u].revision != s.recorders[t].revision {
      assert s.recorders[u].revision == s.recorders[t].revision ==> SameRevision(s, u, t);
    }
  }

  lemma StoreKeepsRecorders(s: State, t: int)
    requires Sound(s.cycle) && RecordersSound(s) && t in s.recorders && s.recorders[t].Rendered?
    ensures RecordersSound(Next(s, Store(t)))
  {
    var after := Next(s, Store(t));
    forall u, v | SameRevision(after, u, v) ensures u == v { assert SameRevision(s, u, v); }
    OthersDiffer(s, t);
    if s.cycle.revision != s.recorders[t].revision && TextRevision(s.cycle) != s.cycle.revision { StillBehind(s, after, t); }
  }

  /** A step that leaves cycle and recorders as they are, but for `t` which does not carry the newest body, leaves it behind. */
  lemma StillBehind(s: State, after: State, t: int)
    requires Behind(s) && !RendersNewest(s, t) && after.missed == s.missed && after.cycle.revision == s.cycle.revision
    requires forall u :: u != t && u in s.recorders ==> u in after.recorders && after.recorders[u] == s.recorders[u]
    ensures Behind(after)
  {
    if s.missed == 0 || s.missed != s.cycle.revision {
      var u :| RendersNewest(s, u);
      assert RendersNewest(after, u);
    }
  }

  lemma StoreFailsKeepsRecorders(s: State, t: int)
    requires Sound(s.cycle) && RecordersSound(s) && t in s.recorders && s.recorders[t].Rendered?
    ensures RecordersSound(Next(s, StoreFails(t)))
  {
    var after := Next(s, StoreFails(t));
    forall u, v | SameRevision(after, u, v) ensures u == v { assert SameRevision(s, u, v); }
    OthersDiffer(s, t);
    if TextRevision(s.cycle) != s.cycle.revision && s.recorders[t].revision != s.cycle.revision { StillBehindAfterFailure(s, t); }
  }

  lemma StillBehindAfterFailure(s: State, t: int)
    requires Behind(s) && MissedSound(s) && t in s.recorders && s.recorders[t].Rendered?
    requires s.recorders[t].revision < s.cycle.revision
    ensures Behind(Next(s, StoreFails(t)))
  {
    if s.missed != s.cycle.revision {
      var u :| RendersNewest(s, u);
      assert RendersNewest(Next(s, StoreFails(t)), u);
    }
  }

  lemma StoreFailsKeeps(s: State, t: int)
    requires Inv(s) && t in s.recorders && s.recorders[t].Rendered?
    ensures Inv(Next(s, StoreFails(t))) && Advances(s.cycle, Next(s, StoreFails(t)).cycle)
  {
    StoreFailsKeepsRecorders(s, t);
    DuesStay(s, Next(s, StoreFails(t)));
  }

  lemma StoreKeeps(s: State, t: int)
    requires Inv(s) && t in s.recorders && s.recorders[t].Rendered?
    ensures Inv(Next(s, Store(t))) && Advances(s.cycle, Next(s, Store(t)).cycle)
  {
    StoreIsSound(s.cycle, s.recorders[t].body, s.recorders[t].revision);
    StoreKeepsRecorders(s, t);
    DuesStay(s, Next(s, Store(t)));
  }

  lemma JoinIsSound(c: Cycle, ids: set<string>)
    requires Sound(c)
    ensures Sound(EnsureChats(c, ids)) && Advances(c, EnsureChats(c, ids))
  {
  }

  lemma JoinKeepsRecorders(s: State, t: int, ids: set<string>)
    requires RecordersSound(s) && t in s.recorders && s.recorders[t].Stored?
    ensures RecordersSound(Next(s, Join(t, ids)))
  {
    var after := Next(s, Join(t, ids));
    forall u, v | SameRevision(after, u, v) ensures u == v { assert SameRevision(s, u, v); }
    if TextRevision(s.cycle) != s.cycle.revision { StillBehind(s, after, t); }
  }

  lemma JoinKeeps(s: State, t: int, ids: set<string>)
    requires Inv(s) && t in s.recorders && s.recorders[t].Stored?
    ensures Inv(Next(s, Join(t, ids))) && Advances(s.cycle, Next(s, Join(t, ids)).cycle)
  {
    JoinIsSound(s.cycle, ids);
    JoinKeepsRecorders(s, t, ids);
    DuesStay(s, Next(s, Join(t, ids)));
  }

  lemma RecordIsSound(c: Cycle, e: Event, footer: string, ids: set<string>)
    requires Sound(c)
    ensures Sound(Recorded(c, e, footer, ids)) && Advances(c, Recorded(c, e, footer, ids))
    ensures TextRevision(Recorded(c, e, footer, ids)) == c.revision + 1 == Recorded(c, e, footer, ids).revision
  {
    var appended := AppendEvent(c, e);
    var body := BodyOf(appended, footer);
    AppendIsSound(c, e, footer);
    StoreIsSound(appended, body, appended.revision);
    JoinIsSound(SetMessageText(appended, body, appended.revision), ids);
  }

  lemma RecordKeepsRecorders(s: State, e: Event, footer: string, ids: set<string>)
    requires Sound(s.cycle) && RecordersSound(s)
    ensures RecordersSound(Next(s, Record(e, footer, ids)))
  {
    var after := Next(s, Record(e, footer, ids));
    RecordIsSound(s.cycle, e, footer, ids);
    forall u | u in s.recorders && s.recorders[u].Rendered? ensures Renders(s.recorders[u].body, after.cycle.events) {
      RendersLater(s.recorders[u].body, s.cycle.events, after.cycle.events);
    }
    forall u, v | SameRevision(after, u, v) ensures u == v { assert SameRevision(s, u, v); }
  }

  lemma RecordKeeps(s: State, e: Event, footer: string, ids: set<string>)
    requires Inv(s)
    ensures Inv(Next(s, Record(e, footer, ids))) && Advances(s.cycle, Next(s, Record(e, footer, ids)).cycle)
  {
    RecordIsSound(s.cycle, e, footer, ids);
    RecordKeepsRecorders(s, e, footer, ids);
    DuesStay(s, Next(s, Record(e, footer, ids)));
  }

  /** The dispatcher only ever touches delivery rows, and never past the revision. */
  ghost predicate SameStory(before: Cycle, after: Cycle) {
    && after.events == before.events && after.status == before.status
    && after.revision == before.revision && after.text == before.text
    && after.chats.Keys == before.chats.Keys
    && forall id :: id in before.chats ==> before.chats[id].delivered <= after.chats[id].delivered <= before.revision
  }

  lemma RecordersUntouched(s: State, after: State)
    requires RecordersSound(s) && SameStory(s.cycle, after.cycle) && after.recorders == s.recorders && after.missed == s.missed
    ensures RecordersSound(after)
  {
    forall u, v | SameRevision(after, u, v) ensures u == v { assert SameRevision(s, u, v); }
    if exists t :: RendersNewest(s, t) {
      var t :| RendersNewest(s, t);
      assert RendersNewest(after, t);
    }
  }

  lemma DeliveryKeepsStory(c: Cycle, due: Due, answer: Answer)
    requires Sound(c) && DueSound(due, c)
    ensures SameStory(c, Show(c, due, answer)) && SameStory(c, Noted(c, due, answer))
  {
  }

  predicate Dispatches(step: Step) { step.Poll? || step.Deliver? || step.Note? || step.NoteFails? || step.Crash? }

  lemma DispatcherSameStory(s: State, step: Step)
    requires Sound(s.cycle) && DuesSound(s) && Dispatches(step)
    ensures SameStory(s.cycle, Next(s, step).cycle) && Next(s, step).recorders == s.recorders && Next(s, step).missed == s.missed
  {
    if step.Deliver? && s.todo != [] { DeliveryKeepsStory(s.cycle, s.todo[0], step.answer); }
    if step.Note? && s.answered.Some? { DeliveryKeepsStory(s.cycle, s.answered.value.0, s.answered.value.1); }
  }

  lemma DispatcherDues(s: State, step: Step)
    requires Sound(s.cycle) && DuesSound(s) && Dispatches(step)
    requires SameStory(s.cycle, Next(s, step).cycle)
    ensures DuesSound(Next(s, step))
  {
    var after := Next(s, step);
    forall k | 0 <= k < |after.todo| ensures DueSound(after.todo[k], after.cycle) {
      assert after.todo[k] in after.todo;
    }
  }

  lemma DispatcherKeeps(s: State, step: Step)
    requires Inv(s) && Dispatches(step)
    ensures Inv(Next(s, step)) && Advances(s.cycle, Next(s, step).cycle)
  {
    DispatcherSameStory(s, step);
    RecordersUntouched(s, Next(s, step));
    DispatcherDues(s, step);
  }

  /** Every step of every interleaving keeps the invariant and moves nothing backwards. */
  lemma StepKeeps(s: State, step: Step)
    requires Inv(s)
    ensures Inv(Next(s, step)) && Advances(s.cycle, Next(s, step).cycle)
  {
    match step
    case Append(t, e, footer) => if t !in s.recorders { AppendKeeps(s, t, e, footer); }
    case Store(t) => if t in s.recorders && s.recorders[t].Rendered? { StoreKeeps(s, t); }
    case StoreFails(t) => if t in s.recorders && s.recorders[t].Rendered? { StoreFailsKeeps(s, t); }
    case Join(t, ids) => if t in s.recorders && s.recorders[t].Stored? { JoinKeeps(s, t, ids); }
    case Record(e, footer, ids) => RecordKeeps(s, e, footer, ids);
    case Poll(_) => DispatcherKeeps(s, step);
    case Deliver(_) => DispatcherKeeps(s, step);
    case Note => DispatcherKeeps(s, step);
    case NoteFails => DispatcherKeeps(s, step);
    case Crash => DispatcherKeeps(s, step);
  }

  lemma {:induction false} RunKeeps(s: State, steps: seq<Step>)
    requires Inv(s)
    ensures Inv(Run(s, steps)) && Advances(s.cycle, Run(s, steps).cycle)
    decreases |steps|
  {
    if steps != [] {
      StepKeeps(s, steps[0]);
      RunKeeps(Next(s, steps[0]), steps[1..]);
    }
  }

  /**
   * For any number of recorders: the stored text and every delivered revision stay at or below the
   * revision, a body write is accepted only for the current revision, and the text is current
   * exactly when no recorder is still carrying the newest body and its write has not failed.
   */
  lemma EveryInterleaving(steps: seq<Step>)
    ensures
      var s := Run(Start(), steps);
      && TextRevision(s.cycle) <= s.cycle.revision
      && (forall id :: id in s.cycle.chats ==> s.cycle.chats[id].delivered <= s.cycle.revision)
      && (TextRevision(s.cycle) == s.cycle.revision <==> !Behind(s))
      && (forall t :: t in s.recorders && Next(s, Store(t)).cycle != s.cycle ==> RendersNewest(s, t))
  {
    RunKeeps(Start(), steps);
    var s := Run(Start(), steps);
    forall t | t in s.recorders && Next(s, Store(t)).cycle != s.cycle ensures RendersNewest(s, t) {
    }
  }

  /** When every recorder has finished, the stored body tells the whole story exactly when the last text write
      did not fail, and what is stored is under the headline of the story it tells. */
  lemma QuietTextIsCompleteIff(steps: seq<Step>)
    requires Run(Start(), steps).recorders == map[] && Run(Start(), steps).cycle.events != []
    ensures
      var s := Run(Start(), steps);
      && (s.cycle.text.Some? && s.cycle.text.value.events == s.cycle.events <==> s.missed != s.cycle.revision)
      && (s.cycle.text.Some? ==> s.cycle.text.value.status == Headline(Statuses(s.cycle.text.value.events)))
  {
    RunKeeps(Start(), steps);
    var c := Run(Start(), steps).cycle;
    if c.text.Some? {
      FoldIsHeadline(Statuses(c.text.value.events));
      assert c.events[..|c.events|] == c.events;
    }
  }

  // ----- what the dispatcher marks delivered

  /** A polled row carries the body of the revision it will mark, exactly when the newest body is stored. */
  lemma PolledBodyIsCurrentIff(s: State, id: string)
    requires Inv(s) && IsDue(s.cycle, id)
    ensures DueRow(s.cycle, id).text.events == s.cycle.events <==> !Behind(s)
  {
    var c := s.cycle;
    assert c.events[..|c.events|] == c.events;
    if Behind(s) { assert TextRevision(c) != c.revision; }
  }

  /** Chat `id` shows the body of the revision it is marked delivered at, or after an answer that was not noted a newer one. */
  ghost predicate ChatMatches(c: Cycle, id: string, unnoted: bool)
    requires id in c.chats
  {
    var chat := c.chats[id];
    && (chat.delivered > 0 ==> chat.shown.Some?)
    && (chat.shown.Some? ==> Renders(chat.shown.value, c.events) && |chat.shown.value.events| >= chat.delivered)
    && (chat.shown.Some? && !unnoted ==> |chat.shown.value.events| == chat.delivered)
  }

  ghost predicate Answering(s: State, id: string) { s.answered.Some? && s.answered.value.0.id == id }

  /** `d` would bring its chat to the revision it carries. */
  ghost predicate Fresh(d: Due, c: Cycle) {
    d.id in c.chats && |d.text.events| == d.revision && c.chats[d.id].delivered < d.revision
  }

  /** What every run keeps whose polls are settled. */
  ghost predicate SettledInv(s: State) { Inv(s) && Delivering(s) }

  /** Every chat shows what it is marked at, but for the one between answer and note; the rows to come are fresh. */
  ghost predicate Delivering(s: State) {
    && (forall id :: id in s.cycle.chats && !Answering(s, id) ==> ChatMatches(s.cycle, id, s.unnoted))
    && (s.answered.Some? ==> AnswerSound(s, s.answered.value.0, s.answered.value.1))
    && (forall k :: 0 <= k < |s.todo| ==> Fresh(s.todo[k], s.cycle) && !Answering(s, s.todo[k].id))
    && (forall j, k :: 0 <= j < k < |s.todo| ==> s.todo[j].id != s.todo[k].id)
  }

  /** Between Telegram's answer and the note: the chat shows the body sent, or still matches its mark. */
  ghost predicate AnswerSound(s: State, d: Due, answer: Answer) {
    && Fresh(d, s.cycle)
    && (answer.Accepted? ==> s.cycle.chats[d.id].shown == Some(d.text))
    && (!answer.Accepted? ==> ChatMatches(s.cycle, d.id, s.unnoted))
  }

  predicate DistinctPicks(picks: seq<string>) { forall j, k :: 0 <= j < k < |picks| ==> picks[j] != picks[k] }

  /** A poll reads each chat once, and reads no due row while the newest body is not stored. */
  ghost predicate Settled(s: State, step: Step) {
    step.Poll? && s.todo == [] && s.answered.None? ==>
      DistinctPicks(step.picks) && (DueRows(s.cycle, step.picks) == [] || !Behind(s))
  }

  /** Every poll of the run is settled; recorders may interleave in any way. */
  ghost predicate SettledRun(s: State, steps: seq<Step>)
    decreases |steps|
  {
    steps != [] ==> Settled(s, steps[0]) && SettledRun(Next(s, steps[0]), steps[1..])
  }

  lemma {:induction false} DueRowsDistinct(c: Cycle, picks: seq<string>)
    requires DistinctPicks(picks)
    ensures forall k :: 0 <= k < |DueRows(c, picks)| ==> DueRows(c, picks)[k].id in picks
    ensures forall j, k :: 0 <= j < k < |DueRows(c, picks)| ==> DueRows(c, picks)[j].id != DueRows(c, picks)[k].id
  {
    if picks != [] {
      var front := picks[..|picks| - 1];
      DueRowsDistinct(c, front);
      var last, early, due := picks[|picks| - 1], DueRows(c, front), DueRows(c, picks);
      forall id | id in front ensures id in picks && id != last {
        var k :| 0 <= k < |front| && front[k] == id;
        assert picks[k] == id;
      }
      assert forall k :: 0 <= k < |due| ==> due[k].id == if k < |early| then early[k].id else last;
    }
  }

  lemma SettledStepKeeps(s: State, step: Step)
    requires SettledInv(s) && Settled(s, step)
    ensures SettledInv(Next(s, step))
  {
    StepKeeps(s, step);
    match step
    case Append(t, e, footer) => AppendMatches(s, t, e, footer);
    case Store(t) => StoreMatches(s, t);
    case StoreFails(t) => AddingMatches(s, Next(s, StoreFails(t)));
    case Join(t, ids) => JoinMatches(s, t, ids);
    case Record(e, footer, ids) => RecordMatches(s, e, footer, ids);
    case Poll(picks) => PollMatches(s, picks);
    case Deliver(answer) => DeliverMatches(s, answer);
    case Note => NoteMatches(s);
    case NoteFails => UnnotedMatches(s, step);
    case Crash => UnnotedMatches(s, step);
  }

  lemma SameChatMatches(before: Cycle, after: Cycle, id: string, unnoted: bool)
    requires before.events <= after.events && id in before.chats && id in after.chats
    requires before.chats[id] == after.chats[id] && ChatMatches(before, id, unnoted)
    ensures ChatMatches(after, id, unnoted)
  {
    var shown := before.chats[id].shown;
    if shown.Some? { RendersLater(shown.value, before.events, after.events); }
  }

  /** A step that only adds events and fresh chats. */
  ghost predicate OnlyAdds(s: State, after: State) {
    && s.cycle.events <= after.cycle.events
    && after.todo == s.todo && after.answered == s.answered && after.unnoted == s.unnoted
    && (forall id :: id in s.cycle.chats ==> id in after.cycle.chats && after.cycle.chats[id] == s.cycle.chats[id])
    && (forall id :: id in after.cycle.chats && id !in s.cycle.chats ==> after.cycle.chats[id] == Chat(None, 0, 0, None))
  }

  lemma AddingMatches(s: State, after: State)
    requires Delivering(s) && OnlyAdds(s, after)
    ensures Delivering(after)
  {
    forall id | id in after.cycle.chats && !Answering(after, id) ensures ChatMatches(after.cycle, id, s.unnoted) {
      if id in s.cycle.chats { SameChatMatches(s.cycle, after.cycle, id, s.unnoted); }
    }
    if s.answered.Some? {
      var d, answer := s.answered.value.0, s.answered.value.1;
      if !answer.Accepted? { SameChatMatches(s.cycle, after.cycle, d.id, s.unnoted); }
    }
  }

  lemma AppendMatches(s: State, t: int, e: Event, footer: string)
    requires Delivering(s)
    ensures Delivering(Next(s, Append(t, e, footer)))
  {
    AddingMatches(s, Next(s, Append(t, e, footer)));
  }

  lemma StoreMatches(s: State, t: int)
    requires Delivering(s)
    ensures Delivering(Next(s, Store(t)))
  {
    AddingMatches(s, Next(s, Store(t)));
  }

  lemma JoinMatches(s: State, t: int, ids: set<string>)
    requires Delivering(s)
    ensures Delivering(Next(s, Join(t, ids)))
  {
    AddingMatches(s, Next(s, Join(t, ids)));
  }

  lemma RecordMatches(s: State, e: Event, footer: string, ids: set<string>)
    requires Delivering(s)
    ensures Delivering(Next(s, Record(e, footer, ids)))
  {
    var after := Next(s, Record(e, footer, ids));
    forall id | id in after.cycle.chats
      ensures after.cycle.chats[id] == if id in s.cycle.chats then s.cycle.chats[id] else Chat(None, 0, 0, None)
    {
      RecordedChat(s.cycle, e, footer, ids, id);
    }
    AddingMatches(s, after);
  }

  lemma RecordedChat(c: Cycle, e: Event, footer: string, ids: set<string>, id: string)
    requires id in Recorded(c, e, footer, ids).chats
    ensures Recorded(c, e, footer, ids).chats[id] == if id in c.chats then c.chats[id] else Chat(None, 0, 0, None)
  {
  }

  lemma PollMatches(s: State, picks: seq<string>)
    requires SettledInv(s) && Settled(s, Poll(picks))
    ensures Delivering(Next(s, Poll(picks)))
  {
    if s.todo == [] && s.answered.None? && DueRows(s.cycle, picks) != [] {
      assert TextRevision(s.cycle) == s.cycle.revision;
      FreshRows(s, picks);
    }
  }

  lemma FreshRows(s: State, picks: seq<string>)
    requires Delivering(s) && s.todo == [] && s.answered.None? && DistinctPicks(picks) && TextRevision(s.cycle) == s.cycle.revision
    ensures Delivering(Next(s, Poll(picks)))
  {
    DueRowsDistinct(s.cycle, picks);
    var after := Next(s, Poll(picks));
    forall k | 0 <= k < |after.todo| ensures Fresh(after.todo[k], s.cycle) { assert after.todo[k] in after.todo; }
  }

  /** The chat answered for changes what it shows; every other chat is as it was. */
  lemma DeliverMatches(s: State, answer: Answer)
    requires Delivering(s)
    ensures Delivering(Next(s, Deliver(answer)))
  {
    var after := Next(s, Deliver(answer));
    if s.todo != [] && s.answered.None? {
      var d := s.todo[0];
      assert ChatMatches(s.cycle, d.id, s.unnoted);
      forall id | id in after.cycle.chats && !Answering(after, id) ensures ChatMatches(after.cycle, id, s.unnoted) {
        SameChatMatches(s.cycle, after.cycle, id, s.unnoted);
      }
      forall k | 0 <= k < |after.todo| ensures Fresh(after.todo[k], after.cycle) && after.todo[k].id != d.id {
        assert after.todo[k] == s.todo[k + 1];
      }
    }
  }

  lemma NoteMatches(s: State)
    requires Delivering(s) && DuesSound(s)
    ensures Delivering(Next(s, Note))
  {
    var after := Next(s, Note);
    if s.answered.Some? {
      var d := s.answered.value.0;
      forall id | id in after.cycle.chats ensures ChatMatches(after.cycle, id, s.unnoted) {
        if id != d.id { SameChatMatches(s.cycle, after.cycle, id, s.unnoted); }
      }
    }
  }

  lemma UnnotedMatches(s: State, step: Step)
    requires Delivering(s) && DuesSound(s) && (step.NoteFails? || step.Crash?)
    ensures Delivering(Next(s, step))
  {
    var after := Next(s, step);
    forall id | id in after.cycle.chats ensures ChatMatches(after.cycle, id, after.unnoted) {
      if !Answering(s, id) { assert ChatMatches(s.cycle, id, s.unnoted); }
    }
  }

  lemma {:induction false} SettledRunKeeps(s: State, steps: seq<Step>)
    requires SettledInv(s) && SettledRun(s, steps)
    ensures SettledInv(Run(s, steps))
    decreases |steps|
  {
    if steps != [] {
      SettledStepKeeps(s, steps[0]);
      SettledRunKeeps(Next(s, steps[0]), steps[1..]);
    }
  }

  /**
   * For any number of recorders, any failing writes and any interleaving in which no poll reads a due row while
   * the newest body is not stored: a chat marked delivered at N shows the first N events, exactly those unless an
   * answer was never noted, and then possibly newer ones.
   */
  lemma DeliveredMeansShown(steps: seq<Step>, id: string)
    requires SettledRun(Start(), steps)
    requires var s := Run(Start(), steps); s.answered.None? && id in s.cycle.chats && s.cycle.chats[id].delivered > 0
    ensures
      var s := Run(Start(), steps);
      var chat := s.cycle.chats[id];
      && chat.shown.Some? && chat.shown.value.events <= s.cycle.events
      && |chat.shown.value.events| >= chat.delivered
      && (!s.unnoted ==> chat.shown.value.events == s.cycle.events[..chat.delivered])
      && chat.shown.value.status == Headline(Statuses(chat.shown.value.events))
  {
    SettledRunKeeps(Start(), steps);
    var s := Run(Start(), steps);
    assert ChatMatches(s.cycle, id, s.unnoted);
    FoldIsHeadline(Statuses(s.cycle.chats[id].shown.value.events));
  }

  predicate Whole(step: Step) { !step.Append? && (step.Poll? ==> DistinctPicks(step.picks)) }

  /** With `record` in one piece every poll is settled. */
  lemma {:induction false} WholeRecordsAreSettled(s: State, steps: seq<Step>)
    requires s.recorders == map[] && s.missed == 0 && forall k :: 0 <= k < |steps| ==> Whole(steps[k])
    ensures SettledRun(s, steps)
    decreases |steps|
  {
    if steps != [] {
      assert Whole(steps[0]);
      assert forall t :: !RendersNewest(s, t);
      WholeRecordsAreSettled(Next(s, steps[0]), steps[1..]);
    }
  }

  /** The chat is polled, Telegram answers, and the answer is noted. */
  function Round(s: State, id: string, answer: Answer): State { Next(Next(Next(s, Poll([id])), Deliver(answer)), Note) }

  lemma RoundIs(s: State, id: string, answer: Answer)
    requires s.todo == [] && s.answered.None? && IsDue(s.cycle, id)
    ensures var after := AfterAnswer(s.cycle.chats[id], DueRow(s.cycle, id), answer, true);
      Round(s, id, answer) == s.(cycle := s.cycle.(chats := s.cycle.chats[id := after]))
  {
    assert [id][..0] == [];
    assert DueRows(s.cycle, [id]) == [DueRow(s.cycle, id)];
    NotedShown(s.cycle, DueRow(s.cycle, id), answer, true);
  }

  /**
   * From any state between polls that the interleavings reach: delivering a due chat marks it at the current
   * revision, and shows it the current timeline exactly when the newest body is stored.
   */
  lemma DeliveryIsCurrentIff(s: State, id: string, messageId: int)
    requires Inv(s) && s.todo == [] && s.answered.None? && IsDue(s.cycle, id)
    ensures
      var after := Round(s, id, Accepted(messageId)).cycle;
      && id in after.chats && after.chats[id].delivered == after.revision == s.cycle.revision && after.chats[id].shown.Some?
      && (after.chats[id].shown.value.events == after.events <==> !Behind(s))
  {
    RoundIs(s, id, Accepted(messageId));
    PolledBodyIsCurrentIff(s, id);
    assert Round(s, id, Accepted(messageId)).cycle.revision == s.cycle.revision;
  }

  /** A trade that was opened and delivered to chat "c": `delivered` and `shown` give the chat's row. */
  function Trade(closed: bool, text: Body, delivered: nat, shown: Body): Cycle {
    var entry, exit := Event("LONG", Some(Opened)), Event("TP2", Some(Tp2));
    var chat := Chat(Some(7), delivered, 0, Some(shown));
    if closed then Cycle([entry, exit], Some(Tp2), 2, Some(text), map["c" := chat])
    else Cycle([entry], Some(Opened), 1, Some(text), map["c" := chat])
  }

  function OpeningBody(): Body { Body([Event("LONG", Some(Opened))], Some(Opened), "") }

  function ClosingBody(): Body { Body([Event("LONG", Some(Opened)), Event("TP2", Some(Tp2))], Some(Tp2), "") }

  lemma OpeningIsDelivered(s: State, steps: seq<Step>)
    requires s == Start()
    requires steps == [Record(Event("LONG", Some(Opened)), "", {"c"}), Poll(["c"]), Deliver(Accepted(7)), Note]
    ensures Run(s, steps) == State(Trade(false, OpeningBody(), 1, OpeningBody()), map[], [], None, false, 0)
  {
    var entry, body, waiting := Event("LONG", Some(Opened)), OpeningBody(), Chat(None, 0, 0, None);
    var one := Cycle([entry], Some(Opened), 1, Some(body), map["c" := waiting]);
    var due := Due("c", None, 1, body);
    var trace := [
      s,
      State(one, map[], [], None, false, 0),
      State(one, map[], [due], None, false, 0),
      State(one.(chats := map["c" := waiting.(shown := Some(body))]), map[], [], Some((due, Accepted(7))), false, 0),
      State(Trade(false, body, 1, body), map[], [], None, false, 0)];
    assert AppendEvent(NoCycle(), entry) == Cycle([entry], Some(Opened), 1, None, map[]);
    assert Recorded(NoCycle(), entry, "", {"c"}).chats == map["c" := waiting];
    assert Next(trace[0], steps[0]) == trace[1];
    assert DueRows(one, ["c"][..0]) == [];
    assert Next(trace[1], steps[1]) == trace[2] && Next(trace[2], steps[2]) == trace[3];
    assert Next(trace[3], steps[3]) == trace[4];
    RunFollows(trace, steps);
  }

  /** The recorder has appended the close and not stored its body; the chat's row carries the old one. */
  function Overtaking(due: Due, answered: bool, delivered: nat): State {
    State(Trade(true, OpeningBody(), delivered, OpeningBody()), map[0 := Rendered(ClosingBody(), 2)], [],
          if answered then Some((due, Accepted(7))) else None, false, 0)
  }

  lemma ClosingIsPolled(s: State, steps: seq<Step>, due: Due)
    requires s == State(Trade(false, OpeningBody(), 1, OpeningBody()), map[], [], None, false, 0)
    requires due == Due("c", Some(7), 2, OpeningBody())
    requires steps == [Append(0, Event("TP2", Some(Tp2)), ""), Poll(["c"]), Deliver(Accepted(7))]
    ensures Run(s, steps) == Overtaking(due, true, 1)
  {
    var two := Trade(true, OpeningBody(), 1, OpeningBody());
    var late := map[0 := Rendered(ClosingBody(), 2)];
    var trace := [s, State(two, late, [], None, false, 0), State(two, late, [due], None, false, 0), Overtaking(due, true, 1)];
    assert s.cycle.events + [Event("TP2", Some(Tp2))] == two.events;
    assert Next(trace[0], steps[0]) == trace[1];
    assert DueRows(two, ["c"][..0]) == [];
    assert Next(trace[1], steps[1]) == trace[2];
    assert Next(trace[2], steps[2]) == trace[3];
    RunFollows(trace, steps);
  }

  lemma ClosingIsStored(s: State, steps: seq<Step>, due: Due)
    requires due == Due("c", Some(7), 2, OpeningBody()) && s == Overtaking(due, true, 1)
    requires steps == [Note, Store(0), Join(0, {"c"})]
    ensures Run(s, steps) == State(Trade(true, ClosingBody(), 2, OpeningBody()), map[], [], None, false, 0)
  {
    var done := Trade(true, ClosingBody(), 2, OpeningBody());
    var trace := [s, Overtaking(due, false, 2), State(done, map[0 := Stored], [], None, false, 0), State(done, map[], [], None, false, 0)];
    assert Next(trace[0], steps[0]) == trace[1];
    assert Next(trace[1], steps[1]) == trace[2];
    assert EnsureChats(done, {"c"}).chats == done.chats;
    assert Next(trace[2], steps[2]) == trace[3];
    RunFollows(trace, steps);
  }

  /** Everything is quiet and the stored text complete, yet chat `id` shows an older story and is not due. */
  ghost predicate StuckBehind(s: State, id: string) {
    && s.recorders == map[] && s.answered.None? && id in s.cycle.chats && !IsDue(s.cycle, id)
    && s.cycle.text.Some? && s.cycle.text.value.events == s.cycle.events
    && s.cycle.chats[id].delivered == s.cycle.revision
    && s.cycle.chats[id].shown.Some? && s.cycle.chats[id].shown.value.events != s.cycle.events
  }

  /**
   * A poll between a recorder's first two writes marks the new revision with the old body: when all
   * is quiet the chat still shows the opening of a trade that is closed.
   */
  lemma PollInsideRecordLosesTheUpdate(start: State, opening: seq<Step>, polled: seq<Step>, stored: seq<Step>)
    requires start == Start()
    requires opening == [Record(Event("LONG", Some(Opened)), "", {"c"}), Poll(["c"]), Deliver(Accepted(7)), Note]
    requires polled == [Append(0, Event("TP2", Some(Tp2)), ""), Poll(["c"]), Deliver(Accepted(7))]
    requires stored == [Note, Store(0), Join(0, {"c"})]
    ensures StuckBehind(Run(Run(Run(start, opening), polled), stored), "c")
  {
    var due := Due("c", Some(7), 2, OpeningBody());
    OpeningIsDelivered(start, opening);
    ClosingIsPolled(Run(start, opening), polled, due);
    ClosingIsStored(Run(Run(start, opening), polled), stored, due);
  }

  lemma {:induction false} RunFollows(trace: seq<State>, steps: seq<Step>)
    requires |trace| == |steps| + 1
    requires forall k :: 0 <= k < |steps| ==> Next(trace[k], steps[k]) == trace[k + 1]
    ensures Run(trace[0], steps) == trace[|steps|]
    decreases |steps|
  {
    if steps != [] { RunFollows(trace[1..], steps[1..]); }
  }

  // ----- the tables, one cycle per key

  datatype Key = Key(strategy: string, uxid: string)

  function CycleAt(cycles: map<Key, Cycle>, key: Key): Cycle {
    if key in cycles then cycles[key] else NoCycle()
  }

  class NotificationCycleRepository {
    var cycles: map<Key, Cycle>

    constructor ()
      ensures cycles == map[]
    {
      cycles := map[];
    }

    method AppendCycleEvent(key: Key, e: Event) returns (c: Cycle)
      modifies this
      ensures c == AppendEvent(CycleAt(old(cycles), key), e)
      ensures key in old(cycles) ==>
        var before := old(cycles)[key];
        c == before.(events := before.events + [e], status := MergeStatus(before.status, e.status), revision := before.revision + 1)
      ensures key !in old(cycles) ==> c == Cycle([e], e.status, 1, None, map[])
      ensures cycles == old(cycles)[key := c]
    {
      var stored := if key in cycles then cycles[key] else NoCycle();
      var events := stored.events + [e];
      c := stored.(events := events, status := MergeStatus(stored.status, e.status), revision := stored.revision + 1);
      cycles := cycles[key := c];
    }

    /** A write that does not commit is logged and changes nothing. */
    method SetCycleMessageText(key: Key, body: Body, revision: nat, committed: bool)
      requires key in cycles
      modifies this
      ensures cycles == if committed then old(cycles)[key := SetMessageText(old(cycles)[key], body, revision)] else old(cycles)
    {
      if committed && cycles[key].revision <= revision {
        cycles := cycles[key := cycles[key].(text := Some(body))];
      }
    }

    method EnsureCycleChats(key: Key, ids: set<string>, committed: bool)
      requires key in cycles
      modifies this
      ensures cycles == if committed then old(cycles)[key := EnsureChats(old(cycles)[key], ids)] else old(cycles)
    {
      if committed { cycles := cycles[key := EnsureChats(cycles[key], ids)]; }
    }

    /** What the chat shows follows the answer even when the note does not commit. */
    method NoteDelivery(key: Key, due: Due, answer: Answer, committed: bool)
      requires key in cycles
      modifies this
      ensures cycles == old(cycles)[key := Answered(old(cycles)[key], due, answer, committed)]
    {
      var c := Show(cycles[key], due, answer);
      if committed { c := Noted(c, due, answer); }
      cycles := cycles[key := c];
    }
  }

  /** Which of `record`'s three writes commit. */
  datatype Commits = Commits(append: bool, text: bool, chats: bool)

  /** `record` after a committed append: the new event, and in its text and chats what the other writes stored. */
  function RecordedAsFar(c: Cycle, e: Event, footer: string, ids: set<string>, commits: Commits): Cycle {
    var whole := Recorded(c, e, footer, ids);
    whole.(text := if commits.text then whole.text else c.text, chats := if commits.chats then whole.chats else c.chats)
  }

  /** The transactions of one `record` after another, nothing coming in between. */
  function RecordSteps(t: int, e: Event, footer: string, ids: set<string>, commits: Commits): seq<Step> {
    [Append(t, e, footer), if commits.text then Store(t) else StoreFails(t), Join(t, if commits.chats then ids else {})]
  }

  lemma AppendThenText(s: State, t: int, e: Event, footer: string, text: bool)
    requires t !in s.recorders && s.missed <= s.cycle.revision
    ensures var one := Next(s, Append(t, e, footer));
      var whole := Recorded(s.cycle, e, footer, {});
      var two := Next(one, if text then Store(t) else StoreFails(t));
      && t in two.recorders && two.recorders == s.recorders[t := Stored]
      && two == s.(cycle := whole.(text := if text then whole.text else s.cycle.text, chats := s.cycle.chats),
                   recorders := two.recorders, missed := if text then s.missed else s.cycle.revision + 1)
  {
  }

  lemma JoinLast(s: State, two: State, t: int, e: Event, footer: string, ids: set<string>, commits: Commits)
    requires t !in s.recorders && two.recorders == s.recorders[t := Stored]
    requires var whole := Recorded(s.cycle, e, footer, {});
      two == s.(cycle := whole.(text := if commits.text then whole.text else s.cycle.text, chats := s.cycle.chats),
                recorders := two.recorders, missed := if commits.text then s.missed else s.cycle.revision + 1)
    ensures Next(two, Join(t, if commits.chats then ids else {})) ==
      s.(cycle := RecordedAsFar(s.cycle, e, footer, ids, commits), missed := if commits.text then s.missed else s.cycle.revision + 1)
  {
    JoinedAsFar(s.cycle, two.cycle, e, footer, ids, commits);
    assert two.recorders - {t} == s.recorders;
  }

  /** An uninterrupted `record` is its three transactions, whichever of the last two fail. */
  lemma RecordIsItsSteps(s: State, t: int, e: Event, footer: string, ids: set<string>, commits: Commits)
    requires t !in s.recorders && s.missed <= s.cycle.revision
    ensures Run(s, RecordSteps(t, e, footer, ids, commits)) ==
      s.(cycle := RecordedAsFar(s.cycle, e, footer, ids, commits), missed := if commits.text then s.missed else s.cycle.revision + 1)
  {
    var steps := RecordSteps(t, e, footer, ids, commits);
    var two := Next(Next(s, steps[0]), steps[1]);
    AppendThenText(s, t, e, footer, commits.text);
    JoinLast(s, two, t, e, footer, ids, commits);
    ThreeSteps(s, steps);
  }

  /** When all three commit, that is the one step. */
  lemma WholeRecordIsOneStep(s: State, e: Event, footer: string, ids: set<string>)
    ensures Next(s, Record(e, footer, ids)) == s.(cycle := RecordedAsFar(s.cycle, e, footer, ids, Commits(true, true, true)))
  {
  }

  lemma ThreeSteps(s: State, steps: seq<Step>)
    requires |steps| == 3
    ensures Run(s, steps) == Next(Next(Next(s, steps[0]), steps[1]), steps[2])
  {
    var one := Next(s, steps[0]);
    var two := Next(one, steps[1]);
    assert steps[1..][1..] == steps[2..] && steps[2..][1..] == [];
    assert Run(two, steps[2..]) == Run(Next(two, steps[2]), []);
    assert Run(one, steps[1..]) == Run(two, steps[2..]);
  }

  lemma JoinedAsFar(c: Cycle, two: Cycle, e: Event, footer: string, ids: set<string>, commits: Commits)
    requires var whole := Recorded(c, e, footer, {}); two == whole.(text := if commits.text then whole.text else c.text, chats := c.chats)
    ensures EnsureChats(two, if commits.chats then ids else {}) == RecordedAsFar(c, e, footer, ids, commits)
  {
    assert EnsureChats(two, {}).chats == two.chats;
    assert EnsureChats(two, ids).chats == Recorded(c, e, footer, ids).chats;
  }

  /** A note that fails leaves the rest of the poll to do, a crash nothing; either leaves an answer unnoted. */
  lemma UnnotedOutcome(s: State, t: int, ids: set<string>)
    ensures var failed, crashed := Next(s, NoteFails), Next(s, Crash);
      && failed.cycle == crashed.cycle == s.cycle && failed.recorders == crashed.recorders == s.recorders
      && failed.todo == s.todo && crashed.todo == [] && failed.answered == crashed.answered == None
      && (failed.unnoted <==> s.unnoted || s.answered != None) && (crashed.unnoted <==> s.unnoted || s.answered != None)
    ensures t in s.recorders && s.recorders[t] == Stored ==> Next(s, Join(t, ids)).cycle == EnsureChats(s.cycle, ids)
  {
  }

  class CycleNotifier {
    const db: NotificationCycleRepository
    const enabled: bool
    const chatIds: set<string>

    constructor (db: NotificationCycleRepository, enabled: bool, chatIds: set<string>)
      ensures this.db == db && this.enabled == enabled && this.chatIds == chatIds
    {
      this.db := db;
      this.enabled := enabled;
      this.chatIds := chatIds;
    }

    /** False means the caller must send its own message; then nothing was recorded. Only a failed append
        leads to that: the other two writes may fail too, and the report is owned all the same. */
    method Record(uxid: Option<string>, strategy: string, e: Event, footer: string, commits: Commits) returns (owned: bool)
      modifies db
      ensures owned <==> uxid.Some? && uxid.value != "" && enabled && commits.append
      ensures !owned ==> db.cycles == old(db.cycles)
      ensures owned ==>
        var key := Key(strategy, uxid.value);
        db.cycles == old(db.cycles)[key := RecordedAsFar(CycleAt(old(db.cycles), key), e, footer, chatIds, commits)]
    {
      if uxid.None? || uxid.value == "" || !enabled || !commits.append { return false; }
      var key := Key(strategy, uxid.value);
      var c := db.AppendCycleEvent(key, e);
      db.SetCycleMessageText(key, Body(c.events, c.status, footer), c.revision, commits.text);
      db.EnsureCycleChats(key, chatIds, commits.chats);
      return true;
    }
  }

  /** A due row and the cycle it belongs to. */
  datatype Delivery = Delivery(key: Key, due: Due)

  ghost predicate ReadDue(cycles: map<Key, Cycle>, rows: seq<Delivery>) {
    && (forall k :: 0 <= k < |rows| ==>
          rows[k].key in cycles && IsDue(cycles[rows[k].key], rows[k].due.id)
          && rows[k].due == DueRow(cycles[rows[k].key], rows[k].due.id))
    && (forall j, k :: 0 <= j < k < |rows| ==> rows[j].key != rows[k].key || rows[j].due.id != rows[k].due.id)
  }

  /** Chat `id` of `key` is not one of the first `n` rows. */
  ghost predicate Untouched(rows: seq<Delivery>, n: nat, key: Key, id: string)
    requires n <= |rows|
  {
    forall k :: 0 <= k < n ==> rows[k].key != key || rows[k].due.id != id
  }

  ghost predicate SameButChats(before: map<Key, Cycle>, after: map<Key, Cycle>) {
    && after.Keys == before.Keys
    && (forall key :: key in before ==> after[key].(chats := before[key].chats) == before[key])
    && (forall key :: key in before ==> after[key].chats.Keys == before[key].chats.Keys)
  }

  /** The first `n` rows were answered, and noted where the note commits, each on its own chat; no other chat changed. */
  ghost predicate Delivered(before: map<Key, Cycle>, after: map<Key, Cycle>, rows: seq<Delivery>, answers: nat -> (Answer, bool), n: nat)
    requires n <= |rows| && ReadDue(before, rows)
  {
    && SameButChats(before, after)
    && (forall k :: 0 <= k < n ==>
          after[rows[k].key].chats[rows[k].due.id] ==
            AfterAnswer(before[rows[k].key].chats[rows[k].due.id], rows[k].due, answers(k).0, answers(k).1))
    && (forall key, id :: key in before && id in before[key].chats && Untouched(rows, n, key, id) ==>
          after[key].chats[id] == before[key].chats[id])
  }

  function AfterAnswer(chat: Chat, due: Due, answer: Answer, noted: bool): Chat {
    var shown := ShownChat(chat, due, answer);
    if noted then NotedChat(shown, due, answer) else shown
  }

  lemma NotedShown(c: Cycle, due: Due, answer: Answer, noted: bool)
    requires due.id in c.chats
    ensures Answered(c, due, answer, noted) == c.(chats := c.chats[due.id := AfterAnswer(c.chats[due.id], due, answer, noted)])
  {
    var shown := ShownChat(c.chats[due.id], due, answer);
    assert c.chats[due.id := shown][due.id := NotedChat(shown, due, answer)] == c.chats[due.id := NotedChat(shown, due, answer)];
  }

  lemma DeliverOne(before: map<Key, Cycle>, mid: map<Key, Cycle>, after: map<Key, Cycle>, rows: seq<Delivery>, answers: nat -> (Answer, bool), n: nat)
    requires ReadDue(before, rows) && n < |rows| && Delivered(before, mid, rows, answers, n)
    requires after == mid[rows[n].key := Answered(mid[rows[n].key], rows[n].due, answers(n).0, answers(n).1)]
    ensures Delivered(before, after, rows, answers, n + 1)
  {
    var key, id, due := rows[n].key, rows[n].due.id, rows[n].due;
    assert key in before && id in before[key].chats && Untouched(rows, n, key, id);
    var shown := AfterAnswer(before[key].chats[id], due, answers(n).0, answers(n).1);
    NotedShown(mid[key], due, answers(n).0, answers(n).1);
    ChangedOneChat(before, mid, after, key, id, shown);
    OneMoreDelivered(before, mid, after, rows, answers, n, shown);
  }

  /** One chat of the table changed, to `shown`. */
  ghost predicate OnlyChat(mid: map<Key, Cycle>, after: map<Key, Cycle>, row: Delivery, shown: Chat) {
    && after.Keys == mid.Keys
    && (forall k :: k in mid ==> after[k].chats.Keys == mid[k].chats.Keys)
    && (forall k, i :: k in mid && i in mid[k].chats ==>
          after[k].chats[i] == if k == row.key && i == row.due.id then shown else mid[k].chats[i])
  }

  lemma OneMoreDelivered(before: map<Key, Cycle>, mid: map<Key, Cycle>, after: map<Key, Cycle>, rows: seq<Delivery>, answers: nat -> (Answer, bool), n: nat, shown: Chat)
    requires ReadDue(before, rows) && n < |rows| && Delivered(before, mid, rows, answers, n) && SameButChats(before, after)
    requires shown == AfterAnswer(before[rows[n].key].chats[rows[n].due.id], rows[n].due, answers(n).0, answers(n).1)
    requires OnlyChat(mid, after, rows[n], shown)
    ensures Delivered(before, after, rows, answers, n + 1)
  {
    forall other, chat | other in before && chat in before[other].chats && Untouched(rows, n + 1, other, chat)
      ensures after[other].chats[chat] == before[other].chats[chat]
    {
      UntouchedStays(before, mid, after, rows, answers, n, shown, other, chat);
    }
    forall k | 0 <= k < n + 1
      ensures after[rows[k].key].chats[rows[k].due.id] == AfterAnswer(before[rows[k].key].chats[rows[k].due.id], rows[k].due, answers(k).0, answers(k).1)
    {
      DeliveredStays(before, mid, after, rows, answers, n, shown, k);
    }
  }

  lemma UntouchedStays(before: map<Key, Cycle>, mid: map<Key, Cycle>, after: map<Key, Cycle>, rows: seq<Delivery>, answers: nat -> (Answer, bool), n: nat, shown: Chat, key: Key, id: string)
    requires ReadDue(before, rows) && n < |rows| && Delivered(before, mid, rows, answers, n) && OnlyChat(mid, after, rows[n], shown)
    requires key in before && id in before[key].chats && Untouched(rows, n + 1, key, id)
    ensures after[key].chats[id] == before[key].chats[id]
  {
    assert Untouched(rows, n, key, id) && (rows[n].key != key || rows[n].due.id != id);
    assert key in mid && id in mid[key].chats;
  }

  lemma DeliveredStays(before: map<Key, Cycle>, mid: map<Key, Cycle>, after: map<Key, Cycle>, rows: seq<Delivery>, answers: nat -> (Answer, bool), n: nat, shown: Chat, k: nat)
    requires ReadDue(before, rows) && n < |rows| && Delivered(before, mid, rows, answers, n) && OnlyChat(mid, after, rows[n], shown)
    requires shown == AfterAnswer(before[rows[n].key].chats[rows[n].due.id], rows[n].due, answers(n).0, answers(n).1) && k <= n
    ensures after[rows[k].key].chats[rows[k].due.id] == AfterAnswer(before[rows[k].key].chats[rows[k].due.id], rows[k].due, answers(k).0, answers(k).1)
  {
    var key, id := rows[k].key, rows[k].due.id;
    assert key in before && id in before[key].chats;
    assert key in mid && id in mid[key].chats;
    var answered := AfterAnswer(before[key].chats[id], rows[k].due, answers(k).0, answers(k).1);
    if k < n {
      assert mid[key].chats[id] == answered;
      assert key != rows[n].key || id != rows[n].due.id;
    }
  }

  lemma ChangedOneChat(before: map<Key, Cycle>, mid: map<Key, Cycle>, after: map<Key, Cycle>, key: Key, id: string, chat: Chat)
    requires SameButChats(before, mid) && key in before && id in before[key].chats
    requires after == mid[key := mid[key].(chats := mid[key].chats[id := chat])]
    ensures SameButChats(before, after)
    ensures after.Keys == mid.Keys && forall k :: k in mid ==> after[k].chats.Keys == mid[k].chats.Keys
    ensures forall k, i :: k in mid && i in mid[k].chats ==> after[k].chats[i] == if k == key && i == id then chat else mid[k].chats[i]
  {
  }

  class CycleNotificationJob {
    const db: NotificationCycleRepository

    constructor (db: NotificationCycleRepository)
      ensures this.db == db
    {
      this.db := db;
    }

    /** One pass over the due rows; `answers(k)` is Telegram's answer to the k-th call and whether its note commits. */
    method Poll(rows: seq<Delivery>, answers: nat -> (Answer, bool))
      requires ReadDue(db.cycles, rows)
      modifies db
      ensures Delivered(old(db.cycles), db.cycles, rows, answers, |rows|)
    {
      for n := 0 to |rows|
        invariant Delivered(old(db.cycles), db.cycles, rows, answers, n)
      {
        ghost var mid := db.cycles;
        assert rows[n].key in old(db.cycles);
        db.NoteDelivery(rows[n].key, rows[n].due, answers(n).0, answers(n).1);
        DeliverOne(old(db.cycles), mid, db.cycles, rows, answers, n);
      }
    }
  }

  /**
   * What an answer, noted or not, leaves of a due chat. The message id becomes the one of a first send, is forgotten
   * when the message vanished, and stays otherwise; the attempts start over after a success, stay after a vanished
   * message and grow by one after a failure.
   */
  lemma DeliveryOutcome(c: Cycle, id: string, answer: Answer, noted: bool)
    requires Sound(c) && IsDue(c, id)
    ensures
      var chat := c.chats[id];
      var due := DueRow(c, id);
      var after := AfterAnswer(chat, due, answer, noted);
      var vanished := answer.Missing? && chat.messageId.Some?;
      var later := c.(chats := c.chats[id := after]);
      && after.shown == (if answer.Accepted? then c.text else chat.shown)
      && after.delivered == (if answer.Accepted? && noted then c.revision else chat.delivered)
      && after.messageId ==
           (if noted && answer.Accepted? && chat.messageId.None? then Some(answer.messageId)
            else if noted && vanished then None else chat.messageId)
      && after.attempts == (if !noted || vanished then chat.attempts else if answer.Accepted? then 0 else chat.attempts + 1)
      && (noted && vanished ==> IsDue(later, id) && DueRow(later, id).messageId == None && DueRow(later, id).text == due.text)
      && (IsDue(later, id) <==> !noted || vanished || (!answer.Accepted? && chat.attempts + 1 < 5))
  {
  }

  /** A message that vanished is posted anew: the next accepted answer is to a first send, whose id is kept. */
  lemma VanishedIsSentAgain(s: State, id: string, messageId: int)
    requires Sound(s.cycle) && s.todo == [] && s.answered.None? && IsDue(s.cycle, id) && s.cycle.chats[id].messageId.Some?
    ensures var gone := Round(s, id, Missing);
      var chat := Round(gone, id, Accepted(messageId)).cycle.chats;
      && IsDue(gone.cycle, id) && gone.cycle.chats[id].messageId == None
      && id in chat && chat[id] == Chat(Some(messageId), s.cycle.revision, 0, s.cycle.text)
  {
    var gone := Round(s, id, Missing);
    RoundIs(s, id, Missing);
    RoundIs(gone, id, Accepted(messageId));
  }
}
