/**
 * Live signals and the replay a handshake acknowledgement carries, both through the same gate. A
 * processed signal's id is kept in the position log, which is what replay is deduplicated against.
 */
module Replay {
  import opened Wrappers

  /**
   * A signal with what will come of it if it gets past the gate: refused by an entry guard, or given to
   * the handler; whether an exception ends it before or after its log row, and whether that row is
   * written. `age` is `None` when the timestamp cannot be read.
   */
  datatype Incoming = Incoming(id: Option<string>, strategy: string, age: Option<real>, refused: bool, failure: Failure, logWritten: bool)

  /** Handling may raise before the log row is written, and persisting or notifying after it. */
  datatype Failure = NoFailure | BeforeLog | AfterLog

  const MaxRetryTimeout := 60.0

  /** One call of the handler, and whether it was logged. */
  datatype Handling = Handling(id: Option<string>, replayed: bool, logged: bool)

  datatype State = State(logs: set<string>, blocked: bool, known: set<string>, handled: seq<Handling>)

  predicate Named(id: Option<string>) { id.Some? && id.value != "" }

  /** An empty id was never seen. */
  predicate SignalExists(s: State, id: Option<string>) { Named(id) && id.value in s.logs }

  function Logged(s: State, m: Incoming): State {
    if m.logWritten && Named(m.id) then s.(logs := s.logs + {m.id.value}) else s
  }

  /** The single funnel: blocked and unmapped signals leave nothing behind. */
  function Process(s: State, m: Incoming, replayed: bool): State {
    if s.blocked || m.strategy !in s.known then s
    else
      var after := if m.failure.BeforeLog? then s else Logged(s, m);
      if m.refused then after
      else after.(handled := s.handled + [Handling(m.id, replayed, !m.failure.BeforeLog? && m.logWritten)])
  }

  predicate Raises(s: State, m: Incoming) { !s.blocked && m.strategy in s.known && !m.failure.NoFailure? }

  /** Already processed, or not known to be young enough. */
  predicate Stale(m: Incoming) { m.age.None? || m.age.value > MaxRetryTimeout }

  function ReplayOne(s: State, m: Incoming): State {
    if SignalExists(s, m.id) || Stale(m) then s else Process(s, m, true)
  }

  function ReplayBatch(s: State, batch: seq<Incoming>): State {
    if batch == [] then s else ReplayOne(ReplayBatch(s, batch[..|batch| - 1]), batch[|batch| - 1])
  }

  datatype Tally = Tally(executed: nat, dedup: nat, stale: nat, failed: nat)

  /** What the batch's counters come to. */
  function TallyOf(s: State, batch: seq<Incoming>): Tally {
    if batch == [] then Tally(0, 0, 0, 0)
    else
      var n := |batch| - 1;
      var t, before := TallyOf(s, batch[..n]), ReplayBatch(s, batch[..n]);
      if SignalExists(before, batch[n].id) then t.(dedup := t.dedup + 1)
      else if Stale(batch[n]) then t.(stale := t.stale + 1)
      else if Raises(before, batch[n]) then t.(failed := t.failed + 1)
      else t.(executed := t.executed + 1)
  }

  /** The id is logged when the signal's turn comes. */
  ghost predicate Seen(s: State, batch: seq<Incoming>, i: int)
    requires 0 <= i < |batch|
  {
    batch[i].id.Some? && batch[i].id.value != "" && batch[i].id.value in ReplayBatch(s, batch[..i]).logs
  }

  /** Older than a minute, or of unknown age. */
  predicate TooOld(m: Incoming) { m.age.Some? ==> m.age.value > 60.0 }

  /** Handling or persisting it raises. */
  predicate Breaks(s: State, m: Incoming) { !s.blocked && m.strategy in s.known && (m.failure == BeforeLog || m.failure == AfterLog) }

  ghost function SeenOnes(s: State, batch: seq<Incoming>): set<int> { set i | 0 <= i < |batch| && Seen(s, batch, i) }

  ghost function OldOnes(s: State, batch: seq<Incoming>): set<int> { set i | 0 <= i < |batch| && !Seen(s, batch, i) && TooOld(batch[i]) }

  ghost function BrokenOnes(s: State, batch: seq<Incoming>): set<int> {
    set i | 0 <= i < |batch| && !Seen(s, batch, i) && !TooOld(batch[i]) && Breaks(s, batch[i])
  }

  lemma {:induction false} BatchKeepsGate(s: State, batch: seq<Incoming>)
    ensures ReplayBatch(s, batch).blocked == s.blocked && ReplayBatch(s, batch).known == s.known
  {
    if batch != [] { BatchKeepsGate(s, batch[..|batch| - 1]); }
  }

  lemma OnesGrow(s: State, batch: seq<Incoming>)
    requires batch != []
    ensures var n := |batch| - 1;
      var front := batch[..n];
      && SeenOnes(s, batch) == SeenOnes(s, front) + (if Seen(s, batch, n) then {n} else {})
      && OldOnes(s, batch) == OldOnes(s, front) + (if !Seen(s, batch, n) && TooOld(batch[n]) then {n} else {})
      && BrokenOnes(s, batch) == BrokenOnes(s, front) + (if !Seen(s, batch, n) && !TooOld(batch[n]) && Breaks(s, batch[n]) then {n} else {})
      && n !in SeenOnes(s, front) && n !in OldOnes(s, front) && n !in BrokenOnes(s, front)
  {
    var front := batch[..|batch| - 1];
    forall i | 0 <= i < |front| ensures Seen(s, batch, i) <==> Seen(s, front, i) { assert batch[..i] == front[..i]; }
  }

  function One(b: bool): nat { if b then 1 else 0 }

  lemma TallyStep(s: State, batch: seq<Incoming>)
    requires batch != []
    ensures var n := |batch| - 1;
      var t, front := TallyOf(s, batch), TallyOf(s, batch[..n]);
      && t.dedup == front.dedup + One(Seen(s, batch, n))
      && t.stale == front.stale + One(!Seen(s, batch, n) && TooOld(batch[n]))
      && t.failed == front.failed + One(!Seen(s, batch, n) && !TooOld(batch[n]) && Breaks(s, batch[n]))
      && t.executed + t.dedup + t.stale + t.failed == front.executed + front.dedup + front.stale + front.failed + 1
  {
    BatchKeepsGate(s, batch[..|batch| - 1]);
  }

  /** Each counter counts what it says, by the state in which each signal's turn came; the rest is executed. */
  lemma {:induction false} TallyCounts(s: State, batch: seq<Incoming>)
    ensures var t := TallyOf(s, batch);
      && t.dedup == |SeenOnes(s, batch)| && t.stale == |OldOnes(s, batch)| && t.failed == |BrokenOnes(s, batch)|
      && t.executed + t.dedup + t.stale + t.failed == |batch|
  {
    if batch == [] {
      assert SeenOnes(s, batch) == {} && OldOnes(s, batch) == {} && BrokenOnes(s, batch) == {};
    } else {
      TallyCounts(s, batch[..|batch| - 1]);
      TallyStep(s, batch);
      OnesGrow(s, batch);
    }
  }

  /** The signals handled are at most the ones counted executed or failed. */
  lemma {:induction false} TallyAccountsForAll(s: State, batch: seq<Incoming>)
    ensures var t := TallyOf(s, batch);
      && t.executed + t.dedup + t.stale + t.failed == |batch|
      && |s.handled| <= |ReplayBatch(s, batch).handled| <= |s.handled| + t.executed + t.failed
  {
    if batch != [] { TallyAccountsForAll(s, batch[..|batch| - 1]); }
  }

  class SignalReplay {
    var state: State

    constructor (known: set<string>)
      ensures state == State({}, false, known, [])
    {
      state := State({}, false, known, []);
    }

    /** One failing signal does not stop the batch. */
    method ApplyRetrySignals(batch: seq<Incoming>) returns (t: Tally)
      modifies this
      ensures state == ReplayBatch(old(state), batch) && t == TallyOf(old(state), batch)
    {
      t := Tally(0, 0, 0, 0);
      for i := 0 to |batch|
        invariant state == ReplayBatch(old(state), batch[..i]) && t == TallyOf(old(state), batch[..i])
      {
        assert batch[..i + 1][..i] == batch[..i];
        var m := batch[i];
        if SignalExists(state, m.id) {
          t := t.(dedup := t.dedup + 1);
        } else if Stale(m) {
          t := t.(stale := t.stale + 1);
        } else {
          t := if Raises(state, m) then t.(failed := t.failed + 1) else t.(executed := t.executed + 1);
          state := Process(state, m, true);
        }
      }
      assert batch[..|batch|] == batch;
    }
  }

  // ----- runs of live signals and acknowledgements

  /** `blocked` and `known` are what the acknowledgement pushes; `held` means the market cannot replay yet. */
  datatype Step =
    | Live(signal: Incoming)
    | SetBlocked(blocked: bool)
    | Ack(restored: Option<bool>, strategies: Option<set<string>>, held: bool, batch: seq<Incoming>)

  function Configured(s: State, restored: Option<bool>, strategies: Option<set<string>>): State {
    s.(blocked := restored.GetOr(s.blocked), known := strategies.GetOr(s.known))
  }

  function Next(s: State, step: Step): State {
    match step
    case Live(m) => Process(s, m, false)
    case SetBlocked(b) => s.(blocked := b)
    case Ack(restored, strategies, held, batch) =>
      var configured := Configured(s, restored, strategies);
      if held then configured else ReplayBatch(configured, batch)
  }

  function Run(s: State, steps: seq<Step>): State
    decreases |steps|
  {
    if steps == [] then s else Run(Next(s, steps[0]), steps[1..])
  }

  /** Every handling that was logged is in the log, and no later replay was of its id. */
  ghost predicate AtMostOnce(s: State) {
    && (forall j :: 0 <= j < |s.handled| && s.handled[j].logged && Named(s.handled[j].id) ==> s.handled[j].id.value in s.logs)
    && (forall j, k :: 0 <= j < k < |s.handled| && s.handled[j].logged && Named(s.handled[j].id) && s.handled[k].replayed ==> s.handled[k].id != s.handled[j].id)
  }

  lemma ProcessKeeps(s: State, m: Incoming, replayed: bool)
    requires AtMostOnce(s) && (replayed ==> !SignalExists(s, m.id))
    ensures AtMostOnce(Process(s, m, replayed))
    ensures s.logs <= Process(s, m, replayed).logs && s.handled <= Process(s, m, replayed).handled
    ensures Process(s, m, replayed).blocked == s.blocked && Process(s, m, replayed).known == s.known
  {
  }

  lemma {:induction false} BatchKeeps(s: State, batch: seq<Incoming>)
    requires AtMostOnce(s)
    ensures AtMostOnce(ReplayBatch(s, batch))
    ensures s.logs <= ReplayBatch(s, batch).logs && s.handled <= ReplayBatch(s, batch).handled
  {
    if batch != [] {
      var front, last := ReplayBatch(s, batch[..|batch| - 1]), batch[|batch| - 1];
      BatchKeeps(s, batch[..|batch| - 1]);
      if !SignalExists(front, last.id) { ProcessKeeps(front, last, true); }
    }
  }

  lemma StepKeeps(s: State, step: Step)
    requires AtMostOnce(s)
    ensures AtMostOnce(Next(s, step)) && s.logs <= Next(s, step).logs && s.handled <= Next(s, step).handled
  {
    match step
    case Live(m) => ProcessKeeps(s, m, false);
    case SetBlocked(b) =>
    case Ack(restored, strategies, held, batch) => BatchKeeps(Configured(s, restored, strategies), batch);
  }

  /**
   * Over any run of live signals and acknowledgements, duplicates inside a batch included: an id whose
   * handling was logged is never executed again by replay.
   */
  lemma {:induction false} ReplayIsAtMostOnce(s: State, steps: seq<Step>)
    requires AtMostOnce(s)
    ensures AtMostOnce(Run(s, steps)) && s.logs <= Run(s, steps).logs && s.handled <= Run(s, steps).handled
    decreases |steps|
  {
    if steps != [] {
      StepKeeps(s, steps[0]);
      ReplayIsAtMostOnce(Next(s, steps[0]), steps[1..]);
    }
  }

  // ----- what a processed signal leaves in the log

  /** The signal gets past the gate. */
  predicate Passes(s: State, m: Incoming) { !s.blocked && m.strategy in s.known }

  /** Its log row is written: nothing raised before it, and the write itself succeeded. */
  predicate WritesLog(m: Incoming) { m.logWritten && (m.failure == NoFailure || m.failure == AfterLog) && m.id.Some? && m.id.value != "" }

  /** What one signal leaves: at most one call of the handler, and its id in the log when its row was written. */
  lemma ProcessOutcome(s: State, m: Incoming, replayed: bool)
    ensures var after := Process(s, m, replayed);
      && after.blocked == s.blocked && after.known == s.known
      && after.logs == s.logs + (if Passes(s, m) && WritesLog(m) then {m.id.value} else {})
      && (!Passes(s, m) || m.refused ==> after.handled == s.handled)
      && (Passes(s, m) && !m.refused ==>
            var h := Handling(m.id, replayed, m.logWritten && m.failure != BeforeLog);
            after.handled == s.handled + [h])
  {
  }

  lemma {:induction false} BatchKeepsLogs(s: State, batch: seq<Incoming>)
    ensures s.logs <= ReplayBatch(s, batch).logs
  {
    if batch != [] { BatchKeepsLogs(s, batch[..|batch| - 1]); }
  }

  lemma {:induction false} RunKeepsLogs(s: State, steps: seq<Step>)
    ensures s.logs <= Run(s, steps).logs
    decreases |steps|
  {
    if steps != [] {
      match steps[0] {
        case Live(m) =>
        case SetBlocked(b) =>
        case Ack(restored, strategies, held, batch) => BatchKeepsLogs(Configured(s, restored, strategies), batch);
      }
      RunKeepsLogs(Next(s, steps[0]), steps[1..]);
    }
  }

  /** Nothing a later acknowledgement replays under this id does anything. */
  ghost predicate NeverReplayed(s: State, id: Option<string>) { forall again: Incoming :: again.id == id ==> ReplayOne(s, again) == s }

  /** A live signal that got past the gate and wrote its log row is in the log for good and never replayed. */
  lemma LiveIsNeverReplayed(s: State, m: Incoming, steps: seq<Step>)
    requires Passes(s, m) && WritesLog(m)
    ensures var later := Run(Next(s, Live(m)), steps); m.id.value in later.logs && NeverReplayed(later, m.id)
  {
    RunKeepsLogs(Next(s, Live(m)), steps);
  }

  /** So is a replayed one: neither the rest of its batch nor a later acknowledgement replays it again. */
  lemma ReplayedIsNeverReplayed(s: State, m: Incoming, rest: seq<Incoming>, steps: seq<Step>)
    requires Passes(s, m) && WritesLog(m) && m.age.Some? && m.age.value <= 60.0
    ensures var later := ReplayBatch(ReplayOne(s, m), rest);
      && m.id.value in later.logs && NeverReplayed(later, m.id)
      && m.id.value in Run(later, steps).logs && NeverReplayed(Run(later, steps), m.id)
  {
    BatchKeepsLogs(ReplayOne(s, m), rest);
    RunKeepsLogs(ReplayBatch(ReplayOne(s, m), rest), steps);
  }

  /** A replayed signal is handled, as a replay, exactly when its id is not logged, it is at most a minute old and
      nothing bars it; a barred one leaves nothing. */
  lemma ReplayExecutesIff(s: State, m: Incoming)
    ensures var seen, after := m.id.Some? && m.id.value != "" && m.id.value in s.logs, ReplayOne(s, m);
      && (after.handled != s.handled <==> !seen && !TooOld(m) && Passes(s, m) && !m.refused)
      && (after.handled != s.handled ==> after.handled == s.handled + [Handling(m.id, true, m.logWritten && m.failure != BeforeLog)])
      && (seen || TooOld(m) || !Passes(s, m) ==> after == s)
  {
    ProcessOutcome(s, m, true);
  }

  /** A batch is replayed one by one, each signal seeing what the ones before it logged. */
  lemma {:induction false} BatchIsOneByOne(s: State, first: seq<Incoming>, rest: seq<Incoming>)
    ensures ReplayBatch(s, first + rest) == ReplayBatch(ReplayBatch(s, first), rest)
    ensures rest != [] && first == [] ==> ReplayBatch(s, rest[..1]) == ReplayOne(s, rest[0])
  {
    if rest == [] {
      assert first + rest == first;
    } else {
      var n := |rest| - 1;
      assert (first + rest)[..|first| + n] == first + rest[..n];
      BatchIsOneByOne(s, first, rest[..n]);
      assert rest[..1][..0] == [];
    }
  }

  /** What an acknowledgement leaves: the pushed block and strategies at once, and unless it is held the batch
      replayed under them. */
  lemma AckOutcome(s: State, restored: Option<bool>, strategies: Option<set<string>>, held: bool, batch: seq<Incoming>)
    ensures
      var after := Next(s, Ack(restored, strategies, held, batch));
      var blocked := if restored.Some? then restored.value else s.blocked;
      var known := if strategies.Some? then strategies.value else s.known;
      && after.blocked == blocked && after.known == known
      && (held ==> after.logs == s.logs && after.handled == s.handled)
      && (!held ==> after == ReplayBatch(State(s.logs, blocked, known, s.handled), batch))
  {
    BatchKeepsGate(State(s.logs, restored.GetOr(s.blocked), strategies.GetOr(s.known), s.handled), batch);
  }

  /** Runs compose. */
  lemma {:induction false} RunOn(s: State, first: seq<Step>, rest: seq<Step>)
    ensures Run(s, first + rest) == Run(Run(s, first), rest)
    decreases |first|
  {
    if first == [] {
      assert first + rest == rest;
    } else {
      assert (first + rest)[1..] == first[1..] + rest;
      RunOn(Next(s, first[0]), first[1..], rest);
    }
  }

  /** Every step of a run counts: a live signal is processed as it comes, a block takes effect as it is pushed. */
  lemma StepOutcome(s: State, m: Incoming, blocked: bool)
    ensures Run(s, [Live(m)]) == Process(s, m, false)
    ensures Run(s, [SetBlocked(blocked)]) == State(s.logs, blocked, s.known, s.handled)
  {
    assert [Live(m)][1..] == [] && [SetBlocked(blocked)][1..] == [];
    assert Run(Next(s, Live(m)), []) == Next(s, Live(m));
    assert Run(Next(s, SetBlocked(blocked)), []) == Next(s, SetBlocked(blocked));
  }

  /** A block restored by the acknowledgement stops its whole batch: nothing is handled or logged. */
  lemma {:induction false} RestoredBlockStopsBatch(s: State, batch: seq<Incoming>)
    requires s.blocked
    ensures ReplayBatch(s, batch) == s
  {
    if batch != [] { RestoredBlockStopsBatch(s, batch[..|batch| - 1]); }
  }

  /** An acknowledgement replays nothing when it restores a block, or keeps one it does not mention. */
  lemma BlockedAckReplaysNothing(s: State, restored: Option<bool>, strategies: Option<set<string>>, held: bool, batch: seq<Incoming>)
    requires restored.GetOr(s.blocked)
    ensures Next(s, Ack(restored, strategies, held, batch)) == Configured(s, restored, strategies)
  {
    RestoredBlockStopsBatch(Configured(s, restored, strategies), batch);
  }
}
