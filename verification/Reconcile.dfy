/**
 * The reconciler: rows open in the table but flat at the broker are closed, and positions live at
 * the broker but untracked are imported, each only after two scans that agree. The broker is read
 * before the table, and other threads keep writing between the two reads.
 */
module Reconcile {
  import opened Wrappers
  import opened Repository
  import opened Scans

  /** An open row and its match keys, `None` when they cannot be resolved. */
  datatype OpenRow = OpenRow(ref: Ref, keys: Option<set<string>>)

  datatype LivePosition = LivePosition(id: string, keys: set<string>)

  // ----- one scan

  function LiveKeys(live: seq<LivePosition>): set<string> {
    set p <- live, k <- p.keys :: k
  }

  predicate IsStale(r: OpenRow, live: set<string>) {
    r.keys.Some? && r.keys.value != {} && r.keys.value !! live
  }

  function StaleRefs(rows: seq<OpenRow>, live: set<string>): set<Ref> {
    set r <- rows | IsStale(r, live) :: r.ref
  }

  predicate Resolved(rows: seq<OpenRow>) { forall r :: r in rows ==> r.keys.Some? }

  function TrackedKeys(rows: seq<OpenRow>): set<string> {
    set r <- rows, k <- r.keys.GetOr({}) :: k
  }

  predicate IsUntracked(p: LivePosition, tracked: set<string>) { p.keys !! tracked }

  function UntrackedIds(rows: seq<OpenRow>, live: seq<LivePosition>): set<string> {
    set p <- live | IsUntracked(p, TrackedKeys(rows)) :: p.id
  }

  // ----- a run of scans

  datatype Scan = Skipped | Looked(live: seq<LivePosition>, rows: seq<OpenRow>)

  function Stale(s: Scan): Option<set<Ref>> {
    if s.Skipped? then None else Some(StaleRefs(s.rows, LiveKeys(s.live)))
  }

  /** The import pass also skips a scan in which some row's keys cannot be resolved. */
  function Untracked(s: Scan): Option<set<string>> {
    if s.Skipped? || !Resolved(s.rows) then None else Some(UntrackedIds(s.rows, s.live))
  }

  function StaleOver(scans: seq<Scan>): seq<Option<set<Ref>>> {
    seq(|scans|, i requires 0 <= i < |scans| => Stale(scans[i]))
  }

  function UntrackedOver(scans: seq<Scan>): seq<Option<set<string>>> {
    seq(|scans|, i requires 0 <= i < |scans| => Untracked(scans[i]))
  }

  /** The rows scan `i` of a run hands to the close handler. */
  function Closed(scans: seq<Scan>, i: nat): set<Ref>
    requires i < |scans|
  {
    if Stale(scans[i]).None? then {} else Stale(scans[i]).value * LastSeen(StaleOver(scans), i)
  }

  /** The positions scan `i` of a run hands to the import handler. */
  function Imported(scans: seq<Scan>, i: nat): set<string>
    requires i < |scans|
  {
    if Untracked(scans[i]).None? then {} else Untracked(scans[i]).value * LastSeen(UntrackedOver(scans), i)
  }

  /** At this scan an open row under the reference could be looked up and shared no key with any live position. */
  ghost predicate StaleAt(s: Scan, ref: Ref) {
    s.Looked? && exists r :: r in s.rows && r.ref == ref && Unmatched(r, s.live)
  }

  /** The row has keys, and none of them is one of a live position. */
  ghost predicate Unmatched(r: OpenRow, live: seq<LivePosition>) {
    r.keys.Some? && r.keys.value != {} && forall p :: p in live ==> r.keys.value !! p.keys
  }

  /** The import pass of this scan ran: every open row could be looked up. */
  ghost predicate Passed(s: Scan) { s.Looked? && forall r :: r in s.rows ==> r.keys.Some? }

  /** It found a live position under this id that shares a key with no open row. */
  ghost predicate UntrackedAt(s: Scan, id: string) {
    Passed(s) && exists p :: p in s.live && p.id == id && forall r :: r in s.rows ==> r.keys.value !! p.keys
  }

  lemma UnmatchedIff(r: OpenRow, live: seq<LivePosition>)
    ensures IsStale(r, LiveKeys(live)) <==> Unmatched(r, live)
  {
    if IsStale(r, LiveKeys(live)) {
      forall p | p in live ensures r.keys.value !! p.keys {
        if k :| k in r.keys.value && k in p.keys { assert k in LiveKeys(live); }
      }
    }
  }

  lemma StaleAtIff(s: Scan, ref: Ref)
    ensures Stale(s).Some? <==> s.Looked?
    ensures s.Looked? ==> (ref in Stale(s).value <==> StaleAt(s, ref))
  {
    if s.Looked? {
      forall r | r in s.rows ensures IsStale(r, LiveKeys(s.live)) <==> Unmatched(r, s.live) { UnmatchedIff(r, s.live); }
    }
  }

  lemma UntrackedAtIff(s: Scan, id: string)
    ensures Untracked(s).Some? <==> Passed(s)
    ensures Passed(s) ==> (id in Untracked(s).value <==> UntrackedAt(s, id))
  {
    if Passed(s) {
      forall p | p in s.live ensures IsUntracked(p, TrackedKeys(s.rows)) <==> forall r :: r in s.rows ==> r.keys.value !! p.keys {
        forall r | r in s.rows && !(r.keys.value !! p.keys) ensures !IsUntracked(p, TrackedKeys(s.rows)) {
          var k :| k in r.keys.value && k in p.keys;
          assert k in r.keys.GetOr({});
        }
      }
    }
  }

  /** A row is closed exactly when it is stale now and at the completed scan before, none completed in between. */
  lemma ClosedIff(scans: seq<Scan>, i: nat, ref: Ref)
    requires i < |scans|
    ensures ref in Closed(scans, i) <==>
      StaleAt(scans[i], ref) && exists j :: 0 <= j < i && StaleAt(scans[j], ref) && forall k :: j < k < i ==> scans[k].Skipped?
  {
    var over := StaleOver(scans);
    forall k | 0 <= k < |scans| ensures (Stale(scans[k]).Some? <==> scans[k].Looked?)
      && (scans[k].Looked? ==> (ref in Stale(scans[k]).value <==> StaleAt(scans[k], ref))) { StaleAtIff(scans[k], ref); }
    assert forall k :: 0 <= k < |scans| ==> (over[k].Some? <==> scans[k].Looked?);
    if scans[i].Looked? {
      LastSeenIff(over, i, ref);
      forall j | 0 <= j < i && StaleAt(scans[j], ref) && forall k :: j < k < i ==> scans[k].Skipped? ensures Consecutive(over, j, i) { }
    }
  }

  /** Symmetrically, a position is imported exactly after two such passes found it untracked. */
  lemma ImportedIff(scans: seq<Scan>, i: nat, id: string)
    requires i < |scans|
    ensures id in Imported(scans, i) <==>
      UntrackedAt(scans[i], id) && exists j :: 0 <= j < i && UntrackedAt(scans[j], id) && forall k :: j < k < i ==> !Passed(scans[k])
  {
    var over := UntrackedOver(scans);
    forall k | 0 <= k < |scans| ensures (Untracked(scans[k]).Some? <==> Passed(scans[k]))
      && (Passed(scans[k]) ==> (id in Untracked(scans[k]).value <==> UntrackedAt(scans[k], id))) { UntrackedAtIff(scans[k], id); }
    assert forall k :: 0 <= k < |scans| ==> (over[k].Some? <==> Passed(scans[k]));
    if Passed(scans[i]) {
      LastSeenIff(over, i, id);
      forall j | 0 <= j < i && UntrackedAt(scans[j], id) && forall k :: j < k < i ==> !Passed(scans[k]) ensures Consecutive(over, j, i) { }
    }
  }

  /** A row whose handler failed stays stale, and every completed scan hands it over again until it is not. */
  lemma FailedCloseIsRetried(scans: seq<Scan>, i: nat, k: nat, ref: Ref)
    requires i < k < |scans| && ref in Closed(scans, i) && StaleAt(scans[k], ref) && forall m :: i < m < k ==> scans[m].Skipped?
    ensures ref in Closed(scans, k)
  {
    ClosedIff(scans, i, ref);
    ClosedIff(scans, k, ref);
  }

  // ----- the job

  /** The rows, one per reference and for each the last stale row carrying it, of the confirmed references. */
  ghost predicate Hands(handed: seq<OpenRow>, rows: seq<OpenRow>, live: set<string>, suspected: set<Ref>) {
    && (forall k :: 0 <= k < |handed| ==> handed[k].ref in suspected && LastStale(rows, live, handed[k]))
    && (forall j, k :: 0 <= j < k < |handed| ==> handed[j].ref != handed[k].ref)
    && (forall ref :: ref in StaleRefs(rows, live) * suspected ==> exists k :: 0 <= k < |handed| && handed[k].ref == ref)
  }

  ghost predicate LastStale(rows: seq<OpenRow>, live: set<string>, r: OpenRow) {
    exists i :: 0 <= i < |rows| && rows[i] == r && IsStale(r, live)
      && forall j :: i < j < |rows| && IsStale(rows[j], live) ==> rows[j].ref != r.ref
  }

  /** The stale rows by reference, as a dictionary built in row order: `order` lists its keys as first inserted. */
  ghost predicate Collected(stale: map<Ref, OpenRow>, order: seq<Ref>, rows: seq<OpenRow>, live: set<string>) {
    && stale.Keys == StaleRefs(rows, live)
    && (forall ref :: ref in stale ==> stale[ref].ref == ref && LastStale(rows, live, stale[ref]))
    && (forall k :: 0 <= k < |order| ==> order[k] in stale)
    && (forall ref :: ref in stale ==> exists k :: 0 <= k < |order| && order[k] == ref)
    && (forall j, k :: 0 <= j < k < |order| ==> order[j] != order[k])
  }

  lemma StaleRefsGrow(rows: seq<OpenRow>, live: set<string>, r: OpenRow)
    ensures StaleRefs(rows + [r], live) == StaleRefs(rows, live) + if IsStale(r, live) then {r.ref} else {}
  {
    assert (rows + [r])[|rows|] == r;
  }

  lemma StaysLast(rows: seq<OpenRow>, live: set<string>, last: OpenRow, r: OpenRow)
    requires LastStale(rows, live, last) && !(IsStale(r, live) && r.ref == last.ref)
    ensures LastStale(rows + [r], live, last)
  {
    var i :| 0 <= i < |rows| && rows[i] == last && IsStale(last, live)
      && forall j :: i < j < |rows| && IsStale(rows[j], live) ==> rows[j].ref != last.ref;
    assert (rows + [r])[i] == last;
  }

  lemma CollectLive(stale: map<Ref, OpenRow>, order: seq<Ref>, rows: seq<OpenRow>, live: set<string>, r: OpenRow)
    requires Collected(stale, order, rows, live) && !IsStale(r, live)
    ensures Collected(stale, order, rows + [r], live)
  {
    StaleRefsGrow(rows, live, r);
    forall ref | ref in stale ensures LastStale(rows + [r], live, stale[ref]) { StaysLast(rows, live, stale[ref], r); }
  }

  function Noted(stale: map<Ref, OpenRow>, order: seq<Ref>, ref: Ref): seq<Ref> {
    if ref in stale then order else order + [ref]
  }

  lemma CollectStale(stale: map<Ref, OpenRow>, order: seq<Ref>, rows: seq<OpenRow>, live: set<string>, r: OpenRow)
    requires Collected(stale, order, rows, live) && IsStale(r, live)
    ensures Collected(stale[r.ref := r], Noted(stale, order, r.ref), rows + [r], live)
  {
    var all, larger, longer := rows + [r], stale[r.ref := r], Noted(stale, order, r.ref);
    StaleRefsGrow(rows, live, r);
    assert all[|rows|] == r && LastStale(all, live, r);
    forall ref | ref in larger ensures larger[ref].ref == ref && LastStale(all, live, larger[ref]) {
      if ref != r.ref { StaysLast(rows, live, stale[ref], r); }
    }
    forall ref | ref in larger ensures exists k :: 0 <= k < |longer| && longer[k] == ref {
      if ref in stale {
        var k :| 0 <= k < |order| && order[k] == ref;
        assert longer[k] == ref;
      } else {
        assert longer[|order|] == ref;
      }
    }
  }

  /** The stale rows of the references that were suspected, in the order of the dictionary. */
  function ConfirmedRows(stale: map<Ref, OpenRow>, order: seq<Ref>, suspected: set<Ref>): seq<OpenRow>
    requires forall k :: 0 <= k < |order| ==> order[k] in stale
  {
    if order == [] then []
    else
      var last := order[|order| - 1];
      var before := ConfirmedRows(stale, order[..|order| - 1], suspected);
      if last in suspected then before + [stale[last]] else before
  }

  lemma {:induction false} ConfirmedIff(stale: map<Ref, OpenRow>, order: seq<Ref>, suspected: set<Ref>)
    requires forall k :: 0 <= k < |order| ==> order[k] in stale && stale[order[k]].ref == order[k]
    ensures forall r :: r in ConfirmedRows(stale, order, suspected) <==> r.ref in order && r.ref in suspected && r == stale[r.ref]
  {
    if order != [] {
      var n := |order| - 1;
      ConfirmedIff(stale, order[..n], suspected);
      assert order == order[..n] + [order[n]];
    }
  }

  lemma {:induction false} ConfirmedDistinct(stale: map<Ref, OpenRow>, order: seq<Ref>, suspected: set<Ref>)
    requires forall k :: 0 <= k < |order| ==> order[k] in stale && stale[order[k]].ref == order[k]
    requires forall j, k :: 0 <= j < k < |order| ==> order[j] != order[k]
    ensures forall j, k :: 0 <= j < k < |ConfirmedRows(stale, order, suspected)| ==>
      ConfirmedRows(stale, order, suspected)[j].ref != ConfirmedRows(stale, order, suspected)[k].ref
  {
    if order != [] {
      var n := |order| - 1;
      var before := ConfirmedRows(stale, order[..n], suspected);
      ConfirmedDistinct(stale, order[..n], suspected);
      ConfirmedIff(stale, order[..n], suspected);
      forall j | 0 <= j < |before| ensures before[j].ref != order[n] { assert before[j] in before; }
    }
  }

  lemma ConfirmedAreHanded(stale: map<Ref, OpenRow>, order: seq<Ref>, rows: seq<OpenRow>, live: set<string>, suspected: set<Ref>)
    requires Collected(stale, order, rows, live)
    ensures Hands(ConfirmedRows(stale, order, suspected), rows, live, suspected)
  {
    var handed := ConfirmedRows(stale, order, suspected);
    ConfirmedIff(stale, order, suspected);
    ConfirmedDistinct(stale, order, suspected);
    forall k | 0 <= k < |handed| ensures handed[k].ref in suspected && LastStale(rows, live, handed[k]) {
      assert handed[k] in handed;
    }
    forall ref | ref in StaleRefs(rows, live) * suspected ensures exists k :: 0 <= k < |handed| && handed[k].ref == ref {
      assert ref in stale && stale[ref] in handed;
    }
  }

  lemma TrackOne(rows: seq<OpenRow>, r: OpenRow)
    ensures TrackedKeys(rows + [r]) == TrackedKeys(rows) + r.keys.GetOr({})
    ensures Resolved(rows + [r]) <==> Resolved(rows) && r.keys.Some?
  {
    var all := rows + [r];
    assert all[|rows|] == r;
    forall k | k in TrackedKeys(all) ensures k in TrackedKeys(rows) + r.keys.GetOr({}) {
      var row :| row in all && k in row.keys.GetOr({});
    }
    if Resolved(rows) && r.keys.Some? {
      forall row | row in all ensures row.keys.Some? {
        assert row in rows || row == r;
      }
    }
    if Resolved(all) {
      forall row | row in rows ensures row.keys.Some? { assert row in all; }
    }
  }

  class PositionReconcileJob {
    var suspected: set<Ref>
    var suspectedManual: set<string>
    /** Whether a manual handler was supplied. */
    const importing: bool

    constructor (importing: bool)
      ensures suspected == {} && suspectedManual == {} && this.importing == importing
    {
      this.importing := importing;
      suspected, suspectedManual := {}, {};
    }

    /** Returns the rows given to the close handler, whose failures leave no trace here. */
    method ReconcileMissedCloses(rows: seq<OpenRow>, live: seq<LivePosition>) returns (handed: seq<OpenRow>)
      modifies this`suspected
      ensures suspected == StaleRefs(rows, LiveKeys(live))
      ensures Hands(handed, rows, LiveKeys(live), old(suspected))
    {
      var liveKeys := CollectLiveKeys(live);
      var stale, order := CollectStaleRows(rows, liveKeys);
      handed := Confirm(stale, order);
      ConfirmedAreHanded(stale, order, rows, liveKeys, suspected);
      suspected := stale.Keys;
    }

    /** The dictionary of stale rows, later rows replacing earlier ones of the same reference. */
    method CollectStaleRows(rows: seq<OpenRow>, liveKeys: set<string>) returns (stale: map<Ref, OpenRow>, order: seq<Ref>)
      ensures Collected(stale, order, rows, liveKeys)
    {
      stale, order := map[], [];
      for i := 0 to |rows|
        invariant Collected(stale, order, rows[..i], liveKeys)
      {
        assert rows[..i + 1] == rows[..i] + [rows[i]];
        if IsStale(rows[i], liveKeys) {
          CollectStale(stale, order, rows[..i], liveKeys, rows[i]);
          stale, order := stale[rows[i].ref := rows[i]], Noted(stale, order, rows[i].ref);
        } else {
          CollectLive(stale, order, rows[..i], liveKeys, rows[i]);
        }
      }
      assert rows[..|rows|] == rows;
    }

    method Confirm(stale: map<Ref, OpenRow>, order: seq<Ref>) returns (handed: seq<OpenRow>)
      requires forall k :: 0 <= k < |order| ==> order[k] in stale
      ensures handed == ConfirmedRows(stale, order, suspected)
    {
      handed := [];
      for k := 0 to |order|
        invariant handed == ConfirmedRows(stale, order[..k], suspected)
      {
        assert order[..k + 1][..k] == order[..k];
        if order[k] in suspected { handed := handed + [stale[order[k]]]; }
      }
      assert order[..|order|] == order;
    }

    method CollectLiveKeys(live: seq<LivePosition>) returns (keys: set<string>)
      ensures keys == LiveKeys(live)
    {
      keys := {};
      for i := 0 to |live|
        invariant keys == LiveKeys(live[..i])
      {
        assert live[..i + 1] == live[..i] + [live[i]];
        keys := keys + live[i].keys;
      }
      assert live[..|live|] == live;
    }

    /** Returns the ids of the positions given to the manual handler. */
    method ImportUntracked(rows: seq<OpenRow>, live: seq<LivePosition>) returns (handed: set<string>)
      modifies this`suspectedManual
      ensures importing && Resolved(rows) ==>
        handed == UntrackedIds(rows, live) * old(suspectedManual) && suspectedManual == UntrackedIds(rows, live)
      ensures !importing || !Resolved(rows) ==> handed == {} && suspectedManual == old(suspectedManual)
    {
      if !importing { return {}; }
      var tracked: set<string> := {};
      for i := 0 to |rows|
        invariant Resolved(rows[..i]) && tracked == TrackedKeys(rows[..i]) && suspectedManual == old(suspectedManual)
      {
        assert rows[..i + 1] == rows[..i] + [rows[i]];
        TrackOne(rows[..i], rows[i]);
        if rows[i].keys.None? {
          assert rows[i] in rows;
          return {};
        }
        tracked := tracked + rows[i].keys.value;
      }
      assert rows[..|rows|] == rows;
      var untracked := set p <- live | IsUntracked(p, tracked) :: p.id;
      handed := untracked * suspectedManual;
      suspectedManual := untracked;
    }

    /** A whole scan; `None` when it should not run or the live fetch is unavailable. */
    method Scan(live: Option<seq<LivePosition>>, rows: seq<OpenRow>) returns (closed: seq<OpenRow>, imported: set<string>)
      modifies this
      ensures live.None? ==> closed == [] && imported == {} && suspected == old(suspected) && suspectedManual == old(suspectedManual)
      ensures live.Some? ==> Hands(closed, rows, LiveKeys(live.value), old(suspected)) && suspected == StaleRefs(rows, LiveKeys(live.value))
      ensures live.Some? && importing && Resolved(rows) ==>
        imported == UntrackedIds(rows, live.value) * old(suspectedManual) && suspectedManual == UntrackedIds(rows, live.value)
      ensures live.Some? && !(importing && Resolved(rows)) ==> imported == {} && suspectedManual == old(suspectedManual)
    {
      if live.None? { return [], {}; }
      closed := ReconcileMissedCloses(rows, live.value);
      imported := ImportUntracked(rows, live.value);
    }

    /** The loop of the job over a run of scans; what it hands over is what the run's own history determines. */
    method RunScans(scans: seq<Scan>) returns (closed: seq<set<Ref>>, imported: seq<set<string>>)
      requires suspected == {} && suspectedManual == {} && importing
      modifies this
      ensures |closed| == |scans| && forall i :: 0 <= i < |scans| ==> closed[i] == Closed(scans, i)
      ensures |imported| == |scans| && forall i :: 0 <= i < |scans| ==> imported[i] == Imported(scans, i)
    {
      closed, imported := [], [];
      for n := 0 to |scans|
        invariant suspected == LastSeen(StaleOver(scans), n) && suspectedManual == LastSeen(UntrackedOver(scans), n)
        invariant |closed| == n && forall i :: 0 <= i < n ==> closed[i] == Closed(scans, i)
        invariant |imported| == n && forall i :: 0 <= i < n ==> imported[i] == Imported(scans, i)
      {
        var s := scans[n];
        ghost var before := suspected;
        var live := if s.Skipped? then None else Some(s.live);
        var rows, ids := Scan(live, if s.Skipped? then [] else s.rows);
        var refs := set r <- rows :: r.ref;
        if s.Looked? { HandedRefs(rows, s.rows, LiveKeys(s.live), before); }
        closed, imported := closed + [refs], imported + [ids];
      }
    }
  }

  lemma HandedRefs(handed: seq<OpenRow>, rows: seq<OpenRow>, live: set<string>, suspected: set<Ref>)
    requires Hands(handed, rows, live, suspected)
    ensures (set r <- handed :: r.ref) == StaleRefs(rows, live) * suspected
  {
    forall r | r in handed ensures r.ref in StaleRefs(rows, live) * suspected {
      var k :| 0 <= k < |handed| && handed[k] == r;
      assert LastStale(rows, live, handed[k]);
    }
    forall ref | ref in StaleRefs(rows, live) * suspected ensures ref in (set r <- handed :: r.ref) {
      var k :| 0 <= k < |handed| && handed[k].ref == ref;
      assert handed[k] in handed;
    }
  }

  // ----- every interleaving of a scan's own reads with the other threads

  datatype Phase =
    | Idle
    | HaveLive(live: seq<LivePosition>)
    | HaveBoth(seen: seq<LivePosition>, rows: seq<OpenRow>)

  /** `everOpen` is every reference that was ever open in the table, `closed` every one handed over. */
  datatype System = System(
    live: seq<LivePosition>, rows: seq<OpenRow>, everOpen: set<Ref>,
    suspected: set<Ref>, phase: Phase, closed: set<Ref>)

  datatype Step =
    | Others(live: seq<LivePosition>, rows: seq<OpenRow>)  // positions and rows come and go
    | ReadLive
    | ReadRows
    | Handle
    | Skip  // the fetch failed, or something raised

  function Refs(rows: seq<OpenRow>): set<Ref> { set r <- rows :: r.ref }

  function Next(s: System, step: Step): System {
    match step
    case Others(live, rows) => s.(live := live, rows := rows, everOpen := s.everOpen + Refs(rows))
    case ReadLive => if s.phase.Idle? then s.(phase := HaveLive(s.live)) else s
    case ReadRows => if s.phase.HaveLive? then s.(phase := HaveBoth(s.phase.live, s.rows)) else s
    case Handle =>
      if !s.phase.HaveBoth? then s else
      var stale := StaleRefs(s.phase.rows, LiveKeys(s.phase.seen));
      s.(suspected := stale, phase := Idle, closed := s.closed + (stale * s.suspected))
    case Skip => s.(phase := Idle)
  }

  function Run(s: System, steps: seq<Step>): System
    decreases |steps|
  {
    if steps == [] then s else Run(Next(s, steps[0]), steps[1..])
  }

  /** Position `p` is live whenever, and ever since, a row `ref` sharing a key with it is open. */
  ghost predicate Tracks(s: System, ref: Ref, p: LivePosition) {
    && (ref in s.everOpen ==> p in s.live)
    && (forall r :: r in s.rows && r.ref == ref ==> Shares(r, p))
  }

  predicate Shares(r: OpenRow, p: LivePosition) { r.keys.Some? ==> r.keys.value * p.keys != {} }

  ghost predicate TracksAlways(s: System, steps: seq<Step>, ref: Ref, p: LivePosition)
    decreases |steps|
  {
    Tracks(s, ref, p) && (steps != [] ==> TracksAlways(Next(s, steps[0]), steps[1..], ref, p))
  }

  /**
   * The next live read follows this scan's table read: a suspect was open before it, so any live
   * snapshot taken while it is a suspect holds the position.
   */
  ghost predicate Inv(s: System, ref: Ref, p: LivePosition) {
    && ref !in s.closed
    && Refs(s.rows) <= s.everOpen
    && (ref in s.suspected ==> ref in s.everOpen)
    && (s.phase.HaveLive? && ref in s.suspected ==> p in s.phase.live)
    && (s.phase.HaveBoth? && ref in s.suspected ==> p in s.phase.seen)
    && (s.phase.HaveBoth? ==> Refs(s.phase.rows) <= s.everOpen && forall r :: r in s.phase.rows && r.ref == ref ==> Shares(r, p))
  }

  lemma MatchedIsNotStale(rows: seq<OpenRow>, live: seq<LivePosition>, ref: Ref, p: LivePosition)
    requires p in live && forall r :: r in rows && r.ref == ref ==> Shares(r, p)
    ensures ref !in StaleRefs(rows, LiveKeys(live))
  {
    forall r | r in rows && r.ref == ref && r.keys.Some? ensures !IsStale(r, LiveKeys(live)) {
      var k :| k in r.keys.value * p.keys;
      assert k in LiveKeys(live);
    }
  }

  lemma StepKeeps(s: System, step: Step, ref: Ref, p: LivePosition)
    requires Inv(s, ref, p) && Tracks(s, ref, p)
    ensures Inv(Next(s, step), ref, p)
  {
    if step.Handle? && s.phase.HaveBoth? {
      if ref in s.suspected { MatchedIsNotStale(s.phase.rows, s.phase.seen, ref, p); }
      assert StaleRefs(s.phase.rows, LiveKeys(s.phase.seen)) <= Refs(s.phase.rows);
    }
  }

  /**
   * Under every interleaving of scans, skipped scans, entries and closes: a row whose position was live
   * before the row was inserted and has stayed live since is never handed to the close handler.
   */
  lemma {:induction false} TrackedPositionIsNeverClosed(s: System, steps: seq<Step>, ref: Ref, p: LivePosition)
    requires Inv(s, ref, p) && TracksAlways(s, steps, ref, p)
    ensures ref !in Run(s, steps).closed
    decreases |steps|
  {
    if steps != [] {
      StepKeeps(s, steps[0], ref, p);
      TrackedPositionIsNeverClosed(Next(s, steps[0]), steps[1..], ref, p);
    }
  }

  /** A scan that nobody interrupts suspects exactly the stale rows, and hands over those it already suspected. */
  lemma QuietScan(s: System, steps: seq<Step>, ref: Ref)
    requires s.phase == Idle && steps == [ReadLive, ReadRows, Handle]
    ensures var after, stale := Run(s, steps), StaleAt(Looked(s.live, s.rows), ref);
      && after == s.(suspected := after.suspected, closed := after.closed)
      && (ref in after.suspected <==> stale) && (ref in after.closed <==> ref in s.closed || (stale && ref in s.suspected))
  {
    var one := Next(s, steps[0]);
    var two := Next(one, steps[1]);
    assert steps[1..][1..] == steps[2..] && steps[2..][1..] == [];
    assert Run(two, steps[2..]) == Run(Next(two, steps[2]), []);
    assert Run(one, steps[1..]) == Run(two, steps[2..]);
    StaleAtIff(Looked(s.live, s.rows), ref);
  }

  /** So two such scans close whatever is stale throughout, and nothing else. */
  lemma StaleTwiceIsClosed(s: System, steps: seq<Step>, ref: Ref)
    requires s.phase == Idle && steps == [ReadLive, ReadRows, Handle] && ref !in s.closed && ref !in s.suspected
    ensures ref in Run(Run(s, steps), steps).closed <==> StaleAt(Looked(s.live, s.rows), ref)
  {
    QuietScan(s, steps, ref);
    QuietScan(Run(s, steps), steps, ref);
  }

  /** A skipped scan forgets what it read and nothing else; a scan reads the broker once. */
  lemma SkippedScan(s: System)
    ensures var after := Next(s, Skip); after.phase == Idle && after.suspected == s.suspected && after.closed == s.closed
    ensures s.phase != Idle ==> Next(s, ReadLive) == s
  {
  }

  /** Why two scans are needed: a position that fills between the two reads of a scan looks stale to it. */
  lemma FreshEntryIsSuspectedOnce(start: System, steps: seq<Step>, ref: Ref, p: LivePosition)
    requires p.keys != {} && start == System([], [], {}, {}, Idle, {})
    requires steps == [ReadLive, Others([p], [OpenRow(ref, Some(p.keys))]), ReadRows, Handle]
    ensures TracksAlways(start, steps, ref, p)
    ensures ref in Run(start, steps).suspected && ref !in Run(start, steps).closed
  {
    var row := OpenRow(ref, Some(p.keys));
    var s1 := Next(start, steps[0]);
    var s2 := Next(s1, steps[1]);
    var s3 := Next(s2, steps[2]);
    var s4 := Next(s3, steps[3]);
    SomeKey(p.keys);
    assert row in s3.phase.rows && IsStale(row, LiveKeys([]));
    assert steps[1..][0] == steps[1] && steps[1..][1..] == steps[2..] && steps[2..][0] == steps[2];
    assert steps[2..][1..] == steps[3..] && steps[3..] == [steps[3]];
    assert Run(s4, []) == s4 && TracksAlways(s4, [], ref, p) && [steps[3]][1..] == [];
    assert TracksAlways(s3, steps[3..], ref, p) && Run(s3, steps[3..]) == s4;
    assert TracksAlways(s2, steps[2..], ref, p) && Run(s2, steps[2..]) == s4;
    assert TracksAlways(s1, steps[1..], ref, p) && Run(s1, steps[1..]) == s4;
  }

  lemma SomeKey(keys: set<string>)
    requires keys != {}
    ensures keys * keys != {}
  {
    assert keys * keys == keys;
  }
}
