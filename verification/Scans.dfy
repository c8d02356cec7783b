/**
 * Jobs that compare each scan with the one before. A scan that was skipped observed nothing
 * (`None`) and leaves the job's memory alone; a completed one observed a set and replaces it.
 */
module Scans {
  import opened Wrappers

  /** What the job remembers after the first `n` scans: the last set a completed scan observed. */
  function LastSeen<T>(scans: seq<Option<set<T>>>, n: nat): set<T>
    requires n <= |scans|
  {
    if n == 0 then {}
    else if scans[n - 1].Some? then scans[n - 1].value
    else LastSeen(scans, n - 1)
  }

  /** `j` and `i` are completed scans with no completed scan between them. */
  ghost predicate Consecutive<T(!new)>(scans: seq<Option<set<T>>>, j: int, i: int) {
    && 0 <= j < i < |scans| && scans[j].Some? && scans[i].Some?
    && forall k :: j < k < i ==> scans[k].None?
  }

  /** Remembered at a completed scan means observed at the completed scan before it, and conversely. */
  lemma {:induction false} LastSeenIff<T(!new)>(scans: seq<Option<set<T>>>, i: nat, x: T)
    requires i < |scans| && scans[i].Some?
    ensures x in LastSeen(scans, i) <==> exists j :: Consecutive(scans, j, i) && x in scans[j].value
  {
    SeenBefore(scans, i, x);
    if j :| 0 <= j < i && scans[j].Some? && x in scans[j].value && (forall k :: j < k < i ==> scans[k].None?) {
      assert Consecutive(scans, j, i);
    }
  }

  lemma {:induction false} SeenBefore<T(!new)>(scans: seq<Option<set<T>>>, n: nat, x: T)
    requires n <= |scans|
    ensures x in LastSeen(scans, n) <==>
      exists j :: 0 <= j < n && scans[j].Some? && x in scans[j].value && forall k :: j < k < n ==> scans[k].None?
  {
    if n > 0 && scans[n - 1].None? {
      SeenBefore(scans, n - 1, x);
    }
  }

  // ----- skipped scans make no difference

  function Completed<T>(scans: seq<Option<set<T>>>): seq<set<T>> {
    if scans == [] then []
    else
      var last := scans[|scans| - 1];
      Completed(scans[..|scans| - 1]) + (if last.Some? then [last.value] else [])
  }

  /** The set before the k-th: nothing is remembered before the first completed scan. */
  function Previous<T>(completed: seq<set<T>>, k: nat): set<T>
    requires k <= |completed|
  {
    if k == 0 then {} else completed[k - 1]
  }

  /** What each completed scan remembered and observed. */
  function Comparisons<T>(scans: seq<Option<set<T>>>): seq<(set<T>, set<T>)> {
    if scans == [] then []
    else
      var n := |scans| - 1;
      Comparisons(scans[..n]) + (if scans[n].Some? then [(LastSeen(scans, n), scans[n].value)] else [])
  }

  lemma {:induction false} SeenPrefix<T>(scans: seq<Option<set<T>>>, more: seq<Option<set<T>>>, n: nat)
    requires n <= |scans|
    ensures LastSeen(scans + more, n) == LastSeen(scans, n)
  {
    if n > 0 { SeenPrefix(scans, more, n - 1); }
  }

  lemma {:induction false} SeenIsLastCompleted<T>(scans: seq<Option<set<T>>>)
    ensures LastSeen(scans, |scans|) == Previous(Completed(scans), |Completed(scans)|)
  {
    if scans != [] {
      var front, last := scans[..|scans| - 1], scans[|scans| - 1];
      assert scans == front + [last];
      if last.None? {
        SeenIsLastCompleted(front);
        SeenPrefix(front, [last], |front|);
        assert Completed(front) + [] == Completed(front);
      }
    }
  }

  /** A run compares each completed scan with the completed scan before it, however many were skipped. */
  lemma {:induction false} RunIsRunOfCompletedScans<T>(scans: seq<Option<set<T>>>)
    ensures |Comparisons(scans)| == |Completed(scans)|
    ensures forall k :: 0 <= k < |Completed(scans)| ==>
      Comparisons(scans)[k] == (Previous(Completed(scans), k), Completed(scans)[k])
  {
    if scans != [] {
      var front, last := scans[..|scans| - 1], scans[|scans| - 1];
      RunIsRunOfCompletedScans(front);
      var before, after := Completed(front), Completed(scans);
      if last.Some? {
        SeenIsLastCompleted(front);
        assert scans == front + [last];
        SeenPrefix(front, [last], |front|);
        assert Comparisons(scans) == Comparisons(front) + [(LastSeen(front, |front|), last.value)];
        forall k | 0 <= k < |after| ensures Comparisons(scans)[k] == (Previous(after, k), after[k]) {
          if k < |before| {
            assert Comparisons(scans)[k] == Comparisons(front)[k] && after[k] == before[k];
          }
        }
      } else {
        assert after == before && Comparisons(scans) == Comparisons(front);
      }
    }
  }

  lemma {:induction false} ComparedAt<T>(scans: seq<Option<set<T>>>, i: nat)
    requires i < |scans| && scans[i].Some?
    ensures |Completed(scans[..i])| < |Comparisons(scans)|
    ensures Comparisons(scans)[|Completed(scans[..i])|] == (LastSeen(scans, i), scans[i].value)
  {
    var front := scans[..|scans| - 1];
    RunIsRunOfCompletedScans(front);
    if i == |scans| - 1 {
    } else {
      assert front[..i] == scans[..i] && scans == front + [scans[|scans| - 1]];
      ComparedAt(front, i);
      SeenPrefix(front, [scans[|scans| - 1]], i);
    }
  }
}
