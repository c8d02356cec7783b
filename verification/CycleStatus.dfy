/** The headline status of a trade's message and how successive actions fold into it. */
module CycleStatus {
  import opened Wrappers

  datatype Status =
    | Opened | Tp1 | Tp2 | Sl | RSl | TerminalClosed | ForcedClosed | Flatted | Rejected | Failed

  predicate Terminal(s: Status) {
    s.Tp2? || s.Sl? || s.RSl? || s.Flatted? || s.ForcedClosed? || s.TerminalClosed?
  }

  /** Statuses that describe an action; no position was ever opened. */
  predicate NoPosition(s: Status) {
    s.Failed? || s.Rejected?
  }

  function MergeStatus(current: Option<Status>, incoming: Option<Status>): Option<Status> {
    if incoming.None? then current
    else if current.None? then incoming
    else if Terminal(current.value) then current
    else if NoPosition(incoming.value) && !NoPosition(current.value) then current
    else incoming
  }

  /** The status of a message after `incoming` were appended, oldest first, to a new cycle. */
  function Fold(incoming: seq<Option<Status>>): Option<Status> {
    if incoming == [] then None
    else MergeStatus(Fold(incoming[..|incoming| - 1]), incoming[|incoming| - 1])
  }

  // ----- an independent reading of the same history

  /** The events of `incoming` that say something and satisfy `keep`, in order. */
  function Select(incoming: seq<Option<Status>>, keep: Status -> bool): seq<Status> {
    if incoming == [] then []
    else
      var last := incoming[|incoming| - 1];
      var before := Select(incoming[..|incoming| - 1], keep);
      if last.Some? && keep(last.value) then before + [last.value] else before
  }

  function First(s: seq<Status>): Option<Status> { if s == [] then None else Some(s[0]) }

  function Last(s: seq<Status>): Option<Status> { if s == [] then None else Some(s[|s| - 1]) }

  predicate Live(s: Status) { s.Opened? || s.Tp1? }

  /** The first terminal status; else the last live one; else the last refusal; else nothing. */
  function Choose(closed: seq<Status>, live: seq<Status>, refused: seq<Status>): Option<Status> {
    if closed != [] then First(closed) else if live != [] then Last(live) else Last(refused)
  }

  function Headline(incoming: seq<Option<Status>>): Option<Status> {
    Choose(Select(incoming, Terminal), Select(incoming, Live), Select(incoming, NoPosition))
  }

  lemma MergeChooses(closed: seq<Status>, live: seq<Status>, refused: seq<Status>, s: Status)
    requires (closed != [] ==> Terminal(closed[0])) && (live != [] ==> Live(Last(live).value)) && (refused != [] ==> NoPosition(Last(refused).value))
    ensures Terminal(s) ==> MergeStatus(Choose(closed, live, refused), Some(s)) == Choose(closed + [s], live, refused)
    ensures Live(s) ==> MergeStatus(Choose(closed, live, refused), Some(s)) == Choose(closed, live + [s], refused)
    ensures NoPosition(s) ==> MergeStatus(Choose(closed, live, refused), Some(s)) == Choose(closed, live, refused + [s])
  {
  }

  lemma HeadlineStep(before: seq<Option<Status>>, s: Status)
    ensures Headline(before + [Some(s)]) == MergeStatus(Headline(before), Some(s))
  {
    assert (before + [Some(s)])[..|before|] == before;
    SelectedKeep(before, Terminal);
    SelectedKeep(before, Live);
    SelectedKeep(before, NoPosition);
    MergeChooses(Select(before, Terminal), Select(before, Live), Select(before, NoPosition), s);
  }

  lemma HeadlineSkips(before: seq<Option<Status>>)
    ensures Headline(before + [None]) == Headline(before)
  {
    assert (before + [None])[..|before|] == before;
  }

  lemma {:induction false} FoldIsHeadline(incoming: seq<Option<Status>>)
    ensures Fold(incoming) == Headline(incoming)
  {
    if incoming != [] {
      var before, last := incoming[..|incoming| - 1], incoming[|incoming| - 1];
      FoldIsHeadline(before);
      assert incoming == before + [last];
      if last.Some? { HeadlineStep(before, last.value); } else { HeadlineSkips(before); }
    }
  }

  lemma {:induction false} SelectedKeep(incoming: seq<Option<Status>>, keep: Status -> bool)
    ensures forall s :: s in Select(incoming, keep) ==> keep(s)
  {
    if incoming != [] {
      SelectedKeep(incoming[..|incoming| - 1], keep);
    }
  }

  /** Once a trade's message says closed, no later action, however late or repeated, changes it. */
  lemma {:induction false} ClosedIsFinal(before: seq<Option<Status>>, after: seq<Option<Status>>)
    requires Fold(before).Some? && Terminal(Fold(before).value)
    ensures Fold(before + after) == Fold(before)
  {
    if after == [] {
      assert before + after == before;
    } else {
      var whole := before + after;
      assert whole[..|whole| - 1] == before + after[..|after| - 1];
      ClosedIsFinal(before, after[..|after| - 1]);
    }
  }
}
