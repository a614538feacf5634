/** The view-models of the logged sets: the capped history of the active view
    and the full list of the summary view, both with the session total. */
module History {
  import opened Options

  /** How many of the most recent sets the active view shows. */
  const MaxVisible: nat := 3

  /** The session total, as `sets.reduce((a, b) => a + b, 0)`: a left fold. */
  function Sum(s: seq<int>): (r: int)
    ensures (forall i :: 0 <= i < |s| ==> s[i] > 0) ==> r >= |s|
  {
    if s == [] then 0 else Sum(s[..|s| - 1]) + s[|s| - 1]
  }

  /** The total of a concatenation is the sum of the totals. */
  lemma {:induction false} SumConcat(a: seq<int>, b: seq<int>)
    ensures Sum(a + b) == Sum(a) + Sum(b)
  {
    if b == [] {
      assert a + b == a;
    } else {
      assert (a + b)[..|a + b| - 1] == a + b[..|b| - 1];
      SumConcat(a, b[..|b| - 1]);
    }
  }

  /** Logging one more set adds exactly its count to the total. */
  lemma SumAppend(s: seq<int>, x: int)
    ensures Sum(s + [x]) == Sum(s) + x
  {
    assert (s + [x])[..|s|] == s;
  }

  /** A labelled set: "Set <setNumber>" with its repetition count. */
  datatype SetRow = SetRow(setNumber: int, count: int)

  /** A row of the active view's history; `newest` is the one entry that gets
      the slide-in animation. */
  datatype HistoryEntry = HistoryEntry(row: SetRow, newest: bool)

  /** What `renderHistory` displays: the total, the "No sets yet" empty state,
      the optional "... n earlier sets hidden" indicator and the rows. */
  datatype HistoryView = HistoryView(total: int, emptyState: bool, hidden: Option<nat>, entries: seq<HistoryEntry>)

  /** What `showSummary` displays: the total and every set. */
  datatype SummaryView = SummaryView(total: int, rows: seq<SetRow>)

  /** Index of the first visible set, max(0, n - MaxVisible). */
  function StartIndex(n: nat): (start: nat)
    ensures start <= n && n - start == (if n < MaxVisible then n else MaxVisible)
  {
    if n > MaxVisible then n - MaxVisible else 0
  }

  /** The history row for visible position i, counted from `start`. */
  function EntryAt(sets: seq<int>, start: nat, i: nat): HistoryEntry
    requires start + i < |sets|
  {
    HistoryEntry(SetRow(start + i + 1, sets[start + i]), start + i == |sets| - 1)
  }

  /** The history view-model for a list of sets. */
  function HistoryOf(sets: seq<int>): (h: HistoryView)
    ensures h.total == Sum(sets) && |h.entries| <= MaxVisible
  {
    if sets == [] then HistoryView(Sum(sets), true, None, [])
    else
      var start := StartIndex(|sets|);
      HistoryView(Sum(sets), false, if start > 0 then Some(start) else None,
        seq(|sets| - start, i requires 0 <= i < |sets| - start => EntryAt(sets, start, i)))
  }

  /** The counts shown by a list of history rows. */
  function Counts(entries: seq<HistoryEntry>): (counts: seq<int>)
    ensures |counts| == |entries|
    ensures forall i :: 0 <= i < |entries| ==> counts[i] == entries[i].row.count
  {
    seq(|entries|, i requires 0 <= i < |entries| => entries[i].row.count)
  }

  /** With no sets, only the empty state and a total of 0 are shown; with
      sets, the empty state is absent and at least one row is shown. */
  lemma HistoryEmpty(sets: seq<int>)
    ensures HistoryOf(sets).emptyState <==> sets == []
    ensures sets == [] ==> HistoryOf(sets) == HistoryView(0, true, None, [])
    ensures sets != [] ==> HistoryOf(sets).entries != []
  {
  }

  /** The active view shows min(3, |sets|) rows: the suffix of `sets` from
      max(0, |sets| - 3), each labelled by its 1-based position in the session. */
  lemma HistoryWindow(sets: seq<int>)
    ensures |HistoryOf(sets).entries| == (if |sets| < MaxVisible then |sets| else MaxVisible)
    ensures forall i :: 0 <= i < |HistoryOf(sets).entries| ==>
      HistoryOf(sets).entries[i].row == SetRow(StartIndex(|sets|) + i + 1, sets[StartIndex(|sets|) + i])
  {
    if sets != [] {
      var e, start := HistoryOf(sets).entries, StartIndex(|sets|);
      forall i | 0 <= i < |e|
        ensures e[i].row == SetRow(start + i + 1, sets[start + i])
      {
        assert e[i] == EntryAt(sets, start, i);
      }
    }
  }

  /** The hidden sets followed by the shown counts make up the whole list. */
  lemma HistoryRebuild(sets: seq<int>)
    ensures sets == sets[..StartIndex(|sets|)] + Counts(HistoryOf(sets).entries)
  {
    var start := StartIndex(|sets|);
    HistoryWindow(sets);
    assert Counts(HistoryOf(sets).entries) == sets[start..];
    assert sets == sets[..start] + sets[start..];
  }

  /** The total covers every set, and the "earlier sets hidden" indicator is
      present exactly when some set is hidden and reports how many are. */
  lemma HistoryIndicator(sets: seq<int>)
    ensures HistoryOf(sets).total == Sum(sets)
    ensures HistoryOf(sets).hidden.Some? <==> StartIndex(|sets|) > 0
    ensures HistoryOf(sets).hidden.Some? ==> HistoryOf(sets).hidden.value == StartIndex(|sets|) == |sets| - MaxVisible
  {
  }

  /** Exactly one shown row is the newest: the last one, which is the
      session's latest set. */
  lemma HistoryNewest(sets: seq<int>)
    requires sets != []
    ensures var e := HistoryOf(sets).entries;
      && e[|e| - 1].newest
      && e[|e| - 1].row == SetRow(|sets|, sets[|sets| - 1])
      && forall i :: 0 <= i < |e| - 1 ==> !e[i].newest
  {
  }

  /** The total shown also counts the hidden sets: it is the hidden sets'
      total plus the shown rows' total. */
  lemma HistoryTotalSplit(sets: seq<int>)
    ensures HistoryOf(sets).total == Sum(sets[..StartIndex(|sets|)]) + Sum(Counts(HistoryOf(sets).entries))
  {
    HistoryRebuild(sets);
    SumConcat(sets[..StartIndex(|sets|)], Counts(HistoryOf(sets).entries));
  }

  /** The summary view-model for a list of sets. */
  function SummaryOf(sets: seq<int>): (s: SummaryView)
    ensures s.total == Sum(sets) && |s.rows| == |sets|
  {
    SummaryView(Sum(sets), seq(|sets|, i requires 0 <= i < |sets| => SetRow(i + 1, sets[i])))
  }

  /** The summary lists every set with its 1-based position, and the active
      view's rows are the last rows of the summary with the same total. */
  lemma SummaryListsEverySet(sets: seq<int>)
    ensures var s := SummaryOf(sets);
      && s.total == Sum(sets)
      && |s.rows| == |sets|
      && (forall i :: 0 <= i < |sets| ==> s.rows[i] == SetRow(i + 1, sets[i]))
    ensures var s, h, start := SummaryOf(sets), HistoryOf(sets), StartIndex(|sets|);
      && h.total == s.total
      && forall i :: 0 <= i < |h.entries| ==> h.entries[i].row == s.rows[start + i]
  {
  }

  /** Worked cases: three sets show no indicator; four sets hide the first. */
  lemma HistoryExamples()
    ensures HistoryOf([]) == HistoryView(0, true, None, [])
    ensures HistoryOf([20]).entries == [HistoryEntry(SetRow(1, 20), true)] && HistoryOf([20]).total == 20
    ensures HistoryOf([20, 15, 10]).total == 45 && HistoryOf([20, 15, 10]).hidden == None
    ensures HistoryOf([5, 5, 5, 5]).total == 20 && HistoryOf([5, 5, 5, 5]).hidden == Some(1)
    ensures HistoryOf([5, 5, 5, 5]).entries ==
      [HistoryEntry(SetRow(2, 5), false), HistoryEntry(SetRow(3, 5), false), HistoryEntry(SetRow(4, 5), true)]
    ensures SummaryOf([10, 10]) == SummaryView(20, [SetRow(1, 10), SetRow(2, 10)])
  {
    assert Sum([20, 15, 10]) == Sum([20, 15]) + 10 == Sum([20]) + 25 == 45 by {
      assert [20, 15, 10][..2] == [20, 15] && [20, 15][..1] == [20];
    }
    assert Sum([5, 5, 5, 5]) == Sum([5, 5, 5]) + 5 == Sum([5, 5]) + 10 == Sum([5]) + 15 == 20 by {
      assert [5, 5, 5, 5][..3] == [5, 5, 5] && [5, 5, 5][..2] == [5, 5] && [5, 5][..1] == [5];
    }
    assert Sum([10, 10]) == 20 by {
      assert [10, 10][..1] == [10];
    }
  }
}
