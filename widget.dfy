/** The tracker page: picker, session state, history and summary views and
    persistence, all owned by one object as in the page's single closure.
    Displayed content is kept as view-models rather than DOM nodes. */
module Widget {
  import opened Options
  import opened Picker
  import opened History
  import opened Storage

  /** The two views of the page. */
  datatype View = Active | Summary

  class Tracker {
    /** Whether both view containers exist in the page; without them view
        switching is skipped. */
    const hasViews: bool
    /** The picked, not yet logged, repetition count. */
    var currentCount: int
    /** The logged sets, oldest first. */
    var sets: seq<int>
    /** The visible view. */
    var view: View
    /** Children of the picker list. */
    var items: seq<PickerItem>
    /** Whether each picker child carries the highlight. */
    var active: seq<bool>
    /** The picker's scroll offset. */
    var scrollTop: int
    /** Whether the scroll debounce timer is armed. */
    var settlePending: bool
    /** The two persisted keys. */
    var store: Store
    /** What the history container shows. */
    var history: HistoryView
    /** What the summary container shows. */
    var summary: SummaryView

    /** The picker list is laid out, at most one child is highlighted, the
        history shows the current sets, and reloading the page from the store
        would restore exactly the current session. */
    ghost predicate Valid()
      reads this
    {
      && items == PickerLayout()
      && |active| == |items|
      && CountMarked(active) <= 1
      && history == HistoryOf(sets)
      && LoadedCount(store, 0) == currentCount
      && LoadedSets(store, []) == sets
    }

    /** Page load: restore the session from `saved`, build the picker list
        and render the history. */
    constructor (saved: Store, hasViews: bool)
      ensures Valid()
      ensures this.hasViews == hasViews && store == saved
      ensures currentCount == LoadedCount(saved, 0) && sets == LoadedSets(saved, [])
      ensures view == Active && scrollTop == 0 && !settlePending
      ensures CountMarked(active) == 0
    {
      this.hasViews := hasViews;
      currentCount, sets, view := 0, [], Active;
      items, active, scrollTop, settlePending := [], [], 0, false;
      store := saved;
      history := HistoryOf([]);
      summary := SummaryOf([]);
      new;
      LoadState();
      InitPicker();
      assert active == NoMarks(ChildCount);
      NoMarksCount(ChildCount);
      var h := RenderHistory();
      history := h;
    }

    /** Reads both keys; an absent key leaves its field as it was. */
    method LoadState()
      modifies this
      ensures currentCount == LoadedCount(store, old(currentCount))
      ensures sets == LoadedSets(store, old(sets))
      ensures store == old(store) && view == old(view) && items == old(items) && active == old(active)
      ensures scrollTop == old(scrollTop) && settlePending == old(settlePending)
      ensures history == old(history) && summary == old(summary)
    {
      if store.current.Some? {
        currentCount := store.current.value;
      }
      if store.sets.Some? {
        sets := store.sets.value;
      }
    }

    /** Appends one top padding child, the number children 0..MaxPushups and
        the bottom padding children, none highlighted. */
    method InitPicker()
      modifies this
      ensures items == old(items) + PickerLayout()
      ensures active == old(active) + NoMarks(ChildCount)
      ensures currentCount == old(currentCount) && sets == old(sets) && view == old(view)
      ensures scrollTop == old(scrollTop) && settlePending == old(settlePending) && store == old(store)
      ensures history == old(history) && summary == old(summary)
    {
      var children, marks := items, active;
      ghost var layout := PickerLayout();
      var i := 0;
      while i < TopPadding
        invariant 0 <= i <= TopPadding
        invariant children == items + layout[..i]
        invariant marks == active + NoMarks(i)
      {
        assert layout[..i + 1] == layout[..i] + [Padding];
        children, marks := children + [Padding], marks + [false];
        i := i + 1;
      }
      i := 0;
      while i <= MaxPushups
        invariant 0 <= i <= MaxPushups + 1
        invariant children == items + layout[..TopPadding + i]
        invariant marks == active + NoMarks(TopPadding + i)
      {
        assert layout[..TopPadding + i + 1] == layout[..TopPadding + i] + [Number(i)];
        children, marks := children + [Number(i)], marks + [false];
        i := i + 1;
      }
      i := 0;
      while i < BottomPadding
        invariant 0 <= i <= BottomPadding
        invariant children == items + layout[..TopPadding + MaxPushups + 1 + i]
        invariant marks == active + NoMarks(TopPadding + MaxPushups + 1 + i)
      {
        assert layout[..TopPadding + MaxPushups + 1 + i + 1] == layout[..TopPadding + MaxPushups + 1 + i] + [Padding];
        children, marks := children + [Padding], marks + [false];
        i := i + 1;
      }
      assert layout[..ChildCount] == layout;
      items, active := children, marks;
    }

    /** Clears every highlight, then highlights child index + 1 (past the top
        padding) when that child exists. */
    method UpdateActiveItem(index: int)
      modifies this
      ensures active == ActiveMarks(|old(active)|, index)
      ensures currentCount == old(currentCount) && sets == old(sets) && view == old(view) && items == old(items)
      ensures scrollTop == old(scrollTop) && settlePending == old(settlePending) && store == old(store)
      ensures history == old(history) && summary == old(summary)
    {
      var marks := active;
      var i := 0;
      while i < |marks|
        invariant 0 <= i <= |marks| == |active|
        invariant forall j :: 0 <= j < i ==> !marks[j]
      {
        marks := marks[i := false];
        i := i + 1;
      }
      var target := index + TopPadding;
      if 0 <= target < |marks| {
        marks := marks[target := true];
      }
      active := marks;
    }

    /** Moves the picker to `val` clamped to 0..MaxPushups and highlights it.
        Changing the offset makes the page dispatch a scroll event, which arms
        the settle timer; the selection itself changes only when it fires. */
    method ScrollToValue(val: int)
      requires Valid()
      modifies this
      ensures Valid()
      ensures scrollTop == Clamp(val) * ItemHeight
      ensures active == ActiveMarks(ChildCount, Clamp(val))
      ensures settlePending == (old(settlePending) || old(scrollTop) != scrollTop)
      ensures currentCount == old(currentCount) && sets == old(sets) && view == old(view) && items == old(items)
      ensures store == old(store) && history == old(history) && summary == old(summary)
    {
      var v := val;
      if v < 0 {
        v := 0;
      }
      if v > MaxPushups {
        v := MaxPushups;
      }
      var target := v * ItemHeight;
      if target != scrollTop {
        settlePending := true;
      }
      scrollTop := target;
      UpdateActiveItem(v);
      MarkedCount(ChildCount, v);
    }

    /** A scroll event at `offset` (a drag, a fling or a programmatic move):
        the settle timer is re-armed, so earlier pending offsets are dropped. */
    method Scroll(offset: int)
      requires Valid()
      modifies this
      ensures Valid()
      ensures scrollTop == offset && settlePending
      ensures currentCount == old(currentCount) && sets == old(sets) && view == old(view) && items == old(items)
      ensures active == old(active) && store == old(store) && history == old(history) && summary == old(summary)
    {
      scrollTop := offset;
      settlePending := true;
    }

    /** The settle timer fires: the item nearest to the offset becomes the
        selection (not clamped), is highlighted and 'pushupCurrent' is
        written. With no timer armed nothing happens. */
    method Settle()
      requires Valid()
      modifies this
      ensures Valid()
      ensures !settlePending
      ensures old(settlePending) ==> var index := SettledIndex(old(scrollTop));
        && currentCount == index
        && active == ActiveMarks(ChildCount, index)
        && store == WithCurrent(old(store), index)
      ensures !old(settlePending) ==> currentCount == old(currentCount) && active == old(active) && store == old(store)
      ensures sets == old(sets) && view == old(view) && items == old(items) && scrollTop == old(scrollTop)
      ensures history == old(history) && summary == old(summary)
    {
      if settlePending {
        var index := SettledIndex(scrollTop);
        UpdateActiveItem(index);
        MarkedCount(ChildCount, index);
        currentCount := index;
        store := WithCurrent(store, currentCount);
        settlePending := false;
      }
    }

    /** The deferred scroll after page load: move the picker to the restored
        selection. */
    method InitialScroll()
      requires Valid()
      modifies this
      ensures Valid()
      ensures scrollTop == Clamp(currentCount) * ItemHeight
      ensures active == ActiveMarks(ChildCount, Clamp(currentCount))
      ensures settlePending == (old(settlePending) || old(scrollTop) != scrollTop)
      ensures currentCount == old(currentCount) && sets == old(sets) && view == old(view)
      ensures store == old(store) && history == old(history) && summary == old(summary)
    {
      ScrollToValue(currentCount);
    }

    /** Writes both keys. */
    method SaveState()
      modifies this
      ensures store == Saved(currentCount, sets)
      ensures currentCount == old(currentCount) && sets == old(sets) && view == old(view) && items == old(items)
      ensures active == old(active) && scrollTop == old(scrollTop) && settlePending == old(settlePending)
      ensures history == old(history) && summary == old(summary)
    {
      store := Saved(currentCount, sets);
    }

    /** The history view-model: the total accumulated over every set, then
        the empty state or the last MaxVisible sets with the indicator. */
    method RenderHistory() returns (h: HistoryView)
      ensures h == HistoryOf(sets)
    {
      var total := 0;
      var i := 0;
      while i < |sets|
        invariant 0 <= i <= |sets|
        invariant total == Sum(sets[..i])
      {
        assert sets[..i + 1][..i] == sets[..i];
        total := total + sets[i];
        i := i + 1;
      }
      assert sets[..|sets|] == sets;
      if |sets| == 0 {
        h := HistoryView(total, true, None, []);
      } else {
        var startIndex := if |sets| - MaxVisible > 0 then |sets| - MaxVisible else 0;
        var visibleSets := sets[startIndex..];
        var hidden := if startIndex > 0 then Some(startIndex) else None;
        var entries: seq<HistoryEntry> := [];
        var k := 0;
        while k < |visibleSets|
          invariant 0 <= k <= |visibleSets|
          invariant |entries| == k
          invariant forall j :: 0 <= j < k ==> entries[j] == EntryAt(sets, startIndex, j)
        {
          var realIndex := startIndex + k;
          var newest := realIndex == |sets| - 1;
          entries := entries + [HistoryEntry(SetRow(realIndex + 1, visibleSets[k]), newest)];
          k := k + 1;
        }
        h := HistoryView(total, false, hidden, entries);
        assert h.entries == HistoryOf(sets).entries;
      }
    }

    /** The summary view-model: the total and one row per set, numbered from 1. */
    method RenderSummary() returns (s: SummaryView)
      ensures s == SummaryOf(sets)
    {
      var total := Sum(sets);
      var rows: seq<SetRow> := [];
      var index := 0;
      while index < |sets|
        invariant 0 <= index <= |sets|
        invariant |rows| == index
        invariant forall j :: 0 <= j < index ==> rows[j] == SetRow(j + 1, sets[j])
      {
        rows := rows + [SetRow(index + 1, sets[index])];
        index := index + 1;
      }
      s := SummaryView(total, rows);
      assert s.rows == SummaryOf(sets).rows;
    }

    /** The "finish set" button: a positive selection is appended to the sets,
        persisted and the history re-rendered; otherwise nothing changes. */
    method FinishSet()
      requires Valid()
      modifies this
      ensures Valid()
      ensures old(currentCount) > 0 ==> sets == old(sets) + [old(currentCount)] && store == Saved(currentCount, sets)
      ensures old(currentCount) <= 0 ==> sets == old(sets) && store == old(store) && history == old(history)
      ensures currentCount == old(currentCount) && view == old(view) && items == old(items) && active == old(active)
      ensures scrollTop == old(scrollTop) && settlePending == old(settlePending) && summary == old(summary)
    {
      if currentCount > 0 {
        sets := sets + [currentCount];
        SaveState();
        var h := RenderHistory();
        history := h;
      }
    }

    /** Switches to the summary view and fills it, unless a view container
        is missing. */
    method ShowSummary()
      requires Valid()
      modifies this
      ensures Valid()
      ensures hasViews ==> view == Summary && summary == SummaryOf(sets)
      ensures !hasViews ==> view == old(view) && summary == old(summary)
      ensures currentCount == old(currentCount) && sets == old(sets) && items == old(items) && active == old(active)
      ensures scrollTop == old(scrollTop) && settlePending == old(settlePending) && store == old(store)
      ensures history == old(history)
    {
      if !hasViews {
        return;
      }
      view := Summary;
      var s := RenderSummary();
      summary := s;
    }

    /** The "finish session" button: refused (the user is told to log a set
        first) when no set is logged, otherwise the summary is shown. The
        sets themselves are never changed. */
    method FinishSession() returns (refused: bool)
      requires Valid()
      modifies this
      ensures Valid()
      ensures refused <==> old(sets) == []
      ensures refused ==> view == old(view) && summary == old(summary)
      ensures !refused && hasViews ==> view == Summary && summary == SummaryOf(sets)
      ensures !refused && !hasViews ==> view == old(view) && summary == old(summary)
      ensures currentCount == old(currentCount) && sets == old(sets) && items == old(items) && active == old(active)
      ensures scrollTop == old(scrollTop) && settlePending == old(settlePending) && store == old(store)
      ensures history == old(history)
    {
      if |sets| == 0 {
        refused := true;
        return;
      }
      refused := false;
      ShowSummary();
    }

    /** Clears the session, persists it, re-renders the history, moves the
        picker to 0 and returns to the active view. */
    method StartNewSession()
      requires Valid()
      modifies this
      ensures Valid()
      ensures sets == [] && currentCount == 0 && store == Saved(0, [])
      ensures history == HistoryView(0, true, None, [])
      ensures scrollTop == 0 && active == ActiveMarks(ChildCount, 0)
      ensures settlePending == (old(settlePending) || old(scrollTop) != 0)
      ensures hasViews ==> view == Active
      ensures !hasViews ==> view == old(view)
      ensures items == old(items) && summary == old(summary)
    {
      sets := [];
      currentCount := 0;
      SaveState();
      var h := RenderHistory();
      history := h;
      ScrollToValue(0);
      if hasViews {
        view := Active;
      }
    }

    /** The "start new session" button of the summary view; `confirmed` is
        the user's answer to the confirmation dialog. */
    method StartNewSessionClicked(confirmed: bool)
      requires Valid()
      modifies this
      ensures Valid()
      ensures confirmed ==> sets == [] && currentCount == 0 && store == Saved(0, []) && scrollTop == 0
      ensures confirmed ==> active == ActiveMarks(ChildCount, 0) && settlePending == (old(settlePending) || old(scrollTop) != 0)
      ensures confirmed && hasViews ==> view == Active
      ensures confirmed && !hasViews ==> view == old(view)
      ensures !confirmed ==>
        && sets == old(sets) && currentCount == old(currentCount) && store == old(store)
        && view == old(view) && active == old(active) && scrollTop == old(scrollTop)
        && settlePending == old(settlePending) && history == old(history)
      ensures items == old(items) && summary == old(summary)
    {
      if confirmed {
        StartNewSession();
      }
    }

    /** The small "reset session" button of the active view; `confirmed` is
        the user's answer to the confirmation dialog. */
    method ResetSessionClicked(confirmed: bool)
      requires Valid()
      modifies this
      ensures Valid()
      ensures confirmed ==> sets == [] && currentCount == 0 && store == Saved(0, []) && scrollTop == 0
      ensures confirmed ==> active == ActiveMarks(ChildCount, 0) && settlePending == (old(settlePending) || old(scrollTop) != 0)
      ensures confirmed && hasViews ==> view == Active
      ensures confirmed && !hasViews ==> view == old(view)
      ensures !confirmed ==>
        && sets == old(sets) && currentCount == old(currentCount) && store == old(store)
        && view == old(view) && active == old(active) && scrollTop == old(scrollTop)
        && settlePending == old(settlePending) && history == old(history)
      ensures items == old(items) && summary == old(summary)
    {
      if confirmed {
        StartNewSession();
      }
    }
  }

  /** A session from a first visit to a fresh start, as a user would run it. */
  method Walkthrough()
  {
    var t := new Tracker(Empty, true);
    assert t.currentCount == 0 && t.sets == [];
    HistoryEmpty([]);
    assert t.history == HistoryView(0, true, None, []);

    var refused := t.FinishSession();
    assert refused && t.view == Active;

    t.FinishSet();
    assert t.sets == [];

    t.ScrollToValue(10);
    assert t.settlePending;
    t.Settle();
    ScrollSettlesBack(10);
    assert t.currentCount == 10;
    t.FinishSet();
    t.FinishSet();
    assert t.sets == [10, 10];

    refused := t.FinishSession();
    HistoryExamples();
    assert !refused && t.view == Summary && t.summary == SummaryView(20, [SetRow(1, 10), SetRow(2, 10)]);
    assert t.sets == [10, 10];

    var reloaded := new Tracker(t.store, true);
    assert reloaded.sets == [10, 10] && reloaded.currentCount == 10;

    t.StartNewSessionClicked(false);
    assert t.sets == [10, 10] && t.view == Summary;
    t.StartNewSessionClicked(true);
    assert t.sets == [] && t.currentCount == 0 && t.view == Active;
  }
}
