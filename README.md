# Pushup tracker: a Dafny model

This project models the logic of a browser pushup counter (`script.js`). The user picks a
repetition count on a scrollable number picker and logs it as a set. The page keeps a
running history and total, can finish the session into a summary view, and can start a new
session. The count and the sets are saved under two local-storage keys, so a reload restores
them.

The model has these modules:

- `Picker` (`picker.dfy`): the list layout of the picker, the clamping done by
  `scrollToValue`, and the rounding from a scroll offset to an item index. The layout is one
  hidden padding entry, the numbers 0..100, then three hidden entries: 105 children. The
  rounding is `Math.round(offset / 60)`. It also covers the highlight that `updateActiveItem`
  places at child `index + 1`.
- `History` (`history.dfy`): the session total as a left fold over the sets and the history
  view-model of the active view. The history shows the last three sets numbered from 1, an
  "earlier sets hidden" count and the "newest" flag that drives the entrance animation. The
  module also has the summary view-model.
- `Storage` (`storage.dfy`): the keys `pushupCurrent` and `pushupSets` as an abstract store.
  Each key holds the value last written to it, or is absent.
- `Widget` (`widget.dfy`): the class `Tracker`. It holds the state that the page's closure
  keeps in shared variables: the count, the sets, the visible view, the picker children and
  their highlight, the scroll offset, the armed debounce timer, the store, and what the
  history and summary show. Each event handler is a method. Its contract states the whole new
  state in terms of the old one.
- `Options` (`options.dfy`): the `Option` type.

`Valid()` is the object invariant, and every handler keeps it:

- the picker is laid out;
- at most one child is highlighted;
- the history shows exactly `HistoryOf(sets)`;
- loading the store gives back the current count and sets, so a reload at any point restores
  the session.

The picker offers 0..100, but the settled scroll handler (script.js:77-83) does not clamp
its index, so the model allows any integer selection after a scroll, and a later finished set
logs whatever positive value is selected. Only `scrollToValue` clamps.

Scroll offsets are modelled as integers, so `Math.round(t / 60)` is `(2t + 60) div 120`. That
means the nearest item, with a tie going to the higher index.

Writing `scrollTop` makes the page dispatch a scroll event when the offset changes. The model
represents that event as arming the settle timer, so `ScrollToValue(v)` followed by `Settle()`
selects `Clamp(v)` for every v. When the picker already sits at the target offset and no timer
is pending, no scroll event fires and the selection stays as it was, as in the page itself.
`Walkthrough` in `widget.dfy` walks one session through the class's contracts: a refused
finish, picking 10, logging two sets, the summary, a reload from the store, and a declined and
then a confirmed fresh start.

## Model

| member | source | states |
|---|---|---|
| `Picker.Clamp` | script.js:99-101 | the target of `scrollToValue` lies in 0..100; values below 0 become 0, values above 100 become 100, in-range values are kept |
| `Picker.ClampIsNearest` | script.js:99-101 | the clamped value is the selectable value nearest to the request, and clamping twice changes nothing |
| `Picker.SettledIndex` | script.js:76-77 | the settled index is the item nearest to the offset: `60r - 30 <= offset < 60r + 30` (`Math.round`, a tie going up) |
| `Picker.SettledIndexUnique` | script.js:76-77 | no other index meets the nearest-item condition |
| `Picker.ScrollSettlesBack` | script.js:76-106 | scrolling to v and settling resolves back to exactly `Clamp(v)`, so every v in 0..100 round-trips |
| `Picker.PickerLayout` | script.js:36-60 | the picker list has 1 + 101 + 3 = 105 children |
| `Picker.LayoutShape` | script.js:38-60 | child 0 is padding, child v + 1 carries value v for v in 0..100, children 102..104 are padding, and a number child's value is its position minus one |
| `Picker.ActiveMarks` | script.js:88-97 | the highlight after `updateActiveItem` covers every child of the list |
| `Picker.MarkedCount` | script.js:88-97 | `updateActiveItem(k)` highlights exactly one child when 0 <= k + 1 < 105 and none otherwise |
| `Picker.MarkedChildHoldsValue` | script.js:48-97 | for v in 0..100 the highlighted child is child v + 1, the number entry carrying v |
| `Storage.Saved` | script.js:249-259 | after `saveState`, loading gives back exactly the saved count and sets |
| `Storage.WithCurrent` | script.js:83-84 | the settled scroll writes the count key only; loading it gives the new count and the set list key is untouched |
| `History.Sum` | script.js:197-200 | the session total: the left fold of all sets from 0, as the `forEach` accumulation and the `reduce` at script.js:158 compute it; when every set is positive the total is at least the number of sets |
| `History.StartIndex` | script.js:206 | the first shown set, max(0, n - 3): exactly min(3, n) sets follow it |
| `History.HistoryOf` | script.js:193-236 | the history view-model: total, empty state, "earlier sets hidden" indicator and the last three rows with their labels and newest flag; the total is the sum of all sets and at most three rows are shown |
| `History.SummaryOf` | script.js:157-173 | the summary view-model: exactly one row per set, numbered from 1, and the total of all sets |
| `Storage.LoadedCount` | script.js:255-258 | the count `loadState` reads: the stored count when the key exists, the current value otherwise |
| `Storage.LoadedSets` | script.js:256-259 | the sets `loadState` reads: the stored list when the key exists, the current list otherwise |
| `History.SumConcat` | script.js:197-200 | the total of two runs of sets is the sum of their totals |
| `History.SumAppend` | script.js:197-200 | logging a set adds exactly its count to the total |
| `History.HistoryEmpty` | script.js:202-203 | the empty state is shown iff there are no sets; then no row, no indicator and total 0 are shown |
| `History.HistoryWindow` | script.js:205-228 | min(3, n) rows are shown: the suffix of the sets from startIndex = max(0, n - 3), labelled startIndex + i + 1 |
| `History.HistoryRebuild` | script.js:205-207 | the hidden prefix followed by the shown counts is exactly the list of sets |
| `History.HistoryIndicator` | script.js:197-218 | total = sum of all sets; the indicator is present iff startIndex > 0 and then reports startIndex = n - 3 |
| `History.HistoryNewest` | script.js:230-235 | exactly one shown row is marked newest: the last, which is set n with the latest count |
| `History.HistoryTotalSplit` | script.js:197-207 | the shown total also counts the hidden sets: hidden total plus shown total |
| `History.SummaryListsEverySet` | script.js:157-173 | the summary lists every set with its 1-based position and the total; the history rows are the summary's last rows with the same total |
| `History.HistoryExamples` | script.js:193-236 | worked cases: no sets; [20]; [20, 15, 10] with total 45 and no indicator; [5, 5, 5, 5] with total 20, one hidden, sets 2-4 shown; the summary of [10, 10] |
| `Widget.Tracker.constructor` | script.js:24-31 | page load restores count and sets from the store (defaults 0 and [] for absent keys), lays out the picker with nothing highlighted, renders the history, starts in the active view |
| `Widget.Tracker.LoadState` | script.js:254-260 | each present key replaces its field, an absent key leaves it; nothing else changes |
| `Widget.Tracker.InitPicker` | script.js:36-60 | the three loops append exactly the picker layout, no child highlighted; nothing else changes |
| `Widget.Tracker.UpdateActiveItem` | script.js:88-97 | every highlight is cleared, then only child index + 1 is highlighted if it exists; nothing else changes |
| `Widget.Tracker.ScrollToValue` | script.js:99-106 | the offset becomes `Clamp(v) * 60` and child `Clamp(v) + 1` is highlighted; the selection, sets and store are unchanged |
| `Widget.Tracker.Scroll` | script.js:71-74 | a scroll event records the offset and re-arms the settle timer, dropping the earlier pending evaluation |
| `Widget.Tracker.Settle` | script.js:74-85 | when armed, the unclamped nearest index becomes the selection, is highlighted and is written to the count key; sets and views are unchanged |
| `Widget.Tracker.InitialScroll` | script.js:65-68 | the deferred start-up scroll moves the picker to the clamped restored selection |
| `Widget.Tracker.SaveState` | script.js:249-252 | both keys now hold the current count and sets |
| `Widget.Tracker.RenderHistory` | script.js:193-237 | the loops compute exactly `HistoryOf(sets)`: the accumulated total, the empty state or the window, the indicator and the newest flag |
| `Widget.Tracker.RenderSummary` | script.js:157-173 | the loop computes exactly `SummaryOf(sets)`: the total and one row per set numbered from 1 |
| `Widget.Tracker.FinishSet` | script.js:111-123 | a positive selection is appended to the end of the sets and persisted; the history is re-rendered and the selection is kept; a selection <= 0 changes nothing |
| `Widget.Tracker.ShowSummary` | script.js:150-174 | with both view containers present, switches to Summary and shows `SummaryOf(sets)`; otherwise does nothing; the sets are never modified |
| `Widget.Tracker.FinishSession` | script.js:125-131 | refused iff no set is logged, leaving the view as it was; otherwise the summary is shown; the sets are unchanged |
| `Widget.Tracker.StartNewSession` | script.js:176-191 | sets = [], count = 0, both persisted; the empty history is shown, the picker is at 0 and the view is Active |
| `Widget.Tracker.StartNewSessionClicked` | script.js:133-137 | the fresh start happens only when confirmed; a declined dialog leaves the session, store, view and picker untouched |
| `Widget.Tracker.ResetSessionClicked` | script.js:139-145 | the same for the small reset button of the active view |

## Left out

- DOM building, `innerHTML` text, CSS classes, visibility and animation styles. The model keeps
  only the computed view-models: rows, labels, total, indicator, newest flag and highlight.
- The debounce and animation timers. `Scroll` and `Settle` model only the coalescing: the last
  offset before the timer fires wins. The delays themselves are not modelled.
- `navigator.vibrate` (haptic feedback) and `scrollToBottom` (pure layout).
- `alert` is the refused result of `FinishSession`. `confirm` is the `confirmed` parameter.
- `JSON.stringify`, `JSON.parse` and `parseInt`. The store holds typed values.
- A corrupt `pushupSets` value: in the source `JSON.parse` throws and start-up stops there. The
  model cannot represent such a value.
- Fractional scroll offsets. The browser also limits `scrollTop` to the scrollable range, which
  depends on the viewport height. Offsets are integers here, and any offset can be scrolled to.
- Missing history, total or summary elements. The view-models are computed either way, and
  displaying them is left out. Missing view containers are modelled (`hasViews`).
- A page without the small reset button. The handler is then never registered, so
  `ResetSessionClicked` is simply never called.
- The initial visibility of the two views comes from the page markup rather than the script.
  The model starts in `Active`.
