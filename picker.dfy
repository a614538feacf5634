/** The scrollable number picker: its list layout, the clamping of a requested
    value and the mapping between scroll offsets and item indices. */
module Picker {
  /** Row height in layout units; must equal the rendered row height. */
  const ItemHeight: int := 60
  /** Largest selectable repetition count. */
  const MaxPushups: int := 100
  /** Hidden entries before the first number, so that 0 can be centred. */
  const TopPadding: nat := 1
  /** Hidden entries after the last number, slack for safe scrolling. */
  const BottomPadding: nat := 3
  /** Children of the picker list: padding, the numbers 0..MaxPushups, padding. */
  const ChildCount: nat := TopPadding + MaxPushups + 1 + BottomPadding

  /** One child of the picker list: a hidden padding entry or a number entry. */
  datatype PickerItem = Padding | Number(value: int)

  /** The value `scrollToValue` actually moves to. */
  function Clamp(v: int): (r: int)
    ensures 0 <= r <= MaxPushups
    ensures 0 <= v <= MaxPushups ==> r == v
    ensures v < 0 ==> r == 0
    ensures v > MaxPushups ==> r == MaxPushups
  {
    if v < 0 then 0 else if v > MaxPushups then MaxPushups else v
  }

  /** Clamping picks the selectable value nearest to the request. */
  lemma ClampIsNearest(v: int, w: int)
    requires 0 <= w <= MaxPushups
    ensures Dist(Clamp(v), v) <= Dist(w, v)
    ensures Clamp(Clamp(v)) == Clamp(v)
  {
  }

  function Dist(a: int, b: int): nat
  {
    if a < b then b - a else a - b
  }

  /** Math.round(offset / ItemHeight) for an integer offset: the index of the
      item nearest to the offset, a tie going to the higher index. */
  function SettledIndex(offset: int): (r: int)
    ensures r * ItemHeight - ItemHeight / 2 <= offset < r * ItemHeight + ItemHeight / 2
  {
    (2 * offset + ItemHeight) / (2 * ItemHeight)
  }

  /** Only one index satisfies the nearest-item condition. */
  lemma SettledIndexUnique(offset: int, k: int)
    requires k * ItemHeight - ItemHeight / 2 <= offset < k * ItemHeight + ItemHeight / 2
    ensures SettledIndex(offset) == k
  {
  }

  /** Scrolling to a value and letting the scroll settle resolves back to the
      clamped value. */
  lemma ScrollSettlesBack(v: int)
    ensures SettledIndex(Clamp(v) * ItemHeight) == Clamp(v)
  {
    SettledIndexUnique(Clamp(v) * ItemHeight, Clamp(v));
  }

  /** The children `initPicker` appends, in order. */
  function PickerLayout(): (items: seq<PickerItem>)
    ensures |items| == ChildCount
  {
    seq(ChildCount, j => if TopPadding <= j <= TopPadding + MaxPushups then Number(j - TopPadding) else Padding)
  }

  /** One padding child first, then every value 0..MaxPushups at child
      value + 1, then three padding children; a number child's value is its
      position minus the top padding. */
  lemma LayoutShape()
    ensures ChildCount == 105
    ensures PickerLayout()[0] == Padding
    ensures forall v :: 0 <= v <= MaxPushups ==> PickerLayout()[v + TopPadding] == Number(v)
    ensures forall j :: TopPadding + MaxPushups < j < ChildCount ==> PickerLayout()[j] == Padding
    ensures forall j :: 0 <= j < ChildCount && PickerLayout()[j].Number? ==> PickerLayout()[j].value == j - TopPadding
  {
  }

  /** The highlight after `updateActiveItem(index)` on a list of n children:
      every mark is cleared, then child index + 1 is marked if it exists. */
  function ActiveMarks(n: nat, index: int): (marks: seq<bool>)
    ensures |marks| == n
  {
    seq(n, j => j == index + TopPadding)
  }

  /** n children none of which is marked. */
  function NoMarks(n: nat): (marks: seq<bool>)
    ensures |marks| == n
  {
    seq(n, j => false)
  }

  /** Number of marked children. */
  function CountMarked(marks: seq<bool>): nat
  {
    if marks == [] then 0
    else CountMarked(marks[..|marks| - 1]) + (if marks[|marks| - 1] then 1 else 0)
  }

  /** `updateActiveItem` marks exactly one child when index + 1 is a position
      of the list, and none otherwise. */
  lemma {:induction false} MarkedCount(n: nat, index: int)
    ensures CountMarked(ActiveMarks(n, index)) == if 0 <= index + TopPadding < n then 1 else 0
  {
    if n > 0 {
      var m := ActiveMarks(n, index);
      assert m[..n - 1] == ActiveMarks(n - 1, index);
      MarkedCount(n - 1, index);
    }
  }

  /** A list with no marks has no marked child. */
  lemma {:induction false} NoMarksCount(n: nat)
    ensures CountMarked(NoMarks(n)) == 0
  {
    if n > 0 {
      assert NoMarks(n)[..n - 1] == NoMarks(n - 1);
      NoMarksCount(n - 1);
    }
  }

  /** For a selectable value, the marked child of the picker list is the
      number entry carrying that value. */
  lemma MarkedChildHoldsValue(v: int)
    requires 0 <= v <= MaxPushups
    ensures ActiveMarks(ChildCount, v)[v + TopPadding]
    ensures forall j :: 0 <= j < ChildCount && ActiveMarks(ChildCount, v)[j] ==> PickerLayout()[j] == Number(v)
  {
  }
}
