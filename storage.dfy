/** The two keys of the browser's local store that the tracker uses,
    'pushupCurrent' and 'pushupSets'. Serialisation is abstracted away: a key
    holds the value written to it, or is absent. */
module Storage {
  import opened Options

  datatype Store = Store(current: Option<int>, sets: Option<seq<int>>)

  /** A store in which neither key exists (first visit). */
  const Empty: Store := Store(None, None)

  /** The current count read back by `loadState`; an absent key keeps `default`. */
  function LoadedCount(store: Store, default: int): int
  {
    match store.current
    case Some(c) => c
    case None => default
  }

  /** The set list read back by `loadState`; an absent key keeps `default`. */
  function LoadedSets(store: Store, default: seq<int>): seq<int>
  {
    match store.sets
    case Some(s) => s
    case None => default
  }

  /** `saveState` writes both keys; loading afterwards gives back exactly what
      was saved, whatever the defaults. */
  function Saved(count: int, sets: seq<int>): (store: Store)
    ensures forall d :: LoadedCount(store, d) == count
    ensures forall d :: LoadedSets(store, d) == sets
  {
    Store(Some(count), Some(sets))
  }

  /** The settled scroll handler writes only 'pushupCurrent'; the set list
      key is left as it was. */
  function WithCurrent(store: Store, count: int): (store': Store)
    ensures forall d :: LoadedCount(store', d) == count
    ensures store'.sets == store.sets
  {
    store.(current := Some(count))
  }
}
