/** The Web Storage area the hook is bound to, and the `storage` event record
    the hook broadcasts.  Only the three calls the hook makes are modelled:
    `getItem`, `setItem` and `removeItem`. */
module Store {
  import opened Base

  /** Object identity of a storage area (`localStorage`, `sessionStorage`, ...). */
  type StoreId = nat

  /** A storage area: its identity, its entries, and which contents it can
      hold.  `fits` models the quota: `setItem` throws when the contents it
      would produce do not fit. */
  datatype Storage = Storage(id: StoreId, items: map<string, string>, fits: map<string, string> -> bool)

  /** The `storage` event record: a null `key` signals `clear()`; a null
      `newValue` signals a removal; `storageArea` is null when no store was
      passed to the event's constructor. */
  datatype StorageEvent = StorageEvent(
    key: Option<string>,
    newValue: Option<string>,
    oldValue: Option<string>,
    storageArea: Option<StoreId>)

  /** `m` and `m'` agree on every key outside `ks`. */
  ghost predicate SameOutside(m: map<string, string>, m': map<string, string>, ks: set<string>) {
    forall k :: k !in ks ==> (k in m <==> k in m') && (k in m ==> m[k] == m'[k])
  }

  /** True iff `m` and `m'` agree everywhere except possibly at `key`. */
  ghost predicate SameExceptAt(m: map<string, string>, m': map<string, string>, key: string) {
    SameOutside(m, m', {key})
  }

  /** True iff `setItem(key, raw)` on `st` stays within the quota. */
  predicate Admits(st: Storage, key: string, raw: string) {
    st.fits(st.items[key := raw])
  }

  /** `after` is `before` (same area) with `key` bound to `raw` and every
      other entry as it was. */
  ghost predicate Holds(before: Storage, after: Storage, key: string, raw: string) {
    && after.id == before.id
    && key in after.items
    && after.items[key] == raw
    && SameExceptAt(before.items, after.items, key)
  }

  /** `storage?.getItem(key)`: None when there is no store or no entry. */
  function GetItem(store: Option<Storage>, key: string): (r: Option<string>)
    ensures r.Some? <==> store.Some? && key in store.value.items
    ensures r.Some? ==> r.value == store.value.items[key]
  {
    if store.Some? && key in store.value.items then Some(store.value.items[key]) else None
  }

  /** `storage.setItem(key, raw)`: the store with `key` bound to `raw`, or a
      throw when the result would exceed the quota. */
  function SetItem(st: Storage, key: string, raw: string): (r: Result<Storage>)
    ensures r.Ok? <==> Admits(st, key, raw)
    ensures r.Ok? ==> Holds(st, r.value, key, raw) && r.value.fits == st.fits
  {
    var items := st.items[key := raw];
    if st.fits(items) then Ok(st.(items := items)) else Err
  }

  /** `storage.removeItem(key)`: never throws; removing an absent key is a no-op. */
  function RemoveItem(st: Storage, key: string): (r: Storage)
    ensures r.id == st.id && r.fits == st.fits
    ensures key !in r.items
    ensures SameExceptAt(st.items, r.items, key)
    ensures key !in st.items ==> r.items == st.items
  {
    st.(items := st.items - {key})
  }

  /** The `storageArea` an event built by the hook carries: the store's
      identity, or null when no store is available. */
  function AreaOf(store: Option<Storage>): (r: Option<StoreId>)
    ensures r.Some? <==> store.Some?
    ensures r.Some? ==> r.value == store.value.id
  {
    if store.Some? then Some(store.value.id) else None
  }
}
