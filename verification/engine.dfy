/** The synchronisation engine of `useStorageState`: the read path, the
    three-branch write path, the `storage` listener, and the re-read on a key
    change, as pure transitions over one hook instance's state. */
module Engine {
  import opened Base
  import opened Store
  import opened Codec

  /** The argument of `updateState`: undefined (clear), a functional updater
      applied to the current value, or a literal value. */
  datatype Action<!T> = Clear | Apply(updater: Option<T> -> T) | Set(v: T)

  /** What the `storage` listener captured when it was registered (once, at
      mount): the key and the storage area it filters on. */
  datatype Subscription = Subscription(key: string, area: Option<StoreId>)

  /** One hook instance together with the store it resolved and the log of
      events dispatched so far. */
  datatype State<T> = State(
    store: Option<Storage>,
    key: string,
    cell: Option<T>,
    log: seq<StorageEvent>,
    sub: Subscription)

  /** The store holds a non-empty entry for `key` that decodes. */
  ghost predicate Hit<T>(cfg: Config<T>, store: Option<Storage>, key: string) {
    && store.Some?
    && key in store.value.items
    && store.value.items[key] != ""
    && Deserialize(cfg, store.value.items[key]).Ok?
  }

  /** `getStoredValue`: the decoded entry when there is a non-empty one that
      decodes; otherwise (no store, no entry, the empty string, or a decode
      that throws) the resolved default. */
  function ReadStored<T>(cfg: Config<T>, store: Option<Storage>, key: string): (r: Option<T>)
    ensures Hit(cfg, store, key) ==> r == Some(Deserialize(cfg, store.value.items[key]).value)
    ensures !Hit(cfg, store, key) ==> r == ResolveDefault(cfg)
  {
    var raw := GetItem(store, key);
    if raw.Some? && raw.value != "" then
      match Deserialize(cfg, raw.value)
      case Ok(v) => Some(v)
      case Err => ResolveDefault(cfg)
    else
      ResolveDefault(cfg)
  }

  /** The state right after mount: the cell seeded by one read, and the
      listener subscribed with the mount-time key and store. */
  function Mount<T>(cfg: Config<T>, store: Option<Storage>, log: seq<StorageEvent>, key: string): (s: State<T>)
    ensures s.store == store && s.log == log && s.key == key
    ensures Hit(cfg, store, key) ==> s.cell == Some(Deserialize(cfg, store.value.items[key]).value)
    ensures !Hit(cfg, store, key) ==> s.cell == ResolveDefault(cfg)
    ensures s.sub.key == key && s.sub.area == AreaOf(store)
  {
    State(store, key, ReadStored(cfg, store, key), log, Subscription(key, AreaOf(store)))
  }

  /** The event the write path builds for `key`: its `oldValue` is read from
      the store before anything is mutated. */
  function EventFor(store: Option<Storage>, key: string, newValue: Option<string>): (e: StorageEvent)
    ensures e.key == Some(key) && e.newValue == newValue
    ensures e.oldValue == GetItem(store, key)
    ensures e.storageArea == AreaOf(store)
  {
    StorageEvent(Some(key), newValue, GetItem(store, key), AreaOf(store))
  }

  /** The literal branch of `updateState`: set the cell, then (inside the
      try) serialize, dispatch the event and persist.  A throwing serializer
      stops the sequence after the cell is set; a throwing `setItem` stops it
      after the event is dispatched. */
  function Commit<T>(cfg: Config<T>, s: State<T>, v: T): (s': State<T>)
    ensures s'.cell == Some(v)
    ensures s'.key == s.key && s'.sub == s.sub
    ensures Serialize(cfg, v).Err? ==> s'.log == s.log && s'.store == s.store
    ensures Serialize(cfg, v).Ok? ==>
      s'.log == s.log + [EventFor(s.store, s.key, Some(Serialize(cfg, v).value))]
    ensures s.store.None? ==> s'.store.None?
    ensures Serialize(cfg, v).Ok? && s.store.Some? && Admits(s.store.value, s.key, Serialize(cfg, v).value) ==>
      s'.store.Some? && Holds(s.store.value, s'.store.value, s.key, Serialize(cfg, v).value)
    ensures Serialize(cfg, v).Ok? && s.store.Some? && !Admits(s.store.value, s.key, Serialize(cfg, v).value) ==>
      s'.store == s.store
  {
    var s1 := s.(cell := Some(v));
    match Serialize(cfg, v)
    case Err => s1
    case Ok(raw) =>
      var s2 := s1.(log := s.log + [EventFor(s.store, s.key, Some(raw))]);
      if s.store.None? then s2
      else
        match SetItem(s.store.value, s.key, raw)
        case Ok(st) => s2.(store := Some(st))
        case Err => s2
  }

  /** The value a non-clear write stores in the cell: the literal, or the
      updater applied to the current cell. */
  function Written<T>(s: State<T>, a: Action<T>): T
    requires !a.Clear?
  {
    if a.Set? then a.v else a.updater(s.cell)
  }

  /** `updateState`.  Clear sets the cell to undefined, dispatches an event
      with a null `newValue` and the entry held before removal as `oldValue`,
      then removes the entry.  A functional update applies the updater to the
      current cell and proceeds as a literal write of its result. */
  function Update<T>(cfg: Config<T>, s: State<T>, a: Action<T>): (s': State<T>)
    ensures s'.key == s.key && s'.sub == s.sub
    ensures s'.store.Some? <==> s.store.Some?
    ensures s.store.Some? ==> s'.store.value.id == s.store.value.id
    ensures a.Clear? ==> s'.cell.None?
    ensures a.Clear? ==> s'.log == s.log + [EventFor(s.store, s.key, None)]
    ensures a.Clear? && s.store.Some? ==>
      && s.key !in s'.store.value.items
      && SameExceptAt(s.store.value.items, s'.store.value.items, s.key)
    ensures a.Set? ==> s' == Commit(cfg, s, a.v)
    ensures a.Apply? ==> s' == Commit(cfg, s, a.updater(s.cell))
  {
    match a
    case Clear =>
      s.(cell := None,
         log := s.log + [EventFor(s.store, s.key, None)],
         store := if s.store.Some? then Some(RemoveItem(s.store.value, s.key)) else None)
    case Apply(f) => Commit(cfg, s, f(s.cell))
    case Set(v) => Commit(cfg, s, v)
  }

  /** The listener reacts only to events from its own storage area.  An event
      built without a store carries a null area, which never equals the
      listener's undefined store, so a listener without a store matches
      nothing. */
  predicate AreaMatches(sub: Subscription, e: StorageEvent) {
    sub.area.Some? && e.storageArea == sub.area
  }

  /** An event concerns the listener when it is a whole-store clear (null key)
      or names the listener's key. */
  predicate KeyMatches(sub: Subscription, e: StorageEvent) {
    e.key.None? || e.key == Some(sub.key)
  }

  /** `handleStorage`: the listener's new cell.  A clear or a removal sets it
      to undefined; a new value sets it to the decoded value; a deserializer
      that throws aborts the handler before `setState`, leaving the cell. */
  function HandleStorage<T>(cfg: Config<T>, sub: Subscription, cell: Option<T>, e: StorageEvent): (c: Option<T>)
    ensures !AreaMatches(sub, e) ==> c == cell
    ensures e.key.Some? && e.key.value != sub.key ==> c == cell
    ensures AreaMatches(sub, e) && e.key.None? ==> c.None?
    ensures AreaMatches(sub, e) && e.key == Some(sub.key) && e.newValue.None? ==> c.None?
    ensures AreaMatches(sub, e) && e.key == Some(sub.key) && e.newValue.Some? ==>
      c == (if Deserialize(cfg, e.newValue.value).Ok? then Some(Deserialize(cfg, e.newValue.value).value) else cell)
  {
    if !AreaMatches(sub, e) then cell
    else if e.key.None? then None
    else if e.key.value == sub.key then
      if e.newValue.None? then None
      else
        match Deserialize(cfg, e.newValue.value)
        case Ok(v) => Some(v)
        case Err => cell
    else cell
  }

  /** Delivering an event to this instance's listener: only the cell may
      change; the listener never writes the store nor dispatches an event. */
  function Deliver<T>(cfg: Config<T>, s: State<T>, e: StorageEvent): (s': State<T>)
    ensures s'.store == s.store && s'.log == s.log
    ensures s'.key == s.key && s'.sub == s.sub
    ensures !(AreaMatches(s.sub, e) && KeyMatches(s.sub, e)) ==> s'.cell == s.cell
  {
    s.(cell := HandleStorage(cfg, s.sub, s.cell, e))
  }

  /** A re-render: `getStorage()` is called again and its outcome becomes
      the store the write path and the read path use from now on.  The
      listener keeps the store it captured at mount; the cell, key and log
      are untouched. */
  function Rerender<T>(s: State<T>, store: Option<Storage>): (s': State<T>)
    ensures s'.store == store
    ensures s'.key == s.key && s'.cell == s.cell && s'.log == s.log && s'.sub == s.sub
  {
    s.(store := store)
  }

  /** The key-change effect: when the key differs, the cell is replaced by a
      fresh read for the new key; the listener keeps its mount-time
      subscription, and nothing is written or dispatched. */
  function Rekey<T>(cfg: Config<T>, s: State<T>, key: string): (s': State<T>)
    ensures s'.key == key
    ensures s'.store == s.store && s'.log == s.log && s'.sub == s.sub
    ensures key == s.key ==> s'.cell == s.cell
    ensures key != s.key && Hit(cfg, s.store, key) ==>
      s'.cell == Some(Deserialize(cfg, s.store.value.items[key]).value)
    ensures key != s.key && !Hit(cfg, s.store, key) ==> s'.cell == ResolveDefault(cfg)
  {
    if key == s.key then s else s.(key := key, cell := ReadStored(cfg, s.store, key))
  }
}
