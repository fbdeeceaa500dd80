/** Properties that relate several transitions: a write read back, a write
    observed by another instance's listener, a key change against the
    mount-time subscription, and worked scenarios. */
module Properties {
  import opened Base
  import opened Store
  import opened Codec
  import opened Engine

  /** A write whose serialization succeeds, is non-empty, fits the store and
      round-trips is read back as the written value: re-reading the key after
      the write agrees with the cell. */
  lemma WriteThenRead<T>(cfg: Config<T>, s: State<T>, a: Action<T>)
    requires !a.Clear? && s.store.Some?
    requires RoundTrips(cfg, Written(s, a))
    requires Serialize(cfg, Written(s, a)).value != ""
    requires Admits(s.store.value, s.key, Serialize(cfg, Written(s, a)).value)
    ensures ReadStored(cfg, Update(cfg, s, a).store, s.key) == Some(Written(s, a))
    ensures ReadStored(cfg, Update(cfg, s, a).store, s.key) == Update(cfg, s, a).cell
  {
  }

  /** A serializer that yields the empty string persists it, but the read
      path treats the empty entry as absent and answers the default. */
  lemma EmptySerializationReadsAsDefault<T>(cfg: Config<T>, s: State<T>, a: Action<T>)
    requires !a.Clear? && s.store.Some?
    requires Serialize(cfg, Written(s, a)) == Ok("")
    requires Admits(s.store.value, s.key, "")
    ensures Update(cfg, s, a).store.value.items[s.key] == ""
    ensures ReadStored(cfg, Update(cfg, s, a).store, s.key) == ResolveDefault(cfg)
  {
  }

  /** After a clear, reading the key answers the default. */
  lemma ClearThenRead<T>(cfg: Config<T>, s: State<T>)
    ensures ReadStored(cfg, Update(cfg, s, Clear).store, s.key) == ResolveDefault(cfg)
  {
  }

  /** A serializer that throws aborts the persisting part of a write: the cell
      holds the new value, but no event is dispatched and the store is as it
      was, so a re-read still answers what the store held before. */
  lemma SerializerThrowKeepsStore<T>(cfg: Config<T>, s: State<T>, a: Action<T>)
    requires !a.Clear?
    requires Serialize(cfg, Written(s, a)).Err?
    ensures Update(cfg, s, a).cell == Some(Written(s, a))
    ensures Update(cfg, s, a).log == s.log
    ensures ReadStored(cfg, Update(cfg, s, a).store, s.key) == ReadStored(cfg, s.store, s.key)
  {
  }

  /** Convergence of a write: another instance whose listener was subscribed
      to the same key and store, and whose deserializer inverts the writer's
      serializer on the written value, ends with the writer's cell once the
      event the write dispatched is delivered, whatever it held before. */
  lemma WriteConverges<T>(cfg: Config<T>, other: Config<T>, s: State<T>, a: Action<T>,
                          sub: Subscription, cell: Option<T>)
    requires s.store.Some? && sub.key == s.key && sub.area == Some(s.store.value.id)
    requires !a.Clear? ==> Carries(cfg, other, Written(s, a))
    ensures |Update(cfg, s, a).log| == |s.log| + 1
    ensures HandleStorage(other, sub, cell, Update(cfg, s, a).log[|s.log|]) == Update(cfg, s, a).cell
  {
  }

  /** Without a store the hook still dispatches events, but they carry a
      null area, which no listener accepts; and a listener mounted without a
      store accepts no event at all. */
  lemma NoStoreNoSync<T>(cfg: Config<T>, s: State<T>, a: Action<T>, sub: Subscription, cell: Option<T>)
    requires s.store.None?
    ensures forall i :: |s.log| <= i < |Update(cfg, s, a).log| ==>
      HandleStorage(cfg, sub, cell, Update(cfg, s, a).log[i]) == cell
    ensures s.sub.area.None? ==> forall e :: HandleStorage(cfg, s.sub, s.cell, e) == s.cell
  {
  }

  /** Delivering the same event twice has the effect of delivering it once. */
  lemma HandleStorageIdempotent<T>(cfg: Config<T>, sub: Subscription, cell: Option<T>, e: StorageEvent)
    ensures HandleStorage(cfg, sub, HandleStorage(cfg, sub, cell, e), e) == HandleStorage(cfg, sub, cell, e)
  {
  }

  /** The listener keeps the key it was mounted with: after the key changes
      from `k0` to `k1`, an event for `k1` leaves the cell alone, while a
      decodable event for `k0` overwrites the cell now bound to `k1`. */
  lemma ListenerKeepsMountKey<T>(cfg: Config<T>, store: Option<Storage>, log: seq<StorageEvent>,
                                 k0: string, k1: string, s: State<T>, raw: string, w: T)
    requires store.Some? && k0 != k1
    requires s == Rekey(cfg, Mount(cfg, store, log, k0), k1)
    requires Deserialize(cfg, raw) == Ok(w)
    ensures s.key == k1
    ensures Deliver(cfg, s, StorageEvent(Some(k1), Some(raw), None, Some(store.value.id))).cell == s.cell
    ensures Deliver(cfg, s, StorageEvent(Some(k0), Some(raw), None, Some(store.value.id))).cell == Some(w)
  {
  }

  /** The listener keeps the store it was mounted with: once a re-render
      resolves a different store, the hook's writes go to the new store and
      carry its area, and its own listener ignores them. */
  lemma ListenerKeepsMountStore<T>(cfg: Config<T>, s: State<T>, store2: Option<Storage>, a: Action<T>, s1: State<T>)
    requires s.store.Some? && s.sub.area == AreaOf(s.store)
    requires store2.Some? && store2.value.id != s.store.value.id
    requires a.Clear? || Serialize(cfg, Written(s, a)).Ok?
    requires s1 == Update(cfg, Rerender(s, store2), a)
    ensures |s1.log| == |s.log| + 1
    ensures s1.log[|s.log|].storageArea == Some(store2.value.id)
    ensures Deliver(cfg, s1, s1.log[|s.log|]).cell == s1.cell
  {
  }

  /** A key change is not a rename: after a round-tripping write, switching
      to another key and back re-reads the written value from the store. */
  lemma RekeyAwayAndBack<T>(cfg: Config<T>, s: State<T>, a: Action<T>, other: string)
    requires !a.Clear? && s.store.Some? && other != s.key
    requires RoundTrips(cfg, Written(s, a))
    requires Serialize(cfg, Written(s, a)).value != ""
    requires Admits(s.store.value, s.key, Serialize(cfg, Written(s, a)).value)
    ensures Rekey(cfg, Rekey(cfg, Update(cfg, s, a), other), s.key).cell == Some(Written(s, a))
  {
  }

  /** Scenario: key "count", no default, empty store: the first read is
      undefined; with the literal default 0 it is 0; with a producer default
      it is the producer's result, with an empty store and with no store. */
  lemma MountScenarios(json: Json<int>, id: StoreId, fits: map<string, string> -> bool, make: () -> int)
    ensures Mount(Config(Options(None, None, NoDefault), json), Some(Storage(id, map[], fits)), [], "count").cell == None
    ensures Mount(Config(Options(None, None, Literal(0)), json), Some(Storage(id, map[], fits)), [], "count").cell == Some(0)
    ensures Mount(Config(Options(None, None, Producer(make)), json), Some(Storage(id, map[], fits)), [], "count").cell == Some(make())
    ensures Mount(Config(Options(None, None, Producer(make)), json), None, [], "count").cell == Some(make())
  {
  }

  /** Scenario: write 5, then apply an updater `n => n + 1`: the cell becomes
      6 and the stored entry reads back as 6; then a clear makes the cell
      undefined and removes the entry. */
  lemma CounterScenario(cfg: Config<int>, s: State<int>, inc: Option<int> -> int,
                        s1: State<int>, s2: State<int>, s3: State<int>)
    requires s.store.Some? && s.key == "count"
    requires RoundTrips(cfg, 6) && Serialize(cfg, 6).value != ""
    requires forall m: map<string, string> :: s.store.value.fits(m)
    requires inc(Some(5)) == 6
    requires s1 == Update(cfg, s, Set(5))
    requires s2 == Update(cfg, s1, Apply(inc))
    requires s3 == Update(cfg, s2, Clear)
    ensures s2.cell == Some(6)
    ensures ReadStored(cfg, s2.store, "count") == Some(6)
    ensures s3.cell.None? && "count" !in s3.store.value.items
  {
    WriteThenRead(cfg, s1, Apply(inc));
  }
}
