# useStorageState synchronisation engine, in Dafny

This project models the engine inside ahooks' `useStorageState` (built by
`createUseStorageState`). The engine binds one key of a Web Storage area
(`localStorage`, `sessionStorage`) to an in-memory cell. It has four parts:

- the **read path** `getStoredValue`: fetch, decode, fall back to the default;
- the **write path** `updateState`: clear, functional update, or literal value;
- the **`storage` listener** `handleStorage`: reconciles the cell with changes made elsewhere;
- the **key-change effect**: re-reads when the key changes.

It is written as pure transitions over an immutable state:

- `Store`: the storage area (identity, entries, quota), its `getItem` / `setItem` / `removeItem`, and the `StorageEvent` record.
- `Codec`: the options, the per-half selection between a custom serializer/deserializer and JSON, and default resolution. `JSON.stringify` / `JSON.parse` stay abstract, and both may throw (`Result`).
- `Engine`: the hook state `State(store, key, cell, log, sub)`. The store is optional because `getStorage` may fail. `log` is the append-only sequence of dispatched events. `sub` is what the listener captured when it was registered. Transitions: `ReadStored`, `Mount`, `Update` (with `Action = Clear | Apply | Set`), `HandleStorage` / `Deliver`, `Rerender` (a new `getStorage` outcome), and `Rekey`.
- `Runs`: arbitrary sequences of steps, and what holds over all of them.
- `Properties`: lemmas relating several transitions, plus the worked scenarios.

Details of the code's behaviour that the model keeps:

- The serializer and the deserializer are chosen independently (`index.ts:43-55`): a custom serializer may be combined with the JSON deserializer, and the other way round.
- `getStorage()` runs on every render (`index.ts:34-41`), and `updateState` uses the store of the latest render. The model keeps the current store in the state, and the `Rerender` transition replaces it with a new resolution outcome. The listener keeps the store and the key of the render it was registered in (`index.ts:146-165`, empty dependency list). After a key change it still filters on the mount-time key (`Properties.ListenerKeepsMountKey`), and after a re-resolution to another store it still filters on the mount-time store (`Properties.ListenerKeepsMountStore`).
- An event built without a store gets a null `storageArea`. A listener without a store holds `undefined`. Since `null !== undefined`, a hook with no store never reacts to any event, including its own (`Engine.AreaMatches`, `Properties.NoStoreNoSync`).
- If the listener's deserializer throws, the handler stops before `setState`, so the cell is left as it was (`index.ts:157`).
- `setItem` may throw when the quota is exceeded (the store's `fits` predicate). That throw comes after the event was dispatched, inside the same `try`. So the event is logged, but the store is unchanged.

## Model

| member | source | states |
|---|---|---|
| Store.GetItem | packages/hooks/src/createUseStorageState/index.ts:59 | `storage?.getItem(key)` yields an entry exactly when a store is present and holds the key, and then the entry is the stored string |
| Store.SetItem | packages/hooks/src/createUseStorageState/index.ts:139 | `setItem` succeeds exactly when the new contents fit the quota; on success the key holds the string, the area is the same, and no other key changes |
| Store.RemoveItem | packages/hooks/src/createUseStorageState/index.ts:103 | `removeItem` leaves the key absent and every other key as it was; removing an absent key changes nothing |
| Store.AreaOf | packages/hooks/src/createUseStorageState/index.ts:98 | an event's `storageArea` is the store's identity when there is a store, and null otherwise |
| Codec.Serialize | packages/hooks/src/createUseStorageState/index.ts:43-48 | a custom serializer, when given, is used instead of `JSON.stringify`; otherwise JSON is used |
| Codec.Deserialize | packages/hooks/src/createUseStorageState/index.ts:50-55 | a custom deserializer, when given, is used instead of `JSON.parse`; otherwise JSON is used |
| Codec.ResolveDefault | packages/hooks/src/createUseStorageState/index.ts:66-69 | the fallback is undefined exactly when no default is configured; a literal default is returned as is; a producer default is invoked |
| Codec.SelectionIsPerHalf | packages/hooks/src/createUseStorageState/index.ts:43-55 | overriding only the serializer leaves the deserializer's behaviour unchanged |
| Engine.ReadStored | packages/hooks/src/createUseStorageState/index.ts:57-69 | a non-empty stored entry that decodes yields exactly the decoded value, and the default is not consulted; no store, no entry, the empty string, or a throwing decode yields the resolved default |
| Engine.Mount | packages/hooks/src/createUseStorageState/index.ts:82 | the cell is seeded by one read of the key; the listener captures the mount-time key and storage area |
| Engine.EventFor | packages/hooks/src/createUseStorageState/index.ts:109-117 | a dispatched event names the hook's key and store, and its `oldValue` is the entry held before the write |
| Engine.Commit | packages/hooks/src/createUseStorageState/index.ts:124-143 | literal write: the cell always becomes the value. If serialization throws, no event is logged and the store is unchanged. Otherwise exactly one event `{key, serialize(value), pre-write entry, area}` is appended. Then the store holds the serialization at the key, other keys untouched, if it fits; if it does not fit, the store is unchanged |
| Engine.Update | packages/hooks/src/createUseStorageState/index.ts:88-144 | clear: the cell becomes undefined, one event with null `newValue` and the pre-removal entry is appended, and the key is removed with other keys untouched. Functional update: exactly a literal write of the updater applied to the current cell. Literal: the literal write. No branch changes the key, the subscription, or the store's presence and identity |
| Engine.HandleStorage | packages/hooks/src/createUseStorageState/index.ts:147-160 | the cell is unchanged for an event from another area or naming another key. For a matching area: a null key or a null `newValue` makes the cell undefined; otherwise the cell becomes the decoded `newValue`, or stays as it was if decoding throws |
| Engine.Deliver | packages/hooks/src/createUseStorageState/index.ts:147-161 | handling an event never writes the store, never dispatches an event, and never changes the key or subscription; irrelevant events leave the cell alone |
| Engine.Rerender | packages/hooks/src/createUseStorageState/index.ts:34-41 | a re-render replaces the store the hook reads and writes with the new `getStorage` outcome, and leaves the cell, key, log and the listener's captured store alone |
| Engine.Rekey | packages/hooks/src/createUseStorageState/index.ts:84-86 | on a key change, the cell becomes a fresh read of the new key; an unchanged key changes nothing; the store, log and subscription are untouched |
| Runs.RunAppendsOwnEvents | packages/hooks/src/createUseStorageState/index.ts:88-165 | over any sequence of writes, key changes and deliveries, the log is only appended to. Every appended event names a key the hook held and carries the hook's own area. The subscription never changes |
| Runs.RunTouchesOnlyHeldKeys | packages/hooks/src/createUseStorageState/index.ts:88-144 | over any run, the store keeps its presence and identity, and entries under keys the hook never held are unchanged |
| Runs.LastRelevantWins | packages/hooks/src/createUseStorageState/index.ts:147-160 | once a decisive relevant event is delivered (a clear, a removal, or a decodable value), and no later event concerns the listener, the cell is what that event forces, whatever came before |
| Properties.WriteThenRead | packages/hooks/src/createUseStorageState/index.ts:124-139 | a write that serializes to a non-empty string, fits, and round-trips is read back by the read path as the written value, in agreement with the cell |
| Properties.EmptySerializationReadsAsDefault | packages/hooks/src/createUseStorageState/index.ts:60 | a value serialized to the empty string is stored, but reads back as the default, because the read path treats `""` as absent |
| Properties.ClearThenRead | packages/hooks/src/createUseStorageState/index.ts:89-103 | after a clear, the read path yields the default |
| Properties.SerializerThrowKeepsStore | packages/hooks/src/createUseStorageState/index.ts:125-142 | when the serializer throws, the cell still holds the new value, no event is dispatched, and a re-read sees the old stored state |
| Properties.WriteConverges | packages/hooks/src/createUseStorageState/index.ts:147-158 | another instance subscribed to the same key and store, with a deserializer that inverts the writer's serializer, ends with the writer's cell after receiving the write's single event, whatever it held before |
| Properties.NoStoreNoSync | packages/hooks/src/createUseStorageState/index.ts:148 | events dispatched without a store are ignored by every listener, and a listener mounted without a store ignores every event |
| Properties.HandleStorageIdempotent | packages/hooks/src/createUseStorageState/index.ts:147-160 | delivering an event twice has the effect of delivering it once |
| Properties.ListenerKeepsMountKey | packages/hooks/src/createUseStorageState/index.ts:146-165 | after the key changes from k0 to k1, an event for k1 leaves the cell alone, while a decodable event for k0 overwrites it |
| Properties.ListenerKeepsMountStore | packages/hooks/src/createUseStorageState/index.ts:146-165 | after a re-render resolves a different store, the next write's event carries the new store's area, and the hook's own mount-time listener ignores it |
| Properties.RekeyAwayAndBack | packages/hooks/src/createUseStorageState/index.ts:84-86 | a key change is a re-read, not a rename: after a round-tripping write, switching to another key and back yields the written value again |
| Properties.MountScenarios | packages/hooks/src/createUseStorageState/index.ts:66-69 | with an empty store, key "count" reads undefined with no default, 0 with default 0, and the producer's result with a producer default; with no store the producer default is used as well |
| Properties.CounterScenario | packages/hooks/src/createUseStorageState/index.ts:88-139 | writing 5 and then applying `n => n + 1` gives cell 6, and the entry reads back as 6; a clear then makes the cell undefined and removes the entry |

## Left out

- React plumbing (`useState`, `useUpdateEffect`, `useEffect`, `useMemoizedFn`) and re-render scheduling. The cell is a plain field, and the key-change effect is the explicit `Rekey` transition. So is the render snapshot: a functional updater receives the cell as it is in the model, whereas in React two updates from one handler both see the same rendered `state`.
- Event transport. `window.dispatchEvent` is modelled as appending to `log`; `addEventListener` and its delivery as the explicit `Deliver` transition. In a browser, dispatch runs same-window listeners synchronously, including the hook's own listener, between `setState` and `setItem`. The model does not interleave that delivery.
- Subscription teardown (`removeEventListener`) and disposal, the event's `url`, `cancelable` and `bubbles` fields, and `console.error` logging.
- `JSON.stringify` / `JSON.parse` semantics. They are foreign library calls; the codec is abstract, and round-trips appear only as hypotheses (`Codec.Carries`, `Codec.RoundTrips`).
- How `getStorage` fails. Only its outcome is kept: the store is absent.
- Engine.Deliver: the hook's options (serializer, deserializer, default) are one `Config` for the hook's whole life. In the source they are rebuilt on every render (`index.ts:43-55`, `66-69`); writes and the key-change re-read use the latest render's, while the listener, registered once with an empty dependency list (`index.ts:165`), keeps decoding with the mount-time deserializer (`index.ts:157`). The model treats the options as fixed configuration: options whose behaviour changes between renders are not modelled, since that would need a second, mount-time `Config` captured in the subscription beside the current one.
- Engine.Update: a functional updater always returns a value in the model. In the source it may return `undefined` (`index.ts:105`). Then the cell becomes undefined, `JSON.stringify(undefined)` yields `undefined`, so the event's `newValue` is null and looks like a removal, and `setItem` stores the string "undefined". That path is not modelled.
- Runs.RunAppendsOwnEvents: runs are sequences of writes, key changes and deliveries with one resolved store; a `Rerender` to a different store inside a run would make later events carry that store's area, which this lemma does not cover.
- Runs.RunTouchesOnlyHeldKeys: for the same reason, it assumes `getStorage` gives the same outcome on every render of the run; `Rerender` steps are not part of runs.
- Codec.ResolveDefault: a producer default is modelled as a total, pure function. In `index.ts:66-67` it is called after the `try` closes, so a producer that throws would escape the read (at mount and at a key change). A producer may also return a different value on each call. The model has no exception path out of the read, and it treats the producer's result as a fixed value.
- A functional updater that throws (`index.ts:105`, outside the `try`). The updater is a total function in the model; a throw there would escape `updateState`.
- Engine.Commit: the serializer runs twice in the source (once for the event, once for `setItem`). The model calls it once, so it assumes the serializer is deterministic.
- Races between windows, and eventual consistency across contexts. The code defines no ordering between contexts.
