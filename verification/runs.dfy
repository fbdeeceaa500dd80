/** Sequences of transitions of one hook instance, and what holds across a
    whole run: the event log only grows, every event the hook dispatches
    names one of its keys and its own store, entries under other keys are
    never touched, and for a listener the last relevant event wins. */
module Runs {
  import opened Base
  import opened Store
  import opened Codec
  import opened Engine

  /** One thing that can happen to a mounted instance. */
  datatype Step<!T> = Write(a: Action<T>) | ChangeKey(key: string) | Receive(e: StorageEvent)

  function Apply1<T>(cfg: Config<T>, s: State<T>, step: Step<T>): State<T> {
    match step
    case Write(a) => Update(cfg, s, a)
    case ChangeKey(k) => Rekey(cfg, s, k)
    case Receive(e) => Deliver(cfg, s, e)
  }

  function Run<T>(cfg: Config<T>, s: State<T>, steps: seq<Step<T>>): State<T>
    decreases |steps|
  {
    if steps == [] then s else Run(cfg, Apply1(cfg, s, steps[0]), steps[1..])
  }

  /** Every key the instance is bound to during the run, starting with `key`. */
  function HeldKeys<T>(key: string, steps: seq<Step<T>>): (ks: set<string>)
    ensures key in ks
    decreases |steps|
  {
    if steps == [] then {key}
    else if steps[0].ChangeKey? then {key} + HeldKeys(steps[0].key, steps[1..])
    else {key} + HeldKeys(key, steps[1..])
  }

  /** An event this instance dispatched: it names one of `ks` and carries the
      instance's storage area. */
  ghost predicate OwnEvent(e: StorageEvent, ks: set<string>, area: Option<StoreId>) {
    e.key.Some? && e.key.value in ks && e.storageArea == area
  }

  /** Across any run the log is only appended to, every appended event is one
      the instance dispatched for a key it held, and the subscription stays
      the one captured at mount. */
  lemma {:induction false} RunAppendsOwnEvents<T>(cfg: Config<T>, s: State<T>, steps: seq<Step<T>>)
    ensures s.log <= Run(cfg, s, steps).log
    ensures forall i :: |s.log| <= i < |Run(cfg, s, steps).log| ==>
      OwnEvent(Run(cfg, s, steps).log[i], HeldKeys(s.key, steps), AreaOf(s.store))
    ensures Run(cfg, s, steps).sub == s.sub
    decreases |steps|
  {
    if steps != [] {
      var s1 := Apply1(cfg, s, steps[0]);
      var r := Run(cfg, s, steps);
      var ks := HeldKeys(s.key, steps);
      assert s1.store.Some? <==> s.store.Some?;
      assert AreaOf(s1.store) == AreaOf(s.store);
      assert s.log <= s1.log;
      assert forall i :: |s.log| <= i < |s1.log| ==> OwnEvent(s1.log[i], ks, AreaOf(s.store));
      RunAppendsOwnEvents(cfg, s1, steps[1..]);
      assert HeldKeys(s1.key, steps[1..]) <= ks;
      forall i | |s.log| <= i < |r.log|
        ensures OwnEvent(r.log[i], ks, AreaOf(s.store))
      {
        if i >= |s1.log| {
          assert OwnEvent(r.log[i], HeldKeys(s1.key, steps[1..]), AreaOf(s1.store));
        } else {
          assert r.log[i] == s1.log[i];
        }
      }
    }
  }

  /** A run never loses or gains its store, never changes the store's
      identity, and leaves every entry under a key it never held as it was. */
  lemma {:induction false} RunTouchesOnlyHeldKeys<T>(cfg: Config<T>, s: State<T>, steps: seq<Step<T>>)
    ensures Run(cfg, s, steps).store.Some? <==> s.store.Some?
    ensures s.store.Some? ==>
      && Run(cfg, s, steps).store.value.id == s.store.value.id
      && SameOutside(s.store.value.items, Run(cfg, s, steps).store.value.items, HeldKeys(s.key, steps))
    decreases |steps|
  {
    if steps != [] {
      var s1 := Apply1(cfg, s, steps[0]);
      var ks := HeldKeys(s.key, steps);
      RunTouchesOnlyHeldKeys(cfg, s1, steps[1..]);
      assert HeldKeys(s1.key, steps[1..]) <= ks;
      if s.store.Some? {
        assert s1.store.Some? && s1.store.value.id == s.store.value.id;
        assert SameOutside(s.store.value.items, s1.store.value.items, {s.key});
      }
    }
  }

  /** Delivering events to a listener one after another, starting from `cell`. */
  function DeliverAll<T>(cfg: Config<T>, sub: Subscription, cell: Option<T>, es: seq<StorageEvent>): Option<T>
    decreases |es|
  {
    if es == [] then cell else DeliverAll(cfg, sub, HandleStorage(cfg, sub, cell, es[0]), es[1..])
  }

  /** The listener acts on `e`. */
  predicate Relevant(sub: Subscription, e: StorageEvent) {
    AreaMatches(sub, e) && KeyMatches(sub, e)
  }

  /** A relevant event whose effect does not depend on the listener's cell:
      a clear, a removal, or a new value that decodes. */
  ghost predicate Decisive<T>(cfg: Config<T>, e: StorageEvent) {
    e.key.None? || e.newValue.None? || Deserialize(cfg, e.newValue.value).Ok?
  }

  /** The cell a decisive event leaves behind. */
  function Forced<T>(cfg: Config<T>, e: StorageEvent): Option<T> {
    if e.key.None? || e.newValue.None? then None
    else Deserialize(cfg, e.newValue.value).ToOption()
  }

  lemma {:induction false} DeliverAllAppend<T>(cfg: Config<T>, sub: Subscription, cell: Option<T>, a: seq<StorageEvent>, b: seq<StorageEvent>)
    ensures DeliverAll(cfg, sub, cell, a + b) == DeliverAll(cfg, sub, DeliverAll(cfg, sub, cell, a), b)
    decreases |a|
  {
    if a != [] {
      assert (a + b)[1..] == a[1..] + b;
      DeliverAllAppend(cfg, sub, HandleStorage(cfg, sub, cell, a[0]), a[1..], b);
    } else {
      assert a + b == b;
    }
  }

  lemma {:induction false} DeliverIrrelevant<T>(cfg: Config<T>, sub: Subscription, cell: Option<T>, es: seq<StorageEvent>)
    requires forall i :: 0 <= i < |es| ==> !Relevant(sub, es[i])
    ensures DeliverAll(cfg, sub, cell, es) == cell
    decreases |es|
  {
    if es != [] {
      DeliverIrrelevant(cfg, sub, cell, es[1..]);
    }
  }

  /** Last relevant event wins: once a decisive relevant event has been
      delivered and nothing after it concerns the listener, the listener's
      cell is what that event forces, whatever it held before. */
  lemma {:induction false} LastRelevantWins<T>(cfg: Config<T>, sub: Subscription, cell: Option<T>,
                                              pre: seq<StorageEvent>, e: StorageEvent, post: seq<StorageEvent>)
    requires Relevant(sub, e) && Decisive(cfg, e)
    requires forall i :: 0 <= i < |post| ==> !Relevant(sub, post[i])
    ensures DeliverAll(cfg, sub, cell, pre + [e] + post) == Forced(cfg, e)
  {
    DeliverAllAppend(cfg, sub, cell, pre + [e], post);
    DeliverAllAppend(cfg, sub, cell, pre, [e]);
    DeliverIrrelevant(cfg, sub, DeliverAll(cfg, sub, cell, pre + [e]), post);
  }
}
