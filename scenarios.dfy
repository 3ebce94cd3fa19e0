/**
 * The behaviour the repository's test suites describe, replayed on fresh
 * dispatchers, units and hosts. Where a test uses the type "event", the
 * scenario holds for every plain type: one without a leading `!` that
 * `removeOn` leaves alone.
 */
module Scenarios {
  import opened Values
  import opened EventNames
  import opened Events
  import opened Bus
  import opened Units
  import opened Decoration

  /** A type that is published and stored under its own name. */
  predicate Plain(key: string) {
    RemoveOn(key) == key && !Forced(key)
  }

  /** Publishing a plain type on an unprefixed unit targets the type itself. */
  lemma PlainPublishType(key: string)
    requires Plain(key)
    ensures RemoveOn(PublishType("", key)) == key
  {
  }

  /** The table holding one callback under a plain type. */
  function Single(key: string, fn: Callback): (t: Table)
    ensures Listeners(t, key) == [fn]
  {
    Table([key], map[key := [fn]])
  }

  lemma AddSingle(key: string, fn: Callback)
    requires RemoveOn(key) == key
    ensures Add(Empty, key, fn) == Single(key, fn)
  {
    assert Include([], fn) == [fn];
    assert Empty.order + [key] == [key];
  }

  /** The type with a leading `!`: replay forced, same type. */
  lemma BangKey(key: string)
    ensures Forced("!" + key) && Unbanged("!" + key) == key
  {
  }

  /** A fresh bus and a fresh unit on it. */
  method FreshUnit() returns (bus: Dispatcher, unit: Unit)
    ensures fresh(bus) && fresh(unit) && unit.bus == bus && unit.Valid()
    ensures unit.attached && unit.prefix == "" && unit.handlers == Empty
    ensures bus.events == Empty && bus.trace == [] && bus.dispatched == map[] && bus.finished == map[]
  {
    bus := new Dispatcher();
    unit := new Unit(bus);
  }

  /** A fresh unit that subscribed `fn` to `key`. */
  method Subscribed(key: string, fn: Callback) returns (bus: Dispatcher, unit: Unit)
    requires Plain(key)
    ensures fresh(bus) && fresh(unit) && unit.bus == bus && unit.Valid()
    ensures unit.attached && unit.prefix == "" && unit.handlers == Single(key, fn)
    ensures bus.events == Single(key, fn)
    ensures bus.trace == [] && bus.dispatched == map[] && bus.finished == map[]
  {
    bus, unit := FreshUnit();
    assert Unbanged(key) == key && key !in bus.finished && key !in bus.dispatched;
    unit.Subscribe(key, fn, false);
    assert unit.handlers == Add(Empty, key, fn) && bus.events == Add(Empty, key, fn);
    AddSingle(key, fn);
  }

  /** Subscribing and publishing twice calls the callback twice, with the published arguments. */
  method PublishTwice(key: string, fn: Callback, args: seq<Value>) returns (delivered: seq<Delivery>)
    requires Plain(key)
    ensures delivered == [Delivery(fn, args), Delivery(fn, args)]
  {
    var bus, unit := Subscribed(key, fn);
    PlainPublishType(key);
    unit.Publish(key, args, false);
    assert bus.trace == [Delivery(fn, args)];
    unit.Publish(key, args, false);
    delivered := bus.trace;
  }

  /** A second callback under the same type goes after the first. */
  lemma AddSecond(key: string, f: Callback, g: Callback)
    requires RemoveOn(key) == key && f != g
    ensures Listeners(Add(Single(key, f), key, g), key) == [f, g]
  {
  }

  /** Two subscribers of one type are called in the order they subscribed, with the same arguments. */
  method TwoSubscribers(key: string, f: Callback, g: Callback, args: seq<Value>) returns (delivered: seq<Delivery>)
    requires Plain(key) && f != g
    ensures delivered == [Delivery(f, args), Delivery(g, args)]
  {
    var bus, unit := Subscribed(key, f);
    AddSecond(key, f, g);
    assert Unbanged(key) == key && key !in bus.finished;
    unit.Subscribe(key, g, false);
    assert Listeners(bus.events, key) == [f, g];
    PlainPublishType(key);
    unit.Publish(key, args, false);
    delivered := bus.trace;
  }

  /** A subscription on one unit receives what another unit publishes. */
  method AcrossUnits(key: string, fn: Callback, args: seq<Value>) returns (delivered: seq<Delivery>)
    requires Plain(key)
    ensures delivered == [Delivery(fn, args)]
  {
    var bus, a := Subscribed(key, fn);
    var b := new Unit(bus);
    PlainPublishType(key);
    b.Publish(key, args, false);
    delivered := bus.trace;
  }

  /** Subscribing and unsubscribing: the callback is on the bus, then off it. */
  method SubscribeUnsubscribe(key: string, fn: Callback) returns (before: seq<Callback>, after: seq<Callback>)
    requires Plain(key)
    ensures before == [fn] && after == []
  {
    var bus, unit := Subscribed(key, fn);
    before := Listeners(bus.events, key);
    unit.Unsubscribe(key, fn);
    after := Listeners(bus.events, key);
  }

  /** A fresh unit that published `args` under `key` once. */
  method Published(key: string, args: seq<Value>, finish: bool) returns (bus: Dispatcher, unit: Unit)
    requires Plain(key)
    ensures fresh(bus) && fresh(unit) && unit.bus == bus && unit.Valid()
    ensures unit.attached && unit.prefix == "" && unit.handlers == Empty
    ensures bus.events == Empty && bus.trace == [] && bus.dispatched == map[key := args]
    ensures bus.finished == if finish then map[key := args] else map[]
  {
    bus, unit := FreshUnit();
    PlainPublishType(key);
    unit.Publish(key, args, finish);
  }

  /** After a finishing publish, each later subscriber is called at once and nothing is registered. */
  method FinalPublish(key: string, f1: Callback, f2: Callback, args: seq<Value>)
    returns (delivered: seq<Delivery>, registered: Table)
    requires Plain(key)
    ensures delivered == [Delivery(f1, args), Delivery(f2, args)]
    ensures registered == Empty
  {
    var bus, unit := Published(key, args, true);
    unit.Subscribe(key, f1, false);
    unit.Subscribe(key, f2, false);
    delivered := bus.trace;
    registered := bus.events;
  }

  /** After one publish, a subscription without replay: nothing is called. */
  method QuietSubscribed(key: string, f1: Callback, args: seq<Value>) returns (bus: Dispatcher, unit: Unit)
    requires Plain(key)
    ensures fresh(bus) && fresh(unit) && unit.bus == bus && unit.Valid() && unit.attached
    ensures bus.trace == [] && bus.dispatched == map[key := args] && bus.finished == map[]
  {
    bus, unit := Published(key, args, false);
    assert Unbanged(key) == key && key !in bus.finished;
    unit.Subscribe(key, f1, false);
  }

  /** After one publish, a subscription without replay and one with replay; only the second is called. */
  method QuietThenReplayed(key: string, f1: Callback, f2: Callback, args: seq<Value>) returns (bus: Dispatcher, unit: Unit)
    requires Plain(key)
    ensures fresh(bus) && fresh(unit) && unit.bus == bus && unit.Valid() && unit.attached
    ensures bus.trace == [Delivery(f2, args)] && bus.dispatched == map[key := args] && bus.finished == map[]
  {
    bus, unit := QuietSubscribed(key, f1, args);
    assert Unbanged(key) == key && key !in bus.finished;
    unit.Subscribe(key, f2, true);
  }

  /** Only a subscription with replay on, or with a leading `!`, receives the earlier publish. */
  method ReplayOnSubscribe(key: string, f1: Callback, f2: Callback, f3: Callback, args: seq<Value>)
    returns (delivered: seq<Delivery>)
    requires Plain(key)
    ensures delivered == [Delivery(f2, args), Delivery(f3, args)]
  {
    var bus, unit := QuietThenReplayed(key, f1, f2, args);
    BangSubscribe(unit, key, f3);
    delivered := bus.trace;
  }

  /** A subscription with a leading `!` on an attached unit replays the last publish of the type. */
  method BangSubscribe(unit: Unit, key: string, fn: Callback)
    requires unit.Valid() && unit.attached && Plain(key)
    requires key in unit.bus.dispatched && key !in unit.bus.finished
    modifies unit`handlers, unit.bus`events, unit.bus`trace
    ensures unit.bus.trace == old(unit.bus.trace) + [Delivery(fn, unit.bus.dispatched[key])]
  {
    BangKey(key);
    unit.Subscribe("!" + key, fn, false);
  }

  /** A detached unit's subscription misses the second publish. */
  method DetachedMisses(key: string, fn: Callback) returns (delivered: seq<Delivery>)
    requires Plain(key)
    ensures delivered == [Delivery(fn, [])]
  {
    var bus, unit := Subscribed(key, fn);
    PlainPublishType(key);
    unit.Publish(key, [], false);
    unit.DetachUnit();
    unit.Publish(key, [], false);
    delivered := bus.trace;
  }

  /** Reattaching a unit with one subscription under a plain type puts back exactly that subscription. */
  lemma AttachSingle(key: string, fn: Callback)
    requires RemoveOn(key) == key
    ensures AttachAll(Empty, Single(key, fn), [key]) == Single(key, fn)
  {
    var local := Single(key, fn);
    assert [key][..0] == [] && [fn][..0] == [];
    assert AttachAll(Empty, local, [key]) == AddEach(Empty, key, [fn]);
    assert AddEach(Empty, key, [fn]) == Add(Empty, key, fn);
    AddSingle(key, fn);
  }

  /** Detaching a unit with one subscription under a plain type empties that type's bus list. */
  lemma DetachSingle(key: string, fn: Callback)
    requires RemoveOn(key) == key
    ensures Listeners(DetachAll(Single(key, fn), Single(key, fn), [key]), key) == []
  {
    var t := Single(key, fn);
    assert [key][..0] == [] && [fn][..0] == [];
    assert DetachAll(t, t, [key]) == RemoveEach(t, key, [fn]);
    assert RemoveEach(t, key, [fn]) == Remove(t, key, fn);
  }

  /** A destroyed unit has nothing left to put back: after attaching again, a publish reaches nobody. */
  method DestroyedStaysOff(key: string, fn: Callback) returns (delivered: seq<Delivery>)
    requires Plain(key)
    ensures delivered == []
  {
    var bus, unit := Subscribed(key, fn);
    DetachSingle(key, fn);
    unit.DestroyUnit();
    unit.AttachUnit();
    PlainPublishType(key);
    unit.Publish(key, [], false);
    delivered := bus.trace;
  }

  /** A unit's table after subscribing and unsubscribing the same callback: the type stays, with no callbacks. */
  lemma UnsubscribeSingle(key: string, fn: Callback)
    requires RemoveOn(key) == key
    ensures Remove(Single(key, fn), key, fn) == Table([key], map[key := []])
  {
    assert Erase([fn], fn) == [];
  }

  /** Detaching or attaching a unit whose only type has no callbacks changes nothing. */
  lemma EmptyTypeWalk(t: Table, key: string)
    ensures DetachAll(t, Table([key], map[key := []]), [key]) == t
    ensures AttachAll(t, Table([key], map[key := []]), [key]) == t
  {
    assert [key][..0] == [];
  }

  /**
   * Detach, subscribe, unsubscribe, attach, publish: with the collapsed
   * local table the unit puts nothing back and the publish calls nobody.
   */
  method UnsubscribedReattached(key: string, fn: Callback) returns (delivered: seq<Delivery>)
    requires Plain(key)
    ensures delivered == []
  {
    var bus, unit := DetachedSubscribed(key, fn);
    UnsubscribeSingle(key, fn);
    unit.Unsubscribe(key, fn);
    assert Listeners(bus.events, key) == [];
    EmptyTypeWalk(bus.events, key);
    unit.AttachUnit();
    PlainPublishType(key);
    unit.Publish(key, [], false);
    delivered := bus.trace;
  }

  /** A fresh unit, detached at once. */
  method DetachedUnit() returns (bus: Dispatcher, unit: Unit)
    ensures fresh(bus) && fresh(unit) && unit.bus == bus && unit.Valid() && !unit.attached
    ensures unit.prefix == "" && unit.handlers == Empty
    ensures bus.events == Empty && bus.trace == [] && bus.finished == map[]
  {
    bus, unit := FreshUnit();
    assert DetachAll(Empty, Empty, []) == Empty;
    unit.DetachUnit();
  }

  /** A fresh unit that was detached and then subscribed `fn` to `key`. */
  method DetachedSubscribed(key: string, fn: Callback) returns (bus: Dispatcher, unit: Unit)
    requires Plain(key)
    ensures fresh(bus) && fresh(unit) && unit.bus == bus && unit.Valid() && !unit.attached
    ensures unit.prefix == "" && unit.handlers == Single(key, fn)
    ensures bus.events == Empty && bus.trace == []
  {
    bus, unit := DetachedUnit();
    assert Unbanged(key) == key;
    assert key !in bus.finished;
    unit.Subscribe(key, fn, false);
    assert unit.handlers == Add(Empty, key, fn);
    AddSingle(key, fn);
  }

  /** A unit that subscribed while detached and was then reattached, on a fresh bus. */
  method Reattached(key: string, fn: Callback) returns (bus: Dispatcher, unit: Unit)
    requires Plain(key)
    ensures fresh(bus) && fresh(unit) && unit.bus == bus && unit.Valid() && unit.attached
    ensures unit.prefix == "" && bus.events == Single(key, fn) && bus.trace == []
  {
    bus, unit := DetachedSubscribed(key, fn);
    AttachSingle(key, fn);
    unit.AttachUnit();
  }

  /** A subscription made while detached is delivered, once per publish, after reattaching. */
  method ReattachedReceives(key: string, fn: Callback) returns (delivered: seq<Delivery>)
    requires Plain(key)
    ensures delivered == [Delivery(fn, []), Delivery(fn, [])]
  {
    var bus, unit := Reattached(key, fn);
    PlainPublishType(key);
    unit.Publish(key, [], false);
    assert bus.trace == [Delivery(fn, [])];
    unit.Publish(key, [], false);
    delivered := bus.trace;
  }

  /** A unit's prefix is put in front of the types it publishes. */
  method PrefixedPublish(prefix: string, key: string, fn: Callback, args: seq<Value>)
    returns (delivered: seq<Delivery>)
    requires prefix != "" && !Forced(key) && Plain(prefix + "." + key)
    ensures delivered == [Delivery(fn, args)]
  {
    var bus, a := Subscribed(prefix + "." + key, fn);
    var b := new Unit(bus);
    b.SetupUnit(Descriptor(Some(prefix), None, None, None));
    assert bus.trace == [];
    assert RemoveOn(PublishType(prefix, key)) == prefix + "." + key;
    b.Publish(key, args, false);
    delivered := bus.trace;
  }

  /** The prefix given in the descriptor, then the one set later. */
  method PrefixChanges(p: string, q: string) returns (first: string, second: string)
    requires p != ""
    ensures first == p && second == q
  {
    var bus, unit := FreshUnit();
    unit.SetupUnit(Descriptor(Some(p), None, None, None));
    first := unit.GetPrefix();
    unit.SetPrefix(q);
    second := unit.GetPrefix();
  }

  /** `initSetup` is called at once, and only once, with no arguments. */
  method InitSetupRuns(fn: Callback) returns (delivered: seq<Delivery>)
    ensures delivered == [Delivery(fn, [])]
  {
    var bus, unit := FreshUnit();
    unit.SetupUnit(Descriptor(None, Some(fn), None, None));
    delivered := bus.trace;
  }

  /** A fresh bus on which the page's two lifecycle events were published as finished, then flushed. */
  method PageLoaded(ready: seq<Value>, load: seq<Value>) returns (bus: Dispatcher)
    ensures fresh(bus) && bus.Valid() && bus.trace == []
    ensures bus.finished == map[DomReady := ready, Load := load]
  {
    bus := new Dispatcher();
    assert RemoveOn(DomReady) == DomReady && RemoveOn(Load) == Load;
    bus.FireEvent(DomReady, ready, true);
    bus.FireEvent(Load, load, true);
    assert bus.trace == [];
    bus.Flush();
  }

  /**
   * Once the page finished loading, a flush keeps the two lifecycle records,
   * so a unit set up afterwards with the same function as `readySetup` and
   * `loadSetup` has it called twice at once.
   */
  method LifecycleSetupRuns(fn: Callback, ready: seq<Value>, load: seq<Value>) returns (delivered: seq<Delivery>)
    ensures delivered == [Delivery(fn, ready), Delivery(fn, load)]
  {
    var bus := PageLoaded(ready, load);
    var unit := new Unit(bus);
    unit.SetupUnit(Descriptor(None, None, Some(fn), Some(fn)));
    delivered := bus.trace;
  }

  /** A host with (or without) a `fireEvent` of its own, decorated on `bus`. */
  method DecoratedHost(bus: Dispatcher, hasFireEvent: bool, nowrap: bool) returns (host: Host)
    requires bus.Valid()
    ensures fresh(host) && host.Valid() && host.nativeFired == []
    ensures host.unit != null && fresh(host.unit) && host.unit.bus == bus
    ensures host.unit.attached && host.unit.prefix == ""
    ensures "publish" in host.members && host.members["publish"] == Trampoline("publish")
    ensures host.fire == if !hasFireEvent then NoFireEvent else if nowrap then Native else Wrapped
  {
    host := new Host(map[], hasFireEvent);
    host.Decorate(bus, nowrap);
    assert "publish" in UnitMethods;
  }

  /** A decorated host counts as a unit; after undecorating it does not, and its methods are as before. */
  method DecorateUndecorate() returns (decorated: bool, undecorated: bool, members: map<string, Member>)
    ensures decorated && !undecorated && members == map[]
  {
    var bus := new Dispatcher();
    var host := new Host(map[], false);
    host.Decorate(bus, false);
    decorated := host.IsUnit();
    host.Undecorate();
    undecorated := host.IsUnit();
    UninstallInstalled(map[], UnitMethods);
    members := host.members;
  }

  /**
   * A host decorated without wrapping, then wrapped: its `fireEvent` is
   * replaced, still calls the original, and unwrapping restores it.
   */
  method WrapCallUnwrap(key: string, args: seq<Value>)
    returns (wrapped: FireState, ok: bool, fired: seq<(string, seq<Value>)>, unwrapped: FireState)
    ensures wrapped == Wrapped && ok && fired == [(key, args)] && unwrapped == Native
  {
    var bus := new Dispatcher();
    var host := DecoratedHost(bus, true, true);
    host.WrapEvents();
    wrapped := host.fire;
    ok := host.FireEvent(key, args);
    fired := host.nativeFired;
    host.UnwrapEvents();
    unwrapped := host.fire;
  }

  /** A bus with one subscription, and a host with a `fireEvent` of its own decorated and wrapped on it. */
  method WrappedHost(key: string, fn: Callback) returns (bus: Dispatcher, host: Host)
    requires Plain(key)
    ensures fresh(bus) && host.Valid() && host.Mirrors() && host.nativeFired == []
    ensures host.unit.bus == bus && host.unit.attached && host.unit.prefix == ""
    ensures bus.events == Single(key, fn) && bus.trace == []
  {
    var listener;
    bus, listener := Subscribed(key, fn);
    host := DecoratedHost(bus, true, false);
  }

  /** A wrapped host's own `fireEvent` also publishes the event on the bus, before the original runs. */
  method HostEventsReachBus(key: string, fn: Callback, args: seq<Value>)
    returns (ok: bool, delivered: seq<Delivery>, fired: seq<(string, seq<Value>)>)
    requires Plain(key)
    ensures ok && delivered == [Delivery(fn, args)] && fired == [(key, args)]
  {
    var bus, host := WrappedHost(key, fn);
    ok := FireWrapped(bus, host, key, fn, args);
    delivered := bus.trace;
    fired := host.nativeFired;
  }

  /** The `fireEvent` call of a host that `WrappedHost` set up. */
  method FireWrapped(bus: Dispatcher, host: Host, key: string, fn: Callback, args: seq<Value>) returns (ok: bool)
    requires Plain(key) && host.Valid() && host.Mirrors() && host.nativeFired == []
    requires host.unit.bus == bus && host.unit.attached && host.unit.prefix == ""
    requires bus.events == Single(key, fn) && bus.trace == []
    modifies host`nativeFired, bus
    ensures ok && bus.trace == [Delivery(fn, args)] && host.nativeFired == [(key, args)]
  {
    ghost var unit := host.unit;
    PlainPublishType(key);
    assert RemoveOn(PublishType(unit.prefix, key)) == key;
    assert Deliveries(Listeners(bus.events, key), args) == [Delivery(fn, args)];
    ok := host.FireEvent(key, args);
    assert unit.bus.events == Single(key, fn);
  }
}
