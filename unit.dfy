/**
 * A Unit: a component that subscribes and publishes through the dispatcher,
 * keeps its own table of the subscriptions it made, carries a prefix for the
 * types it publishes, and can be detached from and re-attached to the bus.
 */
module Units {
  import opened Values
  import opened EventNames
  import opened Events
  import opened Bus

  /** A leading `!` on a type given to `subscribe` or `publish`. */
  predicate Forced(key: string) {
    |key| > 0 && key[0] == '!'
  }

  /** The type with a leading `!` removed. */
  function Unbanged(key: string): (r: string)
    ensures Forced(key) ==> |r| == |key| - 1 && key == "!" + r
    ensures !Forced(key) ==> r == key
  {
    if Forced(key) then key[1..] else key
  }

  /** The type `publish` hands to the bus: `!` skips the prefix, otherwise a non-empty prefix is joined with a dot. */
  function PublishType(prefix: string, key: string): (r: string)
    ensures Forced(key) ==> r == Unbanged(key)
    ensures !Forced(key) && prefix == "" ==> r == key
    ensures !Forced(key) && prefix != "" ==>
      && |r| == |prefix| + 1 + |key|
      && r[..|prefix|] == prefix && r[|prefix|] == '.' && r[|prefix| + 1..] == key
  {
    if Forced(key) then key[1..]
    else if prefix != "" then prefix + "." + key
    else key
  }

  /** A leading `!` removes itself and bypasses whatever prefix the unit has. */
  lemma BangBypassesPrefix(p: string, q: string, key: string)
    requires Forced(key)
    ensures PublishType(p, key) == PublishType(q, key) == Unbanged(key)
  {
  }

  /**
   * A unit with prefix `p` publishing `key` is seen on the bus as an
   * unprefixed unit publishing `p.key`, exactly when `p` does not itself start
   * with `!` (which the unprefixed publish would strip).
   */
  lemma PrefixTransparency(p: string, key: string)
    requires p != "" && !Forced(key)
    ensures PublishType(p, key) == PublishType("", p + "." + key) <==> !Forced(p)
  {
    var joined := p + "." + key;
    assert joined[0] == p[0];
    if Forced(p) {
      assert |PublishType("", joined)| == |joined| - 1;
    }
  }

  /** The descriptor keys that `setupUnit` acts on. */
  datatype Descriptor = Descriptor(
    prefix: Option<string>,
    initSetup: Option<Callback>,
    readySetup: Option<Callback>,
    loadSetup: Option<Callback>)

  /**
   * The subscriber table after `detachUnit` walked the local table: for each
   * local key in order, each of its callbacks removed from the end.
   */
  function DetachAll(events: Table, local: Table, keys: seq<string>): (r: Table)
    ensures r.order == events.order && r.lists.Keys == events.lists.Keys
    decreases |keys|
  {
    if keys == [] then events
    else
      var k := keys[|keys| - 1];
      RemoveEach(DetachAll(events, local, keys[..|keys| - 1]), k, Listeners(local, k))
  }

  /** The subscriber table after `attachUnit` walked the local table the same way. */
  function AttachAll(events: Table, local: Table, keys: seq<string>): (r: Table)
    ensures events.order <= r.order
    ensures keys == [] ==> r == events
    decreases |keys|
  {
    if keys == [] then events
    else
      var k := keys[|keys| - 1];
      AddEach(AttachAll(events, local, keys[..|keys| - 1]), k, Listeners(local, k))
  }

  /** One iteration of the loops of `detachUnit` and `attachUnit`. */
  lemma DetachStep(events: Table, local: Table, keys: seq<string>, i: nat)
    requires i < |keys|
    ensures DetachAll(events, local, keys[..i + 1])
         == RemoveEach(DetachAll(events, local, keys[..i]), keys[i], Listeners(local, keys[i]))
    ensures AttachAll(events, local, keys[..i + 1])
         == AddEach(AttachAll(events, local, keys[..i]), keys[i], Listeners(local, keys[i]))
  {
    assert keys[..i + 1][..i] == keys[..i];
  }

  lemma {:induction false} AttachAllWellFormed(events: Table, local: Table, keys: seq<string>)
    requires WellFormed(events)
    ensures WellFormed(AttachAll(events, local, keys))
    decreases |keys|
  {
    if keys != [] {
      var k := keys[|keys| - 1];
      AttachAllWellFormed(events, local, keys[..|keys| - 1]);
      AddEachWellFormed(AttachAll(events, local, keys[..|keys| - 1]), k, Listeners(local, k));
    }
  }

  /** The local key `key`, normalised, names bus type `j` and records `x`. */
  predicate RecordsUnder(local: Table, key: string, j: string, x: Callback) {
    RemoveOn(key) == j && x in Listeners(local, key)
  }

  /** Some local key among `keys`, normalised, names bus type `j` and records `x`. */
  predicate Recorded(local: Table, keys: seq<string>, j: string, x: Callback) {
    exists k :: k in keys && RecordsUnder(local, k, j, x)
  }

  lemma RecordedSnoc(local: Table, keys: seq<string>, j: string, x: Callback)
    requires keys != []
    ensures Recorded(local, keys, j, x)
        <==> (|| Recorded(local, keys[..|keys| - 1], j, x)
              || RecordsUnder(local, keys[|keys| - 1], j, x))
  {
    assert keys == keys[..|keys| - 1] + [keys[|keys| - 1]];
  }

  /** Detaching takes off the bus exactly the pairs the unit recorded, under the re-normalised type. */
  lemma {:induction false} DetachAllMembers(events: Table, local: Table, keys: seq<string>, j: string, x: Callback)
    ensures x in Listeners(DetachAll(events, local, keys), j)
        <==> x in Listeners(events, j) && !Recorded(local, keys, j, x)
    decreases |keys|
  {
    if keys != [] {
      var init := keys[..|keys| - 1];
      var k := keys[|keys| - 1];
      DetachAllMembers(events, local, init, j, x);
      RemoveEachMembers(DetachAll(events, local, init), k, Listeners(local, k), j, x);
      RecordedSnoc(local, keys, j, x);
    }
  }

  /** Attaching puts on the bus exactly the pairs the unit recorded, keeping what was there. */
  lemma {:induction false} AttachAllMembers(events: Table, local: Table, keys: seq<string>, j: string, x: Callback)
    ensures x in Listeners(AttachAll(events, local, keys), j)
        <==> x in Listeners(events, j) || Recorded(local, keys, j, x)
    decreases |keys|
  {
    if keys != [] {
      var init := keys[..|keys| - 1];
      var k := keys[|keys| - 1];
      AttachAllMembers(events, local, init, j, x);
      AddEachMembers(AttachAll(events, local, init), k, Listeners(local, k), j, x);
      RecordedSnoc(local, keys, j, x);
    }
  }

  /**
   * A detach followed by an attach restores the subscription set of every
   * bus type, provided every recorded pair was on the bus to begin with.
   */
  lemma DetachAttachRoundTrip(events: Table, local: Table, j: string, x: Callback)
    requires forall y :: Recorded(local, local.order, j, y) ==> y in Listeners(events, j)
    ensures x in Listeners(AttachAll(DetachAll(events, local, local.order), local, local.order), j)
        <==> x in Listeners(events, j)
  {
    AttachAllMembers(DetachAll(events, local, local.order), local, local.order, j, x);
    DetachAllMembers(events, local, local.order, j, x);
  }

  /**
   * A callback the unit recorded under a key that `removeOn` leaves alone is
   * off the bus list of that key after a detach, so a publish of that key
   * does not reach it.
   */
  lemma DetachedMissesPublish(events: Table, local: Table, k: string, x: Callback, args: seq<Value>)
    requires k in local.order && RemoveOn(k) == k && x in Listeners(local, k)
    ensures CallCount(Deliveries(Listeners(DetachAll(events, local, local.order), RemoveOn(k)), args), x) == 0
  {
    assert Recorded(local, local.order, k, x);
    var fns := Listeners(DetachAll(events, local, local.order), k);
    DetachAllMembers(events, local, local.order, k, x);
    DeliveriesCount(fns, args, x);
  }

  /** After an attach, a recorded callback is back under its type and the next publish reaches it once. */
  lemma AttachedReceivesPublish(events: Table, local: Table, k: string, x: Callback, args: seq<Value>)
    requires WellFormed(events)
    requires k in local.order && x in Listeners(local, k)
    ensures CallCount(Deliveries(Listeners(AttachAll(events, local, local.order), RemoveOn(k)), args), x) == 1
  {
    assert Recorded(local, local.order, RemoveOn(k), x);
    var r := AttachAll(events, local, local.order);
    AttachAllWellFormed(events, local, local.order);
    AttachAllMembers(events, local, local.order, RemoveOn(k), x);
    assert Distinct(Listeners(r, RemoveOn(k)));
    DeliveredOnce(Listeners(r, RemoveOn(k)), args, x);
  }

  class Unit {
    const bus: Dispatcher
    /** `$unitAttached`. */
    var attached: bool
    /** `$unitHandlers`: the subscriptions this unit made, by normalised type. */
    var handlers: Table
    /** `$unitPrefix`. */
    var prefix: string

    ghost predicate Valid()
      reads this, bus
    {
      WellFormed(handlers) && bus.Valid()
    }

    /** `new Unit` without a descriptor. */
    constructor (bus: Dispatcher)
      requires bus.Valid()
      ensures Valid() && this.bus == bus
      ensures attached && handlers == Empty && prefix == ""
    {
      this.bus := bus;
      attached := true;
      handlers := Empty;
      prefix := "";
    }

    /** `getPrefix()`. */
    function GetPrefix(): (r: string)
      reads this
      ensures r == prefix
    {
      prefix
    }

    /** `setPrefix(str)`. */
    method SetPrefix(s: string)
      modifies this`prefix
      ensures prefix == s
    {
      prefix := s;
    }

    /** `isAttached()`. */
    function IsAttached(): (r: bool)
      reads this
      ensures r == attached
    {
      attached
    }

    /** `detachUnit()`: a no-op when already detached. */
    method DetachUnit()
      requires Valid()
      modifies this`attached, bus`events
      ensures Valid() && !attached
      ensures bus.events == if old(attached) then DetachAll(old(bus.events), handlers, handlers.order)
                            else old(bus.events)
    {
      if !attached {
        return;
      }
      var keys := handlers.order;
      var i := 0;
      while i < |keys|
        invariant 0 <= i <= |keys|
        invariant Valid()
        invariant bus.events == DetachAll(old(bus.events), handlers, keys[..i])
        modifies bus`events
      {
        DetachStep(old(bus.events), handlers, keys, i);
        bus.RemoveEach(keys[i], Listeners(handlers, keys[i]));
        i := i + 1;
      }
      assert keys[..i] == keys;
      attached := false;
    }

    /** The `while (len--) addEvent(...)` loop of `attachUnit` for one key. */
    method AttachKey(key: string, fns: seq<Callback>)
      requires Valid()
      modifies bus`events
      ensures Valid()
      ensures bus.events == AddEach(old(bus.events), key, fns)
    {
      var j := |fns|;
      assert fns[..j] == fns;
      while j > 0
        invariant 0 <= j <= |fns|
        invariant Valid()
        invariant AddEach(bus.events, key, fns[..j]) == AddEach(old(bus.events), key, fns)
      {
        EachStep(bus.events, key, fns, j);
        j := j - 1;
        bus.AddEvent(key, fns[j]);
      }
    }

    /** `attachUnit()`: a no-op when already attached. */
    method AttachUnit()
      requires Valid()
      modifies this`attached, bus`events
      ensures Valid() && attached
      ensures bus.events == if !old(attached) then AttachAll(old(bus.events), handlers, handlers.order)
                            else old(bus.events)
    {
      if attached {
        return;
      }
      var keys := handlers.order;
      var i := 0;
      while i < |keys|
        invariant 0 <= i <= |keys|
        invariant Valid()
        invariant bus.events == AttachAll(old(bus.events), handlers, keys[..i])
        modifies bus`events
      {
        DetachStep(old(bus.events), handlers, keys, i);
        AttachKey(keys[i], Listeners(handlers, keys[i]));
        i := i + 1;
      }
      assert keys[..i] == keys;
      attached := true;
    }

    /** `destroyUnit()`: detach, then forget every local subscription. */
    method DestroyUnit()
      requires Valid()
      modifies this`attached, this`handlers, bus`events
      ensures Valid() && !attached && handlers == Empty
      ensures bus.events == if old(attached) then DetachAll(old(bus.events), old(handlers), old(handlers).order)
                            else old(bus.events)
    {
      DetachUnit();
      handlers := Empty;
    }

    /**
     * `subscribe(key, fn, replay)` with a string key. A leading `!` is removed
     * and turns replay on. A finished record under the key as given is
     * redelivered and then nothing is registered; otherwise the callback is
     * recorded locally and, when attached, added to the bus and replayed once
     * if replay is on.
     */
    method Subscribe(key: string, fn: Callback, replay: bool)
      requires Valid()
      modifies this`handlers, bus`events, bus`trace
      ensures Valid()
      ensures Unbanged(key) in bus.finished ==>
        && handlers == old(handlers)
        && bus.events == old(bus.events)
        && bus.trace == old(bus.trace) + [Delivery(fn, bus.finished[Unbanged(key)])]
      ensures Unbanged(key) !in bus.finished ==>
        && handlers == Add(old(handlers), Unbanged(key), fn)
        && bus.events == (if attached then Add(old(bus.events), Unbanged(key), fn) else old(bus.events))
        && bus.trace == if attached && (replay || Forced(key)) && Unbanged(key) in bus.dispatched
                        then old(bus.trace) + [Delivery(fn, bus.dispatched[Unbanged(key)])]
                        else old(bus.trace)
    {
      var k := key;
      var r := replay;
      if Forced(key) {
        r := true;
        k := key[1..];
      }
      assert k == Unbanged(key) && r == (replay || Forced(key));
      var done := bus.Redispatch(k, fn);
      if !done {
        Register(k, fn, r);
      }
    }

    /** The part of `subscribe` that runs when there is no finished record. */
    method Register(k: string, fn: Callback, replay: bool)
      requires Valid()
      modifies this`handlers, bus`events, bus`trace
      ensures Valid()
      ensures handlers == Add(old(handlers), k, fn)
      ensures bus.events == (if attached then Add(old(bus.events), k, fn) else old(bus.events))
      ensures bus.trace == if attached && replay && k in bus.dispatched
                           then old(bus.trace) + [Delivery(fn, bus.dispatched[k])]
                           else old(bus.trace)
    {
      AddWellFormed(handlers, k, fn);
      handlers := Add(handlers, k, fn);
      if attached {
        bus.AddEvent(k, fn);
        if replay {
          var _ := bus.Replay(k, fn);
        }
      }
    }

    /** `unsubscribe(key, fn)` with a string key: off the bus and out of the local table. */
    method Unsubscribe(key: string, fn: Callback)
      requires Valid()
      modifies this`handlers, bus`events
      ensures Valid()
      ensures bus.events == Remove(old(bus.events), key, fn)
      ensures handlers == Remove(old(handlers), key, fn)
    {
      bus.RemoveEvent(key, fn);
      RemoveWellFormed(handlers, key, fn);
      handlers := Remove(handlers, key, fn);
    }

    /**
     * `publish(type, args, finish)`: forwards `PublishType(prefix, type)` to
     * `fireEvent` when attached; a detached unit leaves the bus untouched.
     */
    method Publish(key: string, args: seq<Value>, finish: bool)
      modifies bus`dispatched, bus`finished, bus`trace
      ensures var k := RemoveOn(PublishType(prefix, key));
        if attached then
          && bus.dispatched == old(bus.dispatched)[k := args]
          && bus.finished == (if finish then old(bus.finished)[k := args] else old(bus.finished))
          && bus.trace == old(bus.trace) + Deliveries(Listeners(bus.events, k), args)
        else
          && bus.dispatched == old(bus.dispatched)
          && bus.finished == old(bus.finished)
          && bus.trace == old(bus.trace)
    {
      var t := key;
      if Forced(key) {
        t := key[1..];
      } else if prefix != "" {
        t := prefix + "." + key;
      }
      if attached {
        bus.FireEvent(t, args, finish);
      }
    }

    /**
     * One `subscribe` of a lifecycle hook, if there is one: the hook is
     * redelivered when the type is finished, and otherwise recorded for it.
     */
    method SubscribeHook(key: string, hook: Option<Callback>)
      requires Valid() && !Forced(key)
      modifies this`handlers, bus`events, bus`trace
      ensures Valid()
      ensures bus.trace == old(bus.trace) + HookDeliveries(hook, key, bus.finished)
      ensures handlers == HookTable(old(handlers), hook, key, bus.finished)
      ensures bus.events == if attached then HookTable(old(bus.events), hook, key, bus.finished) else old(bus.events)
    {
      if hook.Some? {
        Subscribe(key, hook.value, false);
      }
    }

    /**
     * `setupUnit()` for the descriptor keys it acts on: a non-empty `Prefix`
     * is set; `initSetup` is dispatched once through the bus (its wrapper
     * passes no arguments); `readySetup` and `loadSetup` are subscribed to the
     * two lifecycle types.
     */
    method SetupUnit(desc: Descriptor)
      requires Valid()
      modifies this`prefix, this`handlers, bus`events, bus`trace
      ensures Valid()
      ensures prefix == if desc.prefix.Some? && desc.prefix.value != "" then desc.prefix.value else old(prefix)
      ensures bus.trace == old(bus.trace)
        + (if desc.initSetup.Some? then [Delivery(desc.initSetup.value, [])] else [])
        + HookDeliveries(desc.readySetup, DomReady, bus.finished)
        + HookDeliveries(desc.loadSetup, Load, bus.finished)
      ensures handlers == SetupTable(old(handlers), desc, bus.finished)
      ensures bus.events == if attached then SetupTable(old(bus.events), desc, bus.finished) else old(bus.events)
    {
      if desc.prefix.Some? && desc.prefix.value != "" {
        SetPrefix(desc.prefix.value);
      }
      if desc.initSetup.Some? {
        bus.Dispatch(desc.initSetup.value, []);
      }
      SubscribeHook(DomReady, desc.readySetup);
      SubscribeHook(Load, desc.loadSetup);
    }
  }

  /** What subscribing a lifecycle hook delivers at once: the finished record of its type, if any. */
  function HookDeliveries(hook: Option<Callback>, key: string, finished: map<string, seq<Value>>): (r: seq<Delivery>)
    ensures r != [] <==> hook.Some? && key in finished
    ensures r != [] ==> r == [Delivery(hook.value, finished[key])]
  {
    if hook.Some? && key in finished then [Delivery(hook.value, finished[key])] else []
  }

  /** A table after subscribing a lifecycle hook: the hook is added only when its type is not finished. */
  function HookTable(t: Table, hook: Option<Callback>, key: string, finished: map<string, seq<Value>>): Table {
    if hook.Some? && key !in finished then Add(t, key, hook.value) else t
  }

  /** A table after both lifecycle hooks of `desc` were subscribed. */
  function SetupTable(t: Table, desc: Descriptor, finished: map<string, seq<Value>>): Table {
    HookTable(HookTable(t, desc.readySetup, DomReady, finished), desc.loadSetup, Load, finished)
  }

  /**
   * Each lifecycle hook of a descriptor is either called at once with its
   * type's finished record, or waits in the table under that type; no other
   * type's list changes.
   */
  lemma SetupTableHooks(t: Table, desc: Descriptor, finished: map<string, seq<Value>>)
    ensures desc.readySetup.Some? && DomReady !in finished ==>
      desc.readySetup.value in Listeners(SetupTable(t, desc, finished), DomReady)
    ensures desc.loadSetup.Some? && Load !in finished ==>
      desc.loadSetup.value in Listeners(SetupTable(t, desc, finished), Load)
    ensures forall k :: k != DomReady && k != Load ==> Listeners(SetupTable(t, desc, finished), k) == Listeners(t, k)
  {
    assert RemoveOn(DomReady) == DomReady;
    assert RemoveOn(Load) == Load;
  }
}
