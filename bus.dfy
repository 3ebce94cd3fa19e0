/**
 * The process-wide dispatcher: the subscriber table, the records of the last
 * publish of each type ("dispatched") and of the last finishing publish of
 * each type ("finished"), and the immediate `dispatch` primitive, modelled as
 * an append to a trace of deliveries.
 */
module Bus {
  import opened Values
  import opened EventNames
  import opened Events

  /** The two lifecycle types whose records survive a flush. */
  const DomReady: string := "window.domready"
  const Load: string := "window.load"

  /** One delivery per callback of the list, in list order, all with the same arguments. */
  function Deliveries(fns: seq<Callback>, args: seq<Value>): (r: seq<Delivery>)
    ensures |r| == |fns|
    ensures forall i :: 0 <= i < |r| ==> r[i] == Delivery(fns[i], args)
  {
    if fns == [] then [] else [Delivery(fns[0], args)] + Deliveries(fns[1..], args)
  }

  lemma DeliveriesSnoc(fns: seq<Callback>, i: nat, args: seq<Value>)
    requires i < |fns|
    ensures Deliveries(fns[..i + 1], args) == Deliveries(fns[..i], args) + [Delivery(fns[i], args)]
  {
  }

  /** The number of deliveries made to `fn`. */
  function CallCount(ds: seq<Delivery>, fn: Callback): (n: nat)
    ensures n <= |ds|
  {
    if ds == [] then 0 else (if ds[0].fn == fn then 1 else 0) + CallCount(ds[1..], fn)
  }

  lemma {:induction false} CallCountAppend(a: seq<Delivery>, b: seq<Delivery>, fn: Callback)
    ensures CallCount(a + b, fn) == CallCount(a, fn) + CallCount(b, fn)
  {
    if a != [] {
      assert (a + b)[1..] == a[1..] + b;
      CallCountAppend(a[1..], b, fn);
    } else {
      assert a + b == b;
    }
  }

  /** A publish calls each callback as often as it occurs in the list. */
  lemma {:induction false} DeliveriesCount(fns: seq<Callback>, args: seq<Value>, fn: Callback)
    ensures CallCount(Deliveries(fns, args), fn) == Count(fns, fn)
  {
    if fns != [] {
      assert Deliveries(fns, args)[1..] == Deliveries(fns[1..], args);
      DeliveriesCount(fns[1..], args, fn);
    }
  }

  /** With a list free of repetitions, every subscriber is called exactly once and nobody else is. */
  lemma DeliveredOnce(fns: seq<Callback>, args: seq<Value>, fn: Callback)
    requires Distinct(fns)
    ensures CallCount(Deliveries(fns, args), fn) == if fn in fns then 1 else 0
  {
    DeliveriesCount(fns, args, fn);
    CountDistinct(fns, fn);
  }

  /** Over several publishes of the same list, a subscriber is called once per publish. */
  lemma DeliveredOncePerPublish(fns: seq<Callback>, a1: seq<Value>, a2: seq<Value>, fn: Callback)
    requires Distinct(fns) && fn in fns
    ensures CallCount(Deliveries(fns, a1) + Deliveries(fns, a2), fn) == 2
  {
    CallCountAppend(Deliveries(fns, a1), Deliveries(fns, a2), fn);
    DeliveredOnce(fns, a1, fn);
    DeliveredOnce(fns, a2, fn);
  }

  /** The records a flush keeps: those of the two lifecycle types. */
  function KeepReserved(m: map<string, seq<Value>>): (r: map<string, seq<Value>>)
    ensures r.Keys == m.Keys * {DomReady, Load}
    ensures forall k :: k in r ==> r[k] == m[k]
  {
    map k | k in m && (k == DomReady || k == Load) :: m[k]
  }

  /** Whether `removeEvents(filter)` visits the stored key; an empty filter stands for none. */
  predicate Selects(filter: string, key: string)
    ensures filter == "" ==> Selects(filter, key)
    ensures filter != "" ==> (Selects(filter, key) <==> key == RemoveOn(filter))
  {
    filter == "" || RemoveOn(filter) == key
  }

  /** The subscriber table after `removeEvents(filter)` has visited `keys` in order. */
  function ClearKeys(t: Table, keys: seq<string>, filter: string): (r: Table)
    ensures r.order == t.order && r.lists.Keys == t.lists.Keys
    decreases |keys|
  {
    if keys == [] then t
    else
      var before := ClearKeys(t, keys[..|keys| - 1], filter);
      var k := keys[|keys| - 1];
      if Selects(filter, k) then RemoveEach(before, k, Listeners(before, k)) else before
  }

  /** One iteration of the outer loop of `removeEvents`. */
  lemma ClearStep(t: Table, keys: seq<string>, filter: string, i: nat)
    requires i < |keys|
    ensures ClearKeys(t, keys[..i + 1], filter)
         == var before := ClearKeys(t, keys[..i], filter);
            if Selects(filter, keys[i]) then RemoveEach(before, keys[i], Listeners(before, keys[i])) else before
  {
    assert keys[..i + 1][..i] == keys[..i];
  }

  /**
   * When every visited key is a fixed point of `removeOn`, `removeEvents`
   * empties exactly the selected lists and leaves every other list as it was.
   */
  lemma {:induction false} ClearKeysStable(t: Table, keys: seq<string>, filter: string, k: string)
    requires Distinct(keys)
    requires forall i :: 0 <= i < |keys| ==> RemoveOn(keys[i]) == keys[i]
    ensures Listeners(ClearKeys(t, keys, filter), k)
         == if k in keys && Selects(filter, k) then [] else Listeners(t, k)
    decreases |keys|
  {
    if keys != [] {
      var init := keys[..|keys| - 1];
      var last := keys[|keys| - 1];
      assert Distinct(init);
      assert forall i :: 0 <= i < |init| ==> RemoveOn(init[i]) == init[i] by {
        assert forall i :: 0 <= i < |init| ==> init[i] == keys[i];
      }
      ClearKeysStable(t, init, filter, k);
      ClearKeysStable(t, init, filter, last);
      var before := ClearKeys(t, init, filter);
      assert last !in init;
      assert keys == init + [last];
      if Selects(filter, last) {
        assert RemoveOn(last) == last;
        RemoveEachOwnList(before, last);
        if k != last {
          RemoveEachOther(before, last, Listeners(before, last), k);
        }
      }
    }
  }

  lemma {:induction false} RemoveEachOther(t: Table, key: string, fns: seq<Callback>, k: string)
    requires k != RemoveOn(key)
    ensures Listeners(RemoveEach(t, key, fns), k) == Listeners(t, k)
    decreases |fns|
  {
    if fns != [] {
      RemoveEachOther(Remove(t, key, fns[|fns| - 1]), key, fns[..|fns| - 1], k);
    }
  }

  /** The subscriber table after the mapping form of `removeEvents`, one `removeEvent` per pair. */
  function RemovePairs(t: Table, pairs: seq<(string, Callback)>): (r: Table)
    ensures r.order == t.order && r.lists.Keys == t.lists.Keys
    decreases |pairs|
  {
    if pairs == [] then t
    else
      var (key, fn) := pairs[|pairs| - 1];
      Remove(RemovePairs(t, pairs[..|pairs| - 1]), key, fn)
  }

  /** After the mapping form, no named callback is left under its normalised type. */
  lemma {:induction false} RemovePairsRemoves(t: Table, pairs: seq<(string, Callback)>, i: nat)
    requires i < |pairs|
    ensures pairs[i].1 !in Listeners(RemovePairs(t, pairs), RemoveOn(pairs[i].0))
    decreases |pairs|
  {
    var init := pairs[..|pairs| - 1];
    var last := pairs[|pairs| - 1];
    if i < |pairs| - 1 {
      RemovePairsRemoves(t, init, i);
      assert init[i] == pairs[i];
      var before := RemovePairs(t, init);
      var k := RemoveOn(pairs[i].0);
      assert pairs[i].1 !in Listeners(before, k);
      assert pairs[i].1 !in Listeners(Remove(before, last.0, last.1), k);
    }
  }

  class Dispatcher {
    /** The subscriber table `$events`. */
    var events: Table
    /** `$dispatched`: the arguments of the last publish of each type. */
    var dispatched: map<string, seq<Value>>
    /** `$finished`: the arguments of the last finishing publish of each type. */
    var finished: map<string, seq<Value>>
    /** Every callback call made so far through `dispatch`, oldest first. */
    var trace: seq<Delivery>

    ghost predicate Valid()
      reads this
    {
      WellFormed(events)
    }

    constructor ()
      ensures Valid()
      ensures events == Empty && dispatched == map[] && finished == map[] && trace == []
    {
      events := Empty;
      dispatched := map[];
      finished := map[];
      trace := [];
    }

    /** `getFinished(key)`: the finished record, or null when there is none. */
    function GetFinished(key: string): (r: Option<seq<Value>>)
      reads this
      ensures r.Some? <==> key in finished
      ensures r.Some? ==> r.value == finished[key]
    {
      if key in finished then Some(finished[key]) else None
    }

    /** `getDispatched(key)`: the dispatched record, or an empty list when there is none. */
    function GetDispatched(key: string): (r: seq<Value>)
      reads this
      ensures key in dispatched ==> r == dispatched[key]
      ensures key !in dispatched ==> r == []
    {
      if key in dispatched then dispatched[key] else []
    }

    /** The immediate `dispatch`: calls the callback at once. */
    method Dispatch(fn: Callback, args: seq<Value>)
      modifies this`trace
      ensures trace == old(trace) + [Delivery(fn, args)]
    {
      trace := trace + [Delivery(fn, args)];
    }

    /** `replay(type, fn)`: one delivery of the dispatched record, looked up under `key` as given. */
    method Replay(key: string, fn: Callback) returns (ok: bool)
      modifies this`trace
      ensures ok <==> key in dispatched
      ensures ok ==> trace == old(trace) + [Delivery(fn, dispatched[key])]
      ensures !ok ==> trace == old(trace)
    {
      if key !in dispatched {
        return false;
      }
      Dispatch(fn, dispatched[key]);
      return true;
    }

    /** `redispatch(type, fn)`: as `Replay`, from the finished record. */
    method Redispatch(key: string, fn: Callback) returns (ok: bool)
      modifies this`trace
      ensures ok <==> key in finished
      ensures ok ==> trace == old(trace) + [Delivery(fn, finished[key])]
      ensures !ok ==> trace == old(trace)
    {
      if key !in finished {
        return false;
      }
      Dispatch(fn, finished[key]);
      return true;
    }

    /**
     * `fireEvent(type, args, finish)`: records the publish under the
     * normalised type and calls every subscriber of that type in list order.
     */
    method FireEvent(key: string, args: seq<Value>, finish: bool)
      modifies this`dispatched, this`finished, this`trace
      ensures dispatched == old(dispatched)[RemoveOn(key) := args]
      ensures finished == if finish then old(finished)[RemoveOn(key) := args] else old(finished)
      ensures trace == old(trace) + Deliveries(Listeners(events, RemoveOn(key)), args)
    {
      var k := RemoveOn(key);
      if finish {
        finished := finished[k := args];
      }
      dispatched := dispatched[k := args];
      Deliver(Listeners(events, k), args);
    }

    /** The loop of `fireEvent`: each callback of `fns` called in turn with `args`. */
    method Deliver(fns: seq<Callback>, args: seq<Value>)
      modifies this`trace
      ensures trace == old(trace) + Deliveries(fns, args)
    {
      var i := 0;
      while i < |fns|
        invariant 0 <= i <= |fns|
        invariant trace == old(trace) + Deliveries(fns[..i], args)
      {
        DeliveriesSnoc(fns, i, args);
        Dispatch(fns[i], args);
        i := i + 1;
      }
      assert fns[..i] == fns;
    }

    /** `addEvent(type, fn)` on the subscriber table. */
    method AddEvent(key: string, fn: Callback)
      requires Valid()
      modifies this`events
      ensures Valid()
      ensures events == Add(old(events), key, fn)
    {
      AddWellFormed(events, key, fn);
      events := Add(events, key, fn);
    }

    /** `removeEvent(type, fn)` on the subscriber table. */
    method RemoveEvent(key: string, fn: Callback)
      requires Valid()
      modifies this`events
      ensures Valid()
      ensures events == Remove(old(events), key, fn)
    {
      RemoveWellFormed(events, key, fn);
      events := Remove(events, key, fn);
    }

    /**
     * `removeEvents(type)`, or `removeEvents()` when `filter` is empty: for
     * each stored key the filter selects, removes that key's callbacks one by
     * one from the end, each through `removeEvent` with the stored key.
     */
    method RemoveEvents(filter: string)
      requires Valid()
      modifies this`events
      ensures Valid()
      ensures events == ClearKeys(old(events), old(events).order, filter)
    {
      var keys := events.order;
      var i := 0;
      while i < |keys|
        invariant 0 <= i <= |keys|
        invariant Valid()
        invariant events == ClearKeys(old(events), keys[..i], filter)
      {
        var k := keys[i];
        ClearStep(old(events), keys, filter, i);
        if Selects(filter, k) {
          RemoveEach(k, Listeners(events, k));
        }
        i := i + 1;
      }
      assert keys[..i] == keys;
    }

    /** The inner `for (var i = fns.length; i--;)` loop of `removeEvents`. */
    method RemoveEach(key: string, fns: seq<Callback>)
      requires Valid()
      modifies this`events
      ensures Valid()
      ensures events == Events.RemoveEach(old(events), key, fns)
    {
      var j := |fns|;
      assert fns[..j] == fns;
      while j > 0
        invariant 0 <= j <= |fns|
        invariant Valid()
        invariant Events.RemoveEach(events, key, fns[..j]) == Events.RemoveEach(old(events), key, fns)
      {
        ghost var before := events;
        EachStep(before, key, fns, j);
        j := j - 1;
        RemoveEvent(key, fns[j]);
        assert Events.RemoveEach(events, key, fns[..j]) == Events.RemoveEach(before, key, fns[..j + 1]);
      }
    }

    /** The mapping form of `removeEvents`: one `removeEvent` per (type, callback) pair. */
    method RemoveEventPairs(pairs: seq<(string, Callback)>)
      requires Valid()
      modifies this`events
      ensures Valid()
      ensures events == RemovePairs(old(events), pairs)
    {
      var i := 0;
      while i < |pairs|
        invariant 0 <= i <= |pairs|
        invariant Valid()
        invariant events == RemovePairs(old(events), pairs[..i])
      {
        assert pairs[..i + 1][..i] == pairs[..i];
        RemoveEvent(pairs[i].0, pairs[i].1);
        i := i + 1;
      }
      assert pairs[..i] == pairs;
    }

    /**
     * `flush()`: drops every subscriber and every record except those of the
     * two lifecycle types.
     */
    method Flush()
      requires Valid()
      modifies this`events, this`dispatched, this`finished
      ensures Valid()
      ensures events == Empty
      ensures dispatched == KeepReserved(old(dispatched))
      ensures finished == KeepReserved(old(finished))
    {
      RemoveEvents("");
      events := Empty;
      finished := KeepReserved(finished);
      dispatched := KeepReserved(dispatched);
    }
  }
}
