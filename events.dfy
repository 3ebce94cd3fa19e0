/** Values shared by the bus, the units and the decoration adapter. */
module Values {

  datatype Option<T> = None | Some(value: T)

  /** The identity of a callback function value (removal is by reference). */
  type Callback = nat

  /** An argument value passed along with an event. */
  type Value = int

  /** One call of a callback with an argument list. */
  datatype Delivery = Delivery(fn: Callback, args: seq<Value>)

  ghost predicate Distinct<T>(s: seq<T>) {
    forall i, j :: 0 <= i < j < |s| ==> s[i] != s[j]
  }

  /** The number of times `x` occurs in `s`. */
  function Count<T(==)>(s: seq<T>, x: T): (n: nat)
    ensures n <= |s|
    ensures n == 0 <==> x !in s
  {
    if s == [] then 0 else (if s[0] == x then 1 else 0) + Count(s[1..], x)
  }

  /** In a list without repetitions every member occurs exactly once. */
  lemma {:induction false} CountDistinct<T>(s: seq<T>, x: T)
    requires Distinct(s)
    ensures Count(s, x) == if x in s then 1 else 0
  {
    if s != [] {
      CountDistinct(s[1..], x);
      if s[0] == x {
        assert forall j :: 0 < j < |s| ==> s[j] != s[0];
        assert x !in s[1..];
      }
    }
  }
}

/**
 * The handler tables of the event library (its `Events` type): an object that
 * maps each event type to an array of callbacks, with the type normalised by
 * `removeOn` on the way in. The bus keeps one such table for its subscribers
 * and every unit keeps one for the subscriptions it made itself.
 */
module Events {
  import opened Values
  import opened EventNames

  /**
   * A table keeps its keys in insertion order, the order in which a for-in
   * loop visits the properties of the object.
   */
  datatype Table = Table(order: seq<string>, lists: map<string, seq<Callback>>)

  const Empty: Table := Table([], map[])

  ghost predicate WellFormed(t: Table) {
    && Distinct(t.order)
    && (forall k :: k in t.lists <==> k in t.order)
    && (forall k :: k in t.lists ==> Distinct(t.lists[k]))
  }

  /** The callbacks stored under exactly this key (no normalisation). */
  function Listeners(t: Table, key: string): (r: seq<Callback>)
    ensures key !in t.lists ==> r == []
  {
    if key in t.lists then t.lists[key] else []
  }

  /** Array `include`: appends `fn` unless it is already there. */
  function Include(s: seq<Callback>, fn: Callback): (r: seq<Callback>)
    ensures fn in r
    ensures forall x :: x in r <==> x in s || x == fn
    ensures s <= r && |r| <= |s| + 1
    ensures fn !in s ==> r == s + [fn]
    ensures fn in s ==> r == s
    ensures Distinct(s) ==> Distinct(r)
  {
    if fn in s then s else s + [fn]
  }

  /** Deleting `fn` from an array: every entry equal to it goes, the rest keep their order. */
  function Erase(s: seq<Callback>, fn: Callback): (r: seq<Callback>)
    ensures fn !in r
    ensures forall x :: x in r <==> x in s && x != fn
    ensures fn !in s ==> r == s
    ensures Distinct(s) ==> Distinct(r)
    ensures |r| <= |s|
  {
    if s == [] then []
    else if s[0] == fn then Erase(s[1..], fn)
    else
      var rest := Erase(s[1..], fn);
      assert Distinct(s) ==> s[0] !in s[1..];
      [s[0]] + rest
  }

  /** `addEvent(type, fn)`. */
  function Add(t: Table, key: string, fn: Callback): (r: Table)
    ensures Listeners(r, RemoveOn(key)) == Include(Listeners(t, RemoveOn(key)), fn)
    ensures Listeners(t, RemoveOn(key)) <= Listeners(r, RemoveOn(key))
    ensures fn !in Listeners(t, RemoveOn(key)) ==>
              Listeners(r, RemoveOn(key)) == Listeners(t, RemoveOn(key)) + [fn]
    ensures r.order == if RemoveOn(key) in t.lists then t.order else t.order + [RemoveOn(key)]
    ensures fn in Listeners(r, RemoveOn(key))
    ensures forall k :: k != RemoveOn(key) ==> Listeners(r, k) == Listeners(t, k)
    ensures forall x :: x in Listeners(r, RemoveOn(key)) <==> x in Listeners(t, RemoveOn(key)) || x == fn
  {
    var k := RemoveOn(key);
    Table(if k in t.lists then t.order else t.order + [k],
          t.lists[k := Include(Listeners(t, k), fn)])
  }

  /** `removeEvent(type, fn)`; a type with no array is left alone. */
  function Remove(t: Table, key: string, fn: Callback): (r: Table)
    ensures Listeners(r, RemoveOn(key)) == Erase(Listeners(t, RemoveOn(key)), fn)
    ensures fn !in Listeners(r, RemoveOn(key))
    ensures r.order == t.order && r.lists.Keys == t.lists.Keys
    ensures forall k :: k != RemoveOn(key) ==> Listeners(r, k) == Listeners(t, k)
    ensures forall x :: x in Listeners(r, RemoveOn(key)) <==> x in Listeners(t, RemoveOn(key)) && x != fn
  {
    var k := RemoveOn(key);
    if k in t.lists then Table(t.order, t.lists[k := Erase(t.lists[k], fn)]) else t
  }

  /** In a list without repetitions, erasing the entry at `i` closes the gap it leaves. */
  lemma {:induction false} EraseAt(s: seq<Callback>, i: nat)
    requires Distinct(s) && i < |s|
    ensures Erase(s, s[i]) == s[..i] + s[i + 1..]
  {
    if i == 0 {
      assert s[0] !in s[1..];
    } else {
      assert s[0] != s[i];
      EraseAt(s[1..], i - 1);
      assert s[1..][..i - 1] == s[1..i];
      assert s[1..][i..] == s[i + 1..];
      assert [s[0]] + s[1..i] == s[..i];
    }
  }

  lemma AddWellFormed(t: Table, key: string, fn: Callback)
    requires WellFormed(t)
    ensures WellFormed(Add(t, key, fn))
  {
  }

  lemma RemoveWellFormed(t: Table, key: string, fn: Callback)
    requires WellFormed(t)
    ensures WellFormed(Remove(t, key, fn))
  {
  }

  /** Adding a callback that was not there and removing it again restores every list. */
  lemma AddRemove(t: Table, key: string, fn: Callback)
    requires fn !in Listeners(t, RemoveOn(key))
    ensures forall k :: Listeners(Remove(Add(t, key, fn), key, fn), k) == Listeners(t, k)
  {
    var k := RemoveOn(key);
    var s := Listeners(t, k);
    assert Erase(s + [fn], fn) == s by { EraseAppend(s, fn); }
  }

  lemma {:induction false} EraseAppend(s: seq<Callback>, fn: Callback)
    requires fn !in s
    ensures Erase(s + [fn], fn) == s
  {
    if s != [] {
      assert (s + [fn])[1..] == s[1..] + [fn];
      EraseAppend(s[1..], fn);
    }
  }

  /**
   * Removing the callbacks of `fns` from the list under `key`, last one first,
   * as a `while (len--)` loop does.
   */
  function RemoveEach(t: Table, key: string, fns: seq<Callback>): (r: Table)
    ensures r.order == t.order && r.lists.Keys == t.lists.Keys
    decreases |fns|
  {
    if fns == [] then t
    else RemoveEach(Remove(t, key, fns[|fns| - 1]), key, fns[..|fns| - 1])
  }

  /** Adding the callbacks of `fns` under `key`, last one first. */
  function AddEach(t: Table, key: string, fns: seq<Callback>): (r: Table)
    ensures t.order <= r.order
    ensures fns == [] ==> r == t
    decreases |fns|
  {
    if fns == [] then t
    else AddEach(Add(t, key, fns[|fns| - 1]), key, fns[..|fns| - 1])
  }

  lemma {:induction false} AddEachWellFormed(t: Table, key: string, fns: seq<Callback>)
    requires WellFormed(t)
    ensures WellFormed(AddEach(t, key, fns))
    decreases |fns|
  {
    if fns != [] {
      AddWellFormed(t, key, fns[|fns| - 1]);
      AddEachWellFormed(Add(t, key, fns[|fns| - 1]), key, fns[..|fns| - 1]);
    }
  }

  /** One step of the countdown loop that `AddEach` and `RemoveEach` describe. */
  lemma EachStep(t: Table, key: string, fns: seq<Callback>, j: nat)
    requires 0 < j <= |fns|
    ensures AddEach(t, key, fns[..j]) == AddEach(Add(t, key, fns[j - 1]), key, fns[..j - 1])
    ensures RemoveEach(t, key, fns[..j]) == RemoveEach(Remove(t, key, fns[j - 1]), key, fns[..j - 1])
  {
    assert fns[..j][..j - 1] == fns[..j - 1];
  }

  /** What `RemoveEach` leaves under each key. */
  lemma {:induction false} RemoveEachMembers(t: Table, key: string, fns: seq<Callback>, k: string, x: Callback)
    ensures x in Listeners(RemoveEach(t, key, fns), k)
        <==> x in Listeners(t, k) && !(k == RemoveOn(key) && x in fns)
    decreases |fns|
  {
    if fns != [] {
      var last := fns[|fns| - 1];
      RemoveEachMembers(Remove(t, key, last), key, fns[..|fns| - 1], k, x);
      assert fns == fns[..|fns| - 1] + [last];
    }
  }

  /** What `AddEach` leaves under each key. */
  lemma {:induction false} AddEachMembers(t: Table, key: string, fns: seq<Callback>, k: string, x: Callback)
    ensures x in Listeners(AddEach(t, key, fns), k)
        <==> x in Listeners(t, k) || (k == RemoveOn(key) && x in fns)
    decreases |fns|
  {
    if fns != [] {
      var init, last := fns[..|fns| - 1], fns[|fns| - 1];
      var t' := Add(t, key, last);
      AddEachMembers(t', key, init, k, x);
      assert x in fns <==> x in init || x == last by {
        assert fns == init + [last];
      }
      assert x in Listeners(t', k) <==> x in Listeners(t, k) || (k == RemoveOn(key) && x == last);
    }
  }

  /** Removing every callback of a list from that very list (under a stable key) empties it. */
  lemma RemoveEachOwnList(t: Table, key: string)
    requires RemoveOn(key) == key
    ensures Listeners(RemoveEach(t, key, Listeners(t, key)), key) == []
  {
    var left := Listeners(RemoveEach(t, key, Listeners(t, key)), key);
    assert left == [] || left[0] in left;
    forall x ensures x !in left {
      RemoveEachMembers(t, key, Listeners(t, key), key, x);
    }
  }
}
