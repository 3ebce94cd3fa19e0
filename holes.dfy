/**
 * A unit's own handler arrays as the event library leaves them. `unsubscribe`
 * takes a callback out of the unit's array with `delete`, which leaves a hole
 * where the entry was. `indexOf`, `include`, `each` and the loop of
 * `removeEvents` (guarded by `i in fns`) never see a hole. The
 * `while (len--)` loops of `detachUnit` and `attachUnit` read every index,
 * holes included, and hand what they read (`undefined` for a hole) to
 * `removeEvent` and `addEvent`.
 *
 * The rest of the model keeps each array collapsed (`Collapse`). That is what
 * a loop that skips holes sees. This module relates the two readings and
 * shows where the unguarded loops part from them.
 */
module Holes {
  import opened Values
  import opened EventNames
  import opened Events

  /** One index of a JavaScript array: a hole left by `delete`, or a callback. */
  datatype Slot = Hole | Entry(fn: Callback)

  /** A value read from a slot and handed on: `undefined` or a callback. */
  datatype Passed = Undefined | Fn(fn: Callback)

  /** The callbacks of an array in order, holes dropped. */
  function Collapse(s: seq<Slot>): (r: seq<Callback>)
    ensures |r| <= |s|
  {
    if s == [] then []
    else if s[0].Entry? then [s[0].fn] + Collapse(s[1..])
    else Collapse(s[1..])
  }

  /** A callback is in the collapsed array exactly when some slot holds it. */
  lemma {:induction false} CollapseMembers(s: seq<Slot>, x: Callback)
    ensures x in Collapse(s) <==> Entry(x) in s
  {
    if s != [] {
      assert s == [s[0]] + s[1..];
      CollapseMembers(s[1..], x);
    }
  }

  lemma {:induction false} CollapseAppend(a: seq<Slot>, b: seq<Slot>)
    ensures Collapse(a + b) == Collapse(a) + Collapse(b)
  {
    if a == [] {
      assert a + b == b;
    } else {
      assert (a + b)[1..] == a[1..] + b;
      CollapseAppend(a[1..], b);
    }
  }

  /** `include` on an array with holes: a callback not yet there is pushed at the end. */
  function IncludeSlot(s: seq<Slot>, fn: Callback): (r: seq<Slot>)
    ensures Collapse(r) == Include(Collapse(s), fn)
  {
    CollapseMembers(s, fn);
    if Entry(fn) in s then s
    else
      CollapseAppend(s, [Entry(fn)]);
      CollapseOne(Entry(fn));
      s + [Entry(fn)]
  }

  /** `indexOf`: the first index holding `fn`, or -1. */
  function IndexOf(s: seq<Slot>, fn: Callback): (i: int)
    ensures -1 <= i < |s|
    ensures i == -1 <==> Entry(fn) !in s
    ensures 0 <= i ==> s[i] == Entry(fn) && Entry(fn) !in s[..i]
  {
    if s == [] then -1
    else if s[0] == Entry(fn) then 0
    else
      var j := IndexOf(s[1..], fn);
      if j == -1 then -1
      else
        assert s[..j + 1] == [s[0]] + s[1..][..j];
        j + 1
  }

  /** `delete s[s.indexOf(fn)]`: the first entry holding `fn` becomes a hole and the length stays. */
  function DeleteSlot(s: seq<Slot>, fn: Callback): (r: seq<Slot>)
    ensures |r| == |s|
    ensures forall k :: 0 <= k < |s| && s[k] != Entry(fn) ==> r[k] == s[k]
    ensures Entry(fn) !in s ==> r == s
    ensures IndexOf(s, fn) >= 0 ==> r[IndexOf(s, fn)] == Hole
  {
    var i := IndexOf(s, fn);
    if i == -1 then s else s[i := Hole]
  }

  /**
   * Deleting from an array whose callbacks are distinct is erasing from the
   * collapsed array: the collapsed model of `unsubscribe` is faithful.
   */
  lemma CollapseDelete(s: seq<Slot>, fn: Callback)
    requires Distinct(Collapse(s))
    ensures Collapse(DeleteSlot(s, fn)) == Erase(Collapse(s), fn)
  {
    var i := IndexOf(s, fn);
    if i == -1 {
      CollapseMembers(s, fn);
    } else {
      CollapseHoleAt(s, i, fn);
    }
  }

  /** Turning the slot of `fn` into a hole erases `fn` from the collapsed array. */
  lemma {:induction false} CollapseHoleAt(s: seq<Slot>, i: nat, fn: Callback)
    requires i < |s| && s[i] == Entry(fn) && Distinct(Collapse(s))
    ensures Collapse(s[i := Hole]) == Erase(Collapse(s), fn)
  {
    var d := s[i := Hole];
    var rest := Collapse(s[1..]);
    assert d[1..] == if i == 0 then s[1..] else s[1..][i - 1 := Hole];
    if i == 0 {
      assert Collapse(s) == [fn] + rest;
      assert fn !in rest by {
        var c := Collapse(s);
        assert forall j :: 0 <= j < |rest| ==> rest[j] == c[j + 1] != c[0];
      }
    } else if s[0].Entry? {
      var c := Collapse(s);
      assert c == [s[0].fn] + rest;
      assert c[1..] == rest;
      assert s[0].fn != fn by {
        assert s[1..][i - 1] == Entry(fn);
        CollapseMembers(s[1..], fn);
        var j :| 0 <= j < |rest| && rest[j] == fn;
        assert c[j + 1] == fn;
      }
      CollapseHoleAt(s[1..], i - 1, fn);
    } else {
      CollapseHoleAt(s[1..], i - 1, fn);
    }
  }

  lemma CollapseOne(x: Slot)
    ensures Collapse([x]) == if x.Entry? then [x.fn] else []
  {
    assert [x][1..] == [];
  }

  /** What a slot reads as. */
  function Read(x: Slot): (v: Passed)
    ensures v == Undefined <==> x == Hole
  {
    if x.Hole? then Undefined else Fn(x.fn)
  }

  /** What a `while (len--)` loop hands on: every slot, the last first. */
  function Walk(s: seq<Slot>): (r: seq<Passed>)
    ensures |r| == |s|
    ensures forall k :: 0 <= k < |s| ==> r[k] == Read(s[|s| - 1 - k])
  {
    seq(|s|, k requires 0 <= k < |s| => Read(s[|s| - 1 - k]))
  }

  /** The walk hands `undefined` on exactly when the array has a hole. */
  lemma WalkReadsHoles(s: seq<Slot>)
    ensures Undefined in Walk(s) <==> Hole in s
  {
    if Hole in s {
      var j :| 0 <= j < |s| && s[j] == Hole;
      assert Walk(s)[|s| - 1 - j] == Undefined;
    }
  }

  /** `include` of each value in turn into a bus list that may hold a real `undefined`. */
  function IncludeEach(b: seq<Passed>, vs: seq<Passed>): (r: seq<Passed>)
    ensures b <= r
    ensures forall v :: v in r <==> v in b || v in vs
    decreases |vs|
  {
    if vs == [] then b
    else IncludeEach(if vs[0] in b then b else b + [vs[0]], vs[1..])
  }

  /** A bus list after `attachUnit`'s loop, as written, walked one local array. */
  function AttachAsWritten(b: seq<Passed>, local: seq<Slot>): (r: seq<Passed>)
    ensures b <= r
    ensures Hole in local ==> Undefined in r
  {
    WalkReadsHoles(local);
    IncludeEach(b, Walk(local))
  }

  /** What the `each` of `fireEvent` does with a bus list: the calls made, and whether it threw. */
  datatype Outcome = Outcome(trace: seq<Delivery>, threw: bool)

  /**
   * `fireEvent` over a bus list as written: an `undefined` entry throws at
   * `current.apply`, and nothing after it is called.
   */
  function FireAsWritten(b: seq<Passed>, args: seq<Value>): (o: Outcome)
    ensures o.threw <==> Undefined in b
    ensures Undefined !in b ==>
      |o.trace| == |b| && forall i :: 0 <= i < |b| ==> o.trace[i] == Delivery(b[i].fn, args)
    decreases |b|
  {
    if b == [] then Outcome([], false)
    else if b[0] == Undefined then Outcome([], true)
    else
      var rest := FireAsWritten(b[1..], args);
      Outcome([Delivery(b[0].fn, args)] + rest.trace, rest.threw)
  }

  /** The loop of `attachUnit` with the hole test `len in attached[key]`: holes are skipped. */
  function AttachGuarded(b: seq<Callback>, local: seq<Slot>): (r: seq<Callback>)
    ensures b <= r
    decreases |local|
  {
    if local == [] then b
    else
      var last := local[|local| - 1];
      AttachGuarded(if last.Entry? then Include(b, last.fn) else b, local[..|local| - 1])
  }

  /**
   * The model's attach of one key, over the collapsed array, leaves on the bus
   * exactly the list the guarded loop would build from the real array.
   */
  lemma {:induction false} GuardedAttachCollapses(t: Table, key: string, local: seq<Slot>)
    ensures Listeners(AddEach(t, key, Collapse(local)), RemoveOn(key))
         == AttachGuarded(Listeners(t, RemoveOn(key)), local)
    decreases |local|
  {
    if local != [] {
      var init, last := local[..|local| - 1], local[|local| - 1];
      var c := Collapse(init);
      assert Collapse(local) == c + Collapse([last]) by {
        assert local == init + [last];
        CollapseAppend(init, [last]);
      }
      CollapseOne(last);
      if last.Entry? {
        assert AddEach(t, key, c + [last.fn]) == AddEach(Add(t, key, last.fn), key, c) by {
          assert (c + [last.fn])[..|c|] == c;
        }
        GuardedAttachCollapses(Add(t, key, last.fn), key, init);
      } else {
        assert c + [] == c;
        GuardedAttachCollapses(t, key, init);
      }
    }
  }

  /** A unit's array after `subscribe(key, fn)` and `unsubscribe(key, fn)` on a detached unit. */
  function Unsubscribed(fn: Callback): seq<Slot> {
    DeleteSlot(IncludeSlot([], fn), fn)
  }

  /**
   * As written: after detach, subscribe and unsubscribe, the unit's array
   * holds one hole and the bus list is empty; `attachUnit` hands `undefined`
   * to `addEvent`, which stores it, and the next publish throws before
   * calling anything.
   */
  lemma UnsubscribedHoleThrows(fn: Callback, args: seq<Value>)
    ensures Unsubscribed(fn) == [Hole]
    ensures Walk(Unsubscribed(fn)) == [Undefined]
    ensures AttachAsWritten([], Unsubscribed(fn)) == [Undefined]
    ensures FireAsWritten(AttachAsWritten([], Unsubscribed(fn)), args) == Outcome([], true)
  {
    assert IncludeSlot([], fn) == [Entry(fn)];
    assert IndexOf([Entry(fn)], fn) == 0;
    assert IncludeEach([], [Undefined]) == IncludeEach([Undefined], []);
  }

  /**
   * With the hole test, the same array puts nothing on an empty bus list,
   * and the attach the rest of the model uses leaves any bus list as it was.
   */
  lemma UnsubscribedHoleSkipped(t: Table, key: string, fn: Callback)
    ensures Collapse(Unsubscribed(fn)) == []
    ensures AttachGuarded([], Unsubscribed(fn)) == []
    ensures Listeners(AddEach(t, key, Collapse(Unsubscribed(fn))), RemoveOn(key)) == Listeners(t, RemoveOn(key))
  {
    UnsubscribedHoleThrows(fn, []);
    assert AttachGuarded([], [Hole]) == AttachGuarded([], []);
  }
}
