/**
 * The decoration adapter: gives an arbitrary host object a Unit of its own,
 * reachable through trampoline methods installed on the host, and optionally
 * mirrors the host's own `fireEvent` onto the bus.
 */
module Decoration {
  import opened Values
  import opened EventNames
  import opened Events
  import opened Bus
  import opened Units

  /** A method slot of the host: its own code, or a trampoline into the Unit method named `origin`. */
  datatype Member = Own | Trampoline(origin: string)

  /** The host's `fireEvent`: missing, its own, or wrapped to publish first. */
  datatype FireState = NoFireEvent | Native | Wrapped

  /** The function-valued properties that the for-in loop of `decorate` finds on a fresh Unit. */
  const UnitMethods: seq<string> := [
    "extendUnit", "setupUnit", "getPrefix", "setPrefix", "isAttached", "detachUnit",
    "attachUnit", "destroyUnit", "subscribe", "unsubscribe", "publish"]

  /** The host's methods after the trampoline loop of `decorate` ran over `names`: one for every name the host lacks. */
  function InstallAll(m: map<string, Member>, names: seq<string>): (r: map<string, Member>)
    ensures r.Keys == m.Keys + set n | n in names
    ensures forall n :: n in m ==> r[n] == m[n]
    ensures forall n :: n in names && n !in m ==> r[n] == Trampoline(n)
  {
    m + map n | n in names && n !in m :: Trampoline(n)
  }

  /** The host's methods after the loop of `undecorate` ran over `names`: each trampoline to that name deleted. */
  function UninstallAll(m: map<string, Member>, names: seq<string>): (r: map<string, Member>)
    ensures forall n :: n in r <==> n in m && !(n in names && m[n] == Trampoline(n))
    ensures forall n :: n in r ==> r[n] == m[n]
  {
    map n | n in m && !(n in names && m[n] == Trampoline(n)) :: m[n]
  }

  /** One iteration of the `decorate` loop. */
  lemma InstallStep(m: map<string, Member>, names: seq<string>, name: string)
    ensures InstallAll(m, names + [name])
         == var cur := InstallAll(m, names); if name !in cur then cur[name := Trampoline(name)] else cur
  {
    var cur := InstallAll(m, names);
    var next := if name !in cur then cur[name := Trampoline(name)] else cur;
    assert forall n :: n in names + [name] <==> n in names || n == name;
    assert InstallAll(m, names + [name]).Keys == next.Keys;
  }

  /** One iteration of the `undecorate` loop. */
  lemma UninstallStep(m: map<string, Member>, names: seq<string>, name: string)
    ensures UninstallAll(m, names + [name])
         == var cur := UninstallAll(m, names);
            if name in cur && cur[name] == Trampoline(name) then map n | n in cur && n != name :: cur[n] else cur
  {
    var cur := UninstallAll(m, names);
    var next := if name in cur && cur[name] == Trampoline(name) then map n | n in cur && n != name :: cur[n] else cur;
    assert forall n :: n in names + [name] <==> n in names || n == name;
    assert UninstallAll(m, names + [name]).Keys == next.Keys;
  }

  /** Every method slot that is not the host's own is a trampoline to a name of `names`. */
  predicate OnlyTrampolinesTo(m: map<string, Member>, names: seq<string>) {
    forall n :: n in m && m[n] != Own ==> n in names && m[n] == Trampoline(n)
  }

  /** Installing trampolines keeps every foreign slot a trampoline to its own name. */
  lemma InstallKeepsTrampolines(m: map<string, Member>, names: seq<string>)
    requires forall n :: n in m ==> m[n] == Own
    ensures OnlyTrampolinesTo(InstallAll(m, names), names)
  {
  }

  /** Uninstalling over the same names leaves only the host's own methods. */
  lemma UninstallLeavesOwn(m: map<string, Member>, names: seq<string>)
    requires OnlyTrampolinesTo(m, names)
    ensures forall n :: n in UninstallAll(m, names) ==> UninstallAll(m, names)[n] == Own
  {
  }

  /** `wrapEvents`: only an unwrapped `fireEvent` gets wrapped. */
  function Wrap(f: FireState): (r: FireState)
    ensures r != Native
    ensures r == Wrapped <==> f != NoFireEvent
  {
    match f
    case NoFireEvent => NoFireEvent
    case Native => Wrapped
    case Wrapped => Wrapped
  }

  /** `unwrapEvents`: a wrapped `fireEvent` gets its original back. */
  function Unwrap(f: FireState): (r: FireState)
    ensures r != Wrapped
    ensures r == Native <==> f != NoFireEvent
  {
    match f
    case NoFireEvent => NoFireEvent
    case Native => Native
    case Wrapped => Native
  }

  /** `wrapEvents` never wraps twice. */
  lemma WrapIdempotent(f: FireState)
    ensures Wrap(Wrap(f)) == Wrap(f)
  {
  }

  /** Unwrapping undoes wrapping of a host that was not wrapped before. */
  lemma UnwrapWrap(f: FireState)
    ensures Unwrap(Wrap(f)) == Unwrap(f)
    ensures f != Wrapped ==> Unwrap(Wrap(f)) == f
  {
  }

  /** A host without trampolines of its own gets back exactly its methods after decorate and undecorate. */
  lemma UninstallInstalled(m: map<string, Member>, names: seq<string>)
    requires forall n :: n in m ==> m[n] == Own
    ensures UninstallAll(InstallAll(m, names), names) == m
  {
    var r := UninstallAll(InstallAll(m, names), names);
    assert r.Keys == m.Keys;
  }

  /** Decorating twice installs nothing more. */
  lemma InstalledIdempotent(m: map<string, Member>, names: seq<string>)
    ensures InstallAll(InstallAll(m, names), names) == InstallAll(m, names)
  {
  }

  /** A host object as the adapter sees it. */
  class Host {
    /** The host's truthy properties, by name. */
    var members: map<string, Member>
    /** `$unitInstance`. */
    var unit: Unit?
    var fire: FireState
    /** The calls that reached the host's own `fireEvent`, oldest first. */
    var nativeFired: seq<(string, seq<Value>)>

    /** A host carries trampolines only while it is decorated. */
    ghost predicate Valid()
      reads this, unit, if unit != null then {unit.bus} else {}
    {
      && (if unit == null then forall n :: n in members ==> members[n] == Own
          else OnlyTrampolinesTo(members, UnitMethods) && unit.Valid())
    }

    constructor (members: map<string, Member>, hasFireEvent: bool)
      requires forall n :: n in members ==> members[n] == Own
      ensures Valid() && this.members == members && unit == null && nativeFired == []
      ensures fire == if hasFireEvent then Native else NoFireEvent
    {
      this.members := members;
      unit := null;
      fire := if hasFireEvent then Native else NoFireEvent;
      nativeFired := [];
    }

    /** `isUnit(obj)` for a host that is not itself a Unit. */
    function IsUnit(): (r: bool)
      reads this
      ensures r <==> unit != null
    {
      unit != null
    }

    /** The host's `fireEvent` republishes on the bus through its unit's `publish`. */
    predicate Mirrors()
      reads this
    {
      fire == Wrapped && "publish" in members && members["publish"] == Trampoline("publish") && unit != null
    }

    /**
     * Calling the host's `fireEvent(type, args)`. When wrapped, it first calls
     * the host's `publish` (a TypeError, and `ok` false, if the host has
     * none), then the original. When not wrapped, only the original runs.
     */
    method FireEvent(key: string, args: seq<Value>) returns (ok: bool)
      requires Valid() && fire != NoFireEvent
      modifies this`nativeFired, if unit != null then {unit.bus} else {}
      ensures ok <==> !(fire == Wrapped && "publish" !in members)
      ensures nativeFired == if ok then old(nativeFired) + [(key, args)] else old(nativeFired)
      ensures Mirrors() ==>
        var k := RemoveOn(PublishType(unit.prefix, key));
        if unit.attached then
          && unit.bus.dispatched == old(unit.bus.dispatched)[k := args]
          && unit.bus.finished == old(unit.bus.finished)
          && unit.bus.trace == old(unit.bus.trace) + Deliveries(Listeners(unit.bus.events, k), args)
        else unit.bus.trace == old(unit.bus.trace) && unit.bus.dispatched == old(unit.bus.dispatched)
      ensures unit != null ==> unit.bus.events == old(unit.bus.events)
      ensures !Mirrors() && unit != null ==> unchanged(unit.bus)
    {
      if fire == Wrapped {
        if "publish" !in members {
          return false;
        }
        if members["publish"] == Trampoline("publish") && unit != null {
          unit.Publish(key, args, false);
        }
      }
      nativeFired := nativeFired + [(key, args)];
      return true;
    }

    /** `wrapEvents(obj)`. */
    method WrapEvents()
      modifies this`fire
      ensures fire == Wrap(old(fire))
    {
      if fire == Native {
        fire := Wrapped;
      }
    }

    /** `unwrapEvents(obj)`. */
    method UnwrapEvents()
      modifies this`fire
      ensures fire == Unwrap(old(fire))
    {
      if fire == Wrapped {
        fire := Native;
      }
    }

    /** The for-in loop of `decorate`: a trampoline for every Unit method the host lacks. */
    method InstallTrampolines()
      modifies this`members
      ensures members == InstallAll(old(members), UnitMethods)
    {
      var i := 0;
      while i < |UnitMethods|
        invariant 0 <= i <= |UnitMethods|
        invariant members == InstallAll(old(members), UnitMethods[..i])
      {
        var name := UnitMethods[i];
        assert UnitMethods[..i + 1] == UnitMethods[..i] + [name];
        InstallStep(old(members), UnitMethods[..i], name);
        if name !in members {
          members := members[name := Trampoline(name)];
        }
        i := i + 1;
      }
      assert UnitMethods[..i] == UnitMethods;
    }

    /** The for-in loop of `undecorate`: every trampoline to a Unit method is deleted. */
    method DeleteTrampolines()
      modifies this`members
      ensures members == UninstallAll(old(members), UnitMethods)
    {
      var i := 0;
      while i < |UnitMethods|
        invariant 0 <= i <= |UnitMethods|
        invariant members == UninstallAll(old(members), UnitMethods[..i])
      {
        var name := UnitMethods[i];
        assert UnitMethods[..i + 1] == UnitMethods[..i] + [name];
        UninstallStep(old(members), UnitMethods[..i], name);
        if name in members && members[name] == Trampoline(name) {
          members := map n | n in members && n != name :: members[n];
        }
        i := i + 1;
      }
      assert UnitMethods[..i] == UnitMethods;
    }

    /**
     * `decorate(obj, nowrap)`: on an undecorated host, creates a Unit on
     * `bus`, installs the trampolines, runs the (empty) setup of the fresh
     * Unit and wraps `fireEvent` unless `nowrap`; on a decorated host it does
     * nothing.
     */
    method Decorate(bus: Dispatcher, nowrap: bool)
      requires Valid() && bus.Valid()
      modifies this`members, this`unit, this`fire
      ensures Valid()
      ensures old(unit) != null ==> members == old(members) && unit == old(unit) && fire == old(fire)
      ensures old(unit) == null ==>
        && unit != null && fresh(unit) && unit.bus == bus
        && unit.attached && unit.handlers == Empty && unit.prefix == ""
        && members == InstallAll(old(members), UnitMethods)
        && fire == if nowrap then old(fire) else Wrap(old(fire))
    {
      if unit != null {
        return;
      }
      var u := new Unit(bus);
      unit := u;
      InstallTrampolines();
      InstallKeepsTrampolines(old(members), UnitMethods);
      if !nowrap {
        WrapEvents();
      }
    }

    /**
     * `undecorate(obj)`: deletes the trampolines, unwraps `fireEvent` and
     * drops the association; an undecorated host is left alone.
     */
    method Undecorate()
      requires Valid()
      modifies this`members, this`unit, this`fire
      ensures Valid() && unit == null
      ensures old(unit) == null ==> members == old(members) && fire == old(fire)
      ensures old(unit) != null ==> members == UninstallAll(old(members), UnitMethods) && fire == Unwrap(old(fire))
    {
      if unit == null {
        return;
      }
      DeleteTrampolines();
      UninstallLeavesOwn(old(members), UnitMethods);
      UnwrapEvents();
      unit := null;
    }
  }
}
