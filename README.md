# Company: a verified model of the mediated component system

Company is a small publish/subscribe system for browser widgets built on
MooTools. A process-wide **dispatcher** (the bus) keeps three tables:

- the subscriber lists, one per event type (`$events`);
- the arguments of the last publish of each type (`$dispatched`);
- the arguments of the last publish that carried the finish flag (`$finished`).

A **Unit** is a component that goes through the bus:

- it subscribes, unsubscribes and publishes;
- it remembers its own subscriptions, so it can detach from the bus and attach again;
- it puts an optional prefix in front of the types it publishes;
- its `setupUnit` runs three lifecycle hooks.

The **decoration adapter** gives any host object a Unit of its own. It installs
trampoline methods on the host, and it can wrap the host's own `fireEvent` so
that the host's events are published on the bus too.

The model also covers `normalize`, the module-path resolution of the test
runner's `require`, together with its `.js` suffix rule.

The Dafny modules follow the structure of the program:

| file | module | what it holds |
|---|---|---|
| `names.dfy` | `EventNames` | the `removeOn` rewrite of event names |
| `events.dfy` | `Values`, `Events` | callbacks, deliveries, and the handler tables of the event library, with `addEvent`/`removeEvent` |
| `bus.dfy` | `Bus` | `class Dispatcher`: records, delivery, `removeEvents`, `flush` |
| `unit.dfy` | `Units` | `class Unit`: subscribe, publish, detach and attach, setup |
| `decoration.dfy` | `Decoration` | `class Host`: decorate, undecorate, event wrapping |
| `holes.dfy` | `Holes` | a unit's own arrays with the holes that `delete` leaves, and what the detach and attach loops read from them |
| `modpath.dfy` | `ModulePath` | `normalize` and the `.js` rule |
| `scenarios.dfy` | `Scenarios` | the behaviour the test suites describe, replayed on fresh objects |

Modelling choices:

- **Callbacks** are opaque ids (`nat`). JavaScript removes a callback by reference, and an id captures exactly that.
- **Delivery.** A call of a callback is appended to the dispatcher's `trace` as `Delivery(fn, args)`. This is the immediate `dispatch` of `Source/Company.js:119-122`. "Called once", "called twice" and "in list order" are statements about that trace.
- **Handler tables** come from the event library, whose code is not part of this model:
  - a table keeps its keys in insertion order, the order in which a for-in loop visits keys that are not array indices (an engine visits index-like keys such as "0" or "12" first, in numeric order; only `Table.order` is affected, since such keys are stable under `removeOn`);
  - `addEvent` normalises the type with `removeOn` and then appends the callback unless it is already there (array `include`), so a list never holds a callback twice;
  - `removeEvent` normalises the type and deletes the callback;
  - the library leaves a hole where an entry was deleted. The tables of the model are collapsed: they close every hole (`Holes.Collapse`). `each`, `indexOf`, `include` and the `i in fns` guard of `removeEvents` never see a hole, so on the bus nothing is lost. The `while (len--)` loops of `detachUnit` and `attachUnit` do read the holes of a unit's own arrays; `Holes` models that reading, and Findings describes its consequence.
- **Double normalisation.** The bus and each unit's own table store normalised keys. `detachUnit`, `attachUnit` and `removeEvents` hand those stored keys back to `removeEvent`/`addEvent`, which normalise them a second time. `removeOn` is not idempotent ("onOnX" becomes "onX", then "x"), and the model keeps this as written (`EventNames.RemoveOnTwice`).
- **Records and lookups.** Records are kept under the normalised type. `replay` and `redispatch` look the key up exactly as they are given it, and `subscribe` passes its key to them unnormalised.

Three facts of the code shape the model:

- a leading `!` in `publish` removes itself and bypasses the prefix, and nothing else: the finish flag stays the caller's third argument (`Source/Company.js:386`);
- when `redispatch` succeeds, `subscribe` registers the callback neither locally nor on the bus (`Source/Company.js:364`);
- the immediate `dispatch` (`Source/Company.js:119-122`), which `fireEvent` calls for each subscriber (`Source/Company.js:145`), has no try/catch, so an exception in one subscriber stops the deliveries after it; the model claims no error isolation.

## Model

| member | source | states |
|---|---|---|
| EventNames.RemoveOn | Source/Company.js:27-31 | a name that starts with "on" and a capital letter loses the "on", and that letter becomes lower case; every other name comes back unchanged |
| EventNames.RemoveOnAddOn | Source/Company.js:27-31 | `removeOn` turns the DOM-style spelling "onX…" of a lower-case type back into that type |
| EventNames.RemoveOnFixedPoint | Source/Company.js:27-31 | `removeOn` leaves a name alone exactly when the name lacks the "on"+capital prefix |
| EventNames.RemoveOnTwice | Source/Company.js:27-31 | normalising a name twice differs from normalising it once exactly when the name starts with "onOn" and a capital letter |
| EventNames.RemoveOnNotIdempotent | Source/Company.js:27-31 | "onOnX" normalises to "onX", which normalises to "x" |
| Events.Include | Source/Company.js:365-367 | the list afterwards holds `fn` and the old members; a list without `fn` gets it appended at the end, and a list with it is unchanged; it stays free of repetitions |
| Events.Erase | Source/Company.js:379-380 | the list afterwards holds exactly the old members other than `fn`; a list without `fn` is unchanged; it stays free of repetitions |
| Events.EraseAt | Source/Company.js:379-380 | in a list without repetitions, erasing the entry at a position removes just that entry and keeps the others in their order |
| Events.Add | Source/Company.js:365-367 | `addEvent`: the list of the normalised type becomes `Include` of the old one, so the old list is a prefix of the new one and `fn`, when it was absent, is appended last; the type joins the end of the key order exactly when it is new; every other type's list is unchanged |
| Events.Remove | Source/Company.js:379-380 | `removeEvent`: the list of the normalised type becomes `Erase` of the old one, so `fn` leaves it and the other members keep their order; keys, key order and every other list are unchanged |
| Events.AddWellFormed | Source/Company.js:365-367 | `addEvent` preserves the table invariant: there are no repeated keys or callbacks, and the key order and the lists agree |
| Events.RemoveWellFormed | Source/Company.js:379-380 | `removeEvent` preserves the table invariant |
| Events.AddRemove | Source/Company.js:365-380 | subscribing a callback that was not there and then unsubscribing it restores every list |
| Events.RemoveEach | Source/Company.js:158-161 | removing a series of callbacks, last one first, keeps the keys and their order |
| Events.AddEach | Source/Company.js:340-343 | adding a series of callbacks, last one first, keeps the old key order as a prefix; an empty series changes nothing |
| Events.AddEachWellFormed | Source/Company.js:340-343 | adding a series of callbacks, last one first, preserves the table invariant |
| Events.RemoveEachMembers | Source/Company.js:158-161 | after removing a series, a callback is under a type exactly when it was there before and is not one of the series under that normalised type |
| Events.AddEachMembers | Source/Company.js:340-343 | after adding a series, a callback is under a type exactly when it was there before or is one of the series under that normalised type |
| Events.RemoveEachOwnList | Source/Company.js:156-161 | removing every callback of a stable type's list from that type empties the list |
| Bus.Deliveries | Source/Company.js:144-145 | a publish delivers once per list entry, in list order, each time with the published arguments |
| Bus.DeliveriesCount | Source/Company.js:144-145 | a publish calls each callback as often as it occurs in the list |
| Bus.DeliveredOnce | Source/Company.js:144-145 | with a list free of repetitions, every subscriber is called exactly once and no other callback is called |
| Bus.DeliveredOncePerPublish | Source/Company.js:138-147 | over two publishes of a list without repetitions, each subscriber is called exactly twice |
| Bus.KeepReserved | Source/Company.js:171-184 | definition: a flush keeps exactly the `window.domready` and `window.load` records, with their values, for records without inherited members (see Left out) |
| Bus.Selects | Source/Company.js:155-157 | definition: no filter selects every stored key, and a filter selects exactly the key equal to its normalised form |
| Bus.ClearKeys | Source/Company.js:156-162 | `removeEvents` leaves the table's keys and key order as they were |
| Bus.ClearKeysStable | Source/Company.js:149-164 | when the stored keys are stable under `removeOn`, `removeEvents(type)` empties exactly the selected lists (all of them for no filter) and leaves the rest alone |
| Bus.RemoveEachOther | Source/Company.js:158-161 | removing callbacks under one type leaves every other type's list alone |
| Bus.RemovePairs | Source/Company.js:151-153 | the mapping form of `removeEvents` leaves the keys and key order as they were |
| Bus.RemovePairsRemoves | Source/Company.js:151-153 | after the mapping form, no listed callback is left under its normalised type |
| Bus.Dispatcher.constructor | Source/Company.js:74-77 | the bus starts with no subscribers, no records and no deliveries |
| Bus.Dispatcher.GetFinished | Source/Company.js:111-113 | the finished record of the key, or none exactly when there is no record |
| Bus.Dispatcher.GetDispatched | Source/Company.js:115-117 | the dispatched record of the key, or an empty list when there is none |
| Bus.Dispatcher.Dispatch | Source/Company.js:119-122 | exactly one delivery, of the callback with those arguments |
| Bus.Dispatcher.Replay | Source/Company.js:124-129 | true and exactly one delivery of the dispatched record when the key as given has one; otherwise false and no delivery; nothing else changes |
| Bus.Dispatcher.Redispatch | Source/Company.js:131-136 | the same, from the finished record |
| Bus.Dispatcher.FireEvent | Source/Company.js:138-147 | the dispatched record of the normalised type is set, and the finished record is set exactly when `finish` is set; no other record changes; every subscriber of that type is delivered once, in list order, with the arguments |
| Bus.Dispatcher.Deliver | Source/Company.js:145 | the delivery loop appends one delivery per callback, in order |
| Bus.Dispatcher.AddEvent | Source/Company.js:367 | the subscriber table becomes `Add` of the old one and keeps its invariant |
| Bus.Dispatcher.RemoveEvent | Source/Company.js:379 | the subscriber table becomes `Remove` of the old one and keeps its invariant |
| Bus.Dispatcher.RemoveEvents | Source/Company.js:149-164 | the table visits its keys in order and clears each selected key's list through `removeEvent` with the stored key; the invariant is kept |
| Bus.Dispatcher.RemoveEach | Source/Company.js:158-161 | the inner countdown loop removes the callbacks of a list, last one first |
| Bus.Dispatcher.RemoveEventPairs | Source/Company.js:151-153 | one `removeEvent` per pair, in order |
| Bus.Dispatcher.Flush | Source/Company.js:166-186 | no subscribers are left, and of records without inherited members only the two lifecycle records survive in `$dispatched` and `$finished` (see Left out) |
| Units.Unbanged | Source/Company.js:359-362 | a leading `!` is removed; any other type is unchanged |
| Units.PublishType | Source/Company.js:386-387 | definition: a type with a leading `!` goes out without it; otherwise an empty prefix leaves the type alone, and a non-empty one is put in front of it with a dot |
| Units.BangBypassesPrefix | Source/Company.js:385-387 | a type with a leading `!` is published without it, whatever the prefix |
| Units.PrefixTransparency | Source/Company.js:385-387 | a unit with prefix `p` publishing `key` puts the same type on the bus as an unprefixed unit publishing `p.key`, exactly when `p` does not start with `!` |
| Units.DetachAll | Source/Company.js:323-334 | detaching keeps the bus table's keys and key order |
| Units.AttachAll | Source/Company.js:336-347 | attaching keeps the old key order of the bus table as a prefix; with no local keys it changes nothing |
| Units.AttachAllWellFormed | Source/Company.js:336-347 | attaching preserves the bus table invariant |
| Units.DetachAllMembers | Source/Company.js:323-331 | after a detach, a callback is on the bus under a type exactly when it was there and the unit did not record it under a key that normalises to that type |
| Units.AttachAllMembers | Source/Company.js:336-344 | after an attach, a callback is on the bus under a type exactly when it was there or the unit recorded it under a key that normalises to that type |
| Units.DetachAttachRoundTrip | Source/Company.js:323-347 | when every recorded pair was on the bus, a detach followed by an attach restores the subscriber set of every type |
| Units.DetachedMissesPublish | Source/Company.js:323-334 | a callback the unit recorded under a stable key is no longer called by a publish of that type after a detach |
| Units.AttachedReceivesPublish | Source/Company.js:336-347 | after an attach, a callback the unit recorded is called exactly once by the next publish of its type |
| Units.Unit.constructor | Source/Company.js:205-217 | a new unit is attached, has an empty table and the empty prefix |
| Units.Unit.GetPrefix | Source/Company.js:310-312 | the current prefix |
| Units.Unit.SetPrefix | Source/Company.js:314-317 | the prefix is replaced |
| Units.Unit.IsAttached | Source/Company.js:319-321 | the attached flag |
| Units.Unit.DetachUnit | Source/Company.js:323-334 | idempotent; when attached, every locally recorded callback is removed from the bus, last one first, key by key; the local table is kept and the unit ends detached |
| Units.Unit.AttachKey | Source/Company.js:340-343 | the countdown loop adds the callbacks of one local key to the bus, last one first |
| Units.Unit.AttachUnit | Source/Company.js:336-347 | idempotent; when detached, every locally recorded callback is added back to the bus; the unit ends attached |
| Units.Unit.DestroyUnit | Source/Company.js:349-353 | the bus sees a detach, and the unit ends detached with an empty table |
| Units.Unit.Subscribe | Source/Company.js:355-373 | a leading `!` is stripped and forces replay; a finished record under the key redelivers it once and registers nothing; otherwise the callback is added locally, added to the bus only when attached, and replayed once exactly when attached, replay is on and a dispatched record exists |
| Units.Unit.Register | Source/Company.js:365-369 | the registration branch of `subscribe` |
| Units.Unit.Unsubscribe | Source/Company.js:375-383 | the pair is removed from the bus and from the local table |
| Units.Unit.Publish | Source/Company.js:385-390 | when attached, the bus records and delivers the type after the `!` and prefix rules and `removeOn`; a detached unit changes no bus state |
| Units.Unit.SubscribeHook | Source/Company.js:300-301 | a lifecycle hook is called at once with its type's finished record, or else waits in the tables under that type |
| Units.Unit.SetupUnit | Source/Company.js:288-303 | a non-empty prefix is set; `initSetup` is dispatched once with no arguments; `readySetup` and `loadSetup` are subscribed to `window.domready` and `window.load`; the deliveries come in that order |
| Units.HookDeliveries | Source/Company.js:300-301 | definition: subscribing a hook delivers something exactly when there is a hook and its type is finished, and then exactly one call with the finished record |
| Units.SetupTableHooks | Source/Company.js:300-301 | each hook of an unfinished lifecycle type ends up in that type's list, and no other type's list changes |
| Decoration.InstallAll | Source/Company.js:245-252 | definition: the host's methods afterwards are its old ones, unchanged, plus a trampoline for every Unit method it lacked |
| Decoration.UninstallAll | Source/Company.js:262-266 | definition: exactly the slots that are trampolines to the Unit method of the same name are deleted, and every other slot is kept |
| Decoration.InstallKeepsTrampolines | Source/Company.js:245-252 | on an undecorated host, every slot that is not the host's own is a trampoline to its own name |
| Decoration.UninstallLeavesOwn | Source/Company.js:262-266 | after undecorating, only the host's own methods are left |
| Decoration.Wrap | Source/Company.js:273-278 | `wrapEvents` leaves no `fireEvent` unwrapped, and the result is wrapped exactly when the host has a `fireEvent` |
| Decoration.Unwrap | Source/Company.js:280-283 | `unwrapEvents` leaves nothing wrapped, and the result is the original exactly when the host has a `fireEvent` |
| Decoration.WrapIdempotent | Source/Company.js:273-278 | `wrapEvents` never wraps twice |
| Decoration.UnwrapWrap | Source/Company.js:273-283 | unwrapping undoes a wrap, and restores the original of a host that was not wrapped |
| Decoration.UninstallInstalled | Source/Company.js:238-271 | decorate followed by undecorate gives a plain host exactly its methods back |
| Decoration.InstalledIdempotent | Source/Company.js:238-257 | installing the trampolines a second time adds nothing |
| Decoration.Host.IsUnit | Source/Company.js:230-236 | a host counts as a unit exactly while it is associated with one |
| Decoration.Host.FireEvent | Source/Company.js:219-226 | a wrapped host with a trampoline `publish` publishes on the bus and calls its original `fireEvent` (the bus trace and the host's own calls are separate sequences, so their relative order is not stated); a wrapped host with no `publish` fails before the original runs; an unwrapped host only calls the original; the subscriber table never changes |
| Decoration.Host.WrapEvents | Source/Company.js:273-278 | `fireEvent` is wrapped when it exists and is not wrapped already |
| Decoration.Host.UnwrapEvents | Source/Company.js:280-283 | a wrapped `fireEvent` gets its original back |
| Decoration.Host.InstallTrampolines | Source/Company.js:245-252 | the for-in loop installs `InstallAll` over the Unit's methods |
| Decoration.Host.DeleteTrampolines | Source/Company.js:262-266 | the for-in loop deletes `UninstallAll` over the Unit's methods |
| Decoration.Host.Decorate | Source/Company.js:238-257 | a no-op on a decorated host; otherwise a fresh attached Unit on the bus, the trampolines installed, and `fireEvent` wrapped unless `nowrap` |
| Decoration.Host.Undecorate | Source/Company.js:259-271 | the trampolines are deleted, `fireEvent` is unwrapped and the association is dropped; a no-op on an undecorated host |
| ModulePath.Split | Specs/testigo/runners/html/assets/require.js:27-28 | `split('/')` gives at least one segment, no segment holds a slash, and there are at most one more segment than characters |
| ModulePath.Join | Specs/testigo/runners/html/assets/require.js:40 | a single segment joins to itself, and the joined path has at least as many characters as there are separators, one fewer than the segments |
| ModulePath.JoinSplit | Specs/testigo/runners/html/assets/require.js:27 | joining the segments of a split gives the path back |
| ModulePath.SplitJoin | Specs/testigo/runners/html/assets/require.js:40 | splitting the join of a non-empty list of slash-free segments gives the list back |
| ModulePath.HasExtensionMatches | Specs/testigo/runners/html/assets/require.js:30 | the end-of-name scan holds exactly when the name matches `\.[A-Za-z0-9_-]+$`, in both directions |
| ModulePath.BaseDir | Specs/testigo/runners/html/assets/require.js:28-30 | the base directory is a prefix of the base's segments and at most one segment shorter |
| ModulePath.BaseDirLast | Specs/testigo/runners/html/assets/require.js:28-30 | the base directory keeps the last segment of the base exactly when that segment is non-empty and has no extension |
| ModulePath.Step | Specs/testigo/runners/html/assets/require.js:34-38 | one turn of the `switch` either leaves a prefix of the list (a skip or a pop) or pushes the segment, and grows the list by at most one |
| ModulePath.Resolve | Specs/testigo/runners/html/assets/require.js:31-39 | each module segment adds at most one segment |
| ModulePath.Normalized | Specs/testigo/runners/html/assets/require.js:26-41 | the result has at most as many segments as the base directory and the module path together |
| ModulePath.Reverse | Specs/testigo/runners/html/assets/require.js:27 | definition: the reversed list has the same length, with the entries in the opposite order |
| ModulePath.Normalize | Specs/testigo/runners/html/assets/require.js:26-41 | the push/pop loop over the reversed segments joins the segments of `Normalized`, which handles the module segments left to right |
| ModulePath.ResolveAppend | Specs/testigo/runners/html/assets/require.js:31-39 | handling two runs of segments one after the other is handling their concatenation |
| ModulePath.DotIsSkipped | Specs/testigo/runners/html/assets/require.js:35 | a "." segment anywhere changes nothing |
| ModulePath.DotDotPops | Specs/testigo/runners/html/assets/require.js:36 | a ".." segment removes the last segment so far, and does nothing on an empty list |
| ModulePath.DotDotCancels | Specs/testigo/runners/html/assets/require.js:36-37 | an ordinary segment followed by ".." leaves no trace |
| ModulePath.ResolveSimple | Specs/testigo/runners/html/assets/require.js:37 | without "." and "..", every segment, empty ones included, is appended in the original order |
| ModulePath.NormalizedSimple | Specs/testigo/runners/html/assets/require.js:29-40 | a simple module path resolves to the base directory followed by the module segments |
| ModulePath.EnsureJs | Specs/testigo/runners/html/assets/require.js:18 | the path ends with ".js" afterwards and extends the old one by at most three characters; a path already ending with ".js" is unchanged, and no other path is |
| ModulePath.EnsureJsIdempotent | Specs/testigo/runners/html/assets/require.js:18 | applying the rule twice is applying it once |
| ModulePath.ResolveExample | Specs/testigo/runners/html/assets/require.js:26-41 | "../x" against the directory of "/a/b/page.html" resolves to "/a/x" |
| Scenarios.PublishTwice | Specs/suites/test.setup.js:102-123 | a subscriber is called twice by two publishes, each time with the published arguments |
| Scenarios.TwoSubscribers | Source/Company.js:144-145 | two subscribers of one type are called by a publish in the order they subscribed, each with the arguments |
| Scenarios.AcrossUnits | Specs/suites/test.setup.js:125-136 | a subscription on one unit is called once with what another unit publishes |
| Scenarios.SubscribeUnsubscribe | Specs/suites/test.setup.js:73-100 | after `subscribe` the bus list is exactly the callback; after `unsubscribe` it is empty |
| Scenarios.FinalPublish | Specs/suites/test.setup.js:152-163 | after a finishing publish, each later subscriber is called once at once, and nothing is registered |
| Scenarios.ReplayOnSubscribe | Specs/suites/test.setup.js:165-180 | after one publish, a plain subscription is not called, while one with replay on and one with a leading `!` are each called once with the published arguments |
| Scenarios.BangSubscribe | Source/Company.js:358-368 | a subscription with a leading `!` on an attached unit replays the last publish of the type once |
| Scenarios.DetachedMisses | Specs/suites/test.setup.js:182-195 | a detached unit's subscriber is called by the first publish only |
| Scenarios.ReattachedReceives | Specs/suites/test.setup.js:197-211 | a subscription made while detached is called once per publish after reattaching |
| Scenarios.UnsubscribedReattached | Source/Company.js:323-390 | detach, subscribe, unsubscribe, attach: the unit puts nothing back, and a publish calls nobody |
| Scenarios.DestroyedStaysOff | Source/Company.js:336-353 | after `destroyUnit`, attaching again registers nothing, and a publish calls nobody |
| Holes.CollapseMembers | Source/Company.js:380 | a callback is in the collapsed array exactly when some slot of the array holds it |
| Holes.IncludeSlot | Source/Company.js:365 | `include` on an array with holes, seen collapsed, is `Include` on the collapsed array |
| Holes.IndexOf | Source/Company.js:380 | the first slot holding the callback, or -1 exactly when no slot holds it |
| Holes.DeleteSlot | Source/Company.js:380 | deleting turns the first slot holding the callback into a hole, keeps the length and every slot not holding the callback, and changes nothing when no slot holds it |
| Holes.CollapseDelete | Source/Company.js:380 | on an array whose callbacks are distinct, deleting and then collapsing is collapsing and then `Erase`: the collapsed local table of `Units.Unit.Unsubscribe` is faithful to the array |
| Holes.Walk | Source/Company.js:340-343 | definition: the countdown loop reads every slot, the last first |
| Holes.WalkReadsHoles | Source/Company.js:326-343 | the loops of `detachUnit` and `attachUnit` hand `undefined` on exactly when the array has a hole |
| Holes.IncludeEach | Source/Company.js:342 | including a series keeps the old list as a prefix and holds exactly the old values and the series |
| Holes.AttachAsWritten | Source/Company.js:336-347 | the attach loop as written keeps the old bus list as a prefix, and a hole in the unit's array puts `undefined` on it |
| Holes.FireAsWritten | Source/Company.js:69-72 | a publish throws exactly when the bus list holds `undefined`; without one it calls every entry once, in order, with the arguments |
| Holes.AttachGuarded | Source/Company.js:336-347 | definition: the attach loop with a hole test keeps the old bus list as a prefix |
| Holes.GuardedAttachCollapses | Source/Company.js:340-343 | the model's attach of one key over the collapsed array leaves the bus list the hole-testing loop would build from the real array |
| Holes.UnsubscribedHoleThrows | Source/Company.js:336-347 | after subscribe and unsubscribe on a detached unit the unit's array is one hole and the bus list is empty; the attach loop hands `undefined` to `addEvent`, which stores it, and the next publish throws before calling anything |
| Holes.UnsubscribedHoleSkipped | Source/Company.js:336-347 | with the hole test the same array puts nothing on the bus, and the model's attach leaves any bus list as it was |
| Scenarios.PrefixedPublish | Specs/suites/test.setup.js:242-253 | a publish by a unit with prefix `b` reaches a subscriber of `b.event` once, with the arguments |
| Scenarios.PrefixChanges | Specs/suites/test.setup.js:233-240 | the descriptor's prefix, and later the one set with `setPrefix` |
| Scenarios.InitSetupRuns | Specs/suites/test.setup.js:263-272 | `initSetup` is called exactly once, with no arguments |
| Scenarios.PageLoaded | Source/Company.js:166-199 | after the two lifecycle publishes and a flush, both finished records are still there |
| Scenarios.LifecycleSetupRuns | Specs/suites/test.setup.js:274-284 | once the page has loaded, a unit with the same function as `readySetup` and `loadSetup` has it called twice at once, even after a flush |
| Scenarios.DecorateUndecorate | Specs/suites/test.constructor.js:66-75 | a decorated host is a unit; an undecorated one is not, and has its methods back |
| Scenarios.WrapCallUnwrap | Specs/suites/test.constructor.js:116-147 | the host's `fireEvent` is wrapped, still calls the original exactly once, and after unwrapping is the original again |
| Scenarios.HostEventsReachBus | Source/Company.js:273-276 | the wrapped `fireEvent` of a decorated host publishes the event to the bus subscribers and then calls the original |

## Findings

| source | as written | input that shows it | evidently intended | confidence | as-written member | corrected member |
|---|---|---|---|---|---|---|
| Source/Company.js:336-347 | `attachUnit` reads every index of the unit's array under `while (len--)`, with no hole test, and hands a hole to `addEvent` as `undefined`; `include` then stores `undefined` in the bus list (`detachUnit` at `:326-331` likewise hands `undefined` to `removeEvent`) | `u.detachUnit(); u.subscribe('event', f); u.unsubscribe('event', f); u.attachUnit(); u.publish('event')`: the unit's array is `[hole]` and the bus list empty when `attachUnit` runs; with the immediate dispatch the publish throws at `current.apply` (`:71`) | skip holes, as `removeEvents` does with `i in fns` (`:159`), so that the publish calls nobody | medium, not executed: rests on the event library's `delete` and `include`, which are not part of this model; the `detachUnit` half further rests on `removeEvent(key, undefined)` returning normally, which that library may not do | Holes.UnsubscribedHoleThrows | Scenarios.UnsubscribedReattached |

## Left out

- The browser mediator of `Dispatcher.setup` (`Source/Company.js:80-109`) is not modelled. It is DOM/IE event plumbing that would make delivery asynchronous or isolated. Only the immediate `dispatch` is modelled.
- The window `domready`/`load` bridge (`Source/Company.js:192-199`) is not modelled as a browser event. Its effect, two finishing publishes of the lifecycle types, appears in `Scenarios.PageLoaded`.
- Error isolation is not modelled. The immediate `dispatch` has none, and callbacks are ids without behaviour. The test of three subscribers, one of which throws (`Specs/suites/test.setup.js:138-150`), depends on the browser mediator.
- Re-entrancy is not modelled: a callback cannot publish or subscribe during a delivery.
- The execution context `$ownerObj` (`Source/Company.js:363`, `:71`) is left out.
- `mix`, `unwrapClass` and `extendUnit` (`Source/Company.js:33-64`, `:305-308`, and the per-host `extendUnit` at `:241-244`) are left out. They rely on reflection over MooTools types and classes. The same goes for the descriptor keys other than `Prefix` and the three hooks, and for the `Uses` key of `setupUnit`.
- `Units.Unit.constructor`: only `new Unit` without a descriptor is modelled. A descriptor is applied by a separate call of `SetupUnit` with the keys that `setupUnit` acts on, because `extendUnit` is left out.
- `Units.Unit.SetupUnit`: the hooks are identified with the wrapper closures that `setupUnit` subscribes. A delivery records the arguments the wrapper receives; the wrapper calls the hook itself with none.
- `Units.Unit.SetupUnit`: `initSetup` is recorded with no arguments. The stale `callback.args` that a bare `dispatch` hands to its wrapper is not modelled.
- `Units.Unit.SetPrefix`: takes a string. The `(str || '').toString()` conversion of other values is not modelled.
- `Units.Unit.Subscribe` and `Units.Unit.Unsubscribe`: only the string-key form is modelled. The mapping forms (`Source/Company.js:356-357`, `:376-377`) recurse into the string form once per entry.
- `Bus.Dispatcher.FireEvent`: the arguments are already a list. `Array.from` of other values (`Source/Company.js:141`) is not modelled.
- `Decoration.Host.Decorate`: the `setupUnit` called at `Source/Company.js:253` is taken to be the installed trampoline, which runs an empty setup on the fresh Unit. A host that brings its own `setupUnit` is not modelled.
- `Decoration.Host.FireEvent`: a host's own `publish` is assumed to be a function. A wrapped host whose `publish` is its own method runs that method, and its effect is not modelled; an own `publish` that is truthy but not a function makes the source throw a TypeError at `Source/Company.js:275` before the original runs, while the model reports `ok` and records the original's call.
- `Decoration.Host.FireEvent`: the TypeError of a wrapped host without `publish` is modelled as the result `false`, with nothing else called.
- The `$family` exclusion of `decorate` and the `$origin` identity of each trampoline are represented by the name-indexed `Trampoline(origin)` slots. The model does not tell apart two Units whose method functions are the same.
- `isUnit` of an object that is itself a Unit (`typeOf(obj) === 'unit'`) is not modelled. Only hosts are.
- `Units.Unit.DetachUnit`: works on the collapsed local table. After an `unsubscribe`, the source's loop reads the hole and calls `removeEvent(key, undefined)`; the model makes no such call. `Units.DetachAttachRoundTrip` and `Units.DetachedMissesPublish` speak of collapsed tables, that is of tables without holes. `Holes` states the difference.
- `Units.Unit.AttachUnit`: works on the collapsed local table. After an `unsubscribe`, the source's loop calls `addEvent(key, undefined)`, and the library stores `undefined` (see Findings); the model makes no such call. `Units.DetachAttachRoundTrip` and `Units.AttachedReceivesPublish` speak of tables without holes.
- `Units.Unit.Subscribe`: records are modelled as maps without inherited members. `$finished` is a plain object, so for a type that names a property of `Object.prototype` ("constructor", "toString", …) the source's `redispatch` succeeds, calls the callback with the inherited value and registers nothing, while the model registers the callback.
- `Bus.Dispatcher.Redispatch`: for such a type the source finds the inherited property and dispatches; the model finds no record.
- `Bus.Dispatcher.Replay`: the same for `$dispatched`.
- `Bus.Dispatcher.GetFinished`: for such a type the source returns the inherited property; the model returns none.
- `Bus.Dispatcher.GetDispatched`: for such a type the source returns the inherited property; the model returns an empty list.
- `Bus.Dispatcher.FireEvent`: for such a type the source finds an inherited member in `$events` and calls its `each`, or fails when it has none; the model sees an empty list.
- `Bus.Dispatcher.Flush`: the keep test of `Source/Company.js:173-176` and `:180-183` looks the type up in an object literal, which also finds `Object.prototype` members. An own record under "toString", "constructor", "valueOf" or another such name therefore survives the source's flush, and a record under "hasOwnProperty" hides that method so the loop throws part-way; the model deletes every such record.
- `Bus.KeepReserved`: states the keep test for names that are not `Object.prototype` members only; see the line above.
- Types naming `Object.prototype` members are outside the model in general: the event library's tables are plain objects, so `Bus.Dispatcher.AddEvent`, `Bus.Dispatcher.RemoveEvent` and `Units.Unit.Unsubscribe` on such a type may meet an inherited member where the model sees no list.
- `Decoration.UnitMethods`: the enumerable function properties of a Unit are taken to be exactly the listed methods (`Source/Company.js:205-390`). They really depend on the MooTools `Type` of `Source/Company.js:228`, which is not part of this model. Any other enumerable function property, such as a `$constructor` that MooTools may add, would also get a trampoline from the loop at `Source/Company.js:245`.
- The inspection facade `Unit.Dispatcher` (`Source/Company.js:397-469`), with its snapshots and spy wrappers, is not modelled.
- `load` and `require` of the test runner (`Specs/testigo/runners/html/assets/require.js:16-24`, `:43-59`) are not modelled. They are synchronous HTTP requests and code evaluation. Only their `.js` rule and `normalize` are modelled.
- The Testigo test framework, its runners and the ToDo example application are outside the core.
