# yo-next in Dafny

yo-next is a small meta-object protocol for JavaScript. It adds six
operations to every function, so that any function can act as a class:

- `derive(ctor, ext)` and `extend(ctor, ext)` make subclasses;
- `define(name, impl)` installs members;
- `around`, `before` and `after` wrap existing members with advice.

Every installed function is built with the combinator `override(ol, yo)`.
Calling it runs `yo` on the original receiver and arguments. Inside, `yo.next()`
calls the shadowed implementation `ol`, or throws "No next method" when there
is none. `lookup(ctor, name)` finds the implementation to shadow: it walks
`ctor = ctor.prototype.constructor` and returns a wrapper that reads
`ctor.prototype[name]` only when it is called. `define` and the three advice
operations also accept a single mapping, which they apply entry by entry
(`acceptMap`). `seriously` is the own-property test.

The model has three parts:

- **The heap** (`Prototypes`). A `World` holds prototype objects and a class
  table. Each prototype has an own-property map and an optional link to the
  next prototype in its chain. Each class has a constructor body and a
  prototype. Reading a property walks the chain. `constructor` is an ordinary
  property like any other: a root class's prototype owns it, and a derived
  class inherits it. `Valid` says that links point backwards and that an own
  `constructor` naming a class sits on that class's prototype.
- **Calls** (`Dispatch`). Functions are values of the `Callable` datatype:
  - user scripts made of `Emit`, `CallNext` and `Const` steps;
  - class constructors;
  - the function `override` builds;
  - the wrapper `lookup` returns;
  - the fixed bodies of `before`, `after` and `extend`.

  Calling a function returns the trace of events it emitted and a normal or
  thrown completion. The `next` continuation is passed with each call. Fuel
  bounds the depth of the call chain.
- **The operations** (`Protocol`, `Realms`). `Protocol` defines each operation
  as a function from the world before the call to the world after it. The
  class `Realms.Realm` keeps the prototypes and classes as fields. Its
  methods update those fields in place, and each method is proved to perform
  exactly its `Protocol` function. `Realm.Lookup` is the `while` loop of
  `lookup`, and `Realm.Batch` is the `for-in` loop of `acceptMap`.

## Behaviour of the code worth knowing

- Redefining a name other than `constructor` does not chain to the earlier
  definition (yo-next.js:20-21). `define` never reads the class's own previous member,
  so the new function's `next` reaches what the old one's reached
  (`DefineLemmas.DefineIgnoresOwnValue`, `DefineLemmas.DefineTwiceSkipsFirst`).
- `derive` gives the new prototype no `constructor` of its own
  (yo-next.js:3-4). So `prototype.constructor` of a derived class at any
  depth is the root class its chain started from. `lookup` therefore takes
  at most one step, and that step goes straight to the root. A grandchild's
  `define` chains to the root's member even when the class in between has
  its own (`DeriveLemmas.GrandchildDefineSkipsParent`).
- `around` on a root class, for a name the root does not own, wraps
  `lookup(this, name)` (yo-next.js:15). That wrapper reads the root's
  prototype again, and the prototype now holds the wrapping function itself.
  A body that calls `next()` therefore recurses without end
  (`AdviceLemmas.AroundOnRootRecurses`: it always runs out of fuel).
- `lookup` returns null when `ctor` is falsy (yo-next.js:40), and also when
  `ctor` is a class whose walk steps to a `prototype.constructor` that is
  falsy (yo-next.js:35-40, `LookupLemmas.ResolveNullIff`). The model returns
  null for every `ctor` that is not a class; the `Dispatch.Resolve` line under
  "Left out" says where that is wider than JavaScript.
- A function `define`d on a derived class, when the root has no member of
  that name, is wrapped over the root's `lookup` wrapper, not over null. Its
  `next()` then fails with the TypeError of calling undefined at
  yo-next.js:39, not with "No next method"
  (`DefineLemmas.DefineFunctionWiring`, `LookupLemmas.LookupWrapperOfMissingName`).
  "No next method" (yo-next.js:71) comes only from a continuation over a
  falsy value: null, as after a `define` on a root class
  (`DefineLemmas.DefineOnRootHasNoNext`), or a falsy own value that `around`
  wraps, as after `define("x", 0)` followed by `around("x", f)`.
- A root class's constructor, and any body that was never run through
  `override`, has no `next` to call (`OverrideLemmas.DirectCallHasNoNext`).
  What JavaScript does with the slot left over from an earlier call is
  described under "Left out".

## Model

| member | source | states |
|---|---|---|
| Prototypes.Owns | yo-next.js:52-54 | `seriously`: an own property exists only on an existing prototype, and a read there finds it |
| Prototypes.SetOwn | yo-next.js:15 | `proto[name] = v` changes that one own entry and nothing else: no other prototype, no link, no class |
| FuelLemmas.ApplyFuelMono | yo-next.js:67-76 | a call that does not run out of fuel has the same outcome with one more unit of fuel |
| FuelLemmas.RunFuelMono | yo-next.js:68-75 | the same for running a body, including the bodies of yo-next.js:10, 26, 31 and 39 |
| FuelLemmas.RunStepsFuelMono | yo-next.js:74 | the same for a user script |
| FuelLemmas.ExecFuelMono | yo-next.js:74 | the same for one script step |
| FuelLemmas.NextFuelMono | yo-next.js:70-73 | the same for a call of `next` |
| FuelLemmas.ApplyFuelMonoAll | yo-next.js:67-76 | a call (`Apply`) that does not run out of fuel has the same outcome with any larger fuel, so fuel only bounds the call depth |
| Protocol.DefinePrior | yo-next.js:21 | the continuation `define` uses is null on a root; otherwise null or the `lookup` wrapper for `name` of a different class, which is a root and is the `prototype.constructor` read |
| Protocol.AroundPrior | yo-next.js:15 | the continuation `around` uses is the own member when there is one; otherwise null or the `lookup` wrapper of a root, and on a root that root itself |
| Prototypes.OwnVersusInherited | yo-next.js:52-54 | a property read (`ChainGet`, the `proto[name]` of yo-next.js:15 and 39) finds an own property directly; a missing one ends the chain as undefined or is read from the next prototype |
| Prototypes.SetOwnOtherNames | yo-next.js:15 | assigning `proto[name]` changes the read of no other name, from any prototype |
| Prototypes.SetOwnReadBack | yo-next.js:15 | after assigning `proto[name]`, the prototype owns `name` and reads back the assigned value |
| Prototypes.SetOwnValid | yo-next.js:15 | assigning a property keeps the heap well formed, unless a class is written into `constructor` |
| Prototypes.CtorLeadsToRoot | yo-next.js:35-36 | a `constructor` read that finds a class finds a root, whose prototype's constructor is itself |
| Prototypes.ChainGetGrow | yo-next.js:4 | appending prototypes changes no read that starts at an existing one |
| Dispatch.Resolve | yo-next.js:34-41 | `lookup` yields null or a wrapper for `name` on a class where the walk stops (a root, or an owner of `name`); null for a non-class `ctor` |
| Realms.Realm.Lookup | yo-next.js:34-41 | the `while` loop of `lookup`, guarded by `Walks` (yo-next.js:35), ends and returns what `Resolve` returns |
| LookupLemmas.ResolveOneStep | yo-next.js:35-37 | the walk (`Walks`, the loop guard) stops at a root or an owner of `name`; otherwise it takes one step, to a root, or returns null when the step finds no class |
| LookupLemmas.ResolveFromRoot | yo-next.js:35 | from a root class the walk does not move |
| LookupLemmas.ResolveNullIff | yo-next.js:38-40 | `lookup` returns null exactly when `ctor` is not a class, or its walk steps to something that is not a class |
| LookupLemmas.LookupWrapperReadsLate | yo-next.js:38-39 | running (`Run`) the `lookup` wrapper applies whatever `ctor.prototype[name]` holds at call time, with the same receiver and arguments |
| LookupLemmas.LookupWrapperOfMissingName | yo-next.js:39 | calling the wrapper of a name that reads undefined is a TypeError: `.apply` (`Apply`) on a non-function |
| OverrideLemmas.OverrideRunsYo | yo-next.js:67-76 | calling (`Run`) the function `override(ol, yo)` builds runs `yo` with the same receiver and arguments and `next` bound to `ol` |
| OverrideLemmas.NextWithoutArguments | yo-next.js:70-74 | `next()` (`Next`, forwarding by `Forwarded`) runs `ol` with the original arguments after the body's earlier effects; a falsy `ol` throws "No next method" |
| OverrideLemmas.NextWithArguments | yo-next.js:72 | `next(xs...)` (`Next`, forwarding by `Forwarded`) with arguments runs `ol` with exactly those; a falsy `ol` throws "No next method" |
| OverrideLemmas.DirectCallHasNoNext | yo-next.js:70 | a body never run through `override` has no `next`: calling it is a TypeError |
| OverrideLemmas.NextTwice | yo-next.js:70-74 | `next()` called twice runs `ol` twice, each time with the original arguments |
| OverrideLemmas.UnusedNextIsIrrelevant | yo-next.js:70-74 | a body that never calls `next` behaves the same whatever `ol` is |
| Protocol.DefineW | yo-next.js:18-23 | `define` keeps the heap well formed and leaves the class table unchanged |
| Protocol.AroundW | yo-next.js:13-17 | `around` keeps the heap well formed and leaves the class table unchanged |
| Protocol.BeforeW | yo-next.js:24-28 | `before` keeps the heap well formed and leaves the class table unchanged |
| Protocol.AfterW | yo-next.js:29-33 | `after` keeps the heap well formed and leaves the class table unchanged |
| Protocol.ApplyOp | yo-next.js:42-51 | the two-argument call of any of the four operations keeps the heap well formed and the class table unchanged |
| Protocol.BatchW | yo-next.js:44-48 | the one-argument call with a mapping keeps the heap well formed and the class table unchanged |
| Protocol.NewRootW | yo-next.js:56-57 | a plain function whose prototype owns `constructor` as itself is a well-formed new class, a root, and every old prototype and class is kept |
| Protocol.DeriveW | yo-next.js:3-4 | `derive` adds exactly one class and one prototype, keeps every old one, and keeps the heap well formed |
| Protocol.DeriveFull | yo-next.js:2-7 | `derive` with definitions adds exactly one class and keeps the heap well formed |
| Protocol.ExtendW | yo-next.js:8-12 | `extend` adds exactly one class and keeps the heap well formed |
| Realms.Realm.NewRoot | yo-next.js:56-57 | the method adds a root class and updates the fields as `NewRootW` does |
| Realms.Realm.Define | yo-next.js:18-23 | the method updates the fields as `DefineW` does and returns the class |
| Realms.Realm.Around | yo-next.js:13-17 | the method updates the fields as `AroundW` does and returns the class |
| Realms.Realm.Before | yo-next.js:24-28 | the method updates the fields as `BeforeW` does and returns what `around` returns, the class |
| Realms.Realm.After | yo-next.js:29-33 | the method updates the fields as `AfterW` does and returns the class |
| Realms.Realm.Perform | yo-next.js:49 | the two-argument call of an operation updates the fields as `ApplyOp` does and returns the class |
| Realms.Realm.Batch | yo-next.js:44-47 | the `for-in` loop applies the entries as `BatchW` does and returns the last result, undefined for an empty mapping |
| Realms.Realm.Derive | yo-next.js:2-7 | the method updates the fields as `DeriveFull` does and returns the new class |
| Realms.Realm.Extend | yo-next.js:8-12 | the method updates the fields as `ExtendW` does and returns the new class |
| DefineLemmas.DefineStoresData | yo-next.js:19-20 | a non-function is stored as an own property, overwriting the old one; no other prototype, name or class changes |
| DefineLemmas.DefineFunctionWiring | yo-next.js:20-21 | a function is wrapped over null on a root, and otherwise over the wrapper for the root that `prototype.constructor` names |
| DefineLemmas.DefineOnRootHasNoNext | yo-next.js:21 | on a root, a defined method that calls `next()` throws "No next method" after its earlier effects |
| DefineLemmas.DefineIgnoresOwnValue | yo-next.js:21 | for any name other than `constructor`, whatever the class owned under it before, `define` installs the same thing |
| DefineLemmas.DefineTwiceSkipsFirst | yo-next.js:21 | a second definition chains to what the first one chained to, not to the first one |
| AdviceLemmas.AroundWrapsOwn | yo-next.js:15 | `around` on an owned name wraps the own value |
| AdviceLemmas.AroundWrapsLookup | yo-next.js:15 | `around` on a name that is not owned wraps `lookup(this, name)`: the wrapper of the root, or null |
| AdviceLemmas.AroundOnRootRecurses | yo-next.js:15 | on a root, `around` for a name it does not own, with a body that calls `next()`, never returns |
| AdviceLemmas.AroundNests | yo-next.js:14-16 | repeated `around` nests: the last one applied runs outermost, with `next` reaching the previous one |
| AdviceLemmas.BeforeOrder | yo-next.js:25-27 | `before` runs the advice with the original arguments, then the wrapped implementation, and returns the latter's result; an exception in the advice stops the call |
| AdviceLemmas.AfterOrder | yo-next.js:30-32 | `after` runs the wrapped implementation first, then the advice, and returns the advice's result; an exception in the wrapped implementation stops the call |
| AdviceLemmas.BeforeTwice | yo-next.js:25-27 | after `before` has been applied twice, the second advice runs first, then the first advice, then the original |
| BatchLemmas.ApplyOpFrame | yo-next.js:13-23 | each operation changes no object other than the class's own prototype and adds none |
| BatchLemmas.BatchFrame | yo-next.js:44-48 | a whole mapping, too, changes no object other than the class's own prototype and adds none |
| BatchLemmas.ApplyOpOtherNames | yo-next.js:13-23 | each operation writes only the name it is given |
| BatchLemmas.BatchSingle | yo-next.js:44-49 | a mapping with one entry is the two-argument call |
| BatchLemmas.BatchFirstThenRest | yo-next.js:45-46 | entries are applied first to last: the mapping is the call on its first entry followed by the rest |
| BatchLemmas.BatchAppend | yo-next.js:45-46 | applying a mapping's entries is the same as applying any prefix of them and then the remainder |
| BatchLemmas.BatchOtherNames | yo-next.js:45-46 | a name that no entry carries reads as before |
| BatchLemmas.BatchDefineLastWins | yo-next.js:45-46 | `define` with a mapping stores each data entry as an own property, and the last entry for a name wins |
| DeriveLemmas.DeriveInherits | yo-next.js:3-4 | `derive` leaves the old classes and prototypes and every old read unchanged; the new prototype has no own members, links to the parent's prototype and reads every name as it does |
| DeriveLemmas.DerivedConstructor | yo-next.js:4 | a derived class is not its prototype's constructor; that constructor is the parent's, hence the root |
| DeriveLemmas.ApplyClass | yo-next.js:3 | calling a class runs the body of its constructor |
| DeriveLemmas.DeriveCtorNext | yo-next.js:3 | the derived constructor runs `ctor` with `next` bound to the parent class |
| DeriveLemmas.DeriveFullKeepsOld | yo-next.js:2-12 | `derive` and `extend` with definitions add one prototype and one class and keep every old prototype, class and read: the definitions go to the new prototype only |
| DeriveLemmas.DeriveFullClasses | yo-next.js:3-5 | definitions passed to `derive` do not touch the class table; the new class's constructor is `override(parent, ctor)` |
| DeriveLemmas.ExtendOrder | yo-next.js:9-11 | an `extend`ed constructor runs the parent constructor with the original receiver and arguments, then `ctor`, and returns `ctor`'s result; an exception in the parent stops it |
| DeriveLemmas.ExtendTwiceOrder | yo-next.js:9-11 | across two `extend`s from class `k`, `k`'s constructor runs first, then the child's body, then the grandchild's |
| DeriveLemmas.GrandchildDefineSkipsParent | yo-next.js:21 | `define` on a grandchild chains to the root's member even when the middle class owns `name` |

## Left out

- The `Object.create` polyfill (yo-next.js:60-64) is replaced by "a new prototype object linked to the parent's prototype".
- The patching of `Function.prototype` (yo-next.js:57) is not modelled. The operations are methods of `Realms.Realm` that take a class number.
- The shared `yo.next` slot (yo-next.js:70) is replaced by a continuation passed with each call. Two things are not modelled as a result. Nested or re-entrant calls of the same wrapped function overwrite that slot. And the slot is never cleared after a call: when a function that once ran through `override` is later called directly, its `next` still reaches the last continuation bound. Such direct calls include the `ctor.apply` of yo-next.js:10 and the `impl.apply` of yo-next.js:26 and 31.
- OverrideLemmas.DirectCallHasNoNext: holds for a body whose `yo.next` was never set. A body that once ran through `override` and is then called directly would, in JavaScript, rerun the last bound continuation on that earlier call's receiver and arguments.
- JavaScript `new` is not modelled. A constructor is called like any function, on the receiver it is given, and the object-versus-primitive rule for its result is absent.
- The `arguments` object is modelled as a sequence of values. Only its length matters here: `next()` versus `next(x...)`.
- `Object.prototype` is a chain end with no members.
- `for-in` order: a mapping is given as the sequence of its own entries, in enumeration order. Inherited enumerable entries are skipped by the `seriously` filter, so they are absent from the model.
- `acceptMap` called with exactly one argument that is not a mapping (yo-next.js:44-47) is not modelled: the model's batch form always receives a mapping.
- The `ext` argument of `derive` is modelled as present or absent. A falsy non-mapping `ext` is the same as an absent one, so the model does not separate the two.
- Dispatch.Resolve: a `prototype.constructor` that is a function but not a class ends the walk as if it were falsy. This can only happen after a user defines or wraps `constructor`. JavaScript would continue the walk at that function's default prototype, or throw a TypeError for a non-function. Likewise a `ctor` argument that is truthy but not a class yields null, where JavaScript would walk a plain function's prototype, or throw a TypeError reading `prototype.constructor` of a non-function.
- Call depth is bounded by fuel (`Dispatch.Apply`), and running out is reported as `OutOfFuel`. This stands for JavaScript's stack overflow.
- User code is modelled by a small script language (emit an event, call `next`, yield a constant), not by arbitrary closures.
- Function identity is structural equality of `Callable` values. That is enough for the two identity tests the code makes, `proto.constructor === this` (yo-next.js:21) and `ctor !== ctor.prototype.constructor` (yo-next.js:35), because both compare classes and a class is its class number.
