/** Method resolution and invocation: the ancestor walk of `lookup`
    (yo-next.js:34-41) and what calling a function does, in particular the
    continuation that `override` hands to its implementation (yo-next.js:67-76). */
module Dispatch {
  import opened Values
  import opened Prototypes

  /** The loop guard of `lookup`: `ctor`, which is not a root, does not own `name`. */
  predicate Walks(w: World, ctor: Value, name: string)
  {
    match AsClass(w, ctor)
    case None => false
    case Some(k) => !IsSelfCtor(w, k) && !Owns(w, ProtoOf(w, k), name)
  }

  /** Where the walk stops for a class: it is a root, or its prototype owns `name`. */
  predicate Stops(w: World, k: ClassId, name: string)
  {
    k < |w.classes| && (IsSelfCtor(w, k) || Owns(w, ProtoOf(w, k), name))
  }

  function Rank(w: World, ctor: Value): nat
  {
    match AsClass(w, ctor)
    case None => 0
    case Some(k) => if IsSelfCtor(w, k) then 1 else 2
  }

  /** `lookup(ctor, name)`: walk `ctor = ctor.prototype.constructor` until the
      walk stops, then return the wrapper that reads `ctor.prototype[name]` at
      call time, or null when the walk reached no class. */
  function Resolve(w: World, ctor: Value, name: string): (r: Value)
    requires Valid(w)
    ensures r == Null || (r.Fn? && r.f.LookupWrapper? && r.f.name == name && Stops(w, r.f.owner, name))
    ensures AsClass(w, ctor).None? ==> r == Null
    decreases Rank(w, ctor)
  {
    match AsClass(w, ctor)
    case None => Null
    case Some(k) =>
      if !Walks(w, ctor, name) then Fn(LookupWrapper(k, name))
      else
        CtorLeadsToRoot(w, ProtoOf(w, k));
        Resolve(w, ChainGet(w, ProtoOf(w, k), "constructor"), name)
  }

  /** Calling the value `v` with receiver `self` and arguments `args`
      (`v.apply(self, args)`). Every call spends one unit of fuel. */
  function Apply(w: World, v: Value, self: Value, args: seq<Value>, fuel: nat): Outcome
    decreases fuel, 0, 0
  {
    if !v.Fn? then Throw(NotCallable)
    else if fuel == 0 then Throw(OutOfFuel)
    else Run(w, v.f, Unbound, self, args, fuel - 1)
  }

  /** Running a function body that sees `cont` as its `next`. */
  function Run(w: World, c: Callable, cont: Cont, self: Value, args: seq<Value>, fuel: nat): Outcome
    decreases fuel, 1, Size(c)
  {
    match c
    case Script(steps) => RunSteps(w, steps, cont, self, args, fuel)
    case ClassFn(k) =>
      if k >= |w.classes| then Throw(NotCallable)
      else if fuel == 0 then Throw(OutOfFuel)
      else Run(w, w.classes[k].ctor, cont, self, args, fuel - 1)
    case Override(ol, yo) =>
      // yo.next = the continuation over ol, self and args; yo.apply(self, args)
      if !yo.Fn? then Throw(NotCallable)
      else Run(w, yo.f, Bound(ol, self, args), self, args, fuel)
    case LookupWrapper(k, name) =>
      if k >= |w.classes| then Throw(NotCallable)
      else Apply(w, ChainGet(w, ProtoOf(w, k), name), self, args, fuel)
    case CallThenNext(impl) =>
      Then(Apply(w, impl, self, args, fuel), Next(w, cont, [], fuel))
    case NextThenCall(impl) =>
      Then(Next(w, cont, [], fuel), Apply(w, impl, self, args, fuel))
  }

  function RunSteps(w: World, steps: seq<Step>, cont: Cont, self: Value, args: seq<Value>, fuel: nat): Outcome
    decreases fuel, 1, |steps|
  {
    if |steps| == 0 then Outcome([], Normal(Undefined))
    else if |steps| == 1 then Exec(w, steps[0], cont, self, args, fuel)
    else Then(Exec(w, steps[0], cont, self, args, fuel), RunSteps(w, steps[1..], cont, self, args, fuel))
  }

  function Exec(w: World, s: Step, cont: Cont, self: Value, args: seq<Value>, fuel: nat): Outcome
    decreases fuel, 0, 2
  {
    match s
    case Emit(t) => Outcome([Event(t, self, args)], Normal(Undefined))
    case CallNext(xs) => Next(w, cont, xs, fuel)
    case Const(v) => Outcome([], Normal(v))
  }

  /** Calling `next(xs...)`: no continuation is a TypeError (the function was
      not called through `override`); a falsy `ol` is "No next method"; otherwise
      `ol` runs on the original receiver with the forwarded arguments. */
  function Next(w: World, cont: Cont, xs: seq<Value>, fuel: nat): Outcome
    decreases fuel, 0, 1
  {
    match cont
    case Unbound => Throw(NotCallable)
    case Bound(ol, self, args) =>
      if !Truthy(ol) then Throw(NoNext)
      else Apply(w, ol, self, Forwarded(xs, args), fuel)
  }
}
