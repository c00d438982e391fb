/** Where `lookup(ctor, name)` stops and what its wrapper does (yo-next.js:34-41). */
module LookupLemmas {
  import opened Values
  import opened Prototypes
  import opened Dispatch

  /** The walk stops at `ctor` itself when it is a root or owns `name`; otherwise
      it takes exactly one step, to the class found as `ctor.prototype.constructor`,
      which is a root and therefore ends the walk. Null comes back only when the
      walk reaches something that is not a class. */
  lemma ResolveOneStep(w: World, k: ClassId, name: string)
    requires Valid(w) && k < |w.classes|
    ensures Stops(w, k, name) ==> Resolve(w, ClassValue(k), name) == Fn(LookupWrapper(k, name))
    ensures !Stops(w, k, name) ==>
      var c := AsClass(w, ChainGet(w, ProtoOf(w, k), "constructor"));
      && (c.None? ==> Resolve(w, ClassValue(k), name) == Null)
      && (c.Some? ==> IsSelfCtor(w, c.value) && Resolve(w, ClassValue(k), name) == Fn(LookupWrapper(c.value, name)))
  {
    if !Stops(w, k, name) {
      CtorLeadsToRoot(w, ProtoOf(w, k));
    }
  }

  /** From a root class the walk never moves. */
  lemma ResolveFromRoot(w: World, k: ClassId, name: string)
    requires Valid(w) && IsSelfCtor(w, k)
    ensures Resolve(w, ClassValue(k), name) == Fn(LookupWrapper(k, name))
  {
  }

  /** `lookup` returns null exactly when `ctor` is not a class or the walk
      leaves it for something that is not a class. */
  lemma ResolveNullIff(w: World, ctor: Value, name: string)
    requires Valid(w)
    ensures Resolve(w, ctor, name) == Null <==>
      (AsClass(w, ctor).None? ||
       (!Stops(w, AsClass(w, ctor).value, name) &&
        AsClass(w, ChainGet(w, ProtoOf(w, AsClass(w, ctor).value), "constructor")).None?))
  {
    if AsClass(w, ctor).Some? {
      ResolveOneStep(w, AsClass(w, ctor).value, name);
    }
  }

  /** The wrapper reads `ctor.prototype[name]` when it is called, not when it
      was made, and applies it to the same receiver and arguments. */
  lemma LookupWrapperReadsLate(w: World, k: ClassId, name: string, self: Value, args: seq<Value>, fuel: nat)
    requires k < |w.classes|
    ensures Apply(w, Fn(LookupWrapper(k, name)), self, args, fuel + 1)
         == Apply(w, ChainGet(w, ProtoOf(w, k), name), self, args, fuel)
  {
  }

  /** Calling the wrapper of a name the class does not have (reads undefined)
      is the TypeError of line 39. */
  lemma LookupWrapperOfMissingName(w: World, k: ClassId, name: string, self: Value, args: seq<Value>, fuel: nat)
    requires k < |w.classes| && ChainGet(w, ProtoOf(w, k), name) == Undefined
    ensures Apply(w, Fn(LookupWrapper(k, name)), self, args, fuel + 1) == Throw(NotCallable)
  {
    LookupWrapperReadsLate(w, k, name, self, args, fuel);
  }
}
