/** What `define(name, impl)` stores and which implementation its `next`
    reaches (yo-next.js:18-23). */
module DefineLemmas {
  import opened Values
  import opened Prototypes
  import opened Dispatch
  import opened Protocol
  import opened OverrideLemmas

  /** A non-function is stored verbatim as an own property, replacing any
      previous one; no other name reads differently anywhere, no other prototype
      and no class changes. */
  lemma DefineStoresData(w: World, k: ClassId, name: string, impl: Value)
    requires Valid(w) && k < |w.classes| && !impl.Fn?
    ensures var r := DefineW(w, k, name, impl); var p := ProtoOf(w, k);
      && Owns(r, p, name) && ChainGet(r, p, name) == impl
      && r.protos[p].own == w.protos[p].own[name := impl]
      && (forall q | 0 <= q < |w.protos| && q != p :: r.protos[q] == w.protos[q])
      && (forall q, n | n != name :: ChainGet(r, q, n) == ChainGet(w, q, n))
      && r.classes == w.classes
  {
    assert ClassOk(w, k);
    var r := DefineW(w, k, name, impl);
    forall q, n | n != name ensures ChainGet(r, q, n) == ChainGet(w, q, n) {
      SetOwnOtherNames(w, ProtoOf(w, k), name, impl, q, n);
    }
  }

  /** A function is stored wrapped by `override`, over a continuation that is
      null on a root class and otherwise the wrapper for the root that
      `prototype.constructor` names. The class's previous own value is never it. */
  lemma DefineFunctionWiring(w: World, k: ClassId, name: string, impl: Value)
    requires Valid(w) && k < |w.classes| && impl.Fn?
    ensures var r := DefineW(w, k, name, impl); var p := ProtoOf(w, k);
      var c := AsClass(w, ChainGet(w, p, "constructor"));
      && (IsSelfCtor(w, k) ==> ChainGet(r, p, name) == Fn(Override(Null, impl)))
      && (!IsSelfCtor(w, k) && c.None? ==> ChainGet(r, p, name) == Fn(Override(Null, impl)))
      && (!IsSelfCtor(w, k) && c.Some? ==>
            IsSelfCtor(w, c.value) && c.value != k &&
            ChainGet(r, p, name) == Fn(Override(Fn(LookupWrapper(c.value, name)), impl)))
  {
    assert ClassOk(w, k);
    var p := ProtoOf(w, k);
    CtorLeadsToRoot(w, p);
    SetOwnReadBack(w, p, name, Fn(Override(DefinePrior(w, k, name), impl)));
  }

  /** On a root class, a defined method that calls `next` fails with
      "No next method" after its earlier effects. */
  lemma DefineOnRootHasNoNext(w: World, k: ClassId, name: string, t: string, self: Value, args: seq<Value>, fuel: nat)
    requires Valid(w) && IsSelfCtor(w, k)
    ensures var r := DefineW(w, k, name, Fn(Script([Emit(t), CallNext([])])));
      Apply(r, ChainGet(r, ProtoOf(w, k), name), self, args, fuel + 1)
        == Outcome([Event(t, self, args)], Thrown(NoNext))
  {
    var impl := Fn(Script([Emit(t), CallNext([])]));
    DefineFunctionWiring(w, k, name, impl);
    NextWithoutArguments(DefineW(w, k, name, impl), Null, t, self, args, fuel);
  }

  /** Whatever the class owned under `name` before, `define` installs the same
      thing: the previous own value is never chained to. */
  lemma {:induction false} DefineIgnoresOwnValue(w: World, k: ClassId, name: string, v0: Value, impl: Value)
    requires Valid(w) && k < |w.classes| && name != "constructor"
    ensures ClassOk(w, k) && Valid(SetOwn(w, ProtoOf(w, k), name, v0))
    ensures DefineW(SetOwn(w, ProtoOf(w, k), name, v0), k, name, impl) == DefineW(w, k, name, impl)
  {
    assert ClassOk(w, k);
    var p := ProtoOf(w, k);
    SetOwnValid(w, p, name, v0);
    var w0 := SetOwn(w, p, name, v0);
    forall q ensures ChainGet(w0, q, "constructor") == ChainGet(w, q, "constructor") {
      SetOwnOtherNames(w, p, name, v0, q, "constructor");
    }
    CtorLeadsToRoot(w, p);
    var c := ChainGet(w, p, "constructor");
    if c != ClassValue(k) && AsClass(w, c).Some? {
      var j := AsClass(w, c).value;
      assert IsSelfCtor(w0, j);
      assert Resolve(w0, c, name) == Fn(LookupWrapper(j, name));
    }
    assert DefinePrior(w0, k, name) == DefinePrior(w, k, name);
    var stored := if !impl.Fn? then impl else Fn(Override(DefinePrior(w, k, name), impl));
    assert w0.protos[p].own[name := stored] == w.protos[p].own[name := stored];
  }

  /** Defining a function twice in a row: the second definition's `next`
      reaches what the first one's reached, not the first definition. */
  lemma DefineTwiceSkipsFirst(w: World, k: ClassId, name: string, f1: Value, f2: Value)
    requires Valid(w) && k < |w.classes| && name != "constructor" && f1.Fn? && f2.Fn?
    ensures var r := DefineW(DefineW(w, k, name, f1), k, name, f2);
      ChainGet(r, ProtoOf(w, k), name) == Fn(Override(DefinePrior(w, k, name), f2))
  {
    assert ClassOk(w, k);
    var p := ProtoOf(w, k);
    var w1 := DefineW(w, k, name, f1);
    assert w1 == SetOwn(w, p, name, Fn(Override(DefinePrior(w, k, name), f1)));
    DefineIgnoresOwnValue(w, k, name, Fn(Override(DefinePrior(w, k, name), f1)), f2);
    SetOwnReadBack(w, p, name, Fn(Override(DefinePrior(w, k, name), f2)));
  }
}
