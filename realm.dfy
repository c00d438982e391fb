/** The mutable table of classes and prototypes that the operations patched
    onto `Function.prototype` update in place (yo-next.js:1-54). */
module Realms {
  import opened Values
  import opened Prototypes
  import opened Dispatch
  import opened Protocol

  class Realm {
    var protos: seq<Proto>
    var classes: seq<ClassInfo>

    function State(): World
      reads this
    {
      World(protos, classes)
    }

    ghost predicate Valid()
      reads this
    {
      Prototypes.Valid(State())
    }

    constructor ()
      ensures Valid() && State() == World([], [])
    {
      protos, classes := [], [];
    }

    /** Registers a plain function as a root class: a function object whose
        prototype owns `constructor`, the function itself. */
    method NewRoot(body: Callable) returns (k: ClassId)
      requires Valid()
      modifies this
      ensures Valid() && State() == NewRootW(old(State()), body)
      ensures k == |old(classes)| && k < |classes|
    {
      k := |classes|;
      var p := |protos|;
      protos := protos + [Proto(map["constructor" := ClassValue(k)], None)];
      classes := classes + [ClassInfo(body, p)];
      assert State() == NewRootW(old(State()), body);
    }

    /** `lookup(ctor, name)` (yo-next.js:34-41). */
    method Lookup(ctor: Value, name: string) returns (r: Value)
      requires Valid()
      ensures r == Resolve(State(), ctor, name)
    {
      var c := ctor;
      while Walks(State(), c, name)
        invariant Resolve(State(), c, name) == Resolve(State(), ctor, name)
        decreases Rank(State(), c)
      {
        var k := AsClass(State(), c).value;
        CtorLeadsToRoot(State(), classes[k].proto);
        c := ChainGet(State(), classes[k].proto, "constructor");
      }
      match AsClass(State(), c)
      case Some(k) => r := Fn(LookupWrapper(k, name));
      case None => r := Null;
    }

    /** `define(name, impl)` (yo-next.js:18-23). */
    method Define(k: ClassId, name: string, impl: Value) returns (r: Value)
      requires Valid() && k < |classes|
      modifies this
      ensures Valid() && State() == DefineW(old(State()), k, name, impl)
      ensures r == ClassValue(k)
    {
      assert ClassOk(State(), k);
      var p := classes[k].proto;
      var stored: Value;
      if !impl.Fn? {
        stored := impl;
      } else {
        var c := ChainGet(State(), p, "constructor");
        var prior: Value;
        if c == ClassValue(k) {
          prior := Null;
        } else {
          prior := Lookup(c, name);
        }
        stored := Fn(Override(prior, impl));
      }
      SetOwnValid(State(), p, name, stored);
      protos := protos[p := protos[p].(own := protos[p].own[name := stored])];
      r := ClassValue(k);
    }

    /** `around(name, impl)` (yo-next.js:13-17). */
    method Around(k: ClassId, name: string, impl: Value) returns (r: Value)
      requires Valid() && k < |classes|
      modifies this
      ensures Valid() && State() == AroundW(old(State()), k, name, impl)
      ensures r == ClassValue(k)
    {
      assert ClassOk(State(), k);
      var p := classes[k].proto;
      var prior: Value;
      if Owns(State(), p, name) {
        prior := protos[p].own[name];
      } else {
        prior := Lookup(ClassValue(k), name);
      }
      var stored := Fn(Override(prior, impl));
      SetOwnValid(State(), p, name, stored);
      protos := protos[p := protos[p].(own := protos[p].own[name := stored])];
      r := ClassValue(k);
    }

    /** `before(name, impl)` (yo-next.js:24-28). */
    method Before(k: ClassId, name: string, impl: Value) returns (r: Value)
      requires Valid() && k < |classes|
      modifies this
      ensures Valid() && State() == BeforeW(old(State()), k, name, impl)
      ensures r == ClassValue(k)
    {
      r := Around(k, name, Fn(CallThenNext(impl)));
    }

    /** `after(name, impl)` (yo-next.js:29-33). */
    method After(k: ClassId, name: string, impl: Value) returns (r: Value)
      requires Valid() && k < |classes|
      modifies this
      ensures Valid() && State() == AfterW(old(State()), k, name, impl)
      ensures r == ClassValue(k)
    {
      r := Around(k, name, Fn(NextThenCall(impl)));
    }

    /** `f.call(this, name, v)` for the operation `f` that `acceptMap` wraps. */
    method Perform(op: Op, k: ClassId, name: string, v: Value) returns (r: Value)
      requires Valid() && k < |classes|
      modifies this
      ensures Valid() && State() == ApplyOp(old(State()), op, k, name, v)
      ensures r == ClassValue(k)
    {
      match op
      case DefineOp => r := Define(k, name, v);
      case AroundOp => r := Around(k, name, v);
      case BeforeOp => r := Before(k, name, v);
      case AfterOp => r := After(k, name, v);
    }

    /** `acceptMap(f)` called with a single mapping argument (yo-next.js:44-48):
        `f` once per own entry in enumeration order; the result is the last
        call's, undefined for an empty mapping. */
    method Batch(op: Op, k: ClassId, entries: seq<(string, Value)>) returns (r: Value)
      requires Valid() && k < |classes|
      modifies this
      ensures Valid() && State() == BatchW(old(State()), op, k, entries)
      ensures r == if |entries| == 0 then Undefined else ClassValue(k)
    {
      r := Undefined;
      var i := 0;
      while i < |entries|
        invariant 0 <= i <= |entries|
        invariant Valid() && k < |classes|
        invariant State() == BatchW(old(State()), op, k, entries[..i])
        invariant r == if i == 0 then Undefined else ClassValue(k)
      {
        assert entries[..i + 1][..i] == entries[..i];
        r := Perform(op, k, entries[i].0, entries[i].1);
        i := i + 1;
      }
      assert entries[..|entries|] == entries;
    }

    /** `derive(ctor, ext)` (yo-next.js:2-7). */
    method Derive(k: ClassId, ctor: Value, ext: Option<seq<(string, Value)>>) returns (d: ClassId)
      requires Valid() && k < |classes|
      modifies this
      ensures Valid() && State() == DeriveFull(old(State()), k, ctor, ext)
      ensures d == |old(classes)| && d < |classes|
    {
      assert ClassOk(State(), k);
      d := |classes|;
      var parentProto := classes[k].proto;
      classes := classes + [ClassInfo(Override(ClassValue(k), ctor), |protos|)];
      protos := protos + [Proto(map[], Some(parentProto))];
      assert State() == DeriveW(old(State()), k, ctor);
      if ext.Some? {
        var _ := Batch(DefineOp, d, ext.value);
      }
    }

    /** `extend(ctor, ext)` (yo-next.js:8-12). */
    method Extend(k: ClassId, ctor: Value, ext: Option<seq<(string, Value)>>) returns (d: ClassId)
      requires Valid() && k < |classes|
      modifies this
      ensures Valid() && State() == ExtendW(old(State()), k, ctor, ext)
      ensures d == |old(classes)| && d < |classes|
    {
      d := Derive(k, Fn(NextThenCall(ctor)), ext);
    }
  }
}
