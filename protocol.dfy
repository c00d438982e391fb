/** The six operations of the protocol as functions from the world before the
    call to the world after it (yo-next.js:2-33, 42-51). The methods of
    `Realms.Realm` perform these updates in place and are specified by them. */
module Protocol {
  import opened Values
  import opened Prototypes
  import opened Dispatch
  import opened LookupLemmas

  /** The continuation `define` gives a function it installs (yo-next.js:21):
      none on a class that is its prototype's constructor, otherwise the lookup
      started from that constructor. The class's own previous value plays no part. */
  function DefinePrior(w: World, k: ClassId, name: string): (r: Value)
    requires Valid(w) && k < |w.classes|
    ensures IsSelfCtor(w, k) ==> r == Null
    ensures r == Null || (r.Fn? && r.f.LookupWrapper? && r.f.name == name && r.f.owner != k
                          && IsSelfCtor(w, r.f.owner)
                          && ChainGet(w, ProtoOf(w, k), "constructor") == ClassValue(r.f.owner))
  {
    var c := ChainGet(w, ProtoOf(w, k), "constructor");
    CtorLeadsToRoot(w, ProtoOf(w, k));
    if c == ClassValue(k) then Null else Resolve(w, c, name)
  }

  /** `define(name, impl)` (yo-next.js:18-23): a non-function is stored as it is;
      a function is stored wrapped by `override` over `DefinePrior`. */
  function DefineW(w: World, k: ClassId, name: string, impl: Value): (r: World)
    requires Valid(w) && k < |w.classes|
    ensures Valid(r) && r.classes == w.classes
  {
    assert ClassOk(w, k);
    var p := ProtoOf(w, k);
    var stored := if !impl.Fn? then impl else Fn(Override(DefinePrior(w, k, name), impl));
    SetOwnValid(w, p, name, stored);
    SetOwn(w, p, name, stored)
  }

  /** The implementation `around` wraps (yo-next.js:15): the prototype's own
      value when it owns `name`, otherwise the lookup started from the class. */
  function AroundPrior(w: World, k: ClassId, name: string): (r: Value)
    requires Valid(w) && k < |w.classes|
    ensures Owns(w, ProtoOf(w, k), name) ==> r == ChainGet(w, ProtoOf(w, k), name)
    ensures !Owns(w, ProtoOf(w, k), name) ==>
      r == Null || (r.Fn? && r.f.LookupWrapper? && r.f.name == name && IsSelfCtor(w, r.f.owner))
    ensures !Owns(w, ProtoOf(w, k), name) && IsSelfCtor(w, k) ==> r == Fn(LookupWrapper(k, name))
  {
    var p := ProtoOf(w, k);
    ResolveOneStep(w, k, name);
    if Owns(w, p, name) then w.protos[p].own[name] else Resolve(w, ClassValue(k), name)
  }

  /** `around(name, impl)` (yo-next.js:13-17). */
  function AroundW(w: World, k: ClassId, name: string, impl: Value): (r: World)
    requires Valid(w) && k < |w.classes|
    ensures Valid(r) && r.classes == w.classes
  {
    assert ClassOk(w, k);
    var p := ProtoOf(w, k);
    var stored := Fn(Override(AroundPrior(w, k, name), impl));
    SetOwnValid(w, p, name, stored);
    SetOwn(w, p, name, stored)
  }

  /** `before(name, impl)` (yo-next.js:24-28): `around` with the body that runs
      `impl` and then `next()`. */
  function BeforeW(w: World, k: ClassId, name: string, impl: Value): (r: World)
    requires Valid(w) && k < |w.classes|
    ensures Valid(r) && r.classes == w.classes
  {
    AroundW(w, k, name, Fn(CallThenNext(impl)))
  }

  /** `after(name, impl)` (yo-next.js:29-33): `around` with the body that runs
      `next()` and then `impl`. */
  function AfterW(w: World, k: ClassId, name: string, impl: Value): (r: World)
    requires Valid(w) && k < |w.classes|
    ensures Valid(r) && r.classes == w.classes
  {
    AroundW(w, k, name, Fn(NextThenCall(impl)))
  }

  /** The four operations `acceptMap` adapts. */
  datatype Op = DefineOp | AroundOp | BeforeOp | AfterOp

  function ApplyOp(w: World, op: Op, k: ClassId, name: string, v: Value): (r: World)
    requires Valid(w) && k < |w.classes|
    ensures Valid(r) && r.classes == w.classes
  {
    match op
    case DefineOp => DefineW(w, k, name, v)
    case AroundOp => AroundW(w, k, name, v)
    case BeforeOp => BeforeW(w, k, name, v)
    case AfterOp => AfterW(w, k, name, v)
  }

  /** `acceptMap(f)` called with one mapping argument (yo-next.js:44-48): `f`
      once per own entry, in enumeration order. The mapping is given as the
      sequence of its own entries in that order. */
  function BatchW(w: World, op: Op, k: ClassId, entries: seq<(string, Value)>): (r: World)
    requires Valid(w) && k < |w.classes|
    ensures Valid(r) && r.classes == w.classes
    decreases |entries|
  {
    if |entries| == 0 then w
    else
      var init := BatchW(w, op, k, entries[..|entries| - 1]);
      var last := entries[|entries| - 1];
      ApplyOp(init, op, k, last.0, last.1)
  }

  /** A root class: a plain function whose prototype owns `constructor`, the
      function itself, and ends the chain. */
  function NewRootW(w: World, body: Callable): (r: World)
    requires Valid(w)
    ensures Valid(r) && |r.classes| == |w.classes| + 1 && IsSelfCtor(r, |w.classes|)
    ensures |r.protos| == |w.protos| + 1
    ensures r.protos[..|w.protos|] == w.protos && r.classes[..|w.classes|] == w.classes
  {
    var r := World(w.protos + [Proto(map["constructor" := ClassValue(|w.classes|)], None)],
                   w.classes + [ClassInfo(body, |w.protos|)]);
    assert forall p | 0 <= p < |r.protos| :: ProtoOk(r, p) by {
      forall p | 0 <= p < |r.protos| ensures ProtoOk(r, p) {
        if p < |w.protos| { assert ProtoOk(w, p); }
      }
    }
    assert forall j | 0 <= j < |r.classes| :: ClassOk(r, j) by {
      forall j | 0 <= j < |r.classes| ensures ClassOk(r, j) {
        if j < |w.classes| { assert ClassOk(w, j); }
      }
    }
    r
  }

  /** `derive(ctor)` without definitions (yo-next.js:3-4): class number
      `|w.classes|`, whose constructor is `override(this, ctor)` and whose
      prototype is a fresh object with the parent's prototype as its `proto`. */
  function DeriveW(w: World, k: ClassId, ctor: Value): (r: World)
    requires Valid(w) && k < |w.classes|
    ensures Valid(r) && |r.classes| == |w.classes| + 1 && |r.protos| == |w.protos| + 1
    ensures r.protos[..|w.protos|] == w.protos && r.classes[..|w.classes|] == w.classes
  {
    var r := World(w.protos + [Proto(map[], Some(ProtoOf(w, k)))],
                   w.classes + [ClassInfo(Override(ClassValue(k), ctor), |w.protos|)]);
    assert ClassOk(w, k);
    assert forall p | 0 <= p < |r.protos| :: ProtoOk(r, p) by {
      forall p | 0 <= p < |r.protos| ensures ProtoOk(r, p) {
        if p < |w.protos| { assert ProtoOk(w, p); }
      }
    }
    assert forall j | 0 <= j < |r.classes| :: ClassOk(r, j) by {
      forall j | 0 <= j < |r.classes| ensures ClassOk(r, j) {
        if j < |w.classes| { assert ClassOk(w, j); }
      }
    }
    r
  }

  /** `derive(ctor, ext)` (yo-next.js:2-7): derive, then `define(ext)` on the
      new class when `ext` is given. */
  function DeriveFull(w: World, k: ClassId, ctor: Value, ext: Option<seq<(string, Value)>>): (r: World)
    requires Valid(w) && k < |w.classes|
    ensures Valid(r) && |r.classes| == |w.classes| + 1
  {
    var d := DeriveW(w, k, ctor);
    match ext
    case None => d
    case Some(entries) => BatchW(d, DefineOp, |w.classes|, entries)
  }

  /** `extend(ctor, ext)` (yo-next.js:8-12): derive with the body that runs
      `next()` and then `ctor`. */
  function ExtendW(w: World, k: ClassId, ctor: Value, ext: Option<seq<(string, Value)>>): (r: World)
    requires Valid(w) && k < |w.classes|
    ensures Valid(r) && |r.classes| == |w.classes| + 1
  {
    DeriveFull(w, k, Fn(NextThenCall(ctor)), ext)
  }
}
