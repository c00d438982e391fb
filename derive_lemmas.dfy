/** What `derive` and `extend` build (yo-next.js:2-12). */
module DeriveLemmas {
  import opened Values
  import opened Prototypes
  import opened Dispatch
  import opened Protocol
  import opened BatchLemmas

  /** `derive` appends one prototype and one class and changes nothing that
      was there: the parent class, its prototype and every read that starts at
      an old prototype stay as they were. The new prototype has no own members,
      its `proto` link is the parent's prototype, so it reads every name as the
      parent's prototype does, `constructor` included. */
  lemma {:induction false} DeriveInherits(w: World, k: ClassId, ctor: Value)
    requires Valid(w) && k < |w.classes|
    ensures var r := DeriveW(w, k, ctor); var d := |w.classes|;
      && r.classes[..d] == w.classes && r.protos[..|w.protos|] == w.protos
      && ProtoOf(r, d) == |w.protos| && r.protos[ProtoOf(r, d)].parent == Some(ProtoOf(w, k))
      && (forall n :: !Owns(r, ProtoOf(r, d), n))
      && (forall n :: ChainGet(r, ProtoOf(r, d), n) == ChainGet(w, ProtoOf(w, k), n))
      && (forall q: ObjId, n | q < |w.protos| :: ChainGet(r, q, n) == ChainGet(w, q, n))
  {
    assert ClassOk(w, k);
    var r := DeriveW(w, k, ctor);
    var d := |w.classes|;
    assert r.protos[..|w.protos|] == w.protos;
    forall q: ObjId, n | q < |w.protos| ensures ChainGet(r, q, n) == ChainGet(w, q, n) {
      ChainGetGrow(w, r, q, n);
    }
    forall n ensures ChainGet(r, ProtoOf(r, d), n) == ChainGet(w, ProtoOf(w, k), n) {
      ChainGetGrow(w, r, ProtoOf(w, k), n);
    }
  }

  /** A derived class is never its prototype's constructor; its prototype's
      constructor is whatever the parent's prototype has, so at any depth it is
      the root class the chain started from. */
  lemma DerivedConstructor(w: World, k: ClassId, ctor: Value)
    requires Valid(w) && k < |w.classes|
    ensures var r := DeriveW(w, k, ctor); var d := |w.classes|;
      && ChainGet(r, ProtoOf(r, d), "constructor") == ChainGet(w, ProtoOf(w, k), "constructor")
      && !IsSelfCtor(r, d)
      && (IsSelfCtor(w, k) ==> ChainGet(r, ProtoOf(r, d), "constructor") == ClassValue(k))
  {
    assert ClassOk(w, k);
    DeriveInherits(w, k, ctor);
    CtorLeadsToRoot(w, ProtoOf(w, k));
  }

  /** Calling a class runs the body of its constructor function. */
  lemma ApplyClass(w: World, d: ClassId, self: Value, args: seq<Value>, fuel: nat)
    requires d < |w.classes|
    ensures Apply(w, ClassValue(d), self, args, fuel + 2) == Run(w, w.classes[d].ctor, Unbound, self, args, fuel)
  {
    assert Apply(w, ClassValue(d), self, args, fuel + 2) == Run(w, ClassFn(d), Unbound, self, args, fuel + 1);
  }

  /** The constructor of a derived class runs `ctor` with `next` bound to the
      parent class (the constructor `override(this, ctor)` builds). */
  lemma DeriveCtorNext(w: World, k: ClassId, ctor: Callable, self: Value, args: seq<Value>, fuel: nat)
    requires Valid(w) && k < |w.classes|
    ensures var r := DeriveW(w, k, Fn(ctor));
      Apply(r, ClassValue(|w.classes|), self, args, fuel + 2)
        == Run(r, ctor, Bound(ClassValue(k), self, args), self, args, fuel)
  {
    ApplyClass(DeriveW(w, k, Fn(ctor)), |w.classes|, self, args, fuel);
  }

  /** Definitions passed to `derive` leave the class table as `derive` made it. */
  lemma DeriveFullClasses(w: World, k: ClassId, ctor: Value, ext: Option<seq<(string, Value)>>)
    requires Valid(w) && k < |w.classes|
    ensures DeriveFull(w, k, ctor, ext).classes == DeriveW(w, k, ctor).classes
    ensures DeriveFull(w, k, ctor, ext).classes[|w.classes|].ctor == Override(ClassValue(k), ctor)
  {
  }

  /** `r` has one more prototype and one more class than `w`, and every old
      prototype, every old class and every read from an old prototype is as
      it was. */
  ghost predicate KeepsOld(w: World, r: World)
  {
    && |r.protos| == |w.protos| + 1 && |r.classes| == |w.classes| + 1
    && r.protos[..|w.protos|] == w.protos && r.classes[..|w.classes|] == w.classes
    && forall q: ObjId, n | q < |w.protos| :: ChainGet(r, q, n) == ChainGet(w, q, n)
  }

  /** The definitions `derive` and `extend` apply go to the new prototype
      only: nothing that existed before the call changes. */
  lemma DeriveFullKeepsOld(w: World, k: ClassId, ctor: Value, ext: Option<seq<(string, Value)>>)
    requires Valid(w) && k < |w.classes|
    ensures KeepsOld(w, DeriveFull(w, k, ctor, ext))
    ensures KeepsOld(w, ExtendW(w, k, ctor, ext))
  {
    forall c: Value ensures KeepsOld(w, DeriveFull(w, k, c, ext)) {
      var d := DeriveW(w, k, c);
      var r := DeriveFull(w, k, c, ext);
      if ext.Some? {
        BatchFrame(d, DefineOp, |w.classes|, ext.value);
        assert ProtoOf(d, |w.classes|) == |w.protos|;
        forall q | 0 <= q < |w.protos| ensures r.protos[q] == w.protos[q] {
          assert r.protos[q] == d.protos[q];
          assert d.protos[q] == d.protos[..|w.protos|][q];
        }
        assert r.protos[..|w.protos|] == w.protos;
      }
      forall q: ObjId, n | q < |w.protos| ensures ChainGet(r, q, n) == ChainGet(w, q, n) {
        ChainGetGrow(w, r, q, n);
      }
    }
  }

  /** `extend`: constructing the new class runs the parent constructor with
      the original receiver and arguments first, then `ctor`, and yields `ctor`'s
      result; an exception in the parent constructor ends it. */
  lemma ExtendOrder(w: World, k: ClassId, ctor: Value, ext: Option<seq<(string, Value)>>,
                    self: Value, args: seq<Value>, fuel: nat)
    requires Valid(w) && k < |w.classes|
    ensures var r := ExtendW(w, k, ctor, ext);
      Apply(r, ClassValue(|w.classes|), self, args, fuel + 2)
        == Then(Apply(r, ClassValue(k), self, args, fuel), Apply(r, ctor, self, args, fuel))
  {
    var r := ExtendW(w, k, ctor, ext);
    DeriveFullClasses(w, k, Fn(NextThenCall(ctor)), ext);
    assert r.classes[|w.classes|].ctor == Override(ClassValue(k), Fn(NextThenCall(ctor)));
    ApplyClass(r, |w.classes|, self, args, fuel);
    var bound := Bound(ClassValue(k), self, args);
    assert Run(r, Override(ClassValue(k), Fn(NextThenCall(ctor))), Unbound, self, args, fuel)
        == Run(r, NextThenCall(ctor), bound, self, args, fuel);
    assert Forwarded([], args) == args;
    assert Next(r, bound, [], fuel) == Apply(r, ClassValue(k), self, args, fuel);
  }

  /** `extend` twice from `k`: the grandchild's constructor runs `k`'s, then
      the child's body, then its own. */
  lemma ExtendTwiceOrder(w: World, k: ClassId, c1: Value, c2: Value, self: Value, args: seq<Value>, fuel: nat)
    requires Valid(w) && k < |w.classes|
    ensures var w1 := ExtendW(w, k, c1, None); var d1 := |w.classes|;
      var w2 := ExtendW(w1, d1, c2, None);
      Apply(w2, ClassValue(d1 + 1), self, args, fuel + 4)
        == Then(Then(Apply(w2, ClassValue(k), self, args, fuel), Apply(w2, c1, self, args, fuel)),
                Apply(w2, c2, self, args, fuel + 2))
  {
    var w1 := ExtendW(w, k, c1, None);
    var d1 := |w.classes|;
    var w2 := ExtendW(w1, d1, c2, None);
    ExtendOrder(w1, d1, c2, None, self, args, fuel + 2);
    assert w2.classes[d1] == w1.classes[d1];
    DeriveFullClasses(w, k, Fn(NextThenCall(c1)), None);
    assert w1.classes[d1].ctor == Override(ClassValue(k), Fn(NextThenCall(c1)));
    ApplyClass(w2, d1, self, args, fuel);
    assert Apply(w2, ClassValue(d1), self, args, fuel + 2)
        == Run(w2, NextThenCall(c1), Bound(ClassValue(k), self, args), self, args, fuel);
    assert Forwarded([], args) == args;
  }

  /** Defining `name` on a grandchild of a root chains to the root's member even
      when the child in between owns `name`: the walk of `lookup` starts at
      `prototype.constructor`, which is the root, not the parent. */
  lemma GrandchildDefineSkipsParent(w: World, k: ClassId, c1: Value, c2: Value, name: string, f: Value)
    requires Valid(w) && IsSelfCtor(w, k) && name != "constructor"
    ensures var w1 := DeriveW(w, k, c1); var d1 := |w.classes|;
      var w2 := DefineW(w1, d1, name, f);
      var w3 := DeriveW(w2, d1, c2);
      && Owns(w3, ProtoOf(w3, d1), name)
      && DefinePrior(w3, d1 + 1, name) == Fn(LookupWrapper(k, name))
  {
    var w1 := DeriveW(w, k, c1);
    var d1 := |w.classes|;
    DerivedConstructor(w, k, c1);
    assert ClassOk(w1, d1);
    var w2 := DefineW(w1, d1, name, f);
    var stored := if !f.Fn? then f else Fn(Override(DefinePrior(w1, d1, name), f));
    assert w2 == SetOwn(w1, ProtoOf(w1, d1), name, stored);
    assert Owns(w2, ProtoOf(w2, d1), name);
    var w3 := DeriveW(w2, d1, c2);
    DeriveInherits(w2, d1, c2);
    assert ProtoOf(w2, d1) < |w2.protos|;
    assert Owns(w3, ProtoOf(w3, d1), name) by {
      assert w3.protos[ProtoOf(w2, d1)] == w2.protos[ProtoOf(w2, d1)];
    }
    SetOwnOtherNames(w1, ProtoOf(w1, d1), name, stored, ProtoOf(w1, d1), "constructor");
    assert ChainGet(w2, ProtoOf(w2, d1), "constructor") == ClassValue(k);
    DerivedConstructor(w2, d1, c2);
    assert ChainGet(w3, ProtoOf(w3, d1 + 1), "constructor") == ClassValue(k);
    CtorLeadsToRoot(w3, ProtoOf(w3, d1 + 1));
    assert IsSelfCtor(w3, k);
  }
}
