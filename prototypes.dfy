/** The heap the protocol works on: prototype objects with own properties and a
    `proto` link, and classes with a constructor function and a prototype.
    Property read is the walk along the `proto` links (yo-next.js:15, 20, 21, 35, 39). */
module Prototypes {
  import opened Values

  /** A prototype object: its own properties and its `proto` link (None for the
      end of the chain, which has no members of its own in this model). */
  datatype Proto = Proto(own: map<string, Value>, parent: Option<ObjId>)

  /** A class: the body of its constructor function and its `prototype`. */
  datatype ClassInfo = ClassInfo(ctor: Callable, proto: ObjId)

  datatype World = World(protos: seq<Proto>, classes: seq<ClassInfo>)

  /** `seriously(hash, key)`: `hash` has its own property `key` (yo-next.js:52-54). */
  predicate Owns(w: World, p: ObjId, name: string)
    ensures Owns(w, p, name) ==>
      p < |w.protos| && name in w.protos[p].own && ChainGet(w, p, name) == w.protos[p].own[name]
  {
    p < |w.protos| && name in w.protos[p].own
  }

  /** `obj[name]`: the own value of the first object on the chain from `p`
      that owns `name`, or undefined. */
  function ChainGet(w: World, p: ObjId, name: string): Value
    decreases p
  {
    if p >= |w.protos| then Undefined
    else if name in w.protos[p].own then w.protos[p].own[name]
    else match w.protos[p].parent
      case None => Undefined
      case Some(q) => if q < p then ChainGet(w, q, name) else Undefined
  }

  /** `ctor.prototype`. */
  function ProtoOf(w: World, k: ClassId): ObjId
    requires k < |w.classes|
  {
    w.classes[k].proto
  }

  /** The class a value denotes, if it is a class of `w`. A value that is not
      a class is where the ancestor walk ends. */
  function AsClass(w: World, v: Value): Option<ClassId>
  {
    if v.Fn? && v.f.ClassFn? && v.f.cls < |w.classes| then Some(v.f.cls) else None
  }

  /** `ctor === ctor.prototype.constructor`: the class is its own prototype's
      constructor, which holds for a root class and for no class derived from it. */
  predicate IsSelfCtor(w: World, k: ClassId)
  {
    k < |w.classes| && ChainGet(w, w.classes[k].proto, "constructor") == ClassValue(k)
  }

  /** An own `constructor` that is a class names the class whose prototype it is. */
  predicate CtorLinkOk(w: World, p: ObjId)
    requires p < |w.protos|
  {
    var own := w.protos[p].own;
    "constructor" in own && own["constructor"].Fn? && own["constructor"].f.ClassFn? ==>
      own["constructor"].f.cls < |w.classes| && w.classes[own["constructor"].f.cls].proto == p
  }

  predicate ProtoOk(w: World, p: ObjId)
    requires p < |w.protos|
  {
    (w.protos[p].parent.Some? ==> w.protos[p].parent.value < p) && CtorLinkOk(w, p)
  }

  predicate ClassOk(w: World, k: ClassId)
    requires k < |w.classes|
  {
    w.classes[k].proto < |w.protos|
  }

  /** The invariant every world built by the protocol keeps: `proto` links go to
      older objects (so chains end), prototypes exist, and constructor links are
      consistent. */
  ghost predicate Valid(w: World)
  {
    && (forall p | 0 <= p < |w.protos| :: ProtoOk(w, p))
    && (forall k | 0 <= k < |w.classes| :: ClassOk(w, k))
  }

  /** `proto[name] = v` on prototype `p`. */
  function SetOwn(w: World, p: ObjId, name: string, v: Value): (r: World)
    requires p < |w.protos|
    ensures |r.protos| == |w.protos| && r.classes == w.classes
    ensures forall q | 0 <= q < |w.protos| :: r.protos[q].parent == w.protos[q].parent
    ensures r.protos[p].own == w.protos[p].own[name := v]
    ensures forall q | 0 <= q < |w.protos| && q != p :: r.protos[q] == w.protos[q]
  {
    w.(protos := w.protos[p := w.protos[p].(own := w.protos[p].own[name := v])])
  }

  /** A constructor read that finds a class finds a root class: the walk of
      `lookup` therefore stops one step after it leaves a derived class. */
  lemma {:induction false} CtorLeadsToRoot(w: World, p: ObjId)
    requires Valid(w)
    ensures var c := ChainGet(w, p, "constructor");
      c.Fn? && c.f.ClassFn? ==> c.f.cls < |w.classes| && IsSelfCtor(w, c.f.cls)
    decreases p
  {
    if p < |w.protos| {
      assert ProtoOk(w, p);
      if "constructor" in w.protos[p].own {
        var c := w.protos[p].own["constructor"];
        if c.Fn? && c.f.ClassFn? {
          assert w.classes[c.f.cls].proto == p;
        }
      } else if w.protos[p].parent.Some? {
        CtorLeadsToRoot(w, w.protos[p].parent.value);
      }
    }
  }

  /** Writing one own property changes no read of any other name, anywhere. */
  lemma {:induction false} SetOwnOtherNames(w: World, p: ObjId, name: string, v: Value, q: ObjId, n: string)
    requires p < |w.protos|
    requires n != name
    ensures ChainGet(SetOwn(w, p, name, v), q, n) == ChainGet(w, q, n)
    decreases q
  {
    var r := SetOwn(w, p, name, v);
    if q < |w.protos| && n !in w.protos[q].own {
      assert n !in r.protos[q].own;
      if w.protos[q].parent.Some? && w.protos[q].parent.value < q {
        SetOwnOtherNames(w, p, name, v, w.protos[q].parent.value, n);
      }
    }
  }

  /** After `proto[name] = v`, reading `name` on that prototype gives `v`. */
  lemma SetOwnReadBack(w: World, p: ObjId, name: string, v: Value)
    requires p < |w.protos|
    ensures ChainGet(SetOwn(w, p, name, v), p, name) == v
    ensures Owns(SetOwn(w, p, name, v), p, name)
  {
  }

  /** Writing an own property keeps the world valid unless it writes a class
      into `constructor`. */
  lemma SetOwnValid(w: World, p: ObjId, name: string, v: Value)
    requires Valid(w) && p < |w.protos|
    requires name != "constructor" || !(v.Fn? && v.f.ClassFn?)
    ensures Valid(SetOwn(w, p, name, v))
  {
    var r := SetOwn(w, p, name, v);
    forall q | 0 <= q < |r.protos| ensures ProtoOk(r, q) {
      assert ProtoOk(w, q);
    }
    forall k | 0 <= k < |r.classes| ensures ClassOk(r, k) {
      assert ClassOk(w, k);
    }
  }

  /** Own members shadow inherited ones: a read finds the own value when there
      is one and otherwise continues at the `proto` link. */
  lemma OwnVersusInherited(w: World, p: ObjId, name: string)
    requires Valid(w) && p < |w.protos|
    ensures Owns(w, p, name) ==> ChainGet(w, p, name) == w.protos[p].own[name]
    ensures !Owns(w, p, name) && w.protos[p].parent.None? ==> ChainGet(w, p, name) == Undefined
    ensures !Owns(w, p, name) && w.protos[p].parent.Some? ==>
      ChainGet(w, p, name) == ChainGet(w, w.protos[p].parent.value, name)
  {
    assert ProtoOk(w, p);
  }

  /** Appending objects and classes changes no read that starts at an old object. */
  lemma {:induction false} ChainGetGrow(w: World, w': World, q: ObjId, n: string)
    requires |w.protos| <= |w'.protos| && w'.protos[..|w.protos|] == w.protos
    requires q < |w.protos|
    ensures ChainGet(w', q, n) == ChainGet(w, q, n)
    decreases q
  {
    assert w'.protos[q] == w.protos[q];
    if n !in w.protos[q].own && w.protos[q].parent.Some? && w.protos[q].parent.value < q {
      ChainGetGrow(w, w', w.protos[q].parent.value, n);
    }
  }
}
