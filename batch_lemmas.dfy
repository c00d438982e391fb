/** What the one-argument form of an `acceptMap` operation does with a
    mapping (yo-next.js:42-51). */
module BatchLemmas {
  import opened Values
  import opened Prototypes
  import opened Protocol

  /** Every operation writes the one name it is given: every other name reads
      as before, from every prototype. */
  lemma ApplyOpOtherNames(w: World, op: Op, k: ClassId, name: string, v: Value, q: ObjId, n: string)
    requires Valid(w) && k < |w.classes| && n != name
    ensures ChainGet(ApplyOp(w, op, k, name, v), q, n) == ChainGet(w, q, n)
  {
    assert ClassOk(w, k);
    var p := ProtoOf(w, k);
    match op
    case DefineOp =>
      var stored := if !v.Fn? then v else Fn(Override(DefinePrior(w, k, name), v));
      SetOwnOtherNames(w, p, name, stored, q, n);
    case AroundOp =>
      SetOwnOtherNames(w, p, name, Fn(Override(AroundPrior(w, k, name), v)), q, n);
    case BeforeOp =>
      SetOwnOtherNames(w, p, name, Fn(Override(AroundPrior(w, k, name), Fn(CallThenNext(v)))), q, n);
    case AfterOp =>
      SetOwnOtherNames(w, p, name, Fn(Override(AroundPrior(w, k, name), Fn(NextThenCall(v)))), q, n);
  }

  /** Every operation writes the class's own prototype only: the number of
      objects stays, and every other object is left exactly as it was. */
  lemma ApplyOpFrame(w: World, op: Op, k: ClassId, name: string, v: Value)
    requires Valid(w) && k < |w.classes|
    ensures var r := ApplyOp(w, op, k, name, v);
      |r.protos| == |w.protos| &&
      forall q | 0 <= q < |w.protos| && q != ProtoOf(w, k) :: r.protos[q] == w.protos[q]
  {
    assert ClassOk(w, k);
    var p := ProtoOf(w, k);
    var prior := AroundPrior(w, k, name);
    match op
    case DefineOp =>
      var stored := if !v.Fn? then v else Fn(Override(DefinePrior(w, k, name), v));
      assert ApplyOp(w, op, k, name, v) == SetOwn(w, p, name, stored);
    case AroundOp =>
      assert ApplyOp(w, op, k, name, v) == SetOwn(w, p, name, Fn(Override(prior, v)));
    case BeforeOp =>
      assert ApplyOp(w, op, k, name, v) == SetOwn(w, p, name, Fn(Override(prior, Fn(CallThenNext(v)))));
    case AfterOp =>
      assert ApplyOp(w, op, k, name, v) == SetOwn(w, p, name, Fn(Override(prior, Fn(NextThenCall(v)))));
  }

  /** A whole mapping, too, writes the class's own prototype only. */
  lemma {:induction false} BatchFrame(w: World, op: Op, k: ClassId, entries: seq<(string, Value)>)
    requires Valid(w) && k < |w.classes|
    ensures var r := BatchW(w, op, k, entries);
      |r.protos| == |w.protos| &&
      forall q | 0 <= q < |w.protos| && q != ProtoOf(w, k) :: r.protos[q] == w.protos[q]
    decreases |entries|
  {
    if |entries| > 0 {
      var init := entries[..|entries| - 1];
      var last := entries[|entries| - 1];
      BatchFrame(w, op, k, init);
      ApplyOpFrame(BatchW(w, op, k, init), op, k, last.0, last.1);
    }
  }

  /** A mapping of one entry is the two-argument call. */
  lemma BatchSingle(w: World, op: Op, k: ClassId, name: string, v: Value)
    requires Valid(w) && k < |w.classes|
    ensures BatchW(w, op, k, [(name, v)]) == ApplyOp(w, op, k, name, v)
  {
    assert [(name, v)][..0] == [];
  }

  /** The entries are applied from the first to the last: the mapping is the
      two-argument call on its first entry followed by the rest. */
  lemma {:induction false} BatchFirstThenRest(w: World, op: Op, k: ClassId, e: (string, Value),
                                              es: seq<(string, Value)>)
    requires Valid(w) && k < |w.classes|
    ensures BatchW(w, op, k, [e] + es) == BatchW(ApplyOp(w, op, k, e.0, e.1), op, k, es)
    decreases |es|
  {
    if |es| == 0 {
      assert [e] + es == [e];
      BatchSingle(w, op, k, e.0, e.1);
    } else {
      var all := [e] + es;
      assert all[..|all| - 1] == [e] + es[..|es| - 1];
      assert all[|all| - 1] == es[|es| - 1];
      BatchFirstThenRest(w, op, k, e, es[..|es| - 1]);
    }
  }

  /** Splitting a mapping's entries anywhere: the first part, then the second. */
  lemma {:induction false} BatchAppend(w: World, op: Op, k: ClassId, es1: seq<(string, Value)>,
                                       es2: seq<(string, Value)>)
    requires Valid(w) && k < |w.classes|
    ensures BatchW(w, op, k, es1 + es2) == BatchW(BatchW(w, op, k, es1), op, k, es2)
    decreases |es2|
  {
    if |es2| == 0 {
      assert es1 + es2 == es1;
    } else {
      var all := es1 + es2;
      var init2 := es2[..|es2| - 1];
      var last := es2[|es2| - 1];
      var mid := BatchW(w, op, k, es1);
      assert all[..|all| - 1] == es1 + init2;
      assert all[|all| - 1] == last;
      BatchAppend(w, op, k, es1, init2);
      assert BatchW(w, op, k, all) == ApplyOp(BatchW(w, op, k, es1 + init2), op, k, last.0, last.1);
      assert BatchW(mid, op, k, es2) == ApplyOp(BatchW(mid, op, k, init2), op, k, last.0, last.1);
    }
  }

  /** A name none of the entries carries reads as before, from every prototype. */
  lemma {:induction false} BatchOtherNames(w: World, op: Op, k: ClassId, entries: seq<(string, Value)>,
                                           q: ObjId, n: string)
    requires Valid(w) && k < |w.classes|
    requires forall i | 0 <= i < |entries| :: entries[i].0 != n
    ensures ChainGet(BatchW(w, op, k, entries), q, n) == ChainGet(w, q, n)
    decreases |entries|
  {
    if |entries| > 0 {
      var init := entries[..|entries| - 1];
      var last := entries[|entries| - 1];
      BatchOtherNames(w, op, k, init, q, n);
      ApplyOpOtherNames(BatchW(w, op, k, init), op, k, last.0, last.1, q, n);
    }
  }

  /** `define` with a mapping stores each data entry as an own property of the
      prototype, the last entry of a name winning. */
  lemma {:induction false} BatchDefineLastWins(w: World, k: ClassId, entries: seq<(string, Value)>, i: nat)
    requires Valid(w) && k < |w.classes| && i < |entries| && !entries[i].1.Fn?
    requires forall j | i < j < |entries| :: entries[j].0 != entries[i].0
    ensures var r := BatchW(w, DefineOp, k, entries);
      Owns(r, ProtoOf(w, k), entries[i].0) && ChainGet(r, ProtoOf(w, k), entries[i].0) == entries[i].1
    decreases |entries|
  {
    var init := entries[..|entries| - 1];
    var last := entries[|entries| - 1];
    var before := BatchW(w, DefineOp, k, init);
    assert BatchW(w, DefineOp, k, entries) == DefineW(before, k, last.0, last.1);
    if i == |entries| - 1 {
      assert ClassOk(before, k);
      SetOwnReadBack(before, ProtoOf(w, k), last.0, last.1);
    } else {
      assert init[i] == entries[i];
      BatchDefineLastWins(w, k, init, i);
      assert ClassOk(before, k);
      var stored := if !last.1.Fn? then last.1 else Fn(Override(DefinePrior(before, k, last.0), last.1));
      assert DefineW(before, k, last.0, last.1) == SetOwn(before, ProtoOf(w, k), last.0, stored);
      SetOwnOtherNames(before, ProtoOf(w, k), last.0, stored, ProtoOf(w, k), entries[i].0);
    }
  }
}
