/** What `around`, `before` and `after` install and the order in which the
    advice and the previous implementation run (yo-next.js:13-17, 24-33). */
module AdviceLemmas {
  import opened Values
  import opened Prototypes
  import opened Dispatch
  import opened Protocol
  import opened LookupLemmas

  /** The member `name` as read on class `k`'s prototype. */
  function Member(w: World, k: ClassId, name: string): Value
    requires k < |w.classes|
  {
    ChainGet(w, ProtoOf(w, k), name)
  }

  /** `around` on an owned name wraps the own value. */
  lemma AroundWrapsOwn(w: World, k: ClassId, name: string, impl: Value)
    requires Valid(w) && k < |w.classes| && Owns(w, ProtoOf(w, k), name)
    ensures Member(AroundW(w, k, name, impl), k, name)
         == Fn(Override(w.protos[ProtoOf(w, k)].own[name], impl))
  {
    assert ClassOk(w, k);
  }

  /** `around` on a name the class does not own wraps `lookup(this, name)`: on
      a root that is the wrapper reading the root's own prototype, on a derived
      class the wrapper of the root its prototype's constructor names. */
  lemma AroundWrapsLookup(w: World, k: ClassId, name: string, impl: Value)
    requires Valid(w) && k < |w.classes| && !Owns(w, ProtoOf(w, k), name)
    ensures var m := Member(AroundW(w, k, name, impl), k, name);
      var c := AsClass(w, ChainGet(w, ProtoOf(w, k), "constructor"));
      && (IsSelfCtor(w, k) ==> m == Fn(Override(Fn(LookupWrapper(k, name)), impl)))
      && (!IsSelfCtor(w, k) && c.None? ==> m == Fn(Override(Null, impl)))
      && (!IsSelfCtor(w, k) && c.Some? ==>
            IsSelfCtor(w, c.value) && m == Fn(Override(Fn(LookupWrapper(c.value, name)), impl)))
  {
    assert ClassOk(w, k);
    ResolveOneStep(w, k, name);
  }

  /** Around on a root class for a name it does not own installs a function
      whose `next` reads the root's prototype again and so finds the function
      itself: a body that calls `next()` recurses until the fuel runs out. */
  lemma {:induction false} AroundOnRootRecurses(w: World, k: ClassId, name: string,
                                                self: Value, args: seq<Value>, fuel: nat)
    requires Valid(w) && IsSelfCtor(w, k) && !Owns(w, ProtoOf(w, k), name)
    ensures var r := AroundW(w, k, name, Fn(Script([CallNext([])])));
      Apply(r, Member(r, k, name), self, args, fuel) == Throw(OutOfFuel)
    decreases fuel
  {
    var impl := Fn(Script([CallNext([])]));
    var r := AroundW(w, k, name, impl);
    var m := Member(r, k, name);
    AroundWrapsLookup(w, k, name, impl);
    assert m == Fn(Override(Fn(LookupWrapper(k, name)), impl));
    if fuel > 0 {
      var bound := Bound(Fn(LookupWrapper(k, name)), self, args);
      assert Apply(r, m, self, args, fuel) == Run(r, impl.f, bound, self, args, fuel - 1);
      assert Run(r, impl.f, bound, self, args, fuel - 1) == RunSteps(r, [CallNext([])], bound, self, args, fuel - 1);
      assert RunSteps(r, [CallNext([])], bound, self, args, fuel - 1) == Next(r, bound, [], fuel - 1);
      assert Forwarded([], args) == args;
      if fuel > 1 {
        assert r.classes == w.classes;
        assert Apply(r, Fn(LookupWrapper(k, name)), self, args, fuel - 1)
            == Apply(r, m, self, args, fuel - 2);
        AroundOnRootRecurses(w, k, name, self, args, fuel - 2);
      }
    }
  }

  /** Repeated `around` on the same name nests: the last applied runs
      outermost, with `next` reaching the one applied before it. */
  lemma AroundNests(w: World, k: ClassId, name: string, a: Value, b: Callable,
                    self: Value, args: seq<Value>, fuel: nat)
    requires Valid(w) && k < |w.classes|
    ensures var w1 := AroundW(w, k, name, a); var w2 := AroundW(w1, k, name, Fn(b));
      && Member(w2, k, name) == Fn(Override(Member(w1, k, name), Fn(b)))
      && Apply(w2, Member(w2, k, name), self, args, fuel + 1)
           == Run(w2, b, Bound(Member(w1, k, name), self, args), self, args, fuel)
  {
    assert ClassOk(w, k);
    var w1 := AroundW(w, k, name, a);
    assert Owns(w1, ProtoOf(w, k), name);
    AroundWrapsOwn(w1, k, name, Fn(b));
  }

  /** `before`: the advice runs first with the original receiver and
      arguments, then the previous implementation; the result is the previous
      implementation's. An exception in the advice ends the call. */
  lemma BeforeOrder(w: World, k: ClassId, name: string, advice: Value,
                    self: Value, args: seq<Value>, fuel: nat)
    requires Valid(w) && k < |w.classes|
    ensures var r := BeforeW(w, k, name, advice);
      var o := Apply(r, Member(r, k, name), self, args, fuel + 1);
      var a := Apply(r, advice, self, args, fuel);
      var p := Next(r, Bound(AroundPrior(w, k, name), self, args), [], fuel);
      && (a.completion.Thrown? ==> o == a)
      && (a.completion.Normal? ==> o.trace == a.trace + p.trace && o.completion == p.completion)
  {
    assert ClassOk(w, k);
    var r := BeforeW(w, k, name, advice);
    var prior := AroundPrior(w, k, name);
    SetOwnReadBack(w, ProtoOf(w, k), name, Fn(Override(prior, Fn(CallThenNext(advice)))));
    assert Member(r, k, name) == Fn(Override(prior, Fn(CallThenNext(advice))));
    assert Apply(r, Member(r, k, name), self, args, fuel + 1)
        == Run(r, CallThenNext(advice), Bound(prior, self, args), self, args, fuel);
  }

  /** `after`: the previous implementation runs first, then the advice with
      the original receiver and arguments; the result is the advice's. */
  lemma AfterOrder(w: World, k: ClassId, name: string, advice: Value,
                   self: Value, args: seq<Value>, fuel: nat)
    requires Valid(w) && k < |w.classes|
    ensures var r := AfterW(w, k, name, advice);
      var o := Apply(r, Member(r, k, name), self, args, fuel + 1);
      var p := Next(r, Bound(AroundPrior(w, k, name), self, args), [], fuel);
      var a := Apply(r, advice, self, args, fuel);
      && (p.completion.Thrown? ==> o == p)
      && (p.completion.Normal? ==> o.trace == p.trace + a.trace && o.completion == a.completion)
  {
    assert ClassOk(w, k);
    var r := AfterW(w, k, name, advice);
    var prior := AroundPrior(w, k, name);
    SetOwnReadBack(w, ProtoOf(w, k), name, Fn(Override(prior, Fn(NextThenCall(advice)))));
    assert Member(r, k, name) == Fn(Override(prior, Fn(NextThenCall(advice))));
    assert Apply(r, Member(r, k, name), self, args, fuel + 1)
        == Run(r, NextThenCall(advice), Bound(prior, self, args), self, args, fuel);
  }

  /** `before` applied twice: the second advice runs first, then the first
      advice, then what was there before both. */
  lemma BeforeTwice(w: World, k: ClassId, name: string, f1: Value, f2: Value,
                    self: Value, args: seq<Value>, fuel: nat)
    requires Valid(w) && k < |w.classes|
    ensures var w2 := BeforeW(BeforeW(w, k, name, f1), k, name, f2);
      Apply(w2, Member(w2, k, name), self, args, fuel + 2)
        == Then(Apply(w2, f2, self, args, fuel + 1),
                Then(Apply(w2, f1, self, args, fuel),
                     Next(w2, Bound(AroundPrior(w, k, name), self, args), [], fuel)))
  {
    assert ClassOk(w, k);
    var w1 := BeforeW(w, k, name, f1);
    var w2 := BeforeW(w1, k, name, f2);
    var m1 := Member(w1, k, name);
    SetOwnReadBack(w, ProtoOf(w, k), name, Fn(Override(AroundPrior(w, k, name), Fn(CallThenNext(f1)))));
    assert m1 == Fn(Override(AroundPrior(w, k, name), Fn(CallThenNext(f1))));
    AroundWrapsOwn(w1, k, name, Fn(CallThenNext(f2)));
    assert Member(w2, k, name) == Fn(Override(m1, Fn(CallThenNext(f2))));
    assert Apply(w2, Member(w2, k, name), self, args, fuel + 2)
        == Run(w2, CallThenNext(f2), Bound(m1, self, args), self, args, fuel + 1);
    assert Apply(w2, Member(w2, k, name), self, args, fuel + 2)
        == Then(Apply(w2, f2, self, args, fuel + 1), Next(w2, Bound(m1, self, args), [], fuel + 1));
    assert Next(w2, Bound(m1, self, args), [], fuel + 1) == Apply(w2, m1, self, args, fuel + 1);
    assert Apply(w2, m1, self, args, fuel + 1)
        == Run(w2, CallThenNext(f1), Bound(AroundPrior(w, k, name), self, args), self, args, fuel);
  }
}
