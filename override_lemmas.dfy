/** What a function built by `override(ol, yo)` does when it is called
    (yo-next.js:67-76). */
module OverrideLemmas {
  import opened Values
  import opened Prototypes
  import opened Dispatch

  /** Calling `override(ol, yo)` runs `yo` on the same receiver and arguments,
      with `next` bound to `ol`, that receiver and those arguments. */
  lemma OverrideRunsYo(w: World, ol: Value, yo: Callable, self: Value, args: seq<Value>, fuel: nat)
    ensures Apply(w, Fn(Override(ol, Fn(yo))), self, args, fuel + 1)
         == Run(w, yo, Bound(ol, self, args), self, args, fuel)
  {
  }

  /** `next()` with no arguments runs `ol` with the original arguments; with a
      null (or otherwise falsy) `ol` it throws "No next method". The event the
      body emits first carries the original receiver and arguments. */
  lemma {:induction false} NextWithoutArguments(w: World, ol: Value, t: string, self: Value, args: seq<Value>, fuel: nat)
    ensures var o := Apply(w, Fn(Override(ol, Fn(Script([Emit(t), CallNext([])])))), self, args, fuel + 1);
      var prior := Apply(w, ol, self, args, fuel);
      && (Truthy(ol) ==> o == Outcome([Event(t, self, args)] + prior.trace, prior.completion))
      && (!Truthy(ol) ==> o == Outcome([Event(t, self, args)], Thrown(NoNext)))
  {
    var steps := [Emit(t), CallNext([])];
    var c := Bound(ol, self, args);
    assert steps[1..] == [CallNext([])];
    assert RunSteps(w, steps[1..], c, self, args, fuel) == Next(w, c, [], fuel);
    assert RunSteps(w, steps, c, self, args, fuel)
        == Then(Outcome([Event(t, self, args)], Normal(Undefined)), Next(w, c, [], fuel));
    OverrideRunsYo(w, ol, Script(steps), self, args, fuel);
  }

  /** `next(xs...)` with at least one argument runs `ol` with exactly those. */
  lemma {:induction false} NextWithArguments(w: World, ol: Value, xs: seq<Value>, self: Value, args: seq<Value>, fuel: nat)
    requires |xs| > 0
    ensures Apply(w, Fn(Override(ol, Fn(Script([CallNext(xs)])))), self, args, fuel + 1)
         == if Truthy(ol) then Apply(w, ol, self, xs, fuel) else Throw(NoNext)
  {
    assert RunSteps(w, [CallNext(xs)], Bound(ol, self, args), self, args, fuel)
        == Next(w, Bound(ol, self, args), xs, fuel);
    OverrideRunsYo(w, ol, Script([CallNext(xs)]), self, args, fuel);
  }

  /** A body called directly, not through `override`, has no `next` to call. */
  lemma DirectCallHasNoNext(w: World, xs: seq<Value>, self: Value, args: seq<Value>, fuel: nat)
    ensures Apply(w, Fn(Script([CallNext(xs)])), self, args, fuel + 1) == Throw(NotCallable)
  {
    assert RunSteps(w, [CallNext(xs)], Unbound, self, args, fuel) == Next(w, Unbound, xs, fuel);
  }

  /** `yo` decides how often the shadowed implementation runs: calling `next()`
      twice runs `ol` twice, with the original arguments both times. */
  lemma {:induction false} NextTwice(w: World, ol: Value, self: Value, args: seq<Value>, fuel: nat)
    requires Truthy(ol)
    ensures var once := Apply(w, ol, self, args, fuel);
      Apply(w, Fn(Override(ol, Fn(Script([CallNext([]), CallNext([])])))), self, args, fuel + 1)
        == Then(once, once)
  {
    var steps := [CallNext([]), CallNext([])];
    var c := Bound(ol, self, args);
    assert steps[1..] == [CallNext([])];
    assert RunSteps(w, steps[1..], c, self, args, fuel) == Next(w, c, [], fuel);
    assert RunSteps(w, steps, c, self, args, fuel) == Then(Next(w, c, [], fuel), Next(w, c, [], fuel));
    OverrideRunsYo(w, ol, Script(steps), self, args, fuel);
  }

  predicate NoNextCall(steps: seq<Step>)
  {
    forall i | 0 <= i < |steps| :: !steps[i].CallNext?
  }

  /** A body that never calls `next` behaves the same whatever it would have
      reached: not calling it short-circuits the shadowed implementation. */
  lemma {:induction false} UnusedNextIsIrrelevant(w: World, steps: seq<Step>, c1: Cont, c2: Cont,
                                                  self: Value, args: seq<Value>, fuel: nat)
    requires NoNextCall(steps)
    ensures RunSteps(w, steps, c1, self, args, fuel) == RunSteps(w, steps, c2, self, args, fuel)
    decreases |steps|
  {
    if |steps| > 0 {
      assert !steps[0].CallNext?;
      assert Exec(w, steps[0], c1, self, args, fuel) == Exec(w, steps[0], c2, self, args, fuel);
      if |steps| > 1 {
        assert NoNextCall(steps[1..]) by {
          forall i | 0 <= i < |steps[1..]| ensures !steps[1..][i].CallNext? {
            assert steps[1..][i] == steps[i + 1];
          }
        }
        UnusedNextIsIrrelevant(w, steps[1..], c1, c2, self, args, fuel);
      }
    }
  }
}
