/** Fuel only bounds the depth of the call chain: a call that does not run out
    of fuel has the same outcome with any larger fuel, so every other outcome
    the model proves is the outcome of the model's unbounded evaluation. */
module FuelLemmas {
  import opened Values
  import opened Prototypes
  import opened Dispatch

  /** The call did not run out of fuel. */
  predicate Finished(o: Outcome)
  {
    o.completion != Thrown(OutOfFuel)
  }

  /** A comma expression that finished had a first part that finished and,
      when that part returned normally, a second part that finished. */
  lemma ThenFinished(a: Outcome, b: Outcome)
    ensures Finished(Then(a, b)) ==> Finished(a) && (a.completion.Normal? ==> Finished(b))
  {
  }

  lemma {:induction false} ApplyFuelMono(w: World, v: Value, self: Value, args: seq<Value>, fuel: nat)
    requires Finished(Apply(w, v, self, args, fuel))
    ensures Apply(w, v, self, args, fuel + 1) == Apply(w, v, self, args, fuel)
    decreases fuel, 0, 0
  {
    if v.Fn? && fuel > 0 {
      RunFuelMono(w, v.f, Unbound, self, args, fuel - 1);
    }
  }

  lemma {:induction false} RunFuelMono(w: World, c: Callable, cont: Cont, self: Value, args: seq<Value>, fuel: nat)
    requires Finished(Run(w, c, cont, self, args, fuel))
    ensures Run(w, c, cont, self, args, fuel + 1) == Run(w, c, cont, self, args, fuel)
    decreases fuel, 1, Size(c)
  {
    match c
    case Script(steps) =>
      RunStepsFuelMono(w, steps, cont, self, args, fuel);
    case ClassFn(k) =>
      if k < |w.classes| && fuel > 0 {
        RunFuelMono(w, w.classes[k].ctor, cont, self, args, fuel - 1);
      }
    case Override(ol, yo) =>
      if yo.Fn? {
        RunFuelMono(w, yo.f, Bound(ol, self, args), self, args, fuel);
      }
    case LookupWrapper(k, name) =>
      if k < |w.classes| {
        ApplyFuelMono(w, ChainGet(w, ProtoOf(w, k), name), self, args, fuel);
      }
    case CallThenNext(impl) =>
      var a := Apply(w, impl, self, args, fuel);
      ThenFinished(a, Next(w, cont, [], fuel));
      ApplyFuelMono(w, impl, self, args, fuel);
      if a.completion.Normal? {
        NextFuelMono(w, cont, [], fuel);
      }
    case NextThenCall(impl) =>
      var n := Next(w, cont, [], fuel);
      ThenFinished(n, Apply(w, impl, self, args, fuel));
      NextFuelMono(w, cont, [], fuel);
      if n.completion.Normal? {
        ApplyFuelMono(w, impl, self, args, fuel);
      }
  }

  lemma {:induction false} RunStepsFuelMono(w: World, steps: seq<Step>, cont: Cont, self: Value, args: seq<Value>, fuel: nat)
    requires Finished(RunSteps(w, steps, cont, self, args, fuel))
    ensures RunSteps(w, steps, cont, self, args, fuel + 1) == RunSteps(w, steps, cont, self, args, fuel)
    decreases fuel, 1, |steps|
  {
    if |steps| == 1 {
      ExecFuelMono(w, steps[0], cont, self, args, fuel);
    } else if |steps| > 1 {
      var a := Exec(w, steps[0], cont, self, args, fuel);
      ThenFinished(a, RunSteps(w, steps[1..], cont, self, args, fuel));
      ExecFuelMono(w, steps[0], cont, self, args, fuel);
      if a.completion.Normal? {
        RunStepsFuelMono(w, steps[1..], cont, self, args, fuel);
      }
    }
  }

  lemma {:induction false} ExecFuelMono(w: World, s: Step, cont: Cont, self: Value, args: seq<Value>, fuel: nat)
    requires Finished(Exec(w, s, cont, self, args, fuel))
    ensures Exec(w, s, cont, self, args, fuel + 1) == Exec(w, s, cont, self, args, fuel)
    decreases fuel, 0, 2
  {
    if s.CallNext? {
      NextFuelMono(w, cont, s.args, fuel);
    }
  }

  lemma {:induction false} NextFuelMono(w: World, cont: Cont, xs: seq<Value>, fuel: nat)
    requires Finished(Next(w, cont, xs, fuel))
    ensures Next(w, cont, xs, fuel + 1) == Next(w, cont, xs, fuel)
    decreases fuel, 0, 1
  {
    if cont.Bound? && Truthy(cont.ol) {
      ApplyFuelMono(w, cont.ol, cont.self, Forwarded(xs, cont.args), fuel);
    }
  }

  /** Any larger fuel gives the same outcome once a call has finished. */
  lemma {:induction false} ApplyFuelMonoAll(w: World, v: Value, self: Value, args: seq<Value>, fuel: nat, more: nat)
    requires Finished(Apply(w, v, self, args, fuel)) && fuel <= more
    ensures Apply(w, v, self, args, more) == Apply(w, v, self, args, fuel)
    decreases more - fuel
  {
    if fuel < more {
      ApplyFuelMono(w, v, self, args, fuel);
      ApplyFuelMonoAll(w, v, self, args, fuel + 1, more);
    }
  }
}
