/** Values, callables and call outcomes of the yo-next protocol.

    A JavaScript function is represented by a `Callable`: the protocol only ever
    creates functions with fixed bodies (user scripts, the wrappers built by
    `override` and `lookup`, and the fixed bodies of `before`, `after` and
    `extend`), so a function is a value and never a closure over mutable state.
 */
module Values {

  type ClassId = nat
  type ObjId = nat

  datatype Option<+T> = None | Some(value: T)

  /** The JavaScript values the protocol distinguishes. */
  datatype Value =
    | Undefined
    | Null
    | Num(n: int)
    | Fn(f: Callable)

  /** Function bodies.
      - `Script`: user code, a comma expression of steps.
      - `ClassFn(k)`: the constructor function of class `k` (its identity is `k`).
      - `Override(ol, yo)`: the function returned by `override(ol, yo)`.
      - `LookupWrapper(owner, name)`: the function returned by `lookup`, which
        reads `owner.prototype[name]` when it is called.
      - `CallThenNext(impl)`: the body `impl.apply(this, arguments), yo.next()` of `before`.
      - `NextThenCall(impl)`: the body `yo.next(), impl.apply(this, arguments)`
        shared by `after` and `extend`. */
  datatype Callable =
    | Script(steps: seq<Step>)
    | ClassFn(cls: ClassId)
    | Override(ol: Value, yo: Value)
    | LookupWrapper(owner: ClassId, name: string)
    | CallThenNext(impl: Value)
    | NextThenCall(impl: Value)

  /** One step of a user script: record an observable event tagged `tag`, call `next`
      (with no arguments when `args` is empty), or evaluate to a constant. */
  datatype Step =
    | Emit(tag: string)
    | CallNext(args: seq<Value>)
    | Const(v: Value)

  /** An observable effect: the tag of the script step, the receiver and the
      arguments of the invocation that ran it. */
  datatype Event = Event(tag: string, self: Value, args: seq<Value>)

  /** `NoNext` is the "No next method" error, `NotCallable` the TypeError of
      calling something that is not a function, `OutOfFuel` a call chain deeper
      than the fuel (JavaScript's stack overflow). */
  datatype Error = NoNext | NotCallable | OutOfFuel

  datatype Completion = Normal(value: Value) | Thrown(error: Error)

  datatype Outcome = Outcome(trace: seq<Event>, completion: Completion)

  /** The continuation a body sees as `yo.next`: absent when the body was called
      directly, or bound by `override` to `ol`, the receiver and the arguments. */
  datatype Cont = Unbound | Bound(ol: Value, self: Value, args: seq<Value>)

  /** JavaScript truthiness. */
  predicate Truthy(v: Value)
  {
    match v
    case Undefined => false
    case Null => false
    case Num(n) => n != 0
    case Fn(_) => true
  }

  /** The function value that is class `k`. */
  function ClassValue(k: ClassId): Value
  {
    Fn(ClassFn(k))
  }

  /** The comma operator: run `first`, then `second`, and keep the value of
      `second`; an exception in `first` ends the expression. */
  function Then(first: Outcome, second: Outcome): Outcome
  {
    if first.completion.Thrown? then first
    else Outcome(first.trace + second.trace, second.completion)
  }

  function Throw(e: Error): Outcome
  {
    Outcome([], Thrown(e))
  }

  /** The arguments `next(xs...)` passes on: its own when it has any, otherwise
      those of the original call. */
  function Forwarded(xs: seq<Value>, args: seq<Value>): seq<Value>
  {
    if |xs| > 0 then xs else args
  }

  /** A size that decreases from a callable to the body it runs. */
  function Size(c: Callable): nat
  {
    match c
    case Script(steps) => |steps| + 1
    case Override(_, yo) => (if yo.Fn? then Size(yo.f) else 0) + 1
    case _ => 1
  }
}
