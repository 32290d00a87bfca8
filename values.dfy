/** The data model shared by both copies of the machine (src/vm.rs and src/main.rs):
    runtime values, the three stacks, and the outcome of a primitive.

    `Code` in the source is a Rust function pointer; here it is an opaque label type `C`
    that the primitives only store and hand back, never inspect. */
module Values {

  /** Rust `i32`: the payload of `Integer`. */
  newtype i32 = x: int | -0x8000_0000 <= x < 0x8000_0000

  /** Rust `u8`: the tag of a `Block`. */
  newtype u8 = x: int | 0 <= x < 0x100

  /** The range of Rust `i32`. */
  predicate InI32(x: int) {
    -0x8000_0000 <= x < 0x8000_0000
  }

  /** A runtime value. `Epsilon` is the marker that delimits curried arguments. */
  datatype Value<C> =
    | Integer(n: i32)
    | Closure(code: C, env: seq<Value<C>>)
    | Block(tag: u8, fields: seq<Value<C>>)
    | Epsilon

  /** An environment; the most recently bound value is the last element. */
  type Env<C> = seq<Value<C>>

  /** A stack; the top is the last element. */
  type Stack<C> = seq<Value<C>>

  /** The machine: `arg_stack`, `ret_stack` and `local_env`. */
  datatype MachineState<C> = MachineState(args: Stack<C>, rets: Stack<C>, env: Env<C>)

  /** The state a control primitive leaves behind, with the code it returns. */
  datatype Next<C> = Next(state: MachineState<C>, code: C)

  /** The fatal conditions of the source (`unreachable!`, `panic!`, and the panics of
      usize underflow, indexing and i32 overflow). */
  datatype Fault =
    | Underflow     // a pop from an empty argument stack
    | EnvIndex      // access(i) with i >= |local_env|
    | BlockArity    // make_block(_, n) with n > |arg_stack|
    | FieldIndex    // field(i) with i beyond the block's fields
    | NotBlock      // invoke with no Block on top
    | NotClosure    // apply / tail_apply with no Closure on top
    | MissingFrame  // grab / return_clos with no Closure frame on ret_stack
    | BadShape      // return_clos on a stack shape it does not handle
    | Overflow      // i32 overflow in add

  /** Either the result of a primitive or the fault that aborts the machine. */
  datatype Outcome<T> = Ok(value: T) | Fail(fault: Fault) {
    predicate IsFailure() {
      Fail?
    }

    function PropagateFailure<U>(): Outcome<U>
      requires Fail?
    {
      Fail(fault)
    }

    function Extract(): T
      requires Ok?
    {
      value
    }
  }

  datatype Option<T> = None | Some(value: T)

  /** A machine now in state `now` holds the state the step `o` produced, and `r` reports
      that it succeeded; on a fault, `r` is that fault. */
  ghost predicate Became<C>(now: MachineState<C>, r: Outcome<()>, o: Outcome<MachineState<C>>) {
    match o
    case Ok(t) => r == Ok(()) && now == t
    case Fail(f) => r == Fail(f)
  }

  /** A machine now in state `now` holds the state of the step `o`, and `r` is the code
      that step returned; on a fault, `r` is that fault. */
  ghost predicate Chose<C>(now: MachineState<C>, r: Outcome<C>, o: Outcome<Next<C>>) {
    match o
    case Ok(n) => r == Ok(n.code) && now == n.state
    case Fail(f) => r == Fail(f)
  }

  function Last<T>(s: seq<T>): T
    requires |s| > 0
  {
    s[|s| - 1]
  }

  function DropLast<T>(s: seq<T>): seq<T>
    requires |s| > 0
  {
    s[..|s| - 1]
  }

  /** Environment position `i`, counted from the most recent binding: position 0 is the
      last value bound, and binding a value shifts every older position up by one. */
  function Lookup<C>(env: Env<C>, i: nat): Value<C>
    requires i < |env|
    decreases i
  {
    if i == 0 then Last(env) else Lookup(DropLast(env), i - 1)
  }

  /** Position `i` from the most recent binding is element `|env| - i - 1` from the oldest. */
  lemma {:induction false} LookupIsIndex<C>(env: Env<C>, i: nat)
    requires i < |env|
    ensures Lookup(env, i) == env[|env| - i - 1]
    decreases i
  {
    if i > 0 {
      LookupIsIndex(DropLast(env), i - 1);
    }
  }

  /** Binding a value makes it position 0 and moves every older binding up by one. */
  lemma LookupAfterBind<C>(env: Env<C>, v: Value<C>, i: nat)
    requires i <= |env|
    ensures Lookup(env + [v], 0) == v
    ensures 0 < i ==> Lookup(env + [v], i) == Lookup(env, i - 1)
  {
    assert DropLast(env + [v]) == env;
  }
}
