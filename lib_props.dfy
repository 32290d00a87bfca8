/** What the primitives of src/vm.rs promise, stated over the step functions of LibSteps:
    environment indexing and binding balance, copy-on-write isolation of captured
    environments, stack accounting of the integer operations, block round trips and tag
    dispatch, and the application protocol (frames, tail calls, partial application). */
module LibProps {
  import opened Values
  import opened LibSteps

  // ---------------------------------------------------------------- environment

  /** After `let_`, position 0 is the value it popped and each older binding has moved
      up by one position. */
  lemma LetThenAccess<C>(s: MachineState<C>, i: nat)
    requires |s.args| > 0
    ensures Let(s).Ok?
    ensures Access(Let(s).value, 0) == Ok(PushArg(Let(s).value, Last(s.args)))
    ensures 0 < i <= |s.env| ==>
              Access(Let(s).value, i) == Ok(PushArg(Let(s).value, Lookup(s.env, i - 1)))
  {
    LookupAfterBind(s.env, Last(s.args), if i <= |s.env| then i else 0);
  }

  /** `let_` fails exactly on an empty argument stack; `let_` then `endlet` restores the
      environment exactly and leaves the argument stack one element shorter. */
  lemma LetEndLet<C>(s: MachineState<C>)
    ensures Let(s).Ok? <==> |s.args| > 0
    ensures Let(s).Ok? ==> EndLet(Let(s).value) == MachineState(DropLast(s.args), s.rets, s.env)
  {
    if |s.args| > 0 {
      assert DropLast(s.env + [Last(s.args)]) == s.env;
    }
  }

  /** Copy-on-write: extending the environment changes no value already on a stack
      (closures and saved frames included) and none of the older bindings. */
  lemma PushLocalIsolates<C>(s: MachineState<C>, v: Value<C>)
    ensures PushLocal(s, v).args == s.args && PushLocal(s, v).rets == s.rets
    ensures |PushLocal(s, v).env| == |s.env| + 1
    ensures forall i :: 0 <= i < |s.env| ==> PushLocal(s, v).env[i] == s.env[i]
    ensures Lookup(PushLocal(s, v).env, 0) == v
  {
  }

  /** A closure keeps the environment it captured: binding that closure into the very
      environment it captured does not make it see the new binding. */
  lemma ClosureKeepsSnapshot<C>(s: MachineState<C>, code: C)
    ensures Let(MakeClosure(s, code)).Ok?
    ensures Let(MakeClosure(s, code)).value == s.(env := s.env + [Closure(code, s.env)])
    ensures Lookup(Let(MakeClosure(s, code)).value.env, 0).env == s.env
  {
    assert DropLast(s.args + [Closure(code, s.env)]) == s.args;
  }

  // ---------------------------------------------------------------- arithmetic and test

  /** `add` pops exactly two values (failing on fewer); it pushes `x + y` when both are
      integers (failing on i32 overflow), and nothing otherwise. */
  lemma AddEffect<C>(s: MachineState<C>)
    ensures |s.args| < 2 ==> Add(s) == Fail(Underflow)
    ensures |s.args| >= 2 ==>
              var x, y, below := s.args[|s.args| - 1], s.args[|s.args| - 2], s.args[..|s.args| - 2];
              Add(s) ==
                if x.Integer? && y.Integer? then
                  if InI32(x.n as int + y.n as int)
                  then Ok(MachineState(below + [Integer((x.n as int + y.n as int) as i32)], s.rets, s.env))
                  else Fail(Overflow)
                else Ok(MachineState(below, s.rets, s.env))
  {
    if |s.args| >= 2 {
      assert DropLast(DropLast(s.args)) == s.args[..|s.args| - 2];
    }
  }

  /** `eq` pops exactly two values (failing on fewer); it pushes 1 or 0 when both are
      integers, and nothing otherwise. */
  lemma EqEffect<C>(s: MachineState<C>)
    ensures |s.args| < 2 ==> Eq(s) == Fail(Underflow)
    ensures |s.args| >= 2 ==>
              var x, y, below := s.args[|s.args| - 1], s.args[|s.args| - 2], s.args[..|s.args| - 2];
              Eq(s) ==
                if x.Integer? && y.Integer?
                then Ok(MachineState(below + [Integer(if x.n == y.n then 1 else 0)], s.rets, s.env))
                else Ok(MachineState(below, s.rets, s.env))
  {
    if |s.args| >= 2 {
      assert DropLast(DropLast(s.args)) == s.args[..|s.args| - 2];
    }
  }

  /** Two loaded constants are added back into one, unless their sum leaves i32. */
  lemma LdiLdiAdd<C>(s: MachineState<C>, i: i32, j: i32)
    ensures Add(Ldi(Ldi(s, i), j)) ==
              if InI32(i as int + j as int) then Ok(Ldi(s, (i as int + j as int) as i32)) else Fail(Overflow)
  {
    assert DropLast(DropLast(s.args + [Integer(i)] + [Integer(j)])) == s.args;
  }

  /** Two loaded constants compare to 1 exactly when they are equal. */
  lemma LdiLdiEq<C>(s: MachineState<C>, i: i32, j: i32)
    ensures Eq(Ldi(Ldi(s, i), j)) == Ok(Ldi(s, if i == j then 1 else 0))
  {
    assert DropLast(DropLast(s.args + [Integer(i)] + [Integer(j)])) == s.args;
  }

  /** `test` pops one value (failing on none) and chooses `c1` exactly for `Integer(1)`. */
  lemma TestSelects<C>(s: MachineState<C>, c1: C, c2: C)
    ensures Test(s, c1, c2).Ok? <==> |s.args| > 0
    ensures Test(s, c1, c2).Ok? ==>
              Test(s, c1, c2).value.state == s.(args := DropLast(s.args)) &&
              Test(s, c1, c2).value.code == if Last(s.args) == Integer(1) then c1 else c2
  {
  }

  /** Testing a constant just loaded restores the state and branches on whether it is 1. */
  lemma LdiThenTest<C>(s: MachineState<C>, k: i32, c1: C, c2: C)
    ensures Test(Ldi(s, k), c1, c2) == Ok(Next(s, if k == 1 then c1 else c2))
  {
    assert DropLast(s.args + [Integer(k)]) == s.args;
  }

  // ---------------------------------------------------------------- blocks

  /** `make_block(tag, n)` fails exactly when fewer than `n` arguments are present. */
  lemma MakeBlockArity<C>(s: MachineState<C>, tag: u8, n: nat)
    ensures MakeBlock(s, tag, n).Ok? <==> n <= |s.args|
    ensures MakeBlock(s, tag, n).Ok? ==>
              |MakeBlock(s, tag, n).value.args| == |s.args| - n + 1 &&
              MakeBlock(s, tag, n).value.rets == s.rets && MakeBlock(s, tag, n).value.env == s.env
    ensures MakeBlock(s, tag, n).Ok? ==>
              DropLast(MakeBlock(s, tag, n).value.args) == s.args[..|s.args| - n] &&
              Last(MakeBlock(s, tag, n).value.args) == Block(tag, s.args[|s.args| - n..])
  {
  }

  /** Block round trip: values pushed in order and packed by `make_block` become the block's
      fields in push order, earliest first, and `field(i)` gives back the i-th pushed. */
  lemma MakeBlockThenField<C>(base: Stack<C>, vs: seq<Value<C>>, rets: Stack<C>, env: Env<C>, tag: u8, i: nat)
    requires i < |vs|
    ensures MakeBlock(MachineState(base + vs, rets, env), tag, |vs|) ==
              Ok(MachineState(base + [Block(tag, vs)], rets, env))
    ensures Field(MachineState(base + [Block(tag, vs)], rets, env), i) ==
              Ok(MachineState(base + [vs[i]], rets, env))
  {
    assert (base + vs)[..|base|] == base;
    assert (base + vs)[|base|..] == vs;
    assert DropLast(base + [Block(tag, vs)]) == base;
  }

  /** `field` of a non-block pops it and pushes nothing; of a block with too few fields it fails. */
  lemma FieldOtherwise<C>(s: MachineState<C>, i: nat)
    requires |s.args| > 0
    ensures !Last(s.args).Block? ==> Field(s, i) == Ok(s.(args := DropLast(s.args)))
    ensures Last(s.args).Block? && |Last(s.args).fields| <= i ==> Field(s, i) == Fail(FieldIndex)
  {
  }

  /** `field(i)` fails exactly on an empty stack (the pop underflows) and on a block with
      at most `i` fields. */
  lemma FieldFails<C>(s: MachineState<C>, i: nat)
    ensures Field(s, i).Ok? <==> |s.args| > 0 && (Last(s.args).Block? ==> i < |Last(s.args).fields|)
    ensures |s.args| == 0 ==> Field(s, i) == Fail(Underflow)
  {
  }

  /** `invoke` is fatal exactly when the stack is empty or its top is not a block; it never
      changes the state, so a fault is all it can report. */
  lemma InvokeFails<C>(s: MachineState<C>, t: u8, c1: C, c2: C)
    ensures Invoke(s, t, c1, c2).Ok? <==> |s.args| > 0 && Last(s.args).Block?
    ensures Invoke(s, t, c1, c2).Fail? ==> Invoke(s, t, c1, c2) == Fail(NotBlock)
  {
  }

  /** Dispatch on a block just built: it selects `c1` exactly when the tags agree, and the
      block stays where it is for the chosen branch. */
  lemma MakeBlockThenInvoke<C>(base: Stack<C>, vs: seq<Value<C>>, rets: Stack<C>, env: Env<C>,
                               tag: u8, t: u8, c1: C, c2: C)
    ensures Invoke(MachineState(base + [Block(tag, vs)], rets, env), t, c1, c2) ==
              Ok(if t == tag then c1 else c2)
  {
  }

  // ---------------------------------------------------------------- application protocol

  /** `apply(cont)` fails unless a closure sits on top of a second value. When it succeeds it
      pops both, pushes exactly one frame (`cont` with the caller's environment), enters the
      closure's environment extended by the closure and the argument, and returns its code. */
  lemma ApplyEffect<C>(s: MachineState<C>, cont: C)
    ensures Apply(s, cont).Ok? <==> |s.args| >= 2 && Last(s.args).Closure?
    ensures Apply(s, cont).Ok? ==>
              var clos, val := s.args[|s.args| - 1], s.args[|s.args| - 2];
              Apply(s, cont).value ==
                Next(MachineState(s.args[..|s.args| - 2], s.rets + [Closure(cont, s.env)], clos.env + [clos, val]),
                     clos.code)
  {
    if |s.args| >= 2 {
      assert DropLast(DropLast(s.args)) == s.args[..|s.args| - 2];
    }
  }

  /** `tail_apply` differs from `apply` only in pushing no frame: the return stack is
      unchanged, which is what bounds it across tail-recursive loops. */
  lemma TailApplyEffect<C>(s: MachineState<C>, cont: C)
    ensures TailApply(s).Ok? <==> Apply(s, cont).Ok?
    ensures TailApply(s).Ok? ==>
              TailApply(s).value.state.rets == s.rets &&
              Apply(s, cont).value.state.rets == s.rets + [Closure(cont, s.env)] &&
              TailApply(s).value == Next(Apply(s, cont).value.state.(rets := s.rets), Apply(s, cont).value.code)
  {
  }

  /** Apply/return pairing: a call made by `apply(cont)` above a marker, whose callee leaves
      one result `v` on the marker and the frame stack as it found it, resumes at `cont`
      with the caller's environment and `v` in place of the call. */
  lemma ApplyThenReturn<C>(base: Stack<C>, rets: Stack<C>, env: Env<C>, callee: Value<C>, arg: Value<C>,
                           cont: C, v: Value<C>, calleeEnv: Env<C>)
    requires callee.Closure?
    ensures Apply(MachineState(base + [Epsilon, arg, callee], rets, env), cont) ==
              Ok(Next(MachineState(base + [Epsilon], rets + [Closure(cont, env)], callee.env + [callee, arg]),
                      callee.code))
    ensures ReturnClos(MachineState(base + [Epsilon, v], rets + [Closure(cont, env)], calleeEnv)) ==
              Ok(Next(MachineState(base + [v], rets, env), cont))
  {
    assert DropLast(DropLast(base + [Epsilon, arg, callee])) == base + [Epsilon];
    assert DropLast(DropLast(base + [Epsilon, v])) == base;
    assert DropLast(rets + [Closure(cont, env)]) == rets;
  }

  /** `grab(cont)` fails on an empty argument stack, and on the marker when no closure
      frame is pending. On the marker it hands the pending frame a closure of `cont` over the
      current environment and restores that frame; on any other value it binds a
      self-reference captured before the extension, then the value, and goes on to `cont`. */
  lemma GrabEffect<C>(s: MachineState<C>, cont: C)
    ensures Grab(s, cont).Ok? <==>
              |s.args| > 0 && (Last(s.args).Epsilon? ==> |s.rets| > 0 && Last(s.rets).Closure?)
    ensures Grab(s, cont).Ok? && Last(s.args).Epsilon? ==>
              Grab(s, cont).value ==
                Next(MachineState(DropLast(s.args) + [Closure(cont, s.env)], DropLast(s.rets), Last(s.rets).env),
                     Last(s.rets).code)
    ensures Grab(s, cont).Ok? && !Last(s.args).Epsilon? ==>
              Grab(s, cont).value ==
                Next(MachineState(DropLast(s.args), s.rets, s.env + [Closure(cont, s.env), Last(s.args)]), cont)
  {
  }

  /** `return_clos` pops `x` then `y`. Over a marker it returns `x` to the top frame; with
      a closure `x` it applies that closure to `y`; every other shape, fewer than two values,
      or a missing frame is fatal. */
  lemma ReturnClosEffect<C>(s: MachineState<C>)
    ensures ReturnClos(s).Ok? <==>
              |s.args| >= 2 &&
              (s.args[|s.args| - 2].Epsilon? ==> |s.rets| > 0 && Last(s.rets).Closure?) &&
              (!s.args[|s.args| - 2].Epsilon? ==> Last(s.args).Closure?)
    ensures ReturnClos(s).Ok? && s.args[|s.args| - 2].Epsilon? ==>
              ReturnClos(s).value ==
                Next(MachineState(s.args[..|s.args| - 2] + [Last(s.args)], DropLast(s.rets), Last(s.rets).env),
                     Last(s.rets).code)
    ensures ReturnClos(s).Ok? && !s.args[|s.args| - 2].Epsilon? ==>
              var x, y := Last(s.args), s.args[|s.args| - 2];
              ReturnClos(s).value == Next(MachineState(s.args[..|s.args| - 2], s.rets, x.env + [x, y]), x.code)
  {
    if |s.args| >= 2 {
      assert DropLast(DropLast(s.args)) == s.args[..|s.args| - 2];
    }
  }

  /** Under-application: `grab` meeting the marker packages the function that wanted one
      more argument as a closure and returns it to the pending caller. */
  lemma GrabOnMarker<C>(base: Stack<C>, rets: Stack<C>, k: C, frameEnv: Env<C>, env: Env<C>, cont: C)
    ensures Grab(MachineState(base + [Epsilon], rets + [Closure(k, frameEnv)], env), cont) ==
              Ok(Next(MachineState(base + [Closure(cont, env)], rets, frameEnv), k))
  {
    assert DropLast(base + [Epsilon]) == base;
    assert DropLast(rets + [Closure(k, frameEnv)]) == rets;
  }

  /** `push_mark` delimits the arguments of a call: a `grab` right after it finds no
      argument and returns the partial application to the pending frame. */
  lemma PushMarkThenGrab<C>(s: MachineState<C>, cont: C)
    requires |s.rets| > 0 && Last(s.rets).Closure?
    ensures Grab(PushMark(s), cont) ==
              Ok(Next(MachineState(s.args + [Closure(cont, s.env)], DropLast(s.rets), Last(s.rets).env),
                      Last(s.rets).code))
  {
  }

  /** The closure built by `grab` on the marker is a faithful partial application: given
      its argument later, through `return_clos` or `tail_apply`, it continues exactly as
      `grab` would have continued had the argument been there in the first place. */
  lemma PartialApplicationResumes<C>(base: Stack<C>, rets: Stack<C>, env: Env<C>, cont: C,
                                     v: Value<C>, laterEnv: Env<C>)
    requires !v.Epsilon?
    ensures ReturnClos(MachineState(base + [v, Closure(cont, env)], rets, laterEnv)) ==
              Grab(MachineState(base + [v], rets, env), cont)
    ensures TailApply(MachineState(base + [v, Closure(cont, env)], rets, laterEnv)) ==
              Grab(MachineState(base + [v], rets, env), cont)
    ensures Grab(MachineState(base + [v], rets, env), cont) ==
              Ok(Next(MachineState(base, rets, env + [Closure(cont, env), v]), cont))
  {
    assert DropLast(DropLast(base + [v, Closure(cont, env)])) == base;
    assert DropLast(base + [v, Closure(cont, env)]) == base + [v];
    assert DropLast(base + [v]) == base;
  }

  /** Every frame on the return stack is a closure. */
  ghost predicate WellFramed<C>(s: MachineState<C>) {
    forall i :: 0 <= i < |s.rets| ==> s.rets[i].Closure?
  }

  /** The control primitives keep every return-stack entry a closure, so under this
      invariant `grab` and `return_clos` can lack a frame only when the return stack is empty. */
  lemma ApplyKeepsWellFramed<C>(s: MachineState<C>, cont: C)
    requires WellFramed(s)
    ensures Apply(s, cont).Ok? ==> WellFramed(Apply(s, cont).value.state)
    ensures TailApply(s).Ok? ==> WellFramed(TailApply(s).value.state)
  {
  }

  lemma GrabKeepsWellFramed<C>(s: MachineState<C>, cont: C)
    requires WellFramed(s)
    ensures Grab(s, cont).Ok? ==> WellFramed(Grab(s, cont).value.state)
    ensures Grab(s, cont) == Fail(MissingFrame) ==> |s.rets| == 0
  {
  }

  lemma ReturnClosKeepsWellFramed<C>(s: MachineState<C>)
    requires WellFramed(s)
    ensures ReturnClos(s).Ok? ==> WellFramed(ReturnClos(s).value.state)
    ensures ReturnClos(s) == Fail(MissingFrame) ==> |s.rets| == 0
  {
  }
}
