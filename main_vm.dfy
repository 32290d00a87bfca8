/** The earlier machine of src/main.rs as an object whose methods update its three stack
    fields in place, proved to perform the step functions of MainSteps (and of LibSteps
    for the primitives the two copies share). A method that reports a fault promises
    nothing about the fields: the source has panicked. */
module MainVm {
  import opened Values
  import L = LibSteps
  import M = MainSteps

  class Vm<C> {
    var argStack: Stack<C>
    var retStack: Stack<C>
    var localEnv: Env<C>

    function State(): MachineState<C>
      reads this
    {
      MachineState(argStack, retStack, localEnv)
    }

    /** `Vm::new`: three empty stacks. */
    constructor ()
      ensures State() == MachineState([], [], [])
    {
      argStack, retStack, localEnv := [], [], [];
    }

    /** `arg_stack.pop()`. */
    method Pop() returns (v: Option<Value<C>>)
      modifies this
      ensures (v, State()) == M.Pop(old(State()))
    {
      if |argStack| == 0 {
        v := None;
      } else {
        v := Some(Last(argStack));
        argStack := DropLast(argStack);
      }
    }

    method Ldi(i: i32)
      modifies this
      ensures State() == L.Ldi(old(State()), i)
    {
      argStack := argStack + [Integer(i)];
    }

    method Access(i: nat) returns (r: Outcome<()>)
      modifies this
      ensures Became(State(), r, L.Access(old(State()), i))
    {
      if i < |localEnv| {
        argStack := argStack + [localEnv[|localEnv| - i - 1]];
        r := Ok(());
      } else {
        r := Fail(EnvIndex);
      }
    }

    method MakeClosure(code: C)
      modifies this
      ensures State() == L.MakeClosure(old(State()), code)
    {
      argStack := argStack + [Closure(code, localEnv)];
    }

    method Let()
      modifies this
      ensures State() == M.Let(old(State()))
    {
      var v := Pop();
      if v.Some? {
        localEnv := localEnv + [v.value];
      }
    }

    method EndLet()
      modifies this
      ensures State() == L.EndLet(old(State()))
    {
      if |localEnv| > 0 {
        localEnv := DropLast(localEnv);
      }
    }

    method Test(c1: C, c2: C) returns (c: C)
      modifies this
      ensures Next(State(), c) == M.Test(old(State()), c1, c2)
    {
      var v := Pop();
      c := if v.Some? && v.value.Integer? && v.value.n == 1 then c1 else c2;
    }

    method Add() returns (r: Outcome<()>)
      modifies this
      ensures Became(State(), r, M.Add(old(State())))
    {
      var x := Pop();
      var y := Pop();
      if x.Some? && x.value.Integer? && y.Some? && y.value.Integer? {
        var sum := x.value.n as int + y.value.n as int;
        if !InI32(sum) {
          return Fail(Overflow);
        }
        argStack := argStack + [Integer(sum as i32)];
      }
      r := Ok(());
    }

    method Eq()
      modifies this
      ensures State() == M.Eq(old(State()))
    {
      var x := Pop();
      var y := Pop();
      if x.Some? && x.value.Integer? && y.Some? && y.value.Integer? {
        argStack := argStack + [Integer(if x.value.n == y.value.n then 1 else 0)];
      }
    }

    method MakeBlock(tag: u8, len: nat) returns (r: Outcome<()>)
      modifies this
      ensures Became(State(), r, L.MakeBlock(old(State()), tag, len))
    {
      if len > |argStack| {
        return Fail(BlockArity);
      }
      var start := |argStack| - len;
      var fields := argStack[start..];
      argStack := argStack[..start];
      argStack := argStack + [Block(tag, fields)];
      r := Ok(());
    }

    method Field(i: nat) returns (r: Outcome<()>)
      modifies this
      ensures Became(State(), r, M.Field(old(State()), i))
    {
      var v := Pop();
      if v.Some? && v.value.Block? {
        if i >= |v.value.fields| {
          return Fail(FieldIndex);
        }
        argStack := argStack + [v.value.fields[i]];
      }
      r := Ok(());
    }

    /** `invoke` only looks at the top of the argument stack. */
    method Invoke(tag: u8, c1: C, c2: C) returns (r: Outcome<C>)
      ensures r == L.Invoke(State(), tag, c1, c2)
    {
      if |argStack| > 0 && Last(argStack).Block? {
        r := Ok(if Last(argStack).tag == tag then c1 else c2);
      } else {
        r := Fail(NotBlock);
      }
    }

    method Apply(cont: C) returns (r: Outcome<C>)
      modifies this
      ensures Chose(State(), r, M.Apply(old(State()), cont))
    {
      var c := Pop();
      if !(c.Some? && c.value.Closure?) {
        return Fail(NotClosure);
      }
      var v := Pop();
      if v.None? {
        return Fail(Underflow);
      }
      retStack := retStack + [Closure(cont, localEnv)];
      localEnv := c.value.env;
      localEnv := localEnv + [Closure(c.value.code, c.value.env)];
      localEnv := localEnv + [v.value];
      r := Ok(c.value.code);
    }

    method TailApply() returns (r: Outcome<C>)
      modifies this
      ensures Chose(State(), r, M.TailApply(old(State())))
    {
      var c := Pop();
      if !(c.Some? && c.value.Closure?) {
        return Fail(NotClosure);
      }
      var v := Pop();
      if v.None? {
        return Fail(Underflow);
      }
      localEnv := c.value.env;
      localEnv := localEnv + [Closure(c.value.code, c.value.env)];
      localEnv := localEnv + [v.value];
      r := Ok(c.value.code);
    }

    method PushMark()
      modifies this
      ensures State() == L.PushMark(old(State()))
    {
      argStack := argStack + [Epsilon];
    }

    method Grab(cont: C) returns (r: Outcome<C>)
      modifies this
      ensures Chose(State(), r, M.Grab(old(State()), cont))
    {
      var v := Pop();
      if v.None? {
        return Fail(Underflow);
      }
      if v.value.Epsilon? {
        if |retStack| == 0 || !Last(retStack).Closure? {
          return Fail(MissingFrame);
        }
        var frame := Last(retStack);
        retStack := DropLast(retStack);
        argStack := argStack + [Closure(cont, localEnv)];
        localEnv := frame.env;
        r := Ok(frame.code);
      } else {
        var clos := Closure(cont, localEnv);
        localEnv := localEnv + [clos];
        localEnv := localEnv + [v.value];
        r := Ok(cont);
      }
    }

    method ReturnClos() returns (r: Outcome<C>)
      modifies this
      ensures Chose(State(), r, M.ReturnClos(old(State())))
    {
      var x := Pop();
      var y := Pop();
      if x.Some? && y.Some? && y.value.Epsilon? {
        if |retStack| == 0 || !Last(retStack).Closure? {
          return Fail(MissingFrame);
        }
        var frame := Last(retStack);
        retStack := DropLast(retStack);
        localEnv := frame.env;
        argStack := argStack + [x.value];
        r := Ok(frame.code);
      } else if x.Some? && y.Some? && x.value.Closure? {
        localEnv := x.value.env;
        localEnv := localEnv + [Closure(x.value.code, x.value.env)];
        localEnv := localEnv + [y.value];
        r := Ok(x.value.code);
      } else {
        r := Fail(BadShape);
      }
    }
  }
}
