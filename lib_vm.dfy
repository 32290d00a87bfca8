/** The library machine of src/vm.rs as an object: `Vm` holds the three stacks as fields
    that its methods update in place. Each method is proved to perform the step function
    of the same name in LibSteps. After a fault the source has already panicked, so a
    method that reports a fault promises nothing about the fields. */
module LibVm {
  import opened Values
  import S = LibSteps

  class Vm<C> {
    var argStack: Stack<C>
    var retStack: Stack<C>
    var localEnv: Env<C>

    /** The machine state these fields hold. */
    function State(): MachineState<C>
      reads this
    {
      MachineState(argStack, retStack, localEnv)
    }

    /** `Vm::new`: three empty stacks. */
    constructor ()
      ensures State() == MachineState([], [], [])
    {
      argStack, retStack, localEnv := [], [], [];
    }

    method PopArg() returns (r: Outcome<Value<C>>)
      modifies this
      ensures match S.PopArg(old(State()))
              case Ok(p) => r == Ok(p.top) && State() == p.rest
              case Fail(f) => r == Fail(f)
    {
      if |argStack| == 0 {
        return Fail(Underflow);
      }
      r := Ok(Last(argStack));
      argStack := DropLast(argStack);
    }

    method PushLocal(v: Value<C>)
      modifies this
      ensures State() == S.PushLocal(old(State()), v)
    {
      localEnv := localEnv + [v];
    }

    method Ldi(i: i32)
      modifies this
      ensures State() == S.Ldi(old(State()), i)
    {
      argStack := argStack + [Integer(i)];
    }

    method Access(i: nat) returns (r: Outcome<()>)
      modifies this
      ensures Became(State(), r, S.Access(old(State()), i))
    {
      if i < |localEnv| {
        argStack := argStack + [localEnv[|localEnv| - i - 1]];
        r := Ok(());
      } else {
        r := Fail(EnvIndex);
      }
    }

    method MakeClosure(code: C)
      modifies this
      ensures State() == S.MakeClosure(old(State()), code)
    {
      argStack := argStack + [Closure(code, localEnv)];
    }

    method Let() returns (r: Outcome<()>)
      modifies this
      ensures Became(State(), r, S.Let(old(State())))
    {
      var v :- PopArg();
      PushLocal(v);
      r := Ok(());
    }

    method EndLet()
      modifies this
      ensures State() == S.EndLet(old(State()))
    {
      if |localEnv| > 0 {
        localEnv := DropLast(localEnv);
      }
    }

    method Test(c1: C, c2: C) returns (r: Outcome<C>)
      modifies this
      ensures Chose(State(), r, S.Test(old(State()), c1, c2))
    {
      var v :- PopArg();
      r := Ok(if v.Integer? && v.n == 1 then c1 else c2);
    }

    method Add() returns (r: Outcome<()>)
      modifies this
      ensures Became(State(), r, S.Add(old(State())))
    {
      var x :- PopArg();
      var y :- PopArg();
      if x.Integer? && y.Integer? {
        var sum := x.n as int + y.n as int;
        if !InI32(sum) {
          return Fail(Overflow);
        }
        argStack := argStack + [Integer(sum as i32)];
      }
      r := Ok(());
    }

    method Eq() returns (r: Outcome<()>)
      modifies this
      ensures Became(State(), r, S.Eq(old(State())))
    {
      var x :- PopArg();
      var y :- PopArg();
      if x.Integer? && y.Integer? {
        argStack := argStack + [Integer(if x.n == y.n then 1 else 0)];
      }
      r := Ok(());
    }

    method MakeBlock(tag: u8, len: nat) returns (r: Outcome<()>)
      modifies this
      ensures Became(State(), r, S.MakeBlock(old(State()), tag, len))
    {
      if len > |argStack| {
        return Fail(BlockArity);
      }
      var start := |argStack| - len;
      var fields := argStack[start..];
      argStack := argStack[..start];
      argStack := argStack + [Block(tag, fields)];
      r := Ok(());
    }

    method Field(i: nat) returns (r: Outcome<()>)
      modifies this
      ensures Became(State(), r, S.Field(old(State()), i))
    {
      var v :- PopArg();
      if v.Block? {
        if i >= |v.fields| {
          return Fail(FieldIndex);
        }
        argStack := argStack + [v.fields[i]];
      }
      r := Ok(());
    }

    /** `invoke` only looks at the top of the argument stack. */
    method Invoke(tag: u8, c1: C, c2: C) returns (r: Outcome<C>)
      ensures r == S.Invoke(State(), tag, c1, c2)
    {
      if |argStack| > 0 && Last(argStack).Block? {
        r := Ok(if Last(argStack).tag == tag then c1 else c2);
      } else {
        r := Fail(NotBlock);
      }
    }

    method Apply(cont: C) returns (r: Outcome<C>)
      modifies this
      ensures Chose(State(), r, S.Apply(old(State()), cont))
    {
      var clos :- PopArg();
      if !clos.Closure? {
        return Fail(NotClosure);
      }
      var val :- PopArg();
      ghost var callee := MachineState(argStack, retStack + [Closure(cont, localEnv)], S.Enter(clos, val));
      assert S.Apply(old(State()), cont) == Ok(Next(callee, clos.code));
      retStack := retStack + [Closure(cont, localEnv)];
      localEnv := clos.env;
      PushLocal(clos);
      PushLocal(val);
      r := Ok(clos.code);
    }

    method TailApply() returns (r: Outcome<C>)
      modifies this
      ensures Chose(State(), r, S.TailApply(old(State())))
    {
      var clos :- PopArg();
      if !clos.Closure? {
        return Fail(NotClosure);
      }
      var val :- PopArg();
      assert S.TailApply(old(State())) ==
               Ok(Next(MachineState(argStack, retStack, S.Enter(clos, val)), clos.code));
      localEnv := clos.env;
      PushLocal(clos);
      PushLocal(val);
      r := Ok(clos.code);
    }

    method PushMark()
      modifies this
      ensures State() == S.PushMark(old(State()))
    {
      argStack := argStack + [Epsilon];
    }

    method Grab(cont: C) returns (r: Outcome<C>)
      modifies this
      ensures Chose(State(), r, S.Grab(old(State()), cont))
    {
      var v :- PopArg();
      if v.Epsilon? {
        if |retStack| == 0 || !Last(retStack).Closure? {
          return Fail(MissingFrame);
        }
        var frame := Last(retStack);
        retStack := DropLast(retStack);
        argStack := argStack + [Closure(cont, localEnv)];
        localEnv := frame.env;
        r := Ok(frame.code);
      } else {
        var clos := Closure(cont, localEnv);
        PushLocal(clos);
        PushLocal(v);
        r := Ok(cont);
      }
    }

    method ReturnClos() returns (r: Outcome<C>)
      modifies this
      ensures Chose(State(), r, S.ReturnClos(old(State())))
    {
      var x :- PopArg();
      var y :- PopArg();
      if y.Epsilon? {
        if |retStack| == 0 || !Last(retStack).Closure? {
          return Fail(MissingFrame);
        }
        var frame := Last(retStack);
        retStack := DropLast(retStack);
        localEnv := frame.env;
        argStack := argStack + [x];
        r := Ok(frame.code);
      } else if x.Closure? {
        localEnv := x.env;
        PushLocal(Closure(x.code, x.env));
        PushLocal(y);
        r := Ok(x.code);
      } else {
        r := Fail(BadShape);
      }
    }
  }
}
