/** The primitives of the earlier machine in src/main.rs as pure functions of the machine
    state. Its pops are `Vec::pop`, which yields `None` on an empty stack instead of
    aborting, so `let_`, `test`, `add`, `eq` and `field` tolerate missing operands. The
    primitives whose behaviour is the same as in src/vm.rs (`ldi`, `access`, `closure`,
    `endlet`, `make_block`, `invoke`, `push_mark`) are the functions of LibSteps: `invoke`
    differs only in its panic message and `endlet` only in not going through
    `Rc::make_mut`. */
module MainSteps {
  import opened Values
  import L = LibSteps

  /** `Vec::pop` on the argument stack: the top if there is one, and the state without it. */
  function Pop<C>(s: MachineState<C>): (Option<Value<C>>, MachineState<C>) {
    if |s.args| == 0 then (None, s) else (Some(Last(s.args)), s.(args := DropLast(s.args)))
  }

  function IsInteger<C>(v: Option<Value<C>>): bool {
    v.Some? && v.value.Integer?
  }

  /** `let_`: bind the top argument if there is one. */
  function Let<C>(s: MachineState<C>): MachineState<C> {
    var (v, t) := Pop(s);
    if v.Some? then L.PushLocal(t, v.value) else t
  }

  /** `test(c1, c2)`: `c1` exactly when the popped value is `Integer(1)`. */
  function Test<C>(s: MachineState<C>, c1: C, c2: C): Next<C> {
    var (v, t) := Pop(s);
    Next(t, if IsInteger(v) && v.value.n == 1 then c1 else c2)
  }

  /** `add`: pop twice; push the sum only when both pops gave integers. */
  function Add<C>(s: MachineState<C>): Outcome<MachineState<C>> {
    var (x, s1) := Pop(s);
    var (y, s2) := Pop(s1);
    if IsInteger(x) && IsInteger(y) then
      var sum :- L.AddI32(x.value.n, y.value.n);
      Ok(L.PushArg(s2, Integer(sum)))
    else
      Ok(s2)
  }

  /** `eq`: pop twice; push 1 or 0 only when both pops gave integers. */
  function Eq<C>(s: MachineState<C>): MachineState<C> {
    var (x, s1) := Pop(s);
    var (y, s2) := Pop(s1);
    if IsInteger(x) && IsInteger(y) then
      L.PushArg(s2, Integer(if x.value.n == y.value.n then 1 else 0))
    else
      s2
  }

  /** `field(i)`: pop; a block pushes its field `i` (out of range is fatal). */
  function Field<C>(s: MachineState<C>, i: nat): Outcome<MachineState<C>> {
    var (v, t) := Pop(s);
    if v.Some? && v.value.Block? then
      if i < |v.value.fields| then Ok(L.PushArg(t, v.value.fields[i])) else Fail(FieldIndex)
    else
      Ok(t)
  }

  /** `apply(cont)`: as in src/vm.rs; a missing or non-closure top panics ("apply 1"),
      a missing argument panics ("apply 0"). */
  function Apply<C>(s: MachineState<C>, cont: C): Outcome<Next<C>> {
    var (c, s1) := Pop(s);
    if c.Some? && c.value.Closure? then
      var (v, s2) := Pop(s1);
      if v.Some? then
        var clos := Closure(c.value.code, c.value.env);
        Ok(Next(MachineState(s2.args, s2.rets + [Closure(cont, s2.env)], c.value.env + [clos, v.value]),
                c.value.code))
      else
        Fail(Underflow)
    else
      Fail(NotClosure)
  }

  /** `tail_apply`: `apply` without the frame. */
  function TailApply<C>(s: MachineState<C>): Outcome<Next<C>> {
    var (c, s1) := Pop(s);
    if c.Some? && c.value.Closure? then
      var (v, s2) := Pop(s1);
      if v.Some? then
        var clos := Closure(c.value.code, c.value.env);
        Ok(Next(MachineState(s2.args, s2.rets, c.value.env + [clos, v.value]), c.value.code))
      else
        Fail(Underflow)
    else
      Fail(NotClosure)
  }

  /** `grab(cont)`: as in src/vm.rs; an empty argument stack panics ("grab 1"). */
  function Grab<C>(s: MachineState<C>, cont: C): Outcome<Next<C>> {
    var (v, t) := Pop(s);
    if v.None? then
      Fail(Underflow)
    else if v.value.Epsilon? then
      var f :- L.PopFrame(t.rets);
      Ok(Next(MachineState(t.args + [Closure(cont, t.env)], DropLast(t.rets), f.env), f.code))
    else
      Ok(Next(t.(env := t.env + [Closure(cont, t.env), v.value]), cont))
  }

  /** `return_clos`: pop `x` then `y`; the two shapes of src/vm.rs, and a panic
      ("return_clos 1") for every other one, missing values included. */
  function ReturnClos<C>(s: MachineState<C>): Outcome<Next<C>> {
    var (x, s1) := Pop(s);
    var (y, t) := Pop(s1);
    if x.Some? && y.Some? && y.value.Epsilon? then
      var f :- L.PopFrame(t.rets);
      Ok(Next(MachineState(t.args + [x.value], DropLast(t.rets), f.env), f.code))
    else if x.Some? && y.Some? && x.value.Closure? then
      var clos := Closure(x.value.code, x.value.env);
      Ok(Next(t.(env := x.value.env + [clos, y.value]), x.value.code))
    else
      Fail(BadShape)
  }

  // ---------------------------------------------------------------- lenient pops

  /** `Vec::pop` yields `None` and changes nothing exactly where the library's `pop_arg`
      aborts; elsewhere both take the same top and leave the same state. */
  lemma PopAgrees<C>(s: MachineState<C>)
    ensures Pop(s).0.None? <==> L.PopArg(s).Fail?
    ensures Pop(s).0.None? ==> Pop(s).1 == s
    ensures L.PopArg(s).Ok? ==> Pop(s) == (Some(L.PopArg(s).value.top), L.PopArg(s).value.rest)
  {
  }

  /** `let_` on an empty argument stack changes nothing. */
  lemma LetOnEmpty<C>(s: MachineState<C>)
    requires |s.args| == 0
    ensures Let(s) == s
  {
  }

  /** `test` on an empty argument stack chooses `c2` and changes nothing. */
  lemma TestOnEmpty<C>(s: MachineState<C>, c1: C, c2: C)
    requires |s.args| == 0
    ensures Test(s, c1, c2) == Next(s, c2)
  {
  }

  /** With a missing or non-integer operand, `add` and `eq` pop what there is (at most two
      values) and push nothing; `field` with nothing to pop changes nothing. */
  lemma ArithWithoutIntegers<C>(s: MachineState<C>, i: nat)
    requires !(|s.args| >= 2 && Last(s.args).Integer? && s.args[|s.args| - 2].Integer?)
    ensures var k := if |s.args| < 2 then 0 else |s.args| - 2;
            Add(s) == Ok(s.(args := s.args[..k])) && Eq(s) == s.(args := s.args[..k])
    ensures |s.args| == 0 ==> Field(s, i) == Ok(s)
  {
    if |s.args| >= 2 {
      assert DropLast(DropLast(s.args)) == s.args[..|s.args| - 2];
    } else if |s.args| == 1 {
      assert DropLast(s.args) == s.args[..0];
    }
  }

  // ---------------------------------------------------------------- agreement with src/vm.rs

  /** Where the library's `let_` succeeds, the lenient one does the same; it differs only on
      an empty argument stack, where the library aborts. */
  lemma LetAgrees<C>(s: MachineState<C>)
    ensures L.Let(s).Ok? ==> Let(s) == L.Let(s).value
    ensures |s.args| >= 1 ==> L.Let(s) == Ok(Let(s))
  {
  }

  lemma TestAgrees<C>(s: MachineState<C>, c1: C, c2: C)
    ensures L.Test(s, c1, c2).Ok? ==> Test(s, c1, c2) == L.Test(s, c1, c2).value
    ensures |s.args| >= 1 ==> L.Test(s, c1, c2) == Ok(Test(s, c1, c2))
  {
  }

  /** `add` and `eq` agree with the library's whenever there are two operands. */
  lemma AddAgrees<C>(s: MachineState<C>)
    ensures L.Add(s).Ok? ==> Add(s) == L.Add(s)
    ensures |s.args| >= 2 ==> Add(s) == L.Add(s)
  {
  }

  lemma EqAgrees<C>(s: MachineState<C>)
    ensures L.Eq(s).Ok? ==> Eq(s) == L.Eq(s).value
    ensures |s.args| >= 2 ==> L.Eq(s) == Ok(Eq(s))
  {
  }

  lemma FieldAgrees<C>(s: MachineState<C>, i: nat)
    ensures L.Field(s, i).Ok? ==> Field(s, i) == L.Field(s, i)
    ensures |s.args| >= 1 ==> Field(s, i) == L.Field(s, i)
  {
  }

  /** The control primitives of both copies succeed on the same states and then agree;
      they differ at most in which fault they report. */
  lemma ApplyAgrees<C>(s: MachineState<C>, cont: C)
    ensures Apply(s, cont).Ok? <==> L.Apply(s, cont).Ok?
    ensures L.Apply(s, cont).Ok? ==> Apply(s, cont) == L.Apply(s, cont)
  {
  }

  lemma TailApplyAgrees<C>(s: MachineState<C>)
    ensures TailApply(s).Ok? <==> L.TailApply(s).Ok?
    ensures L.TailApply(s).Ok? ==> TailApply(s) == L.TailApply(s)
  {
  }

  lemma GrabAgrees<C>(s: MachineState<C>, cont: C)
    ensures Grab(s, cont) == L.Grab(s, cont)
  {
  }

  lemma ReturnClosAgrees<C>(s: MachineState<C>)
    ensures ReturnClos(s).Ok? <==> L.ReturnClos(s).Ok?
    ensures L.ReturnClos(s).Ok? ==> ReturnClos(s) == L.ReturnClos(s)
  {
  }
}
