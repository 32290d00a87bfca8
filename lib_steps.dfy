/** The primitives of the library machine (src/vm.rs) as pure functions of the machine
    state. Every pop goes through `pop_arg`, which aborts on an empty argument stack.
    The environment is the value `env`: extending it never disturbs a copy held elsewhere,
    which is what `Rc::make_mut` provides in the source. */
module LibSteps {
  import opened Values

  /** The popped value and the state without it. */
  datatype Popped<C> = Popped(top: Value<C>, rest: MachineState<C>)

  /** `pop_arg`: take the top of the argument stack, or abort when there is none. */
  function PopArg<C>(s: MachineState<C>): (r: Outcome<Popped<C>>)
    ensures r.Ok? <==> |s.args| > 0
    ensures r.Ok? ==> r.value.rest.args + [r.value.top] == s.args
    ensures r.Ok? ==> r.value.rest.rets == s.rets && r.value.rest.env == s.env
  {
    if |s.args| == 0 then Fail(Underflow)
    else Ok(Popped(Last(s.args), s.(args := DropLast(s.args))))
  }

  function PushArg<C>(s: MachineState<C>, v: Value<C>): MachineState<C> {
    s.(args := s.args + [v])
  }

  /** `push_local`: bind `v` as the new position 0 of the environment. */
  function PushLocal<C>(s: MachineState<C>, v: Value<C>): MachineState<C> {
    s.(env := s.env + [v])
  }

  /** `ldi(i)`. */
  function Ldi<C>(s: MachineState<C>, i: i32): MachineState<C> {
    PushArg(s, Integer(i))
  }

  /** `access(i)`: push environment position `i`; out of range is fatal. */
  function Access<C>(s: MachineState<C>, i: nat): (r: Outcome<MachineState<C>>)
    ensures r.Ok? <==> i < |s.env|
    ensures r.Ok? ==> r.value == PushArg(s, Lookup(s.env, i))
  {
    if i < |s.env| then
      LookupIsIndex(s.env, i);
      Ok(PushArg(s, s.env[|s.env| - i - 1]))
    else
      Fail(EnvIndex)
  }

  /** `closure(code)`: push a closure over the current environment. */
  function MakeClosure<C>(s: MachineState<C>, code: C): MachineState<C> {
    PushArg(s, Closure(code, s.env))
  }

  /** `let_`: move the top argument into the environment. */
  function Let<C>(s: MachineState<C>): Outcome<MachineState<C>> {
    var p :- PopArg(s);
    Ok(PushLocal(p.rest, p.top))
  }

  /** `endlet`: drop the most recent binding; on an empty environment `Vec::pop` does nothing. */
  function EndLet<C>(s: MachineState<C>): MachineState<C> {
    if |s.env| == 0 then s else s.(env := DropLast(s.env))
  }

  /** `test(c1, c2)`: pop a value and choose `c1` exactly when it is `Integer(1)`. */
  function Test<C>(s: MachineState<C>, c1: C, c2: C): Outcome<Next<C>> {
    var p :- PopArg(s);
    Ok(Next(p.rest, if p.top.Integer? && p.top.n == 1 then c1 else c2))
  }

  /** The i32 sum, or the overflow that aborts a debug build. */
  function AddI32(x: i32, y: i32): Outcome<i32> {
    if InI32(x as int + y as int) then Ok((x as int + y as int) as i32) else Fail(Overflow)
  }

  /** `add`: pop two values (the top first); push their sum only when both are integers. */
  function Add<C>(s: MachineState<C>): Outcome<MachineState<C>> {
    var px :- PopArg(s);
    var py :- PopArg(px.rest);
    if px.top.Integer? && py.top.Integer? then
      var sum :- AddI32(px.top.n, py.top.n);
      Ok(PushArg(py.rest, Integer(sum)))
    else
      Ok(py.rest)
  }

  /** `eq`: pop two values; push 1 or 0 only when both are integers. */
  function Eq<C>(s: MachineState<C>): Outcome<MachineState<C>> {
    var px :- PopArg(s);
    var py :- PopArg(px.rest);
    if px.top.Integer? && py.top.Integer? then
      Ok(PushArg(py.rest, Integer(if px.top.n == py.top.n then 1 else 0)))
    else
      Ok(py.rest)
  }

  /** `make_block(tag, len)`: replace the top `len` arguments by one block holding them in
      push order; `len > |arg_stack|` underflows the start index, which is fatal. */
  function MakeBlock<C>(s: MachineState<C>, tag: u8, len: nat): Outcome<MachineState<C>> {
    if len <= |s.args| then
      var start := |s.args| - len;
      Ok(s.(args := s.args[..start] + [Block(tag, s.args[start..])]))
    else
      Fail(BlockArity)
  }

  /** `field(i)` of vm.rs: pop; a block pushes its field `i` (out of range is fatal),
      anything else pushes nothing. */
  function Field<C>(s: MachineState<C>, i: nat): Outcome<MachineState<C>> {
    var p :- PopArg(s);
    if p.top.Block? then
      if i < |p.top.fields| then Ok(PushArg(p.rest, p.top.fields[i])) else Fail(FieldIndex)
    else
      Ok(p.rest)
  }

  /** `invoke(tag, c1, c2)`: peek at the top. It must be a block; choose by its tag.
      The state is not touched, so only the chosen code is returned. */
  function Invoke<C>(s: MachineState<C>, tag: u8, c1: C, c2: C): Outcome<C> {
    if |s.args| > 0 && Last(s.args).Block? then
      Ok(if Last(s.args).tag == tag then c1 else c2)
    else
      Fail(NotBlock)
  }

  /** The callee's environment: its captured one extended by itself and the argument. */
  function Enter<C>(clos: Value<C>, val: Value<C>): Env<C>
    requires clos.Closure?
  {
    clos.env + [clos, val]
  }

  /** `apply(cont)`: pop a closure and its argument, save `cont` with the caller's
      environment as a frame, and enter the callee. */
  function Apply<C>(s: MachineState<C>, cont: C): Outcome<Next<C>> {
    var pc :- PopArg(s);
    if pc.top.Closure? then
      var pv :- PopArg(pc.rest);
      var frame := Closure(cont, pv.rest.env);
      Ok(Next(MachineState(pv.rest.args, pv.rest.rets + [frame], Enter(pc.top, pv.top)), pc.top.code))
    else
      Fail(NotClosure)
  }

  /** `tail_apply`: `apply` without saving a frame. */
  function TailApply<C>(s: MachineState<C>): Outcome<Next<C>> {
    var pc :- PopArg(s);
    if pc.top.Closure? then
      var pv :- PopArg(pc.rest);
      Ok(Next(MachineState(pv.rest.args, pv.rest.rets, Enter(pc.top, pv.top)), pc.top.code))
    else
      Fail(NotClosure)
  }

  /** `push_mark`. */
  function PushMark<C>(s: MachineState<C>): MachineState<C> {
    PushArg(s, Epsilon)
  }

  /** Pop the top frame of the return stack; it must be a closure. */
  function PopFrame<C>(rets: Stack<C>): Outcome<Value<C>> {
    if |rets| > 0 && Last(rets).Closure? then Ok(Last(rets)) else Fail(MissingFrame)
  }

  /** `grab(cont)`: on the marker, return a closure of `cont` to the pending frame;
      on a real argument, bind it (after a self-reference) and go on with `cont`. */
  function Grab<C>(s: MachineState<C>, cont: C): Outcome<Next<C>> {
    var p :- PopArg(s);
    var t := p.rest;
    if p.top.Epsilon? then
      var f :- PopFrame(t.rets);
      Ok(Next(MachineState(t.args + [Closure(cont, t.env)], DropLast(t.rets), f.env), f.code))
    else
      Ok(Next(t.(env := t.env + [Closure(cont, t.env), p.top]), cont))
  }

  /** `return_clos`: pop `x` and then `y`. Over a marker, `x` is returned to the top frame;
      a closure `x` is instead applied to `y`; any other shape is fatal. */
  function ReturnClos<C>(s: MachineState<C>): Outcome<Next<C>> {
    var px :- PopArg(s);
    var py :- PopArg(px.rest);
    var t := py.rest;
    if py.top.Epsilon? then
      var f :- PopFrame(t.rets);
      Ok(Next(MachineState(t.args + [px.top], DropLast(t.rets), f.env), f.code))
    else if px.top.Closure? then
      Ok(Next(t.(env := Enter(px.top, py.top)), px.top.code))
    else
      Fail(BadShape)
  }
}
