# griff-vm: a ZINC-style closure machine, modelled in Dafny

griff-vm runs programs made of Rust closures on an abstract machine in the style of
Leroy's ZINC machine. The machine has three stacks, `arg_stack`, `ret_stack` and
`local_env`. Its values are integers, closures (code plus captured environment), tagged
blocks and the marker `Epsilon`. Its primitives are `ldi`, `access`, `closure`, `let_`,
`endlet`, `test`, `add`, `eq`, `make_block`, `field`, `invoke`, `apply`, `tail_apply`,
`push_mark`, `grab` and `return_clos`. Each control primitive returns the next piece of
code, and `main` runs a trampoline that keeps calling the returned code.

The machine exists twice in the repository:

- `src/vm.rs` is the library machine. Its environment is copy-on-write (`Rc::make_mut`),
  and popping an empty argument stack aborts.
- `src/main.rs` is an earlier copy with a plain `Vec` environment and `Option`-tolerant
  pops. It also holds two example programs, `entry` (a tail-recursive sum of 1..1000) and
  `cons_entry` (dispatch on block tags), and the trampoline `main`.

## Layout

- `values.dfy` (`Values`): the shared data model. `Value<C>` is generic in the code type
  `C`, since `Code` is a Rust function pointer that the primitives only store and return.
  Stacks and environments are sequences, so copy-on-write and a plain `Vec` behave the
  same. Every `panic!`/`unreachable!` becomes a `Fault` inside an `Outcome`. `Lookup`
  is the reference definition of environment positions: position 0 is the most recent
  binding.
- `lib_steps.dfy` (`LibSteps`): each primitive of `src/vm.rs` as a pure function of the
  machine state.
- `lib_vm.dfy` (`LibVm`): the class `Vm` with the three stacks as fields. Each method
  updates them in place and is proved to perform the matching `LibSteps` function.
- `lib_props.dfy` (`LibProps`): what the primitives of `src/vm.rs` promise. This covers
  environment indexing, `let_`/`endlet`, copy-on-write isolation, arithmetic, block round
  trips and dispatch, and the call protocol (frames, tail calls, partial application,
  the frame invariant).
- `main_steps.dfy` (`MainSteps`): the primitives of `src/main.rs` whose code differs
  (`let_`, `test`, `add`, `eq`, `field`, `apply`, `tail_apply`, `grab`, `return_clos`).
  It proves their behaviour on missing operands, and that wherever the library version
  succeeds, this version does the same thing. The primitives whose behaviour is the same
  reuse `LibSteps`: `invoke` differs only in its panic message, and `endlet` only in
  popping the environment without `Rc::make_mut`.
- `main_vm.dfy` (`MainVm`): the class `Vm` of `src/main.rs`, proved against those step
  functions.
- `demo.dfy` (`Demo`): the two example programs. Each Rust closure they build is one
  constructor of the datatype `Label`, and `Exec` gives each body's effect. `Run` is the
  fuel-bounded trampoline over a table of bodies. The proofs are end to end: `entry`
  prints `[Integer(500500)]` and exits with status 0. `cons_entry` selects the second
  branch and then the first, pops the tag-1 block and leaves `[Integer(810)]`.
- `demo_vm.dfy` (`DemoVm`): the same bodies as straight-line method calls on the
  `MainVm.Vm` object. It also has the trampoline as a `while` loop, proved to compute
  `Run`.

Behaviour of the code worth noting:

- `cons_entry` builds `Block{1, [Integer 42, Block{0, []}]}` above `Integer 810`.
- `add` and `eq` with a non-integer operand push nothing, and report no error.
- `field` of a popped non-block pushes nothing.
- `endlet` on an empty environment changes nothing in both copies (`Vec::pop` yields
  `None`).

Two more points about how the code is read:

- In `src/vm.rs`, `add` and `eq` pop both operands before they match: `x` is the top and
  `y` the value under it.
- `return_clos` tries the `(v, Epsilon)` arm before the `(Closure, v)` arm.

## Model

| member | source | states |
|---|---|---|
| Values.LookupIsIndex | src/vm.rs:66-69 | the reference `Lookup(env, i)` (position 0 = most recent binding) is the element `access` reads, `i` places below the end of `env` |
| Values.LookupAfterBind | src/vm.rs:51-53 | after binding `v`, position 0 is `v` and position `i > 0` is the old position `i - 1` |
| Values.Lookup | src/vm.rs:66-69 | definition of environment position `i` (0 is the most recent binding); promises in `Values.LookupIsIndex` and `Values.LookupAfterBind` |
| LibSteps.PopArg | src/vm.rs:43-49 | succeeds exactly on a non-empty argument stack; then the top and the rest make up the old stack, and the other stacks are unchanged |
| LibSteps.Access | src/vm.rs:66-69 | succeeds exactly when `i` is below the length of `local_env`, and then pushes the value at environment position `i` and changes nothing else |
| LibSteps.PushLocal | src/vm.rs:51-53 | definition of `push_local`; promises in `LibProps.PushLocalIsolates` and `Values.LookupAfterBind` |
| LibSteps.Ldi | src/vm.rs:62-64 | definition of `ldi`; promises in `LibProps.LdiLdiAdd`, `LibProps.LdiLdiEq` and `LibProps.LdiThenTest` |
| LibSteps.MakeClosure | src/vm.rs:71-76 | definition of `closure`; promises in `LibProps.ClosureKeepsSnapshot` |
| LibSteps.Let | src/vm.rs:78-81 | definition of `let_`; promises in `LibProps.LetThenAccess` and `LibProps.LetEndLet` |
| LibSteps.EndLet | src/vm.rs:83-85 | definition of `endlet`; promises in `LibProps.LetEndLet` |
| LibSteps.Test | src/vm.rs:87-93 | definition of `test`; promises in `LibProps.TestSelects` and `LibProps.LdiThenTest` |
| LibSteps.Add | src/vm.rs:95-99 | definition of `add`; promises in `LibProps.AddEffect` and `LibProps.LdiLdiAdd` |
| LibSteps.Eq | src/vm.rs:101-105 | definition of `eq`; promises in `LibProps.EqEffect` and `LibProps.LdiLdiEq` |
| LibSteps.MakeBlock | src/vm.rs:107-113 | definition of `make_block`; promises in `LibProps.MakeBlockArity` and `LibProps.MakeBlockThenField` |
| LibSteps.Field | src/vm.rs:115-119 | definition of `field`; promises in `LibProps.FieldFails`, `LibProps.MakeBlockThenField` and `LibProps.FieldOtherwise` |
| LibSteps.Invoke | src/vm.rs:121-131 | definition of `invoke`; promises in `LibProps.InvokeFails` and `LibProps.MakeBlockThenInvoke` |
| LibSteps.Apply | src/vm.rs:133-149 | definition of `apply`; promises in `LibProps.ApplyEffect`, `LibProps.ApplyThenReturn` and `LibProps.ApplyKeepsWellFramed` |
| LibSteps.TailApply | src/vm.rs:151-163 | definition of `tail_apply`; promises in `LibProps.TailApplyEffect` and `LibProps.ApplyKeepsWellFramed` |
| LibSteps.PushMark | src/vm.rs:165-167 | definition of `push_mark`; promises in `LibProps.PushMarkThenGrab` |
| LibSteps.Grab | src/vm.rs:169-194 | definition of `grab`; promises in `LibProps.GrabEffect`, `LibProps.GrabOnMarker` and `LibProps.GrabKeepsWellFramed` |
| LibSteps.ReturnClos | src/vm.rs:196-221 | definition of `return_clos`; promises in `LibProps.ReturnClosEffect` and `LibProps.ReturnClosKeepsWellFramed` |
| LibVm.Vm.constructor | src/vm.rs:35-41 | a new machine has three empty stacks |
| LibVm.Vm.PopArg | src/vm.rs:43-49 | pops the top of the argument stack in place, failing on an empty stack, as `LibSteps.PopArg` |
| LibVm.Vm.PushLocal | src/vm.rs:51-53 | appends one value to the environment in place |
| LibVm.Vm.Ldi | src/vm.rs:62-64 | pushes `Integer(i)` in place |
| LibVm.Vm.Access | src/vm.rs:66-69 | performs `LibSteps.Access` in place, failing on an index out of range |
| LibVm.Vm.MakeClosure | src/vm.rs:71-76 | pushes a closure over a snapshot of the current environment |
| LibVm.Vm.Let | src/vm.rs:78-81 | moves the top argument into the environment, failing on an empty stack |
| LibVm.Vm.EndLet | src/vm.rs:83-85 | drops the most recent binding, if there is one |
| LibVm.Vm.Test | src/vm.rs:87-93 | pops one value and returns the branch `LibSteps.Test` selects |
| LibVm.Vm.Add | src/vm.rs:95-99 | performs `LibSteps.Add` in place: two pops, the sum pushed for two integers, fault on underflow or overflow |
| LibVm.Vm.Eq | src/vm.rs:101-105 | performs `LibSteps.Eq` in place |
| LibVm.Vm.MakeBlock | src/vm.rs:107-113 | performs `LibSteps.MakeBlock` in place: the top `len` values are drained into one block |
| LibVm.Vm.Field | src/vm.rs:115-119 | performs `LibSteps.Field` in place |
| LibVm.Vm.Invoke | src/vm.rs:121-131 | changes nothing and returns what `LibSteps.Invoke` returns |
| LibVm.Vm.Apply | src/vm.rs:133-149 | performs `LibSteps.Apply` in place and returns the callee's code |
| LibVm.Vm.TailApply | src/vm.rs:151-163 | performs `LibSteps.TailApply` in place |
| LibVm.Vm.PushMark | src/vm.rs:165-167 | pushes the marker `Epsilon` |
| LibVm.Vm.Grab | src/vm.rs:169-194 | performs `LibSteps.Grab` in place and returns the code it selects |
| LibVm.Vm.ReturnClos | src/vm.rs:196-221 | performs `LibSteps.ReturnClos` in place and returns the code it selects |
| LibProps.LetThenAccess | src/vm.rs:78-81 | after `let_`, `access(0)` pushes the popped value, and each older binding has moved up by one position |
| LibProps.LetEndLet | src/vm.rs:78-85 | `let_` fails exactly on an empty argument stack; `let_` then `endlet` restores the environment exactly and leaves the argument stack one element shorter |
| LibProps.PushLocalIsolates | src/vm.rs:51-53 | extending the environment keeps both other stacks, and so the environments inside their values, and every old binding; it adds exactly one binding, at position 0 |
| LibProps.ClosureKeepsSnapshot | src/vm.rs:71-81 | a closure bound into the environment it captured keeps the environment as it was before the binding (copy-on-write) |
| LibProps.AddEffect | src/vm.rs:95-99 | `add` fails on fewer than two values; otherwise it pops exactly two and pushes `x + y` when both are integers (a fault if the sum leaves i32), and nothing otherwise |
| LibProps.EqEffect | src/vm.rs:101-105 | `eq` fails on fewer than two values; otherwise it pops exactly two and pushes 1 or 0 when both are integers, and nothing otherwise |
| LibProps.LdiLdiAdd | src/vm.rs:95-99 | two loaded constants add back into one constant, unless the sum overflows |
| LibProps.LdiLdiEq | src/vm.rs:101-105 | two loaded constants compare to 1 exactly when they are equal |
| LibProps.TestSelects | src/vm.rs:87-93 | `test` fails exactly on an empty stack; otherwise it pops one value and returns `c1` iff it was `Integer(1)` |
| LibProps.LdiThenTest | src/vm.rs:87-93 | testing a constant just loaded restores the state and branches on whether the constant is 1 |
| LibProps.MakeBlockArity | src/vm.rs:107-113 | `make_block(tag, n)` fails exactly when fewer than `n` arguments are present; otherwise the values under the top `n` stay as they were, and the top `n` values, in push order, become the fields of one block `Block(tag, …)` on top |
| LibProps.MakeBlockThenField | src/vm.rs:107-119 | values pushed and packed by `make_block` become the block's fields in push order, earliest first, and `field(i)` pushes back the i-th one |
| LibProps.FieldFails | src/vm.rs:115-119 | `field(i)` succeeds exactly when the stack is non-empty and, if its top is a block, `i` is below its field count; on an empty stack it is the `Underflow` fault of `pop_arg` |
| LibProps.InvokeFails | src/vm.rs:121-131 | `invoke` succeeds exactly when the top of a non-empty stack is a block, and otherwise reports the fault of its `unreachable!` |
| LibProps.FieldOtherwise | src/vm.rs:115-119 | `field` of a non-block pops it and pushes nothing; `field(i)` of a block with at most `i` fields is a fault |
| LibProps.MakeBlockThenInvoke | src/vm.rs:107-131 | dispatching on a block just built selects `c1` exactly when the tags agree, and leaves the block on the stack |
| LibProps.ApplyEffect | src/vm.rs:133-149 | `apply(cont)` succeeds exactly when a closure sits on top of a second value; it then removes both, pushes one frame `Closure(cont, old env)`, sets the environment to the closure's environment extended by the closure and the argument, and returns its code |
| LibProps.TailApplyEffect | src/vm.rs:151-163 | `tail_apply` succeeds exactly when `apply` does, and does the same except that the return stack is unchanged |
| LibProps.ApplyThenReturn | src/vm.rs:133-209 | a call made by `apply(cont)` above a marker, whose callee leaves `v` above the marker, returns by `return_clos` to `cont` with the caller's environment and `v` in place of the call |
| LibProps.GrabEffect | src/vm.rs:169-194 | `grab` fails on an empty stack, and on the marker without a closure frame; on the marker it takes the frame, pushes `Closure(cont, env)` and resumes the frame; otherwise it binds the self-reference over the old environment and then the value, and continues with `cont` |
| LibProps.ReturnClosEffect | src/vm.rs:196-221 | `return_clos` succeeds exactly for `(v, Epsilon)` with a closure frame and for `(Closure, v)`; it returns `v` to the frame in the first case and enters the closure with `v` in the second |
| LibProps.GrabOnMarker | src/vm.rs:169-183 | under-application: on the marker, `grab` packages the function waiting for its argument as a closure and returns it to the pending caller |
| LibProps.PushMarkThenGrab | src/vm.rs:165-183 | a `grab` right after `push_mark` finds no argument: it pushes `Closure(cont, env)` on the old argument stack, pops the frame and resumes it with the frame's environment |
| LibProps.PartialApplicationResumes | src/vm.rs:151-221 | the closure `grab` returns is a faithful partial application: applying it to `v` (by `return_clos` or `tail_apply`) reaches the same state as `grab` with `v` present |
| LibProps.ApplyKeepsWellFramed | src/vm.rs:133-163 | `apply` and `tail_apply` keep every return-stack entry a closure |
| LibProps.GrabKeepsWellFramed | src/vm.rs:169-194 | `grab` keeps every return-stack entry a closure, and under that invariant it lacks a frame only when the return stack is empty |
| LibProps.ReturnClosKeepsWellFramed | src/vm.rs:196-221 | the same for `return_clos` |
| MainSteps.Pop | src/main.rs:66 | definition of `Vec::pop` on the argument stack; promises in `MainSteps.PopAgrees` |
| MainSteps.Let | src/main.rs:65-69 | definition of the lenient `let_`; promises in `MainSteps.LetOnEmpty` and `MainSteps.LetAgrees` |
| MainSteps.Test | src/main.rs:75-81 | definition of the lenient `test`; promises in `MainSteps.TestOnEmpty` and `MainSteps.TestAgrees` |
| MainSteps.Add | src/main.rs:83-87 | definition of the lenient `add`; promises in `MainSteps.ArithWithoutIntegers` and `MainSteps.AddAgrees` |
| MainSteps.Eq | src/main.rs:89-93 | definition of the lenient `eq`; promises in `MainSteps.ArithWithoutIntegers` and `MainSteps.EqAgrees` |
| MainSteps.Field | src/main.rs:103-107 | definition of the lenient `field`; promises in `MainSteps.ArithWithoutIntegers` and `MainSteps.FieldAgrees` |
| MainSteps.Apply | src/main.rs:121-142 | definition of the lenient `apply`; promises in `MainSteps.ApplyAgrees` |
| MainSteps.TailApply | src/main.rs:144-161 | definition of the lenient `tail_apply`; promises in `MainSteps.TailApplyAgrees` |
| MainSteps.Grab | src/main.rs:167-193 | definition of `grab` of src/main.rs; promises in `MainSteps.GrabAgrees` |
| MainSteps.ReturnClos | src/main.rs:195-220 | definition of the lenient `return_clos`; promises in `MainSteps.ReturnClosAgrees` |
| MainSteps.PopAgrees | src/main.rs:66 | `Vec::pop` yields `None` and changes nothing exactly when the argument stack is empty, where `pop_arg` of src/vm.rs aborts; otherwise both take the same top and leave the same state |
| MainSteps.LetOnEmpty | src/main.rs:65-69 | `let_` on an empty argument stack changes nothing |
| MainSteps.TestOnEmpty | src/main.rs:75-81 | `test` on an empty argument stack returns `c2` and changes nothing |
| MainSteps.ArithWithoutIntegers | src/main.rs:83-107 | without two integer operands, `add` and `eq` pop what there is (at most two values) and push nothing; `field` with nothing to pop changes nothing |
| MainSteps.LetAgrees | src/main.rs:65-69 | with a value to pop, the lenient `let_` is the library's |
| MainSteps.TestAgrees | src/main.rs:75-81 | with a value to pop, the lenient `test` is the library's |
| MainSteps.AddAgrees | src/main.rs:83-87 | with two values to pop, the lenient `add` is the library's |
| MainSteps.EqAgrees | src/main.rs:89-93 | with two values to pop, the lenient `eq` is the library's |
| MainSteps.FieldAgrees | src/main.rs:103-107 | with a value to pop, the lenient `field` is the library's |
| MainSteps.ApplyAgrees | src/main.rs:121-142 | `apply` succeeds on the same states as the library's and then does the same |
| MainSteps.TailApplyAgrees | src/main.rs:144-161 | `tail_apply` succeeds on the same states as the library's and then does the same |
| MainSteps.GrabAgrees | src/main.rs:167-193 | `grab` is the library's, faults included |
| MainSteps.ReturnClosAgrees | src/main.rs:195-220 | `return_clos` succeeds on the same states as the library's and then does the same |
| MainVm.Vm.constructor | src/main.rs:34-40 | a new machine has three empty stacks |
| MainVm.Vm.Pop | src/main.rs:66 | `Vec::pop` on the argument stack: `None` and no change when it is empty, else the top, removed (the same call is made by `test`, `add`, `eq` and `field` at src/main.rs lines 76, 84, 90 and 104) |
| MainVm.Vm.Ldi | src/main.rs:49-51 | pushes `Integer(i)` in place |
| MainVm.Vm.Access | src/main.rs:53-56 | performs `LibSteps.Access` in place |
| MainVm.Vm.MakeClosure | src/main.rs:58-63 | pushes a closure over the current environment |
| MainVm.Vm.Let | src/main.rs:65-69 | performs the lenient `let_` in place |
| MainVm.Vm.EndLet | src/main.rs:71-73 | drops the most recent binding, if there is one |
| MainVm.Vm.Test | src/main.rs:75-81 | pops (if it can) and returns the branch the lenient `test` selects |
| MainVm.Vm.Add | src/main.rs:83-87 | performs the lenient `add` in place, with a fault on i32 overflow |
| MainVm.Vm.Eq | src/main.rs:89-93 | performs the lenient `eq` in place |
| MainVm.Vm.MakeBlock | src/main.rs:95-101 | drains the top `len` values into one block in place |
| MainVm.Vm.Field | src/main.rs:103-107 | performs the lenient `field` in place |
| MainVm.Vm.Invoke | src/main.rs:109-119 | changes nothing and returns what `LibSteps.Invoke` returns |
| MainVm.Vm.Apply | src/main.rs:121-142 | performs the lenient `apply` in place |
| MainVm.Vm.TailApply | src/main.rs:144-161 | performs the lenient `tail_apply` in place |
| MainVm.Vm.PushMark | src/main.rs:163-165 | pushes the marker `Epsilon` |
| MainVm.Vm.Grab | src/main.rs:167-193 | performs `grab` in place |
| MainVm.Vm.ReturnClos | src/main.rs:195-220 | performs the lenient `return_clos` in place |
| Demo.EntryCode | src/main.rs:223-257 | definition of `entry`; promises in `Demo.EntryStep` |
| Demo.SumFnCode | src/main.rs:224-246 | definition of the closure `go`, which calls `grab`; promises in `Demo.GrabStep` |
| Demo.SumBodyCode | src/main.rs:225-245 | definition of the body of `grab`; promises in `Demo.TestStep` |
| Demo.SumDoneCode | src/main.rs:230-233 | definition of the done branch; promises in `Demo.DoneStep` |
| Demo.SumStepCode | src/main.rs:234-243 | definition of the step branch; promises in `Demo.LoopStep` |
| Demo.SumHaltCode | src/main.rs:252-256 | definition of the halt continuation; promises in `Demo.HaltStep` |
| Demo.ConsEntryCode | src/main.rs:259-286 | definition of `cons_entry`; promises in `Demo.ConsEntryDispatch` |
| Demo.TryConsCode | src/main.rs:271-284 | definition of the second branch of `cons_entry`; promises in `Demo.ConsEntryDispatch` |
| Demo.ArmCode | src/main.rs:266-278 | definition of the two matching arms; promises in `Demo.ConsEntryRun` |
| Demo.NoArmCode | src/main.rs:279-282 | definition of the last arm; promises in `Demo.ConsEntryRun` |
| Demo.Exec | src/main.rs:223-286 | definition of the program's table of bodies; promises in `Demo.ExecRunsSum` and `Demo.ConsEntryDispatch` |
| Demo.Run | src/main.rs:288-294 | definition of the fuel-bounded loop of `main`; promises in `Demo.RunMonotone`, `Demo.SumRun`, `Demo.EntryRun` and `Demo.ConsEntryRun` |
| Demo.RunMonotone | src/main.rs:292-294 | fuel only bounds the loop: a run that ends (fault or exit) within `f` bodies ends identically, in the same state, with any larger fuel |
| Demo.ConsEntryDispatch | src/main.rs:259-286 | `cons_entry` leaves `Integer 810` under `Block{1, [42, Block{0, []}]}`, `invoke(0, …)` selects the second branch, and `invoke(1, …)` there selects the first |
| Demo.ConsEntryRun | src/main.rs:259-295 | from `cons_entry` on a new machine, three bodies suffice: the program pops and prints the tag-1 block and exits with status 0, leaving `[Integer 810]` |
| Demo.Tri | src/main.rs:229-241 | the part of the sum still to add is at least `n` |
| Demo.TriClosedForm | src/main.rs:229-241 | `1 + … + n` is `n(n+1)/2`, the loop invariant's closed form |
| Demo.EntryStep | src/main.rs:223-257 | `entry` binds `go`, puts the marker, `0` and `1000` under `go`, and calls it with one frame back to the halt continuation |
| Demo.GrabStep | src/main.rs:224-225 | entering `go` for `n` with `acc` under it, `grab` binds `acc` and enters the body |
| Demo.TestStep | src/main.rs:226-243 | the body compares `n` with 0 and goes on to the done branch exactly when `n` is 0, leaving the state unchanged |
| Demo.LoopStep | src/main.rs:234-243 | the step branch tail-calls `go` with `n - 1` and `acc + n`, keeps the loop invariant `acc + n(n+1)/2 == 500500`, and pushes no frame |
| Demo.DoneStep | src/main.rs:230-233 | when `n` is 0, `return_clos` hands `acc` (which is then 500500) back to the halt continuation through the one frame |
| Demo.HaltStep | src/main.rs:252-256 | the halt continuation drops `go`, prints `[Integer(500500)]` and exits with status 0 with all other stacks empty |
| Demo.SumInvStep | src/main.rs:223-257 | from every configuration the sum passes through, its body does not fault, brings the exit one body closer, and reaches another configuration or the expected exit |
| Demo.ExecRunsSum | src/main.rs:223-257 | the program's table of bodies advances the sum |
| Demo.SumInvRun | src/main.rs:223-294 | however far it runs, the sum never faults and stops only at its configurations or at the expected exit |
| Demo.SumRun | src/main.rs:223-294 | from any configuration of the sum, fuel as large as the remaining bodies reaches the exit |
| Demo.EntryRun | src/main.rs:223-295 | run from `entry` with at least 3005 bodies of fuel, the program prints `[Integer(500500)]` and exits with status 0, leaving `arg_stack == [Integer(500500)]`, `ret_stack == []` and `local_env == []` |
| Demo.EntryFramesBounded | src/main.rs:223-257 | along the whole run of `entry` nothing faults, the return stack holds at most one frame (tail calls add none), and every entry to the body of `grab` finds that one frame and `arg_stack == [Epsilon]` |
| DemoVm.EntryBody | src/main.rs:223-257 | the calls of `entry` on the machine object do what `Demo.EntryCode` says |
| DemoVm.SumFnBody | src/main.rs:224-245 | the closure `go` calls `grab` as `Demo.SumFnCode` says |
| DemoVm.SumBodyBody | src/main.rs:225-244 | the body of `grab` does what `Demo.SumBodyCode` says |
| DemoVm.SumDoneBody | src/main.rs:230-233 | the done branch does what `Demo.SumDoneCode` says |
| DemoVm.SumStepBody | src/main.rs:234-243 | the step branch does what `Demo.SumStepCode` says |
| DemoVm.SumHaltBody | src/main.rs:252-256 | the halt continuation does what `Demo.SumHaltCode` says |
| DemoVm.ConsEntryBody | src/main.rs:259-286 | `cons_entry` does what `Demo.ConsEntryCode` says |
| DemoVm.TryConsBody | src/main.rs:271-284 | the second branch's `invoke(1, …)` does what `Demo.TryConsCode` says |
| DemoVm.ArmBody | src/main.rs:266-278 | the matching arms pop the scrutinee, print it and exit with status 0 |
| DemoVm.NoArmBody | src/main.rs:279-282 | the last arm prints the argument stack and exits with status 1 |
| DemoVm.Step | src/main.rs:293 | calling the current code runs the body `Demo.Exec` gives for its label |
| DemoVm.Pass | src/main.rs:292-294 | one pass of the loop: the bounded run from the current code ends as its body says (fault or exit), or continues with one body less from the state and code the body hands on |
| DemoVm.Trampoline | src/main.rs:292-294 | the loop, on a given machine, computes `Demo.Run` from that machine's state |
| DemoVm.RunProgram | src/main.rs:288-295 | `main` on a new machine computes `Demo.Run` from empty stacks; from `entry` it exits with status 0 after printing `[Integer(500500)]`, and from `cons_entry` it exits with status 0 after printing the tag-1 block |

## Left out

- Output and process exit: `println!` and `std::process::exit` become the `Exit` outcome of a body. It carries the status and the values that would be printed, not their `Debug` text.
- The `Debug` implementation of `Code` formats a function pointer, so it is not modelled.
- `call_prim` (src/vm.rs:55-60, src/main.rs:42-47) runs an arbitrary Rust closure on the machine, so there is no behaviour of its own to state.
- The unbounded `loop` of `main` is bounded by fuel. A run that needs more bodies than the fuel ends `OutOfFuel`, and non-termination is not modelled.
- `main` starts from `cons_entry`. `RunProgram` takes the starting label as a parameter, so both programs are covered.
- `Code` values are labels compared structurally. Rust function-pointer identity is not modelled.
- `Rc` reference counts are not modelled, only the copy-on-write behaviour they produce. Sequences are values, so that behaviour comes for free.
- `add` on i32 overflow is a fault, as in a debug build. The wrap-around of a release build is not modelled.
- State after a fault: every `panic!`/`unreachable!` and every panic from usize underflow or indexing is a `Fault`, and the methods promise nothing about the fields after one, because the Rust process has already aborted.
- `push_local` and `pop_arg` exist only in `src/vm.rs`. The copy in `src/main.rs` calls `Vec::push` and `Vec::pop` directly, which `MainVm.Vm.Pop` and the lenient step functions model.
