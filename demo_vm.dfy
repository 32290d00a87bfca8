/** The example programs of src/main.rs run on the machine object of MainVm: each code
    body is a method that drives the machine's methods in the order the Rust closure
    calls them, and `RunProgram` is the loop of `main`, bounded by fuel. Each body is
    proved to do what `Demo.Exec` says, so the facts proved in Demo about `Run` hold of
    the loop. */
module DemoVm {
  import opened Values
  import opened Demo
  import MainVm

  type Machine = MainVm.Vm<Label>

  /** The machine holds the state the body produced, unless the body faulted. */
  ghost predicate Left(vm: Machine, r: Outcome<Transfer>)
    reads vm
  {
    r.Ok? ==> vm.State() == r.value.state
  }

  method EntryBody(vm: Machine) returns (r: Outcome<Transfer>)
    modifies vm
    ensures r == EntryCode(old(vm.State())) && Left(vm, r)
  {
    vm.MakeClosure(SumFn);
    vm.Let();
    vm.PushMark();
    vm.Ldi(0);
    vm.Ldi(1000);
    // `let_` has just bound the closure, so position 0 exists.
    var bound := vm.Access(0);
    assert bound.Ok?;
    var c := vm.Apply(SumHalt);
    assert c.Ok?;
    r := Ok(Goto(vm.State(), c.value));
  }

  method SumFnBody(vm: Machine) returns (r: Outcome<Transfer>)
    modifies vm
    ensures r == SumFnCode(old(vm.State())) && Left(vm, r)
  {
    var c :- vm.Grab(SumBody);
    r := Ok(Goto(vm.State(), c));
  }

  method SumBodyBody(vm: Machine) returns (r: Outcome<Transfer>)
    modifies vm
    ensures r == SumBodyCode(old(vm.State())) && Left(vm, r)
  {
    vm.Ldi(0);
    var _ :- vm.Access(2);
    vm.Eq();
    var c := vm.Test(SumDone, SumStep);
    r := Ok(Goto(vm.State(), c));
  }

  method SumDoneBody(vm: Machine) returns (r: Outcome<Transfer>)
    modifies vm
    ensures r == SumDoneCode(old(vm.State())) && Left(vm, r)
  {
    var _ :- vm.Access(0);
    var c :- vm.ReturnClos();
    r := Ok(Goto(vm.State(), c));
  }

  method SumStepBody(vm: Machine) returns (r: Outcome<Transfer>)
    modifies vm
    ensures r == SumStepCode(old(vm.State())) && Left(vm, r)
  {
    var _ :- vm.Access(0);
    var _ :- vm.Access(2);
    var _ :- vm.Add();
    vm.Ldi(-1);
    var _ :- vm.Access(2);
    var _ :- vm.Add();
    var _ :- vm.Access(3);
    var c :- vm.TailApply();
    r := Ok(Goto(vm.State(), c));
  }

  method SumHaltBody(vm: Machine) returns (r: Outcome<Transfer>)
    modifies vm
    ensures r == SumHaltCode(old(vm.State())) && Left(vm, r)
  {
    vm.EndLet();
    r := Ok(Exit(0, vm.argStack, vm.State()));
  }

  method ConsEntryBody(vm: Machine) returns (r: Outcome<Transfer>)
    modifies vm
    ensures r == ConsEntryCode(old(vm.State())) && Left(vm, r)
  {
    vm.Ldi(810);
    vm.Ldi(42);
    // Both blocks take only values just pushed, and the scrutinee is the block just built.
    var nil := vm.MakeBlock(0, 0);
    var cons := vm.MakeBlock(1, 2);
    var c := vm.Invoke(0, NilArm, TryCons);
    assert nil.Ok? && cons.Ok? && c.Ok?;
    r := Ok(Goto(vm.State(), c.value));
  }

  method TryConsBody(vm: Machine) returns (r: Outcome<Transfer>)
    modifies vm
    ensures r == TryConsCode(old(vm.State())) && Left(vm, r)
  {
    var c :- vm.Invoke(1, ConsArm, NoArm);
    r := Ok(Goto(vm.State(), c));
  }

  method ArmBody(vm: Machine) returns (r: Outcome<Transfer>)
    modifies vm
    ensures r == ArmCode(old(vm.State())) && Left(vm, r)
  {
    var v := vm.Pop();
    r := Ok(Exit(0, if v.Some? then [v.value] else [], vm.State()));
  }

  method NoArmBody(vm: Machine) returns (r: Outcome<Transfer>)
    modifies vm
    ensures r == NoArmCode(old(vm.State())) && Left(vm, r)
  {
    r := Ok(Exit(1, vm.argStack, vm.State()));
  }

  /** `(cont.0)(&mut vm)`: run the body labelled `l`. */
  method Step(vm: Machine, l: Label) returns (r: Outcome<Transfer>)
    modifies vm
    ensures r == Exec(l, old(vm.State())) && Left(vm, r)
  {
    match l
    case Entry => r := EntryBody(vm);
    case SumFn => r := SumFnBody(vm);
    case SumBody => r := SumBodyBody(vm);
    case SumDone => r := SumDoneBody(vm);
    case SumStep => r := SumStepBody(vm);
    case SumHalt => r := SumHaltBody(vm);
    case ConsEntry => r := ConsEntryBody(vm);
    case TryCons => r := TryConsBody(vm);
    case NilArm => r := ArmBody(vm);
    case ConsArm => r := ArmBody(vm);
    case NoArm => r := NoArmBody(vm);
  }

  /** One pass of the loop of `main`: with `fuel` bodies allowed, the run from here ends as
      the body says or goes on from the state and code it hands on. */
  method Pass(vm: Machine, l: Label, ghost fuel: nat) returns (r: Outcome<Transfer>)
    requires fuel > 0
    modifies vm
    ensures Left(vm, r)
    ensures r.Fail? ==> Run(Exec, fuel, old(vm.State()), l) == Crashed(r.fault)
    ensures r.Ok? && r.value.Exit? ==>
              Run(Exec, fuel, old(vm.State()), l) == Halted(r.value.status, r.value.shown, r.value.state)
    ensures r.Ok? && r.value.Goto? ==>
              Run(Exec, fuel, old(vm.State()), l) == Run(Exec, fuel - 1, r.value.state, r.value.next)
  {
    ghost var before := vm.State();
    r := Step(vm, l);
    RunResumes(Exec, fuel, before, l);
  }

  /** The loop of `main` on a given machine, for at most `fuel` bodies. */
  method Trampoline(vm: Machine, start: Label, fuel: nat) returns (r: RunResult)
    modifies vm
    ensures r == Run(Exec, fuel, old(vm.State()), start)
  {
    var cont := start;
    var left: nat := fuel;
    while left > 0
      invariant Run(Exec, fuel, old(vm.State()), start) == Run(Exec, left, vm.State(), cont)
      decreases left
    {
      var t := Pass(vm, cont, left);
      match t
      case Fail(f) =>
        return Crashed(f);
      case Ok(Exit(status, shown, u)) =>
        return Halted(status, shown, u);
      case Ok(Goto(u, next)) =>
        cont := next;
        left := left - 1;
    }
    r := OutOfFuel(vm.State(), cont);
  }

  /** `main`: a fresh machine and the loop from `start`. From `entry` it prints
      `[Integer(500500)]` and exits with status 0; from `cons_entry` it prints the tag-1
      block and exits with status 0. */
  method RunProgram(start: Label, fuel: nat) returns (r: RunResult)
    ensures r == Run(Exec, fuel, Empty, start)
    ensures start == Entry && fuel >= 3005 ==> r == Halted(0, [Integer(500500)], Final)
    ensures start == ConsEntry && fuel >= 3 ==>
              r == Halted(0, [ConsBlock], MachineState([Integer(810)], [], []))
  {
    var vm := new MainVm.Vm<Label>();
    r := Trampoline(vm, start, fuel);
    if start == Entry && fuel >= 3005 {
      EntryRun(fuel);
    }
    if start == ConsEntry && fuel >= 3 {
      ConsEntryRun(fuel);
    }
  }
}
