/** The two example programs of src/main.rs, `entry` (a tail-recursive sum) and
    `cons_entry` (tag dispatch over blocks), and the trampoline of `main`, bounded by fuel.

    Every Rust closure the programs pass as a `Code` gets a label, and `Exec` gives the
    body of each: the machine steps it performs and the code it returns, or the exit it
    takes. `std::process::exit` becomes an `Exit` carrying the status and the values the
    body prints just before it. */
module Demo {
  import opened Values
  import L = LibSteps
  import M = MainSteps

  datatype Label =
    | Entry      // fn entry
    | SumFn      // the closure entry builds: grab(SumBody)
    | SumBody    // ldi 0; access 2; eq; test(SumDone, SumStep)
    | SumDone    // access 0; return_clos
    | SumStep    // access 0; access 2; add; ldi -1; access 2; add; access 3; tail_apply
    | SumHalt    // the continuation of the outer apply: endlet; print arg_stack; exit(0)
    | ConsEntry  // fn cons_entry
    | NilArm     // pop; print it; exit(0)
    | TryCons    // invoke(1, ConsArm, NoArm)
    | ConsArm    // pop; print it; exit(0)
    | NoArm      // print arg_stack; exit(1)

  type St = MachineState<Label>

  /** What one code body hands back to the trampoline. */
  datatype Transfer =
    | Goto(state: St, next: Label)
    | Exit(status: int, shown: seq<Value<Label>>, state: St)

  function Jump(n: Next<Label>): Transfer {
    Goto(n.state, n.code)
  }

  /** `entry`: bind the closure `go`, then call `go 0 1000` through `apply(SumHalt)`
      above a marker. */
  function EntryCode(s: St): Outcome<Transfer> {
    var s1 := L.PushMark(M.Let(L.MakeClosure(s, SumFn)));
    var s2 :- L.Access(L.Ldi(L.Ldi(s1, 0), 1000), 0);
    var n :- M.Apply(s2, SumHalt);
    Ok(Jump(n))
  }

  function SumFnCode(s: St): Outcome<Transfer> {
    var n :- M.Grab(s, SumBody);
    Ok(Jump(n))
  }

  function SumBodyCode(s: St): Outcome<Transfer> {
    var s1 :- L.Access(L.Ldi(s, 0), 2);
    Ok(Jump(M.Test(M.Eq(s1), SumDone, SumStep)))
  }

  function SumDoneCode(s: St): Outcome<Transfer> {
    var s1 :- L.Access(s, 0);
    var n :- M.ReturnClos(s1);
    Ok(Jump(n))
  }

  function SumStepCode(s: St): Outcome<Transfer> {
    var s1 :- L.Access(s, 0);
    var s2 :- L.Access(s1, 2);
    var s3 :- M.Add(s2);
    var s4 :- L.Access(L.Ldi(s3, -1), 2);
    var s5 :- M.Add(s4);
    var s6 :- L.Access(s5, 3);
    var n :- M.TailApply(s6);
    Ok(Jump(n))
  }

  function SumHaltCode(s: St): Outcome<Transfer> {
    var s1 := L.EndLet(s);
    Ok(Exit(0, s1.args, s1))
  }

  /** `cons_entry`: build `Block{1, [42, Block{0, []}]}` above 810 and dispatch on tag 0. */
  function ConsEntryCode(s: St): Outcome<Transfer> {
    var s1 :- L.MakeBlock(L.Ldi(L.Ldi(s, 810), 42), 0, 0);
    var s2 :- L.MakeBlock(s1, 1, 2);
    var c :- L.Invoke(s2, 0, NilArm, TryCons);
    Ok(Goto(s2, c))
  }

  function TryConsCode(s: St): Outcome<Transfer> {
    var c :- L.Invoke(s, 1, ConsArm, NoArm);
    Ok(Goto(s, c))
  }

  /** The two matching arms: pop the scrutinee, print it and exit with status 0. */
  function ArmCode(s: St): Outcome<Transfer> {
    var (v, s1) := M.Pop(s);
    Ok(Exit(0, if v.Some? then [v.value] else [], s1))
  }

  function NoArmCode(s: St): Outcome<Transfer> {
    Ok(Exit(1, s.args, s))
  }

  /** The body of the code labelled `l`, run on state `s`. */
  function Exec(l: Label, s: St): Outcome<Transfer> {
    match l
    case Entry => EntryCode(s)
    case SumFn => SumFnCode(s)
    case SumBody => SumBodyCode(s)
    case SumDone => SumDoneCode(s)
    case SumStep => SumStepCode(s)
    case SumHalt => SumHaltCode(s)
    case ConsEntry => ConsEntryCode(s)
    case TryCons => TryConsCode(s)
    case NilArm => ArmCode(s)
    case ConsArm => ArmCode(s)
    case NoArm => NoArmCode(s)
  }

  /** How a bounded run ends. */
  datatype RunResult =
    | Halted(status: int, shown: seq<Value<Label>>, state: St)
    | Crashed(fault: Fault)
    | OutOfFuel(state: St, at: Label)

  /** A table of code bodies: what each label does to a state. The program's own table is
      `Exec`. */
  type Program = (Label, St) -> Outcome<Transfer>

  /** The loop of `main`, `cont = (cont.0)(&mut vm)`, over the bodies of `p`, for at most
      `fuel` bodies. */
  function Run(p: Program, fuel: nat, s: St, l: Label): RunResult
    decreases fuel
  {
    if fuel == 0 then OutOfFuel(s, l)
    else
      match p(l, s)
      case Fail(f) => Crashed(f)
      case Ok(Exit(status, shown, t)) => Halted(status, shown, t)
      case Ok(Goto(t, next)) => Run(p, fuel - 1, t, next)
  }

  /** With fuel left, the run is decided by the body of `l`. */
  lemma RunResumes(p: Program, fuel: nat, s: St, l: Label)
    requires fuel > 0
    ensures Run(p, fuel, s, l) == match p(l, s)
              case Fail(f) => Crashed(f)
              case Ok(Exit(status, shown, t)) => Halted(status, shown, t)
              case Ok(Goto(t, next)) => Run(p, fuel - 1, t, next)
  {
  }

  const Empty: St := MachineState([], [], [])

  lemma RunGoto(fuel: nat, s: St, l: Label, t: St, next: Label)
    requires fuel > 0 && Exec(l, s) == Ok(Goto(t, next))
    ensures Run(Exec, fuel, s, l) == Run(Exec, fuel - 1, t, next)
  {
  }

  /** Fuel only bounds the loop: a run that ends within `f` bodies ends the same way,
      in the same state, with any larger allowance `g`. */
  lemma {:induction false} RunMonotone(p: Program, f: nat, g: nat, s: St, l: Label)
    requires f <= g && !Run(p, f, s, l).OutOfFuel?
    ensures Run(p, g, s, l) == Run(p, f, s, l)
    decreases f
  {
    match p(l, s)
    case Fail(_) =>
    case Ok(Exit(_, _, _)) =>
    case Ok(Goto(t, next)) =>
      RunMonotone(p, f - 1, g - 1, t, next);
  }

  // ---------------------------------------------------------------- cons_entry

  /** The block `cons_entry` builds: tag 1 over `Integer(42)` and an empty tag-0 block. */
  const ConsBlock: Value<Label> := Block(1, [Integer(42), Block(0, [])])

  /** `cons_entry` leaves `Integer(810)` under the tag-1 block, and `invoke(0, ...)` on it
      chooses the second branch; there `invoke(1, ...)` chooses the first. */
  lemma ConsEntryDispatch()
    ensures ConsEntryCode(Empty) == Ok(Goto(MachineState([Integer(810), ConsBlock], [], []), TryCons))
    ensures TryConsCode(MachineState([Integer(810), ConsBlock], [], [])) ==
              Ok(Goto(MachineState([Integer(810), ConsBlock], [], []), ConsArm))
  {
    var s1 := L.Ldi(L.Ldi(Empty, 810), 42);
    assert s1 == MachineState([Integer(810), Integer(42)], [], []);
    var s2 := MachineState([Integer(810), Integer(42), Block(0, [])], [], []);
    assert s1.args[2..] == [] && s1.args[..2] == s1.args;
    assert s1.args[..2] + [Block(0, s1.args[2..])] == s2.args;
    assert L.MakeBlock(s1, 0, 0) == Ok(s2);
    assert s2.args[..1] == [Integer(810)];
    assert s2.args[1..] == [Integer(42), Block(0, [])];
    assert s2.args[..1] + [Block(1, s2.args[1..])] == [Integer(810), ConsBlock];
    assert L.MakeBlock(s2, 1, 2) == Ok(MachineState([Integer(810), ConsBlock], [], []));
  }

  /** Run from `cons_entry`, the program pops the tag-1 block, prints it and exits with
      status 0, leaving `[Integer(810)]`. */
  lemma ConsEntryRun(fuel: nat)
    requires fuel >= 3
    ensures Run(Exec, fuel, Empty, ConsEntry) ==
              Halted(0, [ConsBlock], MachineState([Integer(810)], [], []))
  {
    ConsEntryDispatch();
    var t := MachineState([Integer(810), ConsBlock], [], []);
    assert DropLast(t.args) == [Integer(810)];
    assert ArmCode(t) == Ok(Exit(0, [ConsBlock], MachineState([Integer(810)], [], [])));
    RunGoto(fuel, Empty, ConsEntry, t, TryCons);
    RunGoto(fuel - 1, t, TryCons, t, ConsArm);
  }

  // ---------------------------------------------------------------- entry

  /** 1 + 2 + ... + n. */
  ghost function Tri(n: nat): (r: nat)
    ensures n <= r
  {
    if n == 0 then 0 else n + Tri(n - 1)
  }

  lemma {:induction false} TriClosedForm(n: nat)
    ensures 2 * Tri(n) == n * (n + 1)
  {
    if n > 0 {
      TriClosedForm(n - 1);
      assert n * (n + 1) == (n - 1) * n + 2 * n;
    }
  }

  /** The closure `go` that `entry` binds at environment position 0. */
  const Go: Value<Label> := Closure(SumFn, [])

  /** The frame `entry`'s `apply` saves: return to SumHalt with `go` bound. */
  const Frame: Value<Label> := Closure(SumHalt, [Go])

  /** `go` entered with `n`, before `grab` has taken `acc`. */
  function GoState(n: i32, acc: i32): St {
    MachineState([Epsilon, Integer(acc)], [Frame], [Go, Integer(n)])
  }

  /** Inside `go acc n`: position 0 is `acc`, 1 the self-reference, 2 `n`, 3 `go`. */
  function BodyState(n: i32, acc: i32): St {
    MachineState([Epsilon], [Frame], [Go, Integer(n), Closure(SumBody, [Go, Integer(n)]), Integer(acc)])
  }

  const ReturnedState: St := MachineState([Integer(500500)], [], [Go])

  /** The loop invariant of the sum: what is still to add, plus `acc`, is 500500. */
  ghost predicate Counting(n: i32, acc: i32) {
    0 <= n <= 1000 && acc as int + Tri(n as int) == 500500
  }

  lemma EntryStep()
    ensures EntryCode(Empty) == Ok(Goto(GoState(1000, 0), SumFn))
  {
    var s1 := L.PushMark(M.Let(L.MakeClosure(Empty, SumFn)));
    assert M.Let(L.MakeClosure(Empty, SumFn)) == MachineState([], [], [Go]);
    assert s1 == MachineState([Epsilon], [], [Go]);
    var s2 := L.Ldi(L.Ldi(s1, 0), 1000);
    assert s2 == MachineState([Epsilon, Integer(0), Integer(1000)], [], [Go]);
    var s3 := MachineState([Epsilon, Integer(0), Integer(1000), Go], [], [Go]);
    assert s2.args + [Go] == s3.args;
    assert L.Access(s2, 0) == Ok(s3);
    assert DropLast(s3.args) == [Epsilon, Integer(0), Integer(1000)];
    assert DropLast(DropLast(s3.args)) == [Epsilon, Integer(0)];
    assert Go.env + [Go, Integer(1000)] == [Go, Integer(1000)];
    assert s3.rets + [Closure(SumHalt, s3.env)] == [Frame];
    assert M.Apply(s3, SumHalt) == Ok(Next(GoState(1000, 0), SumFn));
  }

  lemma GrabStep(n: i32, acc: i32)
    ensures SumFnCode(GoState(n, acc)) == Ok(Goto(BodyState(n, acc), SumBody))
  {
    var g := GoState(n, acc);
    assert DropLast(g.args) == [Epsilon];
    assert g.env + [Closure(SumBody, g.env), Integer(acc)] == BodyState(n, acc).env;
    assert M.Grab(g, SumBody) == Ok(Next(BodyState(n, acc), SumBody));
  }

  lemma TestStep(n: i32, acc: i32)
    ensures SumBodyCode(BodyState(n, acc)) == Ok(Goto(BodyState(n, acc), if n == 0 then SumDone else SumStep))
  {
    var b := BodyState(n, acc);
    var s1 := b.(args := [Epsilon, Integer(0), Integer(n)]);
    assert b.args + [Integer(0)] + [Integer(n)] == s1.args;
    assert L.Access(L.Ldi(b, 0), 2) == Ok(s1);
    assert DropLast(DropLast(s1.args)) == [Epsilon];
    assert b.args + [Integer(if n == 0 then 1 else 0)] == [Epsilon, Integer(if n == 0 then 1 else 0)];
    assert M.Eq(s1) == b.(args := [Epsilon, Integer(if n == 0 then 1 else 0)]);
  }

  /** The first half of `step`: load `acc` and `n` and add them. */
  lemma LoopAddsStep(n: i32, acc: i32)
    requires Counting(n, acc) && n > 0
    ensures Counting(n - 1, acc + n)
    ensures var b := BodyState(n, acc);
            L.Access(b, 0) == Ok(b.(args := [Epsilon, Integer(acc)])) &&
            L.Access(b.(args := [Epsilon, Integer(acc)]), 2) == Ok(b.(args := [Epsilon, Integer(acc), Integer(n)])) &&
            M.Add(b.(args := [Epsilon, Integer(acc), Integer(n)])) == Ok(b.(args := [Epsilon, Integer(acc + n)]))
  {
    var b := BodyState(n, acc);
    var s1 := b.(args := [Epsilon, Integer(acc)]);
    assert b.args + [Integer(acc)] == s1.args;
    assert L.Access(b, 0) == Ok(s1);
    var s2 := b.(args := [Epsilon, Integer(acc), Integer(n)]);
    assert s1.args + [Integer(n)] == s2.args;
    assert L.Access(s1, 2) == Ok(s2);
    assert DropLast(DropLast(s2.args)) == [Epsilon];
    var s3 := b.(args := [Epsilon, Integer(acc + n)]);
    assert [Epsilon] + [Integer(acc + n)] == s3.args;
  }

  /** The second half of `step`: decrement `n` and tail-call `go`. */
  lemma LoopCallsStep(n: i32, acc: i32)
    requires Counting(n, acc) && n > 0 && Counting(n - 1, acc + n)
    ensures var s3 := BodyState(n, acc).(args := [Epsilon, Integer(acc + n)]);
            var s6 := BodyState(n, acc).(args := [Epsilon, Integer(acc + n), Integer(n - 1), Go]);
            L.Access(L.Ldi(s3, -1), 2) == Ok(BodyState(n, acc).(args := [Epsilon, Integer(acc + n), Integer(-1), Integer(n)])) &&
            M.Add(BodyState(n, acc).(args := [Epsilon, Integer(acc + n), Integer(-1), Integer(n)])) ==
              Ok(BodyState(n, acc).(args := [Epsilon, Integer(acc + n), Integer(n - 1)])) &&
            L.Access(BodyState(n, acc).(args := [Epsilon, Integer(acc + n), Integer(n - 1)]), 3) == Ok(s6) &&
            M.TailApply(s6) == Ok(Next(GoState(n - 1, acc + n), SumFn))
  {
    var b := BodyState(n, acc);
    var s3 := b.(args := [Epsilon, Integer(acc + n)]);
    var s4 := b.(args := [Epsilon, Integer(acc + n), Integer(-1), Integer(n)]);
    assert s3.args + [Integer(-1)] + [Integer(n)] == s4.args;
    assert L.Access(L.Ldi(s3, -1), 2) == Ok(s4);
    var s5 := b.(args := [Epsilon, Integer(acc + n), Integer(n - 1)]);
    assert DropLast(DropLast(s4.args)) == [Epsilon, Integer(acc + n)];
    assert [Epsilon, Integer(acc + n)] + [Integer(n - 1)] == s5.args;
    assert M.Add(s4) == Ok(s5);
    var s6 := b.(args := [Epsilon, Integer(acc + n), Integer(n - 1), Go]);
    assert s5.args + [Go] == s6.args;
    assert L.Access(s5, 3) == Ok(s6);
    assert DropLast(DropLast(s6.args)) == [Epsilon, Integer(acc + n)];
    assert Go.env + [Go, Integer(n - 1)] == [Go, Integer(n - 1)];
  }

  lemma LoopStep(n: i32, acc: i32)
    requires Counting(n, acc) && n > 0
    ensures Counting(n - 1, acc + n)
    ensures SumStepCode(BodyState(n, acc)) == Ok(Goto(GoState(n - 1, acc + n), SumFn))
  {
    LoopAddsStep(n, acc);
    LoopCallsStep(n, acc);
  }

  lemma DoneStep(acc: i32)
    requires Counting(0, acc)
    ensures SumDoneCode(BodyState(0, acc)) == Ok(Goto(ReturnedState, SumHalt))
  {
    assert acc == 500500;
    var b := BodyState(0, acc);
    var s1 := b.(args := [Epsilon, Integer(acc)]);
    assert b.args + [Integer(acc)] == s1.args;
    assert L.Access(b, 0) == Ok(s1);
    assert M.Pop(s1) == (Some(Integer(acc)), b);
    assert DropLast(b.args) == [];
    assert M.Pop(b) == (Some(Epsilon), b.(args := []));
    assert DropLast(b.rets) == [];
    assert L.PopFrame(b.rets) == Ok(Frame);
    var none: Stack<Label> := [];
    assert none + [Integer(acc)] == [Integer(500500)];
    assert M.ReturnClos(s1) == Ok(Next(ReturnedState, SumHalt));
  }

  lemma HaltStep()
    ensures SumHaltCode(ReturnedState) == Ok(Exit(0, [Integer(500500)], Final))
  {
  }

  /** The configurations the sum passes through. */
  ghost predicate SumInv(s: St, l: Label) {
    match l
    case Entry => s == Empty
    case SumFn =>
      |s.env| == 2 && s.env[1].Integer? && |s.args| == 2 && s.args[1].Integer? &&
      Counting(s.env[1].n, s.args[1].n) && s == GoState(s.env[1].n, s.args[1].n)
    case SumBody =>
      |s.env| == 4 && s.env[1].Integer? && s.env[3].Integer? &&
      Counting(s.env[1].n, s.env[3].n) && s == BodyState(s.env[1].n, s.env[3].n)
    case SumDone =>
      |s.env| == 4 && s.env[3].Integer? && Counting(0, s.env[3].n) && s == BodyState(0, s.env[3].n)
    case SumStep =>
      |s.env| == 4 && s.env[1].Integer? && s.env[3].Integer? && s.env[1].n > 0 &&
      Counting(s.env[1].n, s.env[3].n) && s == BodyState(s.env[1].n, s.env[3].n)
    case SumHalt => s == ReturnedState
    case _ => false
  }

  /** How many bodies remain until the sum exits: three per pass of the loop. */
  function Rank(s: St, l: Label): nat {
    var n := if |s.env| >= 2 && s.env[1].Integer? && s.env[1].n >= 0 then s.env[1].n as nat else 0;
    match l
    case Entry => 3005
    case SumFn => 3 * n + 4
    case SumBody => 3 * n + 3
    case SumStep => 3 * n + 2
    case SumDone => 2
    case SumHalt => 1
    case _ => 0
  }

  /** The exit the sum takes. */
  const Final: St := MachineState([Integer(500500)], [], [])

  /** The body run from a configuration of the sum does not fault, brings the exit one body
      closer, and either reaches another configuration or takes the expected exit. */
  ghost predicate Advances(t: Outcome<Transfer>, s: St, l: Label) {
    Rank(s, l) >= 1 && t.Ok? &&
    (t.value.Goto? ==> SumInv(t.value.state, t.value.next) && Rank(t.value.state, t.value.next) + 1 == Rank(s, l)) &&
    (t.value.Exit? ==> t.value == Exit(0, [Integer(500500)], Final))
  }

  /** Every body of `p` advances the sum. */
  ghost predicate RunsSum(p: Program) {
    forall s: St, l: Label :: SumInv(s, l) ==> Advances(p(l, s), s, l)
  }

  /** Each body of the program advances the sum. */
  lemma SumInvStep(s: St, l: Label)
    requires SumInv(s, l)
    ensures Advances(Exec(l, s), s, l)
  {
    match l
    case Entry =>
      TriClosedForm(1000);
      EntryStep();
    case SumFn =>
      GrabStep(s.env[1].n, s.args[1].n);
    case SumBody =>
      TestStep(s.env[1].n, s.env[3].n);
    case SumDone =>
      DoneStep(s.env[3].n);
    case SumStep =>
      LoopStep(s.env[1].n, s.env[3].n);
    case SumHalt =>
      HaltStep();
  }

  lemma ExecRunsSum()
    ensures RunsSum(Exec)
  {
    forall s: St, l: Label | SumInv(s, l)
      ensures Advances(Exec(l, s), s, l)
    {
      SumInvStep(s, l);
    }
  }

  /** However far it runs, a program that advances the sum never faults, and it only ever
      stops at the invariant's configurations or at the expected exit. */
  lemma {:induction false} SumInvRun(p: Program, fuel: nat, s: St, l: Label)
    requires RunsSum(p) && SumInv(s, l)
    ensures Run(p, fuel, s, l).OutOfFuel? || Run(p, fuel, s, l) == Halted(0, [Integer(500500)], Final)
    ensures Run(p, fuel, s, l).OutOfFuel? ==> SumInv(Run(p, fuel, s, l).state, Run(p, fuel, s, l).at)
    decreases fuel
  {
    if fuel > 0 {
      assert Advances(p(l, s), s, l);
      if p(l, s).value.Goto? {
        SumInvRun(p, fuel - 1, p(l, s).value.state, p(l, s).value.next);
      }
    }
  }

  /** From any configuration of the sum, a program that advances it reaches the exit once
      the fuel covers the bodies that remain. */
  lemma {:induction false} SumRun(p: Program, fuel: nat, s: St, l: Label)
    requires RunsSum(p) && SumInv(s, l) && fuel >= Rank(s, l)
    ensures Run(p, fuel, s, l) == Halted(0, [Integer(500500)], Final)
    decreases fuel
  {
    assert Advances(p(l, s), s, l);
    if p(l, s).value.Goto? {
      SumRun(p, fuel - 1, p(l, s).value.state, p(l, s).value.next);
    }
  }

  /** Run from `entry` with enough fuel, the program exits with status 0 after printing
      `[Integer(500500)]`, with both other stacks empty. */
  lemma EntryRun(fuel: nat)
    requires fuel >= 3005
    ensures Run(Exec, fuel, Empty, Entry) == Halted(0, [Integer(500500)], Final)
  {
    ExecRunsSum();
    SumRun(Exec, fuel, Empty, Entry);
  }

  /** Along the whole run of `entry`, the return stack holds at most the one frame of the
      outer `apply` (tail calls add none), and every entry to the body of `grab` finds
      exactly that frame and only the marker on the argument stack. */
  lemma EntryFramesBounded(fuel: nat)
    ensures !Run(Exec, fuel, Empty, Entry).Crashed?
    ensures Run(Exec, fuel, Empty, Entry).OutOfFuel? ==> |Run(Exec, fuel, Empty, Entry).state.rets| <= 1
    ensures Run(Exec, fuel, Empty, Entry).OutOfFuel? && Run(Exec, fuel, Empty, Entry).at == SumBody ==>
              Run(Exec, fuel, Empty, Entry).state.rets == [Frame] && Run(Exec, fuel, Empty, Entry).state.args == [Epsilon]
  {
    ExecRunsSum();
    SumInvRun(Exec, fuel, Empty, Entry);
  }
}
