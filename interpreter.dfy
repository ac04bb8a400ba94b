/**
 * The execution engine. `Exec` is what one `accept` call does to the
 * registers, the program counter and the printed output; `RunFrom` is the
 * `for (; pc < length; pc++)` loop of `interpret`, bounded by a step budget
 * (`fuel`) because an interpreted program need not terminate. The
 * `Interpreter` class is the visitor object with its `pc`, `length` and
 * `environment` fields, proved to do what they describe.
 */
module Execution {
  import opened Wrappers
  import opened Tokens
  import opened Errors
  import opened Instructions
  import opened Registers
  import JavaInt

  // ---------------------------------------------------------------------
  // One instruction

  /** The interpreter's state: the register store, `pc`, and the values printed so far. */
  datatype Machine = Machine(regs: map<string, int>, pc: int, output: seq<int>)

  /** Why an instruction stopped the run. */
  datatype Fault =
    | Raised(error: RuntimeError)       // a `RuntimeError`, caught by `interpret`
    | ArithmeticCrash(opcode: Token)    // `srl` by zero: an `ArithmeticException` nothing catches

  /** The state an instruction leaves, and the fault it raised, if any. */
  datatype Executed = Executed(state: Machine, fault: Option<Fault>)

  /** Every stored register value is an `Integer`. */
  predicate IntRegisters(regs: map<string, int>) {
    forall r :: r in regs ==> JavaInt.IsInt(regs[r])
  }

  /** `getRegValue`: the stored value, or 0 for a register never written. */
  function Read(m: Machine, reg: Token): int {
    Lookup(m.regs, reg.lexeme)
  }

  /** `setRegValue`. */
  function Write(m: Machine, reg: Token, value: int): Machine {
    m.(regs := Assigned(m.regs, reg, value))
  }

  function Done(m: Machine): Executed {
    Executed(m, None)
  }

  /** `throw new RuntimeError(opcode, message)` in the state `m`. */
  function Raise(m: Machine, opcode: Token, message: Message): Executed {
    Executed(m, Some(Raised(RuntimeError(opcode, message))))
  }

  /** `visitRtypeInst`: writes `rs OP rt` into `rd`. */
  function ExecRtype(m: Machine, opcode: Token, rd: Token, rs: Token, rt: Token): Executed {
    ExecRegister(m, opcode, rd, Read(m, rs), Read(m, rt))
  }

  /** The cases of `visitRtypeInst` on the operand values `a` and `b`. */
  function ExecRegister(m: Machine, opcode: Token, rd: Token, a: int, b: int): Executed {
    var op := opcode.kind;
    if op == Add then Done(Write(m, rd, JavaInt.Wrap(a + b)))
    else if op == Sub then Done(Write(m, rd, JavaInt.Wrap(a - b)))
    else if op == Mul then Done(Write(m, rd, JavaInt.Wrap(a * b)))
    else if op == Div then
      if b == 0 then Raise(m, opcode, DivisionByZero) else Done(Write(m, rd, JavaInt.Div(a, b)))
    else if op == And then Done(Write(m, rd, JavaInt.And(a, b)))
    else if op == Or then Done(Write(m, rd, JavaInt.Or(a, b)))
    else if op == Xor then Done(Write(m, rd, JavaInt.Xor(a, b)))
    else Done(m)
  }

  /** The relation a branch opcode tests between `rs` and `rt`, compared as numbers. */
  function BranchTaken(kind: TokenType, a: int, b: int): bool {
    if kind == Beq then a == b
    else if kind == Bnq then a != b
    else if kind == Bgt then a > b
    else if kind == Bge then a >= b
    else if kind == Blt then a < b
    else if kind == Ble then a <= b
    else false
  }

  /** A branch: when `taken`, `pc += offset`, which must land in `[-1, length - 1]`. */
  function Branch(m: Machine, length: int, opcode: Token, taken: bool, offset: int): Executed {
    if !taken then Done(m)
    else
      var target := JavaInt.Wrap(m.pc + offset);
      if target < -1 || target >= length then Raise(m.(pc := target), opcode, InvalidAddress)
      else Done(m.(pc := target))
  }

  /** The opcodes for which `visitRtypeInst` writes `rs OP rt` into `rd`. */
  predicate RegisterArithmetic(kind: TokenType) {
    kind == Add || kind == Sub || kind == Mul || kind == Div || kind == And || kind == Or || kind == Xor
  }

  /** The opcodes for which `visitItypeInst` writes `rs OP imm` into `rt`. */
  predicate ImmediateArithmetic(kind: TokenType) {
    || kind == Addi || kind == Subi || kind == Muli || kind == Divi || kind == Andi
    || kind == Ori || kind == Xori || kind == Sll || kind == Srl
  }

  predicate IsBranch(kind: TokenType) {
    kind == Beq || kind == Bnq || kind == Bgt || kind == Bge || kind == Blt || kind == Ble
  }

  /** `visitItypeInst`: `rs OP imm` into `rt`, a branch on `rs` and `rt`, or a swap. */
  function ExecItype(m: Machine, length: int, opcode: Token, rt: Token, rs: Token, imm: Token): Executed
    requires HasIntLiteral(imm)
  {
    var a, k := Read(m, rs), imm.literal.value;
    if ImmediateArithmetic(opcode.kind) then ExecImmediate(m, opcode, rt, a, k)
    else if IsBranch(opcode.kind) then Branch(m, length, opcode, BranchTaken(opcode.kind, a, Read(m, rt)), k)
    else if opcode.kind == Swap then var temp := Read(m, rt); Done(Write(Write(m, rt, a), rs, temp))
    else Done(m)
  }

  /** The arithmetic cases of `visitItypeInst`: `a OP k` into `rt`; `srl` by zero is uncaught. */
  function ExecImmediate(m: Machine, opcode: Token, rt: Token, a: int, k: int): Executed
    requires ImmediateArithmetic(opcode.kind)
  {
    var op := opcode.kind;
    if op == Addi then Done(Write(m, rt, JavaInt.Wrap(a + k)))
    else if op == Subi then Done(Write(m, rt, JavaInt.Wrap(a - k)))
    else if op == Muli then Done(Write(m, rt, JavaInt.Wrap(a * k)))
    else if op == Divi then
      if k == 0 then Raise(m, opcode, DivisionByZero) else Done(Write(m, rt, JavaInt.Div(a, k)))
    else if op == Andi then Done(Write(m, rt, JavaInt.And(a, k)))
    else if op == Ori then Done(Write(m, rt, JavaInt.Or(a, k)))
    else if op == Xori then Done(Write(m, rt, JavaInt.Xor(a, k)))
    else if op == Sll then Done(Write(m, rt, JavaInt.Wrap(JavaInt.Wrap(a * k) * 2)))
    else if k == 0 then Executed(m, Some(ArithmeticCrash(opcode)))  // srl
    else Done(Write(m, rt, JavaInt.Wrap(JavaInt.Div(a, k) * 2)))
  }

  /** `visitJtypeInst`: `pc = address - 2`, which must lie in `[-1, length - 1]`. */
  function ExecJtype(m: Machine, length: int, opcode: Token, address: Token): Executed
    requires HasIntLiteral(address)
  {
    var target := JavaInt.Wrap(address.literal.value - 2);
    if target < -1 || target >= length then Raise(m.(pc := target), opcode, InvalidJumpAddress)
    else Done(m.(pc := target))
  }

  /** `visitPrintInst`: prints the value of `rd`. */
  function ExecPrint(m: Machine, rd: Token): Executed {
    Done(m.(output := m.output + [Read(m, rd)]))
  }

  /** `accept`: the visitor method of the instruction's variant, in a program of `length` instructions. */
  function Exec(m: Machine, length: int, i: Inst): (e: Executed)
    requires WellFormed(i)
    ensures 0 <= m.pc < length && e.fault.None? ==> -1 <= e.state.pc < length
  {
    match i
    case Rtype(opcode, rd, rs, rt) => ExecRtype(m, opcode, rd, rs, rt)
    case Itype(opcode, rt, rs, imm) => ExecItype(m, length, opcode, rt, rs, imm)
    case Jtype(opcode, address) => ExecJtype(m, length, opcode, address)
    case Print(rd) => ExecPrint(m, rd)
  }

  // ---------------------------------------------------------------------
  // The run

  /** A list of instructions `interpret` can run: every literal it reads is an `int`. */
  predicate Program(prog: seq<Inst>) {
    forall i :: 0 <= i < |prog| ==> WellFormed(prog[i])
  }

  /** How a run ended; running out of the step budget stands for a run that goes on. */
  datatype Outcome = Completed | Halted(fault: Fault) | OutOfFuel

  datatype Final = Final(state: Machine, outcome: Outcome)

  /** The loop of `interpret` from the state `m`, for at most `fuel` instructions. */
  function RunFrom(prog: seq<Inst>, m: Machine, fuel: nat): Final
    requires Program(prog) && 0 <= m.pc
    decreases fuel, 3
  {
    if m.pc >= |prog| then Final(m, Completed) else RunBudget(prog, m, fuel)
  }

  /** The loop once its test `pc < length` held: stop when the budget is spent. */
  function RunBudget(prog: seq<Inst>, m: Machine, fuel: nat): Final
    requires Program(prog) && 0 <= m.pc < |prog|
    decreases fuel, 2
  {
    if fuel == 0 then Final(m, OutOfFuel) else RunStep(prog, m, fuel)
  }

  /** One pass of the loop body: `instructions.get(pc).accept(this)`, then the rest of the loop. */
  function RunStep(prog: seq<Inst>, m: Machine, fuel: nat): Final
    requires Program(prog) && 0 <= m.pc < |prog| && fuel > 0
    decreases fuel, 1
  {
    RunAfter(prog, fuel, Exec(m, |prog|, prog[m.pc]))
  }

  /** The loop after an instruction left `e`: stop on a fault, else `pc++` and go on. */
  function RunAfter(prog: seq<Inst>, fuel: nat, e: Executed): Final
    requires Program(prog) && fuel > 0
    requires e.fault.None? ==> -1 <= e.state.pc
    decreases fuel, 0
  {
    if e.fault.Some? then Final(e.state, Halted(e.fault.value))
    else RunFrom(prog, e.state.(pc := e.state.pc + 1), fuel - 1)
  }

  /** A run that has an instruction to execute and budget left executes it and goes on from there. */
  lemma StepTaken(prog: seq<Inst>, m: Machine, fuel: nat)
    requires Program(prog) && 0 <= m.pc < |prog| && fuel > 0
    ensures RunFrom(prog, m, fuel) == RunAfter(prog, fuel, Exec(m, |prog|, prog[m.pc]))
  {
    assert RunFrom(prog, m, fuel) == RunBudget(prog, m, fuel) == RunStep(prog, m, fuel);
  }

  /**
   * One pass of the loop: an instruction that raises nothing is followed by
   * `pc++` and the rest of the loop, with one step less of the budget.
   */
  lemma StepContinues(prog: seq<Inst>, m: Machine, fuel: nat, next: Machine)
    requires Program(prog) && 0 <= m.pc < |prog| && fuel > 0
    requires Exec(m, |prog|, prog[m.pc]) == Executed(next, None)
    ensures -1 <= next.pc < |prog|
    ensures RunFrom(prog, m, fuel) == RunFrom(prog, next.(pc := next.pc + 1), fuel - 1)
  {
    StepTaken(prog, m, fuel);
  }

  /** An instruction that raises a fault ends the run there, in the state it left. */
  lemma StepHalts(prog: seq<Inst>, m: Machine, fuel: nat, next: Machine, fault: Fault)
    requires Program(prog) && 0 <= m.pc < |prog| && fuel > 0
    requires Exec(m, |prog|, prog[m.pc]) == Executed(next, Some(fault))
    ensures RunFrom(prog, m, fuel) == Final(next, Halted(fault))
  {
    StepTaken(prog, m, fuel);
  }

  // ---------------------------------------------------------------------
  // The interpreter object

  class Interpreter {
    const environment: Environment
    var pc: int
    var length: int
    var output: seq<int>  // what `visitPrintInst` printed, in order

    constructor ()
      ensures fresh(environment) && environment.values == map[] && pc == 0 && output == []
    {
      environment := new Environment();
      pc := 0;
      length := 0;
      output := [];
    }

    function State(): Machine
      reads this, environment
    {
      Machine(environment.values, pc, output)
    }

    /**
     * `interpret`, for at most `fuel` instructions: `pc` restarts at 0, the
     * registers and the output carry over from earlier calls; `Halted` with a `Raised`
     * fault is the `RuntimeError` handed to `Main.runtimeError`.
     */
    method Interpret(instructions: seq<Inst>, fuel: nat) returns (outcome: Outcome)
      requires Program(instructions)
      modifies this, environment
      ensures length == |instructions|
      ensures var f := RunFrom(instructions, Machine(old(environment.values), 0, old(output)), fuel);
        State() == f.state && outcome == f.outcome
    {
      pc := 0;
      length := |instructions|;
      ghost var start := State();
      var steps := 0;
      while pc < length
        invariant length == |instructions| && 0 <= pc && steps <= fuel
        invariant RunFrom(instructions, State(), fuel - steps) == RunFrom(instructions, start, fuel)
        decreases fuel - steps
      {
        if steps == fuel {
          return OutOfFuel;
        }
        var fault := ExecuteCurrent(instructions, fuel - steps);
        if fault.Some? {
          return Halted(fault.value);
        }
        ghost var next := State().(pc := pc + 1);
        pc := pc + 1;
        assert State() == next;
        steps := steps + 1;
      }
      return Completed;
    }

    /**
     * The body of the loop of `interpret`, `instructions.get(pc).accept(this)`,
     * as one step of the run with `budget` steps left.
     */
    method ExecuteCurrent(instructions: seq<Inst>, ghost budget: nat) returns (fault: Option<Fault>)
      requires Program(instructions) && length == |instructions| && 0 <= pc < length && budget > 0
      modifies this, environment
      ensures length == old(length)
      ensures fault.Some? ==> RunFrom(instructions, old(State()), budget) == Final(State(), Halted(fault.value))
      ensures fault.None? ==> -1 <= pc < length
      ensures fault.None? ==>
        RunFrom(instructions, old(State()), budget) == RunFrom(instructions, State().(pc := pc + 1), budget - 1)
    {
      ghost var before := State();
      fault := Accept(instructions[pc]);
      if fault.Some? {
        StepHalts(instructions, before, budget, State(), fault.value);
      } else {
        StepContinues(instructions, before, budget, State());
      }
    }

    /** `instructions.get(pc).accept(this)`; a fault is the exception the visitor throws. */
    method Accept(i: Inst) returns (fault: Option<Fault>)
      requires WellFormed(i) && 0 <= pc < length
      modifies this, environment
      ensures length == old(length)
      ensures Executed(State(), fault) == Exec(old(State()), length, i)
    {
      match i
      case Rtype(_, _, _, _) => fault := VisitRtype(i);
      case Itype(_, _, _, _) => fault := VisitItype(i);
      case Jtype(_, _) => fault := VisitJtype(i);
      case Print(_) => fault := VisitPrint(i);
    }

    function GetRegValue(reg: Token): int
      reads this, environment
    {
      environment.Get(reg)
    }

    method SetRegValue(reg: Token, value: int)
      modifies environment
      ensures environment.values == Assigned(old(environment.values), reg, value)
    {
      environment.Assign(reg, value);
    }

    method VisitRtype(inst: Inst) returns (fault: Option<Fault>)
      requires inst.Rtype?
      modifies environment
      ensures Executed(State(), fault) == ExecRtype(old(State()), inst.opcode, inst.rd, inst.rs, inst.rt)
    {
      var a, b := GetRegValue(inst.rs), GetRegValue(inst.rt);
      fault := RegisterArithmeticOn(inst.opcode, inst.rd, a, b);
    }

    /** The cases of `visitRtypeInst`, on the values read from `rs` and `rt`. */
    method RegisterArithmeticOn(opcode: Token, rd: Token, a: int, b: int) returns (fault: Option<Fault>)
      modifies environment
      ensures Executed(State(), fault) == ExecRegister(old(State()), opcode, rd, a, b)
    {
      var op := opcode.kind;
      fault := None;
      if op == Add {
        SetRegValue(rd, JavaInt.Wrap(a + b));
      } else if op == Sub {
        SetRegValue(rd, JavaInt.Wrap(a - b));
      } else if op == Mul {
        SetRegValue(rd, JavaInt.Wrap(a * b));
      } else if op == Div {
        if b == 0 {
          fault := Some(Raised(RuntimeError(opcode, DivisionByZero)));
        } else {
          SetRegValue(rd, JavaInt.Div(a, b));
        }
      } else if op == And {
        SetRegValue(rd, JavaInt.And(a, b));
      } else if op == Or {
        SetRegValue(rd, JavaInt.Or(a, b));
      } else if op == Xor {
        SetRegValue(rd, JavaInt.Xor(a, b));
      }
    }

    method VisitItype(inst: Inst) returns (fault: Option<Fault>)
      requires inst.Itype? && HasIntLiteral(inst.imm)
      modifies this, environment
      ensures length == old(length)
      ensures Executed(State(), fault) == ExecItype(old(State()), length, inst.opcode, inst.rt, inst.rs, inst.imm)
    {
      var op := inst.opcode.kind;
      var a, k := GetRegValue(inst.rs), inst.imm.literal.value;
      fault := None;
      if ImmediateArithmetic(op) {
        fault := ArithmeticOn(inst.opcode, inst.rt, a, k);
      } else if IsBranch(op) {
        fault := BranchOn(BranchTaken(op, a, GetRegValue(inst.rt)), inst.opcode, k);
      } else if op == Swap {
        var temp := GetRegValue(inst.rt);
        SetRegValue(inst.rt, a);
        SetRegValue(inst.rs, temp);
      }
    }

    /** The arithmetic cases of `visitItypeInst`, from `ADDI` to `SRL`. */
    method ArithmeticOn(opcode: Token, rt: Token, a: int, k: int) returns (fault: Option<Fault>)
      requires ImmediateArithmetic(opcode.kind)
      modifies environment
      ensures Executed(State(), fault) == ExecImmediate(old(State()), opcode, rt, a, k)
    {
      var op := opcode.kind;
      fault := None;
      if op == Addi {
        SetRegValue(rt, JavaInt.Wrap(a + k));
      } else if op == Subi {
        SetRegValue(rt, JavaInt.Wrap(a - k));
      } else if op == Muli {
        SetRegValue(rt, JavaInt.Wrap(a * k));
      } else if op == Divi {
        if k == 0 {
          fault := Some(Raised(RuntimeError(opcode, DivisionByZero)));
        } else {
          SetRegValue(rt, JavaInt.Div(a, k));
        }
      } else if op == Andi {
        SetRegValue(rt, JavaInt.And(a, k));
      } else if op == Ori {
        SetRegValue(rt, JavaInt.Or(a, k));
      } else if op == Xori {
        SetRegValue(rt, JavaInt.Xor(a, k));
      } else if op == Sll {
        SetRegValue(rt, JavaInt.Wrap(JavaInt.Wrap(a * k) * 2));
      } else if k == 0 {
        fault := Some(ArithmeticCrash(opcode));
      } else {
        SetRegValue(rt, JavaInt.Wrap(JavaInt.Div(a, k) * 2));
      }
    }

    /** The body shared by the six branch cases: `pc += offset` and the bounds check. */
    method BranchOn(taken: bool, opcode: Token, offset: int) returns (fault: Option<Fault>)
      modifies this`pc
      ensures Executed(State(), fault) == Branch(old(State()), length, opcode, taken, offset)
    {
      fault := None;
      if taken {
        pc := JavaInt.Wrap(pc + offset);
        if pc < -1 || pc >= length {
          fault := Some(Raised(RuntimeError(opcode, InvalidAddress)));
        }
      }
    }

    method VisitJtype(inst: Inst) returns (fault: Option<Fault>)
      requires inst.Jtype? && HasIntLiteral(inst.address)
      modifies this`pc
      ensures Executed(State(), fault) == ExecJtype(old(State()), length, inst.opcode, inst.address)
    {
      pc := inst.address.literal.value;
      pc := JavaInt.Wrap(pc - 2);
      fault := None;
      if pc < -1 || pc >= length {
        fault := Some(Raised(RuntimeError(inst.opcode, InvalidJumpAddress)));
      }
    }

    method VisitPrint(inst: Inst) returns (fault: Option<Fault>)
      requires inst.Print?
      modifies this`output
      ensures Executed(State(), fault) == ExecPrint(old(State()), inst.rd)
    {
      output := output + [GetRegValue(inst.rd)];
      fault := None;
    }
  }
}
