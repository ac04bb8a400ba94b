/**
 * `beq` and `bnq` compare the two `Integer` objects `getRegValue` returns
 * with `==` and `!=`, which compare references, not values. `setRegValue`
 * takes an `Integer`, so every computed `int` is boxed through
 * `Integer.valueOf`. Section 5.1.7 of the Java Language Specification
 * requires one shared object for each value in [-128, 127]. On a JVM with
 * the default cache, that range is all that is shared, and any other value
 * gets a fresh object each time it is boxed. Two registers written
 * separately with 1000 therefore hold different objects, and `beq` between
 * them is not taken.
 *
 * This module is the machine as written: a store of objects (`BoxedMachine`)
 * and one `accept` on it (`ExecBoxed`). The rest of the model, `Execution`,
 * compares values, as the other four branches do; `ValuesAgree` and
 * `BranchAgrees` say exactly where the two differ.
 */
module BoxedIntegers {
  import opened Wrappers
  import opened Tokens
  import opened Instructions
  import opened Registers
  import opened Execution
  import ExecutionProperties

  /** A reference to an `Integer` object: a shared cached one, or the one the `serial`-th boxing allocated. */
  datatype IntegerRef = Cached(value: int) | Allocated(value: int, serial: nat)

  /** The values `Integer.valueOf` shares on a JVM with the default cache. */
  predicate InCache(v: int) {
    -128 <= v <= 127
  }

  /** `Integer.valueOf(v)`, the `serial`-th boxing of the run. */
  function Box(v: int, serial: nat): (r: IntegerRef)
    ensures r.value == v
    ensures r.Cached? <==> InCache(v)
  {
    if InCache(v) then Cached(v) else Allocated(v, serial)
  }

  /** The branch relations as written: reference identity for `beq` and `bnq`, unboxed values for the rest. */
  function BranchTakenAsWritten(kind: TokenType, a: IntegerRef, b: IntegerRef): bool {
    if kind == Beq then a == b
    else if kind == Bnq then a != b
    else BranchTaken(kind, a.value, b.value)
  }

  /**
   * The two comparisons differ only for `beq`/`bnq` on equal values outside
   * the cache that were boxed separately.
   */
  lemma {:induction false} AsWrittenAgreesOtherwise(kind: TokenType, a: int, b: int, s1: nat, s2: nat)
    ensures BranchTakenAsWritten(kind, Box(a, s1), Box(b, s2)) != BranchTaken(kind, a, b)
      <==> (kind == Beq || kind == Bnq) && a == b && !InCache(a) && s1 != s2
  {
    if kind == Beq || kind == Bnq {
      if a != b {
        assert Box(a, s1) != Box(b, s2) by {
          assert Box(a, s1).value != Box(b, s2).value;
        }
      }
    }
  }

  // ---------------------------------------------------------------------
  // The store of objects

  /**
   * The interpreter's state as written: the `Integer` object stored for each
   * register, `pc`, the output, and how many boxings happened so far (the
   * serial of the next object allocated).
   */
  datatype BoxedMachine = BoxedMachine(regs: map<string, IntegerRef>, pc: int, output: seq<int>, boxes: nat)

  /** The values the stored objects hold: the state `Execution` works on. */
  function Values(b: BoxedMachine): Machine {
    Machine(map r | r in b.regs :: b.regs[r].value, b.pc, b.output)
  }

  /** Every stored object is what `Integer.valueOf` returns: cached exactly when its value is in the cache. */
  predicate Canonical(b: BoxedMachine) {
    forall r :: r in b.regs ==> (b.regs[r].Cached? <==> InCache(b.regs[r].value))
  }

  /** Every allocated object stored comes from an earlier boxing. */
  predicate Fresh(b: BoxedMachine) {
    forall r :: r in b.regs ==> b.regs[r].Allocated? ==> b.regs[r].serial < b.boxes
  }

  /** `getRegValue`: the stored object, or the cached `0` that `Environment.get` boxes for a register never written. */
  function ReadRef(b: BoxedMachine, reg: Token): (r: IntegerRef)
    ensures r.value == Read(Values(b), reg)
  {
    if reg.lexeme in b.regs then b.regs[reg.lexeme] else Cached(0)
  }

  /** `setRegValue` of a freshly computed `int`: it is boxed first. */
  function WriteBoxed(b: BoxedMachine, reg: Token, v: int): BoxedMachine {
    b.(regs := b.regs[reg.lexeme := Box(v, b.boxes)], boxes := b.boxes + 1)
  }

  /** `setRegValue` of an object `getRegValue` returned: that object is stored, with no boxing. */
  function MoveRef(b: BoxedMachine, reg: Token, r: IntegerRef): BoxedMachine {
    b.(regs := b.regs[reg.lexeme := r])
  }

  /** The register an arithmetic instruction writes its result into. */
  function Destination(i: Inst): Option<Token> {
    if i.Rtype? && RegisterArithmetic(i.opcode.kind) then Some(i.rd)
    else if i.Itype? && ImmediateArithmetic(i.opcode.kind) then Some(i.rt)
    else None
  }

  predicate IdentityBranch(i: Inst) {
    i.Itype? && (i.opcode.kind == Beq || i.opcode.kind == Bnq)
  }

  datatype BoxedExecuted = BoxedExecuted(state: BoxedMachine, fault: Option<Fault>)

  /**
   * `accept` as written. `beq` and `bnq` compare the objects; `swap` moves
   * the objects; every other instruction computes what `Exec` computes on the
   * values, and boxes the result it writes.
   */
  function ExecBoxed(b: BoxedMachine, length: int, i: Inst): (e: BoxedExecuted)
    requires WellFormed(i)
    ensures 0 <= b.pc < length && e.fault.None? ==> -1 <= e.state.pc < length
  {
    var m := Values(b);
    if IdentityBranch(i) then
      var taken := BranchTakenAsWritten(i.opcode.kind, ReadRef(b, i.rs), ReadRef(b, i.rt));
      var e := Branch(m, length, i.opcode, taken, i.imm.literal.value);
      BoxedExecuted(b.(pc := e.state.pc), e.fault)
    else if i.Itype? && i.opcode.kind == Swap then
      var temp := ReadRef(b, i.rt);
      BoxedExecuted(MoveRef(MoveRef(b, i.rt, ReadRef(b, i.rs)), i.rs, temp), None)
    else
      var e := Exec(m, length, i);
      var d := Destination(i);
      var s := if e.fault.None? && d.Some? then WriteBoxed(b, d.value, Read(e.state, d.value)) else b;
      BoxedExecuted(s.(pc := e.state.pc, output := e.state.output), e.fault)
  }

  datatype BoxedFinal = BoxedFinal(state: BoxedMachine, outcome: Outcome)

  /** The loop of `interpret` as written, for at most `fuel` instructions. */
  function RunBoxed(prog: seq<Inst>, b: BoxedMachine, fuel: nat): BoxedFinal
    requires Program(prog) && 0 <= b.pc
    decreases fuel
  {
    if b.pc >= |prog| then BoxedFinal(b, Completed)
    else if fuel == 0 then BoxedFinal(b, OutOfFuel)
    else
      var e := ExecBoxed(b, |prog|, prog[b.pc]);
      if e.fault.Some? then BoxedFinal(e.state, Halted(e.fault.value))
      else RunBoxed(prog, e.state.(pc := e.state.pc + 1), fuel - 1)
  }

  // ---------------------------------------------------------------------
  // Where the two machines agree

  /** Boxing a value and then reading the values is writing the value. */
  lemma ValuesOfWrite(b: BoxedMachine, reg: Token, v: int)
    ensures Values(WriteBoxed(b, reg, v)) == Write(Values(b), reg, v)
    ensures Values(MoveRef(b, reg, Box(v, b.boxes))) == Write(Values(b), reg, v)
  {
    AssignIsUpsert(Values(b).regs, reg, v);
    assert Values(WriteBoxed(b, reg, v)).regs == Values(b).regs[reg.lexeme := v];
    assert Values(MoveRef(b, reg, Box(v, b.boxes))).regs == Values(b).regs[reg.lexeme := v];
  }

  /** Moving an object is writing its value. */
  lemma ValuesOfMove(b: BoxedMachine, reg: Token, r: IntegerRef)
    ensures Values(MoveRef(b, reg, r)) == Write(Values(b), reg, r.value)
  {
    AssignIsUpsert(Values(b).regs, reg, r.value);
    assert Values(MoveRef(b, reg, r)).regs == Values(b).regs[reg.lexeme := r.value];
  }

  /** An arithmetic instruction that raises nothing writes exactly its destination. */
  lemma ExecWritesDestination(m: Machine, length: int, i: Inst)
    requires WellFormed(i) && Destination(i).Some? && Exec(m, length, i).fault.None?
    ensures var d := Destination(i).value;
      Exec(m, length, i).state == Write(m, d, Read(Exec(m, length, i).state, d))
  {
    var e := Exec(m, length, i);
    var d := Destination(i).value;
    if i.Rtype? {
      assert e == ExecRegister(m, i.opcode, i.rd, Read(m, i.rs), Read(m, i.rt));
    } else {
      assert e == ExecImmediate(m, i.opcode, i.rt, Read(m, i.rs), i.imm.literal.value);
    }
    assert e.state == Write(m, d, Read(e.state, d)) by {
      GetAfterAssign(m.regs, d, Read(e.state, d), d.lexeme);
    }
  }

  /** Every other instruction writes no register. */
  lemma ExecWritesNothingElse(m: Machine, length: int, i: Inst)
    requires WellFormed(i) && !IdentityBranch(i) && !(i.Itype? && i.opcode.kind == Swap)
    requires Destination(i).None? || Exec(m, length, i).fault.Some?
    ensures Exec(m, length, i).state.regs == m.regs
  {
    var e := Exec(m, length, i);
    if e.fault.Some? {
      ExecutionProperties.FaultWritesNothing(m, length, i);
    } else {
      match i
      case Rtype(opcode, rd, rs, rt) =>
        assert e == ExecRegister(m, opcode, rd, Read(m, rs), Read(m, rt));
      case Itype(opcode, rt, rs, imm) =>
        assert e == ExecItype(m, length, opcode, rt, rs, imm);
      case Jtype(_, _) =>
      case Print(_) =>
    }
  }

  /**
   * On every instruction but `beq` and `bnq`, the machine as written holds
   * the values the model computes, raises the same fault and prints the same.
   */
  lemma ValuesAgree(b: BoxedMachine, length: int, i: Inst)
    requires WellFormed(i) && !IdentityBranch(i)
    ensures var e, f := ExecBoxed(b, length, i), Exec(Values(b), length, i);
      Values(e.state) == f.state && e.fault == f.fault
  {
    var m := Values(b);
    var f := Exec(m, length, i);
    if i.Itype? && i.opcode.kind == Swap {
      var temp := ReadRef(b, i.rt);
      var b1 := MoveRef(b, i.rt, ReadRef(b, i.rs));
      ValuesOfMove(b, i.rt, ReadRef(b, i.rs));
      ValuesOfMove(b1, i.rs, temp);
      assert f == ExecItype(m, length, i.opcode, i.rt, i.rs, i.imm);
    } else if f.fault.None? && Destination(i).Some? {
      var d := Destination(i).value;
      ValuesOfWrite(b, d, Read(f.state, d));
      ExecWritesDestination(m, length, i);
      ExecExtendsOutputAndPc(m, length, i);
    } else {
      ExecWritesNothingElse(m, length, i);
    }
  }

  /** An arithmetic instruction keeps `pc` and the output. */
  lemma ExecExtendsOutputAndPc(m: Machine, length: int, i: Inst)
    requires WellFormed(i) && Destination(i).Some?
    ensures Exec(m, length, i).state.pc == m.pc && Exec(m, length, i).state.output == m.output
  {
    if i.Itype? {
      assert Exec(m, length, i) == ExecImmediate(m, i.opcode, i.rt, Read(m, i.rs), i.imm.literal.value);
    }
  }

  /**
   * `beq` and `bnq` as written decide as the model does, except on two
   * different objects holding the same value outside the cache. In
   * particular `beq $r,$r,k` compares one object with itself.
   */
  lemma BranchAgrees(b: BoxedMachine, length: int, i: Inst)
    requires IdentityBranch(i) && HasIntLiteral(i.imm) && Canonical(b)
    ensures var a, c := ReadRef(b, i.rs), ReadRef(b, i.rt);
      (BranchTakenAsWritten(i.opcode.kind, a, c) != BranchTaken(i.opcode.kind, a.value, c.value)
       <==> a.value == c.value && !InCache(a.value) && a != c)
    ensures i.rs.lexeme == i.rt.lexeme ==>
      var e, f := ExecBoxed(b, length, i), Exec(Values(b), length, i);
      Values(e.state) == f.state && e.fault == f.fault
  {
    var a, c := ReadRef(b, i.rs), ReadRef(b, i.rt);
    assert a.Cached? <==> InCache(a.value);
    assert c.Cached? <==> InCache(c.value);
    var m := Values(b);
    assert Exec(m, length, i) == ExecItype(m, length, i.opcode, i.rt, i.rs, i.imm);
  }

  /** `swap` moves the two objects: nothing is boxed and the objects stay the same. */
  lemma SwapMovesObjects(b: BoxedMachine, length: int, i: Inst)
    requires i.Itype? && i.opcode.kind == Swap && HasIntLiteral(i.imm)
    ensures var e := ExecBoxed(b, length, i);
      && e.fault.None? && e.state.boxes == b.boxes
      && ReadRef(e.state, i.rt) == ReadRef(b, i.rs) && ReadRef(e.state, i.rs) == ReadRef(b, i.rt)
  {
  }

  /** An instruction keeps every stored object canonical and every allocation fresh. */
  lemma ExecKeepsCanonical(b: BoxedMachine, length: int, i: Inst)
    requires WellFormed(i) && Canonical(b) && Fresh(b)
    ensures Canonical(ExecBoxed(b, length, i).state) && Fresh(ExecBoxed(b, length, i).state)
  {
  }

  /** A value outside the cache written into a register is an object no register held before. */
  lemma WriteIsFresh(b: BoxedMachine, reg: Token, v: int)
    requires Fresh(b) && !InCache(v)
    ensures forall r :: r in b.regs ==> WriteBoxed(b, reg, v).regs[reg.lexeme] != b.regs[r]
  {
  }

  // ---------------------------------------------------------------------
  // The input that shows it

  /** One instruction that raises nothing, then the rest of the run. */
  lemma BoxedStepContinues(prog: seq<Inst>, b: BoxedMachine, fuel: nat, next: BoxedMachine)
    requires Program(prog) && 0 <= b.pc < |prog| && fuel > 0
    requires ExecBoxed(b, |prog|, prog[b.pc]) == BoxedExecuted(next, None)
    ensures -1 <= next.pc
    ensures RunBoxed(prog, b, fuel) == RunBoxed(prog, next.(pc := next.pc + 1), fuel - 1)
  {
  }

  /** An arithmetic instruction as written boxes the value the model computes into its destination. */
  lemma ArithmeticBoxes(b: BoxedMachine, length: int, i: Inst)
    requires WellFormed(i) && Destination(i).Some? && Exec(Values(b), length, i).fault.None?
    ensures var d := Destination(i).value;
      ExecBoxed(b, length, i) == BoxedExecuted(WriteBoxed(b, d, Read(Exec(Values(b), length, i).state, d)), None)
  {
    ExecExtendsOutputAndPc(Values(b), length, i);
  }

  /** `addi` as written boxes `rs + k` into `rt`. */
  lemma AddImmediateBoxes(b: BoxedMachine, length: int, opcode: Token, rt: Token, rs: Token, imm: Token)
    requires opcode.kind == Addi && HasIntLiteral(imm)
    ensures ExecBoxed(b, length, Itype(opcode, rt, rs, imm))
      == BoxedExecuted(WriteBoxed(b, rt, JavaInt.Wrap(ReadRef(b, rs).value + imm.literal.value)), None)
  {
    var m, i := Values(b), Itype(opcode, rt, rs, imm);
    ExecutionProperties.ImmediateArithmeticWrites(m, length, opcode, rt, rs, imm);
    assert Destination(i) == Some(rt);
    assert Read(Exec(m, length, i).state, rt) == JavaInt.Wrap(ReadRef(b, rs).value + imm.literal.value);
    ArithmeticBoxes(b, length, i);
  }

  /** A `beq` or `bnq` whose comparison as written fails changes nothing. */
  lemma IdentityBranchNotTaken(b: BoxedMachine, length: int, i: Inst)
    requires IdentityBranch(i) && HasIntLiteral(i.imm)
    requires !BranchTakenAsWritten(i.opcode.kind, ReadRef(b, i.rs), ReadRef(b, i.rt))
    ensures ExecBoxed(b, length, i) == BoxedExecuted(b, None)
  {
  }

  /** `print` as written prints the value of the stored object. */
  lemma PrintBoxed(b: BoxedMachine, length: int, rd: Token)
    ensures ExecBoxed(b, length, Inst.Print(rd)) == BoxedExecuted(b.(output := b.output + [ReadRef(b, rd).value]), None)
  {
  }

  /** The program of `SeparateWritesDoNotBranch`. */
  function SeparateWrites(): (prog: seq<Inst>)
    ensures |prog| == 4 && Program(prog)
  {
    var t0, t1, t2 := ExecutionProperties.Tok(Register, "t0", None), ExecutionProperties.Tok(Register, "t1", None),
      ExecutionProperties.Tok(Register, "t2", None);
    var addi, k := ExecutionProperties.Tok(Addi, "addi", None), ExecutionProperties.Tok(Number, "1000", Some(1000));
    var prog := [Itype(addi, t0, t1, k), Itype(addi, t2, t1, k),
                 Itype(ExecutionProperties.Tok(Beq, "beq", None), t0, t2, ExecutionProperties.Tok(Number, "1", Some(1))),
                 Inst.Print(t0)];
    assert forall j :: 0 <= j < 4 ==> WellFormed(prog[j]);
    prog
  }

  /**
   * `addi $t0,$t1,1000; addi $t2,$t1,1000; beq $t0,$t2,1; print $t0;` on an
   * empty store: as written, the two writes box 1000 twice, `beq` is not
   * taken and 1000 is printed. Compared by value, `beq` skips the print.
   */
  lemma SeparateWritesDoNotBranch(fuel: nat)
    requires fuel >= 4
    ensures RunBoxed(SeparateWrites(), BoxedMachine(map[], 0, [], 0), fuel)
      == BoxedFinal(BoxedMachine(map["t0" := Allocated(1000, 0), "t2" := Allocated(1000, 1)], 4, [1000], 2), Completed)
    ensures RunFrom(SeparateWrites(), Machine(map[], 0, []), fuel)
      == Final(Machine(map["t0" := 1000, "t2" := 1000], 4, []), Completed)
  {
    var f1, f2, f3 := fuel - 1, fuel - 2, fuel - 3;
    assert RunBoxed(SeparateWrites(), BoxedMachine(map[], 0, [], 0), fuel)
      == BoxedFinal(BoxedMachine(map["t0" := Allocated(1000, 0), "t2" := Allocated(1000, 1)], 4, [1000], 2), Completed)
    by {
      BoxedFirstWrite(fuel);
      BoxedSecondWrite(f1);
      BoxedBranch(f2);
      BoxedPrint(f3);
    }
    assert RunFrom(SeparateWrites(), Machine(map[], 0, []), fuel)
      == Final(Machine(map["t0" := 1000, "t2" := 1000], 4, []), Completed)
    by {
      ValueFirstWrite(fuel);
      ValueSecondWrite(f1);
      ValueBranch(f2);
    }
  }

  lemma BoxedFirstWrite(fuel: nat)
    requires fuel >= 1
    ensures RunBoxed(SeparateWrites(), BoxedMachine(map[], 0, [], 0), fuel)
      == RunBoxed(SeparateWrites(), BoxedMachine(map["t0" := Allocated(1000, 0)], 1, [], 1), fuel - 1)
  {
    var prog, b0 := SeparateWrites(), BoxedMachine(map[], 0, [], 0);
    AddImmediateBoxes(b0, 4, prog[0].opcode, prog[0].rt, prog[0].rs, prog[0].imm);
    assert WriteBoxed(b0, prog[0].rt, 1000) == BoxedMachine(map["t0" := Allocated(1000, 0)], 0, [], 1);
    BoxedStepContinues(prog, b0, fuel, BoxedMachine(map["t0" := Allocated(1000, 0)], 0, [], 1));
  }

  lemma BoxedSecondWrite(fuel: nat)
    requires fuel >= 1
    ensures RunBoxed(SeparateWrites(), BoxedMachine(map["t0" := Allocated(1000, 0)], 1, [], 1), fuel)
      == RunBoxed(SeparateWrites(),
                  BoxedMachine(map["t0" := Allocated(1000, 0), "t2" := Allocated(1000, 1)], 2, [], 2), fuel - 1)
  {
    var prog, b1 := SeparateWrites(), BoxedMachine(map["t0" := Allocated(1000, 0)], 1, [], 1);
    var b2 := BoxedMachine(map["t0" := Allocated(1000, 0), "t2" := Allocated(1000, 1)], 1, [], 2);
    AddImmediateBoxes(b1, 4, prog[1].opcode, prog[1].rt, prog[1].rs, prog[1].imm);
    assert WriteBoxed(b1, prog[1].rt, 1000) == b2;
    BoxedStepContinues(prog, b1, fuel, b2);
  }

  lemma BoxedBranch(fuel: nat)
    requires fuel >= 1
    ensures var regs := map["t0" := Allocated(1000, 0), "t2" := Allocated(1000, 1)];
      RunBoxed(SeparateWrites(), BoxedMachine(regs, 2, [], 2), fuel)
        == RunBoxed(SeparateWrites(), BoxedMachine(regs, 3, [], 2), fuel - 1)
  {
    var prog, b2 := SeparateWrites(), BoxedMachine(map["t0" := Allocated(1000, 0), "t2" := Allocated(1000, 1)], 2, [], 2);
    IdentityBranchNotTaken(b2, 4, prog[2]);
    BoxedStepContinues(prog, b2, fuel, b2);
  }

  lemma BoxedPrint(fuel: nat)
    requires fuel >= 1
    ensures var regs := map["t0" := Allocated(1000, 0), "t2" := Allocated(1000, 1)];
      RunBoxed(SeparateWrites(), BoxedMachine(regs, 3, [], 2), fuel)
        == BoxedFinal(BoxedMachine(regs, 4, [1000], 2), Completed)
  {
    var prog, b3 := SeparateWrites(), BoxedMachine(map["t0" := Allocated(1000, 0), "t2" := Allocated(1000, 1)], 3, [], 2);
    PrintBoxed(b3, 4, prog[3].rd);
    BoxedStepContinues(prog, b3, fuel, b3.(output := [1000]));
  }

  lemma ValueFirstWrite(fuel: nat)
    requires fuel >= 1
    ensures RunFrom(SeparateWrites(), Machine(map[], 0, []), fuel)
      == RunFrom(SeparateWrites(), Machine(map["t0" := 1000], 1, []), fuel - 1)
  {
    var prog, m1 := SeparateWrites(), Machine(map["t0" := 1000], 0, []);
    assert Exec(Machine(map[], 0, []), 4, prog[0]) == Executed(m1, None);
    StepContinues(prog, Machine(map[], 0, []), fuel, m1);
  }

  lemma ValueSecondWrite(fuel: nat)
    requires fuel >= 1
    ensures RunFrom(SeparateWrites(), Machine(map["t0" := 1000], 1, []), fuel)
      == RunFrom(SeparateWrites(), Machine(map["t0" := 1000, "t2" := 1000], 2, []), fuel - 1)
  {
    var prog, m2 := SeparateWrites(), Machine(map["t0" := 1000, "t2" := 1000], 1, []);
    assert Exec(Machine(map["t0" := 1000], 1, []), 4, prog[1]) == Executed(m2, None);
    StepContinues(prog, Machine(map["t0" := 1000], 1, []), fuel, m2);
  }

  /** By value `beq` is taken and skips the `print`, which ends the run. */
  lemma ValueBranch(fuel: nat)
    requires fuel >= 1
    ensures RunFrom(SeparateWrites(), Machine(map["t0" := 1000, "t2" := 1000], 2, []), fuel)
      == Final(Machine(map["t0" := 1000, "t2" := 1000], 4, []), Completed)
  {
    var prog, m2 := SeparateWrites(), Machine(map["t0" := 1000, "t2" := 1000], 2, []);
    assert Exec(m2, 4, prog[2]) == Executed(m2.(pc := 3), None);
    StepContinues(prog, m2, fuel, m2.(pc := 3));
  }
}
