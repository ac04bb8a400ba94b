/**
 * Properties of the execution model: what each instruction writes and
 * leaves alone, the faults it raises, the program-counter arithmetic of
 * branches and jumps, and what a whole run keeps.
 */
module ExecutionProperties {
  import opened Wrappers
  import opened Tokens
  import opened Errors
  import opened Instructions
  import opened Registers
  import opened Execution
  import JavaInt

  // ---------------------------------------------------------------------
  // Register values stay Java ints

  lemma ReadIsInt(m: Machine, reg: Token)
    requires IntRegisters(m.regs)
    ensures JavaInt.IsInt(Read(m, reg))
  {
  }

  lemma WriteKeepsInt(m: Machine, reg: Token, value: int)
    requires IntRegisters(m.regs) && JavaInt.IsInt(value)
    ensures IntRegisters(Write(m, reg, value).regs)
  {
    AssignIsUpsert(m.regs, reg, value);
  }

  /** Every instruction stores only `int` values. */
  lemma ExecKeepsIntRegisters(m: Machine, length: int, i: Inst)
    requires WellFormed(i) && IntRegisters(m.regs)
    ensures IntRegisters(Exec(m, length, i).state.regs)
  {
    match i
    case Rtype(opcode, rd, rs, rt) => RtypeKeepsIntRegisters(m, opcode, rd, rs, rt);
    case Itype(opcode, rt, rs, imm) => ItypeKeepsIntRegisters(m, length, opcode, rt, rs, imm);
    case Jtype(_, _) =>
    case Print(_) =>
  }

  lemma RtypeKeepsIntRegisters(m: Machine, opcode: Token, rd: Token, rs: Token, rt: Token)
    requires IntRegisters(m.regs)
    ensures IntRegisters(ExecRtype(m, opcode, rd, rs, rt).state.regs)
  {
    var a, b := Read(m, rs), Read(m, rt);
    var op := opcode.kind;
    if op == Add { WriteKeepsInt(m, rd, JavaInt.Wrap(a + b)); }
    else if op == Sub { WriteKeepsInt(m, rd, JavaInt.Wrap(a - b)); }
    else if op == Mul { WriteKeepsInt(m, rd, JavaInt.Wrap(a * b)); }
    else if op == Div { if b != 0 { WriteKeepsInt(m, rd, JavaInt.Div(a, b)); } }
    else if op == And { WriteKeepsInt(m, rd, JavaInt.And(a, b)); }
    else if op == Or { WriteKeepsInt(m, rd, JavaInt.Or(a, b)); }
    else if op == Xor { WriteKeepsInt(m, rd, JavaInt.Xor(a, b)); }
  }

  lemma ItypeKeepsIntRegisters(m: Machine, length: int, opcode: Token, rt: Token, rs: Token, imm: Token)
    requires HasIntLiteral(imm) && IntRegisters(m.regs)
    ensures IntRegisters(ExecItype(m, length, opcode, rt, rs, imm).state.regs)
  {
    var a, k := Read(m, rs), imm.literal.value;
    ReadIsInt(m, rs);
    ReadIsInt(m, rt);
    if ImmediateArithmetic(opcode.kind) {
      ImmediateKeepsIntRegisters(m, opcode, rt, a, k);
    } else if opcode.kind == Swap {
      WriteKeepsInt(m, rt, a);
      WriteKeepsInt(Write(m, rt, a), rs, Read(m, rt));
    }
  }

  lemma ImmediateKeepsIntRegisters(m: Machine, opcode: Token, rt: Token, a: int, k: int)
    requires ImmediateArithmetic(opcode.kind) && IntRegisters(m.regs)
    ensures IntRegisters(ExecImmediate(m, opcode, rt, a, k).state.regs)
  {
    var op := opcode.kind;
    if op == Addi { WriteKeepsInt(m, rt, JavaInt.Wrap(a + k)); }
    else if op == Subi { WriteKeepsInt(m, rt, JavaInt.Wrap(a - k)); }
    else if op == Muli { WriteKeepsInt(m, rt, JavaInt.Wrap(a * k)); }
    else if op == Divi { if k != 0 { WriteKeepsInt(m, rt, JavaInt.Div(a, k)); } }
    else if op == Andi { WriteKeepsInt(m, rt, JavaInt.And(a, k)); }
    else if op == Ori { WriteKeepsInt(m, rt, JavaInt.Or(a, k)); }
    else if op == Xori { WriteKeepsInt(m, rt, JavaInt.Xor(a, k)); }
    else if op == Sll { WriteKeepsInt(m, rt, JavaInt.Wrap(JavaInt.Wrap(a * k) * 2)); }
    else if k != 0 { WriteKeepsInt(m, rt, JavaInt.Wrap(JavaInt.Div(a, k) * 2)); }
  }

  // ---------------------------------------------------------------------
  // Register-register arithmetic

  /**
   * add, sub, mul, div (by a non-zero value), and, or and xor write
   * `rs OP rt`, as a Java `int`, into `rd` and change nothing else.
   */
  lemma RegisterOpWrites(m: Machine, length: int, opcode: Token, rd: Token, rs: Token, rt: Token)
    requires RegisterArithmetic(opcode.kind) && (opcode.kind == Div ==> Read(m, rt) != 0)
    ensures var e := Exec(m, length, Rtype(opcode, rd, rs, rt));
      var a, b, v := Read(m, rs), Read(m, rt), Read(e.state, rd);
      && e.fault.None? && e.state.pc == m.pc && e.state.output == m.output
      && (forall other :: other != rd.lexeme ==> Lookup(e.state.regs, other) == Lookup(m.regs, other))
      && (opcode.kind == Add ==> v == JavaInt.Wrap(a + b))
      && (opcode.kind == Sub ==> v == JavaInt.Wrap(a - b))
      && (opcode.kind == Mul ==> v == JavaInt.Wrap(a * b))
      && (opcode.kind == Div ==> v == JavaInt.Div(a, b))
      && (opcode.kind == And ==> v == JavaInt.And(a, b))
      && (opcode.kind == Or ==> v == JavaInt.Or(a, b))
      && (opcode.kind == Xor ==> v == JavaInt.Xor(a, b))
  {
    var a, b := Read(m, rs), Read(m, rt);
    var op := opcode.kind;
    if op == Add { RegisterWrites(m, length, opcode, rd, rs, rt, JavaInt.Wrap(a + b)); }
    else if op == Sub { RegisterWrites(m, length, opcode, rd, rs, rt, JavaInt.Wrap(a - b)); }
    else if op == Mul { RegisterWrites(m, length, opcode, rd, rs, rt, JavaInt.Wrap(a * b)); }
    else if op == And { RegisterWrites(m, length, opcode, rd, rs, rt, JavaInt.And(a, b)); }
    else if op == Or { RegisterWrites(m, length, opcode, rd, rs, rt, JavaInt.Or(a, b)); }
    else if op == Xor { RegisterWrites(m, length, opcode, rd, rs, rt, JavaInt.Xor(a, b)); }
    else { RegisterWrites(m, length, opcode, rd, rs, rt, JavaInt.Div(a, b)); }
  }

  /** A register operation that writes `v` into `rd` and raises nothing. */
  lemma RegisterWrites(m: Machine, length: int, opcode: Token, rd: Token, rs: Token, rt: Token, v: int)
    requires ExecRegister(m, opcode, rd, Read(m, rs), Read(m, rt)) == Executed(Write(m, rd, v), None)
    ensures var e := Exec(m, length, Rtype(opcode, rd, rs, rt));
      && e.fault.None? && e.state.pc == m.pc && e.state.output == m.output && Read(e.state, rd) == v
      && (forall other :: other != rd.lexeme ==> Lookup(e.state.regs, other) == Lookup(m.regs, other))
  {
    WrittenAlone(m, rd, v);
  }

  /** `setRegValue(reg, v)`: `reg` reads `v` and every other register reads as before. */
  lemma WrittenAlone(m: Machine, reg: Token, v: int)
    ensures Read(Write(m, reg, v), reg) == v
    ensures forall other :: other != reg.lexeme ==> Lookup(Write(m, reg, v).regs, other) == Lookup(m.regs, other)
  {
    forall other | other != reg.lexeme
      ensures Lookup(Write(m, reg, v).regs, other) == Lookup(m.regs, other)
    {
      GetAfterAssign(m.regs, reg, v, other);
    }
    GetAfterAssign(m.regs, reg, v, reg.lexeme);
  }

  /** div and divi by zero raise DivisionByZero on the opcode and write nothing. */
  lemma DivisionByZeroRaises(m: Machine, length: int, i: Inst)
    requires WellFormed(i)
    requires || (i.Rtype? && i.opcode.kind == Div && Read(m, i.rt) == 0)
             || (i.Itype? && i.opcode.kind == Divi && i.imm.literal == Some(0))
    ensures Exec(m, length, i) == Executed(m, Some(Raised(RuntimeError(i.opcode, DivisionByZero))))
  {
  }

  // ---------------------------------------------------------------------
  // Register-immediate arithmetic

  /** addi, subi, muli and divi write `rs OP imm`, as a Java `int`, into `rt` and change nothing else. */
  lemma ImmediateArithmeticWrites(m: Machine, length: int, opcode: Token, rt: Token, rs: Token, imm: Token)
    requires HasIntLiteral(imm)
    requires opcode.kind == Addi || opcode.kind == Subi || opcode.kind == Muli || opcode.kind == Divi
    requires opcode.kind == Divi ==> imm.literal.value != 0
    ensures var e := Exec(m, length, Itype(opcode, rt, rs, imm));
      var a, k, v := Read(m, rs), imm.literal.value, Read(e.state, rt);
      && e.fault.None? && e.state.pc == m.pc && e.state.output == m.output
      && (forall other :: other != rt.lexeme ==> Lookup(e.state.regs, other) == Lookup(m.regs, other))
      && (opcode.kind == Addi ==> v == JavaInt.Wrap(a + k))
      && (opcode.kind == Subi ==> v == JavaInt.Wrap(a - k))
      && (opcode.kind == Muli ==> v == JavaInt.Wrap(a * k))
      && (opcode.kind == Divi ==> v == JavaInt.Div(a, k))
  {
    var a, k := Read(m, rs), imm.literal.value;
    var op := opcode.kind;
    assert Exec(m, length, Itype(opcode, rt, rs, imm)) == ExecImmediate(m, opcode, rt, a, k);
    if op == Addi { ImmediateWrites(m, length, opcode, rt, rs, imm, JavaInt.Wrap(a + k)); }
    else if op == Subi { ImmediateWrites(m, length, opcode, rt, rs, imm, JavaInt.Wrap(a - k)); }
    else if op == Muli { ImmediateWrites(m, length, opcode, rt, rs, imm, JavaInt.Wrap(a * k)); }
    else { ImmediateWrites(m, length, opcode, rt, rs, imm, JavaInt.Div(a, k)); }
  }

  /** andi, ori and xori write `rs OP imm` into `rt` and change nothing else. */
  lemma ImmediateBitwiseWrites(m: Machine, length: int, opcode: Token, rt: Token, rs: Token, imm: Token)
    requires HasIntLiteral(imm) && (opcode.kind == Andi || opcode.kind == Ori || opcode.kind == Xori)
    ensures var e := Exec(m, length, Itype(opcode, rt, rs, imm));
      var a, k, v := Read(m, rs), imm.literal.value, Read(e.state, rt);
      && e.fault.None? && e.state.pc == m.pc && e.state.output == m.output
      && (forall other :: other != rt.lexeme ==> Lookup(e.state.regs, other) == Lookup(m.regs, other))
      && (opcode.kind == Andi ==> v == JavaInt.And(a, k))
      && (opcode.kind == Ori ==> v == JavaInt.Or(a, k))
      && (opcode.kind == Xori ==> v == JavaInt.Xor(a, k))
  {
    var a, k := Read(m, rs), imm.literal.value;
    var op := opcode.kind;
    assert Exec(m, length, Itype(opcode, rt, rs, imm)) == ExecImmediate(m, opcode, rt, a, k);
    if op == Andi { ImmediateWrites(m, length, opcode, rt, rs, imm, JavaInt.And(a, k)); }
    else if op == Ori { ImmediateWrites(m, length, opcode, rt, rs, imm, JavaInt.Or(a, k)); }
    else { ImmediateWrites(m, length, opcode, rt, rs, imm, JavaInt.Xor(a, k)); }
  }

  /**
   * sll and srl do not shift: they write `(rs * imm) * 2` and `(rs / imm) * 2`
   * into `rt`, and change nothing else.
   */
  lemma ShiftWrites(m: Machine, length: int, opcode: Token, rt: Token, rs: Token, imm: Token)
    requires HasIntLiteral(imm) && (opcode.kind == Sll || opcode.kind == Srl)
    requires opcode.kind == Srl ==> imm.literal.value != 0
    ensures var e := Exec(m, length, Itype(opcode, rt, rs, imm));
      var a, k, v := Read(m, rs), imm.literal.value, Read(e.state, rt);
      && e.fault.None? && e.state.pc == m.pc && e.state.output == m.output
      && (forall other :: other != rt.lexeme ==> Lookup(e.state.regs, other) == Lookup(m.regs, other))
      && (opcode.kind == Sll ==> v == JavaInt.Wrap(JavaInt.Wrap(a * k) * 2))
      && (opcode.kind == Srl ==> v == JavaInt.Wrap(JavaInt.Div(a, k) * 2))
  {
    var a, k := Read(m, rs), imm.literal.value;
    assert Exec(m, length, Itype(opcode, rt, rs, imm)) == ExecImmediate(m, opcode, rt, a, k);
    if opcode.kind == Sll { ImmediateWrites(m, length, opcode, rt, rs, imm, JavaInt.Wrap(JavaInt.Wrap(a * k) * 2)); }
    else { ImmediateWrites(m, length, opcode, rt, rs, imm, JavaInt.Wrap(JavaInt.Div(a, k) * 2)); }
  }

  /** An immediate operation that writes `v` into `rt` and raises nothing. */
  lemma ImmediateWrites(m: Machine, length: int, opcode: Token, rt: Token, rs: Token, imm: Token, v: int)
    requires HasIntLiteral(imm) && ImmediateArithmetic(opcode.kind)
    requires ExecImmediate(m, opcode, rt, Read(m, rs), imm.literal.value) == Executed(Write(m, rt, v), None)
    ensures var e := Exec(m, length, Itype(opcode, rt, rs, imm));
      && e.fault.None? && e.state.pc == m.pc && e.state.output == m.output && Read(e.state, rt) == v
      && (forall other :: other != rt.lexeme ==> Lookup(e.state.regs, other) == Lookup(m.regs, other))
  {
    WrittenAlone(m, rt, v);
  }

  /** srl by zero is not a `RuntimeError`: it is an `ArithmeticException` that ends the program. */
  lemma ShiftRightByZeroCrashes(m: Machine, length: int, opcode: Token, rt: Token, rs: Token, imm: Token)
    requires opcode.kind == Srl && imm.literal == Some(0)
    ensures Exec(m, length, Itype(opcode, rt, rs, imm)) == Executed(m, Some(ArithmeticCrash(opcode)))
  {
  }

  /** lw and sw are parsed but do nothing, like a register opcode the interpreter does not know. */
  lemma IgnoredOpcodes(m: Machine, length: int, i: Inst)
    requires WellFormed(i)
    requires (i.Itype? && (i.opcode.kind == Lw || i.opcode.kind == Sw)) || (i.Rtype? && !RegisterArithmetic(i.opcode.kind))
    ensures Exec(m, length, i) == Executed(m, None)
  {
  }

  // ---------------------------------------------------------------------
  // Control flow

  /** A `pc + offset` past the largest `int` wraps to a negative value below -1. */
  lemma WrapPastMax(x: int)
    requires JavaInt.MAX < x < JavaInt.MODULUS - 2
    ensures JavaInt.Wrap(x) == x - JavaInt.MODULUS && JavaInt.Wrap(x) < -1
  {
    assert x % JavaInt.MODULUS == x;
  }

  /** An `address - 2` below the smallest `int` wraps to a value at least `MAX - 1`. */
  lemma WrapBelowMin(x: int)
    requires JavaInt.MIN - 2 <= x < JavaInt.MIN
    ensures JavaInt.Wrap(x) == x + JavaInt.MODULUS && JavaInt.Wrap(x) >= JavaInt.MAX - 1
  {
    assert x % JavaInt.MODULUS == x + JavaInt.MODULUS;
  }

  /**
   * A branch never changes a register or the output. When its relation
   * holds on `rs` and `rt` it adds the offset to `pc` and faults exactly when
   * the target is outside `[-1, length - 1]`; otherwise it does nothing.
   * The 32-bit wrap of `pc += imm` can never make a bad target look good.
   */
  lemma BranchSemantics(m: Machine, length: int, opcode: Token, rt: Token, rs: Token, imm: Token)
    requires IsBranch(opcode.kind) && HasIntLiteral(imm)
    requires 0 <= m.pc < length < JavaInt.MAX
    ensures var e := Exec(m, length, Itype(opcode, rt, rs, imm));
      var k := imm.literal.value;
      var taken := BranchTaken(opcode.kind, Read(m, rs), Read(m, rt));
      && e.state.regs == m.regs && e.state.output == m.output
      && (!taken ==> e == Executed(m, None))
      && (taken ==> (e.fault.Some? <==> !(-1 <= m.pc + k < length)))
      && (taken && e.fault.None? ==> e.state.pc == m.pc + k)
      && (e.fault.Some? ==> e.fault.value == Raised(RuntimeError(opcode, InvalidAddress)))
  {
    var x := m.pc + imm.literal.value;
    if x > JavaInt.MAX {
      WrapPastMax(x);
    }
  }

  /** Each branch opcode tests its relation on the values of `rs` and `rt`, in that order. */
  lemma BranchRelations(kind: TokenType, a: int, b: int)
    ensures kind == Beq ==> (BranchTaken(kind, a, b) <==> a == b)
    ensures kind == Bnq ==> (BranchTaken(kind, a, b) <==> a != b)
    ensures kind == Bgt ==> (BranchTaken(kind, a, b) <==> a > b)
    ensures kind == Bge ==> (BranchTaken(kind, a, b) <==> a >= b)
    ensures kind == Blt ==> (BranchTaken(kind, a, b) <==> a < b)
    ensures kind == Ble ==> (BranchTaken(kind, a, b) <==> a <= b)
    ensures !IsBranch(kind) ==> !BranchTaken(kind, a, b)
  {
  }

  /**
   * `j n` sets `pc` to `n - 2` so that the loop's `pc++` resumes at the
   * 1-based instruction `n - 1`; the accepted addresses are exactly `1 .. length + 1`.
   */
  lemma JumpSemantics(m: Machine, length: int, opcode: Token, address: Token)
    requires HasIntLiteral(address) && 0 <= length < JavaInt.MAX
    ensures var e := Exec(m, length, Jtype(opcode, address));
      var n := address.literal.value;
      && e.state.regs == m.regs && e.state.output == m.output
      && (e.fault.None? <==> 1 <= n <= length + 1)
      && (e.fault.None? ==> e.state.pc == n - 2)
      && (e.fault.Some? ==> e.fault.value == Raised(RuntimeError(opcode, InvalidJumpAddress)))
  {
    var x := address.literal.value - 2;
    if x < JavaInt.MIN {
      WrapBelowMin(x);
    }
  }

  /** `j 1` restarts the program at its first instruction. */
  lemma JumpToOneRestarts(prog: seq<Inst>, m: Machine, fuel: nat)
    requires Program(prog) && 0 <= m.pc < |prog| < JavaInt.MAX && fuel > 0
    requires prog[m.pc].Jtype? && prog[m.pc].address.literal == Some(1)
    ensures RunFrom(prog, m, fuel) == RunFrom(prog, m.(pc := 0), fuel - 1)
  {
    JumpSemantics(m, |prog|, prog[m.pc].opcode, prog[m.pc].address);
    StepContinues(prog, m, fuel, m.(pc := -1));
  }

  // ---------------------------------------------------------------------
  // swap and print

  /** swap exchanges `rs` and `rt` and leaves every other register alone. */
  lemma SwapExchanges(m: Machine, length: int, opcode: Token, rt: Token, rs: Token, imm: Token)
    requires opcode.kind == Swap && HasIntLiteral(imm)
    ensures var e := Exec(m, length, Itype(opcode, rt, rs, imm));
      && e.fault.None? && e.state.pc == m.pc && e.state.output == m.output
      && Read(e.state, rt) == Read(m, rs) && Read(e.state, rs) == Read(m, rt)
      && (forall other :: other != rs.lexeme && other != rt.lexeme ==>
            Lookup(e.state.regs, other) == Lookup(m.regs, other))
  {
    var e := Exec(m, length, Itype(opcode, rt, rs, imm));
    var m1 := Write(m, rt, Read(m, rs));
    assert e.state == Write(m1, rs, Read(m, rt));
    GetAfterAssign(m.regs, rt, Read(m, rs), rs.lexeme);
    GetAfterAssign(m1.regs, rs, Read(m, rt), rt.lexeme);
    forall other | other != rs.lexeme && other != rt.lexeme
      ensures Lookup(e.state.regs, other) == Lookup(m.regs, other)
    {
      GetAfterAssign(m.regs, rt, Read(m, rs), other);
      GetAfterAssign(m1.regs, rs, Read(m, rt), other);
    }
  }

  /** A register swapped with itself reads as it did. */
  lemma SelfSwapChangesNothing(m: Machine, length: int, opcode: Token, rt: Token, rs: Token, imm: Token)
    requires opcode.kind == Swap && HasIntLiteral(imm) && rs.lexeme == rt.lexeme
    ensures var e := Exec(m, length, Itype(opcode, rt, rs, imm));
      forall name :: Lookup(e.state.regs, name) == Lookup(m.regs, name)
  {
    SwapExchanges(m, length, opcode, rt, rs, imm);
  }

  /** print appends the value of `rd` (0 if never written) to the output and changes nothing else. */
  lemma PrintEmits(m: Machine, length: int, rd: Token)
    ensures var e := Exec(m, length, Inst.Print(rd));
      && e.fault.None? && e.state.regs == m.regs && e.state.pc == m.pc
      && e.state.output == m.output + [Read(m, rd)]
      && (rd.lexeme !in m.regs ==> e.state.output == m.output + [0])
  {
  }

  // ---------------------------------------------------------------------
  // Whole runs

  /** A run stores only `int` values. */
  lemma {:induction false} RunKeepsIntRegisters(prog: seq<Inst>, m: Machine, fuel: nat)
    requires Program(prog) && 0 <= m.pc && IntRegisters(m.regs)
    ensures IntRegisters(RunFrom(prog, m, fuel).state.regs)
    decreases fuel, 1
  {
    if m.pc < |prog| && fuel > 0 {
      StepTaken(prog, m, fuel);
      ExecKeepsIntRegisters(m, |prog|, prog[m.pc]);
      AfterKeepsIntRegisters(prog, fuel, Exec(m, |prog|, prog[m.pc]));
    }
  }

  lemma {:induction false} AfterKeepsIntRegisters(prog: seq<Inst>, fuel: nat, e: Executed)
    requires Program(prog) && fuel > 0 && (e.fault.None? ==> -1 <= e.state.pc) && IntRegisters(e.state.regs)
    ensures IntRegisters(RunAfter(prog, fuel, e).state.regs)
    decreases fuel, 0
  {
    if e.fault.None? {
      RunKeepsIntRegisters(prog, e.state.(pc := e.state.pc + 1), fuel - 1);
    }
  }

  /** A faulting instruction writes no register and prints nothing. */
  lemma FaultWritesNothing(m: Machine, length: int, i: Inst)
    requires WellFormed(i)
    ensures var e := Exec(m, length, i);
      e.fault.Some? ==> e.state.regs == m.regs && e.state.output == m.output
  {
    var e := Exec(m, length, i);
    match i
    case Rtype(opcode, rd, rs, rt) =>
      assert e == ExecRegister(m, opcode, rd, Read(m, rs), Read(m, rt));
    case Itype(opcode, rt, rs, imm) =>
      assert e == ExecItype(m, length, opcode, rt, rs, imm);
      if ImmediateArithmetic(opcode.kind) {
        assert e == ExecImmediate(m, opcode, rt, Read(m, rs), imm.literal.value);
      }
    case Jtype(_, _) =>
    case Print(_) =>
  }

  /**
   * A fault ends the run at once, and the registers and output it ends with
   * are those from before the faulting instruction, every earlier write included.
   */
  lemma FaultEndsRun(prog: seq<Inst>, m: Machine, fuel: nat)
    requires Program(prog) && 0 <= m.pc < |prog| && fuel > 0
    requires Exec(m, |prog|, prog[m.pc]).fault.Some?
    ensures var f := RunFrom(prog, m, fuel);
      && f.outcome == Halted(Exec(m, |prog|, prog[m.pc]).fault.value)
      && f.state.regs == m.regs && f.state.output == m.output
  {
    var e := Exec(m, |prog|, prog[m.pc]);
    FaultWritesNothing(m, |prog|, prog[m.pc]);
    StepHalts(prog, m, fuel, e.state, e.fault.value);
  }

  /** Output is only ever appended to: what was printed before the run stays printed. */
  lemma {:induction false} RunExtendsOutput(prog: seq<Inst>, m: Machine, fuel: nat)
    requires Program(prog) && 0 <= m.pc
    ensures var out := RunFrom(prog, m, fuel).state.output;
      |m.output| <= |out| && out[..|m.output|] == m.output
    decreases fuel, 1
  {
    if m.pc < |prog| && fuel > 0 {
      var e := Exec(m, |prog|, prog[m.pc]);
      StepTaken(prog, m, fuel);
      ExecExtendsOutput(m, |prog|, prog[m.pc]);
      AfterExtendsOutput(prog, fuel, e);
      var out := RunFrom(prog, m, fuel).state.output;
      assert out[..|e.state.output|][..|m.output|] == out[..|m.output|];
    }
  }

  lemma {:induction false} AfterExtendsOutput(prog: seq<Inst>, fuel: nat, e: Executed)
    requires Program(prog) && fuel > 0 && (e.fault.None? ==> -1 <= e.state.pc)
    ensures var out := RunAfter(prog, fuel, e).state.output;
      |e.state.output| <= |out| && out[..|e.state.output|] == e.state.output
    decreases fuel, 0
  {
    if e.fault.None? {
      RunExtendsOutput(prog, e.state.(pc := e.state.pc + 1), fuel - 1);
    }
  }

  lemma ExecExtendsOutput(m: Machine, length: int, i: Inst)
    requires WellFormed(i)
    ensures var out := Exec(m, length, i).state.output;
      |m.output| <= |out| && out[..|m.output|] == m.output
  {
  }

  /**
   * More fuel never changes a run that ended: in particular a fault ends the
   * run for good, and no later instruction executes.
   */
  lemma {:induction false} FuelMonotone(prog: seq<Inst>, m: Machine, fuel: nat, extra: nat)
    requires Program(prog) && 0 <= m.pc
    requires RunFrom(prog, m, fuel).outcome != OutOfFuel
    ensures RunFrom(prog, m, fuel + extra) == RunFrom(prog, m, fuel)
    decreases fuel, 1
  {
    if m.pc < |prog| {
      StepTaken(prog, m, fuel);
      StepTaken(prog, m, fuel + extra);
      AfterFuelMonotone(prog, fuel, extra, Exec(m, |prog|, prog[m.pc]));
    }
  }

  lemma {:induction false} AfterFuelMonotone(prog: seq<Inst>, fuel: nat, extra: nat, e: Executed)
    requires Program(prog) && fuel > 0 && (e.fault.None? ==> -1 <= e.state.pc)
    requires RunAfter(prog, fuel, e).outcome != OutOfFuel
    ensures RunAfter(prog, fuel + extra, e) == RunAfter(prog, fuel, e)
    decreases fuel, 0
  {
    if e.fault.None? {
      FuelMonotone(prog, e.state.(pc := e.state.pc + 1), fuel - 1, extra);
    }
  }

  /** A completed run stops exactly at `pc == length`; one cut short by the budget is inside the program. */
  lemma {:induction false} RunEndsAtLength(prog: seq<Inst>, m: Machine, fuel: nat)
    requires Program(prog) && 0 <= m.pc <= |prog|
    ensures RunFrom(prog, m, fuel).outcome == Completed ==> RunFrom(prog, m, fuel).state.pc == |prog|
    ensures RunFrom(prog, m, fuel).outcome == OutOfFuel ==> 0 <= RunFrom(prog, m, fuel).state.pc < |prog|
    decreases fuel, 1
  {
    if m.pc < |prog| && fuel > 0 {
      StepTaken(prog, m, fuel);
      AfterEndsAtLength(prog, fuel, Exec(m, |prog|, prog[m.pc]));
    }
  }

  lemma {:induction false} AfterEndsAtLength(prog: seq<Inst>, fuel: nat, e: Executed)
    requires Program(prog) && fuel > 0 && (e.fault.None? ==> -1 <= e.state.pc < |prog|)
    ensures RunAfter(prog, fuel, e).outcome == Completed ==> RunAfter(prog, fuel, e).state.pc == |prog|
    ensures RunAfter(prog, fuel, e).outcome == OutOfFuel ==> 0 <= RunAfter(prog, fuel, e).state.pc < |prog|
    decreases fuel, 0
  {
    if e.fault.None? {
      RunEndsAtLength(prog, e.state.(pc := e.state.pc + 1), fuel - 1);
    }
  }

  // ---------------------------------------------------------------------
  // Examples

  /** A token as the scanner makes it, on line 1. */
  function Tok(kind: TokenType, lexeme: string, literal: Option<int>): Token {
    Token(kind, lexeme, literal, 1)
  }

  /** `addi $t0,$t1,5; print $t0;` prints 5 on an empty store: an unwritten `t1` reads as 0. */
  lemma AddImmediateThenPrint(fuel: nat)
    requires fuel >= 2
    ensures var prog := [Itype(Tok(Addi, "addi", None), Tok(Register, "t0", None), Tok(Register, "t1", None),
                               Tok(Number, "5", Some(5))),
                         Inst.Print(Tok(Register, "t0", None))];
      RunFrom(prog, Machine(map[], 0, []), fuel) == Final(Machine(map["t0" := 5], 2, [5]), Completed)
  {
    var t0 := Tok(Register, "t0", None);
    var prog := [Itype(Tok(Addi, "addi", None), t0, Tok(Register, "t1", None), Tok(Number, "5", Some(5))),
                 Inst.Print(t0)];
    var m1 := Machine(map["t0" := 5], 0, []);
    assert Exec(Machine(map[], 0, []), 2, prog[0]) == Executed(m1, None);
    var m2 := Machine(map["t0" := 5], 1, [5]);
    assert Exec(m1.(pc := 1), 2, prog[1]) == Executed(m2, None);
    StepContinues(prog, Machine(map[], 0, []), fuel, m1);
    StepContinues(prog, m1.(pc := 1), fuel - 1, m2);
  }

  /** `beq $t0,$t0,-1;` branches to itself forever: no budget is ever enough. */
  lemma {:induction false} BranchToSelfNeverEnds(regs: map<string, int>, output: seq<int>, fuel: nat)
    ensures var t0 := Tok(Register, "t0", None);
      var prog := [Itype(Tok(Beq, "beq", None), t0, t0, Tok(Number, "1", Some(-1)))];
      RunFrom(prog, Machine(regs, 0, output), fuel) == Final(Machine(regs, 0, output), OutOfFuel)
  {
    var t0 := Tok(Register, "t0", None);
    var prog := [Itype(Tok(Beq, "beq", None), t0, t0, Tok(Number, "1", Some(-1)))];
    var m := Machine(regs, 0, output);
    if fuel > 0 {
      assert Exec(m, 1, prog[0]) == Executed(m.(pc := -1), None);
      StepContinues(prog, m, fuel, m.(pc := -1));
      BranchToSelfNeverEnds(regs, output, fuel - 1);
    }
  }
}
