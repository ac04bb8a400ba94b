/**
 * Properties of the parser model: the grammar of each statement form, the
 * operand wiring of the instruction built, the print fallback, and the
 * coarse error recovery that leaves at most one error per parse.
 */
module ParserProperties {
  import opened Wrappers
  import opened Tokens
  import opened Errors
  import opened Instructions
  import opened Parsing
  import JavaInt

  // ---------------------------------------------------------------------
  // The grammar, written out token by token

  /** The token at `i` exists and has the category `kind`. */
  predicate At(toks: seq<Token>, i: nat, kind: TokenType) {
    i < |toks| && toks[i].kind == kind
  }

  /** `REGISTER , REGISTER , REGISTER ;` from `i`. */
  predicate ThreeRegisters(toks: seq<Token>, i: nat) {
    && At(toks, i, Register) && At(toks, i + 1, Comma) && At(toks, i + 2, Register)
    && At(toks, i + 3, Comma) && At(toks, i + 4, Register) && At(toks, i + 5, Semicolon)
  }

  /** `REGISTER , REGISTER ,` from `i`. */
  predicate TwoRegisters(toks: seq<Token>, i: nat) {
    At(toks, i, Register) && At(toks, i + 1, Comma) && At(toks, i + 2, Register) && At(toks, i + 3, Comma)
  }

  /** `NUMBER ;` or `- NUMBER ;` from `i`. */
  predicate SignedLiteral(toks: seq<Token>, i: nat) {
    || (At(toks, i, Number) && At(toks, i + 1, Semicolon))
    || (At(toks, i, Minus) && At(toks, i + 1, Number) && At(toks, i + 2, Semicolon))
  }

  /** `print REGISTER ;` or `REGISTER ;` from `i`. */
  predicate PrintOperand(toks: seq<Token>, i: nat) {
    || (At(toks, i, TokenType.Print) && At(toks, i + 1, Register) && At(toks, i + 2, Semicolon))
    || (At(toks, i, Register) && At(toks, i + 1, Semicolon))
  }

  /** An opcode that starts none of the four explicit forms. */
  predicate FallsThrough(kind: TokenType) {
    kind !in RegisterOps && kind !in ImmediateOps && kind !in BranchOps && kind != J
  }

  // ---------------------------------------------------------------------
  // The statement forms

  /**
   * `[-] NUMBER ;` is read exactly when it is there; the number keeps its
   * lexeme, and after a minus its literal is the negated value.
   */
  lemma SignedNumberShape(toks: seq<Token>, cur: nat, message: Message)
    requires Parsable(toks) && cur < |toks|
    ensures SignedNumber(toks, cur, message).Success? <==> SignedLiteral(toks, cur)
    ensures At(toks, cur, Number) && At(toks, cur + 1, Semicolon) ==>
      SignedNumber(toks, cur, message) == Success((toks[cur], cur + 2))
    ensures At(toks, cur, Minus) && At(toks, cur + 1, Number) && At(toks, cur + 2, Semicolon) ==>
      var n := toks[cur + 1];
      var r := SignedNumber(toks, cur, message);
      && r.Success? && r.value.1 == cur + 3
      && r.value.0.kind == Number && r.value.0.lexeme == n.lexeme && r.value.0.line == n.line
      && r.value.0.literal.Some?
      && (n.literal.value != JavaInt.MIN ==> r.value.0.literal.value == -n.literal.value)
      && (n.literal.value == JavaInt.MIN ==> r.value.0.literal.value == JavaInt.MIN)
  {
    SignedNumberSucceeds(toks, cur, message);
    if At(toks, cur, Minus) && At(toks, cur + 1, Number) {
      assert HasIntLiteral(toks[cur + 1]);
    }
  }

  /** `[-] NUMBER ;` is read exactly when it is there. */
  lemma SignedNumberSucceeds(toks: seq<Token>, cur: nat, message: Message)
    requires Parsable(toks) && cur < |toks|
    ensures SignedNumber(toks, cur, message).Success? <==> SignedLiteral(toks, cur)
  {
  }

  /** The statement at `cur` is the form its leading token selects. */
  lemma StatementByForm(toks: seq<Token>, cur: nat)
    requires Parsable(toks) && cur < |toks| && !AtEnd(toks, cur)
    ensures cur + 1 < |toks|
    ensures FormOf(toks[cur].kind) == RForm ==> Statement(toks, cur) == RegisterForm(toks, cur)
    ensures FormOf(toks[cur].kind) == IForm ==>
      Statement(toks, cur)
        == TwoRegisterForm(toks, cur, ExpectSource, ExpectDestination, ExpectImmediate)
    ensures FormOf(toks[cur].kind) == BranchForm ==>
      Statement(toks, cur)
        == TwoRegisterForm(toks, cur, ExpectFirstSource, ExpectSecondSource, RelativeAddress)
    ensures FormOf(toks[cur].kind) == JForm ==> Statement(toks, cur) == JumpForm(toks, cur)
    ensures FormOf(toks[cur].kind) == PrintFallback ==> Statement(toks, cur) == PrintForm(toks, cur)
  {
  }

  /** `REGISTER ,` is read exactly when it is there. */
  lemma OperandShape(toks: seq<Token>, cur: nat, message: Message)
    requires Terminated(toks) && cur < |toks|
    ensures OperandAt(toks, cur, message).Success? <==> At(toks, cur, Register) && At(toks, cur + 1, Comma)
  {
  }

  /** The register operands after the opcode at `cur`: `op R1 , R2 , R3 ;` gives `Rtype(op, R1, R2, R3)`. */
  lemma RegisterFormShape(toks: seq<Token>, cur: nat)
    requires Parsable(toks) && cur + 1 < |toks|
    ensures RegisterForm(toks, cur).Success? <==> ThreeRegisters(toks, cur + 1)
    ensures ThreeRegisters(toks, cur + 1) ==>
      RegisterForm(toks, cur) == Success((Rtype(toks[cur], toks[cur + 1], toks[cur + 3], toks[cur + 5]), cur + 7))
  {
    OperandShape(toks, cur + 1, ExpectFirstSource);
    if OperandAt(toks, cur + 1, ExpectFirstSource).Success? {
      OperandShape(toks, cur + 3, ExpectSecondSource);
    }
  }

  /** `op R1 , R2 , R3 ;` with `op` a register opcode gives `Rtype(op, R1, R2, R3)`: `R1` is the destination. */
  lemma RegisterStatementShape(toks: seq<Token>, cur: nat)
    requires Parsable(toks) && cur < |toks| && toks[cur].kind in RegisterOps
    ensures !AtEnd(toks, cur)
    ensures Statement(toks, cur).Success? <==> ThreeRegisters(toks, cur + 1)
    ensures ThreeRegisters(toks, cur + 1) ==>
      Statement(toks, cur) == Success((Rtype(toks[cur], toks[cur + 1], toks[cur + 3], toks[cur + 5]), cur + 7))
  {
    assert toks[cur].kind != Eof && FormOf(toks[cur].kind) == RForm;
    StatementByForm(toks, cur);
    RegisterFormShape(toks, cur);
  }

  /** The operands shared by the immediate and branch forms. */
  lemma TwoRegisterFormShape(toks: seq<Token>, cur: nat, first: Message, second: Message, number: Message)
    requires Parsable(toks) && cur + 1 < |toks|
    ensures TwoRegisterForm(toks, cur, first, second, number).Success?
        <==> TwoRegisters(toks, cur + 1) && SignedLiteral(toks, cur + 5)
    ensures TwoRegisterForm(toks, cur, first, second, number).Success? ==>
      var tail := SignedNumber(toks, cur + 5, number);
      TwoRegisterForm(toks, cur, first, second, number)
        == Success((Itype(toks[cur], toks[cur + 1], toks[cur + 3], tail.value.0), tail.value.1))
  {
    TwoRegisterFormSucceeds(toks, cur, first, second, number);
  }

  lemma TwoRegisterFormSucceeds(toks: seq<Token>, cur: nat, first: Message, second: Message, number: Message)
    requires Parsable(toks) && cur + 1 < |toks|
    ensures TwoRegisterForm(toks, cur, first, second, number).Success?
        <==> TwoRegisters(toks, cur + 1) && SignedLiteral(toks, cur + 5)
  {
    OperandShape(toks, cur + 1, first);
    if OperandAt(toks, cur + 1, first).Success? {
      OperandShape(toks, cur + 3, second);
      if OperandAt(toks, cur + 3, second).Success? {
        SignedNumberSucceeds(toks, cur + 5, number);
      }
    }
  }

  /**
   * `op R1 , R2 , [-] N ;` with `op` an immediate opcode gives
   * `Itype(op, R1, R2, imm)`: `R1` is the `rt` the result is written to.
   */
  lemma ImmediateStatementShape(toks: seq<Token>, cur: nat)
    requires Parsable(toks) && cur < |toks| && toks[cur].kind in ImmediateOps
    ensures !AtEnd(toks, cur)
    ensures Statement(toks, cur).Success? <==> TwoRegisters(toks, cur + 1) && SignedLiteral(toks, cur + 5)
    ensures Statement(toks, cur).Success? ==>
      var tail := SignedNumber(toks, cur + 5, ExpectImmediate);
      Statement(toks, cur) == Success((Itype(toks[cur], toks[cur + 1], toks[cur + 3], tail.value.0), tail.value.1))
  {
    assert toks[cur].kind != Eof && FormOf(toks[cur].kind) == IForm;
    StatementByForm(toks, cur);
    TwoRegisterFormShape(toks, cur, ExpectSource, ExpectDestination, ExpectImmediate);
  }

  /** Branches have the immediate form's shape: `op R1 , R2 , [-] N ;` gives `Itype(op, R1, R2, offset)`. */
  lemma BranchStatementShape(toks: seq<Token>, cur: nat)
    requires Parsable(toks) && cur < |toks| && toks[cur].kind in BranchOps
    ensures !AtEnd(toks, cur)
    ensures Statement(toks, cur).Success? <==> TwoRegisters(toks, cur + 1) && SignedLiteral(toks, cur + 5)
    ensures Statement(toks, cur).Success? ==>
      var tail := SignedNumber(toks, cur + 5, RelativeAddress);
      Statement(toks, cur) == Success((Itype(toks[cur], toks[cur + 1], toks[cur + 3], tail.value.0), tail.value.1))
  {
    assert toks[cur].kind != Eof && FormOf(toks[cur].kind) == BranchForm;
    StatementByForm(toks, cur);
    TwoRegisterFormShape(toks, cur, ExpectFirstSource, ExpectSecondSource, RelativeAddress);
  }

  /** `j [-] N ;` gives `Jtype(j, address)`. */
  lemma JumpStatementShape(toks: seq<Token>, cur: nat)
    requires Parsable(toks) && cur < |toks| && toks[cur].kind == J
    ensures !AtEnd(toks, cur)
    ensures Statement(toks, cur).Success? <==> SignedLiteral(toks, cur + 1)
    ensures Statement(toks, cur).Success? ==>
      var tail := SignedNumber(toks, cur + 1, AbsoluteAddress);
      Statement(toks, cur) == Success((Jtype(toks[cur], tail.value.0), tail.value.1))
  {
    SignedNumberShape(toks, cur + 1, AbsoluteAddress);
  }

  /** Any other leading token is the print form: an optional `print`, a register and `;`. */
  lemma PrintStatementShape(toks: seq<Token>, cur: nat)
    requires Parsable(toks) && cur < |toks| && !AtEnd(toks, cur) && FallsThrough(toks[cur].kind)
    ensures Statement(toks, cur).Success? <==> PrintOperand(toks, cur)
    ensures At(toks, cur, Register) && At(toks, cur + 1, Semicolon) ==>
      Statement(toks, cur) == Success((Inst.Print(toks[cur]), cur + 2))
    ensures At(toks, cur, TokenType.Print) && At(toks, cur + 1, Register) && At(toks, cur + 2, Semicolon) ==>
      Statement(toks, cur) == Success((Inst.Print(toks[cur + 1]), cur + 3))
  {
  }

  /** A statement that starts with an identifier fails at once, reported at that token. */
  lemma IdentifierStatementFails(toks: seq<Token>, cur: nat)
    requires Parsable(toks) && cur < |toks| && toks[cur].kind == Identifier
    ensures !AtEnd(toks, cur)
    ensures Statement(toks, cur) == Failure(ParseError(toks[cur], ExpectRegister, cur))
  {
    assert FallsThrough(Identifier);
  }

  /** Every instruction a statement yields carries the `int` literals the interpreter reads. */
  lemma StatementWellFormed(toks: seq<Token>, cur: nat)
    requires Parsable(toks) && cur < |toks| && !AtEnd(toks, cur)
    ensures Statement(toks, cur).Success? ==> WellFormed(Statement(toks, cur).value.0)
  {
    var kind := toks[cur].kind;
    if kind in RegisterOps {
      RegisterStatementShape(toks, cur);
    } else if kind in ImmediateOps {
      ImmediateStatementShape(toks, cur);
      if Statement(toks, cur).Success? {
        SignedWellFormed(toks, cur + 5, ExpectImmediate);
      }
    } else if kind in BranchOps {
      BranchStatementShape(toks, cur);
      if Statement(toks, cur).Success? {
        SignedWellFormed(toks, cur + 5, RelativeAddress);
      }
    } else if kind == J {
      JumpStatementShape(toks, cur);
      if Statement(toks, cur).Success? {
        SignedWellFormed(toks, cur + 1, AbsoluteAddress);
      }
    }
  }

  lemma SignedWellFormed(toks: seq<Token>, cur: nat, message: Message)
    requires Parsable(toks) && cur < |toks|
    ensures SignedNumber(toks, cur, message).Success? ==> HasIntLiteral(SignedNumber(toks, cur, message).value.0)
  {
    if Matches(toks, cur, Minus) {
      if At(toks, cur + 1, Number) {
        assert HasIntLiteral(toks[cur + 1]);
      }
    } else if At(toks, cur, Number) {
      assert HasIntLiteral(toks[cur]);
    }
  }

  // ---------------------------------------------------------------------
  // The whole parse

  /** Whether every slot of the instruction list holds an instruction. */
  predicate AllPresent(insts: seq<Option<Inst>>) {
    forall i :: 0 <= i < |insts| ==> insts[i].Some?
  }

  /**
   * `synchronize` skips to the end-of-input token, so a parse has at most one
   * error; there is one exactly when some slot is null, and that slot is the last.
   */
  predicate AtMostOneError(p: Parsed) {
    && |p.errors| <= 1
    && (p.errors == [] <==> AllPresent(p.instructions))
    && (p.errors != [] ==>
          |p.instructions| > 0 && p.instructions[|p.instructions| - 1] == None
          && AllPresent(p.instructions[..|p.instructions| - 1]))
  }

  lemma {:induction false} ParseAtMostOneError(toks: seq<Token>, cur: nat)
    requires Parsable(toks) && cur < |toks|
    ensures AtMostOneError(ParseFrom(toks, cur))
    decreases |toks| - cur, 1
  {
    if !AtEnd(toks, cur) {
      AfterAtMostOneError(toks, cur, Statement(toks, cur));
    }
  }

  lemma {:induction false} AfterAtMostOneError(toks: seq<Token>, cur: nat, r: Result<(Inst, nat), ParseError>)
    requires Parsable(toks) && cur < |toks| && Advances(toks, cur, r)
    ensures AtMostOneError(ParseAfter(toks, cur, r))
    decreases |toks| - cur, 0
  {
    var next := Resume(toks, cur, r);
    var rest := ParseFrom(toks, next);
    var p := ParseAfter(toks, cur, r);
    if r.Success? {
      ParseAtMostOneError(toks, next);
      assert p.errors == rest.errors;
      PresentAfterSome(r.value.0, rest.instructions);
      if rest.errors != [] {
        assert p.instructions[..|p.instructions| - 1] == [Some(r.value.0)] + rest.instructions[..|rest.instructions| - 1];
        PresentAfterSome(r.value.0, rest.instructions[..|rest.instructions| - 1]);
      }
    } else {
      assert AtEnd(toks, next);
      assert rest == Parsed([], []);
      assert p.instructions == [None] && p.instructions[0] == None;
      assert p.errors == [SyntaxError(r.error.token, r.error.message)];
    }
  }

  lemma PresentAfterSome(inst: Inst, insts: seq<Option<Inst>>)
    ensures AllPresent([Some(inst)] + insts) <==> AllPresent(insts)
  {
    assert forall i :: 0 <= i < |insts| ==> ([Some(inst)] + insts)[i + 1] == insts[i];
  }

  /** The parse of a whole token list has at most one error, in its last slot. */
  lemma ParseHasAtMostOneError(toks: seq<Token>)
    requires Parsable(toks)
    ensures AtMostOneError(Parse(toks))
  {
    ParseAtMostOneError(toks, 0);
  }

  /** Every instruction the parse yields carries the `int` literals the interpreter reads. */
  predicate AllWellFormed(insts: seq<Option<Inst>>) {
    forall i :: 0 <= i < |insts| && insts[i].Some? ==> WellFormed(insts[i].value)
  }

  lemma {:induction false} ParseWellFormed(toks: seq<Token>, cur: nat)
    requires Parsable(toks) && cur < |toks|
    ensures AllWellFormed(ParseFrom(toks, cur).instructions)
    decreases |toks| - cur, 1
  {
    if !AtEnd(toks, cur) {
      StatementWellFormed(toks, cur);
      AfterWellFormed(toks, cur, Statement(toks, cur));
    }
  }

  lemma {:induction false} AfterWellFormed(toks: seq<Token>, cur: nat, r: Result<(Inst, nat), ParseError>)
    requires Parsable(toks) && cur < |toks| && Advances(toks, cur, r)
    requires r.Success? ==> WellFormed(r.value.0)
    ensures AllWellFormed(ParseAfter(toks, cur, r).instructions)
    decreases |toks| - cur, 0
  {
    var next := Resume(toks, cur, r);
    ParseWellFormed(toks, next);
    var p := ParseAfter(toks, cur, r);
    assert p.instructions[1..] == ParseFrom(toks, next).instructions;
  }

  /** A parse yields one slot per statement: never more slots than tokens before the end. */
  lemma {:induction false} ParseLength(toks: seq<Token>, cur: nat)
    requires Parsable(toks) && cur < |toks|
    ensures |ParseFrom(toks, cur).instructions| <= |toks| - 1 - cur
    ensures |ParseFrom(toks, cur).instructions| == 0 <==> AtEnd(toks, cur)
    decreases |toks| - cur, 1
  {
    if !AtEnd(toks, cur) {
      assert cur < |toks| - 1;
      ParseLength(toks, Resume(toks, cur, Statement(toks, cur)));
    }
  }
}
