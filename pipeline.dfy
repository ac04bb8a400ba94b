/**
 * `Main.run` without its I/O: scan, parse, and interpret only when neither
 * stage reported anything (the `hadError` check that exits with status 65).
 * Also the operand wiring as a user sees it, from the written statement to
 * the registers it reads and writes.
 */
module Driver {
  import opened Wrappers
  import opened Tokens
  import opened Errors
  import opened Instructions
  import opened Registers
  import Lexer
  import LexerProperties
  import opened Parsing
  import ParserProperties
  import opened Execution
  import ExecutionProperties
  import JavaInt

  /** How `run` ends for one source text. */
  datatype RunResult =
    | NumberFormatCrash(reports: seq<Diagnostic>, lexeme: string, line: int)  // `Integer.parseInt` threw after `reports`
    | Rejected(reports: seq<Diagnostic>)            // `hadError`: exit status 65, nothing executed
    | Ran(final: Final)                             // the interpreter's run

  /** The scanner's tokens always satisfy what the parser needs of them. */
  lemma ScannedTokensParsable(source: string)
    requires Lexer.Scan(source).Scanned?
    ensures Parsable(Lexer.Scan(source).tokens)
  {
    LexerProperties.ScanWellFormed(source);
  }

  /** The instructions of a parse without errors, in order. */
  function Present(insts: seq<Option<Inst>>): (prog: seq<Inst>)
    requires ParserProperties.AllPresent(insts)
    ensures |prog| == |insts| && forall i :: 0 <= i < |insts| ==> insts[i] == Some(prog[i])
  {
    seq(|insts|, i requires 0 <= i < |insts| => insts[i].value)
  }

  /** The parse of a source text the scanner accepted. */
  function ParseOf(source: string): Parsed
    requires Lexer.Scan(source).Scanned?
  {
    ScannedTokensParsable(source);
    Parse(Lexer.Scan(source).tokens)
  }

  /** Every report the scanner and the parser send to `Main.error`, in order. */
  function Reports(source: string): seq<Diagnostic>
    requires Lexer.Scan(source).Scanned?
  {
    Lexer.Scan(source).diagnostics + ParseOf(source).errors
  }

  /**
   * `run(source)` on an interpreter whose store holds `regs` and which has
   * printed `output`, executing at most `fuel` instructions.
   */
  function Run(source: string, regs: map<string, int>, output: seq<int>, fuel: nat): (r: RunResult)
    ensures r.NumberFormatCrash? <==> Lexer.Scan(source).NumberFormatError?
    ensures r.NumberFormatCrash? ==> r.reports == Lexer.Scan(source).diagnostics
    ensures r.Rejected? <==> Lexer.Scan(source).Scanned? && Reports(source) != []
    ensures r.Rejected? ==> r.reports == Reports(source)
    ensures r.Ran? ==> ParserProperties.AllPresent(ParseOf(source).instructions)
  {
    match Lexer.Scan(source)
    case NumberFormatError(lexeme, line, diagnostics) => NumberFormatCrash(diagnostics, lexeme, line)
    case Scanned(tokens, diagnostics) =>
      var parsed := ParseOf(source);
      if Reports(source) != [] then Rejected(Reports(source))
      else
        ScannedTokensParsable(source);
        ParserProperties.ParseHasAtMostOneError(tokens);
        ParserProperties.ParseWellFormed(tokens, 0);
        var prog := Present(parsed.instructions);
        assert Program(prog) by {
          forall i | 0 <= i < |prog| ensures WellFormed(prog[i]) {
            assert parsed.instructions[i] == Some(prog[i]);
          }
        }
        Ran(RunFrom(prog, Machine(regs, 0, output), fuel))
  }

  // ---------------------------------------------------------------------
  // Operand wiring, from the statement to the registers

  /** `add R1, R2, R3;` writes `R2 + R3` into `R1`: the first register written is the destination. */
  lemma AddWritesFirstRegister(toks: seq<Token>, cur: nat, m: Machine, length: int, add: Token, r1: Token, r2: Token, r3: Token)
    requires Parsable(toks) && cur < |toks| && ParserProperties.ThreeRegisters(toks, cur + 1)
    requires toks[cur] == add && toks[cur + 1] == r1 && toks[cur + 3] == r2 && toks[cur + 5] == r3
    requires add.kind == Add
    ensures !AtEnd(toks, cur) && Statement(toks, cur) == Success((Rtype(add, r1, r2, r3), cur + 7))
    ensures var e := Exec(m, length, Rtype(add, r1, r2, r3));
      e.fault.None? && Read(e.state, r1) == JavaInt.Wrap(Read(m, r2) + Read(m, r3))
  {
    assert Add in RegisterOps;
    ParserProperties.RegisterStatementShape(toks, cur);
    ExecutionProperties.RegisterOpWrites(m, length, add, r1, r2, r3);
  }

  /** `addi R1, R2, N;` writes `R2 + N` into `R1`. */
  lemma AddImmediateWritesFirstRegister(toks: seq<Token>, cur: nat, m: Machine, length: int,
                                        addi: Token, r1: Token, r2: Token, n: Token)
    requires Parsable(toks) && cur < |toks| && ParserProperties.TwoRegisters(toks, cur + 1)
    requires ParserProperties.At(toks, cur + 5, Number) && ParserProperties.At(toks, cur + 6, Semicolon)
    requires toks[cur] == addi && toks[cur + 1] == r1 && toks[cur + 3] == r2 && toks[cur + 5] == n
    requires addi.kind == Addi
    ensures !AtEnd(toks, cur) && HasIntLiteral(n)
    ensures Statement(toks, cur) == Success((Itype(addi, r1, r2, n), cur + 7))
    ensures var e := Exec(m, length, Itype(addi, r1, r2, n));
      e.fault.None? && Read(e.state, r1) == JavaInt.Wrap(Read(m, r2) + n.literal.value)
  {
    assert Addi in ImmediateOps;
    assert HasIntLiteral(toks[cur + 5]);
    ParserProperties.ImmediateStatementShape(toks, cur);
    ParserProperties.SignedNumberShape(toks, cur + 5, ExpectImmediate);
    ExecutionProperties.ImmediateArithmeticWrites(m, length, addi, r1, r2, n);
  }

  /** `bgt R1, R2, k;` branches when `R2 > R1`: it tests its registers in reverse of their written order. */
  lemma GreaterBranchTestsSecondOverFirst(toks: seq<Token>, cur: nat, m: Machine, length: int,
                                          bgt: Token, r1: Token, r2: Token, k: Token)
    requires Parsable(toks) && cur < |toks| && ParserProperties.TwoRegisters(toks, cur + 1)
    requires ParserProperties.At(toks, cur + 5, Number) && ParserProperties.At(toks, cur + 6, Semicolon)
    requires toks[cur] == bgt && toks[cur + 1] == r1 && toks[cur + 3] == r2 && toks[cur + 5] == k
    requires bgt.kind == Bgt
    ensures !AtEnd(toks, cur) && HasIntLiteral(k)
    ensures Statement(toks, cur) == Success((Itype(bgt, r1, r2, k), cur + 7))
    ensures Exec(m, length, Itype(bgt, r1, r2, k)) == Branch(m, length, bgt, Read(m, r2) > Read(m, r1), k.literal.value)
  {
    assert Bgt in BranchOps;
    assert HasIntLiteral(toks[cur + 5]);
    ParserProperties.BranchStatementShape(toks, cur);
    ParserProperties.SignedNumberShape(toks, cur + 5, RelativeAddress);
    GreaterBranchOperands(m, length, bgt, r1, r2, k);
  }

  lemma GreaterBranchOperands(m: Machine, length: int, bgt: Token, r1: Token, r2: Token, k: Token)
    requires bgt.kind == Bgt && HasIntLiteral(k)
    ensures Exec(m, length, Itype(bgt, r1, r2, k)) == Branch(m, length, bgt, Read(m, r2) > Read(m, r1), k.literal.value)
  {
  }
}
