/**
 * The parser: turns the scanner's tokens into instructions.
 *
 * `Statement` says what one call of `instruction` recognises at a cursor,
 * `ParseFrom` repeats it to the end-of-input token, and the `Parser` class is
 * the token-cursor object of the source, proved to do what they describe.
 * A thrown `ParseError` is a `Failure` value; the reports sent to `Main.error`
 * are collected in the parser's `reports`.
 */
module Parsing {
  import opened Wrappers
  import opened Tokens
  import opened Errors
  import opened Instructions
  import JavaInt

  // ---------------------------------------------------------------------
  // Tokens and the cursor

  /** The token list ends with the end-of-input token, as the scanner's always does. */
  predicate Terminated(toks: seq<Token>) {
    |toks| > 0 && toks[|toks| - 1].kind == Eof
  }

  /** Every number token carries an `int` literal, as the scanner's always do. */
  predicate LiteralsPresent(toks: seq<Token>) {
    forall i :: 0 <= i < |toks| && toks[i].kind == Number ==> HasIntLiteral(toks[i])
  }

  predicate Parsable(toks: seq<Token>) {
    Terminated(toks) && LiteralsPresent(toks)
  }

  /** `isAtEnd` with the cursor at `cur`. */
  predicate AtEnd(toks: seq<Token>, cur: nat)
    requires cur < |toks|
  {
    toks[cur].kind == Eof
  }

  /** `check(kind)` with the cursor at `cur`: never true at the end. */
  predicate Matches(toks: seq<Token>, cur: nat, kind: TokenType)
    requires cur < |toks|
  {
    !AtEnd(toks, cur) && toks[cur].kind == kind
  }

  /** The cursor after `advance`, which does not move past the end-of-input token. */
  function Next(toks: seq<Token>, cur: nat): (n: nat)
    requires Terminated(toks) && cur < |toks|
    ensures n < |toks|
    ensures AtEnd(toks, cur) ==> n == cur
  {
    if AtEnd(toks, cur) then cur else cur + 1
  }

  /** The first end-of-input token at or after `i`. */
  function FirstEof(toks: seq<Token>, i: nat): (e: nat)
    requires Terminated(toks) && i < |toks|
    ensures i <= e < |toks| && AtEnd(toks, e)
    ensures forall j :: i <= j < e ==> !AtEnd(toks, j)
    decreases |toks| - i
  {
    if AtEnd(toks, i) then i else FirstEof(toks, i + 1)
  }

  /** The cursor after `synchronize`: one `advance`, then on to the end-of-input token. */
  function Synchronized(toks: seq<Token>, cur: nat): (e: nat)
    requires Terminated(toks) && cur < |toks|
  {
    FirstEof(toks, Next(toks, cur))
  }

  // ---------------------------------------------------------------------
  // One statement

  /** A `ParseError` thrown by `consume` when the token at `at` is not the expected one. */
  datatype ParseError = ParseError(token: Token, message: Message, at: nat)

  /** `consume(kind, message)` with the cursor at `cur`: the cursor after the token, or the error reported at it. */
  function ConsumeAt(toks: seq<Token>, cur: nat, kind: TokenType, message: Message): (r: Result<nat, ParseError>)
    requires Terminated(toks) && cur < |toks| && kind != Eof
    ensures r.Success? <==> toks[cur].kind == kind
    ensures r.Success? ==> r.value == cur + 1 < |toks|
    ensures r.Failure? ==> r.error == ParseError(toks[cur], message, cur)
  {
    if Matches(toks, cur, kind) then Success(Next(toks, cur)) else Failure(ParseError(toks[cur], message, cur))
  }

  /** The opcodes of the four statement forms, in the order `instruction` tries them. */
  const RegisterOps: seq<TokenType> := [Add, Sub, And, Or, Mul, Div]
  const ImmediateOps: seq<TokenType> := [Addi, Subi, Andi, Ori, Sll, Srl, Lw, Sw, Muli, Divi, Swap]
  const BranchOps: seq<TokenType> := [Beq, Bnq, Bge, Bgt, Blt, Ble]

  /** A number token with its literal negated as `-1 * (Integer) literal` does; the lexeme is kept. */
  function Negated(t: Token): Token
    requires t.literal.Some?
  {
    Token(t.kind, t.lexeme, Some(JavaInt.Wrap(-1 * t.literal.value)), t.line)
  }

  /** `[-] NUMBER ;` at `cur`: the number token, negated after a minus, and the cursor after `;`. */
  function SignedNumber(toks: seq<Token>, cur: nat, message: Message): (r: Result<(Token, nat), ParseError>)
    requires Parsable(toks) && cur < |toks|
    ensures r.Success? ==> cur + 2 <= r.value.1 < |toks|
    ensures r.Failure? ==> cur <= r.error.at < |toks| && r.error.token == toks[r.error.at]
  {
    var minus := Matches(toks, cur, Minus);
    NumberAt(toks, if minus then cur + 1 else cur, minus, message)
  }

  /** `NUMBER ;` at `cur`, the number negated when `negate` holds. */
  function NumberAt(toks: seq<Token>, cur: nat, negate: bool, message: Message): (r: Result<(Token, nat), ParseError>)
    requires Parsable(toks) && cur < |toks|
    ensures r.Success? ==> cur + 2 <= r.value.1 < |toks|
    ensures r.Failure? ==> cur <= r.error.at < |toks| && r.error.token == toks[r.error.at]
  {
    var c1 :- ConsumeAt(toks, cur, Number, message);
    var number := if negate then Negated(toks[cur]) else toks[cur];
    var c2 :- ConsumeAt(toks, c1, Semicolon, ExpectSemicolon);
    Success((number, c2))
  }

  /** `REGISTER ,` at `cur`: the cursor after the comma, or the error reported. */
  function OperandAt(toks: seq<Token>, cur: nat, message: Message): (r: Result<nat, ParseError>)
    requires Terminated(toks) && cur < |toks|
    ensures r.Success? ==> r.value == cur + 2 < |toks|
    ensures r.Failure? ==> cur <= r.error.at < |toks| && r.error.token == toks[r.error.at]
  {
    var c1 :- ConsumeAt(toks, cur, Register, message);
    ConsumeAt(toks, c1, Comma, ExpectComma)
  }

  /** `op REGISTER , REGISTER , REGISTER ;` after the opcode at `cur`. */
  function RegisterForm(toks: seq<Token>, cur: nat): (r: Result<(Inst, nat), ParseError>)
    requires Parsable(toks) && cur + 1 < |toks|
    ensures r.Success? ==> cur < r.value.1 < |toks|
    ensures r.Failure? ==> cur < r.error.at < |toks| && r.error.token == toks[r.error.at]
  {
    var c2 :- OperandAt(toks, cur + 1, ExpectFirstSource);
    var c4 :- OperandAt(toks, c2, ExpectSecondSource);
    var c5 :- ConsumeAt(toks, c4, Register, ExpectDestination);
    var c6 :- ConsumeAt(toks, c5, Semicolon, ExpectSemicolon);
    Success((Rtype(toks[cur], toks[cur + 1], toks[cur + 3], toks[cur + 5]), c6))
  }

  /**
   * `op REGISTER , REGISTER , [-] NUMBER ;` after the opcode at `cur`, shared
   * by the immediate and the branch forms, which differ only in their messages.
   */
  function TwoRegisterForm(toks: seq<Token>, cur: nat, first: Message, second: Message, number: Message)
    : (r: Result<(Inst, nat), ParseError>)
    requires Parsable(toks) && cur + 1 < |toks|
    ensures r.Success? ==> cur < r.value.1 < |toks|
    ensures r.Failure? ==> cur < r.error.at < |toks| && r.error.token == toks[r.error.at]
  {
    var c2 :- OperandAt(toks, cur + 1, first);
    var c4 :- OperandAt(toks, c2, second);
    var tail :- SignedNumber(toks, c4, number);
    Success((Itype(toks[cur], toks[cur + 1], toks[cur + 3], tail.0), tail.1))
  }

  /** `j [-] NUMBER ;` after the opcode at `cur`. */
  function JumpForm(toks: seq<Token>, cur: nat): (r: Result<(Inst, nat), ParseError>)
    requires Parsable(toks) && cur + 1 < |toks|
    ensures r.Success? ==> cur < r.value.1 < |toks|
    ensures r.Failure? ==> cur < r.error.at < |toks| && r.error.token == toks[r.error.at]
  {
    var tail :- SignedNumber(toks, cur + 1, AbsoluteAddress);
    Success((Jtype(toks[cur], tail.0), tail.1))
  }

  /** The fallback: `[print] REGISTER ;` at `cur`. */
  function PrintForm(toks: seq<Token>, cur: nat): (r: Result<(Inst, nat), ParseError>)
    requires Parsable(toks) && cur < |toks|
    ensures r.Success? ==> cur < r.value.1 < |toks|
    ensures r.Failure? ==> cur <= r.error.at < |toks| && r.error.token == toks[r.error.at]
  {
    PrintOperandAt(toks, if Matches(toks, cur, TokenType.Print) then cur + 1 else cur)
  }

  /** `REGISTER ;` at `cur`, the operand of a print. */
  function PrintOperandAt(toks: seq<Token>, cur: nat): (r: Result<(Inst, nat), ParseError>)
    requires Parsable(toks) && cur < |toks|
    ensures r.Success? ==> cur < r.value.1 < |toks|
    ensures r.Failure? ==> cur <= r.error.at < |toks| && r.error.token == toks[r.error.at]
  {
    var c1 :- ConsumeAt(toks, cur, Register, ExpectRegister);
    var c2 :- ConsumeAt(toks, c1, Semicolon, ExpectSemicolon);
    Success((Inst.Print(toks[cur]), c2))
  }

  /** The statement form a leading token selects. */
  datatype Form = RForm | IForm | BranchForm | JForm | PrintFallback

  /** The form `instruction` tries for a statement that starts with a token of category `kind`. */
  function FormOf(kind: TokenType): (f: Form)
    ensures f == RForm <==> kind in RegisterOps
    ensures f == IForm <==> kind in ImmediateOps
    ensures f == BranchForm <==> kind in BranchOps
    ensures f == JForm <==> kind == J
  {
    if kind in RegisterOps then RForm
    else if kind in ImmediateOps then IForm
    else if kind in BranchOps then BranchForm
    else if kind == J then JForm
    else PrintFallback
  }

  /** What `instruction` recognises at `cur`: the instruction and the cursor after it, or the error. */
  function Statement(toks: seq<Token>, cur: nat): (r: Result<(Inst, nat), ParseError>)
    requires Parsable(toks) && cur < |toks| && !AtEnd(toks, cur)
    ensures r.Success? ==> cur < r.value.1 < |toks|
    ensures r.Failure? ==> cur <= r.error.at < |toks| && r.error.token == toks[r.error.at]
  {
    match FormOf(toks[cur].kind)
    case RForm => RegisterForm(toks, cur)
    case IForm =>
      TwoRegisterForm(toks, cur, ExpectSource, ExpectDestination, ExpectImmediate)
    case BranchForm =>
      TwoRegisterForm(toks, cur, ExpectFirstSource, ExpectSecondSource, RelativeAddress)
    case JForm => JumpForm(toks, cur)
    case PrintFallback => PrintForm(toks, cur)
  }

  // ---------------------------------------------------------------------
  // The whole parse

  /** The list `parse` returns (`None` where `instruction` returned null) and the reports made. */
  datatype Parsed = Parsed(instructions: seq<Option<Inst>>, errors: seq<Diagnostic>)

  /** What `instruction` returns for the statement outcome `r`: the statement, or `None` (Java's null). */
  function Outcome(r: Result<(Inst, nat), ParseError>): Option<Inst> {
    if r.Success? then Some(r.value.0) else None
  }

  /** The reports `instruction` makes for `r`: none, or the one for the error it caught. */
  function Reported(r: Result<(Inst, nat), ParseError>): seq<Diagnostic> {
    if r.Success? then [] else [SyntaxError(r.error.token, r.error.message)]
  }

  /** A statement outcome at `cur` as `Statement` guarantees it. */
  predicate Advances(toks: seq<Token>, cur: nat, r: Result<(Inst, nat), ParseError>)
    requires Terminated(toks) && cur < |toks|
  {
    && !AtEnd(toks, cur)
    && (r.Success? ==> cur < r.value.1 < |toks|)
    && (r.Failure? ==> cur <= r.error.at < |toks|)
  }

  /** The cursor after `instruction`: after the statement, or where `synchronize` stops. */
  function Resume(toks: seq<Token>, cur: nat, r: Result<(Inst, nat), ParseError>): (next: nat)
    requires Terminated(toks) && cur < |toks| && Advances(toks, cur, r)
    ensures cur < next < |toks|
  {
    if r.Success? then r.value.1 else Synchronized(toks, r.error.at)
  }

  /** `parse` from the cursor `cur`. */
  function ParseFrom(toks: seq<Token>, cur: nat): Parsed
    requires Parsable(toks) && cur < |toks|
    decreases |toks| - cur, 1
  {
    if AtEnd(toks, cur) then Parsed([], [])
    else ParseAfter(toks, cur, Statement(toks, cur))
  }

  /** The parse that follows the statement outcome `r` at `cur`. */
  function ParseAfter(toks: seq<Token>, cur: nat, r: Result<(Inst, nat), ParseError>): Parsed
    requires Parsable(toks) && cur < |toks| && Advances(toks, cur, r)
    decreases |toks| - cur, 0
  {
    var rest := ParseFrom(toks, Resume(toks, cur, r));
    Parsed([Outcome(r)] + rest.instructions, Reported(r) + rest.errors)
  }

  /** What the loop of `parse` keeps across one call of `instruction`, whose outcome is `r`. */
  lemma ParseLoopStep(toks: seq<Token>, cur: nat, r: Result<(Inst, nat), ParseError>,
                      done: seq<Option<Inst>>, reported: seq<Diagnostic>,
                      all: seq<Option<Inst>>, allReports: seq<Diagnostic>)
    requires Parsable(toks) && cur < |toks| && Advances(toks, cur, r)
    requires done + ParseAfter(toks, cur, r).instructions == all
    requires reported + ParseAfter(toks, cur, r).errors == allReports
    ensures (done + [Outcome(r)]) + ParseFrom(toks, Resume(toks, cur, r)).instructions == all
    ensures (reported + Reported(r)) + ParseFrom(toks, Resume(toks, cur, r)).errors == allReports
  {
    var rest := ParseFrom(toks, Resume(toks, cur, r));
    Regroup(done, [Outcome(r)], rest.instructions, all);
    Regroup(reported, Reported(r), rest.errors, allReports);
  }

  lemma Regroup<T>(done: seq<T>, step: seq<T>, rest: seq<T>, all: seq<T>)
    requires done + (step + rest) == all
    ensures (done + step) + rest == all
  {
  }

  /** The parse of a whole token list. */
  function Parse(toks: seq<Token>): Parsed
    requires Parsable(toks)
  {
    ParseFrom(toks, 0)
  }

  // ---------------------------------------------------------------------
  // The parser object

  class Parser {
    const tokens: seq<Token>
    var current: nat
    var reports: seq<Diagnostic>  // the reports sent to `Main.error`

    ghost predicate Valid()
      reads this
    {
      Parsable(tokens) && current < |tokens|
    }

    constructor (tokens: seq<Token>)
      requires Parsable(tokens)
      ensures Valid() && this.tokens == tokens && current == 0 && reports == []
    {
      this.tokens := tokens;
      current := 0;
      reports := [];
    }

    /** Parses statements up to the end-of-input token. */
    method Parse() returns (instructions: seq<Option<Inst>>)
      requires Valid()
      modifies this`current, this`reports
      ensures Valid() && IsAtEnd()
      ensures instructions == ParseFrom(tokens, old(current)).instructions
      ensures reports == old(reports) + ParseFrom(tokens, old(current)).errors
    {
      instructions := [];
      while !IsAtEnd()
        invariant Valid()
        invariant instructions + ParseFrom(tokens, current).instructions == ParseFrom(tokens, old(current)).instructions
        invariant reports + ParseFrom(tokens, current).errors == old(reports) + ParseFrom(tokens, old(current)).errors
        decreases |tokens| - current
      {
        ghost var before, done, reported, r := current, instructions, reports, Statement(tokens, current);
        var inst := Instruction();
        instructions := instructions + [inst];
        ParseLoopStep(tokens, before, r, done, reported, ParseFrom(tokens, old(current)).instructions,
          old(reports) + ParseFrom(tokens, old(current)).errors);
      }
      assert instructions + [] == instructions && reports + [] == reports;
    }

    /** One statement; `None` (Java's null) when it was malformed, after `synchronize`. */
    method Instruction() returns (inst: Option<Inst>)
      requires Valid() && !IsAtEnd()
      modifies this`current, this`reports
      ensures Valid()
      ensures var r := Statement(tokens, old(current));
        inst == Outcome(r) && current == Resume(tokens, old(current), r) && reports == old(reports) + Reported(r)
    {
      var r := InstructionBody();
      if r.Failure? {
        Synchronize();
        return None;
      }
      return Some(r.value);
    }

    /** The `try` block of `instruction`: a `Failure` is the `ParseError` it throws. */
    method InstructionBody() returns (r: Result<Inst, ParseError>)
      requires Valid() && !IsAtEnd()
      modifies this`current, this`reports
      ensures Valid()
      ensures var s := Statement(tokens, old(current));
        if s.Success? then
          r == Success(s.value.0) && current == s.value.1 && reports == old(reports)
        else
          && r.Failure? && current == s.error.at && (current > 0 || !IsAtEnd())
          && reports == old(reports) + [SyntaxError(s.error.token, s.error.message)]
    {
      ghost var start := current;
      var isRegister := Match(RegisterOps);
      if isRegister {
        r := RegisterStatement(start);
        return;
      }
      var isImmediate := Match(ImmediateOps);
      if isImmediate {
        r := TwoRegisterStatement(start, ExpectSource, ExpectDestination, ExpectImmediate);
        return;
      }
      var isBranch := Match(BranchOps);
      if isBranch {
        r := TwoRegisterStatement(start, ExpectFirstSource, ExpectSecondSource, RelativeAddress);
        return;
      }
      var isJump := Match([J]);
      if isJump {
        r := JumpStatement(start);
        return;
      }
      r := PrintStatement();
    }

    /** The register form, once its opcode has been matched. */
    method RegisterStatement(ghost start: nat) returns (r: Result<Inst, ParseError>)
      requires Valid() && start + 1 == current && !AtEnd(tokens, start)
      modifies this`current, this`reports
      ensures Valid()
      ensures var s := RegisterForm(tokens, start);
        if s.Success? then
          r == Success(s.value.0) && current == s.value.1 && reports == old(reports)
        else
          && r.Failure? && current == s.error.at && current > 0
          && reports == old(reports) + [SyntaxError(s.error.token, s.error.message)]
    {
      var name := Previous();
      var src1 :- Operand(ExpectFirstSource);
      var src2 :- Operand(ExpectSecondSource);
      var dest :- Consume(Register, ExpectDestination);
      var _ :- Consume(Semicolon, ExpectSemicolon);
      return Success(Rtype(name, src1, src2, dest));
    }

    /** The immediate or branch form, once its opcode has been matched. */
    method TwoRegisterStatement(ghost start: nat, first: Message, second: Message, number: Message)
      returns (r: Result<Inst, ParseError>)
      requires Valid() && start + 1 == current && !AtEnd(tokens, start)
      modifies this`current, this`reports
      ensures Valid()
      ensures var s := TwoRegisterForm(tokens, start, first, second, number);
        if s.Success? then
          r == Success(s.value.0) && current == s.value.1 && reports == old(reports)
        else
          && r.Failure? && current == s.error.at && current > 0
          && reports == old(reports) + [SyntaxError(s.error.token, s.error.message)]
    {
      var name := Previous();
      var src :- Operand(first);
      var dest :- Operand(second);
      var imm :- SignedNumberTail(number);
      return Success(Itype(name, src, dest, imm));
    }

    /** `REGISTER ,`: the register token, or the reported error. */
    method Operand(message: Message) returns (r: Result<Token, ParseError>)
      requires Valid()
      modifies this`current, this`reports
      ensures Valid()
      ensures var s := OperandAt(tokens, old(current), message);
        if s.Success? then
          r == Success(tokens[old(current)]) && current == s.value && reports == old(reports)
        else
          && r == Failure(s.error) && current == s.error.at
          && reports == old(reports) + [SyntaxError(s.error.token, s.error.message)]
    {
      var reg :- Consume(Register, message);
      var _ :- Consume(Comma, ExpectComma);
      return Success(reg);
    }

    /** The jump form, once its opcode has been matched. */
    method JumpStatement(ghost start: nat) returns (r: Result<Inst, ParseError>)
      requires Valid() && start + 1 == current && !AtEnd(tokens, start)
      modifies this`current, this`reports
      ensures Valid()
      ensures var s := JumpForm(tokens, start);
        if s.Success? then
          r == Success(s.value.0) && current == s.value.1 && reports == old(reports)
        else
          && r.Failure? && current == s.error.at && current > 0
          && reports == old(reports) + [SyntaxError(s.error.token, s.error.message)]
    {
      var name := Previous();
      var address :- SignedNumberTail(AbsoluteAddress);
      return Success(Jtype(name, address));
    }

    /** `[-] NUMBER ;`: the number token, negated after a minus. */
    method SignedNumberTail(message: Message) returns (r: Result<Token, ParseError>)
      requires Valid() && current > 0
      modifies this`current, this`reports
      ensures Valid()
      ensures var s := SignedNumber(tokens, old(current), message);
        if s.Success? then
          r == Success(s.value.0) && current == s.value.1 && reports == old(reports)
        else
          && r.Failure? && current == s.error.at && current > 0
          && reports == old(reports) + [SyntaxError(s.error.token, s.error.message)]
    {
      var minus := Match([Minus]);
      r := NumberTail(minus, message);
    }

    /** `NUMBER ;`, the number negated when `negate` holds. */
    method NumberTail(negate: bool, message: Message) returns (r: Result<Token, ParseError>)
      requires Valid() && current > 0
      modifies this`current, this`reports
      ensures Valid()
      ensures var s := NumberAt(tokens, old(current), negate, message);
        if s.Success? then
          r == Success(s.value.0) && current == s.value.1 && reports == old(reports)
        else
          && r.Failure? && current == s.error.at && current > 0
          && reports == old(reports) + [SyntaxError(s.error.token, s.error.message)]
    {
      var number :- Consume(Number, message);
      if negate {
        number := Negated(number);
      }
      var _ :- Consume(Semicolon, ExpectSemicolon);
      return Success(number);
    }

    /** The fallback form: an optional `print`, a register and `;`. */
    method PrintStatement() returns (r: Result<Inst, ParseError>)
      requires Valid() && !IsAtEnd()
      modifies this`current, this`reports
      ensures Valid()
      ensures var s := PrintForm(tokens, old(current));
        if s.Success? then
          r == Success(s.value.0) && current == s.value.1 && reports == old(reports)
        else
          && r.Failure? && current == s.error.at && (current > 0 || !IsAtEnd())
          && reports == old(reports) + [SyntaxError(s.error.token, s.error.message)]
    {
      var _ := Match([TokenType.Print]);
      r := PrintOperand();
    }

    /** `REGISTER ;`, the operand of a print. */
    method PrintOperand() returns (r: Result<Inst, ParseError>)
      requires Valid()
      modifies this`current, this`reports
      ensures Valid()
      ensures var s := PrintOperandAt(tokens, old(current));
        if s.Success? then
          r == Success(s.value.0) && current == s.value.1 && reports == old(reports)
        else
          && r.Failure? && current == s.error.at && old(current) <= current
          && reports == old(reports) + [SyntaxError(s.error.token, s.error.message)]
    {
      var reg :- Consume(Register, ExpectRegister);
      var _ :- Consume(Semicolon, ExpectSemicolon);
      return Success(Inst.Print(reg));
    }

    /** `match(kinds)`: advances past the current token when it has one of the categories. */
    method Match(kinds: seq<TokenType>) returns (matched: bool)
      requires Valid()
      modifies this`current
      ensures Valid()
      ensures matched == (!AtEnd(tokens, old(current)) && tokens[old(current)].kind in kinds)
      ensures current == if matched then old(current) + 1 else old(current)
    {
      var i := 0;
      while i < |kinds|
        invariant i <= |kinds| && current == old(current)
        invariant forall j :: 0 <= j < i ==> !Matches(tokens, current, kinds[j])
      {
        if Check(kinds[i]) {
          var _ := Advance();
          return true;
        }
        i := i + 1;
      }
      return false;
    }

    /** `consume(kind, message)`: the current token if it has the category, else the reported error. */
    method Consume(kind: TokenType, message: Message) returns (r: Result<Token, ParseError>)
      requires Valid() && kind != Eof
      modifies this`current, this`reports
      ensures Valid()
      ensures var s := ConsumeAt(tokens, old(current), kind, message);
        if s.Success? then
          r == Success(tokens[old(current)]) && current == s.value && reports == old(reports)
        else
          && r == Failure(s.error) && current == old(current)
          && reports == old(reports) + [SyntaxError(s.error.token, s.error.message)]
    {
      if Check(kind) {
        var t := Advance();
        return Success(t);
      }
      Error(Peek(), message);
      return Failure(ParseError(Peek(), message, current));
    }

    function Check(kind: TokenType): bool
      requires Valid()
      reads this
    {
      if IsAtEnd() then false else Peek().kind == kind
    }

    /** `advance`; `previous` needs a token before the cursor when it does not move. */
    method Advance() returns (t: Token)
      requires Valid() && (current > 0 || !IsAtEnd())
      modifies this`current
      ensures Valid() && current == Next(tokens, old(current)) && current > 0
      ensures t == tokens[current - 1]
    {
      if !IsAtEnd() {
        current := current + 1;
      }
      t := Previous();
    }

    function IsAtEnd(): bool
      requires Valid()
      reads this
    {
      Peek().kind == Eof
    }

    function Peek(): Token
      requires Valid()
      reads this
    {
      tokens[current]
    }

    function Previous(): Token
      requires Valid() && current > 0
      reads this
    {
      tokens[current - 1]
    }

    /** `error(token, message)`: the report to `Main.error`; the caller throws. */
    method Error(token: Token, message: Message)
      modifies this`reports
      ensures reports == old(reports) + [SyntaxError(token, message)]
    {
      reports := reports + [SyntaxError(token, message)];
    }

    /** `synchronize`: skips every remaining token up to the end-of-input token. */
    method Synchronize()
      requires Valid() && (current > 0 || !IsAtEnd())
      modifies this`current
      ensures Valid() && current == Synchronized(tokens, old(current)) && IsAtEnd()
    {
      var _ := Advance();
      while !IsAtEnd()
        invariant Valid() && current > 0
        invariant FirstEof(tokens, current) == Synchronized(tokens, old(current))
        decreases |tokens| - current
      {
        var _ := Advance();
      }
    }
  }
}
