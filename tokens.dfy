/** The lexical categories and the token record shared by the scanner and the parser. */
module Tokens {
  import opened Wrappers

  /** Every lexical category; `Lw`, `Sw`, `Mod`, `Not`, `Xor` and `Xori` have no keyword. */
  datatype TokenType =
    // single-character tokens
    | LeftParen | RightParen | Comma | Semicolon | Minus | Colon
    // literals
    | Identifier | Number | Register
    // keywords
    | Add | Addi | Sub | Subi | And | Andi | Sll | Srl | Lw | Sw | Or | Ori
    | Beq | Bnq | Bgt | Bge | Blt | Ble | J | Print
    | Mul | Div | Mod | Not | Xor | Swap | Muli | Divi | Xori
    | Eof

  /**
   * An immutable token: its category, the exact text it was scanned from
   * (without the `$` for a register), the decoded value of a numeric
   * literal (`None` for every other token) and its 1-based source line.
   */
  datatype Token = Token(kind: TokenType, lexeme: string, literal: Option<int>, line: int)
}

/** The two kinds of report the pipeline produces instead of setting global error flags. */
module Errors {
  import opened Tokens

  /** A reported syntax fault: from the scanner (a line) or from the parser (the token it stopped at). */
  datatype Diagnostic =
    | LexicalError(line: int, message: Message)
    | SyntaxError(token: Token, message: Message)

  /** A fault raised while executing: the offending opcode token and a message. */
  datatype RuntimeError = RuntimeError(token: Token, message: Message)

  /** The messages of the reports and faults. */
  datatype Message =
    | InvalidRegister | UnexpectedCharacter
    | ExpectRegister | ExpectFirstSource | ExpectSecondSource | ExpectDestination | ExpectSource
    | ExpectComma | ExpectSemicolon | ExpectImmediate | RelativeAddress | AbsoluteAddress
    | DivisionByZero | InvalidAddress | InvalidJumpAddress

  /** The text the source writes for each message. */
  function Text(m: Message): string {
    match m
    case InvalidRegister => "Invalid register."
    case UnexpectedCharacter => "Unexpected character."
    case ExpectRegister => "Expect register."
    case ExpectFirstSource => "Expect first source register."
    case ExpectSecondSource => "Expect second source register."
    case ExpectDestination => "Expect destination register."
    case ExpectSource => "Expect source register."
    case ExpectComma => "Expect comma."
    case ExpectSemicolon => "Expect semicolon."
    case ExpectImmediate => "Expect immediate value."
    case RelativeAddress => "Relative address."
    case AbsoluteAddress => "Absolute address."
    case DivisionByZero => "Division by zero."
    case InvalidAddress => "Invalid address."
    case InvalidJumpAddress => "Invalid jump address."
  }
}
