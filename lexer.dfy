/**
 * The scanner: turns source text into tokens.
 *
 * `ScanStep` says what one call of `scanToken` does at a position, `LexFrom`
 * iterates it to the end of the text and records where each token began, and
 * the `Scanner` class is the character-cursor state machine of the source,
 * proved to produce exactly what `LexFrom` describes.
 */
module Lexer {
  import opened Wrappers
  import opened Tokens
  import opened Errors
  import JavaInt

  // ---------------------------------------------------------------------
  // Character classes

  predicate IsAlpha(c: char) {
    ('a' <= c <= 'z') || ('A' <= c <= 'Z') || c == '_'
  }

  predicate IsDigit(c: char) {
    '0' <= c <= '9'
  }

  predicate IsAlphaNumeric(c: char) {
    IsAlpha(c) || IsDigit(c)
  }

  /** The letters a register name may start with. */
  predicate IsRegisterLetter(c: char) {
    c == 'v' || c == 't' || c == 's' || c == 'a'
  }

  /** A register name (the text after `$`) that is not reported as invalid. */
  predicate ValidRegisterName(text: string) {
    |text| == 2 && IsRegisterLetter(text[0]) && IsDigit(text[1])
  }

  /** The characters that form a token on their own, and the category of each. */
  predicate IsPunctuation(c: char) {
    c == '(' || c == ')' || c == ',' || c == ';' || c == ':' || c == '-'
  }

  function PunctuationKind(c: char): TokenType
    requires IsPunctuation(c)
  {
    match c
    case '(' => LeftParen
    case ')' => RightParen
    case ',' => Comma
    case ';' => Semicolon
    case ':' => Colon
    case '-' => Minus
  }

  /** The characters that are skipped without a token or a report. */
  predicate IsWhitespace(c: char) {
    c == ' ' || c == '\r' || c == '\t' || c == '\n'
  }

  // ---------------------------------------------------------------------
  // Keywords

  /** The reserved words and their categories; the lookup is case-sensitive. */
  const Keywords: map<string, TokenType> := map[
    "add" := Add, "sub" := Sub, "and" := And, "sll" := Sll, "srl" := Srl,
    "or" := Or, "addi" := Addi, "subi" := Subi, "andi" := Andi, "ori" := Ori,
    "beq" := Beq, "bnq" := Bnq, "bgt" := Bgt, "bge" := Bge, "blt" := Blt,
    "ble" := Ble, "j" := J, "print" := Print, "mul" := Mul, "div" := Div,
    "muli" := Muli, "divi" := Divi, "swap" := Swap
  ]

  /** The category of a word: its keyword category, or `Identifier` when it is not reserved. */
  function KeywordKind(text: string): TokenType {
    if text in Keywords then Keywords[text] else Identifier
  }

  // ---------------------------------------------------------------------
  // Runs of characters and numeric literals

  /** The end of the longest run of digits that starts at `i`. */
  function DigitsEnd(s: string, i: nat): (e: nat)
    requires i <= |s|
    ensures i <= e <= |s|
    ensures forall k :: i <= k < e ==> IsDigit(s[k])
    ensures e == |s| || !IsDigit(s[e])
    decreases |s| - i
  {
    if i < |s| && IsDigit(s[i]) then DigitsEnd(s, i + 1) else i
  }

  /** The end of the longest run of letters, digits and underscores that starts at `i`. */
  function WordEnd(s: string, i: nat): (e: nat)
    requires i <= |s|
    ensures i <= e <= |s|
    ensures forall k :: i <= k < e ==> IsAlphaNumeric(s[k])
    ensures e == |s| || !IsAlphaNumeric(s[e])
    decreases |s| - i
  {
    if i < |s| && IsAlphaNumeric(s[i]) then WordEnd(s, i + 1) else i
  }

  /**
   * The end of the numeric literal that starts with the digit at `i`: its
   * digits, then a `.` and the digits after it only when a digit follows the `.`.
   */
  function NumberEnd(s: string, i: nat): (e: nat)
    requires i < |s| && IsDigit(s[i])
    ensures i < e <= |s|
    ensures forall k :: i <= k < e ==> IsDigit(s[k]) || s[k] == '.'
    ensures var d := DigitsEnd(s, i + 1);
      if d + 1 < |s| && s[d] == '.' && IsDigit(s[d + 1])
      then e == DigitsEnd(s, d + 1) && e > d + 1
      else e == d
  {
    var d := DigitsEnd(s, i + 1);
    if d + 1 < |s| && s[d] == '.' && IsDigit(s[d + 1]) then DigitsEnd(s, d + 1) else d
  }

  predicate AllDigits(s: string) {
    forall k :: 0 <= k < |s| ==> IsDigit(s[k])
  }

  function DigitValue(c: char): (d: int)
    requires IsDigit(c)
    ensures 0 <= d <= 9
  {
    c as int - '0' as int
  }

  /** The non-negative value of a decimal numeral. */
  function DecimalValue(s: string): (v: nat)
    requires AllDigits(s)
  {
    if s == [] then 0 else 10 * DecimalValue(s[..|s| - 1]) + DigitValue(s[|s| - 1])
  }

  /**
   * `Integer.parseInt` on a numeric lexeme (ASCII digits, possibly with a `.`):
   * its value, or `None` where Java throws `NumberFormatException` because of
   * the `.` or because the value exceeds `Integer.MAX_VALUE`.
   */
  function ParseInt(text: string): Option<int> {
    if |text| > 0 && AllDigits(text) && DecimalValue(text) <= JavaInt.MAX
    then Some(DecimalValue(text))
    else None
  }

  // ---------------------------------------------------------------------
  // One scanning step and the whole scan

  /** What one call of `scanToken` does. */
  datatype Step =
    | Emit(token: Option<Token>, diagnostic: Option<Diagnostic>, next: nat, line: int)
    | BadNumber(lexeme: string, line: int)  // Integer.parseInt threw NumberFormatException

  /** The step that starts at `pos`, on line `line`. */
  function ScanStep(src: string, pos: nat, line: int): (s: Step)
    requires pos < |src|
    ensures s.Emit? ==> pos < s.next <= |src|
  {
    var c := src[pos];
    if IsPunctuation(c) then
      Emit(Some(Token(PunctuationKind(c), [c], None, line)), None, pos + 1, line)
    else if c == ' ' || c == '\r' || c == '\t' then
      Emit(None, None, pos + 1, line)
    else if c == '\n' then
      Emit(None, None, pos + 1, line + 1)
    else if c == '$' then
      var e := WordEnd(src, pos + 1);
      var text := src[pos + 1..e];
      var report := if ValidRegisterName(text) then None else Some(LexicalError(line, InvalidRegister));
      Emit(Some(Token(Register, text, None, line)), report, e, line)
    else if IsDigit(c) then
      var e := NumberEnd(src, pos);
      var text := src[pos..e];
      var value := ParseInt(text);
      if value.None? then BadNumber(text, line)
      else Emit(Some(Token(Number, text, value, line)), None, e, line)
    else if IsAlpha(c) then
      var e := WordEnd(src, pos + 1);
      var text := src[pos..e];
      Emit(Some(Token(KeywordKind(text), text, None, line)), None, e, line)
    else
      Emit(None, Some(LexicalError(line, UnexpectedCharacter)), pos + 1, line)
  }

  /**
   * A scan, with the offset at which each token's step began (`starts`, one
   * per token, the end-of-input token at the length of the source), or the
   * numeric lexeme that made the scan throw, with the reports already sent
   * to `Main.error` before it.
   */
  datatype Lexed =
    | Lexed(tokens: seq<Token>, starts: seq<nat>, diagnostics: seq<Diagnostic>)
    | Malformed(lexeme: string, line: int, diagnostics: seq<Diagnostic>)

  /** Puts the outcome of one step in front of the scan of the rest. */
  function Prepend(token: Option<Token>, start: nat, report: Option<Diagnostic>, rest: Lexed): Lexed {
    if rest.Malformed? then rest.(diagnostics := OptionToSeq(report) + rest.diagnostics)
    else Lexed(OptionToSeq(token) + rest.tokens,
               (if token.Some? then [start] else []) + rest.starts,
               OptionToSeq(report) + rest.diagnostics)
  }

  /** Scanning from offset `pos`, on line `line`, to the end of the source. */
  function LexFrom(src: string, pos: nat, line: int): Lexed
    requires pos <= |src|
    decreases |src| - pos, 1
  {
    if pos == |src| then Lexed([Token(Eof, "", None, line)], [pos], [])
    else Continue(src, pos, ScanStep(src, pos, line))
  }

  /** The scan that follows the step `s`, which began at `pos`. */
  function Continue(src: string, pos: nat, s: Step): Lexed
    requires pos < |src| && (s.Emit? ==> pos < s.next <= |src|)
    decreases |src| - pos, 0
  {
    match s
    case BadNumber(lexeme, l) => Malformed(lexeme, l, [])
    case Emit(token, report, next, l) => Prepend(token, pos, report, LexFrom(src, next, l))
  }

  /**
   * What `scanTokens` hands back: the tokens and the reports, or the
   * exception it threw, after the reports made before it.
   */
  datatype ScanResult =
    | Scanned(tokens: seq<Token>, diagnostics: seq<Diagnostic>)
    | NumberFormatError(lexeme: string, line: int, diagnostics: seq<Diagnostic>)

  function Outcome(l: Lexed): ScanResult {
    match l
    case Lexed(tokens, _, diagnostics) => Scanned(tokens, diagnostics)
    case Malformed(lexeme, line, diagnostics) => NumberFormatError(lexeme, line, diagnostics)
  }

  /** Tokens and reports already collected, followed by a scan of the rest. */
  function Resume(tokens: seq<Token>, diagnostics: seq<Diagnostic>, rest: ScanResult): ScanResult {
    if rest.NumberFormatError? then rest.(diagnostics := diagnostics + rest.diagnostics)
    else Scanned(tokens + rest.tokens, diagnostics + rest.diagnostics)
  }

  /** The scan of a whole source text, from line 1. */
  function Scan(src: string): ScanResult {
    Outcome(LexFrom(src, 0, 1))
  }

  lemma ResumeStep(tokens: seq<Token>, diagnostics: seq<Diagnostic>, src: string, pos: nat, line: int)
    requires pos < |src| && ScanStep(src, pos, line).Emit?
    ensures var s := ScanStep(src, pos, line);
      Resume(tokens, diagnostics, Outcome(LexFrom(src, pos, line)))
      == Resume(tokens + OptionToSeq(s.token), diagnostics + OptionToSeq(s.diagnostic), Outcome(LexFrom(src, s.next, s.line)))
  {
    var s := ScanStep(src, pos, line);
    var rest := LexFrom(src, s.next, s.line);
    assert diagnostics + (OptionToSeq(s.diagnostic) + rest.diagnostics)
        == diagnostics + OptionToSeq(s.diagnostic) + rest.diagnostics;
    if rest.Lexed? {
      assert tokens + (OptionToSeq(s.token) + rest.tokens) == tokens + OptionToSeq(s.token) + rest.tokens;
    }
  }

  // ---------------------------------------------------------------------
  // The scanner object

  class Scanner {
    const source: string
    var tokens: seq<Token>
    var diagnostics: seq<Diagnostic>  // the reports sent to `Main.error`
    var start: nat
    var current: nat
    var line: int

    ghost predicate Valid()
      reads this
    {
      start <= current <= |source|
    }

    constructor (source: string)
      ensures Valid()
      ensures this.source == source && tokens == [] && diagnostics == []
      ensures start == 0 && current == 0 && line == 1
    {
      this.source := source;
      tokens := [];
      diagnostics := [];
      start, current, line := 0, 0, 1;
    }

    /** Scans the rest of the source and appends the end-of-input token. */
    method ScanTokens() returns (r: ScanResult)
      requires Valid()
      modifies this
      ensures r == Resume(old(tokens), old(diagnostics), Outcome(LexFrom(source, old(current), old(line))))
      ensures old(tokens) == [] && old(diagnostics) == [] && old(current) == 0 && old(line) == 1
              ==> r == Scan(source)
    {
      ghost var goal := Resume(tokens, diagnostics, Outcome(LexFrom(source, current, line)));
      while !IsAtEnd()
        invariant Valid()
        invariant Resume(tokens, diagnostics, Outcome(LexFrom(source, current, line))) == goal
        decreases |source| - current
      {
        start := current;
        ghost var before, ts, ds := current, tokens, diagnostics;
        ghost var ln := line;
        var ok := ScanToken();
        if !ok {
          return NumberFormatError(source[start..current], line, diagnostics);
        }
        ResumeStep(ts, ds, source, before, ln);
      }
      tokens := tokens + [Token(Eof, "", None, line)];
      r := Scanned(tokens, diagnostics);
    }

    function IsAtEnd(): bool
      reads this
    {
      current >= |source|
    }

    method Advance() returns (c: char)
      requires current < |source|
      modifies this`current
      ensures current == old(current) + 1 && c == source[old(current)]
    {
      current := current + 1;
      c := source[current - 1];
    }

    /** Appends a token whose lexeme is the text from `start` to `current`. */
    method AddToken(kind: TokenType, literal: Option<int>)
      requires start <= current <= |source|
      modifies this`tokens
      ensures tokens == old(tokens) + [Token(kind, source[start..current], literal, line)]
    {
      var text := source[start..current];
      tokens := tokens + [Token(kind, text, literal, line)];
    }

    /** The character at the cursor, or NUL at the end. */
    function Peek(): char
      reads this
    {
      if IsAtEnd() then '\0' else source[current]
    }

    /** The character after the cursor, or NUL when there is none. */
    function PeekNext(): char
      reads this
    {
      if current + 1 >= |source| then '\0' else source[current + 1]
    }

    /** Records a scanner report on the current line (`Main.error(line, message)`). */
    method Report(message: Message)
      modifies this`diagnostics
      ensures diagnostics == old(diagnostics) + [LexicalError(line, message)]
    {
      diagnostics := diagnostics + [LexicalError(line, message)];
    }

    /** The loop `while (isDigit(peek())) advance();` of `number()`. */
    method SkipDigits()
      requires current <= |source|
      modifies this`current
      ensures current == DigitsEnd(source, old(current))
    {
      ghost var d := DigitsEnd(source, current);
      while IsDigit(Peek())
        invariant old(current) <= current <= |source|
        invariant DigitsEnd(source, current) == d
        decreases |source| - current
      {
        var _ := Advance();
      }
    }

    /** `number()`: consumes the rest of a numeric literal; `false` where `Integer.parseInt` throws. */
    method ScanNumber() returns (ok: bool)
      requires Valid() && start < |source| && current == start + 1 && IsDigit(source[start])
      modifies this`current, this`tokens
      ensures Valid() && current == NumberEnd(source, start)
      ensures ok == ParseInt(source[start..current]).Some?
      ensures tokens == old(tokens)
        + (if ok then [Token(Number, source[start..current], ParseInt(source[start..current]), line)] else [])
    {
      SkipDigits();
      if Peek() == '.' && IsDigit(PeekNext()) {
        var _ := Advance();
        SkipDigits();
      }
      var value := ParseInt(source[start..current]);
      if value.None? {
        return false;
      }
      AddToken(Number, value);
      ok := true;
    }

    /** `identifier()`: consumes the rest of a word and appends its keyword or identifier token. */
    method ScanIdentifier()
      requires Valid() && start < |source| && current == start + 1 && IsAlpha(source[start])
      modifies this`current, this`tokens
      ensures Valid() && current == WordEnd(source, start + 1)
      ensures tokens == old(tokens) + [Token(KeywordKind(source[start..current]), source[start..current], None, line)]
    {
      ghost var e := WordEnd(source, start + 1);
      while IsAlphaNumeric(Peek())
        modifies this`current
        invariant start < current <= |source|
        invariant WordEnd(source, current) == e
        decreases |source| - current
      {
        var _ := Advance();
      }
      var text := source[start..current];
      var kind := KeywordKind(text);
      AddToken(kind, None);
    }

    /** `register()`: consumes a register name after `$`; the lexeme leaves the `$` out. */
    method ScanRegister()
      requires Valid() && start < |source| && current == start + 1 && source[start] == '$'
      modifies this`start, this`current, this`tokens, this`diagnostics
      ensures Valid() && start == old(start) + 1 && current == WordEnd(source, start)
      ensures diagnostics == old(diagnostics)
        + (if ValidRegisterName(source[start..current]) then [] else [LexicalError(line, InvalidRegister)])
      ensures tokens == old(tokens) + [Token(Register, source[start..current], None, line)]
    {
      start := start + 1;
      ghost var e := WordEnd(source, start);
      while IsAlphaNumeric(Peek())
        modifies this`current
        invariant start <= current <= |source|
        invariant WordEnd(source, current) == e
        decreases |source| - current
      {
        var _ := Advance();
      }
      var text := source[start..current];
      if !ValidRegisterName(text) {
        Report(InvalidRegister);
      }
      AddToken(Register, None);
    }

    /** Scans one lexeme starting at `current`; `false` where `Integer.parseInt` throws. */
    method ScanToken() returns (ok: bool)
      requires Valid() && start == current < |source|
      modifies this
      ensures Valid()
      ensures var s := ScanStep(source, old(current), old(line));
        if s.Emit? then
          && ok && current == s.next && line == s.line
          && tokens == old(tokens) + OptionToSeq(s.token)
          && diagnostics == old(diagnostics) + OptionToSeq(s.diagnostic)
        else
          !ok && s.lexeme == source[start..current] && s.line == line && diagnostics == old(diagnostics)
    {
      var c := Advance();
      assert source[start..current] == [c];
      match c
      case '(' => AddToken(LeftParen, None); ok := true;
      case ')' => AddToken(RightParen, None); ok := true;
      case ',' => AddToken(Comma, None); ok := true;
      case ';' => AddToken(Semicolon, None); ok := true;
      case ':' => AddToken(Colon, None); ok := true;
      case '-' => AddToken(Minus, None); ok := true;
      case ' ' => ok := true;
      case '\r' => ok := true;
      case '\t' => ok := true;
      case '\n' => line := line + 1; ok := true;
      case '$' => ScanRegister(); ok := true;
      case _ =>
        if IsDigit(c) {
          ok := ScanNumber();
        } else if IsAlpha(c) {
          ScanIdentifier();
          ok := true;
        } else {
          Report(UnexpectedCharacter);
          ok := true;
        }
    }
  }
}
