# A verified model of the mips_simulator interpreter

mips_simulator runs a small MIPS-like assembly language. One line of source goes through three stages:

- a scanner turns the text into tokens;
- a recursive-descent parser turns the tokens into instructions;
- an interpreter runs the instructions over a register store, with a program counter `pc` and the instruction count `length`.

The model covers those stages, plus the instruction variants and the register store. Each stage has two halves here:

- a pure specification: `Lexer.LexFrom`, `Parsing.ParseFrom`, `Execution.Exec` and `Execution.RunFrom`;
- an imperative class that mirrors the Java object: `Lexer.Scanner`, `Parsing.Parser`, `Registers.Environment` and `Execution.Interpreter`.

Each class's methods are proved to produce exactly what the specification describes. The properties the program promises are proved as lemmas on the specifications.

Modules, one per source file:

- `Tokens`: the token categories and the token record.
- `Errors`: the diagnostics and runtime errors. This replaces the `hadError`/`hadRuntimeError` flags.
- `Lexer` and `LexerProperties`: `Scanner.java`.
- `Parsing` and `ParserProperties`: `Parser.java`.
- `Instructions`: `Inst.java`.
- `Registers`: `Environment.java`.
- `Execution` and `ExecutionProperties`: `Interpreter.java`.
- `JavaInt`: Java's 32-bit `int` arithmetic, which every arithmetic instruction uses.
  - `+`, `-` and `*` wrap around.
  - `/` truncates toward zero, and `MIN / -1` overflows back to `MIN`.
  - `&`, `|` and `^` are defined bit by bit on the two's-complement patterns.
- `BoxedIntegers`: the register store as the code keeps it, one `Integer` object per register, and `beq`/`bnq` comparing those objects (see Findings).
- `Driver`: `Main.run` without its I/O.

How Java's failure modes appear in the model:

- A thrown `ParseError` or `RuntimeError` is a value: `Result.Failure`, or `Fault.Raised`.
- `Integer.parseInt` can throw `NumberFormatException`, for a fractional or too-large literal. Nothing catches it, so it is its own outcome: `Lexer.BadNumber` and `ScanResult.NumberFormatError`. That outcome keeps the reports made before the throw, which `Main.error` had already printed.
- `srl` by zero throws an uncaught `ArithmeticException`. That is also its own outcome, `Fault.ArithmeticCrash`.

An interpreted program need not terminate. The run is therefore bounded by a step budget (`fuel`), and `Outcome.OutOfFuel` means the budget ran out.

Several behaviours of the code are easy to misread. The model does what the code does:

- `add $s0,$s1,$t0` writes `s1 + t0` into `s0`. The first written register is the destination, because of how `Parser.java:36` calls the `Rtype` constructor. So `print $t0` afterwards prints `t0`'s value, not the sum.
- In `div $s0,$s1,$t0`, the divisor is `t0`, not `s1`.
- A branch whose target is exactly `length` raises "Invalid address.". The bounds check accepts only `-1 <= pc < length`.
- `bgt $a,$b,k` tests `b > a`. The parser stores the first written register as `rt` and the second as `rs`, and the interpreter compares `rs` with `rt`.

The one exception is `beq` and `bnq`. The code compares `Integer` references there (see Findings). `Execution` compares values, as for the other four branches. `BoxedIntegers` models the code as written.

## Model

| member | source | states |
|---|---|---|
| JavaInt.Wrap | src/com/mips/Interpreter.java:52-56 | the result of `+`, `-` or `*` is a Java `int`, and a value that already is one is kept |
| JavaInt.WrapCongruent | src/com/mips/Interpreter.java:52-56 | wrapping changes a value by a multiple of 2^32: only the low 32 bits are kept |
| JavaInt.TruncDivTruncates | src/com/mips/Interpreter.java:59 | integer division rounds toward zero: the remainder is smaller in magnitude than the divisor and has the dividend's sign |
| JavaInt.Div | src/com/mips/Interpreter.java:59 | `a / b` on two `int`s with `b != 0` is an `int` |
| JavaInt.DivTruncates | src/com/mips/Interpreter.java:85 | `a / b` is the truncated quotient, except that `MIN / -1` overflows to `MIN` |
| JavaInt.Bitwise | src/com/mips/Interpreter.java:64-68 | combining the low `width` bits of two numbers gives a number below 2^width |
| JavaInt.Pattern | src/com/mips/Interpreter.java:64-68 | the two's-complement pattern of an `int` is `x` or `x + 2^32`, below 2^32 |
| JavaInt.FromPattern | src/com/mips/Interpreter.java:64-68 | the `int` returned has the given 32-bit pattern: the inverse of `Pattern` |
| JavaInt.Apply | src/com/mips/Interpreter.java:90-94 | a bitwise operator on two values gives an `int` |
| JavaInt.And | src/com/mips/Interpreter.java:64 | `a & b` is an `int` |
| JavaInt.Or | src/com/mips/Interpreter.java:66 | `a \| b` is an `int` |
| JavaInt.Xor | src/com/mips/Interpreter.java:68 | `a ^ b` is an `int` |
| JavaInt.SelfCombined | src/com/mips/Interpreter.java:64-68 | `x ^ x == 0`, `x & x == x` and `x \| x == x` for every `int` |
| JavaInt.Commutes | src/com/mips/Interpreter.java:64-68 | `&`, `\|` and `^` are commutative |
| JavaInt.Identities | src/com/mips/Interpreter.java:90-94 | `x & -1 == x`, `x \| 0 == x`, `x ^ 0 == x` and `x & 0 == 0` |
| Lexer.DigitsEnd | src/com/mips/Scanner.java:119-120 | the end of the longest run of digits from a position |
| Lexer.WordEnd | src/com/mips/Scanner.java:135-136 | the end of the longest run of letters, digits and underscores from a position |
| Lexer.NumberEnd | src/com/mips/Scanner.java:118-127 | a numeral is its digits, then a `.` and more digits only when a digit follows the `.` |
| Lexer.ScanStep | src/com/mips/Scanner.java:168-210 | every call of `scanToken` consumes at least one character and stays inside the text |
| Lexer.Scanner.constructor | src/com/mips/Scanner.java:11-18 | a new scanner has no tokens, both cursors at 0 and `line` 1 |
| Lexer.Scanner.ScanTokens | src/com/mips/Scanner.java:55-64 | the loop yields exactly `Scan(source)`: the tokens followed by EOF and the reports, or the `NumberFormatException` |
| Lexer.Scanner.Advance | src/com/mips/Scanner.java:73-76 | returns the character at the cursor and moves the cursor by one |
| Lexer.Scanner.AddToken | src/com/mips/Scanner.java:84-88 | appends a token whose lexeme is the text from `start` to `current`, on the current line |
| Lexer.Scanner.Report | src/com/mips/Scanner.java:163 | records a scanner report on the current line |
| Lexer.Scanner.SkipDigits | src/com/mips/Scanner.java:119-120 | moves the cursor to the end of the run of digits |
| Lexer.Scanner.ScanNumber | src/com/mips/Scanner.java:118-131 | consumes the numeral; appends a NUMBER token with its value, or signals the parse failure |
| Lexer.Scanner.ScanIdentifier | src/com/mips/Scanner.java:134-144 | consumes the word and appends a token of its keyword category, else IDENTIFIER |
| Lexer.Scanner.ScanRegister | src/com/mips/Scanner.java:157-165 | skips the `$`, consumes the name, appends a REGISTER token without the `$`, and reports exactly an invalid name |
| Lexer.Scanner.ScanToken | src/com/mips/Scanner.java:168-210 | one call does exactly what `ScanStep` says: the token, report, cursor and line it leaves |
| LexerProperties.KeywordKindIsWord | src/com/mips/Scanner.java:22-47 | no keyword has a punctuation, REGISTER, NUMBER or EOF category |
| LexerProperties.SingleCharStep | src/com/mips/Scanner.java:171-196 | punctuation gives one token of its category; blanks give nothing; `\n` gives nothing and adds a line; any other character is reported |
| LexerProperties.RegisterStep | src/com/mips/Scanner.java:157-165 | a `$` step gives a well-formed REGISTER token of the text after the `$`, reported iff the name is invalid |
| LexerProperties.WordStep | src/com/mips/Scanner.java:134-144 | a word step gives a token of the word's keyword category, as long as the run allows |
| LexerProperties.NumberStep | src/com/mips/Scanner.java:118-131 | a numeral step that does not throw gives a NUMBER token whose literal is its value |
| LexerProperties.StepFacts | src/com/mips/Scanner.java:168-210 | what every successful step establishes: line count, token, punctuation, skipped characters, report |
| LexerProperties.ScanEndsWithEof | src/com/mips/Scanner.java:55-63 | a scan ends with exactly one EOF token, with an empty lexeme and no literal, on the last line, and has no other EOF |
| LexerProperties.ScanIncreasing | src/com/mips/Scanner.java:56-60 | tokens begin at strictly increasing offsets of the text |
| LexerProperties.ScanLinesCounted | src/com/mips/Scanner.java:189-196 | each token's line is 1 plus the number of line breaks before it |
| LexerProperties.ScanPlaced | src/com/mips/Scanner.java:84-88 | each token is the source text at its offset (after the `$` for a register), longest possible, well formed, and ends before the next begins |
| LexerProperties.ScanKeepsPunctuation | src/com/mips/Scanner.java:171-188 | every `( ) , ; : -` in the text is a token of its category whose lexeme is that character |
| LexerProperties.ScanReportsFaithful | src/com/mips/Scanner.java:200-207 | every report is a scanner report; the "Invalid register." reports are exactly one per register token with an invalid name, in order and on that token's line; there are as many "Unexpected character." reports as unknown characters |
| LexerProperties.ScanWellFormed | src/com/mips/Scanner.java:55-63 | the tokens end with EOF, the others are well formed, and every NUMBER token has its non-negative `int` value as the literal |
| LexerProperties.PunctuationTokens | src/com/mips/Scanner.java:171-188 | a well-formed token is punctuation exactly when its lexeme is one punctuation character of that category |
| LexerProperties.FractionThrows | src/com/mips/Scanner.java:122-130 | a numeral with a fraction makes `Integer.parseInt` throw on the whole numeral |
| LexerProperties.OverflowThrows | src/com/mips/Scanner.java:129-130 | a whole numeral above `Integer.MAX_VALUE` makes the scan throw |
| LexerProperties.CrashKeepsEarlierReports | src/com/mips/Scanner.java:55-64 | in `#1.5` the report for `#` is made before `Integer.parseInt` throws on `1.5`, and the crash keeps it |
| LexerProperties.ParseIntRoundTrip | src/com/mips/Scanner.java:129-130 | `Integer.parseInt` reads the decimal numeral of every non-negative `int` back as that number |
| LexerProperties.LeadingZeroIgnored | src/com/mips/Scanner.java:129-130 | a leading zero does not change what `Integer.parseInt` reads or whether it throws |
| LexerProperties.TrailingDotNotConsumed | src/com/mips/Scanner.java:122 | a `.` not followed by a digit ends the numeral and is then reported as unexpected |
| LexerProperties.KeywordsCaseSensitive | src/com/mips/Scanner.java:139 | `add` is a keyword, while `ADD` and `Add` are identifiers |
| LexerProperties.KeywordsMissing | src/com/mips/Scanner.java:22-47 | `lw`, `sw`, `not`, `xor`, `xori` and `mod` scan as identifiers |
| Parsing.Next | src/com/mips/Parser.java:121-125 | `advance` never moves past the EOF token |
| Parsing.FirstEof | src/com/mips/Parser.java:145-147 | the first EOF token at or after a position, with none before it |
| Parsing.ConsumeAt | src/com/mips/Parser.java:109-119 | `consume` succeeds exactly on a token of the kind and moves past it; otherwise the error is at that token with the given message |
| Parsing.NumberAt | src/com/mips/Parser.java:48-52 | `NUMBER ;` moves the cursor at least two tokens on; an error is reported at a token from the cursor on |
| Parsing.SignedNumber | src/com/mips/Parser.java:45-52 | `[-] NUMBER ;` moves the cursor at least two tokens on; an error is reported at a token from the cursor on |
| Parsing.OperandAt | src/com/mips/Parser.java:30-31 | `REGISTER ,` moves the cursor exactly two tokens on; an error is reported at a token from the cursor on |
| Parsing.RegisterForm | src/com/mips/Parser.java:29-36 | the register form moves past the opcode, or its error is reported after the opcode |
| Parsing.TwoRegisterForm | src/com/mips/Parser.java:39-53 | the immediate/branch form moves past the opcode, or its error is reported after the opcode |
| Parsing.JumpForm | src/com/mips/Parser.java:76-86 | the jump form moves past the opcode, or its error is reported after the opcode |
| Parsing.PrintForm | src/com/mips/Parser.java:89-92 | the fallback form moves the cursor on, or reports its error at a token from the cursor on |
| Parsing.PrintOperandAt | src/com/mips/Parser.java:90-92 | `REGISTER ;` moves the cursor on, or reports its error at a token from the cursor on |
| Parsing.FormOf | src/com/mips/Parser.java:28-93 | a leading token selects the register, immediate, branch or jump form exactly when its category is in that opcode list, and the print form otherwise |
| Parsing.Statement | src/com/mips/Parser.java:26-93 | a statement that succeeds moves the cursor strictly forward; a failure is reported at a token at or after the cursor |
| Parsing.Resume | src/com/mips/Parser.java:94-97 | after each `instruction` the cursor has strictly advanced, so `parse` terminates |
| Parsing.Parser.constructor | src/com/mips/Parser.java:15-17 | a new parser has the cursor at 0 and no reports |
| Parsing.Parser.Parse | src/com/mips/Parser.java:19-25 | the loop returns exactly the instructions of `ParseFrom`, records its reports, and stops at EOF |
| Parsing.Parser.Instruction | src/com/mips/Parser.java:26-98 | returns the statement, or null after `synchronize`, with the cursor and reports `Statement` implies |
| Parsing.Parser.InstructionBody | src/com/mips/Parser.java:27-93 | the `try` block returns the statement `Statement` describes, or throws at the token it describes, after one report |
| Parsing.Parser.RegisterStatement | src/com/mips/Parser.java:29-36 | reads the register form as `RegisterForm` describes |
| Parsing.Parser.TwoRegisterStatement | src/com/mips/Parser.java:39-53 | reads the immediate or branch form as `TwoRegisterForm` describes |
| Parsing.Parser.Operand | src/com/mips/Parser.java:30-31 | reads `REGISTER ,` and returns the register token |
| Parsing.Parser.JumpStatement | src/com/mips/Parser.java:76-86 | reads the jump form as `JumpForm` describes |
| Parsing.Parser.SignedNumberTail | src/com/mips/Parser.java:45-52 | reads `[-] NUMBER ;` as `SignedNumber` describes |
| Parsing.Parser.NumberTail | src/com/mips/Parser.java:48-52 | reads `NUMBER ;`, negating the literal after a minus |
| Parsing.Parser.PrintStatement | src/com/mips/Parser.java:88-93 | skips an optional `print`, then reads `REGISTER ;` |
| Parsing.Parser.PrintOperand | src/com/mips/Parser.java:90-92 | reads `REGISTER ;` and returns the print instruction |
| Parsing.Parser.Match | src/com/mips/Parser.java:99-107 | advances exactly when the current token is not EOF and has one of the categories |
| Parsing.Parser.Consume | src/com/mips/Parser.java:109-113 | returns the current token and advances when it has the category; otherwise reports at it and throws, without moving |
| Parsing.Parser.Advance | src/com/mips/Parser.java:121-125 | moves one token on except at EOF and returns the token before the cursor |
| Parsing.Parser.Error | src/com/mips/Parser.java:139-142 | records the report for the token and message |
| Parsing.Parser.Synchronize | src/com/mips/Parser.java:143-148 | one `advance`, then skips to the EOF token |
| ParserProperties.SignedNumberShape | src/com/mips/Parser.java:45-52 | `[-] NUMBER ;` is read exactly when present; the lexeme and line are kept; after a minus the literal is negated, with `-(-2147483648)` wrapping back to `-2147483648` |
| ParserProperties.SignedNumberSucceeds | src/com/mips/Parser.java:45-52 | `[-] NUMBER ;` is read exactly when it is there |
| ParserProperties.StatementByForm | src/com/mips/Parser.java:28-93 | the statement is the form its leading token selects, with that form's messages |
| ParserProperties.OperandShape | src/com/mips/Parser.java:30-31 | `REGISTER ,` is read exactly when it is there |
| ParserProperties.RegisterFormShape | src/com/mips/Parser.java:29-36 | the register form succeeds iff `R1 , R2 , R3 ;` follows, giving `Rtype(op, R1, R2, R3)` after 7 tokens |
| ParserProperties.RegisterStatementShape | src/com/mips/Parser.java:28-36 | `op R1 , R2 , R3 ;` with `op` in add/sub/and/or/mul/div parses iff that shape is there, and gives `Rtype(op, R1, R2, R3)` with `R1` as `rd` |
| ParserProperties.TwoRegisterFormShape | src/com/mips/Parser.java:39-53 | the shared form succeeds iff `R1 , R2 , [-] N ;` follows, and gives `Itype(op, R1, R2, imm)` |
| ParserProperties.TwoRegisterFormSucceeds | src/com/mips/Parser.java:39-53 | the shared form succeeds exactly when `R1 , R2 , [-] N ;` follows |
| ParserProperties.ImmediateStatementShape | src/com/mips/Parser.java:38-53 | an immediate opcode (swap included) parses iff `R1 , R2 , [-] N ;` follows, giving `Itype(op, R1, R2, imm)` with `R1` as `rt` |
| ParserProperties.BranchStatementShape | src/com/mips/Parser.java:56-72 | a branch parses iff `R1 , R2 , [-] N ;` follows, giving `Itype(op, R1, R2, offset)` |
| ParserProperties.JumpStatementShape | src/com/mips/Parser.java:75-86 | `j [-] N ;` parses iff present, giving `Jtype(j, address)` |
| ParserProperties.PrintStatementShape | src/com/mips/Parser.java:88-93 | any other leading token is the print form: `R ;` and `print R ;` give `Print(R)` and nothing else parses |
| ParserProperties.IdentifierStatementFails | src/com/mips/Parser.java:88-90 | a statement starting with an identifier fails at once with "Expect register." at that token |
| ParserProperties.StatementWellFormed | src/com/mips/Parser.java:48-50 | every instruction built carries the `int` literals the interpreter casts |
| ParserProperties.ParseAtMostOneError | src/com/mips/Parser.java:94-97 | from any cursor, a parse has at most one error, exactly when some slot is null, and that slot is the last |
| ParserProperties.ParseHasAtMostOneError | src/com/mips/Parser.java:143-148 | because `synchronize` skips to EOF, a whole parse has at most one report, and its null slot is the last |
| ParserProperties.ParseWellFormed | src/com/mips/Parser.java:19-25 | every instruction of a parse is well formed |
| ParserProperties.ParseLength | src/com/mips/Parser.java:19-25 | a parse from a cursor has at most one slot per token between the cursor and the final EOF, and none exactly when the cursor is at EOF |
| Registers.Environment.constructor | src/com/mips/Environment.java:9 | a new store is empty |
| Registers.Environment.Assign | src/com/mips/Environment.java:19-26 | `put` when the key is there, `define` when it is not |
| Registers.Environment.Define | src/com/mips/Environment.java:28-30 | the map with `name` set to `value` |
| Registers.AssignIsUpsert | src/com/mips/Environment.java:21-25 | both paths of `assign` end as the same `put`, and add exactly the lexeme to the keys |
| Registers.GetAfterAssign | src/com/mips/Environment.java:19-29 | after `assign(n, v)`, `get(n)` is `v` and every other lexeme reads as before |
| Registers.LexemesAlias | src/com/mips/Environment.java:13-14 | tokens with the same lexeme share one register, whatever their category or line |
| Registers.NeverAssignedReadsZero | src/com/mips/Environment.java:12-16 | from an empty store, a lexeme no `assign` named reads as 0 |
| Registers.UnassignedKeepsValue | src/com/mips/Environment.java:19-29 | a series of `assign` calls that never names a lexeme leaves its value alone |
| Execution.Exec | src/com/mips/Inst.java:24-26 | `accept` dispatches to the visitor method of the variant; an instruction that does not fault leaves `pc` in `[-1, length - 1]` |
| Execution.StepTaken | src/com/mips/Interpreter.java:19-21 | with `pc < length` and budget left, the loop executes `instructions[pc]` and continues from its result |
| Execution.StepContinues | src/com/mips/Interpreter.java:19-21 | an instruction without a fault is followed by `pc++` and the rest of the loop |
| Execution.StepHalts | src/com/mips/Interpreter.java:15-25 | an instruction with a fault ends the run in the state it left |
| Execution.Interpreter.constructor | src/com/mips/Interpreter.java:10-12 | a new interpreter has an empty store, `pc` 0 and no output |
| Execution.Interpreter.Interpret | src/com/mips/Interpreter.java:15-25 | resets `pc`, sets `length`, keeps the store and the output, and ends exactly as `RunFrom` does |
| Execution.Interpreter.ExecuteCurrent | src/com/mips/Interpreter.java:20 | one pass of the loop body is one step of `RunFrom` |
| Execution.Interpreter.Accept | src/com/mips/Interpreter.java:20 | `accept` changes the state exactly as `Exec` says, and raises the fault `Exec` names |
| Execution.Interpreter.SetRegValue | src/com/mips/Interpreter.java:44-46 | `setRegValue` is `assign` on the store |
| Execution.Interpreter.VisitRtype | src/com/mips/Interpreter.java:50-71 | `visitRtypeInst` does what `ExecRtype` says |
| Execution.Interpreter.RegisterArithmeticOn | src/com/mips/Interpreter.java:51-69 | the opcode cases on the values of `rs` and `rt` do what `ExecRegister` says |
| Execution.Interpreter.VisitItype | src/com/mips/Interpreter.java:74-150 | `visitItypeInst` does what `ExecItype` says |
| Execution.Interpreter.ArithmeticOn | src/com/mips/Interpreter.java:75-98 | the arithmetic cases do what `ExecImmediate` says |
| Execution.Interpreter.BranchOn | src/com/mips/Interpreter.java:99-142 | a taken branch adds the offset to `pc`, wrapping, and faults outside `[-1, length - 1]` |
| Execution.Interpreter.VisitJtype | src/com/mips/Interpreter.java:153-160 | `visitJtypeInst` does what `ExecJtype` says |
| Execution.Interpreter.VisitPrint | src/com/mips/Interpreter.java:163-166 | `visitPrintInst` appends the value of `rd` to the output |
| ExecutionProperties.ReadIsInt | src/com/mips/Interpreter.java:35-41 | a store of `int`s reads as an `int` |
| ExecutionProperties.WriteKeepsInt | src/com/mips/Interpreter.java:44-46 | writing an `int` keeps a store of `int`s |
| ExecutionProperties.ExecKeepsIntRegisters | src/com/mips/Interpreter.java:50-150 | every instruction stores only `int` values |
| ExecutionProperties.RegisterOpWrites | src/com/mips/Interpreter.java:50-69 | add, sub, mul, div by non-zero, and, or and xor write `rs OP rt`, as a Java `int`, into `rd`, change no other register, and leave `pc` and the output alone |
| ExecutionProperties.DivisionByZeroRaises | src/com/mips/Interpreter.java:57-62 | div by a zero register and divi by 0 raise "Division by zero." on the opcode and change nothing |
| ExecutionProperties.ImmediateArithmeticWrites | src/com/mips/Interpreter.java:75-88 | addi, subi, muli and divi by non-zero write `rs OP imm`, as a Java `int`, into `rt`, change no other register, and leave `pc` and the output alone |
| ExecutionProperties.ImmediateBitwiseWrites | src/com/mips/Interpreter.java:89-94 | andi, ori and xori write `rs OP imm` into `rt` and change nothing else |
| ExecutionProperties.ShiftWrites | src/com/mips/Interpreter.java:95-98 | sll and srl do not shift: sll writes `(rs * imm) * 2` and srl (by non-zero) `(rs / imm) * 2` into `rt`, with nothing else changed |
| ExecutionProperties.ShiftRightByZeroCrashes | src/com/mips/Interpreter.java:97-98 | srl by 0 is an uncaught `ArithmeticException`, not a `RuntimeError` |
| ExecutionProperties.IgnoredOpcodes | src/com/mips/Interpreter.java:74-150 | lw, sw and register opcodes outside the arithmetic list do nothing |
| ExecutionProperties.BranchSemantics | src/com/mips/Interpreter.java:99-142 | a branch never writes: when its relation holds it adds the offset to `pc` and faults "Invalid address." exactly when the target is outside `[-1, length - 1]`; otherwise it does nothing |
| ExecutionProperties.BranchRelations | src/com/mips/Interpreter.java:99-142 | beq, bnq, bgt, bge, blt and ble test `==`, `!=`, `>`, `>=`, `<` and `<=` on the values of `rs` and `rt` |
| ExecutionProperties.JumpSemantics | src/com/mips/Interpreter.java:153-159 | `j n` never writes; it is accepted exactly for `1 <= n <= length + 1`, then sets `pc` to `n - 2`, and otherwise faults "Invalid jump address." |
| ExecutionProperties.JumpToOneRestarts | src/com/mips/Interpreter.java:153-158 | `j 1` continues the run at instruction 0 |
| ExecutionProperties.SwapExchanges | src/com/mips/Interpreter.java:143-147 | swap exchanges the values of `rs` and `rt` and leaves every other register alone |
| ExecutionProperties.SelfSwapChangesNothing | src/com/mips/Interpreter.java:143-147 | a register swapped with itself reads as it did |
| ExecutionProperties.PrintEmits | src/com/mips/Interpreter.java:163-166 | print appends the value of `rd` (0 if never written) and changes no other state |
| ExecutionProperties.FaultWritesNothing | src/com/mips/Interpreter.java:57-62 | an instruction that faults writes no register and prints nothing |
| ExecutionProperties.FaultEndsRun | src/com/mips/Interpreter.java:15-25 | a fault ends the run at once, keeping every register written and value printed before it |
| ExecutionProperties.RunKeepsIntRegisters | src/com/mips/Interpreter.java:15-25 | a run stores only `int` values |
| ExecutionProperties.RunExtendsOutput | src/com/mips/Interpreter.java:163-166 | a run only appends to the output |
| ExecutionProperties.ExecExtendsOutput | src/com/mips/Interpreter.java:163-166 | one instruction only appends to the output |
| ExecutionProperties.FuelMonotone | src/com/mips/Interpreter.java:15-25 | a run that ended is unchanged by a larger budget, so nothing executes after a fault |
| ExecutionProperties.RunEndsAtLength | src/com/mips/Interpreter.java:19 | a completed run stops at `pc == length`; a run cut short by the budget is inside the program |
| ExecutionProperties.AddImmediateThenPrint | src/com/mips/Interpreter.java:75-76 | `addi $t0,$t1,5; print $t0;` on an empty store prints 5 and leaves `t0 = 5` |
| ExecutionProperties.BranchToSelfNeverEnds | src/com/mips/Interpreter.java:99-104 | `beq $t0,$t0,-1;` runs out of any budget without changing the state |
| BoxedIntegers.Box | src/com/mips/Interpreter.java:44-46 | boxing keeps the value, and gives a shared object exactly for values in the default cache [-128, 127] |
| BoxedIntegers.AsWrittenAgreesOtherwise | src/com/mips/Interpreter.java:99-110 | the reference comparison differs from the value comparison exactly for beq/bnq on equal values outside [-128, 127] boxed by different conversions |
| BoxedIntegers.ReadRef | src/com/mips/Interpreter.java:35-41 | `getRegValue` returns an object holding the value the model reads, the cached 0 for a register never written |
| BoxedIntegers.ExecBoxed | src/com/mips/Interpreter.java:74-150 | one instruction as written that raises nothing leaves `pc` in `[-1, length - 1]` |
| BoxedIntegers.ValuesAgree | src/com/mips/Interpreter.java:44-46 | on every instruction but beq and bnq, the objects as written hold the values `Exec` computes, with the same fault and output |
| BoxedIntegers.BranchAgrees | src/com/mips/Interpreter.java:99-110 | on a store of canonical objects, beq/bnq as written decide as by value unless two different objects hold one value outside the cache; `beq $r,$r,k` always agrees |
| BoxedIntegers.SwapMovesObjects | src/com/mips/Interpreter.java:143-147 | `swap` exchanges the two objects themselves and boxes nothing |
| BoxedIntegers.ExecKeepsCanonical | src/com/mips/Interpreter.java:44-46 | every instruction keeps each stored object as `Integer.valueOf` makes it, and each allocated object older than the next boxing |
| BoxedIntegers.WriteIsFresh | src/com/mips/Interpreter.java:44-46 | a value outside the cache written into a register is an object no register held before |
| BoxedIntegers.SeparateWritesDoNotBranch | src/com/mips/Interpreter.java:99-104 | `addi $t0,$t1,1000; addi $t2,$t1,1000; beq $t0,$t2,1; print $t0;` prints 1000 as written, holding two objects; by value it branches over the print and prints nothing |
| Driver.ScannedTokensParsable | src/com/mips/Main.java:78-84 | the tokens of a scan that does not throw are what the parser needs |
| Driver.Present | src/com/mips/Main.java:84-91 | the instructions of a parse without nulls, in order |
| Driver.Run | src/com/mips/Main.java:76-94 | `run` crashes exactly when the scan throws, keeping the reports made before the throw; it stops, with every report in order, exactly when a report was made; otherwise it runs an instruction list without nulls |
| Driver.AddWritesFirstRegister | src/com/mips/Parser.java:28-36 | `add R1, R2, R3;` parses and then writes `R2 + R3` into `R1` |
| Driver.AddImmediateWritesFirstRegister | src/com/mips/Parser.java:38-53 | `addi R1, R2, N;` parses and then writes `R2 + N` into `R1` |
| Driver.GreaterBranchTestsSecondOverFirst | src/com/mips/Parser.java:56-72 | `bgt R1, R2, k;` parses and then branches when `R2 > R1` |
| Driver.GreaterBranchOperands | src/com/mips/Interpreter.java:113-119 | bgt on `Itype(op, R1, R2, k)` tests `R2 > R1` |

## Left out

- `Main.java` apart from `run`: argument checks, file reading, the prompt loop, the `System.exit` status codes and the format of the messages on standard error. These are I/O. `Driver.Run` returns the reports and the outcome as values instead.
- The `hadRuntimeError` check before a run (exit status 70, `Main.java:88-89`) is not modelled, because the flag is never set at that point. `interpret` catches each `RuntimeError` and `Main.runtimeError` only sets the flag. A file is run once, and `runFile` then looks only at `hadError`. At the prompt both flags are cleared after each line.
- `System.out.println` in print: the output is a sequence of the printed `int` values.
- The `"nil"` branch of `stringify`: a register read never returns null.
- `Token.toString`: debug rendering only.
- The values the visitor methods return: `interpret` discards them.
- `Execution.Interpreter.Interpret`: does not model a run that never ends. It takes a step budget and returns `OutOfFuel` when the budget is spent.
- `Execution.BranchTaken`, `ExecutionProperties.BranchRelations`, `Execution.Interpreter.VisitItype`: `beq` and `bnq` compare the values of `rs` and `rt`. That is the corrected behaviour of the Findings table, not the code's reference comparison. `Execution.Exec`, `Execution.RunFrom` and `Execution.Interpreter` inherit it. The code as written is `BoxedIntegers.ExecBoxed` and `BoxedIntegers.RunBoxed`.
- `BoxedIntegers.Box`: assumes the default `Integer` cache. Section 5.1.7 of the Java Language Specification requires sharing only for [-128, 127], and a JVM started with `-XX:AutoBoxCacheMax` shares more values.
- `Lexer.ScanStep`, `LexerProperties.ScanReportsFaithful`: the text is a sequence of Unicode characters, while a Java `String` is a sequence of UTF-16 code units. A character outside the Basic Multilingual Plane, such as U+1F600, is two units, so Java makes two "Unexpected character." reports for it and the model makes one.
- Messages are the `Errors.Message` datatype. `Errors.Text` gives the exact strings of the source.
- lw and sw: the parser accepts them, but the scanner has no keyword for them, so no source text reaches them. They are modelled as the no-ops the interpreter makes them. xor, xori, mod and not appear only in the token enumeration. The interpreter's `XOR`/`XORI` cases are modelled, but no source text reaches them.
- `Execution.Exec`: requires that every I-type immediate and J-type address carries an `int` literal. Every instruction the parser builds does (`ParserProperties.ParseWellFormed`). The Java `(Integer)` cast would throw on any other instruction, which cannot occur.
- `JavaInt.And`, `JavaInt.Or`, `JavaInt.Xor`: defined bit by bit on the two's-complement patterns rather than through 32-bit vectors. Their contracts state only that the result is an `int`. The partner lemmas `SelfCombined`, `Commutes` and `Identities` state what they compute.
- Several methods are split further than the Java code, one method per statement form or loop. Their contracts compose back to the Java method: `Parser.InstructionBody` for the `try` block of `instruction`, and `Interpreter.ExecuteCurrent` for the loop body of `interpret`.

## Findings

| source | as written | input that shows it | evidently intended | confidence | as-written member | corrected member |
|---|---|---|---|---|---|---|
| src/com/mips/Interpreter.java:100 | `beq` and `bnq` compare the two `Integer` objects from `getRegValue` with `==` and `!=`. This compares references. `setRegValue` boxes every computed value, and on a JVM with the default cache `Integer.valueOf` shares objects only for values in [-128, 127] (section 5.1.7 of the Java Language Specification). | `addi $t0,$t1,1000; addi $t2,$t1,1000; beq $t0,$t2,1; print $t0;` prints 1000: `beq` is not taken, although both registers hold 1000 | compare the values, as `bgt`, `bge`, `blt` and `ble` do | not executed | BoxedIntegers.ExecBoxed, BoxedIntegers.SeparateWritesDoNotBranch | Execution.BranchTaken, ExecutionProperties.BranchRelations |
