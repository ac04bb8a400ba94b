/**
 * What a scan guarantees about its tokens: one end-of-input token at the end
 * and nowhere else, each token's line and place in the source, the category
 * its text determines, no punctuation character lost, and exactly which
 * reports are made.
 */
module LexerProperties {
  import opened Wrappers
  import opened Tokens
  import opened Errors
  import opened Lexer
  import JavaInt

  // ---------------------------------------------------------------------
  // Vocabulary

  /** The number of line breaks in a text. */
  function Newlines(s: string): nat {
    if s == [] then 0 else Newlines(s[..|s| - 1]) + (if s[|s| - 1] == '\n' then 1 else 0)
  }

  predicate AllAlphaNumeric(s: string) {
    forall k :: 0 <= k < |s| ==> IsAlphaNumeric(s[k])
  }

  /** A character that the scanner reports as unexpected. */
  predicate IsStray(c: char) {
    !IsPunctuation(c) && !IsWhitespace(c) && c != '$' && !IsDigit(c) && !IsAlpha(c)
  }

  /** The categories of the one-character tokens. */
  predicate IsPunctuationKind(k: TokenType) {
    k == LeftParen || k == RightParen || k == Comma || k == Semicolon || k == Colon || k == Minus
  }

  /** The offset just past the source text of a token whose step began at `p`. */
  function SpanEnd(t: Token, p: nat): nat {
    p + |t.lexeme| + (if t.kind == Register then 1 else 0)
  }

  /** The token's lexeme is the source text at `p` (after the `$` for a register). */
  predicate LexemeAt(src: string, t: Token, p: nat) {
    && SpanEnd(t, p) <= |src|
    && if t.kind == Register then src[p] == '$' && src[p + 1..SpanEnd(t, p)] == t.lexeme
       else src[p..SpanEnd(t, p)] == t.lexeme
  }

  /** The lexeme could not have been longer: the character after it does not continue it. */
  predicate Maximal(src: string, t: Token, e: nat)
    requires e <= |src|
  {
    if t.kind == Number then
      e == |src| || (!IsDigit(src[e]) && !(src[e] == '.' && e + 1 < |src| && IsDigit(src[e + 1])))
    else if t.kind == Register || (|t.lexeme| > 0 && IsAlpha(t.lexeme[0])) then
      e == |src| || !IsAlphaNumeric(src[e])
    else
      true
  }

  /**
   * The category of a token other than end-of-input agrees with its text:
   * a punctuation character, a register name of letters and digits, a
   * decimal numeral that fits in an `int` with its value as the literal, or a
   * word whose category is its keyword category.
   */
  predicate WellFormedToken(t: Token) {
    if t.kind == Eof then false
    else if t.kind == Register then t.literal.None? && AllAlphaNumeric(t.lexeme)
    else if t.kind == Number then
      && |t.lexeme| > 0 && AllDigits(t.lexeme) && DecimalValue(t.lexeme) <= JavaInt.MAX
      && t.literal == Some(DecimalValue(t.lexeme))
    else
      && t.literal.None?
      && (|| (|t.lexeme| == 1 && IsPunctuation(t.lexeme[0]) && t.kind == PunctuationKind(t.lexeme[0]))
          || (|t.lexeme| > 0 && IsAlpha(t.lexeme[0]) && AllAlphaNumeric(t.lexeme) && t.kind == KeywordKind(t.lexeme)))
  }

  /** The reports a run of tokens earns for invalid register names, in order. */
  function InvalidRegisterReports(ts: seq<Token>): seq<Diagnostic> {
    if ts == [] then []
    else
      (if ts[0].kind == Register && !ValidRegisterName(ts[0].lexeme)
       then [LexicalError(ts[0].line, InvalidRegister)] else [])
      + InvalidRegisterReports(ts[1..])
  }

  /** The reports with a given message, in order. */
  function ReportsWith(ds: seq<Diagnostic>, message: Message): seq<Diagnostic> {
    if ds == [] then []
    else (if ds[0].message == message then [ds[0]] else []) + ReportsWith(ds[1..], message)
  }

  /** The number of unexpected characters in a text. */
  function StrayCount(s: string): nat {
    if s == [] then 0 else StrayCount(s[..|s| - 1]) + (if IsStray(s[|s| - 1]) then 1 else 0)
  }

  // ---------------------------------------------------------------------
  // Arithmetic of the counting functions

  lemma {:induction false} NewlinesAppend(a: string, b: string)
    ensures Newlines(a + b) == Newlines(a) + Newlines(b)
  {
    if b == [] {
      assert a + b == a;
    } else {
      assert (a + b)[..|a + b| - 1] == a + b[..|b| - 1];
      NewlinesAppend(a, b[..|b| - 1]);
    }
  }

  lemma {:induction false} NoNewlines(s: string)
    requires forall k :: 0 <= k < |s| ==> s[k] != '\n'
    ensures Newlines(s) == 0
  {
    if s != [] {
      NoNewlines(s[..|s| - 1]);
    }
  }

  lemma {:induction false} StrayCountAppend(a: string, b: string)
    ensures StrayCount(a + b) == StrayCount(a) + StrayCount(b)
  {
    if b == [] {
      assert a + b == a;
    } else {
      assert (a + b)[..|a + b| - 1] == a + b[..|b| - 1];
      StrayCountAppend(a, b[..|b| - 1]);
    }
  }

  lemma {:induction false} NoStray(s: string)
    requires forall k :: 0 <= k < |s| ==> !IsStray(s[k])
    ensures StrayCount(s) == 0
  {
    if s != [] {
      NoStray(s[..|s| - 1]);
    }
  }

  lemma {:induction false} ReportsWithAppend(a: seq<Diagnostic>, b: seq<Diagnostic>, message: Message)
    ensures ReportsWith(a + b, message) == ReportsWith(a, message) + ReportsWith(b, message)
  {
    if a == [] {
      assert a + b == b;
    } else {
      assert (a + b)[0] == a[0] && (a + b)[1..] == a[1..] + b;
      ReportsWithAppend(a[1..], b, message);
      var head := if a[0].message == message then [a[0]] else [];
      assert ReportsWith(a + b, message) == head + ReportsWith(a[1..] + b, message);
      assert head + (ReportsWith(a[1..], message) + ReportsWith(b, message))
          == (head + ReportsWith(a[1..], message)) + ReportsWith(b, message);
    }
  }

  lemma {:induction false} InvalidRegisterReportsAppend(a: seq<Token>, b: seq<Token>)
    ensures InvalidRegisterReports(a + b) == InvalidRegisterReports(a) + InvalidRegisterReports(b)
  {
    if a == [] {
      assert a + b == b;
    } else {
      assert (a + b)[1..] == a[1..] + b;
      InvalidRegisterReportsAppend(a[1..], b);
    }
  }

  // ---------------------------------------------------------------------
  // One step

  /** The words of the keyword table are words, and their categories are not punctuation. */
  lemma KeywordKindIsWord(text: string)
    ensures !IsPunctuationKind(KeywordKind(text))
    ensures KeywordKind(text) != Register && KeywordKind(text) != Number && KeywordKind(text) != Eof
  {
  }

  // What one successful step establishes, in parts

  /** The step ends on one more line for each line break it consumed. */
  predicate LineSound(src: string, pos: nat, line: int, s: Step)
    requires s.Emit? && pos <= s.next <= |src|
  {
    s.line == line + Newlines(src[pos..s.next])
  }

  /** The token the step adds is well formed, on the step's line, and is the text the step consumed. */
  predicate TokenSound(src: string, pos: nat, line: int, s: Step)
    requires s.Emit? && pos <= s.next <= |src|
  {
    s.token.Some? ==>
      && WellFormedToken(s.token.value) && s.token.value.line == line
      && LexemeAt(src, s.token.value, pos) && SpanEnd(s.token.value, pos) == s.next
      && Maximal(src, s.token.value, s.next)
  }

  /** A punctuation character becomes a token of its own. */
  predicate PunctuationSound(src: string, pos: nat, line: int, s: Step)
    requires s.Emit? && pos < |src|
  {
    IsPunctuation(src[pos]) ==> s.token == Some(Token(PunctuationKind(src[pos]), [src[pos]], None, line))
  }

  /** The characters the step consumes after its first are letters, digits or underscores. */
  predicate InteriorSound(src: string, pos: nat, s: Step)
    requires s.Emit? && s.next <= |src|
  {
    forall k :: pos < k < s.next ==> IsAlphaNumeric(src[k])
  }

  /** Exactly a blank or an unknown character is skipped without a token, and alone. */
  predicate SkipSound(src: string, pos: nat, s: Step)
    requires s.Emit? && pos < |src|
  {
    && (s.token.None? <==> (IsWhitespace(src[pos]) || IsStray(src[pos])))
    && (s.token.None? ==> s.next == pos + 1)
  }

  /** The report the step makes, if any. */
  predicate ReportSound(src: string, pos: nat, line: int, s: Step)
    requires s.Emit? && pos < |src|
  {
    s.diagnostic == (
      if s.token.Some? && s.token.value.kind == Register && !ValidRegisterName(s.token.value.lexeme)
      then Some(LexicalError(line, InvalidRegister))
      else if s.token.None? && IsStray(src[pos]) then Some(LexicalError(line, UnexpectedCharacter))
      else None)
  }

  predicate StepSound(src: string, pos: nat, line: int, s: Step)
    requires pos < |src| && s.Emit? && pos < s.next <= |src|
  {
    && LineSound(src, pos, line, s) && TokenSound(src, pos, line, s) && PunctuationSound(src, pos, line, s)
    && InteriorSound(src, pos, s) && SkipSound(src, pos, s) && ReportSound(src, pos, line, s)
  }

  lemma SingleCharStep(src: string, pos: nat, line: int)
    requires pos < |src| && !IsDigit(src[pos]) && !IsAlpha(src[pos]) && src[pos] != '$'
    ensures ScanStep(src, pos, line).Emit? && ScanStep(src, pos, line).next == pos + 1
    ensures StepSound(src, pos, line, ScanStep(src, pos, line))
  {
    var c := src[pos];
    assert src[pos..pos + 1] == [c];
    if c == '\n' {
      assert [c][..0] == [];
    } else {
      NoNewlines([c]);
    }
  }

  lemma RegisterStep(src: string, pos: nat, line: int)
    requires pos < |src| && src[pos] == '$'
    ensures ScanStep(src, pos, line).Emit?
    ensures StepSound(src, pos, line, ScanStep(src, pos, line))
  {
    var e := WordEnd(src, pos + 1);
    assert forall k :: 0 <= k < |src[pos..e]| ==> src[pos..e][k] == src[pos + k];
    NoNewlines(src[pos..e]);
  }

  lemma WordStep(src: string, pos: nat, line: int)
    requires pos < |src| && IsAlpha(src[pos])
    ensures ScanStep(src, pos, line).Emit?
    ensures StepSound(src, pos, line, ScanStep(src, pos, line))
  {
    var e := WordEnd(src, pos + 1);
    var text := src[pos..e];
    assert forall k :: 0 <= k < |text| ==> text[k] == src[pos + k];
    NoNewlines(text);
    KeywordKindIsWord(text);
  }

  lemma NumberStep(src: string, pos: nat, line: int)
    requires pos < |src| && IsDigit(src[pos]) && ScanStep(src, pos, line).Emit?
    ensures StepSound(src, pos, line, ScanStep(src, pos, line))
  {
    var e := NumberEnd(src, pos);
    var text := src[pos..e];
    assert AllDigits(text);
    assert forall k :: pos <= k < e ==> IsDigit(src[k]) by {
      forall k | pos <= k < e ensures IsDigit(src[k]) {
        assert src[k] == text[k - pos];
      }
    }
    NoNewlines(text);
    var d := DigitsEnd(src, pos + 1);
    if d + 1 < |src| && src[d] == '.' && IsDigit(src[d + 1]) {
      assert false;
    }
  }

  /** Everything one successful step establishes about the token it adds, its report and its line. */
  lemma StepFacts(src: string, pos: nat, line: int)
    requires pos < |src| && ScanStep(src, pos, line).Emit?
    ensures StepSound(src, pos, line, ScanStep(src, pos, line))
  {
    var c := src[pos];
    if c == '$' {
      RegisterStep(src, pos, line);
    } else if IsDigit(c) {
      NumberStep(src, pos, line);
    } else if IsAlpha(c) {
      WordStep(src, pos, line);
    } else {
      SingleCharStep(src, pos, line);
    }
  }

  // ---------------------------------------------------------------------
  // The whole scan
  //
  // Each property is a predicate of a scan from `pos` on line `line`, proved
  // for `LexFrom` together with `Continue`, the scan after one step.

  /**
   * One end-of-input token, with an empty lexeme and no literal, at the end
   * of the source and on the line the source ends on, and no other.
   */
  predicate EndsWithEof(src: string, pos: nat, line: int, l: Lexed)
    requires pos <= |src|
  {
    l.Lexed? ==>
      && |l.tokens| == |l.starts| > 0
      && l.tokens[|l.tokens| - 1] == Token(Eof, "", None, line + Newlines(src[pos..]))
      && l.starts[|l.starts| - 1] == |src|
      && (forall i :: 0 <= i < |l.tokens| - 1 ==> l.tokens[i].kind != Eof)
  }

  /** Tokens start at strictly increasing offsets from `pos` on. */
  predicate Increasing(src: string, pos: nat, l: Lexed) {
    l.Lexed? ==>
      && |l.tokens| == |l.starts|
      && (forall i :: 0 <= i < |l.starts| ==> pos <= l.starts[i] <= |src|)
      && (forall i, j :: 0 <= i < j < |l.starts| ==> l.starts[i] < l.starts[j])
  }

  /** Each token is on the line that the line breaks before it give. */
  predicate LinesCounted(src: string, pos: nat, line: int, l: Lexed) {
    l.Lexed? ==>
      && |l.tokens| == |l.starts|
      && (forall i :: 0 <= i < |l.tokens| ==>
            pos <= l.starts[i] <= |src| && l.tokens[i].line == line + Newlines(src[pos..l.starts[i]]))
  }

  /**
   * Each token before the end-of-input token is well formed, is the source
   * text at its offset, is as long as it can be, and ends before the next
   * token starts.
   */
  predicate Placed(src: string, l: Lexed) {
    l.Lexed? ==>
      && |l.tokens| == |l.starts|
      && (forall i :: 0 <= i < |l.tokens| - 1 ==>
            && WellFormedToken(l.tokens[i])
            && LexemeAt(src, l.tokens[i], l.starts[i])
            && Maximal(src, l.tokens[i], SpanEnd(l.tokens[i], l.starts[i]))
            && SpanEnd(l.tokens[i], l.starts[i]) <= l.starts[i + 1])
  }

  /** Each punctuation character from `pos` on is a token of its category at its offset. */
  predicate KeepsPunctuation(src: string, pos: nat, l: Lexed) {
    l.Lexed? ==>
      forall p :: pos <= p < |src| && IsPunctuation(src[p]) ==>
        exists i :: (0 <= i < |l.tokens| && i < |l.starts| && l.starts[i] == p
          && l.tokens[i].kind == PunctuationKind(src[p]) && l.tokens[i].lexeme == [src[p]])
  }

  /**
   * Every report is a scanner report with one of two messages; the
   * invalid-register reports are one per register token with an invalid
   * name, in order and on its line; and there is one unexpected-character
   * report per character from `pos` on that the scanner does not know.
   */
  predicate Faithful(src: string, pos: nat, tokens: seq<Token>, diagnostics: seq<Diagnostic>)
    requires pos <= |src|
  {
    && (forall k :: 0 <= k < |diagnostics| ==>
          diagnostics[k].LexicalError?
          && (diagnostics[k].message == InvalidRegister || diagnostics[k].message == UnexpectedCharacter))
    && ReportsWith(diagnostics, InvalidRegister) == InvalidRegisterReports(tokens)
    && |ReportsWith(diagnostics, UnexpectedCharacter)| == StrayCount(src[pos..])
  }

  predicate ReportsFaithful(src: string, pos: nat, l: Lexed)
    requires pos <= |src|
  {
    l.Lexed? ==> Faithful(src, pos, l.tokens, l.diagnostics)
  }

  lemma {:induction false} ScanEndsWithEof(src: string, pos: nat, line: int)
    requires pos <= |src|
    ensures EndsWithEof(src, pos, line, LexFrom(src, pos, line))
    decreases |src| - pos, 1
  {
    if pos == |src| {
      assert src[pos..] == [];
    } else if ScanStep(src, pos, line).Emit? {
      StepFacts(src, pos, line);
      ContinueEndsWithEof(src, pos, line, ScanStep(src, pos, line));
    } else if pos < |src| {
      assert LexFrom(src, pos, line).Malformed?;
    }
  }

  lemma {:induction false} ContinueEndsWithEof(src: string, pos: nat, line: int, s: Step)
    requires pos < |src| && s.Emit? && pos < s.next <= |src|
    requires LineSound(src, pos, line, s) && (s.token.Some? ==> s.token.value.kind != Eof)
    ensures EndsWithEof(src, pos, line, Continue(src, pos, s))
    decreases |src| - pos, 0
  {
    ScanEndsWithEof(src, s.next, s.line);
    assert src[pos..] == src[pos..s.next] + src[s.next..];
    NewlinesAppend(src[pos..s.next], src[s.next..]);
  }

  lemma {:induction false} ScanIncreasing(src: string, pos: nat, line: int)
    requires pos <= |src|
    ensures Increasing(src, pos, LexFrom(src, pos, line))
    decreases |src| - pos, 1
  {
    if pos < |src| && ScanStep(src, pos, line).Emit? {
      ContinueIncreasing(src, pos, line, ScanStep(src, pos, line));
    } else if pos < |src| {
      assert LexFrom(src, pos, line).Malformed?;
    }
  }

  lemma {:induction false} ContinueIncreasing(src: string, pos: nat, line: int, s: Step)
    requires pos < |src| && s.Emit? && pos < s.next <= |src|
    ensures Increasing(src, pos, Continue(src, pos, s))
    decreases |src| - pos, 0
  {
    var rest := LexFrom(src, s.next, s.line);
    ScanIncreasing(src, s.next, s.line);
    if rest.Lexed? {
      PrependIncreasing(s.token.Some?, pos, s.next, |src|, rest.starts);
    }
  }

  /** Putting an offset smaller than all others in front keeps offsets strictly increasing. */
  lemma PrependIncreasing(emit: bool, pos: nat, next: nat, bound: nat, starts: seq<nat>)
    requires pos < next <= bound
    requires forall i :: 0 <= i < |starts| ==> next <= starts[i] <= bound
    requires forall i, j :: 0 <= i < j < |starts| ==> starts[i] < starts[j]
    ensures var all := (if emit then [pos] else []) + starts;
      && (forall i :: 0 <= i < |all| ==> pos <= all[i] <= bound)
      && (forall i, j :: 0 <= i < j < |all| ==> all[i] < all[j])
  {
    var all := (if emit then [pos] else []) + starts;
    var shift := if emit then 1 else 0;
    assert forall i :: shift <= i < |all| ==> all[i] == starts[i - shift];
  }

  lemma {:induction false} ScanLinesCounted(src: string, pos: nat, line: int)
    requires pos <= |src|
    ensures LinesCounted(src, pos, line, LexFrom(src, pos, line))
    decreases |src| - pos, 1
  {
    if pos == |src| {
      assert src[pos..pos] == [];
    } else if ScanStep(src, pos, line).Emit? {
      StepFacts(src, pos, line);
      ContinueLinesCounted(src, pos, line, ScanStep(src, pos, line));
    } else {
      assert LexFrom(src, pos, line).Malformed?;
    }
  }

  lemma {:induction false} ContinueLinesCounted(src: string, pos: nat, line: int, s: Step)
    requires pos < |src| && s.Emit? && pos < s.next <= |src|
    requires LineSound(src, pos, line, s) && (s.token.Some? ==> s.token.value.line == line)
    ensures LinesCounted(src, pos, line, Continue(src, pos, s))
    decreases |src| - pos, 0
  {
    var rest := LexFrom(src, s.next, s.line);
    ScanLinesCounted(src, s.next, s.line);
    if rest.Lexed? {
      PrependLines(src, pos, s.next, line, s.line, s.token, rest.tokens, rest.starts);
    }
  }

  lemma NewlinesSplit(src: string, a: nat, b: nat, c: nat)
    requires a <= b <= c <= |src|
    ensures Newlines(src[a..c]) == Newlines(src[a..b]) + Newlines(src[b..c])
  {
    assert src[a..c] == src[a..b] + src[b..c];
    NewlinesAppend(src[a..b], src[b..c]);
  }

  /** A token on the step's line in front of tokens counted from the step's end keeps lines counted. */
  lemma PrependLines(src: string, pos: nat, next: nat, line: int, nextLine: int,
                     token: Option<Token>, rest: seq<Token>, starts: seq<nat>)
    requires pos < next <= |src| && |rest| == |starts|
    requires nextLine == line + Newlines(src[pos..next])
    requires token.Some? ==> token.value.line == line
    requires forall i :: 0 <= i < |rest| ==>
      next <= starts[i] <= |src| && rest[i].line == nextLine + Newlines(src[next..starts[i]])
    ensures var ts, ss := OptionToSeq(token) + rest, (if token.Some? then [pos] else []) + starts;
      && |ts| == |ss|
      && (forall i :: 0 <= i < |ts| ==> pos <= ss[i] <= |src| && ts[i].line == line + Newlines(src[pos..ss[i]]))
  {
    var ts, ss := OptionToSeq(token) + rest, (if token.Some? then [pos] else []) + starts;
    var shift := if token.Some? then 1 else 0;
    forall i | 0 <= i < |ts|
      ensures pos <= ss[i] <= |src| && ts[i].line == line + Newlines(src[pos..ss[i]])
    {
      if i < shift {
        assert ss[i] == pos && src[pos..pos] == [];
      } else {
        assert ts[i] == rest[i - shift] && ss[i] == starts[i - shift];
        NewlinesSplit(src, pos, next, starts[i - shift]);
      }
    }
  }

  lemma {:induction false} ScanPlaced(src: string, pos: nat, line: int)
    requires pos <= |src|
    ensures Placed(src, LexFrom(src, pos, line))
    decreases |src| - pos, 1
  {
    if pos < |src| && ScanStep(src, pos, line).Emit? {
      StepFacts(src, pos, line);
      ContinuePlaced(src, pos, line, ScanStep(src, pos, line));
    } else if pos < |src| {
      assert LexFrom(src, pos, line).Malformed?;
    }
  }

  lemma {:induction false} ContinuePlaced(src: string, pos: nat, line: int, s: Step)
    requires pos < |src| && s.Emit? && pos < s.next <= |src|
    requires TokenSound(src, pos, line, s)
    ensures Placed(src, Continue(src, pos, s))
    decreases |src| - pos, 0
  {
    var rest := LexFrom(src, s.next, s.line);
    ScanPlaced(src, s.next, s.line);
    ScanIncreasing(src, s.next, s.line);
    ScanEndsWithEof(src, s.next, s.line);
    if rest.Lexed? && s.token.Some? {
      var l := Continue(src, pos, s);
      assert l.tokens == [s.token.value] + rest.tokens;
      assert l.starts == [pos] + rest.starts;
      assert rest.starts[0] >= s.next;
    }
  }

  lemma {:induction false} ScanKeepsPunctuation(src: string, pos: nat, line: int)
    requires pos <= |src|
    ensures KeepsPunctuation(src, pos, LexFrom(src, pos, line))
    decreases |src| - pos, 1
  {
    if pos < |src| && ScanStep(src, pos, line).Emit? {
      StepFacts(src, pos, line);
      ContinueKeepsPunctuation(src, pos, line, ScanStep(src, pos, line));
    } else if pos < |src| {
      assert LexFrom(src, pos, line).Malformed?;
    }
  }

  lemma {:induction false} ContinueKeepsPunctuation(src: string, pos: nat, line: int, s: Step)
    requires pos < |src| && s.Emit? && pos < s.next <= |src|
    requires PunctuationSound(src, pos, line, s) && InteriorSound(src, pos, s)
    ensures KeepsPunctuation(src, pos, Continue(src, pos, s))
    decreases |src| - pos, 0
  {
    var l := Continue(src, pos, s);
    var rest := LexFrom(src, s.next, s.line);
    ScanKeepsPunctuation(src, s.next, s.line);
    if l.Lexed? {
      var shift := if s.token.Some? then 1 else 0;
      assert l.tokens == OptionToSeq(s.token) + rest.tokens;
      assert l.starts == (if s.token.Some? then [pos] else []) + rest.starts;
      forall p | pos <= p < |src| && IsPunctuation(src[p])
        ensures exists i :: (0 <= i < |l.tokens| && i < |l.starts| && l.starts[i] == p
          && l.tokens[i].kind == PunctuationKind(src[p]) && l.tokens[i].lexeme == [src[p]])
      {
        if p == pos {
          assert l.starts[0] == p && l.tokens[0].kind == PunctuationKind(src[p]);
        } else {
          assert p >= s.next;
          var i :| 0 <= i < |rest.tokens| && i < |rest.starts| && rest.starts[i] == p
            && rest.tokens[i].kind == PunctuationKind(src[p]) && rest.tokens[i].lexeme == [src[p]];
          assert l.tokens[i + shift] == rest.tokens[i] && l.starts[i + shift] == rest.starts[i];
        }
      }
    }
  }

  lemma {:induction false} ScanReportsFaithful(src: string, pos: nat, line: int)
    requires pos <= |src|
    ensures ReportsFaithful(src, pos, LexFrom(src, pos, line))
    decreases |src| - pos, 1
  {
    if pos == |src| {
      assert src[pos..] == [];
    } else if ScanStep(src, pos, line).Emit? {
      StepFacts(src, pos, line);
      ContinueReportsFaithful(src, pos, line, ScanStep(src, pos, line));
    } else if pos < |src| {
      assert LexFrom(src, pos, line).Malformed?;
    }
  }

  lemma {:induction false} ContinueReportsFaithful(src: string, pos: nat, line: int, s: Step)
    requires pos < |src| && s.Emit? && pos < s.next <= |src|
    requires ReportSound(src, pos, line, s) && InteriorSound(src, pos, s) && SkipSound(src, pos, s)
    requires s.token.Some? ==> s.token.value.line == line
    ensures ReportsFaithful(src, pos, Continue(src, pos, s))
    decreases |src| - pos, 0
  {
    var rest := LexFrom(src, s.next, s.line);
    ScanReportsFaithful(src, s.next, s.line);
    if rest.Lexed? {
      StepReportParts(src, pos, line, s);
      PrependFaithful(src, pos, s.next, OptionToSeq(s.token), OptionToSeq(s.diagnostic), rest.tokens, rest.diagnostics);
    }
  }

  /** The reports of one step, measured as `Faithful` measures a scan. */
  lemma StepReportParts(src: string, pos: nat, line: int, s: Step)
    requires pos < |src| && s.Emit? && pos < s.next <= |src|
    requires ReportSound(src, pos, line, s) && InteriorSound(src, pos, s) && SkipSound(src, pos, s)
    requires s.token.Some? ==> s.token.value.line == line
    ensures Faithful(src[..s.next], pos, OptionToSeq(s.token), OptionToSeq(s.diagnostic))
  {
    var piece := src[..s.next][pos..];
    assert piece == src[pos..s.next];
    if s.token.None? {
      assert piece == [src[pos]];
      assert [src[pos]][..0] == [];
    } else {
      assert forall k :: 0 <= k < |piece| ==> piece[k] == src[pos + k];
      NoStray(piece);
      assert [s.token.value][1..] == [];
      if s.diagnostic.Some? {
        assert [s.diagnostic.value][1..] == [];
      }
    }
  }

  /** The reports of a step in front of those of the scan after it. */
  lemma PrependFaithful(src: string, pos: nat, next: nat, t: seq<Token>, d: seq<Diagnostic>,
                        rest: seq<Token>, ds: seq<Diagnostic>)
    requires pos <= next <= |src|
    requires Faithful(src[..next], pos, t, d) && Faithful(src, next, rest, ds)
    ensures Faithful(src, pos, t + rest, d + ds)
  {
    InvalidRegisterReportsAppend(t, rest);
    ReportsWithAppend(d, ds, InvalidRegister);
    ReportsWithAppend(d, ds, UnexpectedCharacter);
    assert src[..next][pos..] == src[pos..next];
    assert src[pos..] == src[pos..next] + src[next..];
    StrayCountAppend(src[pos..next], src[next..]);
  }

  // ---------------------------------------------------------------------
  // Consequences

  /**
   * The tokens of a scan that does not throw end with the end-of-input token
   * and contain no other, and each one before it is well formed; in
   * particular every number token carries its value, an `int`, as its literal.
   */
  lemma ScanWellFormed(src: string)
    requires Scan(src).Scanned?
    ensures var ts := Scan(src).tokens;
      && |ts| > 0 && ts[|ts| - 1].kind == Eof
      && (forall i :: 0 <= i < |ts| - 1 ==> WellFormedToken(ts[i]) && ts[i].kind != Eof)
      && (forall i :: 0 <= i < |ts| ==> ts[i].kind == Number ==>
            ts[i].literal.Some? && 0 <= ts[i].literal.value <= JavaInt.MAX)
  {
    ScanEndsWithEof(src, 0, 1);
    ScanPlaced(src, 0, 1);
  }

  /** A well-formed token is a punctuation token exactly when its lexeme is one punctuation character. */
  lemma PunctuationTokens(t: Token)
    requires WellFormedToken(t)
    ensures IsPunctuationKind(t.kind) <==> |t.lexeme| == 1 && IsPunctuation(t.lexeme[0])
    ensures IsPunctuationKind(t.kind) ==> t.kind == PunctuationKind(t.lexeme[0])
  {
    KeywordKindIsWord(t.lexeme);
  }

  /** A numeral with a fraction makes the scan throw, with the whole numeral as the culprit. */
  lemma FractionThrows(src: string, pos: nat, line: int)
    requires pos < |src| && IsDigit(src[pos])
    requires var d := DigitsEnd(src, pos + 1); d + 1 < |src| && src[d] == '.' && IsDigit(src[d + 1])
    ensures var d := DigitsEnd(src, pos + 1);
      ScanStep(src, pos, line) == BadNumber(src[pos..DigitsEnd(src, d + 1)], line)
  {
    var d := DigitsEnd(src, pos + 1);
    assert src[pos..DigitsEnd(src, d + 1)][d - pos] == '.';
  }

  /** A whole numeral above `Integer.MAX_VALUE` makes the scan throw. */
  lemma OverflowThrows(src: string, pos: nat, line: int)
    requires pos < |src| && IsDigit(src[pos])
    requires var d := DigitsEnd(src, pos + 1); !(d + 1 < |src| && src[d] == '.' && IsDigit(src[d + 1]))
    requires var text := src[pos..DigitsEnd(src, pos + 1)]; AllDigits(text) && DecimalValue(text) > JavaInt.MAX
    ensures ScanStep(src, pos, line) == BadNumber(src[pos..DigitsEnd(src, pos + 1)], line)
  {
  }

  /** The reports made before a numeral that throws are kept: they were already sent to `Main.error`. */
  lemma CrashKeepsEarlierReports()
    ensures Scan("#1.5") == NumberFormatError("1.5", 1, [LexicalError(1, UnexpectedCharacter)])
  {
    var src := "#1.5";
    var report := LexicalError(1, UnexpectedCharacter);
    assert ScanStep(src, 0, 1) == Emit(None, Some(report), 1, 1);
    assert DigitsEnd(src, 4) == 4;
    assert DigitsEnd(src, 3) == 4;
    assert DigitsEnd(src, 2) == 2;
    FractionThrows(src, 1, 1);
    assert src[1..4] == "1.5";
    assert LexFrom(src, 1, 1) == Malformed("1.5", 1, []);
    assert LexFrom(src, 0, 1) == Prepend(None, 0, Some(report), LexFrom(src, 1, 1));
  }

  /** The decimal numeral of `n`, without leading zeros. */
  function Decimal(n: nat): (s: string)
    ensures |s| > 0 && AllDigits(s)
    decreases n
  {
    var last := [(('0' as int) + n % 10) as char];
    if n < 10 then last else Decimal(n / 10) + last
  }

  /** `Integer.parseInt` reads back the numeral of every non-negative `int`. */
  lemma ParseIntRoundTrip(n: nat)
    requires n <= JavaInt.MAX
    ensures ParseInt(Decimal(n)) == Some(n)
  {
    DecimalValueOf(n);
  }

  lemma {:induction false} DecimalValueOf(n: nat)
    ensures DecimalValue(Decimal(n)) == n
    decreases n
  {
    var s := Decimal(n);
    if n >= 10 {
      DecimalValueOf(n / 10);
      assert s[..|s| - 1] == Decimal(n / 10);
    }
  }

  /** Leading zeros do not change what `Integer.parseInt` reads: `007` is 7. */
  lemma LeadingZeroIgnored(text: string)
    requires |text| > 0 && AllDigits(text)
    ensures ParseInt("0" + text) == ParseInt(text)
  {
    LeadingZeroValue(text);
  }

  lemma {:induction false} LeadingZeroValue(text: string)
    requires AllDigits(text)
    ensures AllDigits("0" + text) && DecimalValue("0" + text) == DecimalValue(text)
    decreases |text|
  {
    var z := "0" + text;
    assert forall k :: 0 < k < |z| ==> z[k] == text[k - 1];
    if text != [] {
      var init := text[..|text| - 1];
      LeadingZeroValue(init);
      assert z[..|z| - 1] == "0" + init;
    }
  }

  /**
   * A `.` after a numeral but not before a digit is not part of it: the
   * numeral ends before the `.`, which is then reported as unexpected.
   */
  lemma TrailingDotNotConsumed(src: string, pos: nat, line: int)
    requires pos < |src| && IsDigit(src[pos])
    requires var d := DigitsEnd(src, pos + 1); d < |src| && src[d] == '.' && (d + 1 == |src| || !IsDigit(src[d + 1]))
    ensures NumberEnd(src, pos) == DigitsEnd(src, pos + 1)
    ensures ScanStep(src, DigitsEnd(src, pos + 1), line) ==
      Emit(None, Some(LexicalError(line, UnexpectedCharacter)), DigitsEnd(src, pos + 1) + 1, line)
  {
  }

  /** Keyword lookup is case-sensitive. */
  lemma KeywordsCaseSensitive()
    ensures KeywordKind("add") == Add && KeywordKind("ADD") == Identifier && KeywordKind("Add") == Identifier
  {
  }

  /** The load, store and several other mnemonics have no entry in the keyword table. */
  lemma KeywordsMissing()
    ensures KeywordKind("lw") == Identifier && KeywordKind("sw") == Identifier
    ensures KeywordKind("not") == Identifier && KeywordKind("xor") == Identifier
    ensures KeywordKind("xori") == Identifier && KeywordKind("mod") == Identifier
  {
  }
}
