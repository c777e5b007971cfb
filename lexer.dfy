/**
 * The lexer of the current front end. `LexAt` states what one `Lex()` call produces from a
 * cursor position; the `Lexer` class is the cursor-over-characters scanner itself, whose `Lex`
 * method is proved to produce exactly that. `LexFrom` drives `LexAt` to the end of the text.
 */
module MinskLexer {
  import opened Options
  import opened Int32Arith
  import opened Values
  import opened CharClass
  import opened SyntaxKinds
  import opened SyntaxFacts
  import opened SyntaxTokens
  import opened Diagnostics

  /** What one `Lex()` call yields: the token, the cursor after it, and the diagnostics it adds. */
  datatype LexStep = LexStep(token: SyntaxToken, next: nat, reported: seq<Diagnostic>)

  /** A token's text: the kind's fixed text, or else the source characters it covers. */
  function TokenText(kind: SyntaxKind, text: string, start: nat, end: nat): string
    requires start <= end <= |text|
  {
    FixedText(kind).GetOr(text[start..end])
  }

  function Emit(kind: SyntaxKind, text: string, start: nat, end: nat, value: Option<Value>, reported: seq<Diagnostic>): LexStep
    requires start <= end <= |text|
  {
    LexStep(SyntaxToken(kind, start, Some(TokenText(kind, text, start, end)), value), end, reported)
  }

  /** The white-space characters the lexer's `switch` recognises before asking `char.IsWhiteSpace`. */
  predicate IsSwitchWhiteSpace(c: char) { c == ' ' || c == '\t' || c == '\n' || c == '\r' }

  /** The characters that start an operator token. */
  predicate IsOperatorStart(c: char) {
    c in {'+', '-', '*', '/', '(', ')', '&', '|', '=', '!'}
  }

  /** A character that no rule accepts, so that it is reported and skipped. */
  predicate IsBadCharacter(cc: CharClasses, c: char) {
    c != '\0' && !IsOperatorStart(c) && !IsAsciiDigit(c) && !IsSwitchWhiteSpace(c)
    && !cc.isLetter(c) && !cc.isWhiteSpace(c)
  }

  /** A `&` or `|` that its twin does not follow: the lexer makes no progress there. */
  predicate IsStuckAt(text: string, pos: nat) {
    var c := CharAt(text, pos);
    (c == '&' || c == '|') && CharAt(text, pos + 1) != c
  }

  lemma NulInNoClass(cc: CharClasses)
    requires Consistent(cc)
    ensures !cc.isLetter('\0') && !cc.isDigit('\0') && !cc.isWhiteSpace('\0')
  {
    AsciiClass(cc, '\0');
  }

  /** `ReadNumberToken` from `pos`: a maximal digit run, its value, and a diagnostic if it does not fit. */
  function NumberStep(cc: CharClasses, text: string, pos: nat): LexStep
    requires Consistent(cc) && pos <= |text|
  {
    NulInNoClass(cc);
    var end := RunEnd(cc.isDigit, text, pos);
    var run := text[pos..end];
    var parsed := TryParseInt32(run);
    Emit(NumberToken, text, pos, end, Some(Int(parsed.GetOr(0))),
      if parsed.Some? then [] else [InvalidNumber(TextSpan(pos, end - pos), run)])
  }

  /** `ReadWhiteSpace` from `pos`: a maximal white-space run. */
  function WhiteSpaceStep(cc: CharClasses, text: string, pos: nat): LexStep
    requires Consistent(cc) && pos <= |text|
  {
    NulInNoClass(cc);
    Emit(WhiteSpaceToken, text, pos, RunEnd(cc.isWhiteSpace, text, pos), None, [])
  }

  /** `ReadIdentifierOrKeyword` from `pos`: a maximal letter run, classified by the keyword table. */
  function WordStep(cc: CharClasses, text: string, pos: nat): LexStep
    requires Consistent(cc) && pos <= |text|
  {
    NulInNoClass(cc);
    var end := RunEnd(cc.isLetter, text, pos);
    Emit(KeywordKind(text[pos..end]), text, pos, end, None, [])
  }

  /** The `switch` cases for the operator characters, the cursor at `pos`. */
  function OperatorStep(text: string, pos: nat): (s: LexStep)
    requires pos < |text| && IsOperatorStart(text[pos])
    ensures pos <= s.next <= |text|
    ensures s.token.text == Some(text[pos..s.next])
    ensures s.reported == []
  {
    var c := text[pos];
    assert text[pos..pos + 1] == [c];
    assert pos + 1 < |text| ==> text[pos..pos + 2] == [c, text[pos + 1]];
    if c == '+' then Emit(PlusToken, text, pos, pos + 1, None, [])
    else if c == '-' then Emit(MinusToken, text, pos, pos + 1, None, [])
    else if c == '*' then Emit(StarToken, text, pos, pos + 1, None, [])
    else if c == '/' then Emit(SlashToken, text, pos, pos + 1, None, [])
    else if c == '(' then Emit(OpenParenthesisToken, text, pos, pos + 1, None, [])
    else if c == ')' then Emit(CloseParenthesisToken, text, pos, pos + 1, None, [])
    else if c == '&' then
      if CharAt(text, pos + 1) == '&' then Emit(AmpersandAmpersandToken, text, pos, pos + 2, None, [])
      else Emit(BadToken, text, pos, pos, None, [])
    else if c == '|' then
      if CharAt(text, pos + 1) == '|' then Emit(PipePipeToken, text, pos, pos + 2, None, [])
      else Emit(BadToken, text, pos, pos, None, [])
    else if c == '=' then
      if CharAt(text, pos + 1) == '=' then Emit(EqualsEqualsToken, text, pos, pos + 2, None, [])
      else Emit(EqualsToken, text, pos, pos + 1, None, [])
    else
      if CharAt(text, pos + 1) == '=' then Emit(BangEqualsToken, text, pos, pos + 2, None, [])
      else Emit(BangToken, text, pos, pos + 1, None, [])
  }

  /** The `default` case for a character no rule accepts: report it and skip it. */
  function BadCharacterStep(text: string, pos: nat): (s: LexStep)
    requires pos < |text|
    ensures s.next == pos + 1 && s.token.text == Some(text[pos..s.next])
  {
    assert text[pos..pos + 1] == [text[pos]];
    Emit(BadToken, text, pos, pos + 1, None, [BadCharacter(pos, text[pos])])
  }

  /**
   * One `Lex()` call with the cursor at `pos`. The token starts at `pos`, its text is the
   * source slice up to the new cursor, the cursor never moves back, and at most one
   * diagnostic is added.
   */
  function LexAt(cc: CharClasses, text: string, pos: nat): (s: LexStep)
    requires Consistent(cc) && pos <= |text|
    ensures pos <= s.next <= |text|
    ensures s.token.position == pos
    ensures s.token.text == Some(text[pos..s.next])
    ensures |s.reported| <= 1
    ensures s.token.kind == EndOfFileToken <==> CharAt(text, pos) == '\0'
    ensures s.token.kind == EndOfFileToken ==> s.next == pos
  {
    var c := CharAt(text, pos);
    if c == '\0' then Emit(EndOfFileToken, text, pos, pos, None, [])
    else if IsOperatorStart(c) then OperatorStep(text, pos)
    else if IsAsciiDigit(c) then NumberStep(cc, text, pos)
    else if IsSwitchWhiteSpace(c) then WhiteSpaceStep(cc, text, pos)
    else if cc.isLetter(c) then WordStep(cc, text, pos)
    else if cc.isWhiteSpace(c) then WhiteSpaceStep(cc, text, pos)
    else BadCharacterStep(text, pos)
  }

  /** Everything `Lex()` yields from `pos` up to and including the end-of-file token. */
  datatype LexRun = LexRun(tokens: seq<SyntaxToken>, eof: SyntaxToken, diagnostics: seq<Diagnostic>)

  /** What `Lex()` yields with the cursor at each position from 0 to the end of the text. */
  function Steps(cc: CharClasses, text: string): (t: seq<LexStep>)
    requires Consistent(cc)
    ensures |t| == |text| + 1 && Advances(t) && SpellsText(t, text)
    ensures forall p {:trigger LexAt(cc, text, p)} :: 0 <= p <= |text| ==> t[p] == LexAt(cc, text, p)
  {
    var t := StepsFrom(cc, text, 0);
    assert forall p :: 0 <= p < |t| ==> t[p] == LexAt(cc, text, p);
    t
  }

  /** The steps from cursor position `i` on. */
  function StepsFrom(cc: CharClasses, text: string, i: nat): (t: seq<LexStep>)
    requires Consistent(cc) && i <= |text| + 1
    ensures |t| == |text| + 1 - i
    ensures forall p {:trigger LexAt(cc, text, p)} :: i <= p <= |text| ==> t[p - i] == LexAt(cc, text, p)
    decreases |text| + 1 - i
  {
    if i == |text| + 1 then []
    else
      var rest := StepsFrom(cc, text, i + 1);
      assert forall p {:trigger LexAt(cc, text, p)} :: i < p <= |text| ==> ([LexAt(cc, text, i)] + rest)[p - i] == rest[p - (i + 1)];
      [LexAt(cc, text, i)] + rest
  }

  /** Each step stays inside the table and does not move backwards; the end-of-file step stays put. */
  ghost predicate Advances(t: seq<LexStep>) {
    forall p :: 0 <= p < |t| ==> p <= t[p].next < |t| && (t[p].token.kind == EndOfFileToken ==> t[p].next == p)
  }

  /** The step at `p` yields a token at `p` whose text is what the step consumed. */
  ghost predicate SpellsText(t: seq<LexStep>, text: string) {
    |t| == |text| + 1 &&
    forall p :: 0 <= p < |t| ==> p <= t[p].next <= |text| && t[p].token.position == p && t[p].token.text == Some(text[p..t[p].next])
  }

  /**
   * Repeated steps from `pos` until one yields the end-of-file token, allowing at most `fuel`
   * tokens before it; `None` when the fuel runs out first.
   */
  function Drive(t: seq<LexStep>, pos: nat, fuel: nat): (r: Option<LexRun>)
    requires Advances(t) && pos < |t|
    ensures r.Some? ==> r.value.eof.kind == EndOfFileToken
    decreases fuel
  {
    var s := t[pos];
    if s.token.kind == EndOfFileToken then Some(LexRun([], s.token, s.reported))
    else if fuel == 0 then None
    else
      match Drive(t, s.next, fuel - 1)
      case None => None
      case Some(rest) => Some(LexRun([s.token] + rest.tokens, rest.eof, s.reported + rest.diagnostics))
  }

  /** Repeated `Lex()` calls from `pos`, at most `fuel` tokens before the end of file. */
  function LexFrom(cc: CharClasses, text: string, pos: nat, fuel: nat): (r: Option<LexRun>)
    requires Consistent(cc) && pos <= |text|
  {
    Drive(Steps(cc, text), pos, fuel)
  }

  /** One unfolding of `LexFrom`: the first `Lex()` call, then the rest of the run. */
  lemma LexFromStep(cc: CharClasses, text: string, pos: nat, fuel: nat)
    requires Consistent(cc) && pos <= |text| && LexFrom(cc, text, pos, fuel).Some?
    ensures var s := LexAt(cc, text, pos); var r := LexFrom(cc, text, pos, fuel).value;
      if s.token.kind == EndOfFileToken then r == LexRun([], s.token, s.reported)
      else
        && fuel > 0 && LexFrom(cc, text, s.next, fuel - 1).Some?
        && var rest := LexFrom(cc, text, s.next, fuel - 1).value;
           r == LexRun([s.token] + rest.tokens, rest.eof, s.reported + rest.diagnostics)
  {
    assert Steps(cc, text)[pos] == LexAt(cc, text, pos);
  }

  /**
   * Where a run over the step table `t` stands after some steps: the tokens and diagnostics so
   * far, followed by what driving on from `pos` with the remaining `fuel` yields, make up `run`.
   */
  ghost predicate RunSoFar(t: seq<LexStep>, run: LexRun, lexed: seq<SyntaxToken>, reported: seq<Diagnostic>, pos: nat, fuel: nat) {
    && Advances(t) && pos < |t| && Drive(t, pos, fuel).Some?
    && var rest := Drive(t, pos, fuel).value;
       run == LexRun(lexed + rest.tokens, rest.eof, reported + rest.diagnostics)
  }

  lemma RunSoFarStart(cc: CharClasses, text: string)
    requires Consistent(cc) && LexHalts(cc, text)
    ensures RunSoFar(Steps(cc, text), LexFrom(cc, text, 0, |text|).value, [], [], 0, |text|)
  {
    var run := LexFrom(cc, text, 0, |text|).value;
    assert [] + run.tokens == run.tokens && [] + run.diagnostics == run.diagnostics;
  }

  /** A step that does not yield the end of file moves the run on by its token. */
  lemma RunSoFarStep(t: seq<LexStep>, run: LexRun, lexed: seq<SyntaxToken>, reported: seq<Diagnostic>, pos: nat, fuel: nat,
                     token: SyntaxToken, next: nat, reportedAfter: seq<Diagnostic>)
    requires RunSoFar(t, run, lexed, reported, pos, fuel)
    requires token == t[pos].token && next == t[pos].next && reportedAfter == reported + t[pos].reported
    requires token.kind != EndOfFileToken
    ensures fuel > 0 && RunSoFar(t, run, lexed + [token], reportedAfter, next, fuel - 1)
  {
    var after := Drive(t, next, fuel - 1).value;
    assert lexed + ([token] + after.tokens) == lexed + [token] + after.tokens;
    assert reported + (t[pos].reported + after.diagnostics) == reportedAfter + after.diagnostics;
  }

  /** The step that yields the end of file completes the run. */
  lemma RunSoFarEnd(t: seq<LexStep>, run: LexRun, lexed: seq<SyntaxToken>, reported: seq<Diagnostic>, pos: nat, fuel: nat,
                    token: SyntaxToken, reportedAfter: seq<Diagnostic>)
    requires RunSoFar(t, run, lexed, reported, pos, fuel)
    requires token == t[pos].token && reportedAfter == reported + t[pos].reported
    requires token.kind == EndOfFileToken
    ensures run == LexRun(lexed, token, reportedAfter)
  {
    assert lexed + [] == lexed;
  }

  /** Lexing the whole text reaches the end of file: one token per character always suffices. */
  ghost predicate LexHalts(cc: CharClasses, text: string)
    requires Consistent(cc)
  {
    LexFrom(cc, text, 0, |text|).Some?
  }

  /** The cursor over characters; one `Lex` call yields one token. */
  class Lexer {
    const cc: CharClasses
    const text: string
    const diagnostics: DiagnosticBag
    /** What `Lex()` yields at each cursor position. */
    ghost const table: seq<LexStep>
    var position: nat
    var start: nat
    var kind: SyntaxKind
    var value: Option<Value>

    ghost predicate Valid()
      reads this
    {
      && Consistent(cc) && position <= |text|
      && !cc.isLetter('\0') && !cc.isDigit('\0') && !cc.isWhiteSpace('\0')
    }

    /** The table lists, at every cursor position, the step `LexAt` describes. */
    ghost predicate Tabulates() {
      && Consistent(cc) && |table| == |text| + 1
      && forall p {:trigger LexAt(cc, text, p)} :: 0 <= p <= |text| ==> table[p] == LexAt(cc, text, p)
    }

    constructor(cc: CharClasses, text: string)
      requires Consistent(cc)
      ensures Valid() && this.cc == cc && this.text == text && position == 0
      ensures table == Steps(cc, text) && Tabulates()
      ensures fresh(diagnostics) && diagnostics.items == []
    {
      this.cc := cc;
      this.text := text;
      table := Steps(cc, text);
      position := 0;
      start := 0;
      kind := BadToken;
      value := None;
      diagnostics := new DiagnosticBag();
      NulInNoClass(cc);
    }

    /** The character `offset` places after the cursor, or '\0' past the end. */
    function Peek(offset: nat): (c: char)
      reads this
      ensures c == CharAt(text, position + offset)
    {
      var index := position + offset;
      if index >= |text| then '\0' else text[index]
    }

    function Current(): char
      reads this
    {
      Peek(0)
    }

    function Lookahead(): char
      reads this
    {
      Peek(1)
    }

    /** One token from the cursor, exactly as `LexAt` describes it. */
    method Lex() returns (token: SyntaxToken)
      requires Valid() && Tabulates()
      modifies this, diagnostics
      ensures Valid()
      ensures var s := table[old(position)];
        token == s.token && position == s.next && diagnostics.items == old(diagnostics.items) + s.reported
    {
      ghost var s := LexAt(cc, text, position);
      start := position;
      kind := BadToken;
      value := None;
      var c := Current();
      if c == '\0' {
        kind := EndOfFileToken;
      } else if IsOperatorStart(c) {
        LexOperator(c);
      } else if IsAsciiDigit(c) {
        ReadNumberToken();
      } else if IsSwitchWhiteSpace(c) {
        ReadWhiteSpace();
      } else if cc.isLetter(c) {
        ReadIdentifierOrKeyword();
      } else if cc.isWhiteSpace(c) {
        ReadWhiteSpace();
      } else {
        diagnostics.ReportBadCharacter(position, c);
        position := position + 1;
      }
      assert kind == s.token.kind && position == s.next && value == s.token.value;
      assert diagnostics.items == old(diagnostics.items) + s.reported;
      token := SyntaxToken(kind, start, Some(TokenText(kind, text, start, position)), value);
    }

    /**
     * The `switch` cases for `+ - * / ( ) & | = !`: single characters, the doubled `&&` and
     * `||`, and `=` and `!` with an optional following `=`. A lone `&` or `|` leaves the kind
     * BadToken and the cursor where it was.
     */
    method LexOperator(c: char)
      requires Valid() && start == position && kind == BadToken && c == Current() && IsOperatorStart(c)
      modifies this
      ensures Valid() && start == old(start) && value == old(value)
      ensures var s := OperatorStep(text, old(position)); position == s.next && kind == s.token.kind
    {
      if c == '+' {
        kind := PlusToken;
        position := position + 1;
      } else if c == '-' {
        kind := MinusToken;
        position := position + 1;
      } else if c == '*' {
        kind := StarToken;
        position := position + 1;
      } else if c == '/' {
        kind := SlashToken;
        position := position + 1;
      } else if c == '(' {
        kind := OpenParenthesisToken;
        position := position + 1;
      } else if c == ')' {
        kind := CloseParenthesisToken;
        position := position + 1;
      } else if c == '&' {
        if Lookahead() == '&' {
          kind := AmpersandAmpersandToken;
          position := position + 2;
        }
      } else if c == '|' {
        if Lookahead() == '|' {
          kind := PipePipeToken;
          position := position + 2;
        }
      } else if c == '=' {
        position := position + 1;
        if Current() != '=' {
          kind := EqualsToken;
        } else {
          kind := EqualsEqualsToken;
          position := position + 1;
        }
      } else {
        position := position + 1;
        if Current() != '=' {
          kind := BangToken;
        } else {
          kind := BangEqualsToken;
          position := position + 1;
        }
      }
    }

    /** Advances over a maximal white-space run. */
    method ReadWhiteSpace()
      requires Valid()
      modifies this
      ensures Valid()
      ensures position == RunEnd(cc.isWhiteSpace, text, old(position))
      ensures kind == WhiteSpaceToken && start == old(start) && value == old(value)
    {
      NulInNoClass(cc);
      while cc.isWhiteSpace(Current())
        invariant Valid() && old(position) <= position
        invariant RunEnd(cc.isWhiteSpace, text, position) == RunEnd(cc.isWhiteSpace, text, old(position))
        invariant start == old(start) && value == old(value)
        decreases |text| - position
      {
        position := position + 1;
      }
      kind := WhiteSpaceToken;
    }

    /** Advances over a maximal digit run and parses it, reporting a run that does not fit an int. */
    method ReadNumberToken()
      requires Valid() && start == position
      modifies this, diagnostics
      ensures Valid() && start == old(start)
      ensures var s := NumberStep(cc, text, old(position));
        position == s.next && kind == s.token.kind && value == s.token.value
        && diagnostics.items == old(diagnostics.items) + s.reported
    {
      NulInNoClass(cc);
      while cc.isDigit(Current())
        invariant Valid() && old(position) <= position
        invariant RunEnd(cc.isDigit, text, position) == RunEnd(cc.isDigit, text, old(position))
        invariant start == old(start) && diagnostics.items == old(diagnostics.items)
        decreases |text| - position
      {
        position := position + 1;
      }
      var length := position - start;
      var run := text[start..start + length];
      var parsed := TryParseInt32(run);
      if parsed.None? {
        diagnostics.ReportInvalidNumber(TextSpan(start, length), run);
      }
      value := Some(Int(parsed.GetOr(0)));
      kind := NumberToken;
    }

    /** Advances over a maximal letter run and classifies it as a keyword or an identifier. */
    method ReadIdentifierOrKeyword()
      requires Valid() && start == position
      modifies this
      ensures Valid() && start == old(start) && value == old(value)
      ensures var s := WordStep(cc, text, old(position)); position == s.next && kind == s.token.kind
    {
      NulInNoClass(cc);
      while cc.isLetter(Current())
        invariant Valid() && old(position) <= position
        invariant RunEnd(cc.isLetter, text, position) == RunEnd(cc.isLetter, text, old(position))
        invariant start == old(start) && value == old(value)
        decreases |text| - position
      {
        position := position + 1;
      }
      var length := position - start;
      kind := KeywordKind(text[start..start + length]);
    }
  }
}
