/**
 * What `ParseTokens` yields: nothing for the empty text, every token including white space and
 * bad tokens, and, for the lexer's test table, exactly the tokens written next to each other
 * unless the first one would read on into the second.
 */
module MinskSyntaxTreeProperties {
  import opened Options
  import opened Int32Arith
  import opened Values
  import opened CharClass
  import opened SyntaxKinds
  import opened SyntaxFacts
  import opened SyntaxTokens
  import opened Diagnostics
  import opened MinskLexer
  import opened MinskLexerProperties

  /** The empty text yields no tokens. */
  lemma ParseTokensOfEmptyText(cc: CharClasses)
    requires Consistent(cc)
    ensures LexHalts(cc, "") && LexFrom(cc, "", 0, 0).value.tokens == []
  {
    EmptyTextLexesToEndOfFile(cc);
  }

  /** `ParseTokens` keeps white space: a white-space run between two characters is a token of its own. */
  lemma WhiteSpaceIsYielded(cc: CharClasses, text: string, pos: nat, fuel: nat)
    requires Consistent(cc) && pos < |text| && cc.isWhiteSpace(text[pos]) && LexFrom(cc, text, pos, fuel).Some?
    ensures var r := LexFrom(cc, text, pos, fuel).value;
      |r.tokens| > 0 && r.tokens[0].kind == WhiteSpaceToken
  {
    WhiteSpaceIsMaximalRun(cc, text, pos);
    LexFromStep(cc, text, pos, fuel);
  }

  /** `ParseTokens` keeps bad tokens: a character no rule accepts is yielded as one. */
  lemma BadTokenIsYielded(cc: CharClasses, text: string, pos: nat, fuel: nat)
    requires Consistent(cc) && pos < |text| && IsBadCharacter(cc, text[pos]) && LexFrom(cc, text, pos, fuel).Some?
    ensures var r := LexFrom(cc, text, pos, fuel).value;
      |r.tokens| > 0 && r.tokens[0] == SyntaxToken(BadToken, pos, Some([text[pos]]), None)
  {
    BadCharacterIsReportedAndSkipped(cc, text, pos);
    LexFromStep(cc, text, pos, fuel);
  }

  /** A non-empty run of ASCII letters, as the tests write identifiers (`a`, `abc`). */
  predicate IsLetterWord(t: string) {
    |t| > 0 && forall i :: 0 <= i < |t| ==> IsAsciiLetter(t[i])
  }

  /**
   * A token the lexer's test table lists, with its text: a fixed token, an identifier of ASCII
   * letters that is no keyword, or a number of ASCII digits that fits 32 bits.
   */
  predicate IsTableToken(k: SyntaxKind, t: string) {
    || (IsFixed(k) && t == FixedText(k).value)
    || (k == IdentifierToken && IsLetterWord(t) && KeywordKind(t) == IdentifierToken)
    || (k == NumberToken && |t| > 0 && AllAsciiDigits(t) && TryParseInt32(t).Some?)
  }

  /** The token the lexer yields for a table entry at `pos`: a number carries its value. */
  function TableToken(k: SyntaxKind, t: string, pos: nat): (token: SyntaxToken)
    requires IsTableToken(k, t)
    ensures token.kind == k && token.position == pos && token.text == Some(t)
    ensures token.value.Some? <==> k == NumberToken
  {
    SyntaxToken(k, pos, Some(t), if k == NumberToken then Some(Int(TryParseInt32(t).value)) else None)
  }

  /** The tests' token table (`GetTokens`). */
  function TestTokens(): seq<(SyntaxKind, string)> {
    [(BangToken, "!"), (EqualsToken, "="), (AmpersandAmpersandToken, "&&"), (PipePipeToken, "||"),
     (EqualsEqualsToken, "=="), (BangEqualsToken, "!="), (PlusToken, "+"), (MinusToken, "-"),
     (StarToken, "*"), (SlashToken, "/"), (OpenParenthesisToken, "("), (CloseParenthesisToken, ")"),
     (IdentifierToken, "a"), (IdentifierToken, "abc"), (NumberToken, "1"), (NumberToken, "123"),
     (FalseKeyword, "false"), (TrueKeyword, "true")]
  }

  /** Every entry of the tests' table is a table token, so the pair lemmas below cover every pair the tests build. */
  lemma TestTokensAreTableTokens()
    ensures forall i :: 0 <= i < |TestTokens()| ==> IsTableToken(TestTokens()[i].0, TestTokens()[i].1)
  {
    assert DecimalValue("1") == 1;
    assert "123"[..2] == "12" && "12"[..1] == "1";
    assert DecimalValue("123") == 123;
    assert KeywordKind("a") == IdentifierToken && KeywordKind("abc") == IdentifierToken;
  }

  /**
   * A character after a token that makes the lexer read on: a letter after a keyword or an
   * identifier, a digit after a number, or `=` after `=` or `!`.
   */
  predicate Extends(cc: CharClasses, k: SyntaxKind, c: char) {
    || ((IsKeyword(k) || k == IdentifierToken) && cc.isLetter(c))
    || (k == NumberToken && cc.isDigit(c))
    || ((k == EqualsToken || k == BangToken) && c == '=')
  }

  /** A fixed token's text at the cursor, not followed by a character that extends it, lexes to that token. */
  lemma FixedTokenAt(cc: CharClasses, text: string, pos: nat, k: SyntaxKind)
    requires Consistent(cc) && IsFixed(k)
    requires pos + |FixedText(k).value| <= |text| && text[pos..pos + |FixedText(k).value|] == FixedText(k).value
    requires !Extends(cc, k, CharAt(text, pos + |FixedText(k).value|))
    ensures var t := FixedText(k).value;
      LexAt(cc, text, pos) == LexStep(SyntaxToken(k, pos, Some(t), None), pos + |t|, [])
  {
    var t := FixedText(k).value;
    assert forall i :: 0 <= i < |t| ==> text[pos + i] == t[i] by {
      forall i | 0 <= i < |t| ensures text[pos + i] == t[i] {
        assert text[pos..pos + |t|][i] == text[pos + i];
      }
    }
    if IsKeyword(k) {
      KeywordAt(cc, text, pos, k);
    } else {
      OperatorAt(cc, text, pos, k);
    }
  }

  lemma KeywordAt(cc: CharClasses, text: string, pos: nat, k: SyntaxKind)
    requires Consistent(cc) && IsKeyword(k)
    requires var t := FixedText(k).value; pos + |t| <= |text| && forall i :: 0 <= i < |t| ==> text[pos + i] == t[i]
    requires !cc.isLetter(CharAt(text, pos + |FixedText(k).value|))
    ensures var t := FixedText(k).value;
      LexAt(cc, text, pos) == LexStep(SyntaxToken(k, pos, Some(t), None), pos + |t|, [])
  {
    var t := FixedText(k).value;
    var n := |t|;
    forall i | pos <= i < pos + n ensures cc.isLetter(text[i]) {
      AsciiClass(cc, t[i - pos]);
    }
    WordIsMaximalLetterRun(cc, text, pos);
    var s := LexAt(cc, text, pos);
    assert s.next == pos + n;
    assert text[pos..pos + n] == t;
    KeywordRoundTrip(k);
  }

  lemma OperatorAt(cc: CharClasses, text: string, pos: nat, k: SyntaxKind)
    requires Consistent(cc) && IsFixed(k) && !IsKeyword(k)
    requires var t := FixedText(k).value; pos + |t| <= |text| && forall i :: 0 <= i < |t| ==> text[pos + i] == t[i]
    requires (k == EqualsToken || k == BangToken) ==> CharAt(text, pos + 1) != '='
    ensures var t := FixedText(k).value;
      LexAt(cc, text, pos) == LexStep(SyntaxToken(k, pos, Some(t), None), pos + |t|, [])
  {
    var t := FixedText(k).value;
    assert text[pos] == t[0];
    if |t| == 2 {
      assert CharAt(text, pos + 1) == t[1];
    }
    match k {
      case PlusToken =>
      case MinusToken =>
      case StarToken =>
      case SlashToken =>
      case OpenParenthesisToken =>
      case CloseParenthesisToken =>
      case AmpersandAmpersandToken =>
      case PipePipeToken =>
      case EqualsToken =>
      case EqualsEqualsToken =>
      case BangToken =>
      case BangEqualsToken =>
      case _ => assert false;
    }
  }

  /** An identifier's letters at the cursor, not followed by a letter, lex to that identifier. */
  lemma IdentifierAt(cc: CharClasses, text: string, pos: nat, t: string)
    requires Consistent(cc) && IsLetterWord(t) && KeywordKind(t) == IdentifierToken
    requires pos + |t| <= |text| && text[pos..pos + |t|] == t
    requires !cc.isLetter(CharAt(text, pos + |t|))
    ensures LexAt(cc, text, pos) == LexStep(SyntaxToken(IdentifierToken, pos, Some(t), None), pos + |t|, [])
  {
    LettersAt(cc, text, pos, t);
    WordIsMaximalLetterRun(cc, text, pos);
    var s := LexAt(cc, text, pos);
    assert s.next == pos + |t|;
  }

  /** The letters of an ASCII word, found in the text, are letters to the classification. */
  lemma LettersAt(cc: CharClasses, text: string, pos: nat, t: string)
    requires Consistent(cc) && IsLetterWord(t) && pos + |t| <= |text| && text[pos..pos + |t|] == t
    ensures forall i :: pos <= i < pos + |t| ==> cc.isLetter(text[i])
    ensures cc.isLetter(CharAt(text, pos))
  {
    forall i | pos <= i < pos + |t| ensures cc.isLetter(text[i]) {
      assert text[pos..pos + |t|][i - pos] == text[i];
      AsciiClass(cc, t[i - pos]);
    }
  }

  /** A number's digits at the cursor, not followed by a digit, lex to that number with its value. */
  lemma NumberAt(cc: CharClasses, text: string, pos: nat, t: string)
    requires Consistent(cc) && |t| > 0 && AllAsciiDigits(t) && TryParseInt32(t).Some?
    requires pos + |t| <= |text| && text[pos..pos + |t|] == t
    requires !cc.isDigit(CharAt(text, pos + |t|))
    ensures LexAt(cc, text, pos)
      == LexStep(SyntaxToken(NumberToken, pos, Some(t), Some(Int(TryParseInt32(t).value))), pos + |t|, [])
  {
    DigitsAt(cc, text, pos, t);
    NumberIsMaximalDigitRun(cc, text, pos);
    var s := LexAt(cc, text, pos);
    assert s.next == pos + |t|;
  }

  /** The digits of an ASCII number, found in the text, are digits to the classification. */
  lemma DigitsAt(cc: CharClasses, text: string, pos: nat, t: string)
    requires Consistent(cc) && |t| > 0 && AllAsciiDigits(t) && pos + |t| <= |text| && text[pos..pos + |t|] == t
    ensures forall i :: pos <= i < pos + |t| ==> cc.isDigit(text[i])
    ensures IsAsciiDigit(CharAt(text, pos))
  {
    forall i | pos <= i < pos + |t| ensures cc.isDigit(text[i]) {
      assert text[pos..pos + |t|][i - pos] == text[i];
      AsciiClass(cc, t[i - pos]);
    }
    assert text[pos] == t[0];
  }

  /** A table token's text at the cursor, not followed by a character that extends it, lexes to exactly that token. */
  lemma TableTokenAt(cc: CharClasses, text: string, pos: nat, k: SyntaxKind, t: string)
    requires Consistent(cc) && IsTableToken(k, t)
    requires pos + |t| <= |text| && text[pos..pos + |t|] == t
    requires !Extends(cc, k, CharAt(text, pos + |t|))
    ensures LexAt(cc, text, pos) == LexStep(TableToken(k, t, pos), pos + |t|, [])
  {
    if IsFixed(k) {
      FixedTokenAt(cc, text, pos, k);
    } else if k == IdentifierToken {
      IdentifierAt(cc, text, pos, t);
    } else {
      NumberAt(cc, text, pos, t);
    }
  }

  /** `TableTokenAt`, as an entry of the step table. */
  lemma TableTokenStep(cc: CharClasses, text: string, pos: nat, k: SyntaxKind, t: string)
    requires Consistent(cc) && IsTableToken(k, t)
    requires pos + |t| <= |text| && text[pos..pos + |t|] == t
    requires !Extends(cc, k, CharAt(text, pos + |t|))
    ensures Steps(cc, text)[pos] == LexStep(TableToken(k, t, pos), pos + |t|, [])
  {
    TableTokenAt(cc, text, pos, k, t);
  }

  /** The step table's entry at the end of the text: the end-of-file token, staying put. */
  lemma EndStep(cc: CharClasses, text: string)
    requires Consistent(cc)
    ensures Steps(cc, text)[|text|] == LexStep(SyntaxToken(EndOfFileToken, |text|, Some(""), None), |text|, [])
  {
    EndOfFileIsIdempotent(cc, text, |text|);
  }

  /** A table token's text followed by a character that extends it lexes to a longer token. */
  lemma ExtendedTokenReadsOn(cc: CharClasses, text: string, pos: nat, k: SyntaxKind, t: string)
    requires Consistent(cc) && IsTableToken(k, t)
    requires pos + |t| <= |text| && text[pos..pos + |t|] == t
    requires Extends(cc, k, CharAt(text, pos + |t|))
    ensures LexAt(cc, text, pos).next > pos + |t|
  {
    if IsKeyword(k) || k == IdentifierToken {
      WordReadsOn(cc, text, pos, t);
    } else if k == NumberToken {
      NumberReadsOn(cc, text, pos, t);
    } else {
      assert k == EqualsToken || k == BangToken;
      assert text[pos] == text[pos..pos + |t|][0];
      EqualsAndBangLookahead(cc, text, pos);
    }
  }

  /** ASCII letters followed by a letter: the letter run reads past them. */
  lemma WordReadsOn(cc: CharClasses, text: string, pos: nat, t: string)
    requires Consistent(cc) && IsLetterWord(t)
    requires pos + |t| <= |text| && text[pos..pos + |t|] == t && cc.isLetter(CharAt(text, pos + |t|))
    ensures LexAt(cc, text, pos).next > pos + |t|
  {
    LettersAt(cc, text, pos, t);
    WordIsMaximalLetterRun(cc, text, pos);
  }

  /** ASCII digits followed by a digit: the digit run reads past them. */
  lemma NumberReadsOn(cc: CharClasses, text: string, pos: nat, t: string)
    requires Consistent(cc) && |t| > 0 && AllAsciiDigits(t)
    requires pos + |t| <= |text| && text[pos..pos + |t|] == t && cc.isDigit(CharAt(text, pos + |t|))
    ensures LexAt(cc, text, pos).next > pos + |t|
  {
    DigitsAt(cc, text, pos, t);
    NumberIsMaximalDigitRun(cc, text, pos);
  }

  /**
   * The tests' `RequiresSeparator`: two identifiers, two keywords, a keyword and an identifier
   * either way round, two numbers, or `!` or `=` followed by `=` or `==`.
   */
  predicate RequiresSeparator(k1: SyntaxKind, k2: SyntaxKind) {
    || (k1 == IdentifierToken && k2 == IdentifierToken)
    || (IsKeyword(k1) && IsKeyword(k2))
    || (IsKeyword(k1) && k2 == IdentifierToken)
    || (k1 == IdentifierToken && IsKeyword(k2))
    || (k1 == NumberToken && k2 == NumberToken)
    || ((k1 == BangToken || k1 == EqualsToken) && (k2 == EqualsToken || k2 == EqualsEqualsToken))
  }

  /** A table token's text starts with an ASCII character that is neither white space nor NUL. */
  lemma TableTextStart(k: SyntaxKind, t: string)
    requires IsTableToken(k, t)
    ensures |t| > 0 && IsAscii(t[0]) && !IsAsciiWhiteSpace(t[0]) && t[0] != '\0'
    ensures IsAsciiLetter(t[0]) <==> (IsKeyword(k) || k == IdentifierToken)
    ensures IsAsciiDigit(t[0]) <==> k == NumberToken
    ensures t[0] == '=' <==> (k == EqualsToken || k == EqualsEqualsToken)
  {
  }

  /** Over the table, the tests ask for a separator exactly where the first token would read into the second. */
  lemma RequiresSeparatorExactly(cc: CharClasses, k1: SyntaxKind, t1: string, k2: SyntaxKind, t2: string)
    requires Consistent(cc) && IsTableToken(k1, t1) && IsTableToken(k2, t2)
    ensures RequiresSeparator(k1, k2) <==> Extends(cc, k1, t2[0])
  {
    TableTextStart(k2, t2);
    AsciiClass(cc, t2[0]);
  }

  /** Two table tokens that need no separator lex, written together, to exactly those two tokens. */
  lemma PairWithoutSeparator(cc: CharClasses, k1: SyntaxKind, t1: string, k2: SyntaxKind, t2: string)
    requires Consistent(cc) && IsTableToken(k1, t1) && IsTableToken(k2, t2) && !RequiresSeparator(k1, k2)
    ensures && LexHalts(cc, t1 + t2)
            && LexFrom(cc, t1 + t2, 0, |t1 + t2|).value.tokens == [TableToken(k1, t1, 0), TableToken(k2, t2, |t1|)]
  {
    RequiresSeparatorExactly(cc, k1, t1, k2, t2);
    TableTextStart(k1, t1);
    TableTextStart(k2, t2);
    AdjacentSteps(cc, t1 + t2, k1, t1, k2, t2);
    TwoSteps(cc, t1 + t2, |t1|, TableToken(k1, t1, 0), TableToken(k2, t2, |t1|));
  }

  /** The two table entries of a table token followed by one it does not read into. */
  lemma AdjacentSteps(cc: CharClasses, text: string, k1: SyntaxKind, t1: string, k2: SyntaxKind, t2: string)
    requires Consistent(cc) && IsTableToken(k1, t1) && IsTableToken(k2, t2)
    requires text == t1 + t2 && !Extends(cc, k1, t2[0])
    ensures Steps(cc, text)[0] == LexStep(TableToken(k1, t1, 0), |t1|, [])
    ensures Steps(cc, text)[|t1|] == LexStep(TableToken(k2, t2, |t1|), |text|, [])
  {
    TableTextStart(k2, t2);
    assert text[..|t1|] == t1 && CharAt(text, |t1|) == t2[0];
    LeadingStep(cc, text, k1, t1);
    DropPrefix(t1, t2);
    TrailingStep(cc, text, |t1|, k2, t2);
  }

  /** A table token at the start of the text, not read into by the next character. */
  lemma LeadingStep(cc: CharClasses, text: string, k: SyntaxKind, t: string)
    requires Consistent(cc) && IsTableToken(k, t)
    requires |t| <= |text| && text[..|t|] == t
    requires !Extends(cc, k, CharAt(text, |t|))
    ensures Steps(cc, text)[0] == LexStep(TableToken(k, t, 0), |t|, [])
  {
    assert text[0..|t|] == text[..|t|];
    TableTokenStep(cc, text, 0, k, t);
  }

  /** A table token that ends the text. */
  lemma TrailingStep(cc: CharClasses, text: string, m: nat, k: SyntaxKind, t: string)
    requires Consistent(cc) && IsTableToken(k, t) && m <= |text| && text[m..] == t
    ensures Steps(cc, text)[m] == LexStep(TableToken(k, t, m), |text|, [])
  {
    assert text[m..m + |t|] == text[m..];
    NulInNoClass(cc);
    TableTokenStep(cc, text, m, k, t);
  }

  /** A text that two `Lex()` calls consume, the first up to `m`, lexes to those two tokens. */
  lemma TwoSteps(cc: CharClasses, text: string, m: nat, first: SyntaxToken, second: SyntaxToken)
    requires Consistent(cc) && 0 < m < |text|
    requires first.kind != EndOfFileToken && second.kind != EndOfFileToken
    requires Steps(cc, text)[0] == LexStep(first, m, []) && Steps(cc, text)[m] == LexStep(second, |text|, [])
    ensures LexFrom(cc, text, 0, |text|) == Some(LexRun([first, second], SyntaxToken(EndOfFileToken, |text|, Some(""), None), []))
  {
    EndStep(cc, text);
    DriveTwo(Steps(cc, text), m, first, second);
  }

  /** The same over any step table whose last entry is the end of file. */
  lemma {:induction false} DriveTwo(t: seq<LexStep>, m: nat, first: SyntaxToken, second: SyntaxToken)
    requires Advances(t) && 0 < m < |t| - 1
    requires first.kind != EndOfFileToken && second.kind != EndOfFileToken
    requires t[0] == LexStep(first, m, []) && t[m] == LexStep(second, |t| - 1, [])
    requires t[|t| - 1].token.kind == EndOfFileToken && t[|t| - 1].reported == []
    ensures Drive(t, 0, |t| - 1) == Some(LexRun([first, second], t[|t| - 1].token, []))
  {
    var n := |t| - 1;
    var none: seq<Diagnostic> := [];
    assert Drive(t, n, n - 2) == Some(LexRun([], t[n].token, []));
    assert [second] + [] == [second] && [first] + [second] == [first, second] && none + none == none;
    assert Drive(t, m, n - 1) == Some(LexRun([second], t[n].token, []));
  }

  /** A text that three `Lex()` calls consume, up to `m1` and `m2`, lexes to those three tokens. */
  lemma ThreeSteps(cc: CharClasses, text: string, m1: nat, m2: nat, first: SyntaxToken, second: SyntaxToken, third: SyntaxToken)
    requires Consistent(cc) && 0 < m1 < m2 < |text|
    requires first.kind != EndOfFileToken && second.kind != EndOfFileToken && third.kind != EndOfFileToken
    requires Steps(cc, text)[0] == LexStep(first, m1, []) && Steps(cc, text)[m1] == LexStep(second, m2, [])
    requires Steps(cc, text)[m2] == LexStep(third, |text|, [])
    ensures LexFrom(cc, text, 0, |text|)
      == Some(LexRun([first, second, third], SyntaxToken(EndOfFileToken, |text|, Some(""), None), []))
  {
    EndStep(cc, text);
    DriveThree(Steps(cc, text), m1, m2, first, second, third);
  }

  lemma {:induction false} DriveThree(t: seq<LexStep>, m1: nat, m2: nat, first: SyntaxToken, second: SyntaxToken, third: SyntaxToken)
    requires Advances(t) && 0 < m1 < m2 < |t| - 1
    requires first.kind != EndOfFileToken && second.kind != EndOfFileToken && third.kind != EndOfFileToken
    requires t[0] == LexStep(first, m1, []) && t[m1] == LexStep(second, m2, []) && t[m2] == LexStep(third, |t| - 1, [])
    requires t[|t| - 1].token.kind == EndOfFileToken && t[|t| - 1].reported == []
    ensures Drive(t, 0, |t| - 1) == Some(LexRun([first, second, third], t[|t| - 1].token, []))
  {
    var n := |t| - 1;
    var none: seq<Diagnostic> := [];
    assert Drive(t, n, n - 3) == Some(LexRun([], t[n].token, []));
    assert [third] + [] == [third] && [second] + [third] == [second, third] && [first] + [second, third] == [first, second, third];
    assert none + none == none;
    assert Drive(t, m2, n - 2) == Some(LexRun([third], t[n].token, []));
    assert Drive(t, m1, n - 1) == Some(LexRun([second, third], t[n].token, []));
  }

  /** A separator written of ASCII white space, as the lexer's tests use (`" "`, `"\r\n"`, ...). */
  predicate IsSeparator(sep: string) {
    |sep| > 0 && forall i :: 0 <= i < |sep| ==> IsAsciiWhiteSpace(sep[i])
  }

  /** Two table tokens with a white-space separator between them lex to the three tokens, in order. */
  lemma PairWithSeparator(cc: CharClasses, k1: SyntaxKind, t1: string, sep: string, k2: SyntaxKind, t2: string)
    requires Consistent(cc) && IsTableToken(k1, t1) && IsTableToken(k2, t2) && IsSeparator(sep)
    ensures var text := t1 + sep + t2;
      && LexHalts(cc, text)
      && LexFrom(cc, text, 0, |text|).value.tokens
           == [TableToken(k1, t1, 0), SyntaxToken(WhiteSpaceToken, |t1|, Some(sep), None), TableToken(k2, t2, |t1| + |sep|)]
  {
    TableTextStart(k1, t1);
    SeparatedPairSteps(cc, k1, t1, sep, k2, t2);
    ThreeSteps(cc, t1 + sep + t2, |t1|, |t1| + |sep|, TableToken(k1, t1, 0),
      SyntaxToken(WhiteSpaceToken, |t1|, Some(sep), None), TableToken(k2, t2, |t1| + |sep|));
  }

  /** The three table entries of the text of a table token, a separator and a table token. */
  lemma SeparatedPairSteps(cc: CharClasses, k1: SyntaxKind, t1: string, sep: string, k2: SyntaxKind, t2: string)
    requires Consistent(cc) && IsTableToken(k1, t1) && IsTableToken(k2, t2) && IsSeparator(sep)
    ensures var text := t1 + sep + t2;
      && Steps(cc, text)[0] == LexStep(TableToken(k1, t1, 0), |t1|, [])
      && Steps(cc, text)[|t1|] == LexStep(SyntaxToken(WhiteSpaceToken, |t1|, Some(sep), None), |t1| + |sep|, [])
      && Steps(cc, text)[|t1| + |sep|] == LexStep(TableToken(k2, t2, |t1| + |sep|), |text|, [])
  {
    FirstOfSeparated(cc, k1, t1, sep, t2);
    MiddleOfSeparated(cc, t1, sep, k2, t2);
    LastOfSeparated(cc, t1, sep, k2, t2);
  }

  /** The first token of a separated pair stops at the separator, which extends no token. */
  lemma FirstOfSeparated(cc: CharClasses, k1: SyntaxKind, t1: string, sep: string, t2: string)
    requires Consistent(cc) && IsTableToken(k1, t1) && IsSeparator(sep)
    ensures Steps(cc, t1 + sep + t2)[0] == LexStep(TableToken(k1, t1, 0), |t1|, [])
  {
    var text := t1 + sep + t2;
    assert text[..|t1|] == t1;
    assert CharAt(text, |t1|) == sep[0];
    AsciiClass(cc, sep[0]);
    LeadingStep(cc, text, k1, t1);
  }

  /** The separator is one white-space token, since the second token does not start with white space. */
  lemma MiddleOfSeparated(cc: CharClasses, t1: string, sep: string, k2: SyntaxKind, t2: string)
    requires Consistent(cc) && IsTableToken(k2, t2) && IsSeparator(sep)
    ensures Steps(cc, t1 + sep + t2)[|t1|] == LexStep(SyntaxToken(WhiteSpaceToken, |t1|, Some(sep), None), |t1| + |sep|, [])
  {
    var text := t1 + sep + t2;
    TableTextStart(k2, t2);
    assert text[|t1|..|t1| + |sep|] == sep;
    assert text[|t1| + |sep|] == t2[0];
    SeparatorStep(cc, text, |t1|, sep);
  }

  /** The second token of a separated pair ends the text. */
  lemma LastOfSeparated(cc: CharClasses, t1: string, sep: string, k2: SyntaxKind, t2: string)
    requires Consistent(cc) && IsTableToken(k2, t2)
    ensures var text := t1 + sep + t2;
      Steps(cc, text)[|t1| + |sep|] == LexStep(TableToken(k2, t2, |t1| + |sep|), |text|, [])
  {
    var text := t1 + sep + t2;
    DropPrefix(t1 + sep, t2);
    TrailingStep(cc, text, |t1| + |sep|, k2, t2);
  }

  lemma DropPrefix(a: string, b: string)
    ensures (a + b)[|a|..] == b
  {
  }

  /** `SeparatorAt`, as an entry of the step table. */
  lemma SeparatorStep(cc: CharClasses, text: string, pos: nat, sep: string)
    requires Consistent(cc) && IsSeparator(sep) && pos + |sep| < |text| && text[pos..pos + |sep|] == sep
    requires IsAscii(text[pos + |sep|]) && !IsAsciiWhiteSpace(text[pos + |sep|])
    ensures Steps(cc, text)[pos] == LexStep(SyntaxToken(WhiteSpaceToken, pos, Some(sep), None), pos + |sep|, [])
  {
    SeparatorAt(cc, text, pos, sep);
  }

  /** A white-space separator followed by a character that is not white space lexes as one token. */
  lemma SeparatorAt(cc: CharClasses, text: string, pos: nat, sep: string)
    requires Consistent(cc) && IsSeparator(sep) && pos + |sep| < |text| && text[pos..pos + |sep|] == sep
    requires IsAscii(text[pos + |sep|]) && !IsAsciiWhiteSpace(text[pos + |sep|])
    ensures LexAt(cc, text, pos) == LexStep(SyntaxToken(WhiteSpaceToken, pos, Some(sep), None), pos + |sep|, [])
  {
    var n := |sep|;
    forall i | pos <= i < pos + n ensures cc.isWhiteSpace(text[i]) {
      assert text[pos..pos + n][i - pos] == text[i];
      AsciiClass(cc, sep[i - pos]);
    }
    AsciiClass(cc, text[pos + n]);
    NulInNoClass(cc);
    RunEndIs(cc.isWhiteSpace, text, pos, pos + n);
    assert text[pos] == sep[0];
    AsciiClass(cc, text[pos]);
  }

  /** The tests' separator table (`GetSeparators`). */
  function TestSeparators(): seq<string> {
    [" ", "  ", "\r", "\r\n", "\n"]
  }

  /** A member of the tests' token table is a table token. */
  lemma TestTokenIsTableToken(e: (SyntaxKind, string))
    requires e in TestTokens()
    ensures IsTableToken(e.0, e.1)
  {
    TestTokensAreTableTokens();
    var i :| 0 <= i < |TestTokens()| && TestTokens()[i] == e;
  }

  /** Every entry of the tests' separator table is a white-space separator. */
  lemma TestSeparatorIsSeparator(sep: string)
    requires sep in TestSeparators()
    ensures IsSeparator(sep)
  {
  }

  /** Two table tokens written together lex to those two tokens. */
  ghost predicate PairLexes(cc: CharClasses, e1: (SyntaxKind, string), e2: (SyntaxKind, string)) {
    && Consistent(cc) && IsTableToken(e1.0, e1.1) && IsTableToken(e2.0, e2.1)
    && var text := e1.1 + e2.1;
       LexHalts(cc, text) && LexFrom(cc, text, 0, |text|).value.tokens == [TableToken(e1.0, e1.1, 0), TableToken(e2.0, e2.1, |e1.1|)]
  }

  /** Two table tokens around `sep` lex to those two tokens with the separator between them. */
  ghost predicate SeparatedPairLexes(cc: CharClasses, e1: (SyntaxKind, string), sep: string, e2: (SyntaxKind, string)) {
    && Consistent(cc) && IsTableToken(e1.0, e1.1) && IsTableToken(e2.0, e2.1)
    && var text := e1.1 + sep + e2.1;
       && LexHalts(cc, text)
       && LexFrom(cc, text, 0, |text|).value.tokens
            == [TableToken(e1.0, e1.1, 0), SyntaxToken(WhiteSpaceToken, |e1.1|, Some(sep), None), TableToken(e2.0, e2.1, |e1.1| + |sep|)]
  }

  /** Every pair the tests write together (`GetTokenPairs`) lexes to its two tokens. */
  lemma TestPairsLex(cc: CharClasses)
    requires Consistent(cc)
    ensures forall e1, e2 | e1 in TestTokens() && e2 in TestTokens() && !RequiresSeparator(e1.0, e2.0) :: PairLexes(cc, e1, e2)
  {
    forall e1, e2 | e1 in TestTokens() && e2 in TestTokens() && !RequiresSeparator(e1.0, e2.0)
      ensures PairLexes(cc, e1, e2)
    {
      TestTokenIsTableToken(e1);
      TestTokenIsTableToken(e2);
      TestPairLexes(cc, e1.0, e1.1, e2.0, e2.1);
    }
  }

  /** `PairWithoutSeparator`, for two table entries. */
  lemma TestPairLexes(cc: CharClasses, k1: SyntaxKind, t1: string, k2: SyntaxKind, t2: string)
    requires Consistent(cc) && IsTableToken(k1, t1) && IsTableToken(k2, t2) && !RequiresSeparator(k1, k2)
    ensures PairLexes(cc, (k1, t1), (k2, t2))
  {
    PairWithoutSeparator(cc, k1, t1, k2, t2);
  }

  /** Every pair the tests separate (`GetTokenPairsWithSeparator`) lexes to its three tokens, with every separator. */
  lemma SeparatedTestPairsLex(cc: CharClasses)
    requires Consistent(cc)
    ensures forall e1, sep, e2 | e1 in TestTokens() && sep in TestSeparators() && e2 in TestTokens() && RequiresSeparator(e1.0, e2.0) ::
      SeparatedPairLexes(cc, e1, sep, e2)
  {
    forall e1, sep, e2 | e1 in TestTokens() && sep in TestSeparators() && e2 in TestTokens() && RequiresSeparator(e1.0, e2.0)
      ensures SeparatedPairLexes(cc, e1, sep, e2)
    {
      TestTokenIsTableToken(e1);
      TestTokenIsTableToken(e2);
      TestSeparatorIsSeparator(sep);
      TestSeparatedPairLexes(cc, e1.0, e1.1, sep, e2.0, e2.1);
    }
  }

  /** `PairWithSeparator`, for two table entries and a separator. */
  lemma TestSeparatedPairLexes(cc: CharClasses, k1: SyntaxKind, t1: string, sep: string, k2: SyntaxKind, t2: string)
    requires Consistent(cc) && IsTableToken(k1, t1) && IsTableToken(k2, t2) && IsSeparator(sep)
    ensures SeparatedPairLexes(cc, (k1, t1), sep, (k2, t2))
  {
    PairWithSeparator(cc, k1, t1, sep, k2, t2);
  }
}
