/** What one `Lex()` call of the second earlier-generation lexer does in each case, and what a whole run reports. */
module McSyntaxLexerProperties {
  import opened Options
  import opened Int32Arith
  import opened Values
  import opened CharClass
  import opened SyntaxKinds
  import opened SyntaxFacts
  import opened SyntaxTokens
  import opened TokenStreams
  import ML = McLexer
  import LP = McLexerProperties
  import MP = MinskLexerProperties
  import opened McSyntaxLexer

  /** At the end of the text `Lex()` returns the end of file and stays, so calling it again returns the same. */
  lemma EndOfFileIsIdempotent(cc: CharClasses, text: string)
    requires Consistent(cc)
    ensures var s := LexAt(cc, text, |text|);
      && s.token == SyntaxToken(EndOfFileToken, |text|, Some("\0"), None) && s.next == |text| && s.reported == []
      && LexAt(cc, text, s.next) == s
  {
  }

  /** `Peek` ignores its offset: in range it reads the current character, so `Lookahead` is `Current` but at the last character. */
  lemma PeekIgnoresOffset(text: string, pos: nat, offset: nat)
    ensures pos + offset < |text| ==> PeekChar(text, pos, offset) == PeekChar(text, pos, 0)
    ensures pos < |text| ==> (PeekChar(text, pos, 1) == text[pos] <==> pos + 1 < |text| || text[pos] == '\0')
  {
  }

  /** Digits are lexed as in the first lexer: a maximal digit run, valued, with one message when it does not fit. */
  lemma NumberIsMaximalDigitRun(cc: CharClasses, text: string, pos: nat)
    requires Consistent(cc) && pos < |text| && cc.isDigit(text[pos])
    ensures LexAt(cc, text, pos) == ML.NextTokenAt(cc, text, pos)
    ensures var s := LexAt(cc, text, pos); var run := text[pos..s.next];
      && s.token.kind == NumberToken && s.token.position == pos && s.token.text == Some(run)
      && (forall k :: pos <= k < s.next ==> cc.isDigit(text[k])) && !cc.isDigit(CharAt(text, s.next))
      && (TryParseInt32(run).None? ==> s.token.value == Some(Int(0)) && s.reported == [ML.InvalidNumberMessage(text)])
  {
    LP.NumberIsMaximalDigitRun(cc, text, pos);
  }

  /** White space is lexed as in the first lexer: one token for a maximal run. */
  lemma WhiteSpaceIsMaximalRun(cc: CharClasses, text: string, pos: nat)
    requires Consistent(cc) && pos < |text| && cc.isWhiteSpace(text[pos])
    ensures LexAt(cc, text, pos) == ML.NextTokenAt(cc, text, pos)
    ensures var s := LexAt(cc, text, pos);
      && s.token == SyntaxToken(WhiteSpaceToken, pos, Some(text[pos..s.next]), None) && s.reported == []
      && (forall k :: pos <= k < s.next ==> cc.isWhiteSpace(text[k])) && !cc.isWhiteSpace(CharAt(text, s.next))
  {
    LP.WhiteSpaceIsMaximalRun(cc, text, pos);
  }

  /** A letter starts a maximal letter run, which the keyword table classifies; it has no value and reports nothing. */
  lemma WordIsMaximalLetterRun(cc: CharClasses, text: string, pos: nat)
    requires Consistent(cc) && pos < |text| && cc.isLetter(text[pos])
    ensures var s := LexAt(cc, text, pos);
      && s.token == SyntaxToken(KeywordKind(text[pos..s.next]), pos, Some(text[pos..s.next]), None)
      && pos < s.next && s.reported == []
      && (forall k :: pos <= k < s.next ==> cc.isLetter(text[k])) && !cc.isLetter(CharAt(text, s.next))
  {
    AsciiClass(cc, '\0');
  }

  /** A word alone lexes to its keyword kind or to an identifier, with the word as its text. */
  lemma WordAlone(cc: CharClasses, word: string)
    requires Consistent(cc) && |word| > 0 && forall k :: 0 <= k < |word| ==> cc.isLetter(word[k])
    ensures LexAt(cc, word, 0) == ML.Step(SyntaxToken(KeywordKind(word), 0, Some(word), None), |word|, [])
  {
    AsciiClass(cc, '\0');
    MP.RunEndIs(cc.isLetter, word, 0, |word|);
    assert word[0..|word|] == word;
  }

  /** A word of ASCII letters alone lexes to its keyword kind or to an identifier. */
  lemma AsciiWordAlone(cc: CharClasses, word: string)
    requires Consistent(cc) && |word| > 0 && forall k :: 0 <= k < |word| ==> IsAsciiLetter(word[k])
    ensures LexAt(cc, word, 0).token.kind == KeywordKind(word)
  {
    forall k | 0 <= k < |word| ensures cc.isLetter(word[k]) {
      AsciiClass(cc, word[k]);
    }
    WordAlone(cc, word);
  }

  /** `true` and `false` lex as their keywords; a longer word such as `trueish` is an identifier. */
  lemma KeywordsAndIdentifiers(cc: CharClasses)
    requires Consistent(cc)
    ensures LexAt(cc, "true", 0).token.kind == TrueKeyword
    ensures LexAt(cc, "false", 0).token.kind == FalseKeyword
    ensures LexAt(cc, "trueish", 0).token.kind == IdentifierToken
  {
    AsciiWordAlone(cc, "true");
    AsciiWordAlone(cc, "false");
    AsciiWordAlone(cc, "trueish");
  }

  /** Each of `+ - * / ( ) !` is a one-character token of its kind, with its character as text. */
  lemma SingleCharacterToken(cc: CharClasses, text: string, pos: nat)
    requires Consistent(cc) && pos < |text| && SingleCharacterKind(text[pos]).Some?
    ensures LexAt(cc, text, pos)
      == ML.Step(SyntaxToken(SingleCharacterKind(text[pos]).value, pos, Some([text[pos]]), None), pos + 1, [])
  {
    AsciiClass(cc, text[pos]);
  }

  /** `!` is always a single `BangToken`: `!=` lexes as `!` and then a bad `=`. */
  lemma BangNeverDoubles(cc: CharClasses)
    requires Consistent(cc)
    ensures LexAt(cc, "!=", 0) == ML.Step(SyntaxToken(BangToken, 0, Some("!"), None), 1, [])
    ensures LexAt(cc, "!=", 1) == ML.Step(SyntaxToken(BadToken, 1, Some("="), None), 2, [ML.BadCharacterMessage('=')])
  {
    AsciiClass(cc, '!');
    AsciiClass(cc, '=');
    assert "!="[1..2] == "=";
  }

  /**
   * A `&` or `|` that is not the last character is its doubled operator, whatever character
   * follows: the token's text is the doubled lexeme, its position is two characters on, and the
   * cursor moves two on, without a message.
   */
  lemma DoubledOperatorIgnoresNextCharacter(cc: CharClasses, text: string, pos: nat)
    requires Consistent(cc) && pos + 1 < |text| && (text[pos] == '&' || text[pos] == '|')
    ensures var kind := if text[pos] == '&' then AmpersandAmpersandToken else PipePipeToken;
      var lexeme := if text[pos] == '&' then "&&" else "||";
      LexAt(cc, text, pos) == ML.Step(SyntaxToken(kind, pos + 2, Some(lexeme), None), pos + 2, [])
  {
    AsciiClass(cc, text[pos]);
  }

  /** `&1` lexes as `&&` and then the end of file: the `1` is skipped. */
  lemma AmpersandSwallowsNextCharacter(cc: CharClasses)
    requires Consistent(cc)
    ensures LexFrom(cc, "&1", 0)
      == ML.Run([SyntaxToken(AmpersandAmpersandToken, 2, Some("&&"), None)], ML.EndOfFile(2), [])
  {
    DoubledOperatorIgnoresNextCharacter(cc, "&1", 0);
  }

  /** A `&` or `|` as the last character is a bad character. */
  lemma LastAmpersandOrPipeIsBad(cc: CharClasses, text: string)
    requires Consistent(cc) && |text| > 0 && (text[|text| - 1] == '&' || text[|text| - 1] == '|')
    ensures var pos := |text| - 1; var c := text[pos];
      LexAt(cc, text, pos) == ML.Step(SyntaxToken(BadToken, pos, Some([c]), None), |text|, [ML.BadCharacterMessage(c)])
  {
    var pos := |text| - 1;
    AsciiClass(cc, text[pos]);
    assert text[pos..pos + 1] == [text[pos]];
  }

  /** Any other character is reported once and skipped as a one-character bad token. */
  lemma BadCharacterIsReportedAndSkipped(cc: CharClasses, text: string, pos: nat)
    requires Consistent(cc) && pos < |text|
    requires !cc.isDigit(text[pos]) && !cc.isWhiteSpace(text[pos]) && !cc.isLetter(text[pos])
    requires SingleCharacterKind(text[pos]).None? && DoubledKind(text[pos]).None?
    ensures LexAt(cc, text, pos)
      == ML.Step(SyntaxToken(BadToken, pos, Some([text[pos]]), None), pos + 1, [ML.BadCharacterMessage(text[pos])])
  {
    assert text[pos..pos + 1] == [text[pos]];
  }

  /** One call adds a message exactly when its token is flagged: a bad token, or a number that does not fit. */
  lemma StepReportsFlagged(cc: CharClasses, text: string, pos: nat)
    requires Consistent(cc) && pos < |text|
    ensures var s := LexAt(cc, text, pos); |s.reported| == if LP.Flagged(s.token) then 1 else 0
  {
    var c := text[pos];
    if cc.isDigit(c) {
      LP.StepReportsFlagged(cc, text, pos);
    } else if cc.isWhiteSpace(c) {
      LP.StepReportsFlagged(cc, text, pos);
    } else if cc.isLetter(c) {
      AsciiClass(cc, '\0');
    }
  }

  /**
   * A run from `pos` yields, before the end of file at the end of the text, tokens that are not
   * the end of file and that all carry text; it adds one message per flagged token.
   */
  lemma {:induction false} RunReportsFlagged(cc: CharClasses, text: string, pos: nat)
    requires Consistent(cc) && pos <= |text|
    ensures var r := LexFrom(cc, text, pos);
      && (forall i :: 0 <= i < |r.tokens| ==> r.tokens[i].kind != EndOfFileToken && r.tokens[i].text.Some?)
      && |r.diagnostics| == LP.FlaggedCount(r.tokens)
    decreases |text| - pos
  {
    var s := LexAt(cc, text, pos);
    if pos < |text| {
      RunReportsFlagged(cc, text, s.next);
      StepReportsFlagged(cc, text, pos);
      var r, rest := LexFrom(cc, text, pos), LexFrom(cc, text, s.next);
      assert s.token.text.Some?;
      assert r.tokens == [s.token] + rest.tokens;
      assert r.tokens[1..] == rest.tokens;
    }
  }
}
