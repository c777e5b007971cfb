/** What one `NextToken()` call of the first earlier-generation lexer does in each case, and what a whole run yields. */
module McLexerProperties {
  import opened Options
  import opened Int32Arith
  import opened Values
  import opened CharClass
  import opened SyntaxKinds
  import opened SyntaxTokens
  import opened MinskLexerProperties
  import opened McLexer

  /** At the end of the text `NextToken()` returns the end of file and stays, so calling it again returns the same. */
  lemma EndOfFileIsIdempotent(cc: CharClasses, text: string)
    requires Consistent(cc)
    ensures var s := NextTokenAt(cc, text, |text|);
      && s.token == SyntaxToken(EndOfFileToken, |text|, Some("\0"), None) && s.next == |text| && s.reported == []
      && NextTokenAt(cc, text, s.next) == s
  {
  }

  /**
   * A digit starts a maximal `IsDigit` run, a number token at its start whose text is the run.
   * Its value is the parsed run; a run that does not fit an int has value 0 and adds exactly one
   * message, which quotes the whole text.
   */
  lemma NumberIsMaximalDigitRun(cc: CharClasses, text: string, pos: nat)
    requires Consistent(cc) && pos < |text| && cc.isDigit(text[pos])
    ensures var s := NextTokenAt(cc, text, pos); var run := text[pos..s.next];
      && s.token.kind == NumberToken && s.token.position == pos && s.token.text == Some(run) && pos < s.next
      && (forall k :: pos <= k < s.next ==> cc.isDigit(text[k])) && !cc.isDigit(CharAt(text, s.next))
      && (TryParseInt32(run).Some? ==> s.token.value == Some(Int(TryParseInt32(run).value)) && s.reported == [])
      && (TryParseInt32(run).None? ==> s.token.value == Some(Int(0)) && s.reported == [InvalidNumberMessage(text)])
  {
  }

  /** A white-space character starts a maximal white-space run, lexed as one token without a value. */
  lemma WhiteSpaceIsMaximalRun(cc: CharClasses, text: string, pos: nat)
    requires Consistent(cc) && pos < |text| && cc.isWhiteSpace(text[pos])
    ensures var s := NextTokenAt(cc, text, pos);
      && s.token == SyntaxToken(WhiteSpaceToken, pos, Some(text[pos..s.next]), None) && pos < s.next && s.reported == []
      && (forall k :: pos <= k < s.next ==> cc.isWhiteSpace(text[k])) && !cc.isWhiteSpace(CharAt(text, s.next))
  {
    AsciiClass(cc, '\0');
    assert !cc.isDigit(text[pos]);
  }

  /** Each of `+ - * / ( )` is a one-character token of its kind, with its character as text, and the cursor moves one on. */
  lemma SingleCharacterToken(cc: CharClasses, text: string, pos: nat)
    requires Consistent(cc) && pos < |text| && SingleCharacterKind(text[pos]).Some?
    ensures var s := NextTokenAt(cc, text, pos);
      s == Step(SyntaxToken(SingleCharacterKind(text[pos]).value, pos, Some([text[pos]]), None), pos + 1, [])
  {
    AsciiClass(cc, text[pos]);
  }

  /** Any other character, a letter included, is reported once and skipped as a one-character bad token. */
  lemma BadCharacterIsReportedAndSkipped(cc: CharClasses, text: string, pos: nat)
    requires Consistent(cc) && pos < |text|
    requires !cc.isDigit(text[pos]) && !cc.isWhiteSpace(text[pos]) && SingleCharacterKind(text[pos]).None?
    ensures NextTokenAt(cc, text, pos)
      == Step(SyntaxToken(BadToken, pos, Some([text[pos]]), None), pos + 1, [BadCharacterMessage(text[pos])])
  {
    assert text[pos..pos + 1] == [text[pos]];
  }

  /** This lexer knows no words: a letter is a bad character. */
  lemma LetterIsBadCharacter(cc: CharClasses, text: string, pos: nat)
    requires Consistent(cc) && pos < |text| && cc.isLetter(text[pos])
    ensures NextTokenAt(cc, text, pos)
      == Step(SyntaxToken(BadToken, pos, Some([text[pos]]), None), pos + 1, [BadCharacterMessage(text[pos])])
  {
    var c := text[pos];
    if IsAscii(c) {
      AsciiClass(cc, c);
    }
    BadCharacterIsReportedAndSkipped(cc, text, pos);
  }

  /** Whether a token is one whose lexing adds a message: a bad token, or a number that does not fit. */
  predicate Flagged(t: SyntaxToken) {
    t.kind == BadToken || (t.kind == NumberToken && t.text.Some? && TryParseInt32(t.text.value).None?)
  }

  /** How many tokens of a list are flagged. */
  function FlaggedCount(tokens: seq<SyntaxToken>): nat {
    if tokens == [] then 0 else (if Flagged(tokens[0]) then 1 else 0) + FlaggedCount(tokens[1..])
  }

  /** One call adds a message exactly when its token is flagged. */
  lemma StepReportsFlagged(cc: CharClasses, text: string, pos: nat)
    requires Consistent(cc) && pos < |text|
    ensures var s := NextTokenAt(cc, text, pos); |s.reported| == if Flagged(s.token) then 1 else 0
  {
    var c := text[pos];
    if !cc.isDigit(c) && !cc.isWhiteSpace(c) && SingleCharacterKind(c).None? {
      BadCharacterIsReportedAndSkipped(cc, text, pos);
    }
  }

  /** A token spelling `text[pos..next]` put before a run spelling `text[next..]` spells `text[pos..]`, flags counted. */
  lemma ConsSpells(text: string, pos: nat, next: nat, token: SyntaxToken, reported: seq<string>,
                   rest: seq<SyntaxToken>, restReported: seq<string>)
    requires pos < next <= |text| && token.text == Some(text[pos..next]) && token.kind != EndOfFileToken
    requires |reported| == (if Flagged(token) then 1 else 0)
    requires Concat(rest) == text[next..] && |restReported| == FlaggedCount(rest)
    requires forall i :: 0 <= i < |rest| ==> rest[i].kind != EndOfFileToken && rest[i].text.Some?
    ensures var tokens := [token] + rest;
      && Concat(tokens) == text[pos..]
      && (forall i :: 0 <= i < |tokens| ==> tokens[i].kind != EndOfFileToken && tokens[i].text.Some?)
      && |reported + restReported| == FlaggedCount(tokens)
  {
    var tokens := [token] + rest;
    assert tokens[1..] == rest;
    assert text[pos..] == text[pos..next] + text[next..];
  }

  /**
   * A run from `pos` yields, before the end of file at the end of the text, tokens that are not
   * the end of file and whose texts put together spell the rest of the text; it adds one message
   * per flagged token.
   */
  lemma {:induction false} RunSpellsText(cc: CharClasses, text: string, pos: nat)
    requires Consistent(cc) && pos <= |text|
    ensures var r := LexFrom(cc, text, pos);
      && Concat(r.tokens) == text[pos..]
      && (forall i :: 0 <= i < |r.tokens| ==> r.tokens[i].kind != EndOfFileToken && r.tokens[i].text.Some?)
      && |r.diagnostics| == FlaggedCount(r.tokens)
    decreases |text| - pos
  {
    if pos < |text| {
      var s := NextTokenAt(cc, text, pos);
      RunSpellsText(cc, text, s.next);
      StepReportsFlagged(cc, text, pos);
      var rest := LexFrom(cc, text, s.next);
      ConsSpells(text, pos, s.next, s.token, s.reported, rest.tokens, rest.diagnostics);
    }
  }
}
