/** What one `Lex()` call does in each case, and what repeated calls reach. */
module MinskLexerProperties {
  import opened Options
  import opened Int32Arith
  import opened Values
  import opened CharClass
  import opened SyntaxKinds
  import opened SyntaxFacts
  import opened SyntaxTokens
  import opened Diagnostics
  import opened MinskLexer

  /** A run of `p` characters that ends before a non-`p` character is exactly where `RunEnd` stops. */
  lemma {:induction false} RunEndIs(p: char -> bool, text: string, i: nat, j: nat)
    requires i <= j <= |text| && !p('\0')
    requires forall k :: i <= k < j ==> p(text[k])
    requires !p(CharAt(text, j))
    ensures RunEnd(p, text, i) == j
    decreases j - i
  {
    if i < j {
      RunEndIs(p, text, i + 1, j);
    }
  }

  /** At the end of the text, or at an embedded NUL, `Lex()` returns an empty end-of-file token and stays put. */
  lemma EndOfFileIsIdempotent(cc: CharClasses, text: string, pos: nat)
    requires Consistent(cc) && pos <= |text| && CharAt(text, pos) == '\0'
    ensures LexAt(cc, text, pos) == LexStep(SyntaxToken(EndOfFileToken, pos, Some(""), None), pos, [])
    ensures LexAt(cc, text, LexAt(cc, text, pos).next) == LexAt(cc, text, pos)
  {
    assert text[pos..pos] == "";
  }

  /** `=` and `!` take a following `=` to become `==` and `!=`; otherwise they stand alone. */
  lemma EqualsAndBangLookahead(cc: CharClasses, text: string, pos: nat)
    requires Consistent(cc) && pos <= |text| && (CharAt(text, pos) == '=' || CharAt(text, pos) == '!')
    ensures var s := LexAt(cc, text, pos); var c := CharAt(text, pos);
      && s.reported == [] && s.token.value == None
      && (CharAt(text, pos + 1) == '=' ==>
            s.next == pos + 2 && s.token.kind == (if c == '=' then EqualsEqualsToken else BangEqualsToken))
      && (CharAt(text, pos + 1) != '=' ==>
            s.next == pos + 1 && s.token.kind == (if c == '=' then EqualsToken else BangToken))
  {
  }

  /**
   * A `&` or `|` without its twin is a bad token of length zero: the cursor does not move and
   * nothing is reported.
   */
  lemma LoneAmpersandOrPipeIsStuck(cc: CharClasses, text: string, pos: nat)
    requires Consistent(cc) && pos <= |text| && IsStuckAt(text, pos)
    ensures var s := LexAt(cc, text, pos);
      s.token.kind == BadToken && s.next == pos && s.reported == [] && s.token.Span().length == 0
  {
  }

  /** The cursor stays put exactly at the end of the text (or a NUL) and at a lone `&` or `|`. */
  lemma ProgressUnlessEndOrStuck(cc: CharClasses, text: string, pos: nat)
    requires Consistent(cc) && pos <= |text|
    ensures LexAt(cc, text, pos).next == pos <==> CharAt(text, pos) == '\0' || IsStuckAt(text, pos)
    ensures LexAt(cc, text, pos).token.kind == EndOfFileToken <==> CharAt(text, pos) == '\0'
  {
    var c := CharAt(text, pos);
    if c != '\0' && !IsOperatorStart(c) {
      NulInNoClass(cc);
      if IsAscii(c) {
        AsciiClass(cc, c);
      }
      if IsAsciiDigit(c) || IsSwitchWhiteSpace(c) || cc.isLetter(c) || cc.isWhiteSpace(c) {
        assert RunEnd(cc.isDigit, text, pos) > pos || !IsAsciiDigit(c);
        assert RunEnd(cc.isLetter, text, pos) > pos || !cc.isLetter(c);
        assert RunEnd(cc.isWhiteSpace, text, pos) > pos || !cc.isWhiteSpace(c);
        assert IsSwitchWhiteSpace(c) ==> cc.isWhiteSpace(c);
        if cc.isLetter(c) {
          assert KeywordKind(text[pos..RunEnd(cc.isLetter, text, pos)]) != EndOfFileToken;
        }
      }
    }
  }

  /**
   * A token starting with an ASCII digit is a maximal `IsDigit` run. Its value is the parsed
   * run; a run that does not fit an int has value 0 and exactly one diagnostic spanning it.
   */
  lemma NumberIsMaximalDigitRun(cc: CharClasses, text: string, pos: nat)
    requires Consistent(cc) && pos <= |text| && IsAsciiDigit(CharAt(text, pos))
    ensures var s := LexAt(cc, text, pos); var run := text[pos..s.next];
      && s.token.kind == NumberToken && pos < s.next
      && (forall k :: pos <= k < s.next ==> cc.isDigit(text[k])) && !cc.isDigit(CharAt(text, s.next))
      && s.token.text == Some(run)
      && (TryParseInt32(run).Some? ==> s.token.value == Some(Int(TryParseInt32(run).value)) && s.reported == [])
      && (TryParseInt32(run).None? ==>
            s.token.value == Some(Int(0)) && s.reported == [InvalidNumber(TextSpan(pos, s.next - pos), run)])
  {
    AsciiClass(cc, CharAt(text, pos));
    NulInNoClass(cc);
  }

  /** A letter starts a maximal letter run, which the keyword table classifies. */
  lemma WordIsMaximalLetterRun(cc: CharClasses, text: string, pos: nat)
    requires Consistent(cc) && pos <= |text| && cc.isLetter(CharAt(text, pos))
    ensures var s := LexAt(cc, text, pos);
      && pos < s.next && s.reported == [] && s.token.value == None
      && (forall k :: pos <= k < s.next ==> cc.isLetter(text[k])) && !cc.isLetter(CharAt(text, s.next))
      && s.token.kind == KeywordKind(text[pos..s.next])
  {
    var c := CharAt(text, pos);
    NulInNoClass(cc);
    if IsAscii(c) {
      AsciiClass(cc, c);
    }
  }

  /** Letters written next to each other lex as one word: two identifiers need a separator. */
  lemma AdjacentWordsMerge(cc: CharClasses, t1: string, t2: string)
    requires Consistent(cc) && |t1| > 0
    requires forall k :: 0 <= k < |t1 + t2| ==> cc.isLetter((t1 + t2)[k])
    ensures var s := LexAt(cc, t1 + t2, 0);
      s.next == |t1 + t2| && s.token == SyntaxToken(KeywordKind(t1 + t2), 0, Some(t1 + t2), None)
  {
    var text := t1 + t2;
    NulInNoClass(cc);
    WordIsMaximalLetterRun(cc, text, 0);
    RunEndIs(cc.isLetter, text, 0, |text|);
    assert text[0..|text|] == text;
  }

  /** A white-space character starts a maximal white-space run, lexed as one token. */
  lemma WhiteSpaceIsMaximalRun(cc: CharClasses, text: string, pos: nat)
    requires Consistent(cc) && pos <= |text| && cc.isWhiteSpace(CharAt(text, pos))
    ensures var s := LexAt(cc, text, pos);
      && s.token.kind == WhiteSpaceToken && pos < s.next && s.reported == []
      && (forall k :: pos <= k < s.next ==> cc.isWhiteSpace(text[k])) && !cc.isWhiteSpace(CharAt(text, s.next))
  {
    var c := CharAt(text, pos);
    NulInNoClass(cc);
    if IsAscii(c) {
      AsciiClass(cc, c);
    }
  }

  /** A character no rule accepts is reported at its position and skipped as a one-character bad token. */
  lemma BadCharacterIsReportedAndSkipped(cc: CharClasses, text: string, pos: nat)
    requires Consistent(cc) && pos <= |text| && IsBadCharacter(cc, CharAt(text, pos))
    ensures var s := LexAt(cc, text, pos); var c := CharAt(text, pos);
      && s.token == SyntaxToken(BadToken, pos, Some([c]), None)
      && s.next == pos + 1 && s.reported == [BadCharacter(pos, c)]
  {
    assert text[pos..pos + 1] == [text[pos]];
  }

  /** Only bad characters and numbers that do not fit report anything. */
  lemma ReportsOnlyBadCharactersAndNumbers(cc: CharClasses, text: string, pos: nat)
    requires Consistent(cc) && pos <= |text| && LexAt(cc, text, pos).reported != []
    ensures var s := LexAt(cc, text, pos);
      || (IsBadCharacter(cc, CharAt(text, pos)) && s.token.kind == BadToken)
      || (s.token.kind == NumberToken && TryParseInt32(text[pos..s.next]).None?)
  {
  }

  /** Each fixed token written alone lexes to exactly that token, with its fixed text. */
  lemma FixedTokenAlone(cc: CharClasses, k: SyntaxKind)
    requires Consistent(cc) && IsFixed(k)
    ensures var t := FixedText(k).value;
      LexFrom(cc, t, 0, |t|)
        == Some(LexRun([SyntaxToken(k, 0, Some(t), None)], SyntaxToken(EndOfFileToken, |t|, Some(""), None), []))
  {
    var t := FixedText(k).value;
    if IsKeyword(k) {
      KeywordAlone(cc, k);
    } else {
      OperatorAlone(cc, k);
    }
    SingleTokenRun(cc, t);
  }

  lemma KeywordAlone(cc: CharClasses, k: SyntaxKind)
    requires Consistent(cc) && IsKeyword(k)
    ensures var t := FixedText(k).value; var s := LexAt(cc, t, 0);
      s.token == SyntaxToken(k, 0, Some(t), None) && s.next == |t| && s.reported == []
  {
    var t := FixedText(k).value;
    forall i | 0 <= i < |t| ensures cc.isLetter(t[i]) {
      AsciiClass(cc, t[i]);
    }
    AdjacentWordsMerge(cc, t, "");
    assert t + "" == t;
  }

  lemma OperatorAlone(cc: CharClasses, k: SyntaxKind)
    requires Consistent(cc) && IsFixed(k) && !IsKeyword(k)
    ensures var t := FixedText(k).value; var s := LexAt(cc, t, 0);
      s.token == SyntaxToken(k, 0, Some(t), None) && s.next == |t| && s.reported == []
  {
    var t := FixedText(k).value;
    assert t[0] != '\0' && IsOperatorStart(t[0]);
  }

  /** A text that one `Lex()` call consumes entirely lexes to that token and the end of file. */
  lemma SingleTokenRun(cc: CharClasses, t: string)
    requires Consistent(cc) && |t| > 0 && LexAt(cc, t, 0).next == |t|
    ensures var s := LexAt(cc, t, 0);
      LexFrom(cc, t, 0, |t|) == Some(LexRun([s.token], SyntaxToken(EndOfFileToken, |t|, Some(""), None), s.reported))
  {
    var s := LexAt(cc, t, 0);
    EndOfFileIsIdempotent(cc, t, |t|);
    var eof := SyntaxToken(EndOfFileToken, |t|, Some(""), None);
    assert LexFrom(cc, t, |t|, |t| - 1) == Some(LexRun([], eof, []));
    assert [s.token] + [] == [s.token] && s.reported + [] == s.reported;
  }

  /** A step that is not the end of file and does not move is stuck there at every fuel. */
  lemma {:induction false} DriveStuck(t: seq<LexStep>, pos: nat, fuel: nat)
    requires Advances(t) && pos < |t| && t[pos].next == pos && t[pos].token.kind != EndOfFileToken
    ensures Drive(t, pos, fuel).None?
    decreases fuel
  {
    if fuel > 0 {
      DriveStuck(t, pos, fuel - 1);
    }
  }

  /** Fuel beyond what a run needs changes nothing. */
  lemma {:induction false} DriveFuelMonotone(t: seq<LexStep>, pos: nat, fuel: nat, more: nat)
    requires Advances(t) && pos < |t| && fuel <= more && Drive(t, pos, fuel).Some?
    ensures Drive(t, pos, more) == Drive(t, pos, fuel)
    decreases fuel
  {
    if t[pos].token.kind != EndOfFileToken {
      DriveFuelMonotone(t, t[pos].next, fuel - 1, more - 1);
    }
  }

  /** One token per remaining table entry is as much fuel as a run can ever use. */
  lemma {:induction false} DriveFuelSuffices(t: seq<LexStep>, pos: nat, fuel: nat)
    requires Advances(t) && pos < |t| && fuel >= |t| - 1 - pos
    ensures Drive(t, pos, fuel) == Drive(t, pos, |t| - 1 - pos)
    decreases |t| - pos
  {
    var s := t[pos];
    if s.token.kind != EndOfFileToken {
      if s.next == pos {
        DriveStuck(t, pos, fuel);
        DriveStuck(t, pos, |t| - 1 - pos);
      } else {
        DriveFuelSuffices(t, s.next, fuel - 1);
        DriveFuelSuffices(t, s.next, |t| - 2 - pos);
      }
    }
  }

  /** A table in which every step but the end of file moves forward always reaches the end of file. */
  lemma {:induction false} DriveHalts(t: seq<LexStep>, pos: nat)
    requires Advances(t) && pos < |t|
    requires forall p :: 0 <= p < |t| && t[p].token.kind != EndOfFileToken ==> t[p].next > p
    ensures Drive(t, pos, |t| - 1 - pos).Some?
    decreases |t| - pos
  {
    var s := t[pos];
    if s.token.kind != EndOfFileToken {
      DriveHalts(t, s.next);
      DriveFuelMonotone(t, s.next, |t| - 1 - s.next, |t| - 2 - pos);
    }
  }

  /** The concatenated texts of a token sequence. */
  function Concat(tokens: seq<SyntaxToken>): string {
    if tokens == [] then "" else tokens[0].text.GetOr("") + Concat(tokens[1..])
  }

  /** A run over a table that spells its text spells the text from `pos` to the end-of-file position. */
  lemma {:induction false} DriveSpells(t: seq<LexStep>, text: string, pos: nat, fuel: nat)
    requires Advances(t) && SpellsText(t, text) && pos < |t| && Drive(t, pos, fuel).Some?
    ensures var r := Drive(t, pos, fuel).value;
      pos <= r.eof.position <= |text| && Concat(r.tokens) == text[pos..r.eof.position]
    decreases fuel
  {
    var s := t[pos];
    if s.token.kind != EndOfFileToken {
      DriveSpells(t, text, s.next, fuel - 1);
      var r := Drive(t, pos, fuel).value;
      assert r.tokens[1..] == Drive(t, s.next, fuel - 1).value.tokens;
      assert text[pos..r.eof.position] == text[pos..s.next] + text[s.next..r.eof.position];
    }
  }

  /** Diagnostics reported between a step's position and the end of the text. */
  ghost predicate ReportsWithin(t: seq<LexStep>, n: nat) {
    forall p, i :: 0 <= p < |t| && 0 <= i < |t[p].reported| ==>
      p <= t[p].reported[i].span.start && t[p].reported[i].span.End() <= n
  }

  /** A run over such a table reports only diagnostics between its start and the end of the text. */
  lemma {:induction false} DriveReportsWithin(t: seq<LexStep>, n: nat, pos: nat, fuel: nat)
    requires Advances(t) && ReportsWithin(t, n) && pos < |t| && Drive(t, pos, fuel).Some?
    ensures var r := Drive(t, pos, fuel).value;
      forall i :: 0 <= i < |r.diagnostics| ==> pos <= r.diagnostics[i].span.start && r.diagnostics[i].span.End() <= n
    decreases fuel
  {
    var s := t[pos];
    if s.token.kind != EndOfFileToken {
      DriveReportsWithin(t, n, s.next, fuel - 1);
    }
  }

  /** Once lexing gets stuck on a lone `&` or `|`, no amount of fuel reaches the end of file. */
  lemma StuckNeverHalts(cc: CharClasses, text: string, pos: nat, fuel: nat)
    requires Consistent(cc) && pos <= |text| && IsStuckAt(text, pos)
    ensures LexFrom(cc, text, pos, fuel).None?
  {
    LoneAmpersandOrPipeIsStuck(cc, text, pos);
    DriveStuck(Steps(cc, text), pos, fuel);
  }

  /** Fuel beyond what lexing needs changes nothing. */
  lemma FuelMonotone(cc: CharClasses, text: string, pos: nat, fuel: nat, more: nat)
    requires Consistent(cc) && pos <= |text| && fuel <= more && LexFrom(cc, text, pos, fuel).Some?
    ensures LexFrom(cc, text, pos, more) == LexFrom(cc, text, pos, fuel)
  {
    DriveFuelMonotone(Steps(cc, text), pos, fuel, more);
  }

  /** One token per remaining character is as much fuel as lexing can ever use. */
  lemma FuelSuffices(cc: CharClasses, text: string, pos: nat, fuel: nat)
    requires Consistent(cc) && pos <= |text| && fuel >= |text| - pos
    ensures LexFrom(cc, text, pos, fuel) == LexFrom(cc, text, pos, |text| - pos)
  {
    DriveFuelSuffices(Steps(cc, text), pos, fuel);
  }

  /** `LexHalts` is exact: whenever any amount of fuel reaches the end of file, so does `|text|`, with the same tokens. */
  lemma MoreFuelNeverHelps(cc: CharClasses, text: string, fuel: nat)
    requires Consistent(cc) && LexFrom(cc, text, 0, fuel).Some?
    ensures LexHalts(cc, text) && LexFrom(cc, text, 0, |text|) == LexFrom(cc, text, 0, fuel)
  {
    if fuel <= |text| {
      FuelMonotone(cc, text, 0, fuel, |text|);
    } else {
      FuelSuffices(cc, text, 0, fuel);
    }
  }

  predicate NoAmpersandOrPipe(text: string) {
    forall i :: 0 <= i < |text| ==> text[i] != '&' && text[i] != '|'
  }

  /** Text without `&` and `|` always lexes to the end of file. */
  lemma HaltsWithoutAmpersandOrPipe(cc: CharClasses, text: string)
    requires Consistent(cc) && NoAmpersandOrPipe(text)
    ensures LexHalts(cc, text)
  {
    var t := Steps(cc, text);
    forall p | 0 <= p < |t| && t[p].token.kind != EndOfFileToken
      ensures t[p].next > p
    {
      ProgressUnlessEndOrStuck(cc, text, p);
    }
    DriveHalts(t, 0);
  }

  /**
   * Lexing loses nothing: the tokens' texts, in order, spell the source from the cursor to
   * the end-of-file position.
   */
  lemma TokensSpellText(cc: CharClasses, text: string, pos: nat, fuel: nat)
    requires Consistent(cc) && pos <= |text| && LexFrom(cc, text, pos, fuel).Some?
    ensures var r := LexFrom(cc, text, pos, fuel).value;
      pos <= r.eof.position <= |text| && Concat(r.tokens) == text[pos..r.eof.position]
  {
    DriveSpells(Steps(cc, text), text, pos, fuel);
  }

  /** Every diagnostic `Lex()` reports lies between its start position and the end of the text. */
  lemma ReportedInsideText(cc: CharClasses, text: string, pos: nat)
    requires Consistent(cc) && pos <= |text|
    ensures var s := LexAt(cc, text, pos);
      forall i :: 0 <= i < |s.reported| ==> pos <= s.reported[i].span.start && s.reported[i].span.End() <= |text|
  {
  }

  /** Every diagnostic the lexer reports lies inside the text it lexed. */
  lemma DiagnosticsInsideText(cc: CharClasses, text: string, pos: nat, fuel: nat)
    requires Consistent(cc) && pos <= |text| && LexFrom(cc, text, pos, fuel).Some?
    ensures var r := LexFrom(cc, text, pos, fuel).value;
      forall i :: 0 <= i < |r.diagnostics| ==> pos <= r.diagnostics[i].span.start && r.diagnostics[i].span.End() <= |text|
  {
    var t := Steps(cc, text);
    forall p, i | 0 <= p < |t| && 0 <= i < |t[p].reported|
      ensures p <= t[p].reported[i].span.start && t[p].reported[i].span.End() <= |text|
    {
      assert t[p] == LexAt(cc, text, p);
      ReportedInsideText(cc, text, p);
    }
    DriveReportsWithin(t, |text|, pos, fuel);
  }

  /** The empty text lexes to the end-of-file token alone. */
  lemma EmptyTextLexesToEndOfFile(cc: CharClasses)
    requires Consistent(cc)
    ensures LexFrom(cc, "", 0, 0) == Some(LexRun([], SyntaxToken(EndOfFileToken, 0, Some(""), None), []))
  {
  }
}
