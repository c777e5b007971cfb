/**
 * The second lexer of the earlier generation: the first one's numbers and white space, letter runs
 * classified as keywords or identifiers, `!`, and `&&` / `||`. Its `Peek(offset)` reads the
 * character under the cursor whatever the offset, so a `&` followed by any character lexes as
 * `&&`. `LexAt` states what one `Lex()` call yields from a cursor position; the `Lexer` class is
 * the scanner itself, proved to yield exactly that.
 */
module McSyntaxLexer {
  import opened Options
  import opened Int32Arith
  import opened Values
  import opened CharClass
  import opened SyntaxKinds
  import opened SyntaxTokens
  import opened SyntaxFacts
  import opened TokenStreams
  import ML = McLexer

  /** `Peek(offset)` with the cursor at `pos`: '\0' when `pos + offset` is past the end, else the character at `pos`. */
  function PeekChar(text: string, pos: nat, offset: nat): (c: char)
    ensures pos + offset < |text| ==> c == text[pos]
    ensures pos + offset >= |text| ==> c == '\0'
  {
    if pos + offset >= |text| then '\0' else text[pos]
  }

  /** A maximal letter run from `pos`, classified by `GetKeyWordKind`, without a value. */
  function WordAt(cc: CharClasses, text: string, pos: nat): ML.Step
    requires Consistent(cc) && pos <= |text|
  {
    AsciiClass(cc, '\0');
    var end := RunEnd(cc.isLetter, text, pos);
    var word := text[pos..end];
    ML.Step(SyntaxToken(KeywordKind(word), pos, Some(word), None), end, [])
  }

  /** The characters that are a token on their own, and their kinds. */
  function SingleCharacterKind(c: char): Option<SyntaxKind> {
    if c == '!' then Some(BangToken) else ML.SingleCharacterKind(c)
  }

  /** The kind and text of the two-character operator a `&` or `|` starts. */
  function DoubledKind(c: char): Option<(SyntaxKind, string)> {
    if c == '&' then Some((AmpersandAmpersandToken, "&&"))
    else if c == '|' then Some((PipePipeToken, "||"))
    else None
  }

  /**
   * One `Lex()` call with the cursor at `pos`. At the end it yields the end of file and stays;
   * otherwise the cursor moves on and at most one message is added.
   */
  function LexAt(cc: CharClasses, text: string, pos: nat): (s: ML.Step)
    requires Consistent(cc) && pos <= |text|
    ensures s.token.kind == EndOfFileToken <==> pos == |text|
    ensures pos == |text| ==> s == ML.Step(ML.EndOfFile(pos), pos, [])
    ensures pos < |text| ==> pos < s.next <= |text|
    ensures |s.reported| <= 1
  {
    if pos >= |text| then ML.Step(ML.EndOfFile(pos), pos, [])
    else
      var c := text[pos];
      if cc.isDigit(c) then ML.NumberAt(cc, text, pos)
      else if cc.isWhiteSpace(c) then ML.WhiteSpaceAt(cc, text, pos)
      else if cc.isLetter(c) then WordAt(cc, text, pos)
      else PunctuationAt(text, pos)
  }

  /**
   * The `switch` of `Lex` and, after it, the bad character: a one-character token; a `&` or `|`
   * that is not the last character, read as its doubled operator positioned after the two
   * characters it skips; or else a one-character bad token with one message.
   */
  function PunctuationAt(text: string, pos: nat): (s: ML.Step)
    requires pos < |text|
  {
    var c := text[pos];
    if SingleCharacterKind(c).Some? then
      ML.Step(SyntaxToken(SingleCharacterKind(c).value, pos, Some([c]), None), After(pos), [])
    else if DoubledKind(c).Some? && PeekChar(text, pos, 1) == c then
      var (kind, lexeme) := DoubledKind(c).value;
      ML.Step(SyntaxToken(kind, pos + 2, Some(lexeme), None), pos + 2, [])
    else
      ML.Step(SyntaxToken(BadToken, pos, Some(text[pos..After(pos)]), None), After(pos), [ML.BadCharacterMessage(c)])
  }

  /** Repeated `Lex()` calls from `pos` until the end of file; every other token moves the cursor on. */
  function LexFrom(cc: CharClasses, text: string, pos: nat): (r: ML.Run)
    requires Consistent(cc) && pos <= |text|
    ensures r.eof == ML.EndOfFile(|text|)
    decreases |text| - pos
  {
    var s := LexAt(cc, text, pos);
    if s.token.kind == EndOfFileToken then ML.Run([], s.token, s.reported)
    else
      var rest := LexFrom(cc, text, s.next);
      ML.Run([s.token] + rest.tokens, rest.eof, s.reported + rest.diagnostics)
  }

  /**
   * The whole run from the start, seen part way: `lexed` and `reported` are what the calls so far
   * yielded, and the run from cursor `pos` yields the rest.
   */
  ghost predicate RunSoFar(cc: CharClasses, text: string, run: ML.Run, lexed: seq<SyntaxToken>, reported: seq<string>, pos: nat) {
    && Consistent(cc) && pos <= |text|
    && var rest := LexFrom(cc, text, pos);
       run == ML.Run(lexed + rest.tokens, rest.eof, reported + rest.diagnostics)
  }

  lemma {:induction false} RunSoFarStart(cc: CharClasses, text: string)
    requires Consistent(cc)
    ensures RunSoFar(cc, text, LexFrom(cc, text, 0), [], [], 0)
  {
    var run := LexFrom(cc, text, 0);
    assert [] + run.tokens == run.tokens && [] + run.diagnostics == run.diagnostics;
  }

  /** A call that does not yield the end of file moves the run on by its token. */
  lemma {:induction false} RunSoFarStep(cc: CharClasses, text: string, run: ML.Run, lexed: seq<SyntaxToken>, reported: seq<string>, pos: nat,
                     token: SyntaxToken, next: nat, reportedAfter: seq<string>)
    requires RunSoFar(cc, text, run, lexed, reported, pos)
    requires var s := LexAt(cc, text, pos); token == s.token && next == s.next && reportedAfter == reported + s.reported
    requires token.kind != EndOfFileToken
    ensures pos < next && RunSoFar(cc, text, run, lexed + [token], reportedAfter, next)
  {
    var s := LexAt(cc, text, pos);
    var after := LexFrom(cc, text, next);
    AppendAssociates(lexed, [token], after.tokens);
    AppendAssociates(reported, s.reported, after.diagnostics);
  }

  /** The call that yields the end of file completes the run. */
  lemma {:induction false} RunSoFarEnd(cc: CharClasses, text: string, run: ML.Run, lexed: seq<SyntaxToken>, reported: seq<string>, pos: nat,
                    token: SyntaxToken, reportedAfter: seq<string>)
    requires RunSoFar(cc, text, run, lexed, reported, pos)
    requires var s := LexAt(cc, text, pos); token == s.token && reportedAfter == reported + s.reported
    requires token.kind == EndOfFileToken
    ensures run == ML.Run(lexed, token, reportedAfter)
  {
    assert lexed + [] == lexed;
  }

  class Lexer {
    const cc: CharClasses
    const text: string
    var position: nat
    var diagnostics: seq<string>

    ghost predicate Valid()
      reads this
    {
      Consistent(cc) && position <= |text|
    }

    constructor(cc: CharClasses, text: string)
      requires Consistent(cc)
      ensures Valid() && this.cc == cc && this.text == text && position == 0 && diagnostics == []
    {
      this.cc := cc;
      this.text := text;
      position := 0;
      diagnostics := [];
    }

    /** The character under the cursor, whatever the offset, or '\0' once `position + offset` is past the end. */
    function Peek(offset: nat): (c: char)
      reads this
      ensures c == PeekChar(text, position, offset)
    {
      var index := position + offset;
      if index >= |text| then '\0' else text[position]
    }

    function Current(): (c: char)
      reads this
      ensures c == CharAt(text, position)
    {
      Peek(0)
    }

    /** `Peek(1)`: the current character again, except at the last character, where it is '\0'. */
    function Lookahead(): (c: char)
      reads this
      ensures c == if position + 1 < |text| then text[position] else '\0'
    {
      Peek(1)
    }

    /** `while (p(Current)) Next();`: the cursor moves to the end of the run of `p` characters. */
    method ReadWhile(p: char -> bool)
      requires Valid() && !p('\0')
      modifies this
      ensures Valid() && position == RunEnd(p, text, old(position)) && diagnostics == old(diagnostics)
    {
      while p(Current())
        invariant Valid() && old(position) <= position && diagnostics == old(diagnostics)
        invariant RunEnd(p, text, position) == RunEnd(p, text, old(position))
        decreases |text| - position
      {
        position := position + 1;
      }
    }

    /** One token from the cursor, exactly as `LexAt` describes it. */
    method Lex() returns (token: SyntaxToken)
      requires Valid()
      modifies this
      ensures Valid()
      ensures var s := LexAt(cc, text, old(position));
        token == s.token && position == s.next && diagnostics == old(diagnostics) + s.reported
    {
      if position >= |text| {
        return SyntaxToken(EndOfFileToken, position, Some("\0"), None);
      }
      if cc.isDigit(Current()) {
        token := LexNumber();
      } else if cc.isWhiteSpace(Current()) {
        token := LexWhiteSpace();
      } else if cc.isLetter(Current()) {
        token := LexWord();
      } else {
        token := LexPunctuation();
      }
    }

    /** The digit branch of `Lex`. */
    method LexNumber() returns (token: SyntaxToken)
      requires Valid() && position < |text| && cc.isDigit(Current())
      modifies this
      ensures Valid()
      ensures var s := ML.NumberAt(cc, text, old(position));
        token == s.token && position == s.next && diagnostics == old(diagnostics) + s.reported
    {
      AsciiClass(cc, '\0');
      var start := position;
      ReadWhile(cc.isDigit);
      var length := position - start;
      var run := text[start..start + length];
      var value := TryParseInt32(run);
      if value.None? {
        diagnostics := diagnostics + [ML.InvalidNumberMessage(text)];
      }
      token := SyntaxToken(NumberToken, start, Some(run), Some(Int(value.GetOr(0))));
    }

    /** The white-space branch of `Lex`. */
    method LexWhiteSpace() returns (token: SyntaxToken)
      requires Valid() && position < |text| && cc.isWhiteSpace(Current())
      modifies this
      ensures Valid()
      ensures var s := ML.WhiteSpaceAt(cc, text, old(position));
        token == s.token && position == s.next && diagnostics == old(diagnostics) + s.reported
    {
      AsciiClass(cc, '\0');
      var start := position;
      ReadWhile(cc.isWhiteSpace);
      var length := position - start;
      token := SyntaxToken(WhiteSpaceToken, start, Some(text[start..start + length]), None);
    }

    /** The letter branch of `Lex`: a word, classified as a keyword or an identifier. */
    method LexWord() returns (token: SyntaxToken)
      requires Valid() && position < |text| && cc.isLetter(Current())
      modifies this
      ensures Valid()
      ensures var s := WordAt(cc, text, old(position));
        token == s.token && position == s.next && diagnostics == old(diagnostics) + s.reported
    {
      AsciiClass(cc, '\0');
      var start := position;
      ReadWhile(cc.isLetter);
      var length := position - start;
      var word := text[start..start + length];
      var kind := KeywordKind(word);
      token := SyntaxToken(kind, start, Some(word), None);
    }

    /** The `switch` of `Lex` and, after it, the bad character. */
    method LexPunctuation() returns (token: SyntaxToken)
      requires Valid() && position < |text|
      modifies this
      ensures Valid()
      ensures var s := PunctuationAt(text, old(position));
        token == s.token && position == s.next && diagnostics == old(diagnostics) + s.reported
    {
      var start := position;
      var c := Current();
      if c == '+' {
        position := position + 1;
        return SyntaxToken(PlusToken, start, Some("+"), None);
      } else if c == '-' {
        position := position + 1;
        return SyntaxToken(MinusToken, start, Some("-"), None);
      } else if c == '*' {
        position := position + 1;
        return SyntaxToken(StarToken, start, Some("*"), None);
      } else if c == '/' {
        position := position + 1;
        return SyntaxToken(SlashToken, start, Some("/"), None);
      } else if c == '(' {
        position := position + 1;
        return SyntaxToken(OpenParenthesisToken, start, Some("("), None);
      } else if c == ')' {
        position := position + 1;
        return SyntaxToken(CloseParenthesisToken, start, Some(")"), None);
      } else if c == '!' {
        position := position + 1;
        return SyntaxToken(BangToken, start, Some("!"), None);
      } else if c == '&' {
        if Lookahead() == '&' {
          position := position + 2;
          return SyntaxToken(AmpersandAmpersandToken, position, Some("&&"), None);
        }
      } else if c == '|' {
        if Lookahead() == '|' {
          position := position + 2;
          return SyntaxToken(PipePipeToken, position, Some("||"), None);
        }
      }
      diagnostics := diagnostics + [ML.BadCharacterMessage(Current())];
      position := position + 1;
      token := SyntaxToken(BadToken, start, Some(text[position - 1..position]), None);
    }
  }
}
