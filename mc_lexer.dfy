/**
 * The first lexer of the earlier generation: numbers, white space and `+ - * / ( )`, nothing
 * else (letters are bad characters). `NextTokenAt` states what one `NextToken()` call yields
 * from a cursor position; the `Lexer` class is the scanner itself, proved to yield exactly
 * that. Its diagnostics are plain strings.
 */
module McLexer {
  import opened Options
  import opened Int32Arith
  import opened Values
  import opened CharClass
  import opened SyntaxKinds
  import opened SyntaxTokens
  import opened TokenStreams

  /** What one `NextToken()` call yields: the token, the cursor after it, and the messages it adds. */
  datatype Step = Step(token: SyntaxToken, next: nat, reported: seq<string>)

  /** The message for a digit run that does not fit an int; it quotes the whole source text. */
  function InvalidNumberMessage(text: string): string {
    "ERROR: The number " + text + " is not a valid Int32"
  }

  function BadCharacterMessage(c: char): string {
    "ERROR: Bad character input: '" + [c] + "'"
  }

  /** The end-of-file token, whose text is the one character '\0'. */
  function EndOfFile(position: nat): SyntaxToken {
    SyntaxToken(EndOfFileToken, position, Some("\0"), None)
  }

  /** The one-character tokens and their kinds. */
  function SingleCharacterKind(c: char): Option<SyntaxKind> {
    if c == '+' then Some(PlusToken)
    else if c == '-' then Some(MinusToken)
    else if c == '*' then Some(StarToken)
    else if c == '/' then Some(SlashToken)
    else if c == '(' then Some(OpenParenthesisToken)
    else if c == ')' then Some(CloseParenthesisToken)
    else None
  }

  /**
   * A maximal digit run from `pos`: a number token with the run as text, whose value is the
   * parsed run or 0, with a message when the run does not parse.
   */
  function NumberAt(cc: CharClasses, text: string, pos: nat): Step
    requires Consistent(cc) && pos <= |text|
  {
    AsciiClass(cc, '\0');
    var end := RunEnd(cc.isDigit, text, pos);
    var run := text[pos..end];
    var parsed := TryParseInt32(run);
    Step(SyntaxToken(NumberToken, pos, Some(run), Some(Int(parsed.GetOr(0)))), end,
         if parsed.Some? then [] else [InvalidNumberMessage(text)])
  }

  /** A maximal white-space run from `pos`. */
  function WhiteSpaceAt(cc: CharClasses, text: string, pos: nat): Step
    requires Consistent(cc) && pos <= |text|
  {
    AsciiClass(cc, '\0');
    var end := RunEnd(cc.isWhiteSpace, text, pos);
    Step(SyntaxToken(WhiteSpaceToken, pos, Some(text[pos..end]), None), end, [])
  }

  /**
   * One `NextToken()` call with the cursor at `pos`. At the end it yields the end of file and
   * stays; otherwise the token starts at `pos`, its text is the characters up to the new
   * cursor, the cursor moves on, and at most one message is added.
   */
  function NextTokenAt(cc: CharClasses, text: string, pos: nat): (s: Step)
    requires Consistent(cc) && pos <= |text|
    ensures s.token.kind == EndOfFileToken <==> pos == |text|
    ensures pos == |text| ==> s == Step(EndOfFile(pos), pos, [])
    ensures pos < |text| ==>
      && pos < s.next <= |text| && s.token.position == pos && s.token.text == Some(text[pos..s.next])
    ensures |s.reported| <= 1
  {
    if pos >= |text| then Step(EndOfFile(pos), pos, [])
    else
      var c := text[pos];
      assert text[pos..pos + 1] == [c];
      if cc.isDigit(c) then NumberAt(cc, text, pos)
      else if cc.isWhiteSpace(c) then WhiteSpaceAt(cc, text, pos)
      else match SingleCharacterKind(c)
        case Some(kind) => Step(SyntaxToken(kind, pos, Some([c]), None), pos + 1, [])
        case None => Step(SyntaxToken(BadToken, pos, Some(text[pos..pos + 1]), None), pos + 1, [BadCharacterMessage(c)])
  }

  /** Everything `NextToken()` yields from `pos` up to and including the end-of-file token. */
  datatype Run = Run(tokens: seq<SyntaxToken>, eof: SyntaxToken, diagnostics: seq<string>)

  /** Repeated `NextToken()` calls from `pos` until the end of file; every other token moves the cursor on. */
  function LexFrom(cc: CharClasses, text: string, pos: nat): (r: Run)
    requires Consistent(cc) && pos <= |text|
    ensures r.eof == EndOfFile(|text|)
    decreases |text| - pos
  {
    var s := NextTokenAt(cc, text, pos);
    if s.token.kind == EndOfFileToken then Run([], s.token, s.reported)
    else
      var rest := LexFrom(cc, text, s.next);
      Run([s.token] + rest.tokens, rest.eof, s.reported + rest.diagnostics)
  }

  /**
   * The whole run from the start, seen part way: `lexed` and `reported` are what the calls so far
   * yielded, and the run from cursor `pos` yields the rest.
   */
  ghost predicate RunSoFar(cc: CharClasses, text: string, run: Run, lexed: seq<SyntaxToken>, reported: seq<string>, pos: nat) {
    && Consistent(cc) && pos <= |text|
    && var rest := LexFrom(cc, text, pos);
       run == Run(lexed + rest.tokens, rest.eof, reported + rest.diagnostics)
  }

  lemma {:induction false} RunSoFarStart(cc: CharClasses, text: string)
    requires Consistent(cc)
    ensures RunSoFar(cc, text, LexFrom(cc, text, 0), [], [], 0)
  {
    var run := LexFrom(cc, text, 0);
    assert [] + run.tokens == run.tokens && [] + run.diagnostics == run.diagnostics;
  }

  /** A call that does not yield the end of file moves the run on by its token. */
  lemma {:induction false} RunSoFarStep(cc: CharClasses, text: string, run: Run, lexed: seq<SyntaxToken>, reported: seq<string>, pos: nat,
                     token: SyntaxToken, next: nat, reportedAfter: seq<string>)
    requires RunSoFar(cc, text, run, lexed, reported, pos)
    requires var s := NextTokenAt(cc, text, pos); token == s.token && next == s.next && reportedAfter == reported + s.reported
    requires token.kind != EndOfFileToken
    ensures pos < next && RunSoFar(cc, text, run, lexed + [token], reportedAfter, next)
  {
    var s := NextTokenAt(cc, text, pos);
    var after := LexFrom(cc, text, next);
    AppendAssociates(lexed, [token], after.tokens);
    AppendAssociates(reported, s.reported, after.diagnostics);
  }

  /** The call that yields the end of file completes the run. */
  lemma {:induction false} RunSoFarEnd(cc: CharClasses, text: string, run: Run, lexed: seq<SyntaxToken>, reported: seq<string>, pos: nat,
                    token: SyntaxToken, reportedAfter: seq<string>)
    requires RunSoFar(cc, text, run, lexed, reported, pos)
    requires var s := NextTokenAt(cc, text, pos); token == s.token && reportedAfter == reported + s.reported
    requires token.kind == EndOfFileToken
    ensures run == Run(lexed, token, reportedAfter)
  {
    assert lexed + [] == lexed;
  }

  class Lexer {
    const cc: CharClasses
    const text: string
    var position: nat
    var diagnostics: seq<string>

    ghost predicate Valid()
      reads this
    {
      Consistent(cc) && position <= |text|
    }

    constructor(cc: CharClasses, text: string)
      requires Consistent(cc)
      ensures Valid() && this.cc == cc && this.text == text && position == 0 && diagnostics == []
    {
      this.cc := cc;
      this.text := text;
      position := 0;
      diagnostics := [];
    }

    /** The character under the cursor, or '\0' at or past the end. */
    function Current(): (c: char)
      reads this
      ensures c == CharAt(text, position)
    {
      if position >= |text| then '\0' else text[position]
    }

    method Next()
      requires Valid() && position < |text|
      modifies this
      ensures Valid() && position == old(position) + 1 && diagnostics == old(diagnostics)
    {
      position := position + 1;
    }

    /** One token from the cursor, exactly as `NextTokenAt` describes it. */
    method NextToken() returns (token: SyntaxToken)
      requires Valid()
      modifies this
      ensures Valid()
      ensures var s := NextTokenAt(cc, text, old(position));
        token == s.token && position == s.next && diagnostics == old(diagnostics) + s.reported
    {
      if position >= |text| {
        return SyntaxToken(EndOfFileToken, position, Some("\0"), None);
      }
      if cc.isDigit(Current()) {
        token := ReadNumber();
      } else if cc.isWhiteSpace(Current()) {
        token := ReadWhiteSpace();
      } else {
        token := ReadSingleCharacter();
      }
    }

    /** The digit branch of `NextToken`. */
    method ReadNumber() returns (token: SyntaxToken)
      requires Valid() && position < |text| && cc.isDigit(Current())
      modifies this
      ensures Valid()
      ensures var s := NumberAt(cc, text, old(position));
        token == s.token && position == s.next && diagnostics == old(diagnostics) + s.reported
    {
      AsciiClass(cc, '\0');
      var start := position;
      while cc.isDigit(Current())
        invariant Valid() && start <= position && diagnostics == old(diagnostics)
        invariant RunEnd(cc.isDigit, text, position) == RunEnd(cc.isDigit, text, start)
        decreases |text| - position
      {
        Next();
      }
      var length := position - start;
      var run := text[start..start + length];
      var value := TryParseInt32(run);
      if value.None? {
        diagnostics := diagnostics + [InvalidNumberMessage(text)];
      }
      token := SyntaxToken(NumberToken, start, Some(run), Some(Int(value.GetOr(0))));
    }

    /** The white-space branch of `NextToken`. */
    method ReadWhiteSpace() returns (token: SyntaxToken)
      requires Valid() && position < |text| && cc.isWhiteSpace(Current())
      modifies this
      ensures Valid()
      ensures var s := WhiteSpaceAt(cc, text, old(position));
        token == s.token && position == s.next && diagnostics == old(diagnostics) + s.reported
    {
      AsciiClass(cc, '\0');
      var start := position;
      while cc.isWhiteSpace(Current())
        invariant Valid() && start <= position && diagnostics == old(diagnostics)
        invariant RunEnd(cc.isWhiteSpace, text, position) == RunEnd(cc.isWhiteSpace, text, start)
        decreases |text| - position
      {
        Next();
      }
      var length := position - start;
      token := SyntaxToken(WhiteSpaceToken, start, Some(text[start..start + length]), None);
    }

    /** The one-character branches of `NextToken` and, after them, the bad character. */
    method ReadSingleCharacter() returns (token: SyntaxToken)
      requires Valid() && position < |text| && !cc.isDigit(Current()) && !cc.isWhiteSpace(Current())
      modifies this
      ensures Valid()
      ensures var s := NextTokenAt(cc, text, old(position));
        token == s.token && position == s.next && diagnostics == old(diagnostics) + s.reported
    {
      var start := position;
      var c := Current();
      if c == '+' {
        position := position + 1;
        return SyntaxToken(PlusToken, start, Some("+"), None);
      } else if c == '-' {
        position := position + 1;
        return SyntaxToken(MinusToken, start, Some("-"), None);
      } else if c == '*' {
        position := position + 1;
        return SyntaxToken(StarToken, start, Some("*"), None);
      } else if c == '/' {
        position := position + 1;
        return SyntaxToken(SlashToken, start, Some("/"), None);
      } else if c == '(' {
        position := position + 1;
        return SyntaxToken(OpenParenthesisToken, start, Some("("), None);
      } else if c == ')' {
        position := position + 1;
        return SyntaxToken(CloseParenthesisToken, start, Some(")"), None);
      }
      diagnostics := diagnostics + [BadCharacterMessage(c)];
      position := position + 1;
      token := SyntaxToken(BadToken, start, Some(text[position - 1..position]), None);
    }
  }
}
