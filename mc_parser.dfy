/**
 * The first parser of the earlier generation: a term/factor grammar over the numbers-only
 * lexer. `TermAt`, `TermLoop`, `FactorAt`, `FactorLoop` and `PrimaryAt` state what each parse
 * method produces from a cursor into the token array; the `Parser` class holds the cursor and is
 * proved to produce exactly that. There are no unary operators, names or assignments.
 */
module McParser {
  import opened Options
  import opened CharClass
  import opened SyntaxKinds
  import opened SyntaxTokens
  import opened SyntaxNodes
  import opened TokenStreams
  import opened McLexer

  /** What one parse step yields: a node, the cursor after it, and the messages it adds. */
  datatype Parsed = Parsed(node: ExpressionSyntax, next: nat, reported: seq<string>)

  datatype Matched = Matched(token: SyntaxToken, next: nat, reported: seq<string>)

  /** The tree `Parse` returns: every message so far, the expression and the matched end of file. */
  datatype SyntaxTree = SyntaxTree(diagnostics: seq<string>, root: ExpressionSyntax, endOfFileToken: SyntaxToken)

  function UnexpectedTokenMessage(actual: SyntaxKind, expected: SyntaxKind): string {
    "ERROR: Unexpected token: <" + KindName(actual) + ">, expected <" + KindName(expected) + ">"
  }

  /**
   * `MatchToken(kind)`: the current token and one step on when it has that kind; otherwise one
   * message and, without moving, a token of the expected kind at the current position with
   * neither text nor value.
   */
  function MatchAt(tokens: seq<SyntaxToken>, pos: nat, kind: SyntaxKind): (m: Matched)
    requires EndsWithEndOfFile(tokens)
    ensures m.token.kind == kind
    ensures PeekAt(tokens, pos).kind == kind ==> m == Matched(PeekAt(tokens, pos), After(pos), [])
    ensures PeekAt(tokens, pos).kind != kind ==>
      m == Matched(SyntaxToken(kind, PeekAt(tokens, pos).position, None, None), pos,
                   [UnexpectedTokenMessage(PeekAt(tokens, pos).kind, kind)])
  {
    var current := PeekAt(tokens, pos);
    if current.kind == kind then Matched(current, After(pos), [])
    else Matched(SyntaxToken(kind, current.position, None, None), pos, [UnexpectedTokenMessage(current.kind, kind)])
  }

  predicate IsTermOperator(k: SyntaxKind) { k == PlusToken || k == MinusToken }

  predicate IsFactorOperator(k: SyntaxKind) { k == StarToken || k == SlashToken }

  /** `ParseExpression`, that is `ParseTerm`: a factor, then the `+ -` loop. */
  function TermAt(tokens: seq<SyntaxToken>, pos: nat): (r: Parsed)
    requires EndsWithEndOfFile(tokens) && pos < |tokens|
    ensures pos <= r.next < |tokens|
    decreases |tokens| - pos, 4
  {
    var first := FactorAt(tokens, pos);
    TermLoop(tokens, first.node, first.next, first.reported)
  }

  /**
   * The `while` loop of `ParseTerm` with the expression so far, the cursor and the messages so
   * far: each `+` or `-` takes the expression so far as its left operand and a factor as its right.
   */
  function TermLoop(tokens: seq<SyntaxToken>, left: ExpressionSyntax, pos: nat, reported: seq<string>): (r: Parsed)
    requires EndsWithEndOfFile(tokens) && pos < |tokens|
    ensures pos <= r.next < |tokens|
    decreases |tokens| - pos, 3
  {
    if IsTermOperator(PeekAt(tokens, pos).kind) then
      var right := FactorAt(tokens, After(pos));
      TermLoop(tokens, Binary(left, tokens[pos], right.node), right.next, reported + right.reported)
    else Parsed(left, pos, reported)
  }

  /** The `+ -` loop starts with the first operand and its messages, and stops at any other token. */
  lemma {:induction false} TermLoopBounds(tokens: seq<SyntaxToken>, pos: nat, left: ExpressionSyntax, at: nat, reported: seq<string>)
    requires EndsWithEndOfFile(tokens) && pos < |tokens| && at < |tokens|
    ensures var first := FactorAt(tokens, pos); TermAt(tokens, pos) == TermLoop(tokens, first.node, first.next, first.reported)
    ensures !IsTermOperator(PeekAt(tokens, at).kind) ==> TermLoop(tokens, left, at, reported) == Parsed(left, at, reported)
  {
  }

  /** One turn of the `+ -` loop: the operator and the factor after it extend the expression so far. */
  lemma {:induction false} TermLoopStep(tokens: seq<SyntaxToken>, left: ExpressionSyntax, pos: nat, reported: seq<string>, right: Parsed)
    requires EndsWithEndOfFile(tokens) && After(pos) < |tokens| && IsTermOperator(PeekAt(tokens, pos).kind)
    requires right == FactorAt(tokens, After(pos))
    ensures TermLoop(tokens, left, pos, reported)
      == TermLoop(tokens, Binary(left, tokens[pos], right.node), right.next, reported + right.reported)
  {
  }

  /** `ParseFactor`: a primary expression, then the `* /` loop. */
  function FactorAt(tokens: seq<SyntaxToken>, pos: nat): (r: Parsed)
    requires EndsWithEndOfFile(tokens) && pos < |tokens|
    ensures pos <= r.next < |tokens|
    decreases |tokens| - pos, 2
  {
    var first := PrimaryAt(tokens, pos);
    FactorLoop(tokens, first.node, first.next, first.reported)
  }

  /** The `while` loop of `ParseFactor`: each `*` or `/` takes the expression so far and a primary expression. */
  function FactorLoop(tokens: seq<SyntaxToken>, left: ExpressionSyntax, pos: nat, reported: seq<string>): (r: Parsed)
    requires EndsWithEndOfFile(tokens) && pos < |tokens|
    ensures pos <= r.next < |tokens|
    decreases |tokens| - pos, 1
  {
    if IsFactorOperator(PeekAt(tokens, pos).kind) then
      var right := PrimaryAt(tokens, After(pos));
      FactorLoop(tokens, Binary(left, tokens[pos], right.node), right.next, reported + right.reported)
    else Parsed(left, pos, reported)
  }

  /** The `* /` loop starts with the first operand and its messages, and stops at any other token. */
  lemma {:induction false} FactorLoopBounds(tokens: seq<SyntaxToken>, pos: nat, left: ExpressionSyntax, at: nat, reported: seq<string>)
    requires EndsWithEndOfFile(tokens) && pos < |tokens| && at < |tokens|
    ensures var first := PrimaryAt(tokens, pos); FactorAt(tokens, pos) == FactorLoop(tokens, first.node, first.next, first.reported)
    ensures !IsFactorOperator(PeekAt(tokens, at).kind) ==> FactorLoop(tokens, left, at, reported) == Parsed(left, at, reported)
  {
  }

  /** One turn of the `* /` loop. */
  lemma {:induction false} FactorLoopStep(tokens: seq<SyntaxToken>, left: ExpressionSyntax, pos: nat, reported: seq<string>, right: Parsed)
    requires EndsWithEndOfFile(tokens) && After(pos) < |tokens| && IsFactorOperator(PeekAt(tokens, pos).kind)
    requires right == PrimaryAt(tokens, After(pos))
    ensures FactorLoop(tokens, left, pos, reported)
      == FactorLoop(tokens, Binary(left, tokens[pos], right.node), right.next, reported + right.reported)
  {
  }

  /** `ParsePrimaryExpression`: a parenthesised expression, or else a number literal matched with `MatchToken`. */
  function PrimaryAt(tokens: seq<SyntaxToken>, pos: nat): (r: Parsed)
    requires EndsWithEndOfFile(tokens) && pos < |tokens|
    ensures pos <= r.next < |tokens|
    decreases |tokens| - pos, 0
  {
    var current := PeekAt(tokens, pos);
    if current.kind == OpenParenthesisToken then
      var inner := TermAt(tokens, After(pos));
      var close := MatchAt(tokens, inner.next, CloseParenthesisToken);
      Parsed(Parenthesized(current, inner.node, close.token), close.next, inner.reported + close.reported)
    else
      var number := MatchAt(tokens, pos, NumberToken);
      Parsed(Literal(number.token, number.token.value), number.next, number.reported)
  }

  /** Any token but an open parenthesis starts a number literal, matched with `MatchToken`. */
  lemma {:induction false} PrimaryOfNumber(tokens: seq<SyntaxToken>, pos: nat, number: Matched)
    requires EndsWithEndOfFile(tokens) && pos < |tokens| && PeekAt(tokens, pos).kind != OpenParenthesisToken
    requires number == MatchAt(tokens, pos, NumberToken)
    ensures PrimaryAt(tokens, pos) == Parsed(Literal(number.token, number.token.value), number.next, number.reported)
  {
  }

  datatype ParsedTree = ParsedTree(root: ExpressionSyntax, endOfFileToken: SyntaxToken, next: nat, reported: seq<string>)

  /** `Parse` from `pos`: an expression followed by a matched end-of-file token. */
  function UnitAt(tokens: seq<SyntaxToken>, pos: nat): (r: ParsedTree)
    requires EndsWithEndOfFile(tokens) && pos < |tokens|
    ensures r.endOfFileToken.kind == EndOfFileToken
  {
    var e := TermAt(tokens, pos);
    var eof := MatchAt(tokens, e.next, EndOfFileToken);
    ParsedTree(e.node, eof.token, eof.next, e.reported + eof.reported)
  }

  /** The token array a parser builds from a run: the lexed tokens but white space and bad ones, and the end of file. */
  function TokenArray(run: Run): (tokens: seq<SyntaxToken>)
    ensures |tokens| > 0 && tokens[|tokens| - 1] == run.eof
  {
    Significant(run.tokens) + [run.eof]
  }

  /** `SyntaxTree.Parse(text)`: a parser over the text, then `Parse`. */
  function ParseText(cc: CharClasses, text: string): SyntaxTree
    requires Consistent(cc)
  {
    var run := LexFrom(cc, text, 0);
    var u := UnitAt(TokenArray(run), 0);
    SyntaxTree(run.diagnostics + u.reported, u.root, u.endOfFileToken)
  }

  class Parser {
    const tokens: seq<SyntaxToken>
    var diagnostics: seq<string>
    var position: nat

    ghost predicate Valid()
      reads this
    {
      EndsWithEndOfFile(tokens)
    }

    /**
     * Lexes the whole text, keeping every token but white space and bad tokens, up to and
     * including the end of file; the lexer's messages become the parser's first ones.
     */
    constructor(cc: CharClasses, text: string)
      requires Consistent(cc)
      ensures Valid() && position == 0
      ensures var run := LexFrom(cc, text, 0); tokens == TokenArray(run) && diagnostics == run.diagnostics
    {
      var list, reported := LexAll(cc, text);
      tokens := list;
      position := 0;
      diagnostics := reported;
    }

    /** The constructor's loop: `NextToken()` until the end of file, keeping the significant tokens. */
    static method LexAll(cc: CharClasses, text: string) returns (list: seq<SyntaxToken>, reported: seq<string>)
      requires Consistent(cc)
      ensures var run := LexFrom(cc, text, 0); list == TokenArray(run) && reported == run.diagnostics
    {
      ghost var run := LexFrom(cc, text, 0);
      list := [];
      var lexer := new Lexer(cc, text);
      ghost var lexed: seq<SyntaxToken> := [];
      RunSoFarStart(cc, text);
      while true
        invariant lexer.Valid() && lexer.cc == cc && lexer.text == text
        invariant RunSoFar(cc, text, run, lexed, lexer.diagnostics, lexer.position)
        invariant list == Significant(lexed)
        decreases |text| - lexer.position
      {
        ghost var pos, before := lexer.position, lexer.diagnostics;
        var token := lexer.NextToken();
        if token.kind != WhiteSpaceToken && token.kind != BadToken {
          list := list + [token];
        }
        if token.kind == EndOfFileToken {
          RunSoFarEnd(cc, text, run, lexed, before, pos, token, lexer.diagnostics);
          break;
        }
        RunSoFarStep(cc, text, run, lexed, before, pos, token, lexer.position, lexer.diagnostics);
        SignificantSnoc(lexed, token);
        lexed := lexed + [token];
      }
      reported := lexer.diagnostics;
    }

    /** The token `offset` places after the cursor, or the last (end-of-file) token past the end. */
    function Peek(offset: nat): (t: SyntaxToken)
      requires Valid()
      reads this
      ensures t == PeekAt(tokens, position + offset)
    {
      var index := position + offset;
      if index >= |tokens| then tokens[|tokens| - 1] else tokens[index]
    }

    function Current(): SyntaxToken
      requires Valid()
      reads this
    {
      Peek(0)
    }

    /** Returns the current token and moves past it. */
    method NextToken() returns (current: SyntaxToken)
      requires Valid()
      modifies this
      ensures Valid() && current == PeekAt(tokens, old(position)) && position == After(old(position))
      ensures diagnostics == old(diagnostics)
    {
      current := Current();
      position := position + 1;
    }

    method MatchToken(kind: SyntaxKind) returns (token: SyntaxToken)
      requires Valid()
      modifies this
      ensures Valid()
      ensures var m := MatchAt(tokens, old(position), kind);
        token == m.token && position == m.next && diagnostics == old(diagnostics) + m.reported
    {
      if Current().kind == kind {
        token := NextToken();
        return;
      }
      diagnostics := diagnostics + [UnexpectedTokenMessage(Current().kind, kind)];
      token := SyntaxToken(kind, Current().position, None, None);
    }

    method Parse() returns (tree: SyntaxTree)
      requires Valid() && position < |tokens|
      modifies this
      ensures Valid()
      ensures var r := UnitAt(tokens, old(position));
        && tree == SyntaxTree(old(diagnostics) + r.reported, r.root, r.endOfFileToken)
        && position == r.next && diagnostics == tree.diagnostics
    {
      var expression := ParseExpression();
      var endOfFileToken := MatchToken(EndOfFileToken);
      tree := SyntaxTree(diagnostics, expression, endOfFileToken);
    }

    method ParseExpression() returns (e: ExpressionSyntax)
      requires Valid() && position < |tokens|
      modifies this
      ensures Valid()
      ensures var r := TermAt(tokens, old(position));
        e == r.node && position == r.next && diagnostics == old(diagnostics) + r.reported
      decreases |tokens| - position, 5
    {
      e := ParseTerm();
    }

    method ParseTerm() returns (e: ExpressionSyntax)
      requires Valid() && position < |tokens|
      modifies this
      ensures Valid()
      ensures var r := TermAt(tokens, old(position));
        e == r.node && position == r.next && diagnostics == old(diagnostics) + r.reported
      decreases |tokens| - position, 4
    {
      ghost var start, before := position, diagnostics;
      var left := ParseFactor();
      ghost var added := FactorAt(tokens, start).reported;
      TermLoopBounds(tokens, start, left, position, added);
      while true
        invariant Valid() && start <= position < |tokens|
        invariant diagnostics == before + added
        invariant TermLoop(tokens, left, position, added) == TermAt(tokens, start)
        decreases |tokens| - position
      {
        var kind := Current().kind;
        if !IsTermOperator(kind) {
          TermLoopBounds(tokens, start, left, position, added);
          break;
        }
        ghost var operatorAt := position;
        var operatorToken := NextToken();
        ghost var r := FactorAt(tokens, position);
        var right := ParseFactor();
        TermLoopStep(tokens, left, operatorAt, added, r);
        left := Binary(left, operatorToken, right);
        AppendAssociates(before, added, r.reported);
        added := added + r.reported;
      }
      e := left;
    }

    method ParseFactor() returns (e: ExpressionSyntax)
      requires Valid() && position < |tokens|
      modifies this
      ensures Valid()
      ensures var r := FactorAt(tokens, old(position));
        e == r.node && position == r.next && diagnostics == old(diagnostics) + r.reported
      decreases |tokens| - position, 3
    {
      ghost var start, before := position, diagnostics;
      var left := ParsePrimaryExpression();
      ghost var added := PrimaryAt(tokens, start).reported;
      FactorLoopBounds(tokens, start, left, position, added);
      while true
        invariant Valid() && start <= position < |tokens|
        invariant diagnostics == before + added
        invariant FactorLoop(tokens, left, position, added) == FactorAt(tokens, start)
        decreases |tokens| - position
      {
        var kind := Current().kind;
        if !IsFactorOperator(kind) {
          FactorLoopBounds(tokens, start, left, position, added);
          break;
        }
        ghost var operatorAt := position;
        var operatorToken := NextToken();
        ghost var r := PrimaryAt(tokens, position);
        var right := ParsePrimaryExpression();
        FactorLoopStep(tokens, left, operatorAt, added, r);
        left := Binary(left, operatorToken, right);
        AppendAssociates(before, added, r.reported);
        added := added + r.reported;
      }
      e := left;
    }

    method ParsePrimaryExpression() returns (e: ExpressionSyntax)
      requires Valid() && position < |tokens|
      modifies this
      ensures Valid()
      ensures var r := PrimaryAt(tokens, old(position));
        e == r.node && position == r.next && diagnostics == old(diagnostics) + r.reported
      decreases |tokens| - position, 2
    {
      var kind := Current().kind;
      if kind == OpenParenthesisToken {
        e := ParseParenthesized();
      } else {
        ghost var number := MatchAt(tokens, position, NumberToken);
        PrimaryOfNumber(tokens, position, number);
        var numberToken := MatchToken(NumberToken);
        e := Literal(numberToken, numberToken.value);
      }
    }

    /** The parenthesis branch of `ParsePrimaryExpression`. */
    method ParseParenthesized() returns (e: ExpressionSyntax)
      requires Valid() && position < |tokens| && Current().kind == OpenParenthesisToken
      modifies this
      ensures Valid()
      ensures var r := PrimaryAt(tokens, old(position));
        e == r.node && position == r.next && diagnostics == old(diagnostics) + r.reported
      decreases |tokens| - position, 1
    {
      var left := NextToken();
      ghost var inner := TermAt(tokens, position);
      var expression := ParseExpression();
      ghost var close := MatchAt(tokens, position, CloseParenthesisToken);
      var right := MatchToken(CloseParenthesisToken);
      e := Parenthesized(left, expression, right);
      AppendAssociates(old(diagnostics), inner.reported, close.reported);
    }
  }
}
