/**
 * The parser of the current front end. The functions `AssignmentAt`, `BinaryAt`, `BinaryLoop`
 * and `PrimaryAt` state what each parse method produces from a cursor into the token array;
 * the `Parser` class holds that cursor and is proved to produce exactly that.
 */
module MinskParser {
  import opened Options
  import opened Values
  import opened CharClass
  import opened SyntaxKinds
  import opened SyntaxFacts
  import opened SyntaxTokens
  import opened Diagnostics
  import opened SyntaxNodes
  import opened MinskLexer
  import opened TokenStreams

  /** What one parse step yields: a node, the cursor after it, and the diagnostics it adds. */
  datatype Parsed = Parsed(node: ExpressionSyntax, next: nat, reported: seq<Diagnostic>)

  datatype Matched = Matched(token: SyntaxToken, next: nat, reported: seq<Diagnostic>)

  /**
   * `MatchToken(kind)`: the current token and one step on when it has that kind; otherwise one
   * `UnexpectedToken` diagnostic at the current token's span and, without moving, a token of
   * the expected kind at the current position with neither text nor value.
   */
  function MatchAt(tokens: seq<SyntaxToken>, pos: nat, kind: SyntaxKind): (m: Matched)
    requires EndsWithEndOfFile(tokens)
    ensures m.token.kind == kind
    ensures PeekAt(tokens, pos).kind == kind ==> m == Matched(PeekAt(tokens, pos), pos + 1, [])
    ensures PeekAt(tokens, pos).kind != kind ==>
      && m.next == pos && m.token == SyntaxToken(kind, PeekAt(tokens, pos).position, None, None)
      && m.reported == [UnexpectedToken(PeekAt(tokens, pos).Span(), PeekAt(tokens, pos).kind, kind)]
  {
    var current := PeekAt(tokens, pos);
    if current.kind == kind then Matched(current, pos + 1, [])
    else Matched(SyntaxToken(kind, current.position, None, None), pos,
                 [UnexpectedToken(current.Span(), current.kind, kind)])
  }

  /**
   * `ParseAssignmentExpression`: an identifier followed by `=` starts an assignment whose
   * right-hand side is again an assignment; anything else is a binary expression.
   */
  function AssignmentAt(tokens: seq<SyntaxToken>, pos: nat): (r: Parsed)
    requires EndsWithEndOfFile(tokens) && pos < |tokens|
    ensures pos <= r.next < |tokens|
    decreases |tokens| - pos, 4
  {
    if PeekAt(tokens, pos).kind == IdentifierToken && PeekAt(tokens, pos + 1).kind == EqualsToken then
      var right := AssignmentAt(tokens, pos + 2);
      Parsed(Assignment(tokens[pos], tokens[pos + 1], right.node), right.next, right.reported)
    else
      BinaryAt(tokens, pos, 0)
  }

  /**
   * `ParseBinaryExpression(parentPrecedence)`: the first operand, then the operator loop.
   */
  function BinaryAt(tokens: seq<SyntaxToken>, pos: nat, parentPrecedence: nat): (r: Parsed)
    requires EndsWithEndOfFile(tokens) && pos < |tokens|
    ensures pos <= r.next < |tokens|
    decreases |tokens| - pos, 3
  {
    BinaryLoop(tokens, OperandAt(tokens, pos, parentPrecedence), parentPrecedence)
  }

  /**
   * The first operand of `ParseBinaryExpression`: a unary operator binding at least as tightly
   * as the parent, applied to an operand parsed at the operator's precedence, or else a
   * primary expression.
   */
  function OperandAt(tokens: seq<SyntaxToken>, pos: nat, parentPrecedence: nat): (r: Parsed)
    requires EndsWithEndOfFile(tokens) && pos < |tokens|
    ensures pos <= r.next < |tokens|
    decreases |tokens| - pos, 2
  {
    var unary := UnaryOperatorPrecedence(PeekAt(tokens, pos).kind);
    if unary != 0 && unary >= parentPrecedence then
      var operand := BinaryAt(tokens, pos + 1, unary);
      Parsed(Unary(tokens[pos], operand.node), operand.next, operand.reported)
    else
      PrimaryAt(tokens, pos)
  }

  /**
   * The `while` loop of `ParseBinaryExpression`: while the current token is a binary operator
   * binding tighter than the parent, consume it, parse the right operand at its precedence
   * and make the expression so far its left operand.
   */
  function BinaryLoop(tokens: seq<SyntaxToken>, left: Parsed, parentPrecedence: nat): (r: Parsed)
    requires EndsWithEndOfFile(tokens) && left.next < |tokens|
    ensures left.next <= r.next < |tokens|
    decreases |tokens| - left.next, 1
  {
    var precedence := BinaryOperatorPrecedence(PeekAt(tokens, left.next).kind);
    if precedence == 0 || precedence <= parentPrecedence then left
    else
      var right := BinaryAt(tokens, left.next + 1, precedence);
      BinaryLoop(tokens, Parsed(Binary(left.node, tokens[left.next], right.node), right.next, left.reported + right.reported),
                 parentPrecedence)
  }

  /** One turn of the operator loop. */
  lemma {:induction false} BinaryLoopStep(tokens: seq<SyntaxToken>, left: Parsed, parentPrecedence: nat, precedence: nat, operandStart: nat, right: Parsed)
    requires EndsWithEndOfFile(tokens) && left.next < |tokens| && operandStart == left.next + 1 < |tokens|
    requires precedence == BinaryOperatorPrecedence(PeekAt(tokens, left.next).kind)
    requires precedence != 0 && precedence > parentPrecedence
    requires right == BinaryAt(tokens, operandStart, precedence)
    ensures BinaryLoop(tokens, left, parentPrecedence)
      == BinaryLoop(tokens, Parsed(Binary(left.node, tokens[left.next], right.node), right.next, left.reported + right.reported),
                    parentPrecedence)
  {
  }

  /**
   * `ParsePrimaryExpression`: a parenthesised expression, a `true`/`false` literal, a name, or
   * otherwise a number literal matched with `MatchToken`.
   */
  function PrimaryAt(tokens: seq<SyntaxToken>, pos: nat): (r: Parsed)
    requires EndsWithEndOfFile(tokens) && pos < |tokens|
    ensures pos <= r.next < |tokens|
    decreases |tokens| - pos, 0
  {
    var current := PeekAt(tokens, pos);
    if current.kind == OpenParenthesisToken then
      var inner := AssignmentAt(tokens, pos + 1);
      var close := MatchAt(tokens, inner.next, CloseParenthesisToken);
      Parsed(Parenthesized(current, inner.node, close.token), close.next, inner.reported + close.reported)
    else if current.kind == TrueKeyword || current.kind == FalseKeyword then
      Parsed(Literal(current, Some(Bool(current.kind == TrueKeyword))), pos + 1, [])
    else if current.kind == IdentifierToken then
      Parsed(Name(current), pos + 1, [])
    else
      var number := MatchAt(tokens, pos, NumberToken);
      Parsed(Literal(number.token, number.token.value), number.next, number.reported)
  }

  datatype ParsedUnit = ParsedUnit(unit: CompilationUnitSyntax, next: nat, reported: seq<Diagnostic>)

  /** `Parse`: an expression followed by a matched end-of-file token. */
  function UnitAt(tokens: seq<SyntaxToken>, pos: nat): (r: ParsedUnit)
    requires EndsWithEndOfFile(tokens) && pos < |tokens|
    ensures r.unit.endOfFileToken.kind == EndOfFileToken
  {
    var e := AssignmentAt(tokens, pos);
    var eof := MatchAt(tokens, e.next, EndOfFileToken);
    ParsedUnit(CompilationUnitSyntax(e.node, eof.token), eof.next, e.reported + eof.reported)
  }

  /** The token array a parser builds from a text: the significant lexed tokens and the end of file. */
  function TokenArray(run: LexRun): (tokens: seq<SyntaxToken>)
    ensures |tokens| > 0 && tokens[|tokens| - 1] == run.eof
  {
    Significant(run.tokens) + [run.eof]
  }

  class Parser {
    const tokens: seq<SyntaxToken>
    const diagnostics: DiagnosticBag
    var position: nat

    ghost predicate Valid()
      reads this
    {
      EndsWithEndOfFile(tokens)
    }

    /**
     * Lexes the whole text, keeping every token but white space and bad tokens, up to and
     * including the end of file; the lexer's diagnostics become the parser's first ones.
     */
    constructor(cc: CharClasses, text: string)
      requires Consistent(cc) && LexHalts(cc, text)
      ensures Valid() && position == 0
      ensures var run := LexFrom(cc, text, 0, |text|).value;
        tokens == TokenArray(run) && fresh(diagnostics) && diagnostics.items == run.diagnostics
    {
      var list, lexerDiagnostics := LexAll(cc, text);
      tokens := list;
      position := 0;
      var bag := new DiagnosticBag();
      bag.AddRange(lexerDiagnostics);
      diagnostics := bag;
    }

    /** The constructor's loop: `Lex()` until the end of file, keeping the significant tokens. */
    static method LexAll(cc: CharClasses, text: string) returns (list: seq<SyntaxToken>, reported: DiagnosticBag)
      requires Consistent(cc) && LexHalts(cc, text)
      ensures var run := LexFrom(cc, text, 0, |text|).value;
        list == TokenArray(run) && fresh(reported) && reported.items == run.diagnostics
    {
      ghost var run := LexFrom(cc, text, 0, |text|).value;
      list := [];
      var lexer := new Lexer(cc, text);
      ghost var table := lexer.table;
      ghost var fuel: nat := |text|;
      ghost var lexed: seq<SyntaxToken> := [];
      RunSoFarStart(cc, text);
      while true
        invariant lexer.Valid() && lexer.Tabulates() && lexer.table == table
        invariant fresh(lexer.diagnostics)
        invariant RunSoFar(table, run, lexed, lexer.diagnostics.items, lexer.position, fuel)
        invariant list == Significant(lexed)
        decreases fuel
      {
        var done;
        done, list, lexed, fuel := LexStep(lexer, run, list, lexed, fuel);
        if done {
          break;
        }
      }
      reported := lexer.diagnostics;
    }

    /**
     * One `Lex()` call of the constructor's loop: the token is kept unless it is whitespace or bad,
     * and the end of file completes the run.
     */
    static method LexStep(lexer: Lexer, ghost run: LexRun, list: seq<SyntaxToken>, ghost lexed: seq<SyntaxToken>, ghost fuel: nat)
      returns (done: bool, listAfter: seq<SyntaxToken>, ghost lexedAfter: seq<SyntaxToken>, ghost fuelAfter: nat)
      requires lexer.Valid() && lexer.Tabulates() && list == Significant(lexed)
      requires RunSoFar(lexer.table, run, lexed, lexer.diagnostics.items, lexer.position, fuel)
      modifies lexer, lexer.diagnostics
      ensures lexer.Valid()
      ensures done ==> listAfter == TokenArray(run) && lexer.diagnostics.items == run.diagnostics
      ensures !done ==>
        && fuelAfter < fuel && listAfter == Significant(lexedAfter)
        && RunSoFar(lexer.table, run, lexedAfter, lexer.diagnostics.items, lexer.position, fuelAfter)
    {
      ghost var pos, before := lexer.position, lexer.diagnostics.items;
      var token := lexer.Lex();
      done := token.kind == EndOfFileToken;
      lexedAfter, fuelAfter := lexed, fuel;
      if done {
        RunSoFarEnd(lexer.table, run, lexed, before, pos, fuel, token, lexer.diagnostics.items);
        listAfter := list + [token];
      } else {
        RunSoFarStep(lexer.table, run, lexed, before, pos, fuel, token, lexer.position, lexer.diagnostics.items);
        SignificantSnoc(lexed, token);
        listAfter := if token.kind != WhiteSpaceToken && token.kind != BadToken then list + [token] else list;
        lexedAfter, fuelAfter := lexed + [token], fuel - 1;
      }
    }

    /** The token `offset` places after the cursor, or the last (end-of-file) token past the end. */
    function Peek(offset: nat): (t: SyntaxToken)
      requires Valid()
      reads this
      ensures t == PeekAt(tokens, position + offset)
    {
      var index := position + offset;
      if index >= |tokens| then tokens[|tokens| - 1] else tokens[index]
    }

    function Current(): SyntaxToken
      requires Valid()
      reads this
    {
      Peek(0)
    }

    /** Returns the current token and moves past it. */
    method NextToken() returns (current: SyntaxToken)
      requires Valid()
      modifies this
      ensures Valid() && current == PeekAt(tokens, old(position)) && position == old(position) + 1
    {
      current := Current();
      position := position + 1;
    }

    method MatchToken(kind: SyntaxKind) returns (token: SyntaxToken)
      requires Valid()
      modifies this, diagnostics
      ensures Valid()
      ensures var m := MatchAt(tokens, old(position), kind);
        token == m.token && position == m.next && diagnostics.items == old(diagnostics.items) + m.reported
    {
      if Current().kind == kind {
        token := NextToken();
        return;
      }
      diagnostics.ReportUnexpectedToken(Current().Span(), Current().kind, kind);
      token := SyntaxToken(kind, Current().position, None, None);
    }

    method Parse() returns (unit: CompilationUnitSyntax)
      requires Valid() && position < |tokens|
      modifies this, diagnostics
      ensures Valid()
      ensures var r := UnitAt(tokens, old(position));
        unit == r.unit && position == r.next && diagnostics.items == old(diagnostics.items) + r.reported
    {
      var expression := ParseExpression();
      var endOfFileToken := MatchToken(EndOfFileToken);
      unit := CompilationUnitSyntax(expression, endOfFileToken);
    }

    method ParseExpression() returns (e: ExpressionSyntax)
      requires Valid() && position < |tokens|
      modifies this, diagnostics
      ensures Valid()
      ensures var r := AssignmentAt(tokens, old(position));
        e == r.node && position == r.next && diagnostics.items == old(diagnostics.items) + r.reported
      decreases |tokens| - position, 5
    {
      e := ParseAssignmentExpression();
    }

    method ParseAssignmentExpression() returns (e: ExpressionSyntax)
      requires Valid() && position < |tokens|
      modifies this, diagnostics
      ensures Valid()
      ensures var r := AssignmentAt(tokens, old(position));
        e == r.node && position == r.next && diagnostics.items == old(diagnostics.items) + r.reported
      decreases |tokens| - position, 4
    {
      if Peek(0).kind == IdentifierToken && Peek(1).kind == EqualsToken {
        var identifierToken := NextToken();
        var operatorToken := NextToken();
        var right := ParseAssignmentExpression();
        e := Assignment(identifierToken, operatorToken, right);
        return;
      }
      e := ParseBinaryExpression(0);
    }

    method ParseBinaryExpression(parentPrecedence: nat) returns (e: ExpressionSyntax)
      requires Valid() && position < |tokens|
      modifies this, diagnostics
      ensures Valid()
      ensures var r := BinaryAt(tokens, old(position), parentPrecedence);
        e == r.node && position == r.next && diagnostics.items == old(diagnostics.items) + r.reported
      decreases |tokens| - position, 3
    {
      ghost var start, before := position, diagnostics.items;
      var left := ParseOperand(parentPrecedence);
      ghost var added := OperandAt(tokens, start, parentPrecedence).reported;
      while true
        invariant Valid() && start <= position < |tokens|
        invariant diagnostics.items == before + added
        invariant BinaryLoop(tokens, Parsed(left, position, added), parentPrecedence) == BinaryAt(tokens, start, parentPrecedence)
        decreases |tokens| - position
      {
        var precedence := BinaryOperatorPrecedence(Current().kind);
        if precedence == 0 || precedence <= parentPrecedence {
          break;
        }
        ghost var sofar := Parsed(left, position, added);
        var operatorToken := NextToken();
        ghost var operandStart := position;
        ghost var r := BinaryAt(tokens, operandStart, precedence);
        var right := ParseBinaryExpression(precedence);
        BinaryLoopStep(tokens, sofar, parentPrecedence, precedence, operandStart, r);
        left := Binary(left, operatorToken, right);
        AppendAssociates(before, added, r.reported);
        added := added + r.reported;
      }
      e := left;
    }

    /** The part of `ParseBinaryExpression` before its loop. */
    method ParseOperand(parentPrecedence: nat) returns (e: ExpressionSyntax)
      requires Valid() && position < |tokens|
      modifies this, diagnostics
      ensures Valid()
      ensures var r := OperandAt(tokens, old(position), parentPrecedence);
        e == r.node && position == r.next && diagnostics.items == old(diagnostics.items) + r.reported
      decreases |tokens| - position, 2
    {
      var unaryOperatorPrecedence := UnaryOperatorPrecedence(Current().kind);
      if unaryOperatorPrecedence != 0 && unaryOperatorPrecedence >= parentPrecedence {
        var operatorToken := NextToken();
        var operand := ParseBinaryExpression(unaryOperatorPrecedence);
        e := Unary(operatorToken, operand);
      } else {
        e := ParsePrimaryExpression();
      }
    }

    method ParsePrimaryExpression() returns (e: ExpressionSyntax)
      requires Valid() && position < |tokens|
      modifies this, diagnostics
      ensures Valid()
      ensures var r := PrimaryAt(tokens, old(position));
        e == r.node && position == r.next && diagnostics.items == old(diagnostics.items) + r.reported
      decreases |tokens| - position, 0
    {
      var kind := Current().kind;
      if kind == OpenParenthesisToken {
        var left := NextToken();
        ghost var innerStart := position;
        ghost var inner := AssignmentAt(tokens, innerStart);
        var expression := ParseExpression();
        ghost var closeAt := position;
        ghost var close := MatchAt(tokens, closeAt, CloseParenthesisToken);
        var right := MatchToken(CloseParenthesisToken);
        e := Parenthesized(left, expression, right);
        AppendAssociates(old(diagnostics.items), inner.reported, close.reported);
      } else if kind == TrueKeyword || kind == FalseKeyword {
        var keywordToken := NextToken();
        var value := keywordToken.kind == TrueKeyword;
        e := Literal(keywordToken, Some(Bool(value)));
      } else if kind == IdentifierToken {
        var identifierToken := NextToken();
        e := Name(identifierToken);
      } else {
        var numberToken := MatchToken(NumberToken);
        e := Literal(numberToken, numberToken.value);
      }
    }
  }
}
