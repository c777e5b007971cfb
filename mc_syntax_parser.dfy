/**
 * The second parser of the earlier generation: precedence climbing over the keyword lexer's
 * tokens, with prefix operators, parentheses and `true`/`false` literals, and no names or
 * assignments. `ExpressionAt`, `OperandAt`, `BinaryLoop` and `PrimaryAt` state what each parse
 * method produces from a cursor into the token array; the `Parser` class holds the cursor and is
 * proved to produce exactly that. Tokens, matching and the tree are the first parser's.
 */
module McSyntaxParser {
  import opened Options
  import opened Values
  import opened CharClass
  import opened SyntaxKinds
  import opened SyntaxFacts
  import opened SyntaxTokens
  import opened SyntaxNodes
  import opened TokenStreams
  import ML = McLexer
  import MP = McParser
  import opened McSyntaxLexer

  /**
   * `ParseExpression(parentPrecedence)`: the first operand, then the operator loop with the
   * operand's messages.
   */
  function ExpressionAt(tokens: seq<SyntaxToken>, pos: nat, parentPrecedence: nat): (r: MP.Parsed)
    requires EndsWithEndOfFile(tokens) && pos < |tokens|
    ensures pos <= r.next < |tokens|
    decreases |tokens| - pos, 3
  {
    var first := OperandAt(tokens, pos, parentPrecedence);
    BinaryLoop(tokens, first.node, first.next, first.reported, parentPrecedence)
  }

  /**
   * The part of `ParseExpression` before its loop: a prefix operator binding at least as tightly
   * as the parent, applied to an operand parsed at the operator's precedence, or else a primary
   * expression.
   */
  function OperandAt(tokens: seq<SyntaxToken>, pos: nat, parentPrecedence: nat): (r: MP.Parsed)
    requires EndsWithEndOfFile(tokens) && pos < |tokens|
    ensures pos <= r.next < |tokens|
    decreases |tokens| - pos, 2
  {
    var unary := UnaryOperatorPrecedence(PeekAt(tokens, pos).kind);
    if unary != 0 && unary >= parentPrecedence then
      var operand := ExpressionAt(tokens, After(pos), unary);
      MP.Parsed(Unary(tokens[pos], operand.node), operand.next, operand.reported)
    else
      PrimaryAt(tokens, pos)
  }

  /**
   * The `while` loop of `ParseExpression` with the expression so far, the cursor and the messages
   * so far: while the current token is an infix operator binding tighter than the parent, consume
   * it, parse the right operand at its precedence and make the expression so far its left operand.
   */
  function BinaryLoop(tokens: seq<SyntaxToken>, left: ExpressionSyntax, pos: nat, reported: seq<string>, parentPrecedence: nat): (r: MP.Parsed)
    requires EndsWithEndOfFile(tokens) && pos < |tokens|
    ensures pos <= r.next < |tokens|
    decreases |tokens| - pos, 1
  {
    var precedence := BinaryOperatorPrecedence(PeekAt(tokens, pos).kind);
    if precedence == 0 || precedence <= parentPrecedence then MP.Parsed(left, pos, reported)
    else
      var right := ExpressionAt(tokens, After(pos), precedence);
      BinaryLoop(tokens, Binary(left, tokens[pos], right.node), right.next, reported + right.reported, parentPrecedence)
  }

  /** Whether the loop takes the token at `pos` as an infix operator under `parentPrecedence`. */
  predicate TakesOperator(k: SyntaxKind, parentPrecedence: nat) {
    var precedence := BinaryOperatorPrecedence(k);
    precedence != 0 && precedence > parentPrecedence
  }

  /** The loop starts with the first operand and its messages, and stops at a token it does not take. */
  lemma {:induction false} BinaryLoopBounds(tokens: seq<SyntaxToken>, pos: nat, parentPrecedence: nat,
                                            left: ExpressionSyntax, at: nat, reported: seq<string>)
    requires EndsWithEndOfFile(tokens) && pos < |tokens| && at < |tokens|
    ensures var first := OperandAt(tokens, pos, parentPrecedence);
      ExpressionAt(tokens, pos, parentPrecedence) == BinaryLoop(tokens, first.node, first.next, first.reported, parentPrecedence)
    ensures !TakesOperator(PeekAt(tokens, at).kind, parentPrecedence) ==>
      BinaryLoop(tokens, left, at, reported, parentPrecedence) == MP.Parsed(left, at, reported)
  {
  }

  /** One turn of the loop: the operator and the operand after it extend the expression so far. */
  lemma {:induction false} BinaryLoopStep(tokens: seq<SyntaxToken>, left: ExpressionSyntax, pos: nat, reported: seq<string>,
                                          parentPrecedence: nat, right: MP.Parsed)
    requires EndsWithEndOfFile(tokens) && After(pos) < |tokens| && TakesOperator(PeekAt(tokens, pos).kind, parentPrecedence)
    requires right == ExpressionAt(tokens, After(pos), BinaryOperatorPrecedence(tokens[pos].kind))
    ensures BinaryLoop(tokens, left, pos, reported, parentPrecedence)
      == BinaryLoop(tokens, Binary(left, tokens[pos], right.node), right.next, reported + right.reported, parentPrecedence)
  {
  }

  /**
   * `ParsePrimaryExpression`: a parenthesised expression, a `true`/`false` literal valued by its
   * kind, or otherwise a number literal matched with `MatchToken`.
   */
  function PrimaryAt(tokens: seq<SyntaxToken>, pos: nat): (r: MP.Parsed)
    requires EndsWithEndOfFile(tokens) && pos < |tokens|
    ensures pos <= r.next < |tokens|
    decreases |tokens| - pos, 0
  {
    var current := PeekAt(tokens, pos);
    if current.kind == OpenParenthesisToken then
      var inner := ExpressionAt(tokens, After(pos), 0);
      var close := MP.MatchAt(tokens, inner.next, CloseParenthesisToken);
      MP.Parsed(Parenthesized(current, inner.node, close.token), close.next, inner.reported + close.reported)
    else if current.kind == TrueKeyword || current.kind == FalseKeyword then
      MP.Parsed(Literal(current, Some(Bool(current.kind == TrueKeyword))), After(pos), [])
    else
      var number := MP.MatchAt(tokens, pos, NumberToken);
      MP.Parsed(Literal(number.token, number.token.value), number.next, number.reported)
  }

  /** Any token but an open parenthesis or a keyword starts a number literal, matched with `MatchToken`. */
  lemma {:induction false} PrimaryOfNumber(tokens: seq<SyntaxToken>, pos: nat, number: MP.Matched)
    requires EndsWithEndOfFile(tokens) && pos < |tokens|
    requires PeekAt(tokens, pos).kind != OpenParenthesisToken && !IsKeyword(PeekAt(tokens, pos).kind)
    requires number == MP.MatchAt(tokens, pos, NumberToken)
    ensures PrimaryAt(tokens, pos) == MP.Parsed(Literal(number.token, number.token.value), number.next, number.reported)
  {
  }

  /** `Parse` from `pos`: an expression followed by a matched end-of-file token. */
  function UnitAt(tokens: seq<SyntaxToken>, pos: nat): (r: MP.ParsedTree)
    requires EndsWithEndOfFile(tokens) && pos < |tokens|
    ensures r.endOfFileToken.kind == EndOfFileToken
  {
    var e := ExpressionAt(tokens, pos, 0);
    var eof := MP.MatchAt(tokens, e.next, EndOfFileToken);
    MP.ParsedTree(e.node, eof.token, eof.next, e.reported + eof.reported)
  }

  /** `SyntaxTree.Parse(text)`: a parser over the text, then `Parse`. */
  function ParseText(cc: CharClasses, text: string): MP.SyntaxTree
    requires Consistent(cc)
  {
    var run := LexFrom(cc, text, 0);
    var u := UnitAt(MP.TokenArray(run), 0);
    MP.SyntaxTree(run.diagnostics + u.reported, u.root, u.endOfFileToken)
  }

  class Parser {
    const tokens: seq<SyntaxToken>
    var diagnostics: seq<string>
    var position: nat

    ghost predicate Valid()
      reads this
    {
      EndsWithEndOfFile(tokens)
    }

    /**
     * Lexes the whole text, keeping every token but white space and bad tokens, up to and
     * including the end of file; the lexer's messages become the parser's first ones.
     */
    constructor(cc: CharClasses, text: string)
      requires Consistent(cc)
      ensures Valid() && position == 0
      ensures var run := LexFrom(cc, text, 0); tokens == MP.TokenArray(run) && diagnostics == run.diagnostics
    {
      var list, reported := LexAll(cc, text);
      tokens := list;
      position := 0;
      diagnostics := reported;
    }

    /** The constructor's loop: `Lex()` until the end of file, keeping the significant tokens. */
    static method LexAll(cc: CharClasses, text: string) returns (list: seq<SyntaxToken>, reported: seq<string>)
      requires Consistent(cc)
      ensures var run := LexFrom(cc, text, 0); list == MP.TokenArray(run) && reported == run.diagnostics
    {
      ghost var run := LexFrom(cc, text, 0);
      list := [];
      var lexer := new Lexer(cc, text);
      ghost var lexed: seq<SyntaxToken> := [];
      RunSoFarStart(cc, text);
      while true
        invariant lexer.Valid() && lexer.cc == cc && lexer.text == text
        invariant RunSoFar(cc, text, run, lexed, lexer.diagnostics, lexer.position)
        invariant list == Significant(lexed)
        decreases |text| - lexer.position
      {
        ghost var pos, before := lexer.position, lexer.diagnostics;
        var token := lexer.Lex();
        if token.kind != WhiteSpaceToken && token.kind != BadToken {
          list := list + [token];
        }
        if token.kind == EndOfFileToken {
          RunSoFarEnd(cc, text, run, lexed, before, pos, token, lexer.diagnostics);
          break;
        }
        RunSoFarStep(cc, text, run, lexed, before, pos, token, lexer.position, lexer.diagnostics);
        SignificantSnoc(lexed, token);
        lexed := lexed + [token];
      }
      reported := lexer.diagnostics;
    }

    /** The token `offset` places after the cursor, or the last (end-of-file) token past the end. */
    function Peek(offset: nat): (t: SyntaxToken)
      requires Valid()
      reads this
      ensures t == PeekAt(tokens, position + offset)
    {
      var index := position + offset;
      if index >= |tokens| then tokens[|tokens| - 1] else tokens[index]
    }

    function Current(): SyntaxToken
      requires Valid()
      reads this
    {
      Peek(0)
    }

    /** Returns the current token and moves past it. */
    method NextToken() returns (current: SyntaxToken)
      requires Valid()
      modifies this
      ensures Valid() && current == PeekAt(tokens, old(position)) && position == After(old(position))
      ensures diagnostics == old(diagnostics)
    {
      current := Current();
      position := position + 1;
    }

    method MatchToken(kind: SyntaxKind) returns (token: SyntaxToken)
      requires Valid()
      modifies this
      ensures Valid()
      ensures var m := MP.MatchAt(tokens, old(position), kind);
        token == m.token && position == m.next && diagnostics == old(diagnostics) + m.reported
    {
      if Current().kind == kind {
        token := NextToken();
        return;
      }
      diagnostics := diagnostics + [MP.UnexpectedTokenMessage(Current().kind, kind)];
      token := SyntaxToken(kind, Current().position, None, None);
    }

    method Parse() returns (tree: MP.SyntaxTree)
      requires Valid() && position < |tokens|
      modifies this
      ensures Valid()
      ensures var r := UnitAt(tokens, old(position));
        && tree == MP.SyntaxTree(old(diagnostics) + r.reported, r.root, r.endOfFileToken)
        && position == r.next && diagnostics == tree.diagnostics
    {
      var expression := ParseExpression(0);
      var endOfFileToken := MatchToken(EndOfFileToken);
      tree := MP.SyntaxTree(diagnostics, expression, endOfFileToken);
    }

    method ParseExpression(parentPrecedence: nat) returns (e: ExpressionSyntax)
      requires Valid() && position < |tokens|
      modifies this
      ensures Valid()
      ensures var r := ExpressionAt(tokens, old(position), parentPrecedence);
        e == r.node && position == r.next && diagnostics == old(diagnostics) + r.reported
      decreases |tokens| - position, 3
    {
      ghost var start, before := position, diagnostics;
      var left := ParseOperand(parentPrecedence);
      ghost var added := OperandAt(tokens, start, parentPrecedence).reported;
      BinaryLoopBounds(tokens, start, parentPrecedence, left, position, added);
      while true
        invariant Valid() && start <= position < |tokens|
        invariant diagnostics == before + added
        invariant BinaryLoop(tokens, left, position, added, parentPrecedence) == ExpressionAt(tokens, start, parentPrecedence)
        decreases |tokens| - position
      {
        var kind := Current().kind;
        var precedence := BinaryOperatorPrecedence(kind);
        if precedence == 0 || precedence <= parentPrecedence {
          BinaryLoopBounds(tokens, start, parentPrecedence, left, position, added);
          break;
        }
        ghost var operatorAt := position;
        var operatorToken := NextToken();
        ghost var r := ExpressionAt(tokens, position, precedence);
        var right := ParseExpression(precedence);
        BinaryLoopStep(tokens, left, operatorAt, added, parentPrecedence, r);
        left := Binary(left, operatorToken, right);
        AppendAssociates(before, added, r.reported);
        added := added + r.reported;
      }
      e := left;
    }

    /** The part of `ParseExpression` before its loop. */
    method ParseOperand(parentPrecedence: nat) returns (e: ExpressionSyntax)
      requires Valid() && position < |tokens|
      modifies this
      ensures Valid()
      ensures var r := OperandAt(tokens, old(position), parentPrecedence);
        e == r.node && position == r.next && diagnostics == old(diagnostics) + r.reported
      decreases |tokens| - position, 2
    {
      var unaryOperatorPrecedence := UnaryOperatorPrecedence(Current().kind);
      if unaryOperatorPrecedence != 0 && unaryOperatorPrecedence >= parentPrecedence {
        var operatorToken := NextToken();
        var operand := ParseExpression(unaryOperatorPrecedence);
        e := Unary(operatorToken, operand);
      } else {
        e := ParsePrimaryExpression();
      }
    }

    method ParsePrimaryExpression() returns (e: ExpressionSyntax)
      requires Valid() && position < |tokens|
      modifies this
      ensures Valid()
      ensures var r := PrimaryAt(tokens, old(position));
        e == r.node && position == r.next && diagnostics == old(diagnostics) + r.reported
      decreases |tokens| - position, 1
    {
      var kind := Current().kind;
      if kind == OpenParenthesisToken {
        e := ParseParenthesized();
      } else if kind == TrueKeyword || kind == FalseKeyword {
        var keywordToken := NextToken();
        var value := keywordToken.kind == TrueKeyword;
        e := Literal(keywordToken, Some(Bool(value)));
      } else {
        ghost var number := MP.MatchAt(tokens, position, NumberToken);
        PrimaryOfNumber(tokens, position, number);
        var numberToken := MatchToken(NumberToken);
        e := Literal(numberToken, numberToken.value);
      }
    }

    /** The parenthesis case of `ParsePrimaryExpression`. */
    method ParseParenthesized() returns (e: ExpressionSyntax)
      requires Valid() && position < |tokens| && Current().kind == OpenParenthesisToken
      modifies this
      ensures Valid()
      ensures var r := PrimaryAt(tokens, old(position));
        e == r.node && position == r.next && diagnostics == old(diagnostics) + r.reported
      decreases |tokens| - position, 0
    {
      var left := NextToken();
      ghost var inner := ExpressionAt(tokens, position, 0);
      var expression := ParseExpression(0);
      ghost var close := MP.MatchAt(tokens, position, CloseParenthesisToken);
      var right := MatchToken(CloseParenthesisToken);
      e := Parenthesized(left, expression, right);
      AppendAssociates(old(diagnostics), inner.reported, close.reported);
    }
  }
}
