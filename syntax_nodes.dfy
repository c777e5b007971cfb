/** The expression syntax of the current front end: one constructor per syntax-node class. */
module SyntaxNodes {
  import opened Options
  import opened Values
  import opened SyntaxKinds
  import opened SyntaxTokens

  datatype ExpressionSyntax =
    /** A number or `true`/`false`; `value` is the token's value or the keyword's truth. */
    | Literal(literalToken: SyntaxToken, value: Option<Value>)
    | Name(identifierToken: SyntaxToken)
    | Unary(operatorToken: SyntaxToken, operand: ExpressionSyntax)
    | Binary(left: ExpressionSyntax, operatorToken: SyntaxToken, right: ExpressionSyntax)
    | Parenthesized(openParenthesisToken: SyntaxToken, expression: ExpressionSyntax, closeParenthesisToken: SyntaxToken)
    | Assignment(identifierToken: SyntaxToken, equalsToken: SyntaxToken, expression: ExpressionSyntax)
  {
    /** The node's `Kind`. */
    function Kind(): SyntaxKind {
      match this
      case Literal(_, _) => LiteralExpression
      case Name(_) => NameExpression
      case Unary(_, _) => UnaryExpression
      case Binary(_, _, _) => BinaryExpression
      case Parenthesized(_, _, _) => ParenthesizedExpression
      case Assignment(_, _, _) => AssignmentExpression
    }
  }

  /** The root of a parse: the expression and the end-of-file token after it. */
  datatype CompilationUnitSyntax = CompilationUnitSyntax(expression: ExpressionSyntax, endOfFileToken: SyntaxToken)

  /** The tokens of a node in `GetChildren` order, read left to right. */
  function Leaves(e: ExpressionSyntax): seq<SyntaxToken> {
    match e
    case Literal(t, _) => [t]
    case Name(t) => [t]
    case Unary(op, operand) => [op] + Leaves(operand)
    case Binary(l, op, r) => Leaves(l) + [op] + Leaves(r)
    case Parenthesized(open, inner, close) => [open] + Leaves(inner) + [close]
    case Assignment(id, eq, inner) => [id, eq] + Leaves(inner)
  }

  /** The literal every parser here builds from a number token, valued as the token is. */
  function NumberLiteral(tokens: seq<SyntaxToken>, i: nat): ExpressionSyntax
    requires i < |tokens|
  {
    Literal(tokens[i], tokens[i].value)
  }

  /** The tokens that carry text, that is, all but the ones the parser synthesised. */
  function WithText(tokens: seq<SyntaxToken>): (r: seq<SyntaxToken>)
    ensures |r| <= |tokens|
    ensures forall i :: 0 <= i < |r| ==> r[i].text.Some?
  {
    if tokens == [] then []
    else (if tokens[0].text.Some? then [tokens[0]] else []) + WithText(tokens[1..])
  }

  /** Filtering distributes over concatenation. */
  lemma {:induction false} WithTextAppend(a: seq<SyntaxToken>, b: seq<SyntaxToken>)
    ensures WithText(a + b) == WithText(a) + WithText(b)
  {
    if a == [] {
      assert a + b == b;
    } else {
      assert (a + b)[1..] == a[1..] + b;
      WithTextAppend(a[1..], b);
    }
  }
}
