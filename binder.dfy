/**
 * The binder of the current front end: a type-directed transform from syntax to bound tree that
 * does not stop at a type error. An operator with no entry for its operand types is reported
 * and replaced by its (left) operand; names and assignments are not bound and throw.
 */
module MinskBinder {
  import opened Options
  import opened Values
  import opened SyntaxKinds
  import opened SyntaxTokens
  import opened Diagnostics
  import opened SyntaxNodes
  import opened BoundUnaryOperators
  import opened BoundBinaryOperators
  import opened BoundNodes
  import opened Faults
  import TS = TokenStreams

  /** What binding a node yields: the bound node or the exception, and the diagnostics reported on the way. */
  datatype Binding = Binding(result: Result<BoundExpression>, diagnostics: seq<Diagnostic>)

  /** How an operator token's text reads in a message; a synthesised token has none and reads as "". */
  function OperatorText(t: SyntaxToken): string {
    t.text.GetOr("")
  }

  /** `BindLiteralExpression`: the syntax value, or the int 0 when there is none. */
  function BindLiteral(value: Option<Value>): BoundExpression {
    BoundLiteral(value.GetOr(Int(0)))
  }

  /** `BindUnaryExpression` once its operand is bound. */
  function BindUnary(operatorToken: SyntaxToken, operand: Binding): Binding {
    match operand.result
    case Throws(_) => operand
    case Ok(b) =>
      match BindUnaryOperator(operatorToken.kind, b.Type())
      case None => Binding(Ok(b), operand.diagnostics + [UndefinedUnaryOperator(operatorToken.Span(), OperatorText(operatorToken), b.Type())])
      case Some(op) => Binding(Ok(BoundUnary(op, b)), operand.diagnostics)
  }

  /**
   * `BindBinaryExpression` once both operands are bound (the right one only if the left one did
   * not throw). The operator is the one the table lookup finds, stated through `Resolution`, which
   * `LookupIsResolution` shows to agree with the lookup for every key.
   */
  function BindBinary(left: Binding, operatorToken: SyntaxToken, right: Binding): Binding {
    match left.result
    case Throws(_) => left
    case Ok(l) =>
      match right.result
      case Throws(f) => Binding(Throws(f), left.diagnostics + right.diagnostics)
      case Ok(r) =>
        match Resolution(operatorToken.kind, l.Type(), r.Type())
        case None => Binding(Ok(l), left.diagnostics + right.diagnostics
          + [UndefinedBinaryOperator(operatorToken.Span(), OperatorText(operatorToken), l.Type(), r.Type())])
        case Some(op) => Binding(Ok(BoundBinary(l, op, r)), left.diagnostics + right.diagnostics)
  }

  /** What `BindExpression` yields for a node and what it reports, in order. */
  function BindingOf(syntax: ExpressionSyntax): Binding {
    match syntax
    case Literal(_, value) => Binding(Ok(BindLiteral(value)), [])
    case Unary(op, operand) => BindUnary(op, BindingOf(operand))
    case Binary(left, op, right) => BindBinary(BindingOf(left), op, BindingOf(right))
    case Parenthesized(_, inner, _) => BindingOf(inner)
    case _ => Binding(Throws(UnexpectedSyntax(syntax.Kind())), [])
  }

  /** How a binary node binds once both operands are bound without an exception. */
  lemma BinaryBindingOfBound(syntax: ExpressionSyntax, found: Option<BoundBinaryOperator>)
    requires syntax.Binary? && BindingOf(syntax.left).result.Ok? && BindingOf(syntax.right).result.Ok?
    requires var l, r := BindingOf(syntax.left).result.value, BindingOf(syntax.right).result.value;
      found == FirstMatch(Operators(), syntax.operatorToken.kind, l.Type(), r.Type())
    ensures var l, r := BindingOf(syntax.left).result.value, BindingOf(syntax.right).result.value;
      var reported := BindingOf(syntax.left).diagnostics + BindingOf(syntax.right).diagnostics;
      BindingOf(syntax) == match found
        case None => Binding(Ok(l), reported + [UndefinedBinaryOperator(syntax.operatorToken.Span(), OperatorText(syntax.operatorToken), l.Type(), r.Type())])
        case Some(op) => Binding(Ok(BoundBinary(l, op, r)), reported)
  {
    var l, r := BindingOf(syntax.left).result.value, BindingOf(syntax.right).result.value;
    LookupIsResolution(syntax.operatorToken.kind, l.Type(), r.Type());
  }

  class Binder {
    const diagnostics: DiagnosticBag

    constructor()
      ensures fresh(diagnostics) && diagnostics.items == []
    {
      diagnostics := new DiagnosticBag();
    }

    method BindExpression(syntax: ExpressionSyntax) returns (r: Result<BoundExpression>)
      modifies diagnostics
      decreases syntax, 1
      ensures r == BindingOf(syntax).result && diagnostics.items == old(diagnostics.items) + BindingOf(syntax).diagnostics
    {
      match syntax
      case Literal(_, _) =>
        var b := BindLiteralExpression(syntax);
        r := Ok(b);
      case Unary(_, _) =>
        r := BindUnaryExpression(syntax);
      case Binary(_, _, _) =>
        r := BindBinaryExpression(syntax);
      case Parenthesized(_, inner, _) =>
        r := BindExpression(inner);
      case _ =>
        r := Throws(UnexpectedSyntax(syntax.Kind()));
    }

    method BindLiteralExpression(syntax: ExpressionSyntax) returns (b: BoundExpression)
      requires syntax.Literal?
      ensures b == BindLiteral(syntax.value)
    {
      var value := syntax.value.GetOr(Int(0));
      b := BoundLiteral(value);
    }

    method BindUnaryExpression(syntax: ExpressionSyntax) returns (r: Result<BoundExpression>)
      requires syntax.Unary?
      modifies diagnostics
      decreases syntax, 0
      ensures r == BindingOf(syntax).result && diagnostics.items == old(diagnostics.items) + BindingOf(syntax).diagnostics
    {
      var boundOperand := BindExpression(syntax.operand);
      if boundOperand.Throws? {
        return boundOperand;
      }
      var operand := boundOperand.value;
      var boundOperator := BindUnaryOperator(syntax.operatorToken.kind, operand.Type());
      if boundOperator.None? {
        diagnostics.ReportUndefinedUnaryOperator(syntax.operatorToken.Span(), OperatorText(syntax.operatorToken), operand.Type());
        return Ok(operand);
      }
      r := Ok(BoundUnary(boundOperator.value, operand));
    }

    method BindBinaryExpression(syntax: ExpressionSyntax) returns (r: Result<BoundExpression>)
      requires syntax.Binary?
      modifies diagnostics
      decreases syntax, 0
      ensures r == BindingOf(syntax).result && diagnostics.items == old(diagnostics.items) + BindingOf(syntax).diagnostics
    {
      ghost var before := diagnostics.items;
      ghost var leftBinding, rightBinding := BindingOf(syntax.left), BindingOf(syntax.right);
      var boundLeft := BindExpression(syntax.left);
      if boundLeft.Throws? {
        return boundLeft;
      }
      var boundRight := BindExpression(syntax.right);
      TS.AppendAssociates(before, leftBinding.diagnostics, rightBinding.diagnostics);
      if boundRight.Throws? {
        return boundRight;
      }
      r := BindOperator(syntax, boundLeft.value, boundRight.value, before);
    }

    /** The part of `BindBinaryExpression` after both operands are bound: the lookup, and the message when it fails. */
    method BindOperator(syntax: ExpressionSyntax, left: BoundExpression, right: BoundExpression, ghost before: seq<Diagnostic>)
        returns (r: Result<BoundExpression>)
      requires syntax.Binary? && BindingOf(syntax.left).result == Ok(left) && BindingOf(syntax.right).result == Ok(right)
      requires diagnostics.items == before + (BindingOf(syntax.left).diagnostics + BindingOf(syntax.right).diagnostics)
      modifies diagnostics
      ensures r == BindingOf(syntax).result && diagnostics.items == before + BindingOf(syntax).diagnostics
    {
      ghost var reported := BindingOf(syntax.left).diagnostics + BindingOf(syntax.right).diagnostics;
      var boundOperator := BoundBinaryOperators.Bind(syntax.operatorToken.kind, left.Type(), right.Type());
      BinaryBindingOfBound(syntax, boundOperator);
      if boundOperator.None? {
        var d := UndefinedBinaryOperator(syntax.operatorToken.Span(), OperatorText(syntax.operatorToken), left.Type(), right.Type());
        diagnostics.ReportUndefinedBinaryOperator(syntax.operatorToken.Span(), OperatorText(syntax.operatorToken), left.Type(), right.Type());
        TS.AppendAssociates(before, reported, [d]);
        return Ok(left);
      }
      r := Ok(BoundBinary(left, boundOperator.value, right));
    }
  }
}
