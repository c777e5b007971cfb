/**
 * The binder of the earlier generation: it binds literals, prefix and infix operators only, and
 * reports an operator with no kind for its operand types as a message, replacing the node by its
 * (left) operand. Every other node, parenthesised expressions among them, throws.
 */
module McBinder {
  import opened Options
  import opened Values
  import opened SyntaxKinds
  import opened SyntaxTokens
  import opened SyntaxNodes
  import opened BoundUnaryOperators
  import opened McBoundNodes
  import opened Faults
  import TS = TokenStreams
  import MB = MinskBinder

  /** What binding a node yields: the bound node or the exception, and the messages added on the way. */
  datatype Binding = Binding(result: Result<BoundExpression>, diagnostics: seq<string>)

  function UndefinedUnaryMessage(operatorToken: SyntaxToken, operandType: TypeTag): string {
    "Unary operator '" + MB.OperatorText(operatorToken) + "' is not defined for type " + TypeName(operandType)
  }

  function UndefinedBinaryMessage(operatorToken: SyntaxToken, leftType: TypeTag, rightType: TypeTag): string {
    "Binary operator '" + MB.OperatorText(operatorToken) + "' is not defined for types "
      + TypeName(leftType) + " and " + TypeName(rightType) + "."
  }

  /** `BindUnaryExpression` once its operand is bound. */
  function BindUnary(operatorToken: SyntaxToken, operand: Binding): Binding {
    match operand.result
    case Throws(_) => operand
    case Ok(b) =>
      match BindUnaryOperatorKind(operatorToken.kind, b.Type())
      case None => Binding(Ok(b), operand.diagnostics + [UndefinedUnaryMessage(operatorToken, b.Type())])
      case Some(k) => Binding(Ok(BoundUnary(k, b)), operand.diagnostics)
  }

  /** `BindBinaryExpression` once both operands are bound (the right one only if the left one did not throw). */
  function BindBinary(left: Binding, operatorToken: SyntaxToken, right: Binding): Binding {
    match left.result
    case Throws(_) => left
    case Ok(l) =>
      match right.result
      case Throws(f) => Binding(Throws(f), left.diagnostics + right.diagnostics)
      case Ok(r) =>
        match BindBinaryOperatorKind(operatorToken.kind, l.Type(), r.Type())
        case None => Binding(Ok(l), left.diagnostics + right.diagnostics + [UndefinedBinaryMessage(operatorToken, l.Type(), r.Type())])
        case Some(k) => Binding(Ok(BoundBinary(l, k, r)), left.diagnostics + right.diagnostics)
  }

  /** What `BindExpression` yields for a node and what it reports, in order. */
  function BindingOf(syntax: ExpressionSyntax): Binding {
    match syntax
    case Literal(_, value) => Binding(Ok(BoundLiteral(value.GetOr(Int(0)))), [])
    case Unary(op, operand) => BindUnary(op, BindingOf(operand))
    case Binary(left, op, right) => BindBinary(BindingOf(left), op, BindingOf(right))
    case _ => Binding(Throws(UnexpectedSyntax(syntax.Kind())), [])
  }

  class Binder {
    var diagnostics: seq<string>

    constructor()
      ensures diagnostics == []
    {
      diagnostics := [];
    }

    method BindExpression(syntax: ExpressionSyntax) returns (r: Result<BoundExpression>)
      modifies this
      decreases syntax, 1
      ensures r == BindingOf(syntax).result && diagnostics == old(diagnostics) + BindingOf(syntax).diagnostics
    {
      match syntax
      case Literal(_, _) =>
        var b := BindLiteralExpression(syntax);
        r := Ok(b);
      case Unary(_, _) =>
        r := BindUnaryExpression(syntax);
      case Binary(_, _, _) =>
        r := BindBinaryExpression(syntax);
      case _ =>
        r := Throws(UnexpectedSyntax(syntax.Kind()));
    }

    /** `syntax.Value ?? 0`. */
    method BindLiteralExpression(syntax: ExpressionSyntax) returns (b: BoundExpression)
      requires syntax.Literal?
      ensures b == BoundLiteral(if syntax.value.Some? then syntax.value.value else Int(0))
    {
      var value := syntax.value.GetOr(Int(0));
      b := BoundLiteral(value);
    }

    method BindUnaryExpression(syntax: ExpressionSyntax) returns (r: Result<BoundExpression>)
      requires syntax.Unary?
      modifies this
      decreases syntax, 0
      ensures r == BindingOf(syntax).result && diagnostics == old(diagnostics) + BindingOf(syntax).diagnostics
    {
      var boundOperand := BindExpression(syntax.operand);
      if boundOperand.Throws? {
        return boundOperand;
      }
      var operand := boundOperand.value;
      var boundOperator := BindUnaryOperatorKind(syntax.operatorToken.kind, operand.Type());
      if boundOperator.None? {
        diagnostics := diagnostics + [UndefinedUnaryMessage(syntax.operatorToken, operand.Type())];
        return Ok(operand);
      }
      r := Ok(BoundUnary(boundOperator.value, operand));
    }

    method BindBinaryExpression(syntax: ExpressionSyntax) returns (r: Result<BoundExpression>)
      requires syntax.Binary?
      modifies this
      decreases syntax, 0
      ensures r == BindingOf(syntax).result && diagnostics == old(diagnostics) + BindingOf(syntax).diagnostics
    {
      ghost var before := diagnostics;
      ghost var leftBinding, rightBinding := BindingOf(syntax.left), BindingOf(syntax.right);
      var boundLeft := BindExpression(syntax.left);
      if boundLeft.Throws? {
        return boundLeft;
      }
      var boundRight := BindExpression(syntax.right);
      if boundRight.Throws? {
        TS.AppendAssociates(before, leftBinding.diagnostics, rightBinding.diagnostics);
        return boundRight;
      }
      var left, right := boundLeft.value, boundRight.value;
      var boundOperator := BindBinaryOperatorKind(syntax.operatorToken.kind, left.Type(), right.Type());
      TS.AppendAssociates(before, leftBinding.diagnostics, rightBinding.diagnostics);
      if boundOperator.None? {
        var message := UndefinedBinaryMessage(syntax.operatorToken, left.Type(), right.Type());
        diagnostics := diagnostics + [message];
        TS.AppendAssociates(before, leftBinding.diagnostics + rightBinding.diagnostics, [message]);
        return Ok(left);
      }
      r := Ok(BoundBinary(left, boundOperator.value, right));
    }
  }
}
