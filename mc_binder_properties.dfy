/**
 * What the earlier generation's binder promises: it throws exactly on a tree holding a node other
 * than a literal or an operator, its trees are well typed, and every message it adds stands for an
 * operator of the syntax tree that the bound tree lacks.
 */
module McBinderProperties {
  import opened Options
  import opened Values
  import opened SyntaxKinds
  import opened SyntaxTokens
  import opened SyntaxNodes
  import opened BoundUnaryOperators
  import opened McBoundNodes
  import opened Faults
  import opened McBinder
  import MB = MinskBinder

  /** A tree made of literals and prefix and infix operators only, the nodes `BindExpression` handles. */
  predicate Bindable(syntax: ExpressionSyntax) {
    match syntax
    case Literal(_, _) => true
    case Unary(_, operand) => Bindable(operand)
    case Binary(left, _, right) => Bindable(left) && Bindable(right)
    case _ => false
  }

  /** The kinds of node `BindExpression` has no case for. */
  predicate Unhandled(kind: SyntaxKind) {
    kind == ParenthesizedExpression || kind == NameExpression || kind == AssignmentExpression
  }

  /**
   * Binding throws exactly when the tree holds a node other than a literal or an operator, and the
   * exception names the kind of such a node.
   */
  lemma {:induction false} BindingThrowsExactlyWhenUnbindable(syntax: ExpressionSyntax)
    ensures var r := BindingOf(syntax).result;
      (r.Throws? <==> !Bindable(syntax)) && (r.Throws? ==> r.fault.UnexpectedSyntax? && Unhandled(r.fault.kind))
  {
    match syntax
    case Literal(_, _) =>
    case Unary(_, operand) =>
      BindingThrowsExactlyWhenUnbindable(operand);
    case Binary(left, _, right) =>
      BindingThrowsExactlyWhenUnbindable(left);
      BindingThrowsExactlyWhenUnbindable(right);
    case _ =>
  }

  /** `(1)`: there is no parenthesis case, so any parenthesised expression throws. */
  lemma ParenthesizedThrows(open: SyntaxToken, inner: ExpressionSyntax, close: SyntaxToken)
    ensures BindingOf(Parenthesized(open, inner, close)) == Binding(Throws(UnexpectedSyntax(ParenthesizedExpression)), [])
  {
  }

  /** A literal binds to its value, or to the int 0 when the parser synthesised it without one. */
  lemma LiteralBinding(literalToken: SyntaxToken, value: Option<Value>)
    ensures var b := BindingOf(Literal(literalToken, value));
      && b.diagnostics == [] && b.result.Ok? && b.result.value.BoundLiteral?
      && b.result.value.value == (if value.Some? then value.value else Int(0))
  {
  }

  /**
   * A prefix operator binds once its operand does: to a unary node when the table has a kind for
   * the operand's type, and otherwise to the operand itself, with one message naming the token's
   * text and the type.
   */
  lemma UnaryBinding(operatorToken: SyntaxToken, operand: ExpressionSyntax)
    requires BindingOf(operand).result.Ok?
    ensures var o := BindingOf(operand); var b := o.result.value; var u := BindingOf(Unary(operatorToken, operand));
      match BindUnaryOperatorKind(operatorToken.kind, b.Type())
      case None => u == Binding(Ok(b), o.diagnostics + [UndefinedUnaryMessage(operatorToken, b.Type())])
      case Some(k) => u == Binding(Ok(BoundUnary(k, b)), o.diagnostics) && k == UnaryFor(operatorToken.kind)
  {
  }

  /** The unary kind each prefix token stands for. */
  function UnaryFor(kind: SyntaxKind): BoundUnaryOperatorKind {
    if kind == PlusToken then Identity else if kind == MinusToken then Negation else LogicalNegation
  }

  /**
   * An infix operator binds both operands, the right one too when the left one needs a message:
   * to a binary node when the table has a kind for the two types, and otherwise to the left
   * operand alone, with the messages of both sides and then one naming the token and both types.
   */
  lemma BinaryBinding(left: ExpressionSyntax, operatorToken: SyntaxToken, right: ExpressionSyntax)
    requires BindingOf(left).result.Ok? && BindingOf(right).result.Ok?
    ensures var lb, rb := BindingOf(left), BindingOf(right); var l, r := lb.result.value, rb.result.value;
      var b := BindingOf(Binary(left, operatorToken, right));
      match BindBinaryOperatorKind(operatorToken.kind, l.Type(), r.Type())
      case None => b == Binding(Ok(l), lb.diagnostics + rb.diagnostics + [UndefinedBinaryMessage(operatorToken, l.Type(), r.Type())])
      case Some(k) => b == Binding(Ok(BoundBinary(l, k, r)), lb.diagnostics + rb.diagnostics) && BinaryToken(k) == operatorToken.kind
  {
    var l, r := BindingOf(left).result.value, BindingOf(right).result.value;
    var found := BindBinaryOperatorKind(operatorToken.kind, l.Type(), r.Type());
    if found.Some? {
      BinaryTable(operatorToken.kind, l.Type(), r.Type(), found.value);
    }
  }

  /** Every tree the binder builds is well typed. */
  lemma {:induction false} BoundTreeIsWellTyped(syntax: ExpressionSyntax)
    ensures var r := BindingOf(syntax).result; r.Ok? ==> WellTyped(r.value)
  {
    match syntax
    case Literal(_, _) =>
    case Unary(_, operand) =>
      BoundTreeIsWellTyped(operand);
    case Binary(left, _, right) =>
      BoundTreeIsWellTyped(left);
      BoundTreeIsWellTyped(right);
    case _ =>
  }

  /** What each node's operator yields, or the literal's value type. */
  function ResultType(e: BoundExpression): TypeTag {
    match e
    case BoundLiteral(v) => TypeOf(v)
    case BoundUnary(k, _) => UnaryOperandType(k)
    case BoundBinary(_, k, _) => BinaryOperandType(k)
  }

  /**
   * A node's type is its (left) operand's, whatever the operator; in a well-typed tree that is what
   * the operator yields, since every operator kind yields the type of its operands.
   */
  lemma TypeIsResultType(e: BoundExpression)
    requires WellTyped(e)
    ensures e.Type() == ResultType(e)
  {
  }

  /** The number of operators of a syntax tree of literals and operators. */
  function SyntaxOperatorCount(syntax: ExpressionSyntax): nat {
    match syntax
    case Unary(_, operand) => 1 + SyntaxOperatorCount(operand)
    case Binary(left, _, right) => 1 + SyntaxOperatorCount(left) + SyntaxOperatorCount(right)
    case _ => 0
  }

  /**
   * Every message stands for an operator the bound tree lacks: the messages and the bound tree's
   * operators together number at most the syntax tree's operators, and a binding without messages
   * keeps every one of them.
   */
  lemma {:induction false} MessagesAccountForOperators(syntax: ExpressionSyntax)
    ensures var b := BindingOf(syntax);
      b.result.Ok? ==> && |b.diagnostics| + OperatorCount(b.result.value) <= SyntaxOperatorCount(syntax)
                       && (b.diagnostics == [] ==> OperatorCount(b.result.value) == SyntaxOperatorCount(syntax))
  {
    match syntax
    case Literal(_, _) =>
    case Unary(_, operand) =>
      MessagesAccountForOperators(operand);
    case Binary(left, _, right) =>
      MessagesAccountForOperators(left);
      MessagesAccountForOperators(right);
    case _ =>
  }

  /** `-true`: `-` has no kind for a bool, so the literal is kept and one message names `-` and System.Boolean. */
  lemma NegatedBoolIsReported(minus: SyntaxToken, literalToken: SyntaxToken)
    requires minus.kind == MinusToken && minus.text == Some("-")
    ensures BindingOf(Unary(minus, Literal(literalToken, Some(Bool(true)))))
      == Binding(Ok(BoundLiteral(Bool(true))), ["Unary operator '" + "-" + "' is not defined for type " + "System.Boolean"])
  {
    assert MB.OperatorText(minus) == "-";
  }

  /** `1 + true`: `+` has no kind for an int and a bool; the left literal is kept with one message. */
  lemma MixedAdditionIsReported(one: SyntaxToken, plus: SyntaxToken, literalToken: SyntaxToken)
    requires plus.kind == PlusToken && plus.text == Some("+")
    ensures BindingOf(Binary(Literal(one, Some(Int(1))), plus, Literal(literalToken, Some(Bool(true)))))
      == Binding(Ok(BoundLiteral(Int(1))), ["Binary operator '" + "+" + "' is not defined for types " + "System.Int32" + " and " + "System.Boolean" + "."])
  {
    assert MB.OperatorText(plus) == "+";
  }
}
