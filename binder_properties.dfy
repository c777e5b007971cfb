/**
 * What the binder promises: which trees it binds at all, that what it binds is well typed, where
 * and in which order its diagnostics appear, and that without diagnostics every operator survives.
 */
module MinskBinderProperties {
  import opened Options
  import opened Values
  import opened SyntaxKinds
  import opened SyntaxTokens
  import opened Diagnostics
  import opened SyntaxNodes
  import opened BoundUnaryOperators
  import opened BoundBinaryOperators
  import opened BoundNodes
  import opened Faults
  import opened MinskBinder

  /** A literal binds to its value, or to the int 0 when it has none, and reports nothing. */
  lemma LiteralBinding(literalToken: SyntaxToken, value: Option<Value>)
    ensures BindingOf(Literal(literalToken, value)) ==
      Binding(Ok(BoundLiteral(if value.Some? then value.value else Int(0))), [])
  {
  }

  /** A parenthesised expression binds exactly as its inner expression does: there is no wrapper node. */
  lemma ParenthesizedBinding(open: SyntaxToken, inner: ExpressionSyntax, close: SyntaxToken)
    ensures BindingOf(Parenthesized(open, inner, close)) == BindingOf(inner)
  {
  }

  /** Names and assignments are not bound: binding one throws with its syntax kind. */
  lemma NameAndAssignmentThrow(syntax: ExpressionSyntax)
    requires syntax.Name? || syntax.Assignment?
    ensures BindingOf(syntax) == Binding(Throws(UnexpectedSyntax(syntax.Kind())), [])
  {
  }

  /**
   * A unary node whose operand binds: with an operator for the operand's type it wraps the
   * operand; otherwise it reports one diagnostic at the operator token, after the operand's, and
   * yields the bound operand itself.
   */
  lemma UnaryBinding(operatorToken: SyntaxToken, operand: ExpressionSyntax)
    requires BindingOf(operand).result.Ok?
    ensures var inner := BindingOf(operand);
      var b := inner.result.value;
      var outer := BindingOf(Unary(operatorToken, operand));
      match BindUnaryOperator(operatorToken.kind, b.Type())
      case Some(op) => outer == Binding(Ok(BoundUnary(op, b)), inner.diagnostics)
      case None => (outer.result == Ok(b) && |outer.diagnostics| == |inner.diagnostics| + 1
        && outer.diagnostics[..|inner.diagnostics|] == inner.diagnostics
        && outer.diagnostics[|inner.diagnostics|].span == operatorToken.Span())
  {
  }

  /**
   * A binary node whose operands bind: with an operator for the operand types it joins them;
   * otherwise it reports one diagnostic at the operator token, after both operands' diagnostics,
   * and yields the bound left operand, dropping the right one.
   */
  lemma BinaryBinding(left: ExpressionSyntax, operatorToken: SyntaxToken, right: ExpressionSyntax)
    requires BindingOf(left).result.Ok? && BindingOf(right).result.Ok?
    ensures var l, r := BindingOf(left), BindingOf(right);
      var children := l.diagnostics + r.diagnostics;
      var outer := BindingOf(Binary(left, operatorToken, right));
      match Resolution(operatorToken.kind, l.result.value.Type(), r.result.value.Type())
      case Some(op) => outer == Binding(Ok(BoundBinary(l.result.value, op, r.result.value)), children)
      case None => (outer.result == l.result && |outer.diagnostics| == |children| + 1
        && outer.diagnostics[..|children|] == children
        && outer.diagnostics[|children|].span == operatorToken.Span())
  {
    assert BindingOf(Binary(left, operatorToken, right)) == BindBinary(BindingOf(left), operatorToken, BindingOf(right));
  }

  /** Whether binding never meets a name or an assignment. */
  predicate Bindable(syntax: ExpressionSyntax) {
    match syntax
    case Literal(_, _) => true
    case Unary(_, operand) => Bindable(operand)
    case Binary(left, _, right) => Bindable(left) && Bindable(right)
    case Parenthesized(_, inner, _) => Bindable(inner)
    case Name(_) => false
    case Assignment(_, _, _) => false
  }

  /**
   * Binding throws exactly when the tree holds a name or an assignment that binding reaches, and
   * then with the kind of one of those.
   */
  lemma {:induction false} BindingThrowsExactlyWhenUnbindable(syntax: ExpressionSyntax)
    ensures var b := BindingOf(syntax);
      (b.result.Ok? <==> Bindable(syntax))
      && (b.result.Throws? ==> b.result.fault in {UnexpectedSyntax(NameExpression), UnexpectedSyntax(AssignmentExpression)})
  {
    match syntax
    case Literal(_, _) =>
    case Unary(_, operand) =>
      BindingThrowsExactlyWhenUnbindable(operand);
    case Binary(left, op, right) =>
      BindingThrowsExactlyWhenUnbindable(left);
      BindingThrowsExactlyWhenUnbindable(right);
      BinaryThrowsExactlyWhenUnbindable(left, op, right);
    case Parenthesized(_, inner, _) =>
      BindingThrowsExactlyWhenUnbindable(inner);
    case Name(_) =>
    case Assignment(_, _, _) =>
  }

  /** The binary step of the lemma above. */
  lemma BinaryThrowsExactlyWhenUnbindable(left: ExpressionSyntax, operatorToken: SyntaxToken, right: ExpressionSyntax)
    requires BindingOf(left).result.Ok? <==> Bindable(left)
    requires BindingOf(right).result.Ok? <==> Bindable(right)
    requires BindingOf(left).result.Throws? ==> BindingOf(left).result.fault in {UnexpectedSyntax(NameExpression), UnexpectedSyntax(AssignmentExpression)}
    requires BindingOf(right).result.Throws? ==> BindingOf(right).result.fault in {UnexpectedSyntax(NameExpression), UnexpectedSyntax(AssignmentExpression)}
    ensures var b := BindingOf(Binary(left, operatorToken, right));
      (b.result.Ok? <==> Bindable(left) && Bindable(right))
      && (b.result.Throws? ==> b.result.fault in {UnexpectedSyntax(NameExpression), UnexpectedSyntax(AssignmentExpression)})
  {
    assert BindingOf(Binary(left, operatorToken, right)) == BindBinary(BindingOf(left), operatorToken, BindingOf(right));
  }

  /** Every bound tree is well typed: fail-soft binding never builds an operator over operands of the wrong type. */
  lemma {:induction false} BoundTreeIsWellTyped(syntax: ExpressionSyntax)
    ensures var b := BindingOf(syntax);
      b.result.Ok? ==> WellTyped(b.result.value)
  {
    match syntax
    case Literal(_, _) =>
    case Unary(op, operand) =>
      BoundTreeIsWellTyped(operand);
      if BindingOf(operand).result.Ok? {
        UnaryOperatorTable(op.kind, BindingOf(operand).result.value.Type());
      }
    case Binary(left, op, right) =>
      BoundTreeIsWellTyped(left);
      BoundTreeIsWellTyped(right);
      BinaryTreeIsWellTyped(left, op, right);
    case Parenthesized(_, inner, _) =>
      BoundTreeIsWellTyped(inner);
    case Name(_) =>
    case Assignment(_, _, _) =>
  }

  /** The binary step of the lemma above. */
  lemma BinaryTreeIsWellTyped(left: ExpressionSyntax, operatorToken: SyntaxToken, right: ExpressionSyntax)
    requires BindingOf(left).result.Ok? ==> WellTyped(BindingOf(left).result.value)
    requires BindingOf(right).result.Ok? ==> WellTyped(BindingOf(right).result.value)
    ensures var b := BindingOf(Binary(left, operatorToken, right));
      b.result.Ok? ==> WellTyped(b.result.value)
  {
    var l, r := BindingOf(left), BindingOf(right);
    assert BindingOf(Binary(left, operatorToken, right)) == BindBinary(l, operatorToken, r);
    if l.result.Ok? && r.result.Ok? {
      var lt, rt := l.result.value.Type(), r.result.value.Type();
      ResolutionIsEntry(operatorToken.kind, lt, rt);
      ResolutionSignature(operatorToken.kind, lt, rt);
    }
  }

  /** The spans of the operator tokens of the unary and binary nodes of a tree. */
  function OperatorSpans(syntax: ExpressionSyntax): set<TextSpan> {
    match syntax
    case Literal(_, _) => {}
    case Name(_) => {}
    case Unary(op, operand) => {op.Span()} + OperatorSpans(operand)
    case Binary(left, op, right) => OperatorSpans(left) + {op.Span()} + OperatorSpans(right)
    case Parenthesized(_, inner, _) => OperatorSpans(inner)
    case Assignment(_, _, inner) => OperatorSpans(inner)
  }

  /** Whether every diagnostic of `ds` lies at one of `spans`. */
  predicate SpansWithin(ds: seq<Diagnostic>, spans: set<TextSpan>) {
    forall d :: d in ds ==> d.span in spans
  }

  lemma SpansWithinJoin(a: seq<Diagnostic>, b: seq<Diagnostic>, spans: set<TextSpan>)
    requires SpansWithin(a, spans) && SpansWithin(b, spans)
    ensures SpansWithin(a + b, spans)
  {
  }

  /** Only failed operator lookups report: every diagnostic lies at the span of an operator token of the tree. */
  lemma {:induction false} DiagnosticsAtOperators(syntax: ExpressionSyntax)
    ensures SpansWithin(BindingOf(syntax).diagnostics, OperatorSpans(syntax))
  {
    match syntax
    case Literal(_, _) =>
    case Unary(op, operand) =>
      DiagnosticsAtOperators(operand);
      if BindingOf(operand).result.Ok? {
        SpansWithinJoin(BindingOf(operand).diagnostics, [UndefinedUnaryOperator(op.Span(), OperatorText(op), BindingOf(operand).result.value.Type())], OperatorSpans(syntax));
      }
    case Binary(left, op, right) =>
      DiagnosticsAtOperators(left);
      DiagnosticsAtOperators(right);
      BinaryDiagnosticsAtOperators(left, op, right);
    case Parenthesized(_, inner, _) =>
      DiagnosticsAtOperators(inner);
    case Name(_) =>
    case Assignment(_, _, _) =>
  }

  /** The binary step of the lemma above. */
  lemma BinaryDiagnosticsAtOperators(left: ExpressionSyntax, operatorToken: SyntaxToken, right: ExpressionSyntax)
    requires SpansWithin(BindingOf(left).diagnostics, OperatorSpans(left))
    requires SpansWithin(BindingOf(right).diagnostics, OperatorSpans(right))
    ensures var syntax := Binary(left, operatorToken, right);
      SpansWithin(BindingOf(syntax).diagnostics, OperatorSpans(syntax))
  {
    var spans := OperatorSpans(Binary(left, operatorToken, right));
    assert BindingOf(Binary(left, operatorToken, right)) == BindBinary(BindingOf(left), operatorToken, BindingOf(right));
    BinarySpansWithin(BindingOf(left), operatorToken, BindingOf(right), spans);
  }

  /** The diagnostics of a binary node lie within any set of spans that holds its operands' and its operator's. */
  lemma BinarySpansWithin(left: Binding, operatorToken: SyntaxToken, right: Binding, spans: set<TextSpan>)
    requires SpansWithin(left.diagnostics, spans) && SpansWithin(right.diagnostics, spans)
    requires operatorToken.Span() in spans
    ensures SpansWithin(BindBinary(left, operatorToken, right).diagnostics, spans)
  {
    SpansWithinJoin(left.diagnostics, right.diagnostics, spans);
    if left.result.Ok? && right.result.Ok? {
      var d := UndefinedBinaryOperator(operatorToken.Span(), OperatorText(operatorToken), left.result.value.Type(), right.result.value.Type());
      SpansWithinJoin(left.diagnostics + right.diagnostics, [d], spans);
    }
  }

  /**
   * Whether a bound tree has the shape of the syntax with parentheses removed: the same literals,
   * and every unary and binary node bound to an operator of its token's kind.
   */
  predicate Mirrors(syntax: ExpressionSyntax, bound: BoundExpression) {
    match syntax
    case Literal(_, value) => bound == BindLiteral(value)
    case Unary(op, operand) => bound.BoundUnary? && bound.op.syntaxKind == op.kind && Mirrors(operand, bound.operand)
    case Binary(left, op, right) =>
      bound.BoundBinary? && bound.binaryOp.syntaxKind == op.kind
      && Mirrors(left, bound.left) && Mirrors(right, bound.right)
    case Parenthesized(_, inner, _) => Mirrors(inner, bound)
    case Name(_) => false
    case Assignment(_, _, _) => false
  }

  /** A binary node that binds without diagnostics: so do its operands, and its operator was found. */
  lemma CleanBinaryBinding(left: ExpressionSyntax, operatorToken: SyntaxToken, right: ExpressionSyntax)
    requires var b := BindingOf(Binary(left, operatorToken, right)); b.result.Ok? && b.diagnostics == []
    ensures var l, r := BindingOf(left), BindingOf(right);
      l.result.Ok? && l.diagnostics == [] && r.result.Ok? && r.diagnostics == []
      && var found := Resolution(operatorToken.kind, l.result.value.Type(), r.result.value.Type());
         found.Some? && BindingOf(Binary(left, operatorToken, right)).result.value == BoundBinary(l.result.value, found.value, r.result.value)
  {
    assert BindingOf(Binary(left, operatorToken, right)) == BindBinary(BindingOf(left), operatorToken, BindingOf(right));
  }

  /** A binding without diagnostics keeps every operator of the syntax: nothing was replaced by an operand. */
  lemma {:induction false} CleanBindingKeepsEveryOperator(syntax: ExpressionSyntax)
    requires BindingOf(syntax).result.Ok? && BindingOf(syntax).diagnostics == []
    ensures Mirrors(syntax, BindingOf(syntax).result.value)
  {
    match syntax
    case Literal(_, _) =>
    case Unary(op, operand) =>
      CleanBindingKeepsEveryOperator(operand);
      UnaryOperatorTable(op.kind, BindingOf(operand).result.value.Type());
    case Binary(left, op, right) =>
      CleanBinaryBinding(left, op, right);
      CleanBindingKeepsEveryOperator(left);
      CleanBindingKeepsEveryOperator(right);
      ResolutionIsEntry(op.kind, BindingOf(left).result.value.Type(), BindingOf(right).result.value.Type());
    case Parenthesized(_, inner, _) =>
      CleanBindingKeepsEveryOperator(inner);
  }

  /** Names and assignments throw, so a tree that binds reads and assigns no variable. */
  lemma {:induction false} BoundTreeHasNoVariables(syntax: ExpressionSyntax)
    requires BindingOf(syntax).result.Ok?
    ensures Symbols(BindingOf(syntax).result.value) == {} && AssignedNames(BindingOf(syntax).result.value) == {}
  {
    match syntax
    case Literal(_, _) =>
    case Unary(op, operand) =>
      BoundTreeHasNoVariables(operand);
    case Binary(left, op, right) =>
      BoundTreeHasNoVariables(left);
      BoundTreeHasNoVariables(right);
      BinaryTreeHasNoVariables(left, op, right);
    case Parenthesized(_, inner, _) =>
      BoundTreeHasNoVariables(inner);
  }

  /** The binary step of the lemma above. */
  lemma BinaryTreeHasNoVariables(left: ExpressionSyntax, operatorToken: SyntaxToken, right: ExpressionSyntax)
    requires BindingOf(Binary(left, operatorToken, right)).result.Ok?
    requires BindingOf(left).result.Ok? ==> Symbols(BindingOf(left).result.value) == {} && AssignedNames(BindingOf(left).result.value) == {}
    requires BindingOf(right).result.Ok? ==> Symbols(BindingOf(right).result.value) == {} && AssignedNames(BindingOf(right).result.value) == {}
    ensures var b := BindingOf(Binary(left, operatorToken, right)).result.value;
      Symbols(b) == {} && AssignedNames(b) == {}
  {
    assert BindingOf(Binary(left, operatorToken, right)) == BindBinary(BindingOf(left), operatorToken, BindingOf(right));
  }
}
