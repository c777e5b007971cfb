/**
 * Properties of a compilation: a value exactly when there are no diagnostics, diagnostics in the
 * order parser then binder, no evaluation (and so no change to the store) when there are any, and
 * soundness of what a clean compilation evaluates.
 */
module MinskCompilationProperties {
  import opened Options
  import opened Values
  import opened Diagnostics
  import opened SyntaxNodes
  import opened BoundNodes
  import opened Faults
  import opened MinskBinder
  import opened MinskBinderProperties
  import opened MinskEvaluator
  import opened MinskEvaluatorProperties
  import opened MinskCompilation

  /**
   * A compilation that returns has a value exactly when it has no diagnostics; its diagnostics are
   * the tree's followed by the binder's, or none; and with diagnostics the store is left alone.
   */
  lemma ValueExactlyWithoutDiagnostics(treeDiagnostics: seq<Diagnostic>, expression: ExpressionSyntax, store: Store)
    ensures var o := CompilationOutcome(treeDiagnostics, expression, store);
      o.result.Ok? ==>
        (o.result.value.value.Some? <==> o.result.value.diagnostics == [])
        && (o.result.value.diagnostics == [] || o.result.value.diagnostics == treeDiagnostics + BindingOf(expression).diagnostics)
        && (o.result.value.diagnostics == [] <==> treeDiagnostics == [] && BindingOf(expression).diagnostics == [])
        && (o.result.value.value.None? ==> o.store == store)
  {
  }

  /** The binder runs whatever the parser reported: an expression that does not bind throws, store untouched. */
  lemma BindingFaultPropagates(treeDiagnostics: seq<Diagnostic>, expression: ExpressionSyntax, store: Store)
    requires BindingOf(expression).result.Throws?
    ensures var o := CompilationOutcome(treeDiagnostics, expression, store);
      o.result == Throws(BindingOf(expression).result.fault) && o.store == store
  {
  }

  /**
   * A clean compilation is sound: it leaves the store unchanged, its value has the bound tree's
   * type, and it can only throw for a zero divisor, for int.MinValue / -1, or for a relational
   * operator, which the evaluator does not handle.
   */
  lemma CleanCompilationIsSound(expression: ExpressionSyntax, store: Store)
    requires BindingOf(expression).result.Ok? && BindingOf(expression).diagnostics == []
    ensures var o := CompilationOutcome([], expression, store);
      var bound := BindingOf(expression).result.value;
      o.store == store
      && (o.result.Ok? ==> o.result.value.diagnostics == [] && o.result.value.value.Some?
                           && TypeOf(o.result.value.value.value) == bound.Type())
      && (o.result.Throws? ==> o.result.fault in {DivideByZero, Overflow, UnexpectedBinaryOperator})
  {
    var bound := BindingOf(expression).result.value;
    BoundTreeHasNoVariables(expression);
    BoundTreeIsWellTyped(expression);
    EvaluationIsTypeSafe(bound, store, {});
    VariablesAreFound(bound, store);
    ReadOnlyEvaluation(bound, store);
  }
}
