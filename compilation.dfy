/**
 * A compilation of the current front end: bind the tree's root expression, merge the parser's and
 * the binder's diagnostics, and evaluate only when there are none, against the caller's store.
 */
module MinskCompilation {
  import opened Options
  import opened Values
  import opened Diagnostics
  import opened SyntaxNodes
  import opened MinskSyntaxTree
  import opened BoundNodes
  import opened Faults
  import opened MinskBinder
  import opened MinskEvaluator

  /** What `Evaluate` returns: the diagnostics, and the value when there were none. */
  datatype EvaluationResult = EvaluationResult(diagnostics: seq<Diagnostic>, value: Option<Value>)

  /** What `Evaluate` yields (or throws) and the store it leaves. */
  datatype Outcome = Outcome(result: Result<EvaluationResult>, store: Store)

  /** `Evaluate` for a tree with these diagnostics and this root expression, from this store. */
  function CompilationOutcome(treeDiagnostics: seq<Diagnostic>, expression: ExpressionSyntax, store: Store): Outcome {
    var binding := BindingOf(expression);
    if binding.result.Throws? then Outcome(Throws(binding.result.fault), store)
    else
      var diagnostics := treeDiagnostics + binding.diagnostics;
      if |diagnostics| > 0 then Outcome(Ok(EvaluationResult(diagnostics, None)), store)
      else
        var e := Eval(binding.result.value, store);
        if e.result.Throws? then Outcome(Throws(e.result.fault), e.store)
        else Outcome(Ok(EvaluationResult([], Some(e.result.value))), e.store)
  }

  class Compilation {
    const syntaxTree: SyntaxTree

    constructor(syntaxTree: SyntaxTree)
      ensures this.syntaxTree == syntaxTree
    {
      this.syntaxTree := syntaxTree;
    }

    method Evaluate(variables: VariableStore) returns (r: Result<EvaluationResult>)
      modifies variables
      ensures var o := CompilationOutcome(syntaxTree.diagnostics, syntaxTree.root.expression, old(variables.values));
        r == o.result && variables.values == o.store
    {
      var binder := new Binder();
      var boundExpression := binder.BindExpression(syntaxTree.root.expression);
      if boundExpression.Throws? {
        return Throws(boundExpression.fault);
      }
      assert binder.diagnostics.items == BindingOf(syntaxTree.root.expression).diagnostics;
      var diagnostics := syntaxTree.diagnostics + binder.diagnostics.items;
      if |diagnostics| > 0 {
        return Ok(EvaluationResult(diagnostics, None));
      }
      var evaluator := new Evaluator(boundExpression.value, variables);
      var value := evaluator.Evaluate();
      assert value == Eval(boundExpression.value, old(variables.values)).result;
      if value.Throws? {
        return Throws(value.fault);
      }
      r := Ok(EvaluationResult([], Some(value.value)));
    }
  }
}
