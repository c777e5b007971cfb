/**
 * What the earlier generation's evaluator promises: a tree of int literals and arithmetic returns
 * a value unless it divides by zero or divides int.MinValue by -1, any other tree throws, a
 * division-free tree yields its exact value modulo 2^32, and every well-typed int tree the binder
 * builds is of the first kind while every bool tree throws.
 */
module McEvaluatorProperties {
  import opened Int32Arith
  import opened Values
  import opened SyntaxNodes
  import opened BoundUnaryOperators
  import opened McBoundNodes
  import opened Faults
  import opened McEvaluator
  import McBinder
  import BP = McBinderProperties

  /** A fault that only the arithmetic itself raises. */
  predicate ArithmeticFault(f: Fault) {
    f == DivideByZero || f == Overflow
  }

  /**
   * An int tree returns a value or throws an arithmetic fault; any other tree throws, since every
   * operand is evaluated and nothing short-circuits.
   */
  lemma {:induction false} OnlyIntTreesEvaluate(node: BoundExpression)
    ensures var r := EvaluateExpression(node);
      (r.Ok? ==> IntTree(node)) && (IntTree(node) && r.Throws? ==> ArithmeticFault(r.fault))
  {
    match node
    case BoundLiteral(_) =>
    case BoundUnary(_, o) =>
      OnlyIntTreesEvaluate(o);
    case BoundBinary(l, _, r) =>
      OnlyIntTreesEvaluate(l);
      OnlyIntTreesEvaluate(r);
  }

  /** Two integers that differ by a multiple of 2^32. */
  predicate Congruent(x: int, y: int) {
    (x - y) % MODULUS == 0
  }

  /** `Wrap` gives one int32 per residue class. */
  lemma WrapCongruent(x: int, y: int)
    requires Congruent(x, y)
    ensures Wrap(x) == Wrap(y)
  {
    var k := (x - y) / MODULUS;
    assert x - y == k * MODULUS;
    assert (x - MIN) % MODULUS == (y - MIN) % MODULUS;
  }

  lemma CongruentProduct(x: int, a: int, y: int, b: int)
    requires Congruent(x, a) && Congruent(y, b)
    ensures Congruent(x * y, a * b)
  {
    var i, j := (x - a) / MODULUS, (y - b) / MODULUS;
    assert x == a + i * MODULUS && y == b + j * MODULUS;
    var m := a * j + b * i + i * j * MODULUS;
    assert x * y - a * b == m * MODULUS;
  }

  lemma WrapNegates(e: int)
    ensures Neg(Wrap(e)) == Wrap(-e)
  {
    WrapCongruent(-(Wrap(e) as int), -e);
  }

  lemma WrapAdds(a: int, b: int)
    ensures Add(Wrap(a), Wrap(b)) == Wrap(a + b)
  {
    WrapCongruent(Wrap(a) as int + Wrap(b) as int, a + b);
  }

  lemma WrapSubtracts(a: int, b: int)
    ensures Sub(Wrap(a), Wrap(b)) == Wrap(a - b)
  {
    WrapCongruent(Wrap(a) as int - Wrap(b) as int, a - b);
  }

  lemma WrapMultiplies(a: int, b: int)
    ensures Mul(Wrap(a), Wrap(b)) == Wrap(a * b)
  {
    var x, y := Wrap(a) as int, Wrap(b) as int;
    CongruentProduct(x, a, y, b);
    WrapCongruent(x * y, a * b);
  }

  /** A division-free int tree evaluates to its exact value wrapped to 32 bits, whatever overflows on the way. */
  lemma {:induction false} DivisionFreeTreeWraps(node: BoundExpression)
    requires IntTree(node) && DivisionFree(node)
    ensures EvaluateExpression(node) == Ok(Wrap(ExactValue(node)))
  {
    match node
    case BoundLiteral(v) =>
    case BoundUnary(k, o) =>
      DivisionFreeTreeWraps(o);
      if k == Negation {
        WrapNegates(ExactValue(o));
      }
    case BoundBinary(l, k, r) =>
      DivisionFreeTreeWraps(l);
      DivisionFreeTreeWraps(r);
      var a, b := ExactValue(l), ExactValue(r);
      match k
      case Addition => WrapAdds(a, b);
      case Subtraction => WrapSubtracts(a, b);
      case Multiplication => WrapMultiplies(a, b);
  }

  /** A well-typed tree of type int holds only int literals and arithmetic. */
  lemma {:induction false} IntTypedTreeIsIntTree(node: BoundExpression)
    requires WellTyped(node) && node.Type() == IntType
    ensures IntTree(node)
  {
    match node
    case BoundLiteral(_) =>
    case BoundUnary(_, o) =>
      IntTypedTreeIsIntTree(o);
    case BoundBinary(l, _, r) =>
      IntTypedTreeIsIntTree(l);
      IntTypedTreeIsIntTree(r);
  }

  /** A well-typed tree of type bool is no int tree: a bool literal or a logical operator is in it. */
  lemma {:induction false} BoolTypedTreeIsNoIntTree(node: BoundExpression)
    requires WellTyped(node) && node.Type() == BoolType
    ensures !IntTree(node)
  {
    match node
    case BoundLiteral(_) =>
    case BoundUnary(_, o) =>
      BoolTypedTreeIsNoIntTree(o);
    case BoundBinary(l, _, _) =>
      BoolTypedTreeIsNoIntTree(l);
  }

  /**
   * Binding and then evaluating: an expression the binder types as int evaluates to a value unless
   * it divides by zero or divides int.MinValue by -1, and one it types as bool always throws.
   */
  lemma BoundExpressionEvaluates(syntax: ExpressionSyntax)
    requires McBinder.BindingOf(syntax).result.Ok?
    ensures var b := McBinder.BindingOf(syntax).result.value; var r := EvaluateExpression(b);
      && (b.Type() == IntType ==> r.Ok? || ArithmeticFault(r.fault))
      && (b.Type() == BoolType ==> r.Throws?)
  {
    var b := McBinder.BindingOf(syntax).result.value;
    BP.BoundTreeIsWellTyped(syntax);
    OnlyIntTreesEvaluate(b);
    if b.Type() == IntType {
      IntTypedTreeIsIntTree(b);
    } else {
      BoolTypedTreeIsNoIntTree(b);
    }
  }

  /** Operands are evaluated left to right: a faulting left operand's fault is the result, whatever the right one does. */
  lemma LeftFaultWins(l: BoundExpression, k: BoundBinaryOperatorKind, r: BoundExpression)
    requires EvaluateExpression(l).Throws?
    ensures EvaluateExpression(BoundBinary(l, k, r)) == EvaluateExpression(l)
  {
  }

  /**
   * `true && false` throws: the `(int)` cast of the left bool literal fails before the operator is
   * reached; and the logical kinds reach the `default` of the infix `switch` whatever their operands.
   */
  lemma LogicalOperatorsThrow(a: bool, b: bool, i: int32, j: int32, k: BoundBinaryOperatorKind)
    requires k == LogicalAnd || k == LogicalOr
    ensures EvaluateExpression(BoundBinary(BoundLiteral(Bool(a)), k, BoundLiteral(Bool(b)))) == Throws(InvalidCast)
    ensures EvaluateExpression(BoundBinary(BoundLiteral(Int(i)), k, BoundLiteral(Int(j)))) == Throws(UnexpectedBinaryOperator)
  {
  }

  /** int.MinValue / -1 throws an overflow, as C#'s `/` does even unchecked; 7 / -2 truncates to -3. */
  lemma DivisionFaults()
    ensures EvaluateExpression(BoundBinary(BoundLiteral(Int(MIN as int32)), Division, BoundLiteral(Int(-1)))) == Throws(Overflow)
    ensures EvaluateExpression(BoundBinary(BoundLiteral(Int(1)), Division, BoundLiteral(Int(0)))) == Throws(DivideByZero)
    ensures EvaluateExpression(BoundBinary(BoundLiteral(Int(7)), Division, BoundLiteral(Int(-2)))) == Ok(-3)
  {
  }

  /** `-int.MinValue` wraps back to int.MinValue. */
  lemma NegationWraps()
    ensures EvaluateExpression(BoundUnary(Negation, BoundLiteral(Int(MIN as int32)))) == Ok(MIN as int32)
  {
  }
}
