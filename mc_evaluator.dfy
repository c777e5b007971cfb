/**
 * The evaluator of the earlier generation: an int-only walk over the bound tree. A literal is cast
 * to `int`, so a bool literal throws; `+` and `-` are the only prefix operators and `+ - * /` the
 * only infix ones it evaluates, the logical kinds reaching a `default` that throws. Operands are
 * evaluated left to right, both of them before the operator applies.
 */
module McEvaluator {
  import opened Int32Arith
  import opened Values
  import opened BoundUnaryOperators
  import opened McBoundNodes
  import opened Faults

  /** The infix `switch` on two evaluated operands: `+ - *` wrap, `/` truncates and throws as C#'s does. */
  function ApplyBinary(kind: BoundBinaryOperatorKind, left: int32, right: int32): (r: Result<int32>)
    ensures r.Throws? <==> kind in {LogicalAnd, LogicalOr} || (kind == Division && (right == 0 || (left as int == MIN && right == -1)))
    ensures r.Throws? && kind == Division ==> r.fault == (if right == 0 then DivideByZero else Overflow)
  {
    match kind
    case Addition => Ok(Add(left, right))
    case Subtraction => Ok(Sub(left, right))
    case Multiplication => Ok(Mul(left, right))
    case Division =>
      if right == 0 then Throws(DivideByZero)
      else if left as int == MIN && right == -1 then Throws(Overflow)
      else Ok(TruncatingDiv(left, right))
    case _ => Throws(UnexpectedBinaryOperator)
  }

  /** `EvaluateExpression`; `Evaluate()` is this applied to the evaluator's root. */
  function EvaluateExpression(node: BoundExpression): Result<int32> {
    match node
    case BoundLiteral(v) => if v.Int? then Ok(v.i) else Throws(InvalidCast)
    case BoundUnary(k, o) =>
      (match EvaluateExpression(o)
       case Throws(f) => Throws(f)
       case Ok(operand) =>
        (match k
         case Identity => Ok(operand)
         case Negation => Ok(Neg(operand))
         case LogicalNegation => Throws(UnexpectedUnaryOperator)))
    case BoundBinary(l, k, r) =>
      match EvaluateExpression(l)
      case Throws(f) => Throws(f)
      case Ok(left) =>
        match EvaluateExpression(r)
        case Throws(f) => Throws(f)
        case Ok(right) => ApplyBinary(k, left, right)
  }

  /** A tree of int literals and the operators the evaluator handles. */
  predicate IntTree(node: BoundExpression) {
    match node
    case BoundLiteral(v) => v.Int?
    case BoundUnary(k, o) => k != LogicalNegation && IntTree(o)
    case BoundBinary(l, k, r) => k !in {LogicalAnd, LogicalOr} && IntTree(l) && IntTree(r)
  }

  /** A tree without a division. */
  predicate DivisionFree(node: BoundExpression) {
    match node
    case BoundLiteral(_) => true
    case BoundUnary(_, o) => DivisionFree(o)
    case BoundBinary(l, k, r) => k != Division && DivisionFree(l) && DivisionFree(r)
  }

  /** The value of a division-free int tree in unbounded integers. */
  function ExactValue(node: BoundExpression): int
    requires IntTree(node) && DivisionFree(node)
  {
    match node
    case BoundLiteral(v) => v.i as int
    case BoundUnary(k, o) => if k == Negation then -ExactValue(o) else ExactValue(o)
    case BoundBinary(l, k, r) =>
      match k
      case Addition => ExactValue(l) + ExactValue(r)
      case Subtraction => ExactValue(l) - ExactValue(r)
      case Multiplication => ExactValue(l) * ExactValue(r)
  }
}
