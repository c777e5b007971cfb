/**
 * The evaluator of the current front end: a tree walk over a bound tree that reads and writes a
 * variable store shared with its caller. Values are boxed in the source, so an operator applies
 * unboxing casts `(int)` and `(Boolean)` to its operands; a cast of the wrong type throws.
 */
module MinskEvaluator {
  import opened Int32Arith
  import opened Values
  import opened BoundUnaryOperators
  import opened BoundBinaryOperators
  import opened BoundNodes
  import opened Faults

  /**
   * The contents of the variable dictionary. Symbols are equal when their names are, so the
   * dictionary is keyed by name: two symbols with one name share a slot.
   */
  type Store = map<string, Value>

  /** What evaluating a node yields, and the store it leaves (also when it throws). */
  datatype Evaluation = Evaluation(result: Result<Value>, store: Store)

  /** The unary `switch`: `(int)operand`, `-(int)operand` (wrapping) or `!(Boolean)operand`. */
  function ApplyUnary(kind: BoundUnaryOperatorKind, operand: Value): Result<Value> {
    match kind
    case Identity => if operand.Int? then Ok(operand) else Throws(InvalidCast)
    case Negation => if operand.Int? then Ok(Int(Neg(operand.i))) else Throws(InvalidCast)
    case LogicalNegation => if operand.Bool? then Ok(Bool(!operand.b)) else Throws(InvalidCast)
  }

  /**
   * The binary `switch` on two evaluated operands. `+ - *` wrap; `/` truncates and throws on a
   * zero divisor and on int.MinValue / -1; `&&` and `||` do not cast the right operand once the
   * left one decides; `==` and `!=` compare the boxed values; the relational kinds reach `default`.
   */
  function ApplyBinary(kind: BoundBinaryOperatorKind, left: Value, right: Value): Result<Value> {
    match kind
    case Addition => if left.Int? && right.Int? then Ok(Int(Add(left.i, right.i))) else Throws(InvalidCast)
    case Subtraction => if left.Int? && right.Int? then Ok(Int(Sub(left.i, right.i))) else Throws(InvalidCast)
    case Multiplication => if left.Int? && right.Int? then Ok(Int(Mul(left.i, right.i))) else Throws(InvalidCast)
    case Division =>
      if !(left.Int? && right.Int?) then Throws(InvalidCast)
      else if right.i == 0 then Throws(DivideByZero)
      else if left.i as int == MIN && right.i == -1 then Throws(Overflow)
      else Ok(Int(TruncatingDiv(left.i, right.i)))
    case LogicalAnd =>
      if !left.Bool? then Throws(InvalidCast)
      else if !left.b then Ok(Bool(false))
      else if right.Bool? then Ok(right) else Throws(InvalidCast)
    case LogicalOr =>
      if !left.Bool? then Throws(InvalidCast)
      else if left.b then Ok(Bool(true))
      else if right.Bool? then Ok(right) else Throws(InvalidCast)
    case Equals => Ok(Bool(left == right))
    case NotEquals => Ok(Bool(left != right))
    case Less | LessOrEquals | Greater | GreaterOrEquals => Throws(UnexpectedBinaryOperator)
  }

  /** What `EvaluateExpression` returns for a node, starting from a store, and the store after it. */
  function Eval(node: BoundExpression, store: Store): Evaluation {
    match node
    case BoundLiteral(v) => Evaluation(Ok(v), store)
    case BoundVariable(x) =>
      Evaluation(if x.name in store then Ok(store[x.name]) else Throws(KeyNotFound), store)
    case BoundAssignment(x, expression) =>
      var inner := Eval(expression, store);
      if inner.result.Throws? then inner
      else Evaluation(inner.result, inner.store[x.name := inner.result.value])
    case BoundUnary(op, operand) =>
      var inner := Eval(operand, store);
      if inner.result.Throws? then inner
      else Evaluation(ApplyUnary(op.kind, inner.result.value), inner.store)
    case BoundBinary(left, op, right) =>
      var l := Eval(left, store);
      if l.result.Throws? then l
      else
        var r := Eval(right, l.store);
        if r.result.Throws? then r
        else Evaluation(ApplyBinary(op.kind, l.result.value, r.result.value), r.store)
  }

  /** The `Dictionary<VariableSymbol, object>` the caller owns and the evaluator updates in place. */
  class VariableStore {
    var values: Store

    constructor(values: Store)
      ensures this.values == values
    {
      this.values := values;
    }
  }

  class Evaluator {
    const root: BoundExpression
    const variables: VariableStore

    constructor(root: BoundExpression, variables: VariableStore)
      ensures this.root == root && this.variables == variables
    {
      this.root := root;
      this.variables := variables;
    }

    method Evaluate() returns (r: Result<Value>)
      modifies variables
      ensures r == Eval(root, old(variables.values)).result
      ensures variables.values == Eval(root, old(variables.values)).store
    {
      r := EvaluateExpression(root);
    }

    method EvaluateExpression(node: BoundExpression) returns (r: Result<Value>)
      modifies variables
      decreases node
      ensures r == Eval(node, old(variables.values)).result
      ensures variables.values == Eval(node, old(variables.values)).store
    {
      match node
      case BoundLiteral(v) =>
        r := Ok(v);
      case BoundVariable(x) =>
        if x.name !in variables.values {
          return Throws(KeyNotFound);
        }
        r := Ok(variables.values[x.name]);
      case BoundAssignment(x, expression) =>
        var value := EvaluateExpression(expression);
        if value.Throws? {
          return value;
        }
        variables.values := variables.values[x.name := value.value];
        r := value;
      case BoundUnary(op, operand) =>
        var value := EvaluateExpression(operand);
        if value.Throws? {
          return value;
        }
        r := ApplyUnary(op.kind, value.value);
      case BoundBinary(left, op, right) =>
        var leftValue := EvaluateExpression(left);
        if leftValue.Throws? {
          return leftValue;
        }
        var rightValue := EvaluateExpression(right);
        if rightValue.Throws? {
          return rightValue;
        }
        r := ApplyBinary(op.kind, leftValue.value, rightValue.value);
    }
  }
}
