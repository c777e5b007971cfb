/**
 * The bound tree of the current front end: what the binder produces and the evaluator walks.
 * A node's type is the runtime type of a literal's value, a variable's declared type, the
 * assigned expression's type, or its operator's result type.
 */
module BoundNodes {
  import opened Values
  import opened BoundUnaryOperators
  import opened BoundBinaryOperators

  /** A variable: its name and the type it was declared with. */
  datatype VariableSymbol = VariableSymbol(name: string, variableType: TypeTag)

  datatype BoundExpression =
    | BoundLiteral(value: Value)
    | BoundVariable(variable: VariableSymbol)
    | BoundAssignment(variable: VariableSymbol, expression: BoundExpression)
    | BoundUnary(op: BoundUnaryOperator, operand: BoundExpression)
    | BoundBinary(left: BoundExpression, binaryOp: BoundBinaryOperator, right: BoundExpression)
  {
    /** The node's `Type`. */
    function Type(): TypeTag {
      match this
      case BoundLiteral(v) => TypeOf(v)
      case BoundVariable(x) => x.variableType
      case BoundAssignment(_, e) => e.Type()
      case BoundUnary(op, _) => op.resultType
      case BoundBinary(_, op, _) => op.resultType
    }
  }

  /**
   * A tree whose every operator has the signature of its kind and takes operands of the types it
   * was bound for, and whose assignments store a value of the variable's type.
   */
  predicate WellTyped(e: BoundExpression) {
    match e
    case BoundLiteral(_) => true
    case BoundVariable(_) => true
    case BoundAssignment(x, inner) => WellTyped(inner) && inner.Type() == x.variableType
    case BoundUnary(op, operand) => WellTyped(operand) && UnarySignature(op) && op.operandType == operand.Type()
    case BoundBinary(left, op, right) =>
      WellTyped(left) && WellTyped(right) && BinarySignature(op)
      && op.leftType == left.Type() && op.rightType == right.Type()
  }

  /** The variables a tree reads or assigns. */
  function Symbols(e: BoundExpression): set<VariableSymbol> {
    match e
    case BoundLiteral(_) => {}
    case BoundVariable(x) => {x}
    case BoundAssignment(x, inner) => {x} + Symbols(inner)
    case BoundUnary(_, operand) => Symbols(operand)
    case BoundBinary(left, _, right) => Symbols(left) + Symbols(right)
  }

  /** The names a tree assigns to. */
  function AssignedNames(e: BoundExpression): set<string> {
    match e
    case BoundLiteral(_) => {}
    case BoundVariable(_) => {}
    case BoundAssignment(x, inner) => {x.name} + AssignedNames(inner)
    case BoundUnary(_, operand) => AssignedNames(operand)
    case BoundBinary(left, _, right) => AssignedNames(left) + AssignedNames(right)
  }
}
