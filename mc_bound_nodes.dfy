/**
 * The bound tree of the earlier generation. An operator node holds only its operator kind; a
 * literal's type is the runtime type of its value, a unary node's is its operand's and a binary
 * node's is its left operand's, whatever the operator.
 */
module McBoundNodes {
  import opened Options
  import opened Values
  import opened SyntaxKinds
  import opened BoundUnaryOperators

  /** The earlier generation's six binary operator kinds. */
  datatype BoundBinaryOperatorKind = Addition | Subtraction | Multiplication | Division | LogicalAnd | LogicalOr

  datatype BoundExpression =
    | BoundLiteral(value: Value)
    | BoundUnary(operatorKind: BoundUnaryOperatorKind, operand: BoundExpression)
    | BoundBinary(left: BoundExpression, binaryKind: BoundBinaryOperatorKind, right: BoundExpression)
  {
    /** The node's `Type`. */
    function Type(): TypeTag {
      match this
      case BoundLiteral(v) => TypeOf(v)
      case BoundUnary(_, operand) => operand.Type()
      case BoundBinary(left, _, _) => left.Type()
    }
  }

  /** The unary operator kind for a token kind and an operand type: `+`/`-` on an int, `!` on a bool. */
  function BindUnaryOperatorKind(kind: SyntaxKind, operandType: TypeTag): (r: Option<BoundUnaryOperatorKind>)
    ensures r.Some? ==> operandType == UnaryOperandType(r.value)
  {
    if operandType == IntType then
      match kind
      case PlusToken => Some(Identity)
      case MinusToken => Some(Negation)
      case _ => None
    else if operandType == BoolType then
      match kind
      case BangToken => Some(LogicalNegation)
      case _ => None
    else None
  }

  /** The binary operator kind for a token kind and two operand types: `+ - * /` on ints, `&& ||` on bools. */
  function BindBinaryOperatorKind(kind: SyntaxKind, leftType: TypeTag, rightType: TypeTag): (r: Option<BoundBinaryOperatorKind>)
    ensures r.Some? ==> leftType == BinaryOperandType(r.value) && rightType == BinaryOperandType(r.value)
  {
    if leftType == IntType && rightType == IntType then
      match kind
      case PlusToken => Some(Addition)
      case MinusToken => Some(Subtraction)
      case StarToken => Some(Multiplication)
      case SlashToken => Some(Division)
      case _ => None
    else if leftType == BoolType && rightType == BoolType then
      match kind
      case AmpersandAmpersandToken => Some(LogicalAnd)
      case PipePipeToken => Some(LogicalOr)
      case _ => None
    else None
  }

  /** The operand type each unary kind is defined for. */
  function UnaryOperandType(k: BoundUnaryOperatorKind): TypeTag {
    if k == LogicalNegation then BoolType else IntType
  }

  /** The operand type each binary kind is defined for, on both sides. */
  function BinaryOperandType(k: BoundBinaryOperatorKind): TypeTag {
    if k == LogicalAnd || k == LogicalOr then BoolType else IntType
  }

  /** The operator token each unary kind is bound from. */
  function UnaryToken(k: BoundUnaryOperatorKind): SyntaxKind {
    match k
    case Identity => PlusToken
    case Negation => MinusToken
    case LogicalNegation => BangToken
  }

  /** The operator token each binary kind is bound from. */
  function BinaryToken(k: BoundBinaryOperatorKind): SyntaxKind {
    match k
    case Addition => PlusToken
    case Subtraction => MinusToken
    case Multiplication => StarToken
    case Division => SlashToken
    case LogicalAnd => AmpersandAmpersandToken
    case LogicalOr => PipePipeToken
  }

  /**
   * The unary table, read against the kinds: it finds a kind exactly for that kind's token and
   * operand type, and every kind is found for its own token and type.
   */
  lemma UnaryTable(kind: SyntaxKind, operandType: TypeTag, k: BoundUnaryOperatorKind)
    ensures BindUnaryOperatorKind(kind, operandType) == Some(k) <==> kind == UnaryToken(k) && operandType == UnaryOperandType(k)
  {
  }

  /**
   * The binary table, read against the kinds: it finds a kind exactly for that kind's token and
   * operand types, and every kind is found for its own token and types.
   */
  lemma BinaryTable(kind: SyntaxKind, leftType: TypeTag, rightType: TypeTag, k: BoundBinaryOperatorKind)
    ensures BindBinaryOperatorKind(kind, leftType, rightType) == Some(k)
      <==> kind == BinaryToken(k) && leftType == BinaryOperandType(k) && rightType == BinaryOperandType(k)
  {
  }

  /**
   * A tree whose every operator kind has operands of the type it is defined for. In such a tree a
   * node's type, its operand's or left operand's, is also what its operator yields.
   */
  predicate WellTyped(e: BoundExpression) {
    match e
    case BoundLiteral(_) => true
    case BoundUnary(k, operand) => WellTyped(operand) && operand.Type() == UnaryOperandType(k)
    case BoundBinary(left, k, right) =>
      WellTyped(left) && WellTyped(right) && left.Type() == BinaryOperandType(k) && right.Type() == BinaryOperandType(k)
  }

  /** The number of operator nodes of a bound tree. */
  function OperatorCount(e: BoundExpression): nat {
    match e
    case BoundLiteral(_) => 0
    case BoundUnary(_, operand) => 1 + OperatorCount(operand)
    case BoundBinary(left, _, right) => 1 + OperatorCount(left) + OperatorCount(right)
  }
}
