/**
 * The unary operators the binder knows. Their table is not part of this model's source; it is
 * taken as the function below: `+` and `-` on an int, `!` on a bool, each keeping its operand's
 * type, and nothing else.
 */
module BoundUnaryOperators {
  import opened Options
  import opened Values
  import opened SyntaxKinds

  datatype BoundUnaryOperatorKind = Identity | Negation | LogicalNegation

  datatype BoundUnaryOperator = BoundUnaryOperator(
    syntaxKind: SyntaxKind,
    kind: BoundUnaryOperatorKind,
    operandType: TypeTag,
    resultType: TypeTag)

  /** `BoundUnaryOperator.Bind`: the operator for a token kind and an operand type, or null. */
  function BindUnaryOperator(syntaxKind: SyntaxKind, operandType: TypeTag): Option<BoundUnaryOperator> {
    match (syntaxKind, operandType)
    case (PlusToken, IntType) => Some(BoundUnaryOperator(PlusToken, Identity, IntType, IntType))
    case (MinusToken, IntType) => Some(BoundUnaryOperator(MinusToken, Negation, IntType, IntType))
    case (BangToken, BoolType) => Some(BoundUnaryOperator(BangToken, LogicalNegation, BoolType, BoolType))
    case _ => None
  }

  /** The types an operator kind works on: int to int for `+` and `-`, bool to bool for `!`. */
  predicate UnarySignature(op: BoundUnaryOperator) {
    match op.kind
    case Identity => op.operandType == IntType && op.resultType == IntType
    case Negation => op.operandType == IntType && op.resultType == IntType
    case LogicalNegation => op.operandType == BoolType && op.resultType == BoolType
  }

  /**
   * A lookup succeeds exactly for `+`/`-` on int and `!` on bool; what it finds answers the key,
   * keeps the operand type and has the signature of its kind.
   */
  lemma UnaryOperatorTable(syntaxKind: SyntaxKind, operandType: TypeTag)
    ensures var r := BindUnaryOperator(syntaxKind, operandType);
      (r.Some? <==> (syntaxKind in {PlusToken, MinusToken} && operandType == IntType)
                    || (syntaxKind == BangToken && operandType == BoolType))
      && (r.Some? ==> r.value.syntaxKind == syntaxKind && r.value.operandType == operandType
                      && r.value.resultType == operandType && UnarySignature(r.value))
  {
  }
}
