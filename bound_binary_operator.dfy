/**
 * The binary operators the binder knows: a constant table of fourteen entries, each keyed by the
 * operator token's kind and the two operand types, and a first-match lookup over it.
 */
module BoundBinaryOperators {
  import opened Options
  import opened Values
  import opened SyntaxKinds

  datatype BoundBinaryOperatorKind =
    | Addition | Subtraction | Multiplication | Division
    | Less | LessOrEquals | Greater | GreaterOrEquals
    | LogicalAnd | LogicalOr | Equals | NotEquals

  datatype BoundBinaryOperator = BoundBinaryOperator(
    syntaxKind: SyntaxKind,
    kind: BoundBinaryOperatorKind,
    leftType: TypeTag,
    rightType: TypeTag,
    resultType: TypeTag)

  /** The three-argument constructor: both operands and the result share one type. */
  function SameTypeOperator(syntaxKind: SyntaxKind, kind: BoundBinaryOperatorKind, resultType: TypeTag): (op: BoundBinaryOperator)
    ensures op.syntaxKind == syntaxKind && op.kind == kind
    ensures op.leftType == resultType && op.rightType == resultType && op.resultType == resultType
  {
    OperandTypeOperator(syntaxKind, kind, resultType, resultType)
  }

  /** The four-argument constructor: both operands share one type, the result has its own. */
  function OperandTypeOperator(syntaxKind: SyntaxKind, kind: BoundBinaryOperatorKind, operandType: TypeTag, resultType: TypeTag): (op: BoundBinaryOperator)
    ensures op.syntaxKind == syntaxKind && op.kind == kind
    ensures op.leftType == operandType && op.rightType == operandType && op.resultType == resultType
  {
    BoundBinaryOperator(syntaxKind, kind, operandType, operandType, resultType)
  }

  /** `_operators`, in declaration order. */
  function Operators(): seq<BoundBinaryOperator> {
    [
      SameTypeOperator(PlusToken, Addition, IntType),
      SameTypeOperator(MinusToken, Subtraction, IntType),
      SameTypeOperator(StarToken, Multiplication, IntType),
      SameTypeOperator(SlashToken, Division, IntType),

      OperandTypeOperator(EqualsEqualsToken, Equals, IntType, BoolType),
      OperandTypeOperator(BangEqualsToken, NotEquals, IntType, BoolType),

      OperandTypeOperator(LessToken, Less, IntType, BoolType),
      OperandTypeOperator(LessOrEqualsToken, LessOrEquals, IntType, BoolType),
      OperandTypeOperator(GreaterToken, Greater, IntType, BoolType),
      OperandTypeOperator(GreaterOrEqualsToken, GreaterOrEquals, IntType, BoolType),

      SameTypeOperator(AmpersandAmpersandToken, LogicalAnd, BoolType),
      SameTypeOperator(PipePipeToken, LogicalOr, BoolType),
      SameTypeOperator(EqualsEqualsToken, Equals, BoolType),
      SameTypeOperator(BangEqualsToken, NotEquals, BoolType)
    ]
  }

  /** Whether an entry answers a lookup of this token kind and these operand types. */
  predicate Answers(op: BoundBinaryOperator, syntaxKind: SyntaxKind, leftType: TypeTag, rightType: TypeTag) {
    op.syntaxKind == syntaxKind && op.leftType == leftType && op.rightType == rightType
  }

  /** The first entry of `ops` that answers the lookup, or None. */
  function FirstMatch(ops: seq<BoundBinaryOperator>, syntaxKind: SyntaxKind, leftType: TypeTag, rightType: TypeTag): Option<BoundBinaryOperator> {
    if ops == [] then None
    else if Answers(ops[0], syntaxKind, leftType, rightType) then Some(ops[0])
    else FirstMatch(ops[1..], syntaxKind, leftType, rightType)
  }

  /** The lookup finds nothing exactly when no entry answers. */
  lemma {:induction false} FirstMatchNone(ops: seq<BoundBinaryOperator>, syntaxKind: SyntaxKind, leftType: TypeTag, rightType: TypeTag)
    ensures FirstMatch(ops, syntaxKind, leftType, rightType).None?
      <==> forall i :: 0 <= i < |ops| ==> !Answers(ops[i], syntaxKind, leftType, rightType)
  {
    if ops != [] {
      FirstMatchNone(ops[1..], syntaxKind, leftType, rightType);
      assert forall i :: 1 <= i < |ops| ==> ops[i] == ops[1..][i - 1];
    }
  }

  /** What the lookup finds is an entry of `ops` that answers, preceded by none that does. */
  lemma {:induction false} FirstMatchSome(ops: seq<BoundBinaryOperator>, syntaxKind: SyntaxKind, leftType: TypeTag, rightType: TypeTag, i: int)
    requires 0 <= i < |ops| && Answers(ops[i], syntaxKind, leftType, rightType)
    requires forall j :: 0 <= j < i ==> !Answers(ops[j], syntaxKind, leftType, rightType)
    ensures FirstMatch(ops, syntaxKind, leftType, rightType) == Some(ops[i])
  {
    if i > 0 {
      assert !Answers(ops[0], syntaxKind, leftType, rightType);
      assert forall j :: 0 <= j < i - 1 ==> ops[1..][j] == ops[j + 1];
      FirstMatchSome(ops[1..], syntaxKind, leftType, rightType, i - 1);
    }
  }

  /** The index of the first entry of `ops` that answers the key, or `|ops|` when none does. */
  ghost function FirstIndex(ops: seq<BoundBinaryOperator>, syntaxKind: SyntaxKind, leftType: TypeTag, rightType: TypeTag): nat {
    if ops == [] || Answers(ops[0], syntaxKind, leftType, rightType) then 0
    else 1 + FirstIndex(ops[1..], syntaxKind, leftType, rightType)
  }

  /** Whatever the lookup finds is the entry at that index, and it answers the key. */
  lemma {:induction false} FirstMatchFound(ops: seq<BoundBinaryOperator>, syntaxKind: SyntaxKind, leftType: TypeTag, rightType: TypeTag)
    ensures var i := FirstIndex(ops, syntaxKind, leftType, rightType);
      i <= |ops| && FirstMatch(ops, syntaxKind, leftType, rightType) == (if i < |ops| then Some(ops[i]) else None)
      && (i < |ops| ==> Answers(ops[i], syntaxKind, leftType, rightType))
  {
    if ops != [] && !Answers(ops[0], syntaxKind, leftType, rightType) {
      FirstMatchFound(ops[1..], syntaxKind, leftType, rightType);
    }
  }

  /** `Bind`: the foreach over the table that returns the first entry that answers, else null. */
  method Bind(syntaxKind: SyntaxKind, leftType: TypeTag, rightType: TypeTag) returns (r: Option<BoundBinaryOperator>)
    ensures r == FirstMatch(Operators(), syntaxKind, leftType, rightType)
  {
    var operators := Operators();
    for i := 0 to |operators|
      invariant FirstMatch(operators, syntaxKind, leftType, rightType) == FirstMatch(operators[i..], syntaxKind, leftType, rightType)
    {
      var op := operators[i];
      assert operators[i..][1..] == operators[i + 1..];
      if Answers(op, syntaxKind, leftType, rightType) {
        return Some(op);
      }
    }
    return None;
  }

  /** An independent account of the table: what each token kind resolves to, by operand types. */
  function Resolution(syntaxKind: SyntaxKind, leftType: TypeTag, rightType: TypeTag): Option<BoundBinaryOperator> {
    var ints := leftType == IntType && rightType == IntType;
    var bools := leftType == BoolType && rightType == BoolType;
    match syntaxKind
    case PlusToken => if ints then Some(BoundBinaryOperator(syntaxKind, Addition, IntType, IntType, IntType)) else None
    case MinusToken => if ints then Some(BoundBinaryOperator(syntaxKind, Subtraction, IntType, IntType, IntType)) else None
    case StarToken => if ints then Some(BoundBinaryOperator(syntaxKind, Multiplication, IntType, IntType, IntType)) else None
    case SlashToken => if ints then Some(BoundBinaryOperator(syntaxKind, Division, IntType, IntType, IntType)) else None
    case LessToken => if ints then Some(BoundBinaryOperator(syntaxKind, Less, IntType, IntType, BoolType)) else None
    case LessOrEqualsToken => if ints then Some(BoundBinaryOperator(syntaxKind, LessOrEquals, IntType, IntType, BoolType)) else None
    case GreaterToken => if ints then Some(BoundBinaryOperator(syntaxKind, Greater, IntType, IntType, BoolType)) else None
    case GreaterOrEqualsToken => if ints then Some(BoundBinaryOperator(syntaxKind, GreaterOrEquals, IntType, IntType, BoolType)) else None
    case AmpersandAmpersandToken => if bools then Some(BoundBinaryOperator(syntaxKind, LogicalAnd, BoolType, BoolType, BoolType)) else None
    case PipePipeToken => if bools then Some(BoundBinaryOperator(syntaxKind, LogicalOr, BoolType, BoolType, BoolType)) else None
    case EqualsEqualsToken => if leftType == rightType then Some(BoundBinaryOperator(syntaxKind, Equals, leftType, leftType, BoolType)) else None
    case BangEqualsToken => if leftType == rightType then Some(BoundBinaryOperator(syntaxKind, NotEquals, leftType, leftType, BoolType)) else None
    case _ => None
  }

  /** Entry `i` answers exactly the key it carries, and the account above gives that entry for it. */
  lemma EntryIsResolution(i: int, leftType: TypeTag, rightType: TypeTag)
    requires 0 <= i < |Operators()|
    ensures var op := Operators()[i];
      Resolution(op.syntaxKind, leftType, rightType) == Some(op) <==> leftType == op.leftType && rightType == op.rightType
  {
  }

  /** What the account gives is an entry of the table that answers the key. */
  lemma ResolutionIsEntry(syntaxKind: SyntaxKind, leftType: TypeTag, rightType: TypeTag)
    ensures var r := Resolution(syntaxKind, leftType, rightType);
      r.Some? ==> r.value in Operators() && Answers(r.value, syntaxKind, leftType, rightType)
  {
  }

  /** Any entry that answers a key is what the account gives for it. */
  lemma EntryAnswersResolution(syntaxKind: SyntaxKind, leftType: TypeTag, rightType: TypeTag, i: int)
    requires 0 <= i < |Operators()| && Answers(Operators()[i], syntaxKind, leftType, rightType)
    ensures Resolution(syntaxKind, leftType, rightType) == Some(Operators()[i])
  {
    EntryIsResolution(i, leftType, rightType);
  }

  /** What the lookup finds is what the account gives. */
  lemma FoundIsResolution(syntaxKind: SyntaxKind, leftType: TypeTag, rightType: TypeTag)
    ensures var r := FirstMatch(Operators(), syntaxKind, leftType, rightType);
      r.Some? ==> r == Resolution(syntaxKind, leftType, rightType)
  {
    var ops := Operators();
    FirstMatchFound(ops, syntaxKind, leftType, rightType);
    var i := FirstIndex(ops, syntaxKind, leftType, rightType);
    if i < |ops| {
      EntryAnswersResolution(syntaxKind, leftType, rightType, i);
    }
  }

  /** When the lookup finds nothing, neither does the account. */
  lemma NotFoundIsResolution(syntaxKind: SyntaxKind, leftType: TypeTag, rightType: TypeTag)
    ensures FirstMatch(Operators(), syntaxKind, leftType, rightType).None? ==> Resolution(syntaxKind, leftType, rightType).None?
  {
    FirstMatchNone(Operators(), syntaxKind, leftType, rightType);
    ResolutionIsEntry(syntaxKind, leftType, rightType);
  }

  /** The first-match lookup over the table agrees with the account above, for every key. */
  lemma LookupIsResolution(syntaxKind: SyntaxKind, leftType: TypeTag, rightType: TypeTag)
    ensures FirstMatch(Operators(), syntaxKind, leftType, rightType) == Resolution(syntaxKind, leftType, rightType)
  {
    FoundIsResolution(syntaxKind, leftType, rightType);
    NotFoundIsResolution(syntaxKind, leftType, rightType);
  }

  /** No entry has operands of differing types. */
  lemma OperandTypesAgree(i: int)
    requires 0 <= i < |Operators()|
    ensures Operators()[i].leftType == Operators()[i].rightType
  {
  }

  /** So a lookup with mixed operand types finds nothing. */
  lemma MixedOperandsHaveNoOperator(syntaxKind: SyntaxKind, leftType: TypeTag, rightType: TypeTag)
    requires leftType != rightType
    ensures FirstMatch(Operators(), syntaxKind, leftType, rightType).None?
  {
    var ops := Operators();
    forall i | 0 <= i < |ops|
      ensures !Answers(ops[i], syntaxKind, leftType, rightType)
    {
      OperandTypesAgree(i);
    }
    FirstMatchNone(ops, syntaxKind, leftType, rightType);
  }

  /** No two entries share a key; so the entry a lookup finds is the only one that answers it. */
  lemma KeysAreUnique(i: int, j: int)
    requires 0 <= i < j < |Operators()|
    ensures var ops := Operators();
      (ops[i].syntaxKind, ops[i].leftType, ops[i].rightType) != (ops[j].syntaxKind, ops[j].leftType, ops[j].rightType)
  {
  }

  /** The first match is the only match: any entry that answers a key is what the lookup finds. */
  lemma FirstMatchIsOnlyMatch(syntaxKind: SyntaxKind, leftType: TypeTag, rightType: TypeTag, k: int)
    requires 0 <= k < |Operators()| && Answers(Operators()[k], syntaxKind, leftType, rightType)
    ensures FirstMatch(Operators(), syntaxKind, leftType, rightType) == Some(Operators()[k])
  {
    LookupIsResolution(syntaxKind, leftType, rightType);
    EntryIsResolution(k, leftType, rightType);
  }

  /** `+ - * /` exist for int and int only, and give int. */
  lemma ArithmeticOperators(syntaxKind: SyntaxKind, leftType: TypeTag, rightType: TypeTag)
    requires syntaxKind in {PlusToken, MinusToken, StarToken, SlashToken}
    ensures var r := FirstMatch(Operators(), syntaxKind, leftType, rightType);
      (r.Some? <==> leftType == IntType && rightType == IntType) && (r.Some? ==> r.value.resultType == IntType)
  {
    LookupIsResolution(syntaxKind, leftType, rightType);
  }

  /** `==` and `!=` exist for int and int and for bool and bool, and give bool. */
  lemma EqualityOperators(syntaxKind: SyntaxKind, leftType: TypeTag, rightType: TypeTag)
    requires syntaxKind in {EqualsEqualsToken, BangEqualsToken}
    ensures var r := FirstMatch(Operators(), syntaxKind, leftType, rightType);
      (r.Some? <==> leftType == rightType) && (r.Some? ==> r.value.resultType == BoolType)
  {
    LookupIsResolution(syntaxKind, leftType, rightType);
  }

  /** `&&` and `||` exist for bool and bool only, and give bool. */
  lemma LogicalOperators(syntaxKind: SyntaxKind, leftType: TypeTag, rightType: TypeTag)
    requires syntaxKind in {AmpersandAmpersandToken, PipePipeToken}
    ensures var r := FirstMatch(Operators(), syntaxKind, leftType, rightType);
      (r.Some? <==> leftType == BoolType && rightType == BoolType) && (r.Some? ==> r.value.resultType == BoolType)
  {
    LookupIsResolution(syntaxKind, leftType, rightType);
  }

  /** `< <= > >=` exist for int and int only, and give bool. */
  lemma RelationalOperators(syntaxKind: SyntaxKind, leftType: TypeTag, rightType: TypeTag)
    requires syntaxKind in {LessToken, LessOrEqualsToken, GreaterToken, GreaterOrEqualsToken}
    ensures var r := FirstMatch(Operators(), syntaxKind, leftType, rightType);
      (r.Some? <==> leftType == IntType && rightType == IntType) && (r.Some? ==> r.value.resultType == BoolType)
  {
    LookupIsResolution(syntaxKind, leftType, rightType);
  }

  /** Every entry is keyed by one of the twelve operator tokens. */
  lemma EntryKind(i: int)
    requires 0 <= i < |Operators()|
    ensures Operators()[i].syntaxKind in {PlusToken, MinusToken, StarToken, SlashToken, EqualsEqualsToken, BangEqualsToken,
      LessToken, LessOrEqualsToken, GreaterToken, GreaterOrEqualsToken, AmpersandAmpersandToken, PipePipeToken}
  {
  }

  /** So every other token kind has no binary operator at all. */
  lemma OtherKindsHaveNoOperator(syntaxKind: SyntaxKind, leftType: TypeTag, rightType: TypeTag)
    requires syntaxKind !in {PlusToken, MinusToken, StarToken, SlashToken, EqualsEqualsToken, BangEqualsToken,
      LessToken, LessOrEqualsToken, GreaterToken, GreaterOrEqualsToken, AmpersandAmpersandToken, PipePipeToken}
    ensures FirstMatch(Operators(), syntaxKind, leftType, rightType).None?
  {
    var ops := Operators();
    forall i | 0 <= i < |ops|
      ensures !Answers(ops[i], syntaxKind, leftType, rightType)
    {
      EntryKind(i);
    }
    FirstMatchNone(ops, syntaxKind, leftType, rightType);
  }

  /** A found operator answers the lookup: its key is the one asked for. */
  lemma FoundOperatorAnswers(syntaxKind: SyntaxKind, leftType: TypeTag, rightType: TypeTag)
    ensures var r := FirstMatch(Operators(), syntaxKind, leftType, rightType);
      r.Some? ==> r.value.syntaxKind == syntaxKind && r.value.leftType == leftType && r.value.rightType == rightType
  {
    FirstMatchFound(Operators(), syntaxKind, leftType, rightType);
  }

  /** The types an operator kind works on. */
  predicate BinarySignature(op: BoundBinaryOperator) {
    match op.kind
    case Addition | Subtraction | Multiplication | Division =>
      op.leftType == IntType && op.rightType == IntType && op.resultType == IntType
    case Less | LessOrEquals | Greater | GreaterOrEquals =>
      op.leftType == IntType && op.rightType == IntType && op.resultType == BoolType
    case LogicalAnd | LogicalOr =>
      op.leftType == BoolType && op.rightType == BoolType && op.resultType == BoolType
    case Equals | NotEquals =>
      op.leftType == op.rightType && op.resultType == BoolType
  }

  /** What the account gives has the signature of its kind. */
  lemma ResolutionSignature(syntaxKind: SyntaxKind, leftType: TypeTag, rightType: TypeTag)
    ensures var r := Resolution(syntaxKind, leftType, rightType);
      r.Some? ==> BinarySignature(r.value)
  {
  }

  /** So whatever a lookup finds has the signature of its kind. */
  lemma FoundOperatorSignature(syntaxKind: SyntaxKind, leftType: TypeTag, rightType: TypeTag)
    ensures var r := FirstMatch(Operators(), syntaxKind, leftType, rightType);
      r.Some? ==> BinarySignature(r.value)
  {
    LookupIsResolution(syntaxKind, leftType, rightType);
    ResolutionSignature(syntaxKind, leftType, rightType);
  }
}
