/**
 * Properties of the current evaluator: which slots of the store an evaluation may change, that a
 * well-typed tree over a store of fitting types never fails a cast, how `&&` and `||` treat their
 * operands, and the integer semantics of the arithmetic operators.
 */
module MinskEvaluatorProperties {
  import opened Int32Arith
  import opened Values
  import opened BoundUnaryOperators
  import opened BoundBinaryOperators
  import opened BoundNodes
  import opened Faults
  import opened MinskEvaluator

  /**
   * Evaluation only adds slots, only for the names the tree assigns, and keeps the value of every
   * slot it does not assign, whether it returns or throws.
   */
  lemma {:induction false} EvaluationFrame(node: BoundExpression, store: Store)
    ensures var after := Eval(node, store).store;
      store.Keys <= after.Keys <= store.Keys + AssignedNames(node)
      && forall n :: n in store && n !in AssignedNames(node) ==> after[n] == store[n]
  {
    match node
    case BoundLiteral(_) =>
    case BoundVariable(_) =>
    case BoundAssignment(_, expression) =>
      EvaluationFrame(expression, store);
    case BoundUnary(_, operand) =>
      EvaluationFrame(operand, store);
    case BoundBinary(left, _, right) =>
      EvaluationFrame(left, store);
      EvaluationFrame(right, Eval(left, store).store);
  }

  /** A tree without assignments leaves the store as it was. */
  lemma ReadOnlyEvaluation(node: BoundExpression, store: Store)
    requires AssignedNames(node) == {}
    ensures Eval(node, store).store == store
  {
    EvaluationFrame(node, store);
  }

  /** A tree whose every symbol names a slot of the store never misses a variable. */
  lemma {:induction false} VariablesAreFound(node: BoundExpression, store: Store)
    requires forall x :: x in Symbols(node) ==> x.name in store
    ensures Eval(node, store).result != Throws(KeyNotFound)
  {
    match node
    case BoundLiteral(_) =>
    case BoundVariable(_) =>
    case BoundAssignment(_, expression) =>
      VariablesAreFound(expression, store);
    case BoundUnary(_, operand) =>
      VariablesAreFound(operand, store);
    case BoundBinary(left, _, right) =>
      VariablesAreFound(left, store);
      EvaluationFrame(left, store);
      VariablesAreFound(right, Eval(left, store).store);
  }

  /** A literal returns its value and a read returns the slot's value; neither touches the store. */
  lemma LiteralAndVariableRead(v: Value, x: VariableSymbol, store: Store)
    ensures Eval(BoundLiteral(v), store) == Evaluation(Ok(v), store)
    ensures var e := Eval(BoundVariable(x), store);
      e.store == store && (e.result.Ok? <==> x.name in store) && (e.result.Ok? ==> e.result.value == store[x.name])
  {
  }

  /**
   * An assignment whose right-hand side returns yields that value and stores it under the
   * variable's name; every other slot is as the right-hand side left it, and a read of the
   * variable afterwards returns the value.
   */
  lemma AssignmentStoresValue(x: VariableSymbol, expression: BoundExpression, store: Store)
    requires Eval(expression, store).result.Ok?
    ensures var inner := Eval(expression, store); var e := Eval(BoundAssignment(x, expression), store);
      && e.result == inner.result
      && e.store.Keys == inner.store.Keys + {x.name}
      && (forall n :: n in inner.store && n != x.name ==> e.store[n] == inner.store[n])
      && Eval(BoundVariable(x), e.store) == Evaluation(inner.result, e.store)
  {
  }

  /** Symbols that share a name are the same symbol. */
  predicate NamesUnique(symbols: set<VariableSymbol>) {
    forall x, y :: x in symbols && y in symbols && x.name == y.name ==> x == y
  }

  /** Every slot a symbol names holds a value of the symbol's type. */
  predicate StoreFits(store: Store, symbols: set<VariableSymbol>) {
    forall x :: x in symbols && x.name in store ==> TypeOf(store[x.name]) == x.variableType
  }

  /** The faults a well-typed tree can still raise. */
  predicate TypeSafeFault(f: Fault) {
    f == KeyNotFound || f == DivideByZero || f == Overflow || f == UnexpectedBinaryOperator
  }

  /** A unary operator applied to an operand of its type returns a value of its result type. */
  lemma UnaryIsTypeSafe(op: BoundUnaryOperator, operand: Value)
    requires UnarySignature(op) && TypeOf(operand) == op.operandType
    ensures var r := ApplyUnary(op.kind, operand);
      r.Ok? && TypeOf(r.value) == op.resultType
  {
  }

  /**
   * A binary operator applied to operands of its types does not fail a cast: it returns a value of
   * its result type, or throws exactly for a zero divisor, for int.MinValue / -1, or for a
   * relational kind.
   */
  lemma BinaryIsTypeSafe(op: BoundBinaryOperator, left: Value, right: Value)
    requires BinarySignature(op) && TypeOf(left) == op.leftType && TypeOf(right) == op.rightType
    ensures var r := ApplyBinary(op.kind, left, right);
      (r.Ok? ==> TypeOf(r.value) == op.resultType)
      && (r == Throws(DivideByZero) <==> op.kind == Division && right.i == 0)
      && (r == Throws(Overflow) <==> op.kind == Division && left.i as int == MIN && right.i == -1)
      && (r == Throws(UnexpectedBinaryOperator) <==> op.kind in {Less, LessOrEquals, Greater, GreaterOrEquals})
      && r != Throws(InvalidCast)
  {
  }

  /** An assignment to a symbol whose type the stored value has keeps the store fitting. */
  lemma AssignmentKeepsStoreFitting(store: Store, symbols: set<VariableSymbol>, x: VariableSymbol, v: Value)
    requires StoreFits(store, symbols) && NamesUnique(symbols) && x in symbols && TypeOf(v) == x.variableType
    ensures StoreFits(store[x.name := v], symbols)
  {
    forall y | y in symbols && y.name in store[x.name := v]
      ensures TypeOf(store[x.name := v][y.name]) == y.variableType
    {
      if y.name == x.name {
        assert y == x;
      }
    }
  }

  /**
   * Type soundness: a well-typed tree whose symbols agree on their types by name, evaluated over a
   * store that fits them, never fails a cast; a value it returns has the tree's type, and the store
   * it leaves still fits.
   */
  lemma {:induction false} EvaluationIsTypeSafe(node: BoundExpression, store: Store, symbols: set<VariableSymbol>)
    requires WellTyped(node) && Symbols(node) <= symbols && NamesUnique(symbols) && StoreFits(store, symbols)
    decreases node, 1
    ensures var e := Eval(node, store);
      StoreFits(e.store, symbols)
      && (e.result.Ok? ==> TypeOf(e.result.value) == node.Type())
      && (e.result.Throws? ==> TypeSafeFault(e.result.fault))
  {
    match node
    case BoundLiteral(_) =>
    case BoundVariable(x) =>
      assert x in symbols;
    case BoundAssignment(x, expression) =>
      EvaluationIsTypeSafe(expression, store, symbols);
      var inner := Eval(expression, store);
      if inner.result.Ok? {
        AssignmentKeepsStoreFitting(inner.store, symbols, x, inner.result.value);
      }
    case BoundUnary(op, operand) =>
      EvaluationIsTypeSafe(operand, store, symbols);
      var inner := Eval(operand, store);
      if inner.result.Ok? {
        UnaryIsTypeSafe(op, inner.result.value);
      }
    case BoundBinary(left, op, right) =>
      BinaryEvaluationIsTypeSafe(left, op, right, store, symbols);
  }

  /** The binary step of the lemma above. */
  lemma {:induction false} BinaryEvaluationIsTypeSafe(left: BoundExpression, op: BoundBinaryOperator, right: BoundExpression,
                                                      store: Store, symbols: set<VariableSymbol>)
    requires WellTyped(BoundBinary(left, op, right)) && Symbols(BoundBinary(left, op, right)) <= symbols
    requires NamesUnique(symbols) && StoreFits(store, symbols)
    decreases BoundBinary(left, op, right), 0
    ensures var e := Eval(BoundBinary(left, op, right), store);
      StoreFits(e.store, symbols)
      && (e.result.Ok? ==> TypeOf(e.result.value) == op.resultType)
      && (e.result.Throws? ==> TypeSafeFault(e.result.fault))
  {
    EvaluationIsTypeSafe(left, store, symbols);
    var l := Eval(left, store);
    if l.result.Ok? {
      EvaluationIsTypeSafe(right, l.store, symbols);
      var r := Eval(right, l.store);
      if r.result.Ok? {
        BinaryIsTypeSafe(op, l.result.value, r.result.value);
      }
    }
  }

  /**
   * `&&` and `||` evaluate both operands: once the left one returns, the right one is evaluated
   * from the store the left one left, and what it does to the store stays. When the left value
   * already decides, the right value is not cast: a false `&&` or a true `||` yields its left value
   * whenever the right operand returns, whatever its type.
   */
  lemma LogicalOperatorsEvaluateBothOperands(left: BoundExpression, op: BoundBinaryOperator, right: BoundExpression, store: Store)
    requires op.kind == LogicalAnd || op.kind == LogicalOr
    requires Eval(left, store).result.Ok?
    ensures var l := Eval(left, store);
      var r := Eval(right, l.store);
      var e := Eval(BoundBinary(left, op, right), store);
      e.store == r.store
      && (r.result.Throws? ==> e.result == r.result)
      && (r.result.Ok? && l.result.value == Bool(op.kind == LogicalOr) ==> e.result == l.result)
  {
  }

  /** `false && (x = true)` assigns `x` although its value is already decided. */
  lemma NoShortCircuit(x: VariableSymbol, op: BoundBinaryOperator, store: Store)
    requires op.kind == LogicalAnd
    ensures var e := Eval(BoundBinary(BoundLiteral(Bool(false)), op, BoundAssignment(x, BoundLiteral(Bool(true)))), store);
      e.result == Ok(Bool(false)) && e.store == store[x.name := Bool(true)]
  {
    var assignment := BoundAssignment(x, BoundLiteral(Bool(true)));
    assert Eval(assignment, store) == Evaluation(Ok(Bool(true)), store[x.name := Bool(true)]);
  }

  /**
   * `+ - *` on ints never throw; the result is congruent to the exact one modulo 2^32 and equals it
   * when that fits.
   */
  lemma ArithmeticWraps(kind: BoundBinaryOperatorKind, a: int32, b: int32)
    requires kind == Addition || kind == Subtraction || kind == Multiplication
    ensures var exact := match kind
        case Addition => a as int + b as int
        case Subtraction => a as int - b as int
        case _ => a as int * b as int;
      var r := ApplyBinary(kind, Int(a), Int(b));
      r.Ok? && r.value.Int?
      && (r.value.i as int - exact) % MODULUS == 0
      && (MIN <= exact <= MAX ==> r.value.i as int == exact)
  {
  }

  /**
   * `/` on ints throws exactly for a zero divisor and for int.MinValue / -1; otherwise its quotient
   * leaves a remainder smaller than the divisor and of the dividend's sign.
   */
  lemma DivisionTruncates(a: int32, b: int32)
    ensures var r := ApplyBinary(Division, Int(a), Int(b));
      (r == Throws(DivideByZero) <==> b == 0)
      && (r == Throws(Overflow) <==> a as int == MIN && b == -1)
      && (r.Ok? <==> b != 0 && !(a as int == MIN && b == -1))
      && (r.Ok? ==> r.value.Int? && var rem := a as int - r.value.i as int * b as int;
                    Abs(rem) < Abs(b as int) && (rem == 0 || (rem < 0) == (a < 0)))
  {
  }

  /** `==` and `!=` always return, with opposite answers; values of different types are unequal. */
  lemma EqualityOperatorsAgree(left: Value, right: Value)
    ensures var eq, ne := ApplyBinary(Equals, left, right), ApplyBinary(NotEquals, left, right);
      eq.Ok? && ne.Ok? && eq.value.Bool? && ne.value.Bool? && eq.value.b == !ne.value.b
      && (eq.value.b <==> left == right)
      && (TypeOf(left) != TypeOf(right) ==> !eq.value.b)
  {
  }

  /** Negation of an int wraps: it is exact except for int.MinValue, which it leaves unchanged. */
  lemma NegationWraps(a: int32)
    ensures var r := ApplyUnary(Negation, Int(a));
      r.Ok? && r.value.Int?
      && (a as int != MIN ==> r.value.i as int == -(a as int))
      && (a as int == MIN ==> r.value.i == a)
  {
  }

  /** Identity returns its int operand and logical negation the opposite bool. */
  lemma IdentityAndLogicalNegation(a: int32, b: bool)
    ensures ApplyUnary(Identity, Int(a)) == Ok(Int(a))
    ensures ApplyUnary(LogicalNegation, Bool(b)) == Ok(Bool(!b))
  {
  }

  /** A unary operator applied to a value of the other type fails its cast. */
  lemma UnaryCastFails(kind: BoundUnaryOperatorKind, operand: Value)
    requires (kind == LogicalNegation) != operand.Bool?
    ensures ApplyUnary(kind, operand) == Throws(InvalidCast)
  {
  }
}
