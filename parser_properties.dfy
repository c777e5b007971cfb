/**
 * What the parse functions promise about the tokens they are given: every token with text that
 * a parse step passes over ends up in the tree, in order, each synthesised token comes with
 * exactly one diagnostic, and a parse without diagnostics covers the whole token array. Then the
 * shape of the trees for assignment chains, operator precedence, associativity and prefix
 * operators.
 */
module MinskParserProperties {
  import opened Options
  import opened SyntaxKinds
  import opened SyntaxFacts
  import opened SyntaxTokens
  import opened Diagnostics
  import opened SyntaxNodes
  import opened CharClass
  import opened MinskLexer
  import opened MinskParser
  import opened TokenStreams
  import opened MinskSyntaxTree

  /** Every token of the array carries text, as every lexed token does. */
  predicate AllHaveText(tokens: seq<SyntaxToken>) {
    forall i :: 0 <= i < |tokens| ==> tokens[i].text.Some?
  }

  /**
   * A parse step from `start` accounts for the tokens it passes over: the tokens of its node
   * that carry text are exactly `tokens[start..next]`, and every other token of the node (one
   * the parser synthesised) comes with one diagnostic.
   */
  ghost predicate Accounts(tokens: seq<SyntaxToken>, start: nat, p: Parsed) {
    && start <= p.next <= |tokens|
    && WithText(Leaves(p.node)) == tokens[start..p.next]
    && |Leaves(p.node)| == p.next - start + |p.reported|
  }

  lemma WithTextOne(t: SyntaxToken)
    ensures WithText([t]) == if t.text.Some? then [t] else []
  {
    assert [t][1..] == [];
  }

  /** Two stretches that account for adjacent ranges account, together, for the joined range. */
  lemma AccountsJoin(tokens: seq<SyntaxToken>, a: nat, b: nat, c: nat, xs: seq<SyntaxToken>, ys: seq<SyntaxToken>, r1: nat, r2: nat)
    requires a <= b <= c <= |tokens|
    requires WithText(xs) == tokens[a..b] && |xs| == b - a + r1
    requires WithText(ys) == tokens[b..c] && |ys| == c - b + r2
    ensures WithText(xs + ys) == tokens[a..c] && |xs + ys| == c - a + r1 + r2
  {
    WithTextAppend(xs, ys);
    assert tokens[a..c] == tokens[a..b] + tokens[b..c];
  }

  /** A consumed token accounts for itself. */
  lemma AccountsToken(tokens: seq<SyntaxToken>, pos: nat)
    requires AllHaveText(tokens) && pos < |tokens|
    ensures WithText([tokens[pos]]) == tokens[pos..pos + 1]
  {
    WithTextOne(tokens[pos]);
    assert tokens[pos..pos + 1] == [tokens[pos]];
  }

  /** A matched token accounts for itself: consumed with its text, or synthesised with one diagnostic. */
  ghost predicate MatchAccounts(tokens: seq<SyntaxToken>, pos: nat, m: Matched) {
    && pos <= m.next <= |tokens|
    && WithText([m.token]) == tokens[pos..m.next]
    && 1 == m.next - pos + |m.reported|
  }

  /** `MatchToken` accounts for its token. */
  lemma MatchTokenAccounts(tokens: seq<SyntaxToken>, pos: nat, kind: SyntaxKind)
    requires EndsWithEndOfFile(tokens) && AllHaveText(tokens) && pos < |tokens|
    ensures MatchAccounts(tokens, pos, MatchAt(tokens, pos, kind))
  {
    var m := MatchAt(tokens, pos, kind);
    WithTextOne(m.token);
    if tokens[pos].kind == kind {
      assert tokens[pos..pos + 1] == [tokens[pos]];
    }
  }

  lemma {:induction false} AssignmentAccounts(tokens: seq<SyntaxToken>, pos: nat)
    requires EndsWithEndOfFile(tokens) && AllHaveText(tokens) && pos < |tokens|
    ensures Accounts(tokens, pos, AssignmentAt(tokens, pos))
    decreases |tokens| - pos, 5
  {
    if PeekAt(tokens, pos).kind == IdentifierToken && PeekAt(tokens, pos + 1).kind == EqualsToken {
      var right := AssignmentAt(tokens, pos + 2);
      AssignmentAccounts(tokens, pos + 2);
      AssignmentNodeAccounts(tokens, pos, right);
    } else {
      BinaryAccounts(tokens, pos, 0);
    }
  }

  lemma {:induction false} BinaryAccounts(tokens: seq<SyntaxToken>, pos: nat, parentPrecedence: nat)
    requires EndsWithEndOfFile(tokens) && AllHaveText(tokens) && pos < |tokens|
    ensures Accounts(tokens, pos, BinaryAt(tokens, pos, parentPrecedence))
    decreases |tokens| - pos, 4
  {
    OperandAccounts(tokens, pos, parentPrecedence);
    LoopAccounts(tokens, pos, OperandAt(tokens, pos, parentPrecedence), parentPrecedence);
  }

  lemma {:induction false} OperandAccounts(tokens: seq<SyntaxToken>, pos: nat, parentPrecedence: nat)
    requires EndsWithEndOfFile(tokens) && AllHaveText(tokens) && pos < |tokens|
    ensures Accounts(tokens, pos, OperandAt(tokens, pos, parentPrecedence))
    decreases |tokens| - pos, 3
  {
    var unary := UnaryOperatorPrecedence(PeekAt(tokens, pos).kind);
    if unary != 0 && unary >= parentPrecedence {
      var operand := BinaryAt(tokens, pos + 1, unary);
      BinaryAccounts(tokens, pos + 1, unary);
      UnaryNodeAccounts(tokens, pos, operand);
    } else {
      PrimaryAccounts(tokens, pos);
    }
  }

  lemma {:induction false} LoopAccounts(tokens: seq<SyntaxToken>, start: nat, left: Parsed, parentPrecedence: nat)
    requires EndsWithEndOfFile(tokens) && AllHaveText(tokens) && left.next < |tokens|
    requires Accounts(tokens, start, left)
    ensures Accounts(tokens, start, BinaryLoop(tokens, left, parentPrecedence))
    decreases |tokens| - left.next, 2
  {
    var precedence := BinaryOperatorPrecedence(PeekAt(tokens, left.next).kind);
    if precedence == 0 || precedence <= parentPrecedence {
      assert BinaryLoop(tokens, left, parentPrecedence) == left;
    } else {
      var op := tokens[left.next];
      var right := BinaryAt(tokens, left.next + 1, precedence);
      var combined := Parsed(Binary(left.node, op, right.node), right.next, left.reported + right.reported);
      BinaryAccounts(tokens, left.next + 1, precedence);
      BinaryNodeAccounts(tokens, start, left, right);
      BinaryLoopStep(tokens, left, parentPrecedence, precedence, left.next + 1, right);
      LoopAccounts(tokens, start, combined, parentPrecedence);
    }
  }

  /** A binary node built from an accounted left operand, the operator and an accounted right operand. */
  lemma BinaryNodeAccounts(tokens: seq<SyntaxToken>, start: nat, left: Parsed, right: Parsed)
    requires AllHaveText(tokens) && left.next < |tokens|
    requires Accounts(tokens, start, left) && Accounts(tokens, left.next + 1, right)
    ensures Accounts(tokens, start, Parsed(Binary(left.node, tokens[left.next], right.node), right.next,
                                           left.reported + right.reported))
  {
    var op := tokens[left.next];
    AccountsToken(tokens, left.next);
    AccountsJoin(tokens, start, left.next, left.next + 1, Leaves(left.node), [op], |left.reported|, 0);
    AccountsJoin(tokens, start, left.next + 1, right.next, Leaves(left.node) + [op], Leaves(right.node),
                 |left.reported|, |right.reported|);
  }

  lemma {:induction false} PrimaryAccounts(tokens: seq<SyntaxToken>, pos: nat)
    requires EndsWithEndOfFile(tokens) && AllHaveText(tokens) && pos < |tokens|
    ensures Accounts(tokens, pos, PrimaryAt(tokens, pos))
    decreases |tokens| - pos, 1
  {
    var current := tokens[pos];
    if current.kind == OpenParenthesisToken {
      ParenthesizedAccounts(tokens, pos);
    } else if current.kind == TrueKeyword || current.kind == FalseKeyword || current.kind == IdentifierToken {
      AccountsToken(tokens, pos);
    } else {
      MatchTokenAccounts(tokens, pos, NumberToken);
    }
  }

  lemma {:induction false} ParenthesizedAccounts(tokens: seq<SyntaxToken>, pos: nat)
    requires EndsWithEndOfFile(tokens) && AllHaveText(tokens) && pos < |tokens|
    requires tokens[pos].kind == OpenParenthesisToken
    ensures Accounts(tokens, pos, PrimaryAt(tokens, pos))
    decreases |tokens| - pos, 0
  {
    PrimaryOfParenthesis(tokens, pos);
    var inner := AssignmentAt(tokens, pos + 1);
    var close := MatchAt(tokens, inner.next, CloseParenthesisToken);
    assert Accounts(tokens, pos + 1, inner) by {
      AssignmentAccounts(tokens, pos + 1);
    }
    assert MatchAccounts(tokens, inner.next, close) by {
      MatchTokenAccounts(tokens, inner.next, CloseParenthesisToken);
    }
    ParenthesizedNodeAccounts(tokens, pos, inner, close);
  }

  /** The parenthesised case of `PrimaryAt`. */
  lemma PrimaryOfParenthesis(tokens: seq<SyntaxToken>, pos: nat)
    requires EndsWithEndOfFile(tokens) && pos < |tokens| && tokens[pos].kind == OpenParenthesisToken
    ensures pos + 1 < |tokens|
    ensures var inner := AssignmentAt(tokens, pos + 1); var close := MatchAt(tokens, inner.next, CloseParenthesisToken);
      PrimaryAt(tokens, pos)
        == Parsed(Parenthesized(tokens[pos], inner.node, close.token), close.next, inner.reported + close.reported)
  {
  }

  lemma AssignmentNodeAccounts(tokens: seq<SyntaxToken>, pos: nat, right: Parsed)
    requires AllHaveText(tokens) && pos + 1 < |tokens| && Accounts(tokens, pos + 2, right)
    ensures Accounts(tokens, pos, Parsed(Assignment(tokens[pos], tokens[pos + 1], right.node), right.next, right.reported))
  {
    AccountsToken(tokens, pos);
    AccountsToken(tokens, pos + 1);
    AccountsJoin(tokens, pos, pos + 1, pos + 2, [tokens[pos]], [tokens[pos + 1]], 0, 0);
    assert [tokens[pos]] + [tokens[pos + 1]] == [tokens[pos], tokens[pos + 1]];
    AccountsJoin(tokens, pos, pos + 2, right.next, [tokens[pos], tokens[pos + 1]], Leaves(right.node), 0, |right.reported|);
  }

  lemma UnaryNodeAccounts(tokens: seq<SyntaxToken>, pos: nat, operand: Parsed)
    requires AllHaveText(tokens) && pos < |tokens| && Accounts(tokens, pos + 1, operand)
    ensures Accounts(tokens, pos, Parsed(Unary(tokens[pos], operand.node), operand.next, operand.reported))
  {
    AccountsToken(tokens, pos);
    AccountsJoin(tokens, pos, pos + 1, operand.next, [tokens[pos]], Leaves(operand.node), 0, |operand.reported|);
  }

  lemma ParenthesizedNodeAccounts(tokens: seq<SyntaxToken>, pos: nat, inner: Parsed, close: Matched)
    requires AllHaveText(tokens) && pos < |tokens| && Accounts(tokens, pos + 1, inner)
    requires MatchAccounts(tokens, inner.next, close)
    ensures Accounts(tokens, pos, Parsed(Parenthesized(tokens[pos], inner.node, close.token), close.next,
                                         inner.reported + close.reported))
  {
    AccountsToken(tokens, pos);
    AccountsJoin(tokens, pos, pos + 1, inner.next, [tokens[pos]], Leaves(inner.node), 0, |inner.reported|);
    AccountsJoin(tokens, pos, inner.next, close.next, [tokens[pos]] + Leaves(inner.node), [close.token],
                 |inner.reported|, |close.reported|);
  }

  /** The tokens of a compilation unit, read left to right: the expression's, then the end of file. */
  function UnitLeaves(u: CompilationUnitSyntax): seq<SyntaxToken> {
    Leaves(u.expression) + [u.endOfFileToken]
  }

  /**
   * `Parse` loses no token and invents none silently: the tokens of the tree that carry text are
   * the array's tokens up to where the parse stopped, in order, and the tree has one more token
   * than that for each diagnostic, the ones `MatchToken` synthesised.
   */
  lemma ParseAccountsForTokens(tokens: seq<SyntaxToken>)
    requires EndsWithEndOfFile(tokens) && AllHaveText(tokens)
    ensures var r := UnitAt(tokens, 0);
      && WithText(UnitLeaves(r.unit)) == tokens[..r.next]
      && |UnitLeaves(r.unit)| == r.next + |r.reported|
  {
    var e := AssignmentAt(tokens, 0);
    AssignmentAccounts(tokens, 0);
    var eof := MatchAt(tokens, e.next, EndOfFileToken);
    MatchTokenAccounts(tokens, e.next, EndOfFileToken);
    AccountsJoin(tokens, 0, e.next, eof.next, Leaves(e.node), [eof.token], |e.reported|, |eof.reported|);
    assert tokens[0..eof.next] == tokens[..eof.next];
  }

  /** The array has its end-of-file token only at the end. */
  predicate SingleEndOfFile(tokens: seq<SyntaxToken>) {
    forall i :: 0 <= i < |tokens| - 1 ==> tokens[i].kind != EndOfFileToken
  }

  /** A list all of whose tokens carry text is its own `WithText`. */
  lemma {:induction false} WithTextOfAll(s: seq<SyntaxToken>)
    requires |WithText(s)| == |s|
    ensures WithText(s) == s
  {
    if s != [] {
      assert s[0].text.Some?;
      WithTextOfAll(s[1..]);
      assert s == [s[0]] + s[1..];
    }
  }

  /**
   * A parse without diagnostics covers the whole token array: reading the tree's tokens left to
   * right gives back exactly the array, the end of file included.
   */
  lemma CleanParseCoversTokens(tokens: seq<SyntaxToken>)
    requires EndsWithEndOfFile(tokens) && AllHaveText(tokens) && SingleEndOfFile(tokens)
    ensures var r := UnitAt(tokens, 0); r.reported == [] ==> UnitLeaves(r.unit) == tokens && r.next == |tokens|
  {
    var r := UnitAt(tokens, 0);
    if r.reported == [] {
      ParseAccountsForTokens(tokens);
      var e := AssignmentAt(tokens, 0);
      assert MatchAt(tokens, e.next, EndOfFileToken).reported == [];
      assert PeekAt(tokens, e.next).kind == EndOfFileToken;
      assert r.next == |tokens|;
      assert tokens[..r.next] == tokens;
      WithTextOfAll(UnitLeaves(r.unit));
    }
  }

  /** A lexing run yields, before its end of file, only tokens that are not the end of file, all with text. */
  lemma {:induction false} DriveTokensWellFormed(t: seq<LexStep>, text: string, pos: nat, fuel: nat)
    requires Advances(t) && SpellsText(t, text) && pos < |t| && Drive(t, pos, fuel).Some?
    ensures var r := Drive(t, pos, fuel).value;
      && r.eof.text.Some?
      && forall i :: 0 <= i < |r.tokens| ==> r.tokens[i].kind != EndOfFileToken && r.tokens[i].text.Some?
    decreases fuel
  {
    var s := t[pos];
    if s.token.kind != EndOfFileToken {
      DriveTokensWellFormed(t, text, s.next, fuel - 1);
    }
  }

  /** Filtering keeps only tokens of the list it filters. */
  lemma {:induction false} SignificantIsSubsequence(a: seq<SyntaxToken>)
    ensures forall x :: x in Significant(a) ==> x in a
  {
    if a != [] {
      SignificantIsSubsequence(a[1..]);
    }
  }

  /**
   * The token array the parser builds: free of white space and bad tokens, ending with the
   * single end-of-file token, every token with its text.
   */
  lemma TokenArrayShape(cc: CharClasses, text: string)
    requires Consistent(cc) && LexHalts(cc, text)
    ensures var tokens := TokenArray(LexFrom(cc, text, 0, |text|).value);
      && EndsWithEndOfFile(tokens) && SingleEndOfFile(tokens) && AllHaveText(tokens)
      && forall i :: 0 <= i < |tokens| ==> tokens[i].kind != WhiteSpaceToken && tokens[i].kind != BadToken
  {
    var run := LexFrom(cc, text, 0, |text|).value;
    DriveTokensWellFormed(Steps(cc, text), text, 0, |text|);
    SignificantIsSubsequence(run.tokens);
    var tokens := TokenArray(run);
    forall i | 0 <= i < |tokens| - 1
      ensures tokens[i].kind != EndOfFileToken && tokens[i].text.Some?
      ensures tokens[i].kind != WhiteSpaceToken && tokens[i].kind != BadToken
    {
      assert tokens[i] == Significant(run.tokens)[i];
      assert tokens[i] in run.tokens;
    }
  }

  /**
   * The parse of a text accounts for every token: the diagnostics are the lexer's followed by
   * one per token the parser synthesised, and with no diagnostic at all, reading the tree's
   * tokens left to right gives back the whole token array.
   */
  lemma ParseTextAccountsForTokens(cc: CharClasses, text: string)
    requires Consistent(cc) && LexHalts(cc, text)
    ensures var run := LexFrom(cc, text, 0, |text|).value; var p := ParseText(cc, text);
      var leaves := UnitLeaves(p.root);
      && |p.diagnostics| == |run.diagnostics| + (|leaves| - |WithText(leaves)|)
      && (p.diagnostics == [] ==> leaves == TokenArray(run))
  {
    var run := LexFrom(cc, text, 0, |text|).value;
    var tokens := TokenArray(run);
    TokenArrayShape(cc, text);
    ParseAccountsForTokens(tokens);
    CleanParseCoversTokens(tokens);
  }

  /** A number token in operand position is a literal, whatever the parent precedence. */
  lemma NumberOperand(tokens: seq<SyntaxToken>, i: nat, parentPrecedence: nat)
    requires EndsWithEndOfFile(tokens) && i < |tokens| && tokens[i].kind == NumberToken
    ensures OperandAt(tokens, i, parentPrecedence) == Parsed(NumberLiteral(tokens, i), i + 1, [])
  {
    assert PrimaryAt(tokens, i) == Parsed(NumberLiteral(tokens, i), i + 1, []);
  }

  /** The operator loop stops at a token that does not bind tighter than the parent. */
  lemma LoopStops(tokens: seq<SyntaxToken>, left: Parsed, parentPrecedence: nat)
    requires EndsWithEndOfFile(tokens) && left.next < |tokens|
    requires BinaryOperatorPrecedence(PeekAt(tokens, left.next).kind) <= parentPrecedence
    ensures BinaryLoop(tokens, left, parentPrecedence) == left
  {
  }

  /** `a = b = 1`: the right-hand side of an assignment is again an assignment. */
  lemma AssignmentNestsRight(tokens: seq<SyntaxToken>)
    requires |tokens| == 6 && tokens[5].kind == EndOfFileToken
    requires tokens[0].kind == IdentifierToken && tokens[1].kind == EqualsToken
    requires tokens[2].kind == IdentifierToken && tokens[3].kind == EqualsToken && tokens[4].kind == NumberToken
    ensures AssignmentAt(tokens, 0)
      == Parsed(Assignment(tokens[0], tokens[1], Assignment(tokens[2], tokens[3], NumberLiteral(tokens, 4))), 5, [])
  {
    var one := Parsed(NumberLiteral(tokens, 4), 5, []);
    NumberOperand(tokens, 4, 0);
    LoopStops(tokens, one, 0);
    assert AssignmentAt(tokens, 4) == one;
    assert AssignmentAt(tokens, 2) == Parsed(Assignment(tokens[2], tokens[3], one.node), 5, []);
  }

  /**
   * `1 + 2 * 3`: of two infix operators, one binding tighter than the first takes the middle
   * operand, so it becomes the right child.
   */
  lemma TighterOperatorNestsRight(tokens: seq<SyntaxToken>)
    requires |tokens| == 6 && tokens[5].kind == EndOfFileToken
    requires tokens[0].kind == NumberToken && tokens[2].kind == NumberToken && tokens[4].kind == NumberToken
    requires 0 < BinaryOperatorPrecedence(tokens[1].kind) < BinaryOperatorPrecedence(tokens[3].kind)
    ensures AssignmentAt(tokens, 0)
      == Parsed(Binary(NumberLiteral(tokens, 0), tokens[1],
                       Binary(NumberLiteral(tokens, 2), tokens[3], NumberLiteral(tokens, 4))), 5, [])
  {
    var p1, p2 := BinaryOperatorPrecedence(tokens[1].kind), BinaryOperatorPrecedence(tokens[3].kind);
    var n0, n2, n4 := Parsed(NumberLiteral(tokens, 0), 1, []), Parsed(NumberLiteral(tokens, 2), 3, []), Parsed(NumberLiteral(tokens, 4), 5, []);
    NumberOperand(tokens, 4, p2);
    LoopStops(tokens, n4, p2);
    assert BinaryAt(tokens, 4, p2) == n4;
    var product := Parsed(Binary(n2.node, tokens[3], n4.node), 5, []);
    NumberOperand(tokens, 2, p1);
    BinaryLoopStep(tokens, n2, p1, p2, 4, n4);
    LoopStops(tokens, product, p1);
    assert BinaryAt(tokens, 2, p1) == product;
    var sum := Parsed(Binary(n0.node, tokens[1], product.node), 5, []);
    NumberOperand(tokens, 0, 0);
    BinaryLoopStep(tokens, n0, 0, p1, 2, product);
    LoopStops(tokens, sum, 0);
  }

  /**
   * `1 - 2 - 3`: of two infix operators, one binding no tighter than the first closes the
   * expression so far, which becomes its left child.
   */
  lemma LooserOperatorFoldsLeft(tokens: seq<SyntaxToken>)
    requires |tokens| == 6 && tokens[5].kind == EndOfFileToken
    requires tokens[0].kind == NumberToken && tokens[2].kind == NumberToken && tokens[4].kind == NumberToken
    requires 0 < BinaryOperatorPrecedence(tokens[3].kind) <= BinaryOperatorPrecedence(tokens[1].kind)
    ensures AssignmentAt(tokens, 0)
      == Parsed(Binary(Binary(NumberLiteral(tokens, 0), tokens[1], NumberLiteral(tokens, 2)),
                       tokens[3], NumberLiteral(tokens, 4)), 5, [])
  {
    var p1, p2 := BinaryOperatorPrecedence(tokens[1].kind), BinaryOperatorPrecedence(tokens[3].kind);
    var n0, n2, n4 := Parsed(NumberLiteral(tokens, 0), 1, []), Parsed(NumberLiteral(tokens, 2), 3, []), Parsed(NumberLiteral(tokens, 4), 5, []);
    NumberOperand(tokens, 2, p1);
    LoopStops(tokens, n2, p1);
    assert BinaryAt(tokens, 2, p1) == n2;
    var first := Parsed(Binary(n0.node, tokens[1], n2.node), 3, []);
    NumberOperand(tokens, 4, p2);
    LoopStops(tokens, n4, p2);
    assert BinaryAt(tokens, 4, p2) == n4;
    var both := Parsed(Binary(first.node, tokens[3], n4.node), 5, []);
    NumberOperand(tokens, 0, 0);
    BinaryLoopStep(tokens, n0, 0, p1, 2, n2);
    BinaryLoopStep(tokens, first, 0, p2, 4, n4);
    LoopStops(tokens, both, 0);
  }

  /** `-1 * 2`: a prefix operator takes only the operand right after it, before any infix operator. */
  lemma PrefixOperatorBindsOperand(tokens: seq<SyntaxToken>)
    requires |tokens| == 5 && tokens[4].kind == EndOfFileToken
    requires UnaryOperatorPrecedence(tokens[0].kind) != 0 && BinaryOperatorPrecedence(tokens[2].kind) != 0
    requires tokens[1].kind == NumberToken && tokens[3].kind == NumberToken
    ensures AssignmentAt(tokens, 0)
      == Parsed(Binary(Unary(tokens[0], NumberLiteral(tokens, 1)), tokens[2], NumberLiteral(tokens, 3)), 4, [])
  {
    var u, p := UnaryOperatorPrecedence(tokens[0].kind), BinaryOperatorPrecedence(tokens[2].kind);
    UnaryPrecedences(tokens[0].kind);
    BinaryPrecedences(tokens[2].kind);
    var n1, n3 := Parsed(NumberLiteral(tokens, 1), 2, []), Parsed(NumberLiteral(tokens, 3), 4, []);
    NumberOperand(tokens, 1, u);
    LoopStops(tokens, n1, u);
    assert BinaryAt(tokens, 1, u) == n1;
    var negated := Parsed(Unary(tokens[0], n1.node), 2, []);
    assert OperandAt(tokens, 0, 0) == negated;
    NumberOperand(tokens, 3, p);
    LoopStops(tokens, n3, p);
    assert BinaryAt(tokens, 3, p) == n3;
    var product := Parsed(Binary(negated.node, tokens[2], n3.node), 4, []);
    BinaryLoopStep(tokens, negated, 0, p, 3, n3);
    LoopStops(tokens, product, 0);
  }

  /**
   * The shape precedence climbing gives a tree parsed under `parentPrecedence`, outside
   * parentheses: every infix node binds tighter than the parent; its right child binds
   * strictly tighter than it does and its left child at least as tightly, so operators of
   * one level fold left; and a prefix operator binds at least as tightly as the parent, its
   * operand being parsed at the prefix operator's own precedence. An assignment appears
   * only inside parentheses.
   */
  predicate Climbed(e: ExpressionSyntax, parentPrecedence: nat) {
    match e
    case Binary(l, op, r) =>
      var q := BinaryOperatorPrecedence(op.kind);
      && parentPrecedence < q && Climbed(l, parentPrecedence) && Climbed(r, q)
      && (l.Binary? ==> q <= BinaryOperatorPrecedence(l.operatorToken.kind))
    case Unary(op, operand) =>
      var u := UnaryOperatorPrecedence(op.kind);
      0 < u && parentPrecedence <= u && Climbed(operand, u)
    case Assignment(_, _, _) => false
    case _ => true
  }

  /** Where a parse under `parentPrecedence` stops: at a token that is no infix operator binding tighter. */
  predicate StopsAt(tokens: seq<SyntaxToken>, pos: nat, parentPrecedence: nat)
    requires EndsWithEndOfFile(tokens)
  {
    BinaryOperatorPrecedence(PeekAt(tokens, pos).kind) <= parentPrecedence
  }

  /** Every binary-expression parse, from any cursor over any token array, has the climbed shape. */
  lemma {:induction false} BinaryClimbs(tokens: seq<SyntaxToken>, pos: nat, parentPrecedence: nat)
    requires EndsWithEndOfFile(tokens) && pos < |tokens|
    ensures var r := BinaryAt(tokens, pos, parentPrecedence);
      Climbed(r.node, parentPrecedence) && StopsAt(tokens, r.next, parentPrecedence)
    decreases |tokens| - pos, 3
  {
    OperandClimbs(tokens, pos, parentPrecedence);
    LoopClimbs(tokens, OperandAt(tokens, pos, parentPrecedence), parentPrecedence);
  }

  /** The first operand is a prefix node or a primary, never an infix node. */
  lemma {:induction false} OperandClimbs(tokens: seq<SyntaxToken>, pos: nat, parentPrecedence: nat)
    requires EndsWithEndOfFile(tokens) && pos < |tokens|
    ensures var r := OperandAt(tokens, pos, parentPrecedence);
      Climbed(r.node, parentPrecedence) && !r.node.Binary?
    decreases |tokens| - pos, 2
  {
    var unary := UnaryOperatorPrecedence(PeekAt(tokens, pos).kind);
    if unary != 0 && unary >= parentPrecedence {
      BinaryClimbs(tokens, pos + 1, unary);
    }
  }

  /**
   * The operator loop keeps the shape: an infix node so far is followed by a token binding no
   * tighter than it, since its right operand stopped there.
   */
  lemma {:induction false} LoopClimbs(tokens: seq<SyntaxToken>, left: Parsed, parentPrecedence: nat)
    requires EndsWithEndOfFile(tokens) && left.next < |tokens|
    requires Climbed(left.node, parentPrecedence)
    requires left.node.Binary? ==> StopsAt(tokens, left.next, BinaryOperatorPrecedence(left.node.operatorToken.kind))
    ensures var r := BinaryLoop(tokens, left, parentPrecedence);
      Climbed(r.node, parentPrecedence) && StopsAt(tokens, r.next, parentPrecedence)
    decreases |tokens| - left.next, 1
  {
    var precedence := BinaryOperatorPrecedence(PeekAt(tokens, left.next).kind);
    if precedence != 0 && precedence > parentPrecedence {
      var right := BinaryAt(tokens, left.next + 1, precedence);
      BinaryClimbs(tokens, left.next + 1, precedence);
      var joined := Parsed(Binary(left.node, tokens[left.next], right.node), right.next, left.reported + right.reported);
      assert tokens[left.next] == PeekAt(tokens, left.next);
      LoopClimbs(tokens, joined, parentPrecedence);
    }
  }

  /** A chain of assignments ending in a climbed binary expression, the shape `ParseExpression` gives. */
  predicate ExpressionShaped(e: ExpressionSyntax) {
    match e
    case Assignment(_, _, right) => ExpressionShaped(right)
    case _ => Climbed(e, 0)
  }

  /** Every expression parse, from any cursor over any token array, is such a chain. */
  lemma {:induction false} AssignmentClimbs(tokens: seq<SyntaxToken>, pos: nat)
    requires EndsWithEndOfFile(tokens) && pos < |tokens|
    ensures ExpressionShaped(AssignmentAt(tokens, pos).node)
    decreases |tokens| - pos
  {
    if PeekAt(tokens, pos).kind == IdentifierToken && PeekAt(tokens, pos + 1).kind == EqualsToken {
      AssignmentClimbs(tokens, pos + 2);
    } else {
      BinaryClimbs(tokens, pos, 0);
    }
  }

  /** The operand of a prefix operator in a climbed tree is never a bare infix node: `-1 * 2` is `(-1) * 2`. */
  lemma PrefixOperandIsNoInfix(e: ExpressionSyntax, parentPrecedence: nat)
    requires Climbed(e, parentPrecedence) && e.Unary?
    ensures !e.operand.Binary?
  {
    if e.operand.Binary? {
      UnaryBindsTighterThanBinary(e.operatorToken.kind, e.operand.operatorToken.kind);
    }
  }
}
