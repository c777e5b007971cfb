/**
 * What the second earlier-generation parser promises: the token array it builds, that every token
 * a parse step passes over ends up in the tree in order with one diagnostic per synthesised token,
 * and the shapes of precedence, associativity, prefix operators, keywords and names.
 */
module McSyntaxParserProperties {
  import opened Options
  import opened Values
  import opened SyntaxKinds
  import opened SyntaxFacts
  import opened SyntaxTokens
  import opened SyntaxNodes
  import opened CharClass
  import opened TokenStreams
  import opened McSyntaxLexer
  import opened McSyntaxParser
  import MP = McParser
  import CP = McParserProperties
  import PP = MinskParserProperties
  import LP = McSyntaxLexerProperties

  /** A prefix node built from the operator at `pos` and an accounted operand after it. */
  lemma UnaryNodeAccounts(tokens: seq<SyntaxToken>, pos: nat, operand: MP.Parsed)
    requires PP.AllHaveText(tokens) && pos < |tokens| && CP.Accounts(tokens, After(pos), operand)
    ensures CP.Accounts(tokens, pos, MP.Parsed(Unary(tokens[pos], operand.node), operand.next, operand.reported))
  {
    PP.AccountsToken(tokens, pos);
    PP.AccountsJoin(tokens, pos, pos + 1, operand.next, [tokens[pos]], Leaves(operand.node), 0, |operand.reported|);
  }

  lemma {:induction false} ExpressionAccounts(tokens: seq<SyntaxToken>, pos: nat, parentPrecedence: nat)
    requires EndsWithEndOfFile(tokens) && PP.AllHaveText(tokens) && pos < |tokens|
    ensures CP.Accounts(tokens, pos, ExpressionAt(tokens, pos, parentPrecedence))
    decreases |tokens| - pos, 3
  {
    var first := OperandAt(tokens, pos, parentPrecedence);
    OperandAccounts(tokens, pos, parentPrecedence);
    LoopAccounts(tokens, pos, first, parentPrecedence);
  }

  lemma {:induction false} OperandAccounts(tokens: seq<SyntaxToken>, pos: nat, parentPrecedence: nat)
    requires EndsWithEndOfFile(tokens) && PP.AllHaveText(tokens) && pos < |tokens|
    ensures CP.Accounts(tokens, pos, OperandAt(tokens, pos, parentPrecedence))
    decreases |tokens| - pos, 2
  {
    var unary := UnaryOperatorPrecedence(PeekAt(tokens, pos).kind);
    if unary != 0 && unary >= parentPrecedence {
      ExpressionAccounts(tokens, After(pos), unary);
      UnaryNodeAccounts(tokens, pos, ExpressionAt(tokens, After(pos), unary));
    } else {
      PrimaryAccounts(tokens, pos);
    }
  }

  lemma {:induction false} LoopAccounts(tokens: seq<SyntaxToken>, start: nat, left: MP.Parsed, parentPrecedence: nat)
    requires EndsWithEndOfFile(tokens) && PP.AllHaveText(tokens) && left.next < |tokens|
    requires CP.Accounts(tokens, start, left)
    ensures CP.Accounts(tokens, start, BinaryLoop(tokens, left.node, left.next, left.reported, parentPrecedence))
    decreases |tokens| - left.next, 1
  {
    if TakesOperator(PeekAt(tokens, left.next).kind, parentPrecedence) {
      var precedence := BinaryOperatorPrecedence(tokens[left.next].kind);
      var right := ExpressionAt(tokens, After(left.next), precedence);
      ExpressionAccounts(tokens, After(left.next), precedence);
      CP.BinaryNodeAccounts(tokens, start, left, right);
      LoopAccounts(tokens, start, MP.Parsed(Binary(left.node, tokens[left.next], right.node), right.next,
                                            left.reported + right.reported), parentPrecedence);
    }
  }

  lemma {:induction false} PrimaryAccounts(tokens: seq<SyntaxToken>, pos: nat)
    requires EndsWithEndOfFile(tokens) && PP.AllHaveText(tokens) && pos < |tokens|
    ensures CP.Accounts(tokens, pos, PrimaryAt(tokens, pos))
    decreases |tokens| - pos, 1
  {
    var kind := tokens[pos].kind;
    if kind == OpenParenthesisToken {
      ParenthesizedAccounts(tokens, pos);
    } else if IsKeyword(kind) {
      PP.AccountsToken(tokens, pos);
    } else {
      var number := MP.MatchAt(tokens, pos, NumberToken);
      PrimaryOfNumber(tokens, pos, number);
      CP.MatchTokenAccounts(tokens, pos, NumberToken);
    }
  }

  /** The parenthesised case of `PrimaryAt`. */
  lemma {:induction false} PrimaryOfParenthesis(tokens: seq<SyntaxToken>, pos: nat)
    requires EndsWithEndOfFile(tokens) && pos < |tokens| && tokens[pos].kind == OpenParenthesisToken
    ensures After(pos) < |tokens|
    ensures var inner := ExpressionAt(tokens, After(pos), 0);
      var close := MP.MatchAt(tokens, inner.next, CloseParenthesisToken);
      PrimaryAt(tokens, pos)
        == MP.Parsed(Parenthesized(tokens[pos], inner.node, close.token), close.next, inner.reported + close.reported)
  {
  }

  lemma {:induction false} ParenthesizedAccounts(tokens: seq<SyntaxToken>, pos: nat)
    requires EndsWithEndOfFile(tokens) && PP.AllHaveText(tokens) && pos < |tokens|
    requires tokens[pos].kind == OpenParenthesisToken
    ensures CP.Accounts(tokens, pos, PrimaryAt(tokens, pos))
    decreases |tokens| - pos, 0
  {
    PrimaryOfParenthesis(tokens, pos);
    var open := tokens[pos];
    var inner := ExpressionAt(tokens, After(pos), 0);
    var close := MP.MatchAt(tokens, inner.next, CloseParenthesisToken);
    assert CP.Accounts(tokens, After(pos), inner) by {
      ExpressionAccounts(tokens, After(pos), 0);
    }
    CP.MatchTokenAccounts(tokens, inner.next, CloseParenthesisToken);
    PP.AccountsToken(tokens, pos);
    PP.AccountsJoin(tokens, pos, pos + 1, inner.next, [open], Leaves(inner.node), 0, |inner.reported|);
    PP.AccountsJoin(tokens, pos, inner.next, close.next, [open] + Leaves(inner.node), [close.token],
                    |inner.reported|, |close.reported|);
  }

  /**
   * `Parse` loses no token and invents none silently: the tokens of the tree that carry text are
   * the array's tokens up to where the parse stopped, in order, and the tree has one more token
   * than that for each diagnostic, the ones `MatchToken` synthesised.
   */
  lemma ParseAccountsForTokens(tokens: seq<SyntaxToken>)
    requires EndsWithEndOfFile(tokens) && PP.AllHaveText(tokens)
    ensures var r := UnitAt(tokens, 0);
      && WithText(CP.UnitLeaves(r)) == tokens[..r.next]
      && |CP.UnitLeaves(r)| == r.next + |r.reported|
  {
    var e := ExpressionAt(tokens, 0, 0);
    ExpressionAccounts(tokens, 0, 0);
    var eof := MP.MatchAt(tokens, e.next, EndOfFileToken);
    CP.MatchTokenAccounts(tokens, e.next, EndOfFileToken);
    PP.AccountsJoin(tokens, 0, e.next, eof.next, Leaves(e.node), [eof.token], |e.reported|, |eof.reported|);
    assert tokens[0..eof.next] == tokens[..eof.next];
  }

  /**
   * A parse without diagnostics covers the whole token array: reading the tree's tokens left to
   * right gives back exactly the array, the end of file included.
   */
  lemma CleanParseCoversTokens(tokens: seq<SyntaxToken>)
    requires EndsWithEndOfFile(tokens) && PP.AllHaveText(tokens) && PP.SingleEndOfFile(tokens)
    ensures var r := UnitAt(tokens, 0); r.reported == [] ==> CP.UnitLeaves(r) == tokens && r.next == |tokens|
  {
    var r := UnitAt(tokens, 0);
    if r.reported == [] {
      ParseAccountsForTokens(tokens);
      var e := ExpressionAt(tokens, 0, 0);
      assert MP.MatchAt(tokens, e.next, EndOfFileToken).reported == [];
      assert PeekAt(tokens, e.next).kind == EndOfFileToken;
      assert r.next == |tokens|;
      assert tokens[..r.next] == tokens;
      PP.WithTextOfAll(CP.UnitLeaves(r));
    }
  }

  /**
   * The token array the constructor builds: free of white space and bad tokens, ending with the
   * single end-of-file token, every token with its text.
   */
  lemma TokenArrayShape(cc: CharClasses, text: string)
    requires Consistent(cc)
    ensures var tokens := MP.TokenArray(LexFrom(cc, text, 0));
      && EndsWithEndOfFile(tokens) && PP.SingleEndOfFile(tokens) && PP.AllHaveText(tokens)
      && forall i :: 0 <= i < |tokens| ==> tokens[i].kind != WhiteSpaceToken && tokens[i].kind != BadToken
  {
    var run := LexFrom(cc, text, 0);
    LP.RunReportsFlagged(cc, text, 0);
    PP.SignificantIsSubsequence(run.tokens);
    var tokens := MP.TokenArray(run);
    forall i | 0 <= i < |tokens| - 1
      ensures tokens[i].kind != EndOfFileToken && tokens[i].text.Some?
      ensures tokens[i].kind != WhiteSpaceToken && tokens[i].kind != BadToken
    {
      assert tokens[i] == Significant(run.tokens)[i];
      assert tokens[i] in run.tokens;
    }
  }

  /**
   * `SyntaxTree.Parse(text)`: the lexer's diagnostics come first, then one per token the parser
   * synthesised; with no diagnostic at all, reading the tree's tokens left to right gives back the
   * whole token array.
   */
  lemma ParseTextAccountsForTokens(cc: CharClasses, text: string)
    requires Consistent(cc)
    ensures var run := LexFrom(cc, text, 0); var p := ParseText(cc, text);
      var leaves := Leaves(p.root) + [p.endOfFileToken];
      && |run.diagnostics| <= |p.diagnostics| && p.diagnostics[..|run.diagnostics|] == run.diagnostics
      && |p.diagnostics| == |run.diagnostics| + (|leaves| - |WithText(leaves)|)
      && (p.diagnostics == [] ==> leaves == MP.TokenArray(run))
  {
    var run := LexFrom(cc, text, 0);
    var tokens := MP.TokenArray(run);
    TokenArrayShape(cc, text);
    ParseAccountsForTokens(tokens);
    CleanParseCoversTokens(tokens);
    var p := ParseText(cc, text);
    assert p.diagnostics[..|run.diagnostics|] == run.diagnostics;
  }

  /** A number token in operand position is a literal, whatever the parent precedence. */
  lemma NumberOperand(tokens: seq<SyntaxToken>, i: nat, parentPrecedence: nat)
    requires EndsWithEndOfFile(tokens) && i < |tokens| && tokens[i].kind == NumberToken
    ensures OperandAt(tokens, i, parentPrecedence) == MP.Parsed(NumberLiteral(tokens, i), i + 1, [])
  {
    PrimaryOfNumber(tokens, i, MP.MatchAt(tokens, i, NumberToken));
  }

  /** A number followed by a token the loop does not take is a whole expression on its own. */
  lemma NumberExpression(tokens: seq<SyntaxToken>, i: nat, parentPrecedence: nat)
    requires EndsWithEndOfFile(tokens) && i + 1 < |tokens| && tokens[i].kind == NumberToken
    requires !TakesOperator(tokens[i + 1].kind, parentPrecedence)
    ensures ExpressionAt(tokens, i, parentPrecedence) == MP.Parsed(NumberLiteral(tokens, i), i + 1, [])
  {
    var n := MP.Parsed(NumberLiteral(tokens, i), i + 1, []);
    NumberOperand(tokens, i, parentPrecedence);
    BinaryLoopBounds(tokens, i, parentPrecedence, n.node, i + 1, []);
  }

  /** `true` and `false` are literals valued by their kind, with the keyword token. */
  lemma KeywordLiteral(tokens: seq<SyntaxToken>, i: nat, parentPrecedence: nat)
    requires EndsWithEndOfFile(tokens) && i < |tokens| && IsKeyword(tokens[i].kind)
    ensures OperandAt(tokens, i, parentPrecedence)
      == MP.Parsed(Literal(tokens[i], Some(Bool(tokens[i].kind == TrueKeyword))), i + 1, [])
  {
  }

  /**
   * `1 + 2 * 3`: of two infix operators, one binding tighter than the first takes the middle
   * operand, so it becomes the right child.
   */
  lemma TighterOperatorNestsRight(tokens: seq<SyntaxToken>)
    requires |tokens| == 6 && tokens[5].kind == EndOfFileToken
    requires tokens[0].kind == NumberToken && tokens[2].kind == NumberToken && tokens[4].kind == NumberToken
    requires 0 < BinaryOperatorPrecedence(tokens[1].kind) < BinaryOperatorPrecedence(tokens[3].kind)
    ensures ExpressionAt(tokens, 0, 0)
      == MP.Parsed(Binary(NumberLiteral(tokens, 0), tokens[1],
                          Binary(NumberLiteral(tokens, 2), tokens[3], NumberLiteral(tokens, 4))), 5, [])
  {
    var p1, p2 := BinaryOperatorPrecedence(tokens[1].kind), BinaryOperatorPrecedence(tokens[3].kind);
    var n0, n2, n4 := MP.Parsed(NumberLiteral(tokens, 0), 1, []), MP.Parsed(NumberLiteral(tokens, 2), 3, []), MP.Parsed(NumberLiteral(tokens, 4), 5, []);
    NumberExpression(tokens, 4, p2);
    var product := Binary(n2.node, tokens[3], n4.node);
    NumberOperand(tokens, 2, p1);
    BinaryLoopBounds(tokens, 2, p1, n2.node, 3, []);
    BinaryLoopStep(tokens, n2.node, 3, [], p1, n4);
    BinaryLoopBounds(tokens, 2, p1, product, 5, []);
    var sum := Binary(n0.node, tokens[1], product);
    NumberOperand(tokens, 0, 0);
    BinaryLoopBounds(tokens, 0, 0, n0.node, 1, []);
    BinaryLoopStep(tokens, n0.node, 1, [], 0, MP.Parsed(product, 5, []));
    BinaryLoopBounds(tokens, 0, 0, sum, 5, []);
  }

  /**
   * `1 - 2 - 3`: of two infix operators, one binding no tighter than the first closes the
   * expression so far, which becomes its left child.
   */
  lemma LooserOperatorFoldsLeft(tokens: seq<SyntaxToken>)
    requires |tokens| == 6 && tokens[5].kind == EndOfFileToken
    requires tokens[0].kind == NumberToken && tokens[2].kind == NumberToken && tokens[4].kind == NumberToken
    requires 0 < BinaryOperatorPrecedence(tokens[3].kind) <= BinaryOperatorPrecedence(tokens[1].kind)
    ensures ExpressionAt(tokens, 0, 0)
      == MP.Parsed(Binary(Binary(NumberLiteral(tokens, 0), tokens[1], NumberLiteral(tokens, 2)),
                          tokens[3], NumberLiteral(tokens, 4)), 5, [])
  {
    var p1, p2 := BinaryOperatorPrecedence(tokens[1].kind), BinaryOperatorPrecedence(tokens[3].kind);
    var n0, n2, n4 := MP.Parsed(NumberLiteral(tokens, 0), 1, []), MP.Parsed(NumberLiteral(tokens, 2), 3, []), MP.Parsed(NumberLiteral(tokens, 4), 5, []);
    NumberExpression(tokens, 2, p1);
    NumberExpression(tokens, 4, p2);
    var first := Binary(n0.node, tokens[1], n2.node);
    var both := Binary(first, tokens[3], n4.node);
    NumberOperand(tokens, 0, 0);
    BinaryLoopBounds(tokens, 0, 0, n0.node, 1, []);
    BinaryLoopStep(tokens, n0.node, 1, [], 0, n2);
    BinaryLoopStep(tokens, first, 3, [], 0, n4);
    BinaryLoopBounds(tokens, 0, 0, both, 5, []);
  }

  /** `-1 * 2`: a prefix operator takes only the operand right after it, before any infix operator. */
  lemma PrefixOperatorBindsOperand(tokens: seq<SyntaxToken>)
    requires |tokens| == 5 && tokens[4].kind == EndOfFileToken
    requires UnaryOperatorPrecedence(tokens[0].kind) != 0 && BinaryOperatorPrecedence(tokens[2].kind) != 0
    requires tokens[1].kind == NumberToken && tokens[3].kind == NumberToken
    ensures ExpressionAt(tokens, 0, 0)
      == MP.Parsed(Binary(Unary(tokens[0], NumberLiteral(tokens, 1)), tokens[2], NumberLiteral(tokens, 3)), 4, [])
  {
    var u, p := UnaryOperatorPrecedence(tokens[0].kind), BinaryOperatorPrecedence(tokens[2].kind);
    UnaryPrecedences(tokens[0].kind);
    BinaryPrecedences(tokens[2].kind);
    var n1, n3 := MP.Parsed(NumberLiteral(tokens, 1), 2, []), MP.Parsed(NumberLiteral(tokens, 3), 4, []);
    NumberExpression(tokens, 1, u);
    var negated := Unary(tokens[0], n1.node);
    assert OperandAt(tokens, 0, 0) == MP.Parsed(negated, 2, []);
    NumberExpression(tokens, 3, p);
    var product := Binary(negated, tokens[2], n3.node);
    BinaryLoopBounds(tokens, 0, 0, negated, 2, []);
    BinaryLoopStep(tokens, negated, 2, [], 0, n3);
    BinaryLoopBounds(tokens, 0, 0, product, 4, []);
  }

  /**
   * `1 * -2`: a prefix operator after an infix one is taken, since it binds at least as tightly,
   * and becomes the right operand.
   */
  lemma PrefixOperatorAfterInfix(tokens: seq<SyntaxToken>)
    requires |tokens| == 5 && tokens[4].kind == EndOfFileToken
    requires BinaryOperatorPrecedence(tokens[1].kind) != 0 && UnaryOperatorPrecedence(tokens[2].kind) != 0
    requires tokens[0].kind == NumberToken && tokens[3].kind == NumberToken
    ensures ExpressionAt(tokens, 0, 0)
      == MP.Parsed(Binary(NumberLiteral(tokens, 0), tokens[1], Unary(tokens[2], NumberLiteral(tokens, 3))), 4, [])
  {
    var p, u := BinaryOperatorPrecedence(tokens[1].kind), UnaryOperatorPrecedence(tokens[2].kind);
    UnaryPrecedences(tokens[2].kind);
    BinaryPrecedences(tokens[1].kind);
    var n0, n3 := MP.Parsed(NumberLiteral(tokens, 0), 1, []), MP.Parsed(NumberLiteral(tokens, 3), 4, []);
    NumberExpression(tokens, 3, u);
    var negated := Unary(tokens[2], n3.node);
    assert OperandAt(tokens, 2, p) == MP.Parsed(negated, 4, []);
    BinaryLoopBounds(tokens, 2, p, negated, 4, []);
    var product := Binary(n0.node, tokens[1], negated);
    NumberOperand(tokens, 0, 0);
    BinaryLoopBounds(tokens, 0, 0, n0.node, 1, []);
    BinaryLoopStep(tokens, n0.node, 1, [], 0, MP.Parsed(negated, 4, []));
    BinaryLoopBounds(tokens, 0, 0, product, 4, []);
  }

  /**
   * A name is no expression here: it becomes a synthesised number literal with one diagnostic,
   * stays unconsumed, and then fails to match the end of file, which adds a second diagnostic.
   */
  lemma NameIsUnexpected(tokens: seq<SyntaxToken>)
    requires |tokens| == 2 && tokens[0].kind == IdentifierToken && tokens[1].kind == EndOfFileToken
    ensures var missing := Literal(SyntaxToken(NumberToken, tokens[0].position, None, None), None);
      UnitAt(tokens, 0)
        == MP.ParsedTree(missing, SyntaxToken(EndOfFileToken, tokens[0].position, None, None), 0,
                         [MP.UnexpectedTokenMessage(IdentifierToken, NumberToken),
                          MP.UnexpectedTokenMessage(IdentifierToken, EndOfFileToken)])
  {
    var missing := Literal(SyntaxToken(NumberToken, tokens[0].position, None, None), None);
    PrimaryOfNumber(tokens, 0, MP.MatchAt(tokens, 0, NumberToken));
    BinaryLoopBounds(tokens, 0, 0, missing, 0, [MP.UnexpectedTokenMessage(IdentifierToken, NumberToken)]);
  }

  /** Every expression parse, from any cursor over any token array, has the climbed shape of the later parser. */
  lemma {:induction false} ExpressionClimbs(tokens: seq<SyntaxToken>, pos: nat, parentPrecedence: nat)
    requires EndsWithEndOfFile(tokens) && pos < |tokens|
    ensures var r := ExpressionAt(tokens, pos, parentPrecedence);
      PP.Climbed(r.node, parentPrecedence) && PP.StopsAt(tokens, r.next, parentPrecedence)
    decreases |tokens| - pos, 3
  {
    var first := OperandAt(tokens, pos, parentPrecedence);
    OperandClimbs(tokens, pos, parentPrecedence);
    LoopClimbs(tokens, first.node, first.next, first.reported, parentPrecedence);
  }

  /** The first operand is a prefix node or a primary, never an infix node. */
  lemma {:induction false} OperandClimbs(tokens: seq<SyntaxToken>, pos: nat, parentPrecedence: nat)
    requires EndsWithEndOfFile(tokens) && pos < |tokens|
    ensures var r := OperandAt(tokens, pos, parentPrecedence);
      PP.Climbed(r.node, parentPrecedence) && !r.node.Binary?
    decreases |tokens| - pos, 2
  {
    var unary := UnaryOperatorPrecedence(PeekAt(tokens, pos).kind);
    if unary != 0 && unary >= parentPrecedence {
      ExpressionClimbs(tokens, After(pos), unary);
    }
  }

  /** The operator loop keeps the shape, as in the later parser. */
  lemma {:induction false} LoopClimbs(tokens: seq<SyntaxToken>, left: ExpressionSyntax, pos: nat, reported: seq<string>,
                                      parentPrecedence: nat)
    requires EndsWithEndOfFile(tokens) && pos < |tokens|
    requires PP.Climbed(left, parentPrecedence)
    requires left.Binary? ==> PP.StopsAt(tokens, pos, BinaryOperatorPrecedence(left.operatorToken.kind))
    ensures var r := BinaryLoop(tokens, left, pos, reported, parentPrecedence);
      PP.Climbed(r.node, parentPrecedence) && PP.StopsAt(tokens, r.next, parentPrecedence)
    decreases |tokens| - pos, 1
  {
    var precedence := BinaryOperatorPrecedence(PeekAt(tokens, pos).kind);
    if precedence != 0 && precedence > parentPrecedence {
      var right := ExpressionAt(tokens, After(pos), precedence);
      ExpressionClimbs(tokens, After(pos), precedence);
      assert tokens[pos] == PeekAt(tokens, pos);
      LoopClimbs(tokens, Binary(left, tokens[pos], right.node), right.next, reported + right.reported, parentPrecedence);
    }
  }
}
