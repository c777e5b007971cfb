/**
 * What the first earlier-generation parser promises: the token array it builds, that every token a
 * parse step passes over ends up in the tree in order with one diagnostic per synthesised token,
 * and the shapes of `1 + 2 * 3`, `1 - 2 - 3` and `-1`.
 */
module McParserProperties {
  import opened Options
  import opened SyntaxKinds
  import opened SyntaxTokens
  import opened SyntaxNodes
  import opened CharClass
  import opened TokenStreams
  import opened McLexer
  import opened McParser
  import PP = MinskParserProperties
  import LP = McLexerProperties

  /**
   * A parse step from `start` accounts for the tokens it passes over: the tokens of its node that
   * carry text are exactly `tokens[start..next]`, and every other token of the node (one the parser
   * synthesised) comes with one diagnostic.
   */
  ghost predicate Accounts(tokens: seq<SyntaxToken>, start: nat, p: Parsed) {
    && start <= p.next <= |tokens|
    && WithText(Leaves(p.node)) == tokens[start..p.next]
    && |Leaves(p.node)| == p.next - start + |p.reported|
  }

  /** `MatchToken` accounts for its token: consumed with its text, or synthesised with one diagnostic. */
  lemma MatchTokenAccounts(tokens: seq<SyntaxToken>, pos: nat, kind: SyntaxKind)
    requires EndsWithEndOfFile(tokens) && PP.AllHaveText(tokens) && pos < |tokens|
    ensures var m := MatchAt(tokens, pos, kind);
      && pos <= m.next <= |tokens|
      && WithText([m.token]) == tokens[pos..m.next]
      && 1 == m.next - pos + |m.reported|
  {
    var m := MatchAt(tokens, pos, kind);
    PP.WithTextOne(m.token);
    if tokens[pos].kind == kind {
      assert tokens[pos..pos + 1] == [tokens[pos]];
    }
  }

  /** A binary node built from an accounted left operand, the operator after it and an accounted right operand. */
  lemma BinaryNodeAccounts(tokens: seq<SyntaxToken>, start: nat, left: Parsed, right: Parsed)
    requires PP.AllHaveText(tokens) && left.next < |tokens|
    requires Accounts(tokens, start, left) && Accounts(tokens, After(left.next), right)
    ensures Accounts(tokens, start, Parsed(Binary(left.node, tokens[left.next], right.node), right.next,
                                           left.reported + right.reported))
  {
    var op := tokens[left.next];
    PP.AccountsToken(tokens, left.next);
    PP.AccountsJoin(tokens, start, left.next, left.next + 1, Leaves(left.node), [op], |left.reported|, 0);
    PP.AccountsJoin(tokens, start, left.next + 1, right.next, Leaves(left.node) + [op], Leaves(right.node),
                    |left.reported|, |right.reported|);
  }

  lemma {:induction false} TermAccounts(tokens: seq<SyntaxToken>, pos: nat)
    requires EndsWithEndOfFile(tokens) && PP.AllHaveText(tokens) && pos < |tokens|
    ensures Accounts(tokens, pos, TermAt(tokens, pos))
    decreases |tokens| - pos, 4
  {
    var first := FactorAt(tokens, pos);
    FactorAccounts(tokens, pos);
    TermLoopAccounts(tokens, pos, first);
  }

  lemma {:induction false} TermLoopAccounts(tokens: seq<SyntaxToken>, start: nat, left: Parsed)
    requires EndsWithEndOfFile(tokens) && PP.AllHaveText(tokens) && left.next < |tokens|
    requires Accounts(tokens, start, left)
    ensures Accounts(tokens, start, TermLoop(tokens, left.node, left.next, left.reported))
    decreases |tokens| - left.next, 3
  {
    if IsTermOperator(PeekAt(tokens, left.next).kind) {
      var right := FactorAt(tokens, After(left.next));
      FactorAccounts(tokens, After(left.next));
      BinaryNodeAccounts(tokens, start, left, right);
      TermLoopAccounts(tokens, start, Parsed(Binary(left.node, tokens[left.next], right.node), right.next,
                                             left.reported + right.reported));
    }
  }

  lemma {:induction false} FactorAccounts(tokens: seq<SyntaxToken>, pos: nat)
    requires EndsWithEndOfFile(tokens) && PP.AllHaveText(tokens) && pos < |tokens|
    ensures Accounts(tokens, pos, FactorAt(tokens, pos))
    decreases |tokens| - pos, 2
  {
    var first := PrimaryAt(tokens, pos);
    PrimaryAccounts(tokens, pos);
    FactorLoopAccounts(tokens, pos, first);
  }

  lemma {:induction false} FactorLoopAccounts(tokens: seq<SyntaxToken>, start: nat, left: Parsed)
    requires EndsWithEndOfFile(tokens) && PP.AllHaveText(tokens) && left.next < |tokens|
    requires Accounts(tokens, start, left)
    ensures Accounts(tokens, start, FactorLoop(tokens, left.node, left.next, left.reported))
    decreases |tokens| - left.next, 1
  {
    if IsFactorOperator(PeekAt(tokens, left.next).kind) {
      var right := PrimaryAt(tokens, After(left.next));
      PrimaryAccounts(tokens, After(left.next));
      BinaryNodeAccounts(tokens, start, left, right);
      FactorLoopAccounts(tokens, start, Parsed(Binary(left.node, tokens[left.next], right.node), right.next,
                                               left.reported + right.reported));
    }
  }

  lemma {:induction false} PrimaryAccounts(tokens: seq<SyntaxToken>, pos: nat)
    requires EndsWithEndOfFile(tokens) && PP.AllHaveText(tokens) && pos < |tokens|
    ensures Accounts(tokens, pos, PrimaryAt(tokens, pos))
    decreases |tokens| - pos, 1
  {
    if tokens[pos].kind == OpenParenthesisToken {
      ParenthesizedAccounts(tokens, pos);
    } else {
      var number := MatchAt(tokens, pos, NumberToken);
      PrimaryOfNumber(tokens, pos, number);
      MatchTokenAccounts(tokens, pos, NumberToken);
    }
  }

  /** The parenthesised case of `PrimaryAt`. */
  lemma {:induction false} PrimaryOfParenthesis(tokens: seq<SyntaxToken>, pos: nat)
    requires EndsWithEndOfFile(tokens) && pos < |tokens| && tokens[pos].kind == OpenParenthesisToken
    ensures After(pos) < |tokens|
    ensures var inner := TermAt(tokens, After(pos)); var close := MatchAt(tokens, inner.next, CloseParenthesisToken);
      PrimaryAt(tokens, pos)
        == Parsed(Parenthesized(tokens[pos], inner.node, close.token), close.next, inner.reported + close.reported)
  {
  }

  lemma {:induction false} ParenthesizedAccounts(tokens: seq<SyntaxToken>, pos: nat)
    requires EndsWithEndOfFile(tokens) && PP.AllHaveText(tokens) && pos < |tokens|
    requires tokens[pos].kind == OpenParenthesisToken
    ensures Accounts(tokens, pos, PrimaryAt(tokens, pos))
    decreases |tokens| - pos, 0
  {
    PrimaryOfParenthesis(tokens, pos);
    var open := tokens[pos];
    var inner := TermAt(tokens, After(pos));
    var close := MatchAt(tokens, inner.next, CloseParenthesisToken);
    assert Accounts(tokens, After(pos), inner) by {
      TermAccounts(tokens, After(pos));
    }
    MatchTokenAccounts(tokens, inner.next, CloseParenthesisToken);
    PP.AccountsToken(tokens, pos);
    PP.AccountsJoin(tokens, pos, pos + 1, inner.next, [open], Leaves(inner.node), 0, |inner.reported|);
    PP.AccountsJoin(tokens, pos, inner.next, close.next, [open] + Leaves(inner.node), [close.token],
                    |inner.reported|, |close.reported|);
  }

  /** The tokens of a parse, read left to right: the expression's, then the end of file. */
  function UnitLeaves(r: ParsedTree): seq<SyntaxToken> {
    Leaves(r.root) + [r.endOfFileToken]
  }

  /**
   * `Parse` loses no token and invents none silently: the tokens of the tree that carry text are
   * the array's tokens up to where the parse stopped, in order, and the tree has one more token
   * than that for each diagnostic, the ones `MatchToken` synthesised.
   */
  lemma ParseAccountsForTokens(tokens: seq<SyntaxToken>)
    requires EndsWithEndOfFile(tokens) && PP.AllHaveText(tokens)
    ensures var r := UnitAt(tokens, 0);
      && WithText(UnitLeaves(r)) == tokens[..r.next]
      && |UnitLeaves(r)| == r.next + |r.reported|
  {
    var e := TermAt(tokens, 0);
    TermAccounts(tokens, 0);
    var eof := MatchAt(tokens, e.next, EndOfFileToken);
    MatchTokenAccounts(tokens, e.next, EndOfFileToken);
    PP.AccountsJoin(tokens, 0, e.next, eof.next, Leaves(e.node), [eof.token], |e.reported|, |eof.reported|);
    assert tokens[0..eof.next] == tokens[..eof.next];
  }

  /**
   * A parse without diagnostics covers the whole token array: reading the tree's tokens left to
   * right gives back exactly the array, the end of file included.
   */
  lemma CleanParseCoversTokens(tokens: seq<SyntaxToken>)
    requires EndsWithEndOfFile(tokens) && PP.AllHaveText(tokens) && PP.SingleEndOfFile(tokens)
    ensures var r := UnitAt(tokens, 0); r.reported == [] ==> UnitLeaves(r) == tokens && r.next == |tokens|
  {
    var r := UnitAt(tokens, 0);
    if r.reported == [] {
      ParseAccountsForTokens(tokens);
      var e := TermAt(tokens, 0);
      assert MatchAt(tokens, e.next, EndOfFileToken).reported == [];
      assert PeekAt(tokens, e.next).kind == EndOfFileToken;
      assert r.next == |tokens|;
      assert tokens[..r.next] == tokens;
      PP.WithTextOfAll(UnitLeaves(r));
    }
  }

  /**
   * The token array the constructor builds: free of white space and bad tokens, ending with the
   * single end-of-file token, every token with its text.
   */
  lemma TokenArrayShape(cc: CharClasses, text: string)
    requires Consistent(cc)
    ensures var tokens := TokenArray(LexFrom(cc, text, 0));
      && EndsWithEndOfFile(tokens) && PP.SingleEndOfFile(tokens) && PP.AllHaveText(tokens)
      && forall i :: 0 <= i < |tokens| ==> tokens[i].kind != WhiteSpaceToken && tokens[i].kind != BadToken
  {
    var run := LexFrom(cc, text, 0);
    LP.RunSpellsText(cc, text, 0);
    PP.SignificantIsSubsequence(run.tokens);
    var tokens := TokenArray(run);
    forall i | 0 <= i < |tokens| - 1
      ensures tokens[i].kind != EndOfFileToken && tokens[i].text.Some?
      ensures tokens[i].kind != WhiteSpaceToken && tokens[i].kind != BadToken
    {
      assert tokens[i] == Significant(run.tokens)[i];
      assert tokens[i] in run.tokens;
    }
  }

  /**
   * `SyntaxTree.Parse(text)`: the lexer's diagnostics come first, then one per token the parser
   * synthesised; with no diagnostic at all, reading the tree's tokens left to right gives back the
   * whole token array.
   */
  lemma ParseTextAccountsForTokens(cc: CharClasses, text: string)
    requires Consistent(cc)
    ensures var run := LexFrom(cc, text, 0); var p := ParseText(cc, text);
      var leaves := Leaves(p.root) + [p.endOfFileToken];
      && |run.diagnostics| <= |p.diagnostics| && p.diagnostics[..|run.diagnostics|] == run.diagnostics
      && |p.diagnostics| == |run.diagnostics| + (|leaves| - |WithText(leaves)|)
      && (p.diagnostics == [] ==> leaves == TokenArray(run))
  {
    var run := LexFrom(cc, text, 0);
    var tokens := TokenArray(run);
    TokenArrayShape(cc, text);
    ParseAccountsForTokens(tokens);
    CleanParseCoversTokens(tokens);
    var p := ParseText(cc, text);
    assert p.diagnostics[..|run.diagnostics|] == run.diagnostics;
  }

  /** A number followed by a token that is no operator of that level is a factor, and a term, on its own. */
  lemma NumberFactor(tokens: seq<SyntaxToken>, i: nat)
    requires EndsWithEndOfFile(tokens) && i + 1 < |tokens| && tokens[i].kind == NumberToken
    requires !IsFactorOperator(tokens[i + 1].kind)
    ensures FactorAt(tokens, i) == Parsed(NumberLiteral(tokens, i), i + 1, [])
  {
    PrimaryOfNumber(tokens, i, MatchAt(tokens, i, NumberToken));
  }

  /** `1 + 2 * 3`: `*` binds tighter than `+`, so it takes the middle operand and is the right child. */
  lemma FactorNestsRight(tokens: seq<SyntaxToken>)
    requires |tokens| == 6 && tokens[5].kind == EndOfFileToken
    requires tokens[0].kind == NumberToken && tokens[2].kind == NumberToken && tokens[4].kind == NumberToken
    requires IsTermOperator(tokens[1].kind) && IsFactorOperator(tokens[3].kind)
    ensures TermAt(tokens, 0).node
      == Binary(NumberLiteral(tokens, 0), tokens[1], Binary(NumberLiteral(tokens, 2), tokens[3], NumberLiteral(tokens, 4)))
    ensures TermAt(tokens, 0).next == 5 && TermAt(tokens, 0).reported == []
  {
    NumberFactor(tokens, 0);
    NumberFactor(tokens, 4);
    var two := NumberLiteral(tokens, 2);
    PrimaryOfNumber(tokens, 2, MatchAt(tokens, 2, NumberToken));
    PrimaryOfNumber(tokens, 4, MatchAt(tokens, 4, NumberToken));
    FactorLoopStep(tokens, two, 3, [], PrimaryAt(tokens, 4));
    assert FactorAt(tokens, 2) == Parsed(Binary(two, tokens[3], NumberLiteral(tokens, 4)), 5, []);
    TermLoopStep(tokens, NumberLiteral(tokens, 0), 1, [], FactorAt(tokens, 2));
  }

  /** `1 - 2 - 3`: operators of one level fold to the left. */
  lemma TermFoldsLeft(tokens: seq<SyntaxToken>)
    requires |tokens| == 6 && tokens[5].kind == EndOfFileToken
    requires tokens[0].kind == NumberToken && tokens[2].kind == NumberToken && tokens[4].kind == NumberToken
    requires IsTermOperator(tokens[1].kind) && IsTermOperator(tokens[3].kind)
    ensures TermAt(tokens, 0)
      == Parsed(Binary(Binary(NumberLiteral(tokens, 0), tokens[1], NumberLiteral(tokens, 2)), tokens[3], NumberLiteral(tokens, 4)), 5, [])
  {
    NumberFactor(tokens, 0);
    NumberFactor(tokens, 2);
    NumberFactor(tokens, 4);
    var first := Binary(NumberLiteral(tokens, 0), tokens[1], NumberLiteral(tokens, 2));
    TermLoopStep(tokens, NumberLiteral(tokens, 0), 1, [], FactorAt(tokens, 2));
    TermLoopStep(tokens, first, 3, [], FactorAt(tokens, 4));
  }

  /** `-1`: there is no unary operator, so the `-` is an infix operator after a synthesised number with one diagnostic. */
  lemma MinusWithoutLeftOperand(tokens: seq<SyntaxToken>)
    requires |tokens| == 3 && tokens[0].kind == MinusToken && tokens[1].kind == NumberToken && tokens[2].kind == EndOfFileToken
    ensures TermAt(tokens, 0)
      == Parsed(Binary(Literal(SyntaxToken(NumberToken, tokens[0].position, None, None), None), tokens[0], NumberLiteral(tokens, 1)),
                2, [UnexpectedTokenMessage(MinusToken, NumberToken)])
  {
    var synthesised := Literal(SyntaxToken(NumberToken, tokens[0].position, None, None), None);
    PrimaryOfNumber(tokens, 0, MatchAt(tokens, 0, NumberToken));
    assert FactorAt(tokens, 0) == Parsed(synthesised, 0, [UnexpectedTokenMessage(MinusToken, NumberToken)]);
    NumberFactor(tokens, 1);
    TermLoopStep(tokens, synthesised, 0, [UnexpectedTokenMessage(MinusToken, NumberToken)], FactorAt(tokens, 1));
  }

  /** A primary expression: a literal or a parenthesised expression. */
  predicate Atomic(e: ExpressionSyntax) {
    e.Literal? || e.Parenthesized?
  }

  /** The shape `ParseFactor` gives: primaries joined by `*` and `/`, folded to the left. */
  predicate FactorShaped(e: ExpressionSyntax) {
    match e
    case Binary(l, op, r) => IsFactorOperator(op.kind) && FactorShaped(l) && Atomic(r)
    case _ => Atomic(e)
  }

  /** The shape `ParseTerm` gives: factors joined by `+` and `-`, folded to the left. */
  predicate TermShaped(e: ExpressionSyntax) {
    || FactorShaped(e)
    || (e.Binary? && IsTermOperator(e.operatorToken.kind) && TermShaped(e.left) && FactorShaped(e.right))
  }

  /** The `* /` loop keeps the factor shape and stops at a token that is no `*` or `/`. */
  lemma {:induction false} FactorLoopShapes(tokens: seq<SyntaxToken>, left: ExpressionSyntax, pos: nat, reported: seq<string>)
    requires EndsWithEndOfFile(tokens) && pos < |tokens| && FactorShaped(left)
    ensures var r := FactorLoop(tokens, left, pos, reported);
      FactorShaped(r.node) && !IsFactorOperator(PeekAt(tokens, r.next).kind)
    decreases |tokens| - pos
  {
    if IsFactorOperator(PeekAt(tokens, pos).kind) {
      var right := PrimaryAt(tokens, After(pos));
      assert tokens[pos] == PeekAt(tokens, pos);
      FactorLoopShapes(tokens, Binary(left, tokens[pos], right.node), right.next, reported + right.reported);
    }
  }

  /** Every factor parse, from any cursor over any token array, has the factor shape: `*` and `/` fold left. */
  lemma FactorShapes(tokens: seq<SyntaxToken>, pos: nat)
    requires EndsWithEndOfFile(tokens) && pos < |tokens|
    ensures var r := FactorAt(tokens, pos);
      FactorShaped(r.node) && !IsFactorOperator(PeekAt(tokens, r.next).kind)
  {
    var first := PrimaryAt(tokens, pos);
    FactorLoopShapes(tokens, first.node, first.next, first.reported);
  }

  /** The `+ -` loop keeps the term shape and stops at a token that is no infix operator. */
  lemma {:induction false} TermLoopShapes(tokens: seq<SyntaxToken>, left: ExpressionSyntax, pos: nat, reported: seq<string>)
    requires EndsWithEndOfFile(tokens) && pos < |tokens| && TermShaped(left)
    requires !IsFactorOperator(PeekAt(tokens, pos).kind)
    ensures var r := TermLoop(tokens, left, pos, reported);
      TermShaped(r.node) && !IsTermOperator(PeekAt(tokens, r.next).kind) && !IsFactorOperator(PeekAt(tokens, r.next).kind)
    decreases |tokens| - pos
  {
    if IsTermOperator(PeekAt(tokens, pos).kind) {
      var right := FactorAt(tokens, After(pos));
      FactorShapes(tokens, After(pos));
      assert tokens[pos] == PeekAt(tokens, pos);
      TermLoopShapes(tokens, Binary(left, tokens[pos], right.node), right.next, reported + right.reported);
    }
  }

  /**
   * Every expression parse, from any cursor over any token array, has the term shape: `*` and `/`
   * bind tighter than `+` and `-`, and operators of one level fold left.
   */
  lemma TermShapes(tokens: seq<SyntaxToken>, pos: nat)
    requires EndsWithEndOfFile(tokens) && pos < |tokens|
    ensures var r := TermAt(tokens, pos);
      TermShaped(r.node) && !IsTermOperator(PeekAt(tokens, r.next).kind) && !IsFactorOperator(PeekAt(tokens, r.next).kind)
  {
    var first := FactorAt(tokens, pos);
    FactorShapes(tokens, pos);
    TermLoopShapes(tokens, first.node, first.next, first.reported);
  }
}
