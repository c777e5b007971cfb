/**
 * What the parsers of both generations share about their token arrays: the filter that drops
 * white space and bad tokens, the end-of-file shape, and the clamped look-up.
 */
module TokenStreams {
  import opened SyntaxKinds
  import opened SyntaxTokens

  /** A token array the parser can run on: it is non-empty and ends with the end-of-file token. */
  predicate EndsWithEndOfFile(tokens: seq<SyntaxToken>) {
    |tokens| > 0 && tokens[|tokens| - 1].kind == EndOfFileToken
  }

  /** The token array keeps every lexed token except white space and bad tokens. */
  function Significant(tokens: seq<SyntaxToken>): (r: seq<SyntaxToken>)
    ensures |r| <= |tokens|
    ensures forall i :: 0 <= i < |r| ==> r[i].kind != WhiteSpaceToken && r[i].kind != BadToken
  {
    if tokens == [] then []
    else
      var rest := Significant(tokens[1..]);
      if tokens[0].kind != WhiteSpaceToken && tokens[0].kind != BadToken then [tokens[0]] + rest else rest
  }

  /** Filtering distributes over concatenation. */
  lemma {:induction false} SignificantAppend(a: seq<SyntaxToken>, b: seq<SyntaxToken>)
    ensures Significant(a + b) == Significant(a) + Significant(b)
  {
    if a == [] {
      assert a + b == b;
    } else {
      assert (a + b)[1..] == a[1..] + b;
      SignificantAppend(a[1..], b);
    }
  }

  /** Filtering a token list extended by one token. */
  lemma SignificantSnoc(a: seq<SyntaxToken>, t: SyntaxToken)
    ensures Significant(a + [t]) == Significant(a) + if t.kind != WhiteSpaceToken && t.kind != BadToken then [t] else []
  {
    SignificantAppend(a, [t]);
    assert [t][1..] == [];
  }

  /** The token at `index`, or the last (end-of-file) token past the end. */
  function PeekAt(tokens: seq<SyntaxToken>, index: nat): (t: SyntaxToken)
    requires EndsWithEndOfFile(tokens)
    ensures index < |tokens| ==> t == tokens[index]
    ensures index >= |tokens| - 1 ==> t == tokens[|tokens| - 1] && t.kind == EndOfFileToken
  {
    if index >= |tokens| then tokens[|tokens| - 1] else tokens[index]
  }

  /**
   * The cursor just past the token at `index`. Parse functions and the parsers' `NextToken` both
   * move the cursor with it, so that a cursor after a token is the same term wherever it occurs.
   */
  function After(index: nat): nat {
    index + 1
  }

  lemma AppendAssociates<T>(a: seq<T>, b: seq<T>, c: seq<T>)
    ensures a + b + c == a + (b + c)
  {
  }
}
