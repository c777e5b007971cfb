/** The lexical tables of the current front end: operator precedences, keywords and fixed token texts. */
module SyntaxFacts {
  import opened Options
  import opened SyntaxKinds

  predicate IsKeyword(k: SyntaxKind) { k == TrueKeyword || k == FalseKeyword }

  /** The 14 kinds whose text never varies. */
  predicate IsFixed(k: SyntaxKind) {
    k in {BangToken, EqualsToken, AmpersandAmpersandToken, PipePipeToken, EqualsEqualsToken, BangEqualsToken,
          PlusToken, MinusToken, StarToken, SlashToken, OpenParenthesisToken, CloseParenthesisToken,
          FalseKeyword, TrueKeyword}
  }

  /** `GetUnaryOperatorPrecedence`; `UnaryPrecedences` states its table. */
  function UnaryOperatorPrecedence(k: SyntaxKind): nat {
    match k
    case PlusToken | MinusToken | BangToken => 6
    case _ => 0
  }

  /** `GetBinaryOperatorPrecedence`; `BinaryPrecedences` states its table. */
  function BinaryOperatorPrecedence(k: SyntaxKind): nat {
    match k
    case StarToken | SlashToken => 5
    case PlusToken | MinusToken => 4
    case EqualsEqualsToken | BangEqualsToken => 3
    case AmpersandAmpersandToken => 2
    case PipePipeToken => 1
    case _ => 0
  }

  /** The prefix operators `+ - !` bind at 6; nothing else is prefix. */
  lemma UnaryPrecedences(k: SyntaxKind)
    ensures UnaryOperatorPrecedence(k) != 0 <==> (k == PlusToken || k == MinusToken || k == BangToken)
    ensures UnaryOperatorPrecedence(k) == 0 || UnaryOperatorPrecedence(k) == 6
  {
  }

  /** The infix operators, most binding first; every other kind is not infix. */
  lemma BinaryPrecedences(k: SyntaxKind)
    ensures var p := BinaryOperatorPrecedence(k);
      && (p == 5 <==> (k == StarToken || k == SlashToken))
      && (p == 4 <==> (k == PlusToken || k == MinusToken))
      && (p == 3 <==> (k == EqualsEqualsToken || k == BangEqualsToken))
      && (p == 2 <==> k == AmpersandAmpersandToken)
      && (p == 1 <==> k == PipePipeToken)
      && p <= 5
  {
  }

  /** `GetKeyWordKind`: exactly "true" and "false" are keywords; every other word is an identifier. */
  function KeywordKind(text: string): (k: SyntaxKind)
    ensures k == TrueKeyword <==> text == "true"
    ensures k == FalseKeyword <==> text == "false"
    ensures !IsKeyword(k) ==> k == IdentifierToken
  {
    if text == "true" then TrueKeyword
    else if text == "false" then FalseKeyword
    else IdentifierToken
  }

  /** `GetText`: the fixed lexeme of a fixed kind, `null` for every other kind. */
  function FixedText(k: SyntaxKind): (r: Option<string>)
    ensures r.Some? <==> IsFixed(k)
    ensures r.Some? ==> 1 <= |r.value| <= 5
  {
    match k
    case BangToken => Some("!")
    case EqualsToken => Some("=")
    case AmpersandAmpersandToken => Some("&&")
    case PipePipeToken => Some("||")
    case EqualsEqualsToken => Some("==")
    case BangEqualsToken => Some("!=")
    case PlusToken => Some("+")
    case MinusToken => Some("-")
    case StarToken => Some("*")
    case SlashToken => Some("/")
    case OpenParenthesisToken => Some("(")
    case CloseParenthesisToken => Some(")")
    case FalseKeyword => Some("false")
    case TrueKeyword => Some("true")
    case _ => None
  }

  /** Every prefix operator binds tighter than every infix operator. */
  lemma UnaryBindsTighterThanBinary(u: SyntaxKind, b: SyntaxKind)
    requires UnaryOperatorPrecedence(u) != 0
    ensures BinaryOperatorPrecedence(b) < UnaryOperatorPrecedence(u)
  {
  }

  /** `!` is prefix only; `+` and `-` are both prefix and infix. */
  lemma OperatorRoles()
    ensures UnaryOperatorPrecedence(BangToken) != 0 && BinaryOperatorPrecedence(BangToken) == 0
    ensures UnaryOperatorPrecedence(PlusToken) != 0 && BinaryOperatorPrecedence(PlusToken) != 0
    ensures UnaryOperatorPrecedence(MinusToken) != 0 && BinaryOperatorPrecedence(MinusToken) != 0
  {
  }

  /** The keyword table and the fixed texts agree: a keyword's text classifies back to that keyword. */
  lemma KeywordRoundTrip(k: SyntaxKind)
    requires IsKeyword(k)
    ensures FixedText(k).Some? && KeywordKind(FixedText(k).value) == k
  {
  }

  /** No two kinds share a fixed text, so a fixed text names its kind. */
  lemma FixedTextInjective(a: SyntaxKind, b: SyntaxKind)
    requires FixedText(a).Some? && FixedText(a) == FixedText(b)
    ensures a == b
  {
  }
}
