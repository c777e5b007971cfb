/**
 * The kinds of tokens and syntax nodes of the current front end. The relational tokens
 * (`<`, `<=`, `>`, `>=`) are named by the binary-operator table although no lexer rule
 * produces them yet.
 */
module SyntaxKinds {

  datatype SyntaxKind =
    // tokens
    | BadToken
    | EndOfFileToken
    | WhiteSpaceToken
    | NumberToken
    | IdentifierToken
    | BangToken
    | EqualsToken
    | AmpersandAmpersandToken
    | PipePipeToken
    | EqualsEqualsToken
    | BangEqualsToken
    | LessToken
    | LessOrEqualsToken
    | GreaterToken
    | GreaterOrEqualsToken
    // operators
    | PlusToken
    | MinusToken
    | StarToken
    | SlashToken
    | OpenParenthesisToken
    | CloseParenthesisToken
    | OpenBraceToken
    | CloseBraceToken
    // keywords
    | FalseKeyword
    | TrueKeyword
    // nodes
    | CompilationUnit
    | BlockStatement
    | ExpressionStatement
    | LiteralExpression
    | NameExpression
    | UnaryExpression
    | BinaryExpression
    | ParenthesizedExpression
    | AssignmentExpression

  /** The enum member's name, as `{kind}` renders it in an interpolated message. */
  function KindName(k: SyntaxKind): string {
    match k
    case BadToken => "BadToken"
    case EndOfFileToken => "EndOfFileToken"
    case WhiteSpaceToken => "WhiteSpaceToken"
    case NumberToken => "NumberToken"
    case IdentifierToken => "IdentifierToken"
    case BangToken => "BangToken"
    case EqualsToken => "EqualsToken"
    case AmpersandAmpersandToken => "AmpersandAmpersandToken"
    case PipePipeToken => "PipePipeToken"
    case EqualsEqualsToken => "EqualsEqualsToken"
    case BangEqualsToken => "BangEqualsToken"
    case LessToken => "LessToken"
    case LessOrEqualsToken => "LessOrEqualsToken"
    case GreaterToken => "GreaterToken"
    case GreaterOrEqualsToken => "GreaterOrEqualsToken"
    case PlusToken => "PlusToken"
    case MinusToken => "MinusToken"
    case StarToken => "StarToken"
    case SlashToken => "SlashToken"
    case OpenParenthesisToken => "OpenParenthesisToken"
    case CloseParenthesisToken => "CloseParenthesisToken"
    case OpenBraceToken => "OpenBraceToken"
    case CloseBraceToken => "CloseBraceToken"
    case FalseKeyword => "FalseKeyword"
    case TrueKeyword => "TrueKeyword"
    case CompilationUnit => "CompilationUnit"
    case BlockStatement => "BlockStatement"
    case ExpressionStatement => "ExpressionStatement"
    case LiteralExpression => "LiteralExpression"
    case NameExpression => "NameExpression"
    case UnaryExpression => "UnaryExpression"
    case BinaryExpression => "BinaryExpression"
    case ParenthesizedExpression => "ParenthesizedExpression"
    case AssignmentExpression => "AssignmentExpression"
  }
}
