# Minsk front end, modelled in Dafny

This project models the front end of Minsk, a toy expression language written in C#, in two
generations.

**The current pipeline (`Minsk/CodeAnalysis`).**
- A lexer is a cursor over the characters of the text. Each `Lex()` call yields one token and
  reports diagnostics inline.
- The lexical tables of `SyntaxFacts` give:
  - the unary and binary operator precedences;
  - the keyword table;
  - the fixed texts of the operator and keyword tokens.
- `SyntaxToken` has a span rule.
- The `SyntaxTree.ParseTokens` driver runs the lexer.
- The parser:
  - filters out white space and bad tokens;
  - reads tokens through a clamped `Peek`;
  - recovers from errors in `MatchToken` by synthesising a token;
  - recognises an assignment by looking two tokens ahead;
  - parses binary expressions by precedence climbing.
- An append-only `DiagnosticBag` collects the diagnostics.
- `BoundBinaryOperator` is a first-match operator table.
- The binder is fail-soft and type-directed.
- The evaluator walks the tree, reading and writing a variable store it shares with its caller.
- `Compilation.Evaluate` evaluates only when no diagnostic was reported.

**The earlier generation (`mc/CodeAnalysis`).**
- `Lexer.cs` lexes numbers only, and `Parser.cs` has two levels (term and factor).
- `Syntax/Lexer.cs` and `Syntax/Parser.cs` are a second pair, with keywords, `&&`, `||`, `!` and
  precedence climbing.
- `Binding/Binder.cs` reports diagnostics as plain strings.
- `Evaluator.cs` evaluates int expressions only.

Each earlier file is its own module (`Mc…`). Where it behaves differently from its successor, the
model keeps the difference:
- its `Peek` ignores the offset;
- the binder has no case for a parenthesised expression;
- letters are bad characters for the first lexer.

**How the source maps to Dafny.**
- Every stateful C# class with a cursor or a list field becomes a Dafny `class`: the lexers, the
  parsers, the diagnostic bag, the binders, the evaluator and its variable store, and the
  compilation. Its methods have the same loops and branches as the source. Each method is proved
  against a pure function that states what one call does:
  - `LexAt` and `NextTokenAt` for one lexer call;
  - `MatchAt`, `AssignmentAt`, `BinaryAt`, `PrimaryAt`, `TermAt` and `FactorAt` for one parse
    step, over the token array and a cursor;
  - `BindingOf` for binding;
  - `Eval` for evaluation.
- The properties are lemmas about those functions.
- C# exceptions become a `Result` value (`Faults.Throws`): a failed cast, a missing key, a division
  by zero, `int.MinValue / -1`, and the `throw`s on unexpected nodes and operators.
- Integers are `int32` values with explicit 32-bit wrap-around, since C# is unchecked by default,
  and with truncating division.
- `char.IsLetter`, `char.IsDigit` and `char.IsWhiteSpace` are a `CharClasses` value passed as a
  parameter. `Consistent` fixes what these classes answer on ASCII; outside ASCII they are left
  open.
- `int.TryParse` on a digit run succeeds exactly when the run is made of ASCII digits and its
  value is at most 2^31 - 1. Otherwise it fails, with value 0.

**Where the lexer can get stuck.** The current lexer makes no progress on a `&` or `|` that its
twin does not follow: the cursor stays put and the token is a bad token. The parser's constructor
and `ParseTokens` loop until the end of file, so they would run forever on such a text. The model
therefore makes their precondition `LexHalts`: lexing reaches the end of file within one token
per character. `MinskLexerProperties.MoreFuelNeverHelps` shows this bound loses nothing.
`StuckNeverHalts` shows the stuck case never ends, and `HaltsWithoutAmpersandOrPipe` shows that
every text without `&` and `|` satisfies the precondition.

**Where the source resolves itself differently from its own comments.** The model follows the code:
- The current evaluator writes `&&` as `(bool)left && (bool)right`. The right operand is therefore
  evaluated, so its effects on the store happen. Only its cast is skipped, when the left value
  already decides the result.
- The earlier evaluator's unary `switch` has no case for logical negation, so that case throws.

## Model

| member | source | states |
|---|---|---|
| Int32Arith.Wrap | Minsk/CodeAnalysis/Evaluator.cs:96-109 | an unchecked conversion: the int32 congruent to the exact value modulo 2^32, and equal to it when it fits |
| Int32Arith.Add | Minsk/CodeAnalysis/Evaluator.cs:96-99 | unchecked `+`: congruent to the exact sum modulo 2^32, and exact when the sum fits |
| Int32Arith.Sub | Minsk/CodeAnalysis/Evaluator.cs:101-104 | unchecked `-`: congruent to the exact difference, and exact when it fits |
| Int32Arith.Mul | Minsk/CodeAnalysis/Evaluator.cs:106-109 | unchecked `*`: congruent to the exact product, and exact when it fits |
| Int32Arith.Neg | Minsk/CodeAnalysis/Evaluator.cs:74-77 | unary minus: exact for every value but int.MinValue, which it leaves unchanged |
| Int32Arith.TruncatingDiv | Minsk/CodeAnalysis/Evaluator.cs:111-114 | C#'s `/`: the remainder is smaller than the divisor in magnitude and has the dividend's sign (truncation toward zero) |
| Int32Arith.TruncatedQuotient | Minsk/CodeAnalysis/Evaluator.cs:111-114 | the same quotient on unbounded integers, shown to lie in the int32 range |
| Int32Arith.TryParseInt32 | Minsk/CodeAnalysis/Syntax/Lexer.cs:222-225 | `int.TryParse` on a digit run succeeds exactly for a non-empty run of ASCII digits of value at most int.MaxValue, and then gives that decimal value |
| Int32Arith.DecimalValueBounds | Minsk/CodeAnalysis/Syntax/Lexer.cs:222-225 | a run of n digits is below 10^n, and at least 10^(n-1) when it does not start with 0 |
| Int32Arith.DecimalValueSnoc | Minsk/CodeAnalysis/Syntax/Lexer.cs:222-225 | appending a digit multiplies the value by ten and adds the digit |
| Int32Arith.ShortRunParses | Minsk/CodeAnalysis/Syntax/Lexer.cs:222-225 | `int.TryParse` accepts every run of one to nine ASCII digits |
| Int32Arith.LongRunFails | Minsk/CodeAnalysis/Syntax/Lexer.cs:222-225 | `int.TryParse` rejects every run of more than ten ASCII digits that does not start with 0 |
| Int32Arith.MaxValueBoundary | Minsk/CodeAnalysis/Syntax/Lexer.cs:222-225 | `2147483647` parses to int.MaxValue and `2147483648` does not parse |
| Int32Arith.Pow10Grows | Minsk/CodeAnalysis/Syntax/Lexer.cs:222-225 | powers of ten grow with the exponent |
| CharClass.AsciiClass | Minsk/CodeAnalysis/Syntax/Lexer.cs:171-180 | on an ASCII character, `IsLetter`, `IsDigit` and `IsWhiteSpace` answer as the ASCII letters, digits and white space |
| CharClass.RunEnd | Minsk/CodeAnalysis/Syntax/Lexer.cs:202-210 | where a `while (p(Current))` loop stops: every character before it satisfies `p`, and the character there fails it |
| SyntaxFacts.UnaryOperatorPrecedence | Minsk/CodeAnalysis/Syntax/SyntaxFacts.cs:12-24 | definition of `GetUnaryOperatorPrecedence`; its table is stated in `SyntaxFacts.UnaryPrecedences` and `SyntaxFacts.UnaryBindsTighterThanBinary` |
| SyntaxFacts.BinaryOperatorPrecedence | Minsk/CodeAnalysis/Syntax/SyntaxFacts.cs:26-51 | definition of `GetBinaryOperatorPrecedence`; its table is stated in `SyntaxFacts.BinaryPrecedences` and `SyntaxFacts.UnaryBindsTighterThanBinary` |
| SyntaxFacts.UnaryPrecedences | Minsk/CodeAnalysis/Syntax/SyntaxFacts.cs:12-24 | the unary precedence is 6 for `+ - !` and 0 for every other kind |
| SyntaxFacts.BinaryPrecedences | Minsk/CodeAnalysis/Syntax/SyntaxFacts.cs:26-51 | the binary precedence is 5 for `* /`, 4 for `+ -`, 3 for `== !=`, 2 for `&&`, 1 for `\|\|` and 0 for every other kind |
| SyntaxFacts.UnaryBindsTighterThanBinary | Minsk/CodeAnalysis/Syntax/SyntaxFacts.cs:12-51 | every prefix operator binds tighter than every infix operator |
| SyntaxFacts.OperatorRoles | Minsk/CodeAnalysis/Syntax/SyntaxFacts.cs:12-51 | `!` is prefix only; `+` and `-` are both prefix and infix |
| SyntaxFacts.KeywordKind | Minsk/CodeAnalysis/Syntax/SyntaxFacts.cs:53-66 | `GetKeyWordKind` gives TrueKeyword exactly for "true" and FalseKeyword exactly for "false"; every other word is an identifier |
| SyntaxFacts.FixedText | Minsk/CodeAnalysis/Syntax/SyntaxFacts.cs:68-118 | `GetText` gives text exactly for the 14 fixed kinds, 1 to 5 characters long, and null for every other kind |
| SyntaxFacts.KeywordRoundTrip | Minsk/CodeAnalysis/Syntax/SyntaxFacts.cs:108-112 | a keyword's fixed text classifies back to that keyword |
| SyntaxFacts.FixedTextInjective | Minsk/CodeAnalysis/Syntax/SyntaxFacts.cs:68-118 | no two kinds share a fixed text |
| SyntaxTokens.SyntaxToken.Span | Minsk/CodeAnalysis/Syntax/SyntaxToken.cs:37 | the span starts at the token's position and is as long as its text; a token without text has an empty span |
| SyntaxTokens.ConstructorStoresFields | Minsk/CodeAnalysis/Syntax/SyntaxToken.cs:19-29 | the constructor keeps kind, position, text and value as given |
| Diagnostics.DiagnosticStoresFields | Minsk/CodeAnalysis/Diagnostic.cs:13-22 | a diagnostic keeps its span and message, and `ToString` is the message |
| Diagnostics.ReportersKeepSpans | Minsk/CodeAnalysis/Diagnostic.cs:45-78 | every reporting helper keeps the span it is given; a bad character is reported at (position, 1) |
| Diagnostics.InvalidNumber | Minsk/CodeAnalysis/Diagnostic.cs:45-50 | definition of the invalid-number diagnostic; its properties are in `Diagnostics.ReportersKeepSpans` |
| Diagnostics.BadCharacter | Minsk/CodeAnalysis/Diagnostic.cs:52-58 | definition of the bad-character diagnostic; its properties are in `Diagnostics.ReportersKeepSpans` |
| Diagnostics.UnexpectedToken | Minsk/CodeAnalysis/Diagnostic.cs:59-64 | definition of the unexpected-token diagnostic; its properties are in `Diagnostics.ReportersKeepSpans` |
| Diagnostics.UndefinedUnaryOperator | Minsk/CodeAnalysis/Diagnostic.cs:66-71 | definition of the undefined-unary-operator diagnostic; its properties are in `Diagnostics.ReportersKeepSpans` |
| Diagnostics.UndefinedBinaryOperator | Minsk/CodeAnalysis/Diagnostic.cs:73-78 | definition of the undefined-binary-operator diagnostic; its properties are in `Diagnostics.ReportersKeepSpans` |
| Diagnostics.DiagnosticBag.constructor | Minsk/CodeAnalysis/Diagnostic.cs:26-32 | a new bag is empty |
| Diagnostics.DiagnosticBag.Report | Minsk/CodeAnalysis/Diagnostic.cs:34-38 | appends exactly one diagnostic at the end and keeps the earlier ones in order |
| Diagnostics.DiagnosticBag.AddRange | Minsk/CodeAnalysis/Diagnostic.cs:40-43 | appends the other bag's diagnostics, in their order, after this bag's own |
| Diagnostics.DiagnosticBag.ReportInvalidNumber | Minsk/CodeAnalysis/Diagnostic.cs:45-50 | appends the invalid-number diagnostic at the span given |
| Diagnostics.DiagnosticBag.ReportBadCharacter | Minsk/CodeAnalysis/Diagnostic.cs:52-58 | appends the bad-character diagnostic at (position, 1) |
| Diagnostics.DiagnosticBag.ReportUnexpectedToken | Minsk/CodeAnalysis/Diagnostic.cs:59-64 | appends the unexpected-token diagnostic at the span given |
| Diagnostics.DiagnosticBag.ReportUndefinedUnaryOperator | Minsk/CodeAnalysis/Diagnostic.cs:66-71 | appends the undefined-unary-operator diagnostic at the span given |
| Diagnostics.DiagnosticBag.ReportUndefinedBinaryOperator | Minsk/CodeAnalysis/Diagnostic.cs:73-78 | appends the undefined-binary-operator diagnostic at the span given |
| TokenStreams.Significant | Minsk/CodeAnalysis/Syntax/Parser.cs:31-41 | the parser's filter keeps no white-space or bad token and never lengthens the list |
| TokenStreams.SignificantAppend | Minsk/CodeAnalysis/Syntax/Parser.cs:31-41 | the filter distributes over concatenation, so it keeps the tokens in lexing order |
| TokenStreams.SignificantSnoc | Minsk/CodeAnalysis/Syntax/Parser.cs:35-39 | one loop turn adds the new token exactly when it is neither white space nor bad |
| TokenStreams.PeekAt | Minsk/CodeAnalysis/Syntax/Parser.cs:55-71 | `Peek` gives `tokens[index]` in range and the last (end-of-file) token past the end |
| SyntaxNodes.WithText | Minsk/CodeAnalysis/Syntax/Parser.cs:105 | the tokens that carry text, that is, all but the ones the parser synthesised |
| SyntaxNodes.WithTextAppend | Minsk/CodeAnalysis/Syntax/Parser.cs:105 | picking the tokens with text distributes over concatenation |
| MinskLexer.OperatorStep | Minsk/CodeAnalysis/Syntax/Lexer.cs:73-145 | an operator case never moves back, reports nothing, and its token's text is the slice it consumed |
| MinskLexer.BadCharacterStep | Minsk/CodeAnalysis/Syntax/Lexer.cs:181-185 | the bad-character case moves exactly one on, and the token's text is that one character |
| MinskLexer.NulInNoClass | Minsk/CodeAnalysis/Syntax/Lexer.cs:69-71 | '\0' is neither a letter, a digit nor white space, so only the end-of-file case handles it |
| MinskLexer.WhiteSpaceStep | Minsk/CodeAnalysis/Syntax/Lexer.cs:202-210 | definition of the white-space case; its properties are in `MinskLexerProperties.WhiteSpaceIsMaximalRun` |
| MinskLexer.NumberStep | Minsk/CodeAnalysis/Syntax/Lexer.cs:212-229 | definition of the number case; its properties are in `MinskLexerProperties.NumberIsMaximalDigitRun` and `Int32Arith.DecimalValueBounds` |
| MinskLexer.WordStep | Minsk/CodeAnalysis/Syntax/Lexer.cs:231-243 | definition of the word case; its properties are in `MinskLexerProperties.WordIsMaximalLetterRun` and `MinskLexerProperties.AdjacentWordsMerge` |
| MinskLexer.LexAt | Minsk/CodeAnalysis/Syntax/Lexer.cs:59-200 | one `Lex()` call: the token starts at the cursor; its text is what the cursor passed over; the cursor never moves back; at most one diagnostic; end of file exactly when the current character is '\0', and then the cursor stays |
| MinskLexer.Steps | Minsk/CodeAnalysis/Syntax/Lexer.cs:59-200 | a table of what `Lex()` yields at every cursor position; each entry stays in the text and spells what it consumed |
| MinskLexer.Drive | Minsk/CodeAnalysis/Syntax/SyntaxTree.cs:62-69 | repeated `Lex()` calls: a run that finishes ends with an end-of-file token |
| MinskLexer.LexFrom | Minsk/CodeAnalysis/Syntax/SyntaxTree.cs:62-69 | definition of the lexing loop from a cursor, with fuel; its properties are in `MinskLexerProperties.TokensSpellText`, `MinskLexerProperties.FuelMonotone`, `MinskLexerProperties.FuelSuffices`, `MinskLexerProperties.HaltsWithoutAmpersandOrPipe` and `MinskLexerProperties.StuckNeverHalts` |
| MinskLexer.LexFromStep | Minsk/CodeAnalysis/Syntax/SyntaxTree.cs:62-69 | a run is its first `Lex()` call followed by the run from where that call left the cursor |
| MinskLexer.RunSoFarStart | Minsk/CodeAnalysis/Syntax/Parser.cs:31-41 | the lexing loop starts with no token, no diagnostic and the whole run ahead |
| MinskLexer.RunSoFarStep | Minsk/CodeAnalysis/Syntax/Parser.cs:31-41 | a loop turn that does not yield the end of file moves the run on by its token and its diagnostics |
| MinskLexer.RunSoFarEnd | Minsk/CodeAnalysis/Syntax/Parser.cs:41 | the turn that yields the end of file completes the run |
| MinskLexer.Lexer.constructor | Minsk/CodeAnalysis/Syntax/Lexer.cs:25-32 | a new lexer has the text, its cursor at 0 and an empty diagnostic bag |
| MinskLexer.Lexer.Peek | Minsk/CodeAnalysis/Syntax/Lexer.cs:39-57 | the character `offset` places after the cursor, or '\0' past the end |
| MinskLexer.Lexer.Lex | Minsk/CodeAnalysis/Syntax/Lexer.cs:59-200 | returns the token `LexAt` describes, moves the cursor there and appends its diagnostics to the bag |
| MinskLexer.Lexer.LexOperator | Minsk/CodeAnalysis/Syntax/Lexer.cs:73-145 | the operator cases set the kind and the cursor as `OperatorStep` describes |
| MinskLexer.Lexer.ReadWhiteSpace | Minsk/CodeAnalysis/Syntax/Lexer.cs:202-210 | moves to the end of the maximal white-space run and sets the kind to WhiteSpaceToken |
| MinskLexer.Lexer.ReadNumberToken | Minsk/CodeAnalysis/Syntax/Lexer.cs:212-229 | moves to the end of the maximal digit run, sets the parsed value, and reports a run that does not fit |
| MinskLexer.Lexer.ReadIdentifierOrKeyword | Minsk/CodeAnalysis/Syntax/Lexer.cs:231-243 | moves to the end of the maximal letter run and classifies it with the keyword table |
| MinskLexerProperties.RunEndIs | Minsk/CodeAnalysis/Syntax/Lexer.cs:202-210 | a run of `p` characters that ends before a non-`p` character is exactly where the loop stops |
| MinskLexerProperties.EndOfFileIsIdempotent | Minsk/CodeAnalysis/Syntax/Lexer.cs:69-71 | at the end or at a NUL, `Lex()` returns an empty end-of-file token at the cursor and stays, so calling it again returns the same |
| MinskLexerProperties.EqualsAndBangLookahead | Minsk/CodeAnalysis/Syntax/Lexer.cs:119-145 | `=` and `!` followed by `=` consume two characters and become `==` and `!=`; otherwise they consume one |
| MinskLexerProperties.LoneAmpersandOrPipeIsStuck | Minsk/CodeAnalysis/Syntax/Lexer.cs:103-117 | a `&` or `\|` without its twin is a zero-length bad token: the cursor stays and nothing is reported |
| MinskLexerProperties.ProgressUnlessEndOrStuck | Minsk/CodeAnalysis/Syntax/Lexer.cs:59-200 | the cursor stays put exactly at '\0' and at a lone `&` or `\|`; otherwise every call makes progress |
| MinskLexerProperties.NumberIsMaximalDigitRun | Minsk/CodeAnalysis/Syntax/Lexer.cs:147-158 | a token starting with an ASCII digit is a NumberToken over the maximal digit run; a run that does not parse has value 0 and exactly one InvalidNumber diagnostic spanning it |
| MinskLexerProperties.WordIsMaximalLetterRun | Minsk/CodeAnalysis/Syntax/Lexer.cs:231-243 | a letter starts a maximal letter run, classified by `GetKeyWordKind` |
| MinskLexerProperties.AdjacentWordsMerge | Minsk.Tests/CodeAnalysis/Syntax/LexerTests.cs:154-166 | two letter words written together lex as one word, so two identifiers need a separator |
| MinskLexerProperties.WhiteSpaceIsMaximalRun | Minsk/CodeAnalysis/Syntax/Lexer.cs:162-180 | a white-space character starts one WhiteSpaceToken over the maximal white-space run |
| MinskLexerProperties.BadCharacterIsReportedAndSkipped | Minsk/CodeAnalysis/Syntax/Lexer.cs:181-185 | any other character gives one BadCharacter diagnostic at its position and a one-character bad token, and the cursor moves one on |
| MinskLexerProperties.ReportsOnlyBadCharactersAndNumbers | Minsk/CodeAnalysis/Syntax/Lexer.cs:59-200 | only bad characters and numbers that do not fit report anything |
| MinskLexerProperties.FixedTokenAlone | Minsk.Tests/CodeAnalysis/Syntax/LexerTests.cs:15-26 | each fixed token written alone lexes to that token with its `GetText` text, consuming the whole text |
| MinskLexerProperties.KeywordAlone | Minsk.Tests/CodeAnalysis/Syntax/LexerTests.cs:92-136 | `true` and `false` alone lex to their keyword tokens |
| MinskLexerProperties.OperatorAlone | Minsk.Tests/CodeAnalysis/Syntax/LexerTests.cs:92-136 | every operator alone lexes to its token with its fixed text |
| MinskLexerProperties.SingleTokenRun | Minsk.Tests/CodeAnalysis/Syntax/LexerTests.cs:15-26 | a text that one `Lex()` call consumes lexes to that token alone, then the end of file |
| MinskLexerProperties.DriveStuck | Minsk/CodeAnalysis/Syntax/SyntaxTree.cs:62-69 | a step that neither ends nor moves never finishes, whatever the fuel |
| MinskLexerProperties.DriveFuelMonotone | Minsk/CodeAnalysis/Syntax/SyntaxTree.cs:62-69 | fuel beyond what a run needs changes nothing |
| MinskLexerProperties.DriveFuelSuffices | Minsk/CodeAnalysis/Syntax/SyntaxTree.cs:62-69 | one token per remaining table entry is as much fuel as a run can use |
| MinskLexerProperties.DriveHalts | Minsk/CodeAnalysis/Syntax/SyntaxTree.cs:62-69 | a table whose every step but the end of file moves forward always reaches the end of file |
| MinskLexerProperties.DriveSpells | Minsk/CodeAnalysis/Syntax/SyntaxTree.cs:62-69 | the tokens of a run over a spelling table spell the text from the start to the end-of-file position |
| MinskLexerProperties.DriveReportsWithin | Minsk/CodeAnalysis/Syntax/SyntaxTree.cs:62-69 | a run reports only diagnostics between its start and the end of the text |
| MinskLexerProperties.StuckNeverHalts | Minsk/CodeAnalysis/Syntax/Lexer.cs:103-117 | once the lexer is stuck on a lone `&` or `\|`, no amount of fuel reaches the end of file |
| MinskLexerProperties.FuelMonotone | Minsk/CodeAnalysis/Syntax/SyntaxTree.cs:62-69 | lexing with more fuel than needed gives the same run |
| MinskLexerProperties.FuelSuffices | Minsk/CodeAnalysis/Syntax/SyntaxTree.cs:62-69 | one token per remaining character is as much fuel as lexing can use |
| MinskLexerProperties.MoreFuelNeverHelps | Minsk/CodeAnalysis/Syntax/SyntaxTree.cs:62-69 | whenever any fuel reaches the end of file, `LexHalts` holds and gives the same run |
| MinskLexerProperties.HaltsWithoutAmpersandOrPipe | Minsk/CodeAnalysis/Syntax/Lexer.cs:103-117 | every text without `&` and `\|` lexes to the end of file |
| MinskLexerProperties.TokensSpellText | Minsk/CodeAnalysis/Syntax/Lexer.cs:189-199 | the token texts, in order, spell the source from the cursor to the end-of-file position |
| MinskLexerProperties.ReportedInsideText | Minsk/CodeAnalysis/Syntax/Lexer.cs:59-200 | each diagnostic of one call lies between the cursor and the end of the text |
| MinskLexerProperties.DiagnosticsInsideText | Minsk/CodeAnalysis/Syntax/Lexer.cs:59-200 | every diagnostic of a run lies inside the text |
| MinskLexerProperties.EmptyTextLexesToEndOfFile | Minsk/CodeAnalysis/Syntax/Lexer.cs:69-71 | the empty text lexes to the end-of-file token alone |
| MinskSyntaxTree.ParseTokens | Minsk/CodeAnalysis/Syntax/SyntaxTree.cs:58-70 | yields every token the lexer returns, in order, up to the first end of file, which it does not yield |
| MinskSyntaxTree.ParseText | Minsk/CodeAnalysis/Syntax/SyntaxTree.cs:17-31 | the tree's diagnostics are the lexer's followed by the parser's, and the root ends with an end-of-file token |
| MinskSyntaxTree.SyntaxTree.constructor | Minsk/CodeAnalysis/Syntax/SyntaxTree.cs:17-31 | keeps the text, and takes the root and the diagnostics the parser holds after parsing |
| MinskSyntaxTree.Parse | Minsk/CodeAnalysis/Syntax/SyntaxTree.cs:37-47 | a new tree of the text |
| MinskSyntaxTreeProperties.ParseTokensOfEmptyText | Minsk/CodeAnalysis/Syntax/SyntaxTree.cs:58-70 | the empty text yields no tokens |
| MinskSyntaxTreeProperties.WhiteSpaceIsYielded | Minsk/CodeAnalysis/Syntax/SyntaxTree.cs:62-69 | `ParseTokens` does not filter: a white-space run between two characters is a token of the output |
| MinskSyntaxTreeProperties.BadTokenIsYielded | Minsk/CodeAnalysis/Syntax/SyntaxTree.cs:62-69 | `ParseTokens` does not filter: a bad character is a token of the output |
| MinskSyntaxTreeProperties.TestTokensAreTableTokens | Minsk.Tests/CodeAnalysis/Syntax/LexerTests.cs:92-137 | every entry of the tests' `GetTokens` table is a fixed token with its text, an identifier of ASCII letters that is no keyword, or a number that fits 32 bits |
| MinskSyntaxTreeProperties.FixedTokenAt | Minsk/CodeAnalysis/Syntax/Lexer.cs:73-145 | a fixed token's text at the cursor, not followed by a character that extends it, lexes to exactly that token |
| MinskSyntaxTreeProperties.KeywordAt | Minsk/CodeAnalysis/Syntax/Lexer.cs:231-243 | a keyword not followed by a letter lexes to that keyword |
| MinskSyntaxTreeProperties.OperatorAt | Minsk/CodeAnalysis/Syntax/Lexer.cs:73-145 | an operator not followed by a character that extends it lexes to that operator |
| MinskSyntaxTreeProperties.IdentifierAt | Minsk/CodeAnalysis/Syntax/Lexer.cs:231-243 | a non-keyword word of ASCII letters not followed by a letter lexes to an identifier with that text and no value |
| MinskSyntaxTreeProperties.NumberAt | Minsk/CodeAnalysis/Syntax/Lexer.cs:212-229 | a run of ASCII digits that fits 32 bits, not followed by a digit, lexes to a number with that text and its decimal value, without a diagnostic |
| MinskSyntaxTreeProperties.LettersAt | Minsk/CodeAnalysis/Syntax/Lexer.cs:231-236 | the ASCII letters of a word in the text are letters to `char.IsLetter` |
| MinskSyntaxTreeProperties.DigitsAt | Minsk/CodeAnalysis/Syntax/Lexer.cs:212-217 | the ASCII digits of a number in the text are digits to `char.IsDigit`, and the first starts a number |
| MinskSyntaxTreeProperties.TableTokenAt | Minsk/CodeAnalysis/Syntax/Lexer.cs:73-243 | any table token at the cursor, not followed by a character that extends it, lexes to exactly that token |
| MinskSyntaxTreeProperties.TableTokenStep | Minsk/CodeAnalysis/Syntax/Lexer.cs:73-243 | the same, as an entry of the step table |
| MinskSyntaxTreeProperties.EndStep | Minsk/CodeAnalysis/Syntax/Lexer.cs:69-71 | the table entry at the end of the text is the empty end-of-file token, staying put |
| MinskSyntaxTreeProperties.ExtendedTokenReadsOn | Minsk/CodeAnalysis/Syntax/Lexer.cs:119-243 | a table token followed by a character that extends it lexes to a longer token |
| MinskSyntaxTreeProperties.WordReadsOn | Minsk/CodeAnalysis/Syntax/Lexer.cs:231-243 | ASCII letters followed by a letter: the word reads on |
| MinskSyntaxTreeProperties.NumberReadsOn | Minsk/CodeAnalysis/Syntax/Lexer.cs:212-220 | ASCII digits followed by a digit: the number reads on |
| MinskSyntaxTreeProperties.TableTextStart | Minsk.Tests/CodeAnalysis/Syntax/LexerTests.cs:92-137 | a table token's text starts with an ASCII character that is no white space or NUL: a letter exactly for words, a digit exactly for numbers, `=` exactly for `=` and `==` |
| MinskSyntaxTreeProperties.RequiresSeparatorExactly | Minsk.Tests/CodeAnalysis/Syntax/LexerTests.cs:154-218 | over the table, all nine clauses of the tests' `RequiresSeparator` hold exactly where the first token would read into the second |
| MinskSyntaxTreeProperties.PairWithoutSeparator | Minsk.Tests/CodeAnalysis/Syntax/LexerTests.cs:28-43 | two table tokens that need no separator, written together, yield exactly those two tokens with their texts, kinds and values |
| MinskSyntaxTreeProperties.AdjacentSteps | Minsk.Tests/CodeAnalysis/Syntax/LexerTests.cs:28-43 | the two table entries of such a pair |
| MinskSyntaxTreeProperties.LeadingStep | Minsk.Tests/CodeAnalysis/Syntax/LexerTests.cs:28-43 | a table token at the start that the next character does not extend |
| MinskSyntaxTreeProperties.TrailingStep | Minsk.Tests/CodeAnalysis/Syntax/LexerTests.cs:28-43 | a table token that ends the text |
| MinskSyntaxTreeProperties.TwoSteps | Minsk.Tests/CodeAnalysis/Syntax/LexerTests.cs:28-43 | a text that two `Lex()` calls consume yields those two tokens, then the end of file |
| MinskSyntaxTreeProperties.DriveTwo | Minsk/CodeAnalysis/Syntax/SyntaxTree.cs:62-69 | the same over any step table |
| MinskSyntaxTreeProperties.ThreeSteps | Minsk.Tests/CodeAnalysis/Syntax/LexerTests.cs:45-66 | a text that three `Lex()` calls consume yields those three tokens |
| MinskSyntaxTreeProperties.DriveThree | Minsk/CodeAnalysis/Syntax/SyntaxTree.cs:62-69 | the same over any step table |
| MinskSyntaxTreeProperties.PairWithSeparator | Minsk.Tests/CodeAnalysis/Syntax/LexerTests.cs:45-66 | two table tokens around a white-space separator yield three tokens: the first, the separator, the second |
| MinskSyntaxTreeProperties.SeparatedPairSteps | Minsk.Tests/CodeAnalysis/Syntax/LexerTests.cs:234-252 | the three table entries of a separated pair |
| MinskSyntaxTreeProperties.FirstOfSeparated | Minsk.Tests/CodeAnalysis/Syntax/LexerTests.cs:234-252 | the first token of a separated pair stops at the separator |
| MinskSyntaxTreeProperties.MiddleOfSeparated | Minsk.Tests/CodeAnalysis/Syntax/LexerTests.cs:139-152 | the separator is one white-space token |
| MinskSyntaxTreeProperties.LastOfSeparated | Minsk.Tests/CodeAnalysis/Syntax/LexerTests.cs:234-252 | the second token of a separated pair ends the text |
| MinskSyntaxTreeProperties.SeparatorStep | Minsk/CodeAnalysis/Syntax/Lexer.cs:202-210 | a separator, as an entry of the step table |
| MinskSyntaxTreeProperties.SeparatorAt | Minsk/CodeAnalysis/Syntax/Lexer.cs:202-210 | a white-space separator before a non-white-space character lexes as one white-space token |
| MinskSyntaxTreeProperties.TestTokenIsTableToken | Minsk.Tests/CodeAnalysis/Syntax/LexerTests.cs:92-137 | an entry of `GetTokens` is a table token |
| MinskSyntaxTreeProperties.TestSeparatorIsSeparator | Minsk.Tests/CodeAnalysis/Syntax/LexerTests.cs:139-152 | every entry of `GetSeparators` is a non-empty run of ASCII white space |
| MinskSyntaxTreeProperties.TestPairsLex | Minsk.Tests/CodeAnalysis/Syntax/LexerTests.cs:28-43 | every pair `GetTokenPairs` builds from the table lexes to its two tokens |
| MinskSyntaxTreeProperties.TestPairLexes | Minsk.Tests/CodeAnalysis/Syntax/LexerTests.cs:220-232 | one such pair |
| MinskSyntaxTreeProperties.SeparatedTestPairsLex | Minsk.Tests/CodeAnalysis/Syntax/LexerTests.cs:45-66 | every pair `GetTokenPairsWithSeparator` builds, with each of its separators, lexes to its three tokens |
| MinskSyntaxTreeProperties.TestSeparatedPairLexes | Minsk.Tests/CodeAnalysis/Syntax/LexerTests.cs:234-252 | one such triple |
| MinskParser.MatchAt | Minsk/CodeAnalysis/Syntax/Parser.cs:87-106 | `MatchToken` always gives a token of the requested kind. On a match it is the current token and the cursor moves one on. Otherwise there is exactly one UnexpectedToken diagnostic at the current token's span, the cursor stays, and the token is synthesised at the current position with no text and no value |
| MinskParser.AssignmentAt | Minsk/CodeAnalysis/Syntax/Parser.cs:131-150 | an assignment parse stays inside the token array and never moves back |
| MinskParser.BinaryAt | Minsk/CodeAnalysis/Syntax/Parser.cs:152-190 | a binary-expression parse stays inside the token array and never moves back |
| MinskParser.OperandAt | Minsk/CodeAnalysis/Syntax/Parser.cs:158-170 | an operand parse stays inside the token array and never moves back |
| MinskParser.BinaryLoop | Minsk/CodeAnalysis/Syntax/Parser.cs:172-185 | the operator loop stays inside the token array and never moves back |
| MinskParser.BinaryLoopStep | Minsk/CodeAnalysis/Syntax/Parser.cs:172-185 | one loop turn consumes the operator and parses the right operand at its precedence, making the expression so far the left child |
| MinskParser.PrimaryAt | Minsk/CodeAnalysis/Syntax/Parser.cs:192-230 | a primary parse stays inside the token array and never moves back |
| MinskParser.UnitAt | Minsk/CodeAnalysis/Syntax/Parser.cs:108-118 | `Parse` ends its unit with an end-of-file token |
| MinskParser.TokenArray | Minsk/CodeAnalysis/Syntax/Parser.cs:31-43 | the token array is never empty and ends with the lexer's end-of-file token |
| MinskParser.Parser.constructor | Minsk/CodeAnalysis/Syntax/Parser.cs:21-48 | the tokens are the significant lexed tokens and the end of file, the cursor is at 0, and the lexer's diagnostics come first |
| MinskParser.Parser.LexAll | Minsk/CodeAnalysis/Syntax/Parser.cs:31-45 | the do-while loop builds exactly the token array and collects exactly the lexer's diagnostics |
| MinskParser.Parser.LexStep | Minsk/CodeAnalysis/Syntax/Parser.cs:33-40 | one loop turn keeps the token unless it is white space or bad; the end of file completes the run |
| MinskParser.Parser.Peek | Minsk/CodeAnalysis/Syntax/Parser.cs:55-71 | the token `offset` places on, clamped to the last token |
| MinskParser.Parser.NextToken | Minsk/CodeAnalysis/Syntax/Parser.cs:75-85 | returns the current token and moves one on |
| MinskParser.Parser.MatchToken | Minsk/CodeAnalysis/Syntax/Parser.cs:87-106 | does what `MatchAt` describes, appending its diagnostic to the bag |
| MinskParser.Parser.Parse | Minsk/CodeAnalysis/Syntax/Parser.cs:108-118 | the expression followed by a matched end-of-file token, as `UnitAt` describes |
| MinskParser.Parser.ParseExpression | Minsk/CodeAnalysis/Syntax/Parser.cs:123-129 | an assignment expression, as `AssignmentAt` describes |
| MinskParser.Parser.ParseAssignmentExpression | Minsk/CodeAnalysis/Syntax/Parser.cs:131-150 | an identifier followed by `=` starts an assignment whose right side is again an assignment; otherwise a binary expression |
| MinskParser.Parser.ParseBinaryExpression | Minsk/CodeAnalysis/Syntax/Parser.cs:152-190 | precedence climbing, as `BinaryAt` describes |
| MinskParser.Parser.ParseOperand | Minsk/CodeAnalysis/Syntax/Parser.cs:158-170 | a prefix operator binding at least as tightly as the parent, applied to an operand parsed at its precedence, or else a primary |
| MinskParser.Parser.ParsePrimaryExpression | Minsk/CodeAnalysis/Syntax/Parser.cs:192-230 | a parenthesised expression, a `true`/`false` literal, a name, or a number matched with `MatchToken` |
| MinskParserProperties.MatchTokenAccounts | Minsk/CodeAnalysis/Syntax/Parser.cs:87-106 | a matched token is either consumed with its text or synthesised with one diagnostic |
| MinskParserProperties.AssignmentAccounts | Minsk/CodeAnalysis/Syntax/Parser.cs:131-150 | the tokens with text of an assignment parse are exactly the tokens it passed over, and it has one diagnostic per token it synthesised |
| MinskParserProperties.BinaryAccounts | Minsk/CodeAnalysis/Syntax/Parser.cs:152-190 | the same for a binary-expression parse |
| MinskParserProperties.OperandAccounts | Minsk/CodeAnalysis/Syntax/Parser.cs:158-170 | the same for an operand parse |
| MinskParserProperties.LoopAccounts | Minsk/CodeAnalysis/Syntax/Parser.cs:172-185 | the same for the operator loop: each turn consumes its operator token |
| MinskParserProperties.BinaryNodeAccounts | Minsk/CodeAnalysis/Syntax/Parser.cs:178-183 | a binary node built from two accounted operands and the operator between them is accounted |
| MinskParserProperties.PrimaryAccounts | Minsk/CodeAnalysis/Syntax/Parser.cs:192-230 | the same for a primary parse |
| MinskParserProperties.ParenthesizedAccounts | Minsk/CodeAnalysis/Syntax/Parser.cs:198-205 | the same for a parenthesised expression |
| MinskParserProperties.PrimaryOfParenthesis | Minsk/CodeAnalysis/Syntax/Parser.cs:198-205 | `(` is consumed, the inner expression parsed, and `)` matched |
| MinskParserProperties.AssignmentNodeAccounts | Minsk/CodeAnalysis/Syntax/Parser.cs:137-143 | an assignment node over the identifier, the `=` and an accounted right side is accounted |
| MinskParserProperties.UnaryNodeAccounts | Minsk/CodeAnalysis/Syntax/Parser.cs:162-166 | a unary node over the operator and an accounted operand is accounted |
| MinskParserProperties.ParenthesizedNodeAccounts | Minsk/CodeAnalysis/Syntax/Parser.cs:198-205 | a parenthesised node over `(`, an accounted inner expression and a matched `)` is accounted |
| MinskParserProperties.ParseAccountsForTokens | Minsk/CodeAnalysis/Syntax/Parser.cs:108-118 | `Parse` loses no token and invents none silently: its tokens with text are the array's, in order, up to where it stopped, with one diagnostic per synthesised token |
| MinskParserProperties.WithTextOfAll | Minsk/CodeAnalysis/Syntax/Parser.cs:31-43 | a list whose every token has text keeps all of them |
| MinskParserProperties.CleanParseCoversTokens | Minsk/CodeAnalysis/Syntax/Parser.cs:108-118 | a parse without diagnostics reads back as exactly the whole token array, the end of file included |
| MinskParserProperties.DriveTokensWellFormed | Minsk/CodeAnalysis/Syntax/Parser.cs:31-41 | before its end of file, a run yields only tokens that are not the end of file, all with text |
| MinskParserProperties.SignificantIsSubsequence | Minsk/CodeAnalysis/Syntax/Parser.cs:35-39 | the filter keeps only tokens of the list it filters |
| MinskParserProperties.TokenArrayShape | Minsk/CodeAnalysis/Syntax/Parser.cs:31-43 | the token array has no white-space or bad token, ends with the single end-of-file token, and every token has text |
| MinskParserProperties.ParseTextAccountsForTokens | Minsk/CodeAnalysis/Syntax/Parser.cs:45 | a text's diagnostics are the lexer's followed by one per synthesised token; with none at all, the tree reads back as the token array |
| MinskParserProperties.NumberOperand | Minsk/CodeAnalysis/Syntax/Parser.cs:223-228 | a number token in operand position is a literal, one token on, whatever the parent precedence |
| MinskParserProperties.LoopStops | Minsk/CodeAnalysis/Syntax/Parser.cs:176-177 | the loop stops at a token that does not bind tighter than the parent |
| MinskParserProperties.AssignmentNestsRight | Minsk/CodeAnalysis/Syntax/Parser.cs:131-150 | `a = b = 1` parses as `a = (b = 1)` |
| MinskParserProperties.TighterOperatorNestsRight | Minsk/CodeAnalysis/Syntax/Parser.cs:172-185 | `1 + 2 * 3` has root `+` with right child `*` |
| MinskParserProperties.LooserOperatorFoldsLeft | Minsk/CodeAnalysis/Syntax/Parser.cs:172-185 | `1 - 2 - 3` folds left: `(1 - 2) - 3` |
| MinskParserProperties.PrefixOperatorBindsOperand | Minsk/CodeAnalysis/Syntax/Parser.cs:158-166 | `-1 * 2` parses as `(-1) * 2` |
| MinskParserProperties.BinaryClimbs | Minsk/CodeAnalysis/Syntax/Parser.cs:152-190 | every binary-expression parse, over any token array, is climbed: each infix node outside parentheses binds tighter than the parent, its right child strictly tighter than it and its left child at least as tightly (so one level folds left), each prefix operator binds at least as tightly as the parent, no assignment appears outside parentheses, and the parse stops at a token binding no tighter than the parent |
| MinskParserProperties.OperandClimbs | Minsk/CodeAnalysis/Syntax/Parser.cs:158-170 | the first operand is climbed and is never an infix node |
| MinskParserProperties.LoopClimbs | Minsk/CodeAnalysis/Syntax/Parser.cs:172-185 | each turn of the operator loop keeps the climbed shape and where it stops |
| MinskParserProperties.AssignmentClimbs | Minsk/CodeAnalysis/Syntax/Parser.cs:123-150 | every expression parse is a right-nested chain of assignments ending in a climbed binary expression |
| MinskParserProperties.PrefixOperandIsNoInfix | Minsk/CodeAnalysis/Syntax/Parser.cs:158-166 | in a climbed tree the operand of a prefix operator is never a bare infix node |
| BoundUnaryOperators.BindUnaryOperator | Minsk/CodeAnalysis/Binding/Binder.cs:62-76 | definition of the unary operator lookup; its properties are in `BoundUnaryOperators.UnaryOperatorTable` |
| BoundUnaryOperators.UnaryOperatorTable | Minsk/CodeAnalysis/Binding/Binder.cs:62-76 | a unary lookup succeeds exactly for `+`/`-` on int and `!` on bool; what it finds answers the key and has the signature of its kind |
| BoundBinaryOperators.Operators | Minsk/CodeAnalysis/Binding/BoundBinaryOperator.cs:28-47 | definition of the operator table; its properties are in `BoundBinaryOperators.KeysAreUnique`, `BoundBinaryOperators.EntryIsResolution` and `BoundBinaryOperators.ArithmeticOperators` |
| BoundBinaryOperators.FirstMatch | Minsk/CodeAnalysis/Binding/BoundBinaryOperator.cs:55-68 | definition of the first-match search; its properties are in `BoundBinaryOperators.FirstMatchNone`, `BoundBinaryOperators.FirstMatchSome` and `BoundBinaryOperators.FirstMatchFound` |
| BoundBinaryOperators.SameTypeOperator | Minsk/CodeAnalysis/Binding/BoundBinaryOperator.cs:9-17 | the three-argument constructor gives both operands and the result one type |
| BoundBinaryOperators.OperandTypeOperator | Minsk/CodeAnalysis/Binding/BoundBinaryOperator.cs:18-26 | the four-argument constructor gives both operands one type and the result its own |
| BoundBinaryOperators.FirstMatchNone | Minsk/CodeAnalysis/Binding/BoundBinaryOperator.cs:55-68 | the search finds nothing exactly when no entry answers the key |
| BoundBinaryOperators.FirstMatchSome | Minsk/CodeAnalysis/Binding/BoundBinaryOperator.cs:55-68 | the search finds an entry that answers when no earlier one does |
| BoundBinaryOperators.FirstMatchFound | Minsk/CodeAnalysis/Binding/BoundBinaryOperator.cs:55-68 | what the search finds is the first entry that answers the key |
| BoundBinaryOperators.Bind | Minsk/CodeAnalysis/Binding/BoundBinaryOperator.cs:55-68 | the `foreach` returns the first entry whose syntax kind and operand types equal the key, or null |
| BoundBinaryOperators.EntryIsResolution | Minsk/CodeAnalysis/Binding/BoundBinaryOperator.cs:28-47 | each entry answers its own key, and an independent per-token account of the table gives that entry |
| BoundBinaryOperators.ResolutionIsEntry | Minsk/CodeAnalysis/Binding/BoundBinaryOperator.cs:28-47 | what the account gives is an entry of the table that answers the key |
| BoundBinaryOperators.EntryAnswersResolution | Minsk/CodeAnalysis/Binding/BoundBinaryOperator.cs:28-47 | every entry that answers a key is what the account gives |
| BoundBinaryOperators.FoundIsResolution | Minsk/CodeAnalysis/Binding/BoundBinaryOperator.cs:55-68 | what the lookup finds is what the account gives |
| BoundBinaryOperators.NotFoundIsResolution | Minsk/CodeAnalysis/Binding/BoundBinaryOperator.cs:55-68 | when the lookup finds nothing, neither does the account |
| BoundBinaryOperators.LookupIsResolution | Minsk/CodeAnalysis/Binding/BoundBinaryOperator.cs:55-68 | the first-match lookup equals the account for every key |
| BoundBinaryOperators.OperandTypesAgree | Minsk/CodeAnalysis/Binding/BoundBinaryOperator.cs:28-47 | no entry has operands of different types |
| BoundBinaryOperators.MixedOperandsHaveNoOperator | Minsk/CodeAnalysis/Binding/BoundBinaryOperator.cs:28-47 | a lookup with mixed operand types finds nothing |
| BoundBinaryOperators.KeysAreUnique | Minsk/CodeAnalysis/Binding/BoundBinaryOperator.cs:28-47 | no two entries share a (syntax kind, left type, right type) key |
| BoundBinaryOperators.FirstMatchIsOnlyMatch | Minsk/CodeAnalysis/Binding/BoundBinaryOperator.cs:55-68 | any entry that answers a key is the one the lookup finds |
| BoundBinaryOperators.ArithmeticOperators | Minsk/CodeAnalysis/Binding/BoundBinaryOperator.cs:30-33 | `+ - * /` exist for int and int only, and give int |
| BoundBinaryOperators.EqualityOperators | Minsk/CodeAnalysis/Binding/BoundBinaryOperator.cs:35-46 | `==` and `!=` exist for int and int and for bool and bool, and give bool |
| BoundBinaryOperators.LogicalOperators | Minsk/CodeAnalysis/Binding/BoundBinaryOperator.cs:43-44 | `&&` and `\|\|` exist for bool and bool only, and give bool |
| BoundBinaryOperators.RelationalOperators | Minsk/CodeAnalysis/Binding/BoundBinaryOperator.cs:38-41 | `< <= > >=` exist for int and int only, and give bool |
| BoundBinaryOperators.EntryKind | Minsk/CodeAnalysis/Binding/BoundBinaryOperator.cs:28-47 | every entry is keyed by one of the twelve operator tokens |
| BoundBinaryOperators.OtherKindsHaveNoOperator | Minsk/CodeAnalysis/Binding/BoundBinaryOperator.cs:28-47 | every other token kind has no binary operator |
| BoundBinaryOperators.FoundOperatorAnswers | Minsk/CodeAnalysis/Binding/BoundBinaryOperator.cs:55-68 | the operator found has the syntax kind and operand types asked for |
| BoundBinaryOperators.ResolutionSignature | Minsk/CodeAnalysis/Binding/BoundBinaryOperator.cs:28-47 | what the account gives has the signature of its kind |
| BoundBinaryOperators.FoundOperatorSignature | Minsk/CodeAnalysis/Binding/BoundBinaryOperator.cs:55-68 | whatever the lookup finds has the signature of its kind |
| MinskBinder.BindLiteral | Minsk/CodeAnalysis/Binding/Binder.cs:46-55 | definition of the literal case; its properties are in `MinskBinderProperties.LiteralBinding` |
| MinskBinder.BindUnary | Minsk/CodeAnalysis/Binding/Binder.cs:57-77 | definition of the unary case once the operand is bound; its properties are in `MinskBinderProperties.UnaryBinding` |
| MinskBinder.BindBinary | Minsk/CodeAnalysis/Binding/Binder.cs:79-98 | definition of the binary case once the operands are bound; its properties are in `MinskBinder.BinaryBindingOfBound` and `MinskBinderProperties.BinaryBinding` |
| MinskBinder.BindingOf | Minsk/CodeAnalysis/Binding/Binder.cs:18-98 | definition of `BindExpression` as a value with its diagnostics; its properties are in `MinskBinderProperties.BindingThrowsExactlyWhenUnbindable`, `MinskBinderProperties.BoundTreeIsWellTyped`, `MinskBinderProperties.DiagnosticsAtOperators` and `MinskBinderProperties.CleanBindingKeepsEveryOperator` |
| MinskBinder.BinaryBindingOfBound | Minsk/CodeAnalysis/Binding/Binder.cs:79-98 | once both operands bind, a binary node joins them under the operator found, or else keeps the left operand with one diagnostic |
| MinskBinder.Binder.constructor | Minsk/CodeAnalysis/Binding/Binder.cs:18-44 | a new binder has an empty diagnostic bag |
| MinskBinder.Binder.BindExpression | Minsk/CodeAnalysis/Binding/Binder.cs:18-44 | returns what `BindingOf` gives and appends its diagnostics, in order, to the bag |
| MinskBinder.Binder.BindLiteralExpression | Minsk/CodeAnalysis/Binding/Binder.cs:46-55 | the literal's value, or the int 0 when it has none |
| MinskBinder.Binder.BindUnaryExpression | Minsk/CodeAnalysis/Binding/Binder.cs:57-77 | binds the operand first, then the operator, with the diagnostics `BindingOf` gives |
| MinskBinder.Binder.BindBinaryExpression | Minsk/CodeAnalysis/Binding/Binder.cs:79-98 | binds the left operand, then the right one, then the operator, with the diagnostics `BindingOf` gives |
| MinskBinder.Binder.BindOperator | Minsk/CodeAnalysis/Binding/Binder.cs:85-97 | the lookup, and the diagnostic when it fails |
| MinskBinderProperties.LiteralBinding | Minsk/CodeAnalysis/Binding/Binder.cs:46-55 | a literal binds to its value, or to the int 0 without one, and reports nothing |
| MinskBinderProperties.ParenthesizedBinding | Minsk/CodeAnalysis/Binding/Binder.cs:36-38 | a parenthesised expression binds exactly as its inner expression does, with no wrapper node |
| MinskBinderProperties.NameAndAssignmentThrow | Minsk/CodeAnalysis/Binding/Binder.cs:40-41 | a name or an assignment throws with its syntax kind |
| MinskBinderProperties.UnaryBinding | Minsk/CodeAnalysis/Binding/Binder.cs:57-77 | with an operator for the operand's type the node wraps the operand; otherwise one diagnostic at the operator's span, after the operand's, and the bound operand itself |
| MinskBinderProperties.BinaryBinding | Minsk/CodeAnalysis/Binding/Binder.cs:79-98 | with an operator for both types the node joins the operands; otherwise one diagnostic at the operator's span, after both operands', and the left operand alone |
| MinskBinderProperties.BindingThrowsExactlyWhenUnbindable | Minsk/CodeAnalysis/Binding/Binder.cs:18-44 | binding throws exactly when it reaches a name or an assignment, and then with the kind of one |
| MinskBinderProperties.BinaryThrowsExactlyWhenUnbindable | Minsk/CodeAnalysis/Binding/Binder.cs:79-98 | the binary step of the above |
| MinskBinderProperties.BoundTreeIsWellTyped | Minsk/CodeAnalysis/Binding/Binder.cs:18-98 | every bound tree is well typed: no operator sits over operands of the wrong type |
| MinskBinderProperties.BinaryTreeIsWellTyped | Minsk/CodeAnalysis/Binding/Binder.cs:79-98 | the binary step of the above |
| MinskBinderProperties.DiagnosticsAtOperators | Minsk/CodeAnalysis/Binding/Binder.cs:61-89 | only failed operator lookups report: every diagnostic lies at an operator token of the tree |
| MinskBinderProperties.BinaryDiagnosticsAtOperators | Minsk/CodeAnalysis/Binding/Binder.cs:83-89 | the binary step of the above |
| MinskBinderProperties.BinarySpansWithin | Minsk/CodeAnalysis/Binding/Binder.cs:83-89 | a binary node's diagnostics are its operands', then its own at the operator's span |
| MinskBinderProperties.CleanBinaryBinding | Minsk/CodeAnalysis/Binding/Binder.cs:79-98 | a binary node that binds without diagnostics has operands that do too, and its operator was found |
| MinskBinderProperties.CleanBindingKeepsEveryOperator | Minsk/CodeAnalysis/Binding/Binder.cs:18-98 | a binding without diagnostics keeps every operator of the syntax, each bound to an operator of its token's kind |
| MinskBinderProperties.BoundTreeHasNoVariables | Minsk/CodeAnalysis/Binding/Binder.cs:40-41 | a tree that binds reads and assigns no variable |
| MinskBinderProperties.BinaryTreeHasNoVariables | Minsk/CodeAnalysis/Binding/Binder.cs:79-98 | the binary step of the above |
| MinskEvaluator.ApplyUnary | Minsk/CodeAnalysis/Evaluator.cs:63-87 | definition of the unary `switch`; its properties are in `MinskEvaluatorProperties.UnaryIsTypeSafe`, `MinskEvaluatorProperties.NegationWraps`, `MinskEvaluatorProperties.IdentityAndLogicalNegation` and `MinskEvaluatorProperties.UnaryCastFails` |
| MinskEvaluator.ApplyBinary | Minsk/CodeAnalysis/Evaluator.cs:89-139 | definition of the binary `switch`; its properties are in `MinskEvaluatorProperties.BinaryIsTypeSafe`, `MinskEvaluatorProperties.ArithmeticWraps`, `MinskEvaluatorProperties.DivisionTruncates` and `MinskEvaluatorProperties.EqualityOperatorsAgree` |
| MinskEvaluator.Eval | Minsk/CodeAnalysis/Evaluator.cs:33-149 | definition of `EvaluateExpression` over a tree and a store; its properties are in `MinskEvaluatorProperties.EvaluationIsTypeSafe`, `MinskEvaluatorProperties.EvaluationFrame`, `MinskEvaluatorProperties.ReadOnlyEvaluation` and `MinskEvaluatorProperties.LogicalOperatorsEvaluateBothOperands` |
| MinskEvaluator.VariableStore.constructor | Minsk/CodeAnalysis/Evaluator.cs:15-23 | the store holds the caller's dictionary contents |
| MinskEvaluator.Evaluator.constructor | Minsk/CodeAnalysis/Evaluator.cs:15-23 | the evaluator keeps the root and shares the caller's store |
| MinskEvaluator.Evaluator.Evaluate | Minsk/CodeAnalysis/Evaluator.cs:25-31 | evaluates the root: the result and the new store are what `Eval` gives |
| MinskEvaluator.Evaluator.EvaluateExpression | Minsk/CodeAnalysis/Evaluator.cs:33-149 | the result and the store it leaves, also when it throws, are what `Eval` gives |
| MinskEvaluatorProperties.EvaluationFrame | Minsk/CodeAnalysis/Evaluator.cs:53-61 | evaluation only adds slots for names the tree assigns, and keeps the value of every slot it does not assign |
| MinskEvaluatorProperties.ReadOnlyEvaluation | Minsk/CodeAnalysis/Evaluator.cs:33-149 | a tree without assignments leaves the store as it was |
| MinskEvaluatorProperties.VariablesAreFound | Minsk/CodeAnalysis/Evaluator.cs:44-51 | a tree whose symbols all have slots never misses a key |
| MinskEvaluatorProperties.LiteralAndVariableRead | Minsk/CodeAnalysis/Evaluator.cs:37-51 | a literal returns its value; a read returns the slot's value exactly when the name has a slot, and neither changes the store |
| MinskEvaluatorProperties.AssignmentStoresValue | Minsk/CodeAnalysis/Evaluator.cs:53-61 | an assignment returns the value, stores it under the name, and keeps every other slot; a later read returns it |
| MinskEvaluatorProperties.UnaryIsTypeSafe | Minsk/CodeAnalysis/Evaluator.cs:63-87 | a unary operator applied to an operand of its type returns a value of its result type |
| MinskEvaluatorProperties.BinaryIsTypeSafe | Minsk/CodeAnalysis/Evaluator.cs:89-139 | a binary operator on operands of its types never fails a cast, and throws exactly for a zero divisor, for int.MinValue / -1, or for a relational kind |
| MinskEvaluatorProperties.AssignmentKeepsStoreFitting | Minsk/CodeAnalysis/Evaluator.cs:53-61 | storing a value of the symbol's type keeps every slot of the type its symbols declare |
| MinskEvaluatorProperties.EvaluationIsTypeSafe | Minsk/CodeAnalysis/Evaluator.cs:33-149 | type soundness: a well-typed tree over a fitting store never fails a cast, a value it returns has the tree's type, and the store still fits |
| MinskEvaluatorProperties.BinaryEvaluationIsTypeSafe | Minsk/CodeAnalysis/Evaluator.cs:89-139 | the binary step of the above |
| MinskEvaluatorProperties.LogicalOperatorsEvaluateBothOperands | Minsk/CodeAnalysis/Evaluator.cs:116-124 | `&&` and `\|\|` evaluate both operands, and the right one's effects on the store stay; a deciding left value is the result |
| MinskEvaluatorProperties.NoShortCircuit | Minsk/CodeAnalysis/Evaluator.cs:116-119 | `false && (x = true)` yields false and still assigns `x` |
| MinskEvaluatorProperties.ArithmeticWraps | Minsk/CodeAnalysis/Evaluator.cs:96-109 | `+ - *` on ints never throw; the result is congruent to the exact one modulo 2^32 and equals it when that fits |
| MinskEvaluatorProperties.DivisionTruncates | Minsk/CodeAnalysis/Evaluator.cs:111-114 | `/` throws exactly for a zero divisor and for int.MinValue / -1; otherwise it truncates toward zero |
| MinskEvaluatorProperties.EqualityOperatorsAgree | Minsk/CodeAnalysis/Evaluator.cs:126-134 | `==` and `!=` always return opposite answers, by value equality; values of different types are unequal |
| MinskEvaluatorProperties.NegationWraps | Minsk/CodeAnalysis/Evaluator.cs:74-77 | negation is exact except for int.MinValue, which it leaves unchanged |
| MinskEvaluatorProperties.IdentityAndLogicalNegation | Minsk/CodeAnalysis/Evaluator.cs:69-82 | identity returns its int operand; logical negation returns the opposite bool |
| MinskEvaluatorProperties.UnaryCastFails | Minsk/CodeAnalysis/Evaluator.cs:63-87 | a unary operator on a value of the other type fails its cast |
| MinskCompilation.CompilationOutcome | Minsk/CodeAnalysis/Compilation.cs:27-49 | definition of what `Evaluate` returns and leaves in the store; its properties are in `MinskCompilationProperties.ValueExactlyWithoutDiagnostics`, `MinskCompilationProperties.BindingFaultPropagates` and `MinskCompilationProperties.CleanCompilationIsSound` |
| MinskCompilation.Compilation.constructor | Minsk/CodeAnalysis/Compilation.cs:16-23 | keeps the syntax tree |
| MinskCompilation.Compilation.Evaluate | Minsk/CodeAnalysis/Compilation.cs:27-49 | binds, merges the diagnostics and evaluates only when clean, changing the caller's store as `CompilationOutcome` says |
| MinskCompilationProperties.ValueExactlyWithoutDiagnostics | Minsk/CodeAnalysis/Compilation.cs:34-48 | a value exactly when there are no diagnostics; the diagnostics are the tree's then the binder's, or none; with diagnostics the store is untouched |
| MinskCompilationProperties.BindingFaultPropagates | Minsk/CodeAnalysis/Compilation.cs:31-32 | the binder runs whatever the parser reported; an expression that does not bind throws, and the store is untouched |
| MinskCompilationProperties.CleanCompilationIsSound | Minsk/CodeAnalysis/Compilation.cs:43-48 | a clean compilation leaves the store unchanged, its value has the bound tree's type, and it throws only for a zero divisor, int.MinValue / -1 or a relational operator |
| McLexer.NumberAt | mc/CodeAnalysis/Lexer.cs:70-90 | definition of the number case; its properties are in `McLexerProperties.NumberIsMaximalDigitRun` |
| McLexer.WhiteSpaceAt | mc/CodeAnalysis/Lexer.cs:92-107 | definition of the white-space case; its properties are in `McLexerProperties.WhiteSpaceIsMaximalRun` |
| McLexer.SingleCharacterKind | mc/CodeAnalysis/Lexer.cs:109-144 | definition of the one-character operator cases; its properties are in `McLexerProperties.SingleCharacterToken` and `McLexerProperties.BadCharacterIsReportedAndSkipped` |
| McLexer.NextTokenAt | mc/CodeAnalysis/Lexer.cs:55-151 | one call: end of file exactly at the end, with text "\0" and the cursor staying; otherwise a token at the cursor over the characters passed, moving on; at most one message |
| McLexer.LexFrom | mc/CodeAnalysis/Parser.cs:56-65 | repeated calls until the end of file, which sits at the end of the text |
| McLexer.RunSoFarStart | mc/CodeAnalysis/Parser.cs:56-65 | the lexing loop starts with the whole run ahead |
| McLexer.RunSoFarStep | mc/CodeAnalysis/Parser.cs:56-65 | a loop turn that does not yield the end of file moves the cursor and the run on |
| McLexer.RunSoFarEnd | mc/CodeAnalysis/Parser.cs:65 | the turn that yields the end of file completes the run |
| McLexer.Lexer.constructor | mc/CodeAnalysis/Lexer.cs:20-27 | a new lexer has the text, its cursor at 0 and no messages |
| McLexer.Lexer.Current | mc/CodeAnalysis/Lexer.cs:31-44 | '\0' at or past the end, else the character under the cursor |
| McLexer.Lexer.Next | mc/CodeAnalysis/Lexer.cs:46-53 | moves the cursor one on |
| McLexer.Lexer.NextToken | mc/CodeAnalysis/Lexer.cs:55-151 | returns the token `NextTokenAt` describes and moves the cursor there |
| McLexer.Lexer.ReadNumber | mc/CodeAnalysis/Lexer.cs:70-90 | a maximal digit run, valued, with a message when it does not parse |
| McLexer.Lexer.ReadWhiteSpace | mc/CodeAnalysis/Lexer.cs:92-107 | a maximal white-space run |
| McLexer.Lexer.ReadSingleCharacter | mc/CodeAnalysis/Lexer.cs:109-150 | a one-character token, or a reported bad character |
| McLexerProperties.EndOfFileIsIdempotent | mc/CodeAnalysis/Lexer.cs:63-68 | at the end, the end of file at the cursor with text "\0", staying, so calling again returns the same |
| McLexerProperties.NumberIsMaximalDigitRun | mc/CodeAnalysis/Lexer.cs:70-90 | a digit starts a NumberToken over the maximal digit run; a run that does not parse has value 0 and exactly one message |
| McLexerProperties.WhiteSpaceIsMaximalRun | mc/CodeAnalysis/Lexer.cs:92-107 | a white-space character starts one token over the maximal run |
| McLexerProperties.SingleCharacterToken | mc/CodeAnalysis/Lexer.cs:109-144 | each of `+ - * / ( )` is a one-character token of its kind at the cursor, moving one on |
| McLexerProperties.BadCharacterIsReportedAndSkipped | mc/CodeAnalysis/Lexer.cs:146-150 | any other character is reported once and skipped as a one-character bad token |
| McLexerProperties.LetterIsBadCharacter | mc/CodeAnalysis/Lexer.cs:146-150 | this lexer knows no words: a letter is a bad character |
| McLexerProperties.StepReportsFlagged | mc/CodeAnalysis/Lexer.cs:55-151 | a call adds a message exactly when its token is bad or a number that does not fit |
| McLexerProperties.ConsSpells | mc/CodeAnalysis/Lexer.cs:55-151 | a token spelling a slice before a run spelling the rest spells the whole, messages counted |
| McLexerProperties.RunSpellsText | mc/CodeAnalysis/Parser.cs:56-65 | a run's tokens spell the rest of the text, none is the end of file, and there is one message per flagged token |
| McParser.ParseText | mc/CodeAnalysis/Parser.cs:46-88 | definition of a text parsed into a tree with its messages; its properties are in `McParserProperties.ParseTextAccountsForTokens` |
| McParser.MatchAt | mc/CodeAnalysis/Parser.cs:90-109 | as in the current parser: a token of the requested kind, consumed on a match; otherwise one message, no move and a synthesised token |
| McParser.TermAt | mc/CodeAnalysis/Parser.cs:171-188 | a term parse stays inside the token array and never moves back |
| McParser.TermLoop | mc/CodeAnalysis/Parser.cs:171-188 | the `+ -` loop stays inside the token array and never moves back |
| McParser.TermLoopBounds | mc/CodeAnalysis/Parser.cs:171-188 | the loop starts from the first factor and stops at any token other than `+` and `-` |
| McParser.TermLoopStep | mc/CodeAnalysis/Parser.cs:171-188 | one turn takes the expression so far as the left operand of the operator and a factor |
| McParser.FactorAt | mc/CodeAnalysis/Parser.cs:130-147 | a factor parse stays inside the token array and never moves back |
| McParser.FactorLoop | mc/CodeAnalysis/Parser.cs:130-147 | the `* /` loop stays inside the token array and never moves back |
| McParser.FactorLoopBounds | mc/CodeAnalysis/Parser.cs:130-147 | the loop starts from the first primary and stops at any token other than `*` and `/` |
| McParser.FactorLoopStep | mc/CodeAnalysis/Parser.cs:130-147 | one turn takes the expression so far as the left operand of the operator and a primary |
| McParser.PrimaryAt | mc/CodeAnalysis/Parser.cs:149-169 | a primary parse stays inside the token array and never moves back |
| McParser.PrimaryOfNumber | mc/CodeAnalysis/Parser.cs:164-168 | any token but `(` starts a number literal matched with `MatchToken` |
| McParser.UnitAt | mc/CodeAnalysis/Parser.cs:78-88 | `Parse` ends with a matched end-of-file token |
| McParser.TokenArray | mc/CodeAnalysis/Parser.cs:56-67 | the token array is never empty and ends with the run's end of file |
| McParser.Parser.constructor | mc/CodeAnalysis/Parser.cs:46-72 | the tokens are the significant lexed tokens and the end of file; the lexer's messages come first |
| McParser.Parser.LexAll | mc/CodeAnalysis/Parser.cs:56-69 | the do-while loop builds exactly the token array and the lexer's messages |
| McParser.Parser.Peek | mc/CodeAnalysis/Parser.cs:193-209 | the token `offset` places on, clamped to the last token |
| McParser.Parser.NextToken | mc/CodeAnalysis/Parser.cs:111-121 | returns the current token, moves one on, adds nothing |
| McParser.Parser.MatchToken | mc/CodeAnalysis/Parser.cs:90-109 | does what `MatchAt` describes |
| McParser.Parser.Parse | mc/CodeAnalysis/Parser.cs:78-88 | the expression and a matched end of file, as `UnitAt` describes |
| McParser.Parser.ParseExpression | mc/CodeAnalysis/Parser.cs:123-128 | a term, as `TermAt` describes |
| McParser.Parser.ParseTerm | mc/CodeAnalysis/Parser.cs:171-188 | folds `+ -` over factors, as `TermAt` describes |
| McParser.Parser.ParseFactor | mc/CodeAnalysis/Parser.cs:130-147 | folds `* /` over primaries, as `FactorAt` describes |
| McParser.Parser.ParsePrimaryExpression | mc/CodeAnalysis/Parser.cs:149-169 | a parenthesised expression or a matched number, as `PrimaryAt` describes |
| McParser.Parser.ParseParenthesized | mc/CodeAnalysis/Parser.cs:153-160 | `(`, an expression and a matched `)` |
| McParserProperties.MatchTokenAccounts | mc/CodeAnalysis/Parser.cs:90-109 | a matched token is consumed with its text or synthesised with one message |
| McParserProperties.BinaryNodeAccounts | mc/CodeAnalysis/Parser.cs:136-144 | a binary node over two accounted operands and the operator between is accounted |
| McParserProperties.TermAccounts | mc/CodeAnalysis/Parser.cs:171-188 | a term's tokens with text are exactly those it passed over, with one message per synthesised token |
| McParserProperties.TermLoopAccounts | mc/CodeAnalysis/Parser.cs:171-188 | the same for the `+ -` loop |
| McParserProperties.FactorAccounts | mc/CodeAnalysis/Parser.cs:130-147 | the same for a factor |
| McParserProperties.FactorLoopAccounts | mc/CodeAnalysis/Parser.cs:130-147 | the same for the `* /` loop |
| McParserProperties.PrimaryAccounts | mc/CodeAnalysis/Parser.cs:149-169 | the same for a primary |
| McParserProperties.PrimaryOfParenthesis | mc/CodeAnalysis/Parser.cs:153-160 | `(` is consumed, a term parsed and `)` matched |
| McParserProperties.ParenthesizedAccounts | mc/CodeAnalysis/Parser.cs:153-160 | the same accounting for a parenthesised expression |
| McParserProperties.ParseAccountsForTokens | mc/CodeAnalysis/Parser.cs:78-88 | `Parse` loses no token and invents none silently |
| McParserProperties.CleanParseCoversTokens | mc/CodeAnalysis/Parser.cs:78-88 | a parse without messages reads back as exactly the token array |
| McParserProperties.TokenArrayShape | mc/CodeAnalysis/Parser.cs:56-67 | no white-space or bad token, a single end of file at the end, every token with text |
| McParserProperties.ParseTextAccountsForTokens | mc/CodeAnalysis/Parser.cs:69 | the lexer's messages first, then one per synthesised token; with none, the tree reads back as the token array |
| McParserProperties.NumberFactor | mc/CodeAnalysis/Parser.cs:130-147 | a number before a token that is no operator of that level is a factor on its own |
| McParserProperties.FactorNestsRight | mc/CodeAnalysis/Parser.cs:18-36 | `1 + 2 * 3` has root `+` with right child `*` |
| McParserProperties.TermFoldsLeft | mc/CodeAnalysis/Parser.cs:171-188 | `1 - 2 - 3` folds left |
| McParserProperties.MinusWithoutLeftOperand | mc/CodeAnalysis/Parser.cs:149-169 | `-1` has no unary operator: one message and a binary node over a synthesised number |
| McParserProperties.FactorLoopShapes | mc/CodeAnalysis/Parser.cs:136-144 | the `* /` loop keeps the factor shape and stops at a token that is no `*` or `/` |
| McParserProperties.FactorShapes | mc/CodeAnalysis/Parser.cs:130-147 | every factor parse, over any token array, is primaries joined by `*` and `/`, folded left |
| McParserProperties.TermLoopShapes | mc/CodeAnalysis/Parser.cs:177-185 | the `+ -` loop keeps the term shape and stops at a token that is no infix operator |
| McParserProperties.TermShapes | mc/CodeAnalysis/Parser.cs:171-188 | every expression parse is factors joined by `+` and `-`, folded left, so `*` and `/` bind tighter than `+` and `-`, and it stops at a token that is no infix operator |
| McSyntaxLexer.PeekChar | mc/CodeAnalysis/Syntax/Lexer.cs:32-44 | `Peek` gives '\0' when `position + offset` is past the end, and otherwise the character at the cursor, ignoring the offset |
| McSyntaxLexer.WordAt | mc/CodeAnalysis/Syntax/Lexer.cs:108-124 | definition of the word case; its properties are in `McSyntaxLexerProperties.WordIsMaximalLetterRun`, `McSyntaxLexerProperties.WordAlone` and `McSyntaxLexerProperties.AsciiWordAlone` |
| McSyntaxLexer.SingleCharacterKind | mc/CodeAnalysis/Syntax/Lexer.cs:126-156 | definition of the one-character cases of the `switch`; its properties are in `McSyntaxLexerProperties.SingleCharacterToken` and `McSyntaxLexerProperties.BangNeverDoubles` |
| McSyntaxLexer.DoubledKind | mc/CodeAnalysis/Syntax/Lexer.cs:158-174 | definition of the `&&` and `\|\|` cases; its properties are in `McSyntaxLexerProperties.DoubledOperatorIgnoresNextCharacter` and `McSyntaxLexerProperties.LastAmpersandOrPipeIsBad` |
| McSyntaxLexer.PunctuationAt | mc/CodeAnalysis/Syntax/Lexer.cs:126-182 | definition of the `switch` and the bad-character fallback; its properties are in `McSyntaxLexerProperties.SingleCharacterToken`, `McSyntaxLexerProperties.DoubledOperatorIgnoresNextCharacter` and `McSyntaxLexerProperties.BadCharacterIsReportedAndSkipped` |
| McSyntaxLexer.LexAt | mc/CodeAnalysis/Syntax/Lexer.cs:55-183 | one call: end of file exactly at the end, staying; otherwise the cursor moves on; at most one message |
| McSyntaxLexer.LexFrom | mc/CodeAnalysis/Syntax/Parser.cs:31-40 | repeated calls until the end of file, which sits at the end of the text |
| McSyntaxLexer.RunSoFarStart | mc/CodeAnalysis/Syntax/Parser.cs:31-40 | the lexing loop starts with the whole run ahead |
| McSyntaxLexer.RunSoFarStep | mc/CodeAnalysis/Syntax/Parser.cs:31-40 | a turn that does not yield the end of file moves the cursor and the run on |
| McSyntaxLexer.RunSoFarEnd | mc/CodeAnalysis/Syntax/Parser.cs:40 | the turn that yields the end of file completes the run |
| McSyntaxLexer.Lexer.constructor | mc/CodeAnalysis/Syntax/Lexer.cs:18-25 | a new lexer has the text, its cursor at 0 and no messages |
| McSyntaxLexer.Lexer.Peek | mc/CodeAnalysis/Syntax/Lexer.cs:32-44 | what `PeekChar` describes |
| McSyntaxLexer.Lexer.Current | mc/CodeAnalysis/Syntax/Lexer.cs:29 | '\0' at the end, else the character under the cursor |
| McSyntaxLexer.Lexer.Lookahead | mc/CodeAnalysis/Syntax/Lexer.cs:30 | the current character again, except at the last character, where it is '\0' |
| McSyntaxLexer.Lexer.ReadWhile | mc/CodeAnalysis/Syntax/Lexer.cs:66-124 | a `while` over a class of characters moves to the end of the run |
| McSyntaxLexer.Lexer.Lex | mc/CodeAnalysis/Syntax/Lexer.cs:55-183 | returns the token `LexAt` describes and moves the cursor there |
| McSyntaxLexer.Lexer.LexNumber | mc/CodeAnalysis/Syntax/Lexer.cs:66-86 | the digit branch, as in the first lexer |
| McSyntaxLexer.Lexer.LexWhiteSpace | mc/CodeAnalysis/Syntax/Lexer.cs:88-103 | the white-space branch, as in the first lexer |
| McSyntaxLexer.Lexer.LexWord | mc/CodeAnalysis/Syntax/Lexer.cs:108-124 | a maximal letter run classified as a keyword or an identifier |
| McSyntaxLexer.Lexer.LexPunctuation | mc/CodeAnalysis/Syntax/Lexer.cs:126-182 | the `switch` and the bad character, as `PunctuationAt` describes |
| McSyntaxLexerProperties.EndOfFileIsIdempotent | mc/CodeAnalysis/Syntax/Lexer.cs:59-64 | at the end, the end of file with text "\0", staying, so calling again returns the same |
| McSyntaxLexerProperties.PeekIgnoresOffset | mc/CodeAnalysis/Syntax/Lexer.cs:32-44 | in range `Peek` reads the current character whatever the offset, so `Lookahead` is `Current` except at the last character |
| McSyntaxLexerProperties.NumberIsMaximalDigitRun | mc/CodeAnalysis/Syntax/Lexer.cs:66-86 | a maximal digit run, valued, with one message when it does not parse |
| McSyntaxLexerProperties.WhiteSpaceIsMaximalRun | mc/CodeAnalysis/Syntax/Lexer.cs:88-103 | one token for a maximal white-space run |
| McSyntaxLexerProperties.WordIsMaximalLetterRun | mc/CodeAnalysis/Syntax/Lexer.cs:108-124 | a maximal letter run classified by `GetKeyWordKind`, without a value or a message |
| McSyntaxLexerProperties.WordAlone | mc/CodeAnalysis/Syntax/Lexer.cs:108-124 | a word alone lexes to its keyword kind or an identifier, with the word as text |
| McSyntaxLexerProperties.AsciiWordAlone | mc/CodeAnalysis/Syntax/Lexer.cs:108-124 | the same for every word of ASCII letters |
| McSyntaxLexerProperties.KeywordsAndIdentifiers | mc/CodeAnalysis/Syntax/Lexer.cs:108-124 | `true` and `false` are keywords; `trueish` is an identifier |
| McSyntaxLexerProperties.SingleCharacterToken | mc/CodeAnalysis/Syntax/Lexer.cs:128-156 | each of `+ - * / ( ) !` is a one-character token of its kind |
| McSyntaxLexerProperties.BangNeverDoubles | mc/CodeAnalysis/Syntax/Lexer.cs:153-156 | `!=` lexes as `!` and then a bad `=` |
| McSyntaxLexerProperties.DoubledOperatorIgnoresNextCharacter | mc/CodeAnalysis/Syntax/Lexer.cs:158-174 | a `&` or `\|` that is not last is its doubled operator whatever follows, with text `&&` or `\|\|`, position two on, moving two on |
| McSyntaxLexerProperties.AmpersandSwallowsNextCharacter | mc/CodeAnalysis/Syntax/Lexer.cs:158-165 | `&1` lexes as `&&` and then the end of file |
| McSyntaxLexerProperties.LastAmpersandOrPipeIsBad | mc/CodeAnalysis/Syntax/Lexer.cs:178-182 | a `&` or `\|` as the last character is a bad character |
| McSyntaxLexerProperties.BadCharacterIsReportedAndSkipped | mc/CodeAnalysis/Syntax/Lexer.cs:178-182 | any other character is reported once and skipped as a one-character bad token |
| McSyntaxLexerProperties.StepReportsFlagged | mc/CodeAnalysis/Syntax/Lexer.cs:55-183 | a call adds a message exactly when its token is bad or a number that does not fit |
| McSyntaxLexerProperties.RunReportsFlagged | mc/CodeAnalysis/Syntax/Parser.cs:31-40 | before its end of file a run yields tokens with text, none the end of file, and one message per flagged token |
| McSyntaxParser.ParseText | mc/CodeAnalysis/Syntax/Parser.cs:21-63 | definition of a text parsed into a tree with its messages; its properties are in `McSyntaxParserProperties.ParseTextAccountsForTokens` |
| McSyntaxParser.ExpressionAt | mc/CodeAnalysis/Syntax/Parser.cs:98-137 | an expression parse stays inside the token array and never moves back |
| McSyntaxParser.OperandAt | mc/CodeAnalysis/Syntax/Parser.cs:104-117 | an operand parse stays inside the token array and never moves back |
| McSyntaxParser.BinaryLoop | mc/CodeAnalysis/Syntax/Parser.cs:119-132 | the operator loop stays inside the token array and never moves back |
| McSyntaxParser.BinaryLoopBounds | mc/CodeAnalysis/Syntax/Parser.cs:119-132 | the loop starts from the first operand and stops at a token it does not take |
| McSyntaxParser.BinaryLoopStep | mc/CodeAnalysis/Syntax/Parser.cs:119-132 | one turn takes the operator and the operand after it onto the expression so far |
| McSyntaxParser.PrimaryAt | mc/CodeAnalysis/Syntax/Parser.cs:139-172 | a primary parse stays inside the token array and never moves back |
| McSyntaxParser.PrimaryOfNumber | mc/CodeAnalysis/Syntax/Parser.cs:164-169 | any token but `(` or a keyword starts a number literal matched with `MatchToken` |
| McSyntaxParser.UnitAt | mc/CodeAnalysis/Syntax/Parser.cs:53-63 | `Parse` ends with a matched end-of-file token |
| McSyntaxParser.Parser.constructor | mc/CodeAnalysis/Syntax/Parser.cs:21-47 | the tokens are the significant lexed tokens and the end of file; the lexer's messages come first |
| McSyntaxParser.Parser.LexAll | mc/CodeAnalysis/Syntax/Parser.cs:31-44 | the do-while loop builds exactly the token array and the lexer's messages |
| McSyntaxParser.Parser.Peek | mc/CodeAnalysis/Syntax/Parser.cs:177-193 | the token `offset` places on, clamped to the last token |
| McSyntaxParser.Parser.NextToken | mc/CodeAnalysis/Syntax/Parser.cs:86-96 | returns the current token, moves one on, adds nothing |
| McSyntaxParser.Parser.MatchToken | mc/CodeAnalysis/Syntax/Parser.cs:65-84 | one message and a synthesised token on a mismatch, as `MatchAt` describes |
| McSyntaxParser.Parser.Parse | mc/CodeAnalysis/Syntax/Parser.cs:53-63 | the expression and a matched end of file, as `UnitAt` describes |
| McSyntaxParser.Parser.ParseExpression | mc/CodeAnalysis/Syntax/Parser.cs:98-137 | precedence climbing, as `ExpressionAt` describes |
| McSyntaxParser.Parser.ParseOperand | mc/CodeAnalysis/Syntax/Parser.cs:104-117 | a prefix operator binding at least as tightly as the parent, or a primary |
| McSyntaxParser.Parser.ParsePrimaryExpression | mc/CodeAnalysis/Syntax/Parser.cs:139-172 | a parenthesised expression, a keyword literal or a matched number, as `PrimaryAt` describes |
| McSyntaxParser.Parser.ParseParenthesized | mc/CodeAnalysis/Syntax/Parser.cs:145-152 | `(`, an expression and a matched `)` |
| McSyntaxParserProperties.UnaryNodeAccounts | mc/CodeAnalysis/Syntax/Parser.cs:104-117 | a prefix node over the operator and an accounted operand is accounted |
| McSyntaxParserProperties.ExpressionAccounts | mc/CodeAnalysis/Syntax/Parser.cs:98-137 | an expression's tokens with text are exactly those it passed over, with one message per synthesised token |
| McSyntaxParserProperties.OperandAccounts | mc/CodeAnalysis/Syntax/Parser.cs:104-117 | the same for an operand |
| McSyntaxParserProperties.LoopAccounts | mc/CodeAnalysis/Syntax/Parser.cs:119-132 | the same for the operator loop |
| McSyntaxParserProperties.PrimaryAccounts | mc/CodeAnalysis/Syntax/Parser.cs:139-172 | the same for a primary |
| McSyntaxParserProperties.PrimaryOfParenthesis | mc/CodeAnalysis/Syntax/Parser.cs:145-152 | `(` is consumed, an expression parsed at precedence 0 and `)` matched |
| McSyntaxParserProperties.ParenthesizedAccounts | mc/CodeAnalysis/Syntax/Parser.cs:145-152 | the same accounting for a parenthesised expression |
| McSyntaxParserProperties.ParseAccountsForTokens | mc/CodeAnalysis/Syntax/Parser.cs:53-63 | `Parse` loses no token and invents none silently |
| McSyntaxParserProperties.CleanParseCoversTokens | mc/CodeAnalysis/Syntax/Parser.cs:53-63 | a parse without messages reads back as exactly the token array |
| McSyntaxParserProperties.TokenArrayShape | mc/CodeAnalysis/Syntax/Parser.cs:31-40 | no white-space or bad token, a single end of file at the end, every token with text |
| McSyntaxParserProperties.ParseTextAccountsForTokens | mc/CodeAnalysis/Syntax/Parser.cs:44 | the lexer's messages first, then one per synthesised token; with none, the tree reads back as the token array |
| McSyntaxParserProperties.NumberOperand | mc/CodeAnalysis/Syntax/Parser.cs:164-169 | a number in operand position is a literal whatever the parent precedence |
| McSyntaxParserProperties.NumberExpression | mc/CodeAnalysis/Syntax/Parser.cs:119-132 | a number before a token the loop does not take is a whole expression |
| McSyntaxParserProperties.KeywordLiteral | mc/CodeAnalysis/Syntax/Parser.cs:154-162 | `true` and `false` are literals valued by their kind |
| McSyntaxParserProperties.TighterOperatorNestsRight | mc/CodeAnalysis/Syntax/Parser.cs:119-132 | `1 + 2 * 3` has root `+` with right child `*` |
| McSyntaxParserProperties.LooserOperatorFoldsLeft | mc/CodeAnalysis/Syntax/Parser.cs:119-132 | `1 - 2 - 3` folds left |
| McSyntaxParserProperties.PrefixOperatorBindsOperand | mc/CodeAnalysis/Syntax/Parser.cs:104-117 | `-1 * 2` parses as `(-1) * 2` |
| McSyntaxParserProperties.PrefixOperatorAfterInfix | mc/CodeAnalysis/Syntax/Parser.cs:104-117 | `1 * -2`: the prefix operator is taken as the right operand |
| McSyntaxParserProperties.NameIsUnexpected | mc/CodeAnalysis/Syntax/Parser.cs:164-169 | a name is no expression: a synthesised number with one message, then a second message when it fails to match the end of file |
| McSyntaxParserProperties.ExpressionClimbs | mc/CodeAnalysis/Syntax/Parser.cs:98-137 | every expression parse, over any token array, has the current parser's climbed shape and stops at a token binding no tighter than the parent |
| McSyntaxParserProperties.OperandClimbs | mc/CodeAnalysis/Syntax/Parser.cs:104-117 | the first operand is climbed and is never an infix node |
| McSyntaxParserProperties.LoopClimbs | mc/CodeAnalysis/Syntax/Parser.cs:119-132 | each turn of the operator loop keeps the climbed shape and where it stops |
| McBoundNodes.BindUnaryOperatorKind | mc/CodeAnalysis/Binding/Binder.cs:96-129 | a unary kind is found only for the operand type it is defined for |
| McBoundNodes.BindBinaryOperatorKind | mc/CodeAnalysis/Binding/Binder.cs:132-182 | a binary kind is found only for the operand types it is defined for |
| McBoundNodes.UnaryTable | mc/CodeAnalysis/Binding/Binder.cs:96-129 | the unary table finds a kind exactly for that kind's token and operand type |
| McBoundNodes.BinaryTable | mc/CodeAnalysis/Binding/Binder.cs:132-182 | the binary table finds a kind exactly for that kind's token and operand types |
| McBinder.BindUnary | mc/CodeAnalysis/Binding/Binder.cs:53-73 | definition of the unary case once the operand is bound; its properties are in `McBinderProperties.UnaryBinding` |
| McBinder.BindBinary | mc/CodeAnalysis/Binding/Binder.cs:75-94 | definition of the binary case once the operands are bound; its properties are in `McBinderProperties.BinaryBinding` |
| McBinder.BindingOf | mc/CodeAnalysis/Binding/Binder.cs:18-94 | definition of `BindExpression` as a value with its messages; its properties are in `McBinderProperties.BindingThrowsExactlyWhenUnbindable`, `McBinderProperties.BoundTreeIsWellTyped` and `McBinderProperties.MessagesAccountForOperators` |
| McBinder.Binder.constructor | mc/CodeAnalysis/Binding/Binder.cs:18-40 | a new binder has no messages |
| McBinder.Binder.BindExpression | mc/CodeAnalysis/Binding/Binder.cs:18-40 | returns what `BindingOf` gives and appends its messages, in order |
| McBinder.Binder.BindLiteralExpression | mc/CodeAnalysis/Binding/Binder.cs:42-51 | the literal's value, or 0 when there is none |
| McBinder.Binder.BindUnaryExpression | mc/CodeAnalysis/Binding/Binder.cs:53-73 | the operand first, then the operator or a message |
| McBinder.Binder.BindBinaryExpression | mc/CodeAnalysis/Binding/Binder.cs:75-94 | both operands, then the operator or a message |
| McBinderProperties.BindingThrowsExactlyWhenUnbindable | mc/CodeAnalysis/Binding/Binder.cs:18-40 | binding throws exactly when the tree holds a node other than a literal or an operator, naming such a node's kind |
| McBinderProperties.ParenthesizedThrows | mc/CodeAnalysis/Binding/Binder.cs:22-39 | without a parenthesis case, `(1)` throws |
| McBinderProperties.LiteralBinding | mc/CodeAnalysis/Binding/Binder.cs:42-51 | a literal binds to `Value ?? 0` without messages |
| McBinderProperties.UnaryBinding | mc/CodeAnalysis/Binding/Binder.cs:53-73 | with a kind for the operand's type a unary node; otherwise the operand with one message naming the token and the type |
| McBinderProperties.BinaryBinding | mc/CodeAnalysis/Binding/Binder.cs:75-94 | with a kind for both types a binary node; otherwise the left operand, after both sides' messages, with one naming the token and both types |
| McBinderProperties.BoundTreeIsWellTyped | mc/CodeAnalysis/Binding/Binder.cs:18-94 | every bound tree is well typed |
| McBinderProperties.TypeIsResultType | mc/CodeAnalysis/Binding/BoundBinaryExpression.cs:27 | in a well-typed tree a node's type, its left operand's, is also what its operator yields |
| McBinderProperties.MessagesAccountForOperators | mc/CodeAnalysis/Binding/Binder.cs:53-94 | each message stands for an operator the bound tree lacks; without messages every operator is kept |
| McBinderProperties.NegatedBoolIsReported | mc/CodeAnalysis/Binding/Binder.cs:62 | `-true` keeps the literal with the message naming `-` and System.Boolean |
| McBinderProperties.MixedAdditionIsReported | mc/CodeAnalysis/Binding/Binder.cs:85 | `1 + true` keeps the left literal with the message naming `+`, System.Int32 and System.Boolean |
| McEvaluator.EvaluateExpression | mc/CodeAnalysis/Evaluator.cs:30-102 | definition of `EvaluateExpression`; its properties are in `McEvaluatorProperties.OnlyIntTreesEvaluate`, `McEvaluatorProperties.DivisionFreeTreeWraps`, `McEvaluatorProperties.BoundExpressionEvaluates` and `McEvaluatorProperties.LeftFaultWins` |
| McEvaluator.ApplyBinary | mc/CodeAnalysis/Evaluator.cs:62-92 | the infix `switch` throws exactly for a logical kind, a zero divisor or int.MinValue / -1, with the matching fault |
| McEvaluatorProperties.OnlyIntTreesEvaluate | mc/CodeAnalysis/Evaluator.cs:30-102 | only a tree of int literals and arithmetic returns, and such a tree throws only an arithmetic fault |
| McEvaluatorProperties.WrapNegates | mc/CodeAnalysis/Evaluator.cs:41-60 | wrapped negation is the wrap of the exact negation |
| McEvaluatorProperties.WrapAdds | mc/CodeAnalysis/Evaluator.cs:69-72 | wrapped addition is the wrap of the exact sum |
| McEvaluatorProperties.WrapSubtracts | mc/CodeAnalysis/Evaluator.cs:74-77 | wrapped subtraction is the wrap of the exact difference |
| McEvaluatorProperties.WrapMultiplies | mc/CodeAnalysis/Evaluator.cs:79-82 | wrapped multiplication is the wrap of the exact product |
| McEvaluatorProperties.DivisionFreeTreeWraps | mc/CodeAnalysis/Evaluator.cs:30-102 | a division-free int tree evaluates to its exact value wrapped to 32 bits |
| McEvaluatorProperties.IntTypedTreeIsIntTree | mc/CodeAnalysis/Evaluator.cs:30-102 | a well-typed tree of type int holds only int literals and arithmetic |
| McEvaluatorProperties.BoolTypedTreeIsNoIntTree | mc/CodeAnalysis/Evaluator.cs:34-39 | a well-typed tree of type bool holds a bool literal or a logical operator |
| McEvaluatorProperties.BoundExpressionEvaluates | mc/CodeAnalysis/Evaluator.cs:30-102 | what the binder types as int returns unless it divides by zero or int.MinValue by -1; what it types as bool always throws |
| McEvaluatorProperties.LeftFaultWins | mc/CodeAnalysis/Evaluator.cs:62-68 | operands are evaluated left to right: a faulting left operand's fault is the result |
| McEvaluatorProperties.LogicalOperatorsThrow | mc/CodeAnalysis/Evaluator.cs:89-90 | `true && false` fails the literal cast; logical kinds over ints reach the throwing `default` |
| McEvaluatorProperties.DivisionFaults | mc/CodeAnalysis/Evaluator.cs:84-87 | int.MinValue / -1 overflows, 1 / 0 divides by zero, and 7 / -2 truncates to -3 |
| McEvaluatorProperties.NegationWraps | mc/CodeAnalysis/Evaluator.cs:41-60 | `-int.MinValue` wraps back to int.MinValue |

## Left out

- Console I/O is not modelled: mc/Program.cs, its read loop, its `#showTree` and `#cls` commands, its colours and its tree printing.
- Every `Log.*` call and `startTicks` value is left out. This logging has no effect on the logic.
- `SourceText` is modelled as the string it wraps, and `TextSpan` as a (start, length) pair. Their line and column mapping is not part of this model.
- The lazy `IEnumerable` of `ParseTokens` is modelled as the finished sequence it yields. `ImmutableArray` and `List` are modelled as sequences.
- C# strings are sequences of UTF-16 code units; the model's text is a sequence of Unicode scalar values. A character outside the Basic Multilingual Plane is one position here but two surrogate `char`s in C#, each of which `char.IsLetter` rejects, so `1+𝑥` ends in two bad tokens in C# but in one token here, which the classification parameter makes a word or a bad character. Positions, spans, lengths and the fuel bounds count scalar values.
- `char.IsLetter`, `char.IsDigit` and `char.IsWhiteSpace` are a parameter. Only their ASCII answers are fixed, and characters outside ASCII are left open.
- `CharClass.AsciiClass`: the classes are assumed disjoint. This holds in the Unicode categories behind them but does not follow from ASCII alone.
- `MinskSyntaxTree.ParseTokens`, `MinskParser.Parser.constructor`: both require `LexHalts`, because the current lexer never finishes on a lone `&` or `|`. What happens on such a text is stated by `MinskLexerProperties.StuckNeverHalts` instead.
- The parse functions have no fuel parameter. They terminate on the count of remaining tokens, because every loop turn and every prefix, assignment and `(` branch consumes a token first.
- BoundUnaryOperator.cs is not part of this model. Its table is assumed to be what the evaluators and the commented-out table in mc/CodeAnalysis/Binding/Binder.cs:96-129 imply: identity and negation on int, logical negation on bool.
- The Minsk `BoundBinaryExpression` is not part of this model. Its type is taken to be its operator's result type.
- VariableSymbol.cs is not part of this model. The store is keyed by the variable's name, on the assumption that symbols are equal when their names are.
- The earlier generation's operator kinds are not modelled from a live table. They come from the commented-out `BindUnaryOperatorKind` and `BindBinaryOperatorKind` in mc/CodeAnalysis/Binding/Binder.cs:96-182.
- The earlier generation's `BoundUnaryExpression` holds a unary operator kind in the model.
- mc/CodeAnalysis/Syntax/SyntaxFacts.cs is not part of this model. The second earlier lexer and parser use the current `SyntaxFacts`.
- mc/CodeAnalysis/Syntax/SyntaxKind.cs lacks tokens that its lexer emits, so one `SyntaxKind` serves both generations.
- The `SyntaxKind` also holds the relational tokens that the current operator table names.
- This revision of the source names members that the other files do not declare. These mismatches are unified:
  - `TrueKeyWord` and `TrueKeyword` are one kind, and the tests' `RequiresSeparator`, which recognises a keyword by a kind name ending in `KeyWord`, is read as recognising the two keyword kinds.
  - The missing `ParseCompilationUnit` is the parser's `Parse`.
  - `new Binder(variables)` is a binder without a scope.
  - The earlier parsers call their lexer's `NextToken` or `Lex`.
- Statements, declarations, scopes and the `VariableDeclarationStatement` and `ExpressionStatementSyntax` nodes are left out. No code of the modelled core builds or consumes them.
- `Values.TypeName`: only the names System.Int32 and System.Boolean are rendered. They are the only types a value can have here.
- `McEvaluator.EvaluateExpression`: `Evaluate()` is modelled as this function applied to the root. The class holds nothing else.
- The unreachable `throw` at the end of each evaluator's `EvaluateExpression` is not modelled. Every node kind of the model has its own case, so that throw cannot happen.
- Concurrency is left out, including lazy global scope, because none appears in the modelled code.
