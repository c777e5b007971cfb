/**
 * The syntax tree of the current front end: a text, its parse and the diagnostics of lexing
 * and parsing it, and `ParseTokens`, the driver that turns a text into the tokens the lexer
 * yields before the end of file.
 */
module MinskSyntaxTree {
  import opened Options
  import opened CharClass
  import opened SyntaxKinds
  import opened SyntaxTokens
  import opened Diagnostics
  import opened SyntaxNodes
  import opened MinskLexer
  import opened MinskParser
  import opened TokenStreams

  /** `ParseTokens`: every token `Lex()` yields, in order, up to and without the end of file. */
  method ParseTokens(cc: CharClasses, text: string) returns (tokens: seq<SyntaxToken>)
    requires Consistent(cc) && LexHalts(cc, text)
    ensures tokens == LexFrom(cc, text, 0, |text|).value.tokens
  {
    ghost var run := LexFrom(cc, text, 0, |text|).value;
    var lexer := new Lexer(cc, text);
    ghost var table := lexer.table;
    ghost var fuel: nat := |text|;
    RunSoFarStart(cc, text);
    var list: seq<SyntaxToken> := [];
    var token: SyntaxToken;
    while true
      invariant lexer.Valid() && fresh(lexer.diagnostics)
      invariant RunSoFar(table, run, list, lexer.diagnostics.items, lexer.position, fuel)
      decreases fuel
    {
      ghost var pos, reported := lexer.position, lexer.diagnostics.items;
      token := lexer.Lex();
      if token.kind == EndOfFileToken {
        RunSoFarEnd(table, run, list, reported, pos, fuel, token, lexer.diagnostics.items);
        break;
      }
      RunSoFarStep(table, run, list, reported, pos, fuel, token, lexer.position, lexer.diagnostics.items);
      list := list + [token];
      fuel := fuel - 1;
    }
    tokens := list;
  }

  /** What the tree of a text holds: the root the parser builds and every diagnostic, lexer's first. */
  datatype ParsedText = ParsedText(root: CompilationUnitSyntax, diagnostics: seq<Diagnostic>)

  /** The parse of a text, as the `SyntaxTree` constructor performs it. */
  function ParseText(cc: CharClasses, text: string): (r: ParsedText)
    requires Consistent(cc) && LexHalts(cc, text)
    ensures var run := LexFrom(cc, text, 0, |text|).value;
      |run.diagnostics| <= |r.diagnostics| && r.diagnostics[..|run.diagnostics|] == run.diagnostics
    ensures r.root.endOfFileToken.kind == EndOfFileToken
  {
    var run := LexFrom(cc, text, 0, |text|).value;
    var parsed := UnitAt(TokenArray(run), 0);
    assert (run.diagnostics + parsed.reported)[..|run.diagnostics|] == run.diagnostics;
    ParsedText(parsed.unit, run.diagnostics + parsed.reported)
  }

  class SyntaxTree {
    const text: string
    const diagnostics: seq<Diagnostic>
    const root: CompilationUnitSyntax

    /**
     * Parses the text with a fresh parser and keeps the root together with the parser's
     * diagnostics as they stand after the parse.
     */
    constructor(cc: CharClasses, text: string)
      requires Consistent(cc) && LexHalts(cc, text)
      ensures this.text == text
      ensures ParsedText(root, diagnostics) == ParseText(cc, text)
    {
      var parser := new Parser(cc, text);
      var root := parser.Parse();
      this.text := text;
      this.diagnostics := parser.diagnostics.items;
      this.root := root;
    }
  }

  /** `SyntaxTree.Parse`: a new tree of the text. */
  method Parse(cc: CharClasses, text: string) returns (tree: SyntaxTree)
    requires Consistent(cc) && LexHalts(cc, text)
    ensures tree.text == text && ParsedText(tree.root, tree.diagnostics) == ParseText(cc, text)
  {
    tree := new SyntaxTree(cc, text);
  }
}
