/** Tokens of the current front end and the span rule that places them in the source text. */
module SyntaxTokens {
  import opened Options
  import opened Values
  import opened SyntaxKinds

  /** A `(start, length)` range of source characters. */
  datatype TextSpan = TextSpan(start: nat, length: nat) {
    function End(): nat { start + length }
  }

  /**
   * A token: its kind, where it starts, its text (`null` for a token the parser synthesises)
   * and its value (a number's value, `null` otherwise).
   */
  datatype SyntaxToken = SyntaxToken(kind: SyntaxKind, position: nat, text: Option<string>, value: Option<Value>) {

    /** `Span`: starts at the position and is as long as the text, or empty without text. */
    function Span(): (s: TextSpan)
      ensures s.start == position
      ensures text.Some? ==> s.length == |text.value|
      ensures text.None? ==> s.length == 0
    {
      TextSpan(position, if text.Some? then |text.value| else 0)
    }
  }

  /** The constructor keeps all four arguments as given. */
  lemma ConstructorStoresFields(kind: SyntaxKind, position: nat, text: Option<string>, value: Option<Value>)
    ensures var t := SyntaxToken(kind, position, text, value);
      t.kind == kind && t.position == position && t.text == text && t.value == value
  {
  }
}
