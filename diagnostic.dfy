/** Diagnostics of the current front end: a span and a message, collected in an append-only bag. */
module Diagnostics {
  import opened Values
  import opened SyntaxKinds
  import opened SyntaxTokens

  datatype Diagnostic = Diagnostic(span: TextSpan, message: string) {
    /** A diagnostic prints as its message. */
    function ToString(): string { message }
  }

  /** A diagnostic keeps its span and message as given and prints as the message. */
  lemma DiagnosticStoresFields(span: TextSpan, message: string)
    ensures var d := Diagnostic(span, message);
      d.span == span && d.message == message && d.ToString() == message
  {
  }

  /** `ReportInvalidNumber`: a digit run that does not fit an int, at the span of the run. */
  function InvalidNumber(span: TextSpan, text: string): Diagnostic {
    Diagnostic(span, "The number " + text + " isn't a valid " + TypeName(IntType) + ".")
  }

  /** `ReportBadCharacter`: a character no rule accepts, at a one-character span. */
  function BadCharacter(position: nat, c: char): Diagnostic {
    Diagnostic(TextSpan(position, 1), "Bad character input: '" + [c] + "'.")
  }

  /** `ReportUnexpectedToken`: the parser wanted `expected` where it found `actual`. */
  function UnexpectedToken(span: TextSpan, actual: SyntaxKind, expected: SyntaxKind): Diagnostic {
    Diagnostic(span, "Unexpected token: <" + KindName(actual) + ">, expected <" + KindName(expected) + ">.")
  }

  /** `ReportUndefinedUnaryOperator`. */
  function UndefinedUnaryOperator(span: TextSpan, operatorText: string, operandType: TypeTag): Diagnostic {
    Diagnostic(span, "Unary operator '" + operatorText + "' is not defined for type " + TypeName(operandType) + ".")
  }

  /** `ReportUndefinedBinaryOperator`. */
  function UndefinedBinaryOperator(span: TextSpan, operatorText: string, leftType: TypeTag, rightType: TypeTag): Diagnostic {
    Diagnostic(span, "Binary operator '" + operatorText + "' is not defined for types "
      + TypeName(leftType) + " and " + TypeName(rightType) + ".")
  }

  /** Every reporting helper keeps the span it is given; a bad character gets the span (position, 1). */
  lemma ReportersKeepSpans(span: TextSpan, text: string, position: nat, c: char, k1: SyntaxKind, k2: SyntaxKind, t1: TypeTag, t2: TypeTag)
    ensures InvalidNumber(span, text).span == span
    ensures BadCharacter(position, c).span == TextSpan(position, 1)
    ensures UnexpectedToken(span, k1, k2).span == span
    ensures UndefinedUnaryOperator(span, text, t1).span == span
    ensures UndefinedBinaryOperator(span, text, t1, t2).span == span
  {
  }

  /**
   * The bag. Its list only grows: each operation appends at the end and keeps every earlier
   * entry in place, and enumeration is the list in insertion order.
   */
  class DiagnosticBag {
    var items: seq<Diagnostic>

    constructor()
      ensures items == []
    {
      items := [];
    }

    method Report(span: TextSpan, message: string)
      modifies this
      ensures items == old(items) + [Diagnostic(span, message)]
    {
      items := items + [Diagnostic(span, message)];
    }

    /** Appends the other bag's entries, in their order, after this bag's own. */
    method AddRange(other: DiagnosticBag)
      modifies this
      ensures items == old(items) + old(other.items)
    {
      items := items + other.items;
    }

    method ReportInvalidNumber(span: TextSpan, text: string)
      modifies this
      ensures items == old(items) + [InvalidNumber(span, text)]
    {
      var d := InvalidNumber(span, text);
      Report(d.span, d.message);
    }

    method ReportBadCharacter(position: nat, c: char)
      modifies this
      ensures items == old(items) + [BadCharacter(position, c)]
    {
      var d := BadCharacter(position, c);
      Report(d.span, d.message);
    }

    method ReportUnexpectedToken(span: TextSpan, actual: SyntaxKind, expected: SyntaxKind)
      modifies this
      ensures items == old(items) + [UnexpectedToken(span, actual, expected)]
    {
      var d := UnexpectedToken(span, actual, expected);
      Report(d.span, d.message);
    }

    method ReportUndefinedUnaryOperator(span: TextSpan, operatorText: string, operandType: TypeTag)
      modifies this
      ensures items == old(items) + [UndefinedUnaryOperator(span, operatorText, operandType)]
    {
      var d := UndefinedUnaryOperator(span, operatorText, operandType);
      Report(d.span, d.message);
    }

    method ReportUndefinedBinaryOperator(span: TextSpan, operatorText: string, leftType: TypeTag, rightType: TypeTag)
      modifies this
      ensures items == old(items) + [UndefinedBinaryOperator(span, operatorText, leftType, rightType)]
    {
      var d := UndefinedBinaryOperator(span, operatorText, leftType, rightType);
      Report(d.span, d.message);
    }
  }
}
