/**
 * The host's character classification (`char.IsLetter`, `char.IsDigit`, `char.IsWhiteSpace`).
 * Outside ASCII these follow the Unicode tables the model does not reproduce, so they are a
 * parameter of the lexers; `Consistent` fixes what they answer on ASCII characters.
 */
module CharClass {

  datatype CharClasses = CharClasses(isLetter: char -> bool, isDigit: char -> bool, isWhiteSpace: char -> bool)

  predicate IsAsciiLetter(c: char) { 'a' <= c <= 'z' || 'A' <= c <= 'Z' }

  predicate IsAsciiDigit(c: char) { '0' <= c <= '9' }

  /** U+0009..U+000D and the space: the ASCII characters .NET calls white space. */
  predicate IsAsciiWhiteSpace(c: char) { c == ' ' || '\t' <= c <= '\r' }

  predicate IsAscii(c: char) { (c as int) < 128 }

  /**
   * The classification agrees with ASCII on ASCII characters, and, as in the Unicode
   * categories behind it, no character is in two of the three classes.
   */
  ghost predicate Consistent(cc: CharClasses) {
    && (forall c: char :: IsAscii(c) ==> (cc.isLetter(c) <==> IsAsciiLetter(c)))
    && (forall c: char :: IsAscii(c) ==> (cc.isDigit(c) <==> IsAsciiDigit(c)))
    && (forall c: char :: IsAscii(c) ==> (cc.isWhiteSpace(c) <==> IsAsciiWhiteSpace(c)))
    && (forall c: char :: !(cc.isLetter(c) && cc.isDigit(c)))
    && (forall c: char :: !(cc.isLetter(c) && cc.isWhiteSpace(c)))
    && (forall c: char :: !(cc.isDigit(c) && cc.isWhiteSpace(c)))
  }

  /** What a consistent classification answers for one ASCII character. */
  lemma AsciiClass(cc: CharClasses, c: char)
    requires Consistent(cc) && IsAscii(c)
    ensures cc.isLetter(c) <==> IsAsciiLetter(c)
    ensures cc.isDigit(c) <==> IsAsciiDigit(c)
    ensures cc.isWhiteSpace(c) <==> IsAsciiWhiteSpace(c)
  {
  }

  /** The classification the host runtime gives ASCII text: exactly the ASCII classes. */
  function AsciiClasses(): (cc: CharClasses)
    ensures Consistent(cc)
  {
    CharClasses(c => IsAsciiLetter(c), c => IsAsciiDigit(c), c => IsAsciiWhiteSpace(c))
  }

  /** The character a lexer sees at index `i`: '\0' at or past the end of the text. */
  function CharAt(text: string, i: nat): char {
    if i < |text| then text[i] else '\0'
  }

  /**
   * Where a `while (p(Current)) position++` loop started at `i` stops: the first index at or
   * after `i` whose character fails `p`, reading '\0' past the end.
   */
  function RunEnd(p: char -> bool, text: string, i: nat): (j: nat)
    requires i <= |text| && !p('\0')
    ensures i <= j <= |text|
    ensures forall k :: i <= k < j ==> p(text[k])
    ensures !p(CharAt(text, j))
    decreases |text| - i
  {
    if p(CharAt(text, i)) then RunEnd(p, text, i + 1) else i
  }
}
