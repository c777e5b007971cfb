/**
 * C#'s `int` under the default unchecked context: `+ - *` and unary `-` wrap modulo 2^32,
 * `/` truncates toward zero, and `int.TryParse` accepts a run of ASCII digits whose value fits.
 */
module Int32Arith {
  import opened Options

  const MIN: int := -0x8000_0000
  const MAX: int := 0x7FFF_FFFF
  const MODULUS: int := 0x1_0000_0000

  newtype int32 = x: int | -0x8000_0000 <= x < 0x8000_0000

  /** The int32 congruent to `x` modulo 2^32 (an unchecked C# conversion). */
  function Wrap(x: int): (r: int32)
    ensures (r as int - x) % MODULUS == 0
    ensures MIN <= x <= MAX ==> r as int == x
  {
    var m := (x - MIN) % MODULUS;
    assert m + MIN - x == -MODULUS * ((x - MIN) / MODULUS);
    (m + MIN) as int32
  }

  function Add(a: int32, b: int32): (r: int32)
    ensures (r as int - (a as int + b as int)) % MODULUS == 0
    ensures MIN <= a as int + b as int <= MAX ==> r as int == a as int + b as int
  {
    Wrap(a as int + b as int)
  }

  function Sub(a: int32, b: int32): (r: int32)
    ensures (r as int - (a as int - b as int)) % MODULUS == 0
    ensures MIN <= a as int - b as int <= MAX ==> r as int == a as int - b as int
  {
    Wrap(a as int - b as int)
  }

  function Mul(a: int32, b: int32): (r: int32)
    ensures (r as int - a as int * b as int) % MODULUS == 0
    ensures MIN <= a as int * b as int <= MAX ==> r as int == a as int * b as int
  {
    Wrap(a as int * b as int)
  }

  /** Unary minus; `-int.MinValue` wraps back to `int.MinValue`. */
  function Neg(a: int32): (r: int32)
    ensures a as int != MIN ==> r as int == -(a as int)
    ensures a as int == MIN ==> r == a
  {
    Wrap(-(a as int))
  }

  function Abs(x: int): nat { if x < 0 then -x else x }

  /**
   * C#'s `/` on int: the quotient truncated toward zero. The two cases in which C# throws
   * (a zero divisor, and int.MinValue / -1) are excluded here; the evaluators report them.
   */
  function TruncatingDiv(a: int32, b: int32): (q: int32)
    requires b != 0 && !(a as int == MIN && b == -1)
    ensures var rem := a as int - q as int * b as int;
      Abs(rem) < Abs(b as int) && (rem == 0 || (rem < 0) == (a < 0))
  {
    var q := TruncatedQuotient(a as int, b as int);
    q as int32
  }

  /** The quotient of `a` by `b` rounded toward zero, on unbounded integers, with its range. */
  function TruncatedQuotient(a: int, b: int): (q: int)
    requires b != 0 && MIN <= a <= MAX && MIN <= b <= MAX && !(a == MIN && b == -1)
    ensures MIN <= q <= MAX
    ensures var rem := a - q * b; Abs(rem) < Abs(b) && (rem == 0 || (rem < 0) == (a < 0))
  {
    var n, d := Abs(a), Abs(b);
    var mag := n / d;
    DivBounds(n, d);
    var q := if (a < 0) == (b < 0) then mag else -mag;
    RemainderSign(a, b, n, d, mag, q);
    q
  }

  lemma DivBounds(n: nat, d: nat)
    requires d > 0 && n <= -MIN
    ensures 0 <= n - (n / d) * d < d
    ensures 0 <= n / d <= n
    ensures d == 1 ==> n / d == n
    ensures d >= 2 ==> n / d < MAX
  {
    var m, r := n / d, n % d;
    assert n == m * d + r && 0 <= r < d;
    MulMono(m, 1, d);
    if d >= 2 {
      MulMono(m, 2, d);
    }
  }

  lemma MulMono(m: nat, x: nat, y: nat)
    requires x <= y
    ensures m * x <= m * y
  {
  }

  lemma RemainderSign(a: int, b: int, n: nat, d: nat, mag: int, q: int)
    requires b != 0 && n == Abs(a) && d == Abs(b) && 0 <= n - mag * d < d
    requires q == if (a < 0) == (b < 0) then mag else -mag
    ensures a - q * b == (if a < 0 then -(n - mag * d) else n - mag * d)
  {
    if b < 0 {
      assert q * b == -q * d;
    } else {
      assert q * b == q * d;
    }
  }

  /** Whether every character of `s` is one of '0'..'9'. */
  predicate AllAsciiDigits(s: string) {
    forall i :: 0 <= i < |s| ==> '0' <= s[i] <= '9'
  }

  /** The decimal value of a string of ASCII digits, most significant digit first. */
  function DecimalValue(s: string): nat
    requires AllAsciiDigits(s)
  {
    if s == [] then 0 else DecimalValue(s[..|s| - 1]) * 10 + (s[|s| - 1] as int - '0' as int)
  }

  /**
   * `int.TryParse(s, out v)` on the text of a digit run: it succeeds exactly when the run is
   * non-empty, made of ASCII digits and at most int.MaxValue; a failed parse leaves `v` at 0.
   */
  function TryParseInt32(s: string): (r: Option<int32>)
    ensures r.Some? <==> |s| > 0 && AllAsciiDigits(s) && DecimalValue(s) <= MAX
    ensures r.Some? ==> r.value as int == DecimalValue(s)
  {
    if |s| > 0 && AllAsciiDigits(s) && DecimalValue(s) <= MAX then Some(DecimalValue(s) as int32) else None
  }

  function Pow10(n: nat): (r: nat)
    ensures r >= 1
  {
    if n == 0 then 1 else 10 * Pow10(n - 1)
  }

  lemma {:induction false} Pow10Grows(m: nat, n: nat)
    requires m <= n
    ensures Pow10(m) <= Pow10(n)
    decreases n
  {
    if m < n {
      Pow10Grows(m, n - 1);
    }
  }

  /** A run of `n` digits has a value below 10^n, and at least 10^(n-1) when it does not start with 0. */
  lemma {:induction false} DecimalValueBounds(s: string)
    requires AllAsciiDigits(s)
    ensures DecimalValue(s) < Pow10(|s|)
    ensures |s| > 0 && s[0] != '0' ==> Pow10(|s| - 1) <= DecimalValue(s)
    decreases |s|
  {
    if s != [] {
      var init := s[..|s| - 1];
      DecimalValueBounds(init);
      if |init| > 0 {
        assert init[0] == s[0];
      }
    }
  }

  /** Every run of one to nine digits fits, so `int.TryParse` accepts it. */
  lemma ShortRunParses(s: string)
    requires 0 < |s| <= 9 && AllAsciiDigits(s)
    ensures TryParseInt32(s).Some? && TryParseInt32(s).value as int < Pow10(|s|)
  {
    DecimalValueBounds(s);
    Pow10Grows(|s|, 9);
  }

  /** A run of more than ten digits that does not start with 0 exceeds int.MaxValue, so `int.TryParse` rejects it. */
  lemma LongRunFails(s: string)
    requires |s| > 10 && AllAsciiDigits(s) && s[0] != '0'
    ensures TryParseInt32(s).None?
  {
    DecimalValueBounds(s);
    Pow10Grows(10, |s| - 1);
  }

  /** Appending a digit multiplies the value by ten and adds the digit. */
  lemma DecimalValueSnoc(s: string, c: char)
    requires AllAsciiDigits(s) && '0' <= c <= '9'
    ensures AllAsciiDigits(s + [c]) && DecimalValue(s + [c]) == DecimalValue(s) * 10 + (c as int - '0' as int)
  {
    assert (s + [c])[..|s|] == s;
  }

  /** int.MaxValue itself parses; one more does not. */
  lemma MaxValueBoundary()
    ensures TryParseInt32("2147483647") == Some(MAX as int32)
    ensures TryParseInt32("2147483648").None?
  {
    var d0 := "2";
    assert d0[..0] == [];
    var d1 := d0 + ['1']; DecimalValueSnoc(d0, '1');
    var d2 := d1 + ['4']; DecimalValueSnoc(d1, '4');
    var d3 := d2 + ['7']; DecimalValueSnoc(d2, '7');
    var d4 := d3 + ['4']; DecimalValueSnoc(d3, '4');
    var d5 := d4 + ['8']; DecimalValueSnoc(d4, '8');
    var d6 := d5 + ['3']; DecimalValueSnoc(d5, '3');
    var d7 := d6 + ['6']; DecimalValueSnoc(d6, '6');
    var d8 := d7 + ['4']; DecimalValueSnoc(d7, '4');
    var max := d8 + ['7']; DecimalValueSnoc(d8, '7');
    var over := d8 + ['8']; DecimalValueSnoc(d8, '8');
    assert DecimalValue(max) == MAX && DecimalValue(over) == MAX + 1;
    assert max == "2147483647" && over == "2147483648";
  }
}
