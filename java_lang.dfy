/** The few pieces of the Java platform the blog's code leans on, written out:
    `Character.isWhitespace`, Spring's `StringUtils.hasText`, `String.length()`
    (UTF-16 code units), `String.startsWith`, 64-bit `long` addition and
    division, and the decimal text of a `long`. */
module JavaLang {
  import opened Wrappers

  const MinLong: int := -0x8000_0000_0000_0000
  const MaxLong: int := 0x7FFF_FFFF_FFFF_FFFF

  /** A Java `long`. */
  type Long = x: int | MinLong <= x <= MaxLong

  /** `Character.isWhitespace`: the ASCII controls TAB..CR and FS..US, and the
      Unicode space, line and paragraph separators except the non-breaking
      ones (U+00A0, U+2007, U+202F). */
  predicate IsWhitespace(c: char) {
    var n := c as int;
    (0x09 <= n <= 0x0D) || (0x1C <= n <= 0x20) || n == 0x1680
    || (0x2000 <= n <= 0x200A && n != 0x2007)
    || n == 0x2028 || n == 0x2029 || n == 0x205F || n == 0x3000
  }

  /** `StringUtils.hasText` (and jjwt's `Strings.hasText`) on a non-null
      string: some character is not whitespace. */
  predicate HasText(s: string) {
    exists i | 0 <= i < |s| :: !IsWhitespace(s[i])
  }

  /** `StringUtils.hasText` on a reference that may be null. */
  predicate HasTextOrNull(s: Option<string>) {
    s.Some? && HasText(s.value)
  }

  /** `s.startsWith(p)`. */
  predicate StartsWith(s: string, p: string) {
    |p| <= |s| && s[..|p|] == p
  }

  /** A string with a non-whitespace character in front has text. */
  lemma TextInFront(s: string)
    requires |s| > 0 && !IsWhitespace(s[0])
    ensures HasText(s)
  {
    assert !IsWhitespace(s[0]);
  }

  /** A string made only of whitespace has no text. */
  lemma {:induction false} WhitespaceHasNoText(s: string)
    requires forall i | 0 <= i < |s| :: IsWhitespace(s[i])
    ensures !HasText(s)
  {
  }

  /** How many UTF-16 code units Java uses for one character. */
  function CodeUnits(c: char): (n: nat)
    ensures n == 1 || n == 2
  {
    if c as int > 0xFFFF then 2 else 1
  }

  /** `String.length()`: the number of UTF-16 code units, which is what the
      Bean Validation `@Size` and `@NotEmpty` constraints measure. */
  function Utf16Length(s: string): (n: nat)
    ensures |s| <= n <= 2 * |s|
    ensures n == 0 <==> s == []
  {
    if s == [] then 0 else CodeUnits(s[0]) + Utf16Length(s[1..])
  }

  /** A string of characters from the Basic Multilingual Plane has one code
      unit per character. */
  lemma {:induction false} Utf16LengthOfBmp(s: string)
    requires forall i | 0 <= i < |s| :: s[i] as int <= 0xFFFF
    ensures Utf16Length(s) == |s|
  {
    if s != [] {
      Utf16LengthOfBmp(s[1..]);
    }
  }

  /** `a + b` on two Java `long`s: the sum, wrapped around into 64 bits. */
  function AddLong(a: Long, b: Long): (r: Long)
    ensures MinLong <= a + b <= MaxLong ==> r == a + b
    ensures (r - (a + b)) % 0x1_0000_0000_0000_0000 == 0
  {
    var s := a + b;
    if s > MaxLong then s - 0x1_0000_0000_0000_0000
    else if s < MinLong then s + 0x1_0000_0000_0000_0000
    else s
  }

  /** Java's integer division by a positive divisor, which truncates toward
      zero (Dafny's `/` rounds toward negative infinity). */
  function JavaDiv(a: int, b: int): (q: int)
    requires b > 0
    ensures a >= 0 ==> q * b <= a < q * b + b
    ensures a < 0 ==> q * b - b < a <= q * b
  {
    if a >= 0 then a / b
    else
      var m := (-a) / b;
      assert m * b <= -a < m * b + b;
      assert (-m) * b == -(m * b);
      -m
  }

  predicate IsDigit(c: char) {
    '0' <= c <= '9'
  }

  predicate AllDigits(s: string) {
    forall i | 0 <= i < |s| :: IsDigit(s[i])
  }

  function DigitChar(d: int): (c: char)
    requires 0 <= d < 10
    ensures IsDigit(c) && (c as int) - ('0' as int) == d
  {
    (('0' as int) + d) as char
  }

  function DigitValue(c: char): (d: nat)
    requires IsDigit(c)
    ensures d < 10 && DigitChar(d) == c
  {
    (c as int) - ('0' as int)
  }

  /** The decimal digits of a natural number, without leading zeros. */
  function NatToDigits(n: nat): (s: string)
    ensures |s| > 0 && AllDigits(s)
    ensures s[0] == '0' ==> n == 0
    decreases n
  {
    if n < 10 then [DigitChar(n)] else NatToDigits(n / 10) + [DigitChar(n % 10)]
  }

  /** The value of a string of decimal digits. */
  function DigitsToNat(s: string): nat
    requires AllDigits(s)
  {
    if s == [] then 0 else 10 * DigitsToNat(s[..|s| - 1]) + DigitValue(s[|s| - 1])
  }

  lemma {:induction false} DigitsRoundTrip(n: nat)
    ensures DigitsToNat(NatToDigits(n)) == n
    decreases n
  {
    if n >= 10 {
      var s := NatToDigits(n);
      assert s[..|s| - 1] == NatToDigits(n / 10);
      DigitsRoundTrip(n / 10);
    }
  }

  /** `Long.toString(i)`, which is also what `"..." + i` appends. */
  function LongToString(i: int): (s: string)
    ensures |s| > 0
    ensures i < 0 <==> s[0] == '-'
  {
    if i < 0 then "-" + NatToDigits(-i) else NatToDigits(i)
  }

  /** Reading a decimal integer back: an optional minus sign and at least one digit. */
  function ParseLong(s: string): Option<int> {
    if |s| > 1 && s[0] == '-' && AllDigits(s[1..]) then Some(0 - DigitsToNat(s[1..]) as int)
    else if |s| > 0 && AllDigits(s) then Some(DigitsToNat(s) as int)
    else None
  }

  /** The decimal text of an integer reads back as that integer. */
  lemma LongToStringRoundTrip(i: int)
    ensures ParseLong(LongToString(i)) == Some(i)
  {
    if i < 0 {
      var s := LongToString(i);
      assert s[1..] == NatToDigits(-i);
      DigitsRoundTrip(-i);
    } else {
      DigitsRoundTrip(i);
    }
  }

  /** Whether `String.equalsIgnoreCase` matches character `c` with the ASCII
      capital `upper`. Java matches two characters when they are equal, when
      their upper cases are equal, or when the lower cases of those upper
      cases are. For an ASCII capital that admits its small letter and a few
      non-ASCII letters: U+0130 and U+0131 for I, the Kelvin sign U+212A for
      K, and the long s U+017F for S. */
  predicate SameLetterIgnoringCase(c: char, upper: char)
    requires 'A' <= upper <= 'Z'
  {
    c == upper || c as int == upper as int + 32
    || (upper == 'I' && (c == '\U{0130}' || c == '\U{0131}'))
    || (upper == 'K' && c == '\U{212A}')
    || (upper == 'S' && c == '\U{017F}')
  }

  predicate IsAsciiCapitals(s: string) {
    forall i | 0 <= i < |s| :: 'A' <= s[i] <= 'Z'
  }

  /** `s.equalsIgnoreCase(upper)` for a string `upper` of ASCII capitals. */
  predicate EqualsIgnoreCase(s: string, upper: string)
    requires IsAsciiCapitals(upper)
  {
    |s| == |upper| && forall i | 0 <= i < |s| :: SameLetterIgnoringCase(s[i], upper[i])
  }
}
