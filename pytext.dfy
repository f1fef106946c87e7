/**
 * The Python `str` operations the upload script relies on: whitespace tests
 * and `strip()`, `startswith`/`endswith`, `upper()`, and the base-10
 * `int(str)` conversion, over Dafny strings.
 */
module PyText {
  import opened Wrappers

  /** Python's `str.isspace()` for one character (the Unicode whitespace set). */
  predicate IsSpace(c: char) {
    var n := c as int;
    n == 0x20 || 0x09 <= n <= 0x0d || 0x1c <= n <= 0x1f || n == 0x85 || n == 0xa0
    || n == 0x1680 || 0x2000 <= n <= 0x200a || n == 0x2028 || n == 0x2029
    || n == 0x202f || n == 0x205f || n == 0x3000
  }

  /** `not s.strip()`: the string holds nothing but whitespace. */
  predicate IsBlank(s: string) {
    forall i :: 0 <= i < |s| ==> IsSpace(s[i])
  }

  function TrimLeft(s: string): string {
    if s != [] && IsSpace(s[0]) then TrimLeft(s[1..]) else s
  }

  function TrimRight(s: string): string {
    if s != [] && IsSpace(s[|s| - 1]) then TrimRight(s[..|s| - 1]) else s
  }

  /** Trimming on the left drops a blank prefix and stops at the first non-space character. */
  lemma {:induction false} TrimLeftDropsBlankPrefix(s: string)
    ensures var r := TrimLeft(s);
            && |r| <= |s| && r == s[|s| - |r|..]
            && (r != [] ==> !IsSpace(r[0]))
            && IsBlank(s[..|s| - |r|])
    decreases |s|
  {
    if s != [] && IsSpace(s[0]) {
      TrimLeftDropsBlankPrefix(s[1..]);
      var r := TrimLeft(s);
      assert s[..|s| - |r|] == [s[0]] + s[1..][..|s| - 1 - |r|];
    }
  }

  /** Trimming on the right drops a blank suffix and stops at the last non-space character. */
  lemma {:induction false} TrimRightDropsBlankSuffix(s: string)
    ensures var r := TrimRight(s);
            && |r| <= |s| && r == s[..|r|]
            && (r != [] ==> !IsSpace(r[|r| - 1]))
            && IsBlank(s[|r|..])
    decreases |s|
  {
    if s != [] && IsSpace(s[|s| - 1]) {
      TrimRightDropsBlankSuffix(s[..|s| - 1]);
      var r := TrimRight(s);
      assert s[|r|..] == s[..|s| - 1][|r|..] + [s[|s| - 1]];
    }
  }

  /** Python's `s.strip()`. */
  function Strip(s: string): string {
    TrimRight(TrimLeft(s))
  }

  predicate StartsWith(s: string, prefix: string) {
    |prefix| <= |s| && s[..|prefix|] == prefix
  }

  predicate EndsWith(s: string, suffix: string) {
    |suffix| <= |s| && s[|s| - |suffix|..] == suffix
  }

  /** `str.upper()` on one character, for the ASCII letters. */
  function UpperChar(c: char): char {
    if 'a' <= c <= 'z' then (c as int - 32) as char else c
  }

  function Upper(s: string): (r: string)
    ensures |r| == |s|
  {
    seq(|s|, i requires 0 <= i < |s| => UpperChar(s[i]))
  }

  /**
   * Upper-casing turns each ASCII lower-case letter into its capital, leaves
   * no lower-case letter, changes nothing else, and is idempotent.
   */
  lemma UpperCases(s: string)
    ensures forall i :: 0 <= i < |s| && 'a' <= s[i] <= 'z' ==> Upper(s)[i] == (s[i] as int - 32) as char
    ensures forall i :: 0 <= i < |s| ==> !('a' <= Upper(s)[i] <= 'z')
    ensures forall i :: 0 <= i < |s| && !('a' <= s[i] <= 'z') ==> Upper(s)[i] == s[i]
    ensures Upper(Upper(s)) == Upper(s)
  {
  }

  // ---------------------------------------------------------------------------
  // Decimal digits
  // ---------------------------------------------------------------------------

  predicate IsDigit(c: char) {
    '0' <= c <= '9'
  }

  predicate AllDigits(s: string) {
    forall i :: 0 <= i < |s| ==> IsDigit(s[i])
  }

  function DigitOf(c: char): nat
    requires IsDigit(c)
  {
    c as int - '0' as int
  }

  function DigitChar(d: nat): (c: char)
    requires d < 10
    ensures IsDigit(c) && DigitOf(c) == d
  {
    ('0' as int + d) as char
  }

  function Pow10(w: nat): (p: nat)
    ensures p >= 1
  {
    if w == 0 then 1 else 10 * Pow10(w - 1)
  }

  /** The number a string of decimal digits denotes (leading zeros allowed). */
  function DigitsValue(s: string): nat
    requires AllDigits(s)
  {
    if s == [] then 0 else DigitsValue(s[..|s| - 1]) * 10 + DigitOf(s[|s| - 1])
  }

  /** `n` written with exactly `w` digits, zero-padded on the left (as `%04d`). */
  function FixedDigits(n: nat, w: nat): (r: string)
    ensures |r| == w && AllDigits(r)
  {
    if w == 0 then [] else FixedDigits(n / 10, w - 1) + [DigitChar(n % 10)]
  }

  /** Fixed-width rendering is read back as the same number. */
  lemma {:induction false} FixedDigitsValue(n: nat, w: nat)
    requires n < Pow10(w)
    ensures DigitsValue(FixedDigits(n, w)) == n
  {
    if w > 0 {
      var s := FixedDigits(n, w);
      assert s[..|s| - 1] == FixedDigits(n / 10, w - 1);
      FixedDigitsValue(n / 10, w - 1);
    }
  }

  /** A digit string is its own fixed-width rendering. */
  lemma {:induction false} DigitsRoundTrip(s: string)
    requires AllDigits(s)
    ensures DigitsValue(s) < Pow10(|s|)
    ensures FixedDigits(DigitsValue(s), |s|) == s
  {
    if s != [] {
      var init := s[..|s| - 1];
      DigitsRoundTrip(init);
      var v := DigitsValue(s);
      assert v / 10 == DigitsValue(init) && v % 10 == DigitOf(s[|s| - 1]);
      assert s == init + [s[|s| - 1]];
    }
  }

  /** `str(n)` for a natural number: its shortest decimal rendering. */
  function NatToString(n: nat): (r: string)
    ensures r != [] && AllDigits(r)
  {
    if n < 10 then [DigitChar(n)] else NatToString(n / 10) + [DigitChar(n % 10)]
  }

  lemma {:induction false} NatToStringValue(n: nat)
    ensures DigitsValue(NatToString(n)) == n
  {
    var s := NatToString(n);
    if n >= 10 {
      assert s[..|s| - 1] == NatToString(n / 10);
      NatToStringValue(n / 10);
    }
  }

  /** `str(n)` for an integer. */
  function IntToString(n: int): string {
    if n < 0 then "-" + NatToString(-n) else NatToString(n)
  }

  // ---------------------------------------------------------------------------
  // int(str), base 10
  // ---------------------------------------------------------------------------

  /** Digits with single underscores between them, as Python's `int()` accepts. */
  predicate GroupedDigits(s: string)
    decreases |s|
  {
    && s != []
    && IsDigit(s[0])
    && (|s| == 1 || GroupedDigits(if s[1] == '_' then s[2..] else s[1..]))
  }

  /** The digits of a grouped digit string, with the underscores dropped. */
  function Ungroup(s: string): string {
    if s == [] then []
    else if s[0] == '_' then Ungroup(s[1..])
    else [s[0]] + Ungroup(s[1..])
  }

  /** Dropping the underscores of grouped digits leaves digits only. */
  lemma {:induction false} UngroupedDigits(s: string)
    requires GroupedDigits(s)
    ensures AllDigits(Ungroup(s))
    decreases |s|
  {
    if |s| > 1 {
      UngroupedDigits(if s[1] == '_' then s[2..] else s[1..]);
      if s[1] == '_' {
        assert Ungroup(s[1..]) == Ungroup(s[2..]);
      }
    }
  }

  /**
   * Python's `int(s)` for a string: surrounding whitespace is ignored, an
   * optional sign may precede the digits; anything else raises ValueError,
   * which is None here.
   */
  function ParseInt(s: string): (r: Option<int>)
  {
    var t := Strip(s);
    if t == [] then None else ParseSigned(t)
  }

  /** `int()` of text that is already stripped and not empty: an optional sign, then the digits. */
  function ParseSigned(t: string): Option<int>
    requires t != []
  {
    var body := if t[0] == '-' || t[0] == '+' then t[1..] else t;
    match ParseBody(body)
    case None => None
    case Some(v) =>
      var x: int := v;
      Some(if t[0] == '-' then -x else x)
  }

  /** The digits after the sign: grouped digits give their value, anything else raises. */
  function ParseBody(body: string): Option<nat> {
    if GroupedDigits(body) then
      UngroupedDigits(body);
      Some(DigitsValue(Ungroup(body)))
    else None
  }

  lemma StripUnpadded(s: string)
    requires s != [] && !IsSpace(s[0]) && !IsSpace(s[|s| - 1])
    ensures Strip(s) == s
  {
  }

  /** A plain run of digits is grouped, with nothing to drop. */
  lemma {:induction false} DigitsAreGrouped(s: string)
    requires s != [] && AllDigits(s)
    ensures GroupedDigits(s) && Ungroup(s) == s
    decreases |s|
  {
    if |s| > 1 {
      assert IsDigit(s[1]);
      assert forall i :: 0 <= i < |s| - 1 ==> s[1..][i] == s[i + 1];
      DigitsAreGrouped(s[1..]);
    }
  }

  /** A plain run of digits reads as its value. */
  lemma BodyOfDigits(digits: string)
    requires digits != [] && AllDigits(digits)
    ensures ParseBody(digits) == Some(DigitsValue(digits))
  {
    DigitsAreGrouped(digits);
  }

  lemma ParseUnsigned(digits: string)
    requires digits != [] && AllDigits(digits)
    ensures ParseSigned(digits) == Some(DigitsValue(digits) as int)
  {
    assert IsDigit(digits[0]);
    BodyOfDigits(digits);
  }

  /** A minus sign followed by a run of digits reads as the negated value. */
  lemma ParseNegative(digits: string)
    requires digits != [] && AllDigits(digits)
    ensures ParseSigned("-" + digits) == Some(-(DigitsValue(digits) as int))
  {
    var t := "-" + digits;
    assert t[0] == '-' && t[1..] == digits;
    BodyOfDigits(digits);
  }

  /** An optional minus sign before a run of digits reads back as the signed value of the digits. */
  lemma SignedDigitsRoundTrip(n: int, digits: string)
    requires digits != [] && AllDigits(digits)
    requires DigitsValue(digits) == if n < 0 then -n else n
    ensures ParseInt(if n < 0 then "-" + digits else digits) == Some(n)
  {
    var s := if n < 0 then "-" + digits else digits;
    assert IsDigit(digits[0]) && IsDigit(digits[|digits| - 1]);
    assert s[|s| - 1] == digits[|digits| - 1];
    StripUnpadded(s);
    if n < 0 {
      ParseNegative(digits);
    } else {
      ParseUnsigned(digits);
    }
  }

  /** `int(str(n)) == n`: the parse reads back every integer's own rendering. */
  lemma IntRoundTrip(n: int)
    ensures ParseInt(IntToString(n)) == Some(n)
  {
    var m: nat := if n < 0 then -n else n;
    NatToStringValue(m);
    SignedDigitsRoundTrip(n, NatToString(m));
  }

  // ---------------------------------------------------------------------------
  // float(str): only whether it is accepted
  // ---------------------------------------------------------------------------

  function LowerChar(c: char): char {
    if 'A' <= c <= 'Z' then (c as int + 32) as char else c
  }

  function Lower(s: string): (r: string)
    ensures |r| == |s|
  {
    seq(|s|, i requires 0 <= i < |s| => LowerChar(s[i]))
  }

  /** The first position holding `a` or `b`, or `|s|` when there is none. */
  function IndexOfEither(s: string, a: char, b: char): (k: nat)
    ensures k <= |s|
    ensures k < |s| ==> s[k] == a || s[k] == b
    ensures forall i :: 0 <= i < k ==> s[i] != a && s[i] != b
  {
    if s == [] then 0
    else if s[0] == a || s[0] == b then 0
    else 1 + IndexOfEither(s[1..], a, b)
  }

  predicate OptionalDigits(s: string) {
    s == [] || GroupedDigits(s)
  }

  /** `digits`, `digits.`, `.digits` or `digits.digits`, underscores allowed between digits. */
  predicate IsMantissa(m: string) {
    var j := IndexOfEither(m, '.', '.');
    if j == |m| then GroupedDigits(m)
    else OptionalDigits(m[..j]) && OptionalDigits(m[j + 1..]) && (j > 0 || j + 1 < |m|)
  }

  function DropSign(s: string): string {
    if s != [] && (s[0] == '+' || s[0] == '-') then s[1..] else s
  }

  /**
   * Python's `float(s)` for a string succeeds: after stripping whitespace
   * and one sign, the text is `inf`, `infinity` or `nan` in any case, or a
   * decimal literal with an optional exponent; otherwise it raises ValueError.
   */
  predicate IsFloatText(s: string) {
    var b := DropSign(Strip(s));
    var k := IndexOfEither(b, 'e', 'E');
    || Lower(b) == "inf" || Lower(b) == "infinity" || Lower(b) == "nan"
    || (IsMantissa(b[..k]) && (k == |b| || GroupedDigits(DropSign(b[k + 1..]))))
  }
}
