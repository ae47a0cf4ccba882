/** The string operations the source relies on: `str.strip()`, ASCII case
    mapping, substring tests, `str(int)` and the text-to-number conversion
    behind `float(str)` and `pd.to_numeric`. */
module Text {
  import opened Outcomes
  import opened Floats

  /** `str.isspace()` for one character: the whitespace Python's `str.strip()` removes. */
  predicate IsSpace(c: char) {
    var n := c as int;
    (0x09 <= n <= 0x0d) || (0x1c <= n <= 0x20) || n == 0x85 || n == 0xa0 || n == 0x1680
    || (0x2000 <= n <= 0x200a) || n == 0x2028 || n == 0x2029 || n == 0x202f || n == 0x205f
    || n == 0x3000
  }

  /** How many whitespace characters `str.strip()` removes at the front. */
  function LeadingSpaces(s: string): (n: nat)
    ensures n <= |s|
    ensures forall k :: 0 <= k < n ==> IsSpace(s[k])
    ensures n < |s| ==> !IsSpace(s[n])
  {
    if s != [] && IsSpace(s[0]) then 1 + LeadingSpaces(s[1..]) else 0
  }

  /** How many whitespace characters it removes at the back. */
  function TrailingSpaces(s: string): (n: nat)
    ensures n <= |s|
    ensures forall k :: |s| - n <= k < |s| ==> IsSpace(s[k])
    ensures n < |s| ==> !IsSpace(s[|s| - n - 1])
  {
    if s != [] && IsSpace(s[|s| - 1]) then 1 + TrailingSpaces(s[..|s| - 1]) else 0
  }

  /** `str.strip()`: the longest middle part with no whitespace at either end;
      everything removed is whitespace. */
  function Strip(s: string): (r: string)
    ensures r == [] || (!IsSpace(r[0]) && !IsSpace(r[|r| - 1]))
    ensures LeadingSpaces(s) + |r| <= |s| && r == s[LeadingSpaces(s)..LeadingSpaces(s) + |r|]
    ensures forall k :: 0 <= k < LeadingSpaces(s) ==> IsSpace(s[k])
    ensures forall k :: LeadingSpaces(s) + |r| <= k < |s| ==> IsSpace(s[k])
  {
    var i := LeadingSpaces(s);
    TrailingOfSuffix(s, i);
    s[i..|s| - TrailingSpaces(s[i..])]
  }

  /** The trailing whitespace of a suffix, read in the whole text. */
  lemma TrailingOfSuffix(s: string, i: nat)
    requires i <= |s|
    ensures var n := TrailingSpaces(s[i..]);
      (forall k :: |s| - n <= k < |s| ==> IsSpace(s[k])) && (n < |s| - i ==> !IsSpace(s[|s| - n - 1]))
  {
    var rest := s[i..];
    var n := TrailingSpaces(rest);
    forall k | |s| - n <= k < |s|
      ensures IsSpace(s[k])
    {
      assert s[k] == rest[k - i];
    }
    if n < |rest| {
      assert s[|s| - n - 1] == rest[|rest| - n - 1];
    }
  }

  /** Stripping twice removes nothing more. */
  lemma StripIdempotent(s: string)
    ensures Strip(Strip(s)) == Strip(s)
  {
    StripNoSpaceAtEnds(Strip(s));
  }

  lemma StripNoSpaceAtEnds(s: string)
    requires s == [] || (!IsSpace(s[0]) && !IsSpace(s[|s| - 1]))
    ensures Strip(s) == s
  {
    assert LeadingSpaces(s) == 0;
    assert s[0..] == s;
    assert TrailingSpaces(s) == 0;
  }

  predicate IsLowerAscii(c: char) {
    'a' <= c <= 'z'
  }

  predicate IsUpperAscii(c: char) {
    'A' <= c <= 'Z'
  }

  function UpperChar(c: char): char {
    if IsLowerAscii(c) then (c as int - 32) as char else c
  }

  function LowerChar(c: char): char {
    if IsUpperAscii(c) then (c as int + 32) as char else c
  }

  /** `str.upper()` on ASCII letters; every other character is kept. */
  function Upper(s: string): (r: string)
    ensures |r| == |s|
    ensures forall i :: 0 <= i < |s| ==> r[i] == UpperChar(s[i]) && !IsLowerAscii(r[i])
  {
    seq(|s|, i requires 0 <= i < |s| => UpperChar(s[i]))
  }

  /** `str.lower()` on ASCII letters; every other character is kept. */
  function Lower(s: string): (r: string)
    ensures |r| == |s|
    ensures forall i :: 0 <= i < |s| ==> r[i] == LowerChar(s[i]) && !IsUpperAscii(r[i])
  {
    seq(|s|, i requires 0 <= i < |s| => LowerChar(s[i]))
  }

  /** `s.lower() == word`, compared one character at a time. */
  predicate LowerIs(s: string, word: string) {
    if s == [] then word == []
    else word != [] && LowerChar(s[0]) == word[0] && LowerIs(s[1..], word[1..])
  }

  lemma {:induction false} LowerIsLower(s: string, word: string)
    ensures LowerIs(s, word) <==> Lower(s) == word
  {
    if s != [] && word != [] {
      LowerIsLower(s[1..], word[1..]);
      assert Lower(s)[1..] == Lower(s[1..]);
      if Lower(s[1..]) == word[1..] && LowerChar(s[0]) == word[0] {
        assert Lower(s) == [word[0]] + word[1..];
        assert word == [word[0]] + word[1..];
      }
    }
  }

  predicate OccursAt(s: string, sub: string, i: nat) {
    i + |sub| <= |s| && s[i..i + |sub|] == sub
  }

  /** `sub in s` for strings. */
  predicate Contains(s: string, sub: string) {
    exists i: nat | i <= |s| :: OccursAt(s, sub, i)
  }

  // ---------------------------------------------------------------------
  // Decimal digits

  predicate IsDigit(c: char) {
    '0' <= c <= '9'
  }

  predicate AllDigits(s: string) {
    forall i :: 0 <= i < |s| ==> IsDigit(s[i])
  }

  function DigitValue(c: char): (d: nat)
    requires IsDigit(c)
    ensures d < 10
  {
    c as int - '0' as int
  }

  function DigitChar(d: nat): (c: char)
    requires d < 10
    ensures IsDigit(c) && DigitValue(c) == d
  {
    ('0' as int + d) as char
  }

  /** The value of a run of decimal digits, most significant first. */
  function DigitsValue(s: string): nat
    requires AllDigits(s)
  {
    if s == [] then 0 else DigitsValue(s[..|s| - 1]) * 10 + DigitValue(s[|s| - 1])
  }

  /** `str(n)` for a natural number: no leading zero except for `0` itself. */
  function NatToDecimal(n: nat): (s: string)
    ensures |s| >= 1 && AllDigits(s)
    ensures s[0] == '0' ==> n == 0
  {
    if n < 10 then [DigitChar(n)] else NatToDecimal(n / 10) + [DigitChar(n % 10)]
  }

  /** `str(i)` for a Python int. */
  function IntToDecimal(i: int): (s: string)
    ensures |s| >= 1
  {
    if i < 0 then "-" + NatToDecimal(-i) else NatToDecimal(i)
  }

  /** Reading back what `NatToDecimal` wrote gives the number. */
  lemma {:induction false} NatToDecimalRoundTrip(n: nat)
    ensures DigitsValue(NatToDecimal(n)) == n
  {
    if n >= 10 {
      var s := NatToDecimal(n);
      assert s[..|s| - 1] == NatToDecimal(n / 10);
      NatToDecimalRoundTrip(n / 10);
    }
  }

  /** Distinct numbers are written differently. */
  lemma NatToDecimalInjective(m: nat, n: nat)
    requires NatToDecimal(m) == NatToDecimal(n)
    ensures m == n
  {
    NatToDecimalRoundTrip(m);
    NatToDecimalRoundTrip(n);
  }

  /** `strftime`'s two-digit zero-padded fields (`%m`, `%d`, `%H`, `%M`). */
  function Pad2(n: nat): (s: string)
    requires n < 100
    ensures |s| == 2 && AllDigits(s) && DigitsValue(s) == n
  {
    NatToDecimalRoundTrip(n);
    if n < 10 then "0" + NatToDecimal(n) else NatToDecimal(n)
  }

  /** `%Y`: the year written with four digits, zero-padded. */
  function Pad4(n: nat): (s: string)
    requires n < 10000
    ensures |s| == 4 && AllDigits(s) && DigitsValue(s) == n
  {
    var hi := Pad2(n / 100);
    var lo := Pad2(n % 100);
    DigitsValueAppend(hi, lo);
    hi + lo
  }

  /** The value of two runs of digits written one after the other. */
  lemma {:induction false} DigitsValueAppend(a: string, b: string)
    requires AllDigits(a) && AllDigits(b)
    ensures AllDigits(a + b) && DigitsValue(a + b) == DigitsValue(a) * Pow10(|b|) + DigitsValue(b)
  {
    if b != [] {
      var b' := b[..|b| - 1];
      var last := DigitValue(b[|b| - 1]);
      assert (a + b)[..|a + b| - 1] == a + b';
      assert (a + b)[|a + b| - 1] == b[|b| - 1];
      DigitsValueAppend(a, b');
      assert DigitsValue(a + b) == DigitsValue(a + b') * 10 + last;
      assert DigitsValue(b) == DigitsValue(b') * 10 + last;
      assert Pow10(|b|) == 10 * Pow10(|b'|);
      ShiftDigit(DigitsValue(a), Pow10(|b'|), DigitsValue(b'), last);
    } else {
      assert a + b == a;
    }
  }

  /** Appending one digit multiplies the weight of the leading part by ten. */
  lemma ShiftDigit(x: int, p: int, y: int, d: int)
    ensures (x * p + y) * 10 + d == x * (10 * p) + (y * 10 + d)
  {
  }

  function Pow10(n: nat): (p: nat)
    ensures p >= 1
  {
    if n == 0 then 1 else 10 * Pow10(n - 1)
  }

  // ---------------------------------------------------------------------
  // Text to number

  /** The longest prefix of `s` made of decimal digits. */
  function LeadingDigits(s: string): (r: string)
    ensures |r| <= |s| && r == s[..|r|] && AllDigits(r)
    ensures |r| < |s| ==> !IsDigit(s[|r|])
  {
    if s != [] && IsDigit(s[0]) then [s[0]] + LeadingDigits(s[1..]) else []
  }

  /** An optional exponent part `e[+-]digits` after a mantissa `m`. */
  function ParseExponent(m: real, rest: string): Option<real> {
    if rest == [] then Some(m)
    else if rest[0] != 'e' && rest[0] != 'E' then None
    else
      var neg := |rest| > 1 && rest[1] == '-';
      var ds := if |rest| > 1 && (rest[1] == '-' || rest[1] == '+') then rest[2..] else rest[1..];
      if ds == [] || !AllDigits(ds) then None
      else if neg then Some(m / Pow10(DigitsValue(ds)) as real)
      else Some(m * Pow10(DigitsValue(ds)) as real)
  }

  /** An unsigned decimal: `digits`, `digits.`, `.digits` or `digits.digits`,
      with at least one digit, then an optional exponent. */
  function ParseUnsigned(s: string): Option<real> {
    var a := LeadingDigits(s);
    var rest := s[|a|..];
    var frac := if rest != [] && rest[0] == '.' then LeadingDigits(rest[1..]) else [];
    var after := if rest != [] && rest[0] == '.' then rest[1 + |frac|..] else rest;
    if |a| + |frac| == 0 then None
    else ParseExponent(Mantissa(a, frac), after)
  }

  /** The number written as the digits `a`, a point, and the digits `frac`. */
  function Mantissa(a: string, frac: string): real
    requires AllDigits(a) && AllDigits(frac)
  {
    DigitsValue(a) as real + DigitsValue(frac) as real / Pow10(|frac|) as real
  }

  lemma MantissaWhole(a: string)
    requires AllDigits(a)
    ensures Mantissa(a, []) == DigitsValue(a) as real
  {
    assert DigitsValue([]) == 0 && Pow10(0) == 1;
  }

  /** The text-to-double conversion of `float(str)` and `pd.to_numeric`:
      surrounding whitespace, an optional sign, then a decimal or one of
      `inf`, `infinity`, `nan` in any case. `None` means the text is rejected. */
  function ParseNumber(s: string): Option<Float> {
    ParseSigned(Strip(s))
  }

  /** The stripped text: an optional sign, then the number. */
  function ParseSigned(t: string): Option<Float> {
    var neg := t != [] && t[0] == '-';
    var body := if t != [] && (t[0] == '-' || t[0] == '+') then t[1..] else t;
    match SpecialNumber(body, neg)
    case Some(f) => Some(f)
    case None =>
      match ParseUnsigned(body)
      case None => None
      case Some(v) => Some(Finite(if neg then -v else v))
  }

  /** `inf`, `infinity` and `nan` in any case. */
  function SpecialNumber(body: string, neg: bool): Option<Float> {
    if LowerIs(body, "inf") || LowerIs(body, "infinity") then Some(if neg then NegInf else PosInf)
    else if LowerIs(body, "nan") then Some(NaN)
    else None
  }

  lemma StripNoSpace(s: string)
    requires forall i :: 0 <= i < |s| ==> !IsSpace(s[i])
    ensures Strip(s) == s
  {
    StripNoSpaceAtEnds(s);
  }

  lemma {:induction false} LeadingDigitsAll(s: string)
    requires AllDigits(s)
    ensures LeadingDigits(s) == s
  {
    if s != [] {
      LeadingDigitsAll(s[1..]);
    }
  }

  /** A run of digits with nothing after it reads as its value. */
  lemma DigitsParse(d: string)
    requires |d| >= 1 && AllDigits(d)
    ensures ParseUnsigned(d) == Some(DigitsValue(d) as real)
  {
    LeadingDigitsAll(d);
    assert d[|d|..] == [];
    MantissaWhole(d);
  }

  /** What `str(n)` writes for a natural number reads back as that number. */
  lemma NatToDecimalParses(n: nat)
    ensures ParseUnsigned(NatToDecimal(n)) == Some(n as real)
  {
    NatToDecimalRoundTrip(n);
    DigitsParse(NatToDecimal(n));
  }

  /** `float(str(n))` for a natural number `n` is `n`. */
  lemma NatTextParses(n: nat)
    ensures ParseNumber(NatToDecimal(n)) == Some(Finite(n as real))
  {
    var d := NatToDecimal(n);
    StripNoSpace(d);
    NatToDecimalParses(n);
    DigitsNotSpecial(d);
  }

  /** Text that starts with a digit is none of `inf`, `infinity`, `nan`. */
  lemma DigitsNotSpecial(d: string)
    requires d != [] && IsDigit(d[0])
    ensures SpecialNumber(d, false) == None
  {
    assert LowerChar(d[0]) == d[0];
  }

  lemma NoSpaceInDecimal(i: int)
    ensures forall k :: 0 <= k < |IntToDecimal(i)| ==> !IsSpace(IntToDecimal(i)[k])
  {
    var s := IntToDecimal(i);
    forall k | 0 <= k < |s| ensures !IsSpace(s[k]) {
      if i < 0 && k > 0 {
        assert s[k] == NatToDecimal(-i)[k - 1];
      }
    }
  }
}
