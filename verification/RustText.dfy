/** The text primitives of Rust's standard library that the readers and writers rest on: trimming and
    splitting by the Unicode White_Space property, prefixes and suffixes, and the printing and parsing
    of machine integers. */
module RustText {
  import opened Prelude

  // ================================================================ white space

  /** char::is_whitespace: the Unicode White_Space property. */
  predicate IsSpace(c: char) {
    var u := c as int;
    (0x09 <= u <= 0x0D) || u == 0x20 || u == 0x85 || u == 0xA0 || u == 0x1680 || (0x2000 <= u <= 0x200A)
    || u == 0x2028 || u == 0x2029 || u == 0x202F || u == 0x205F || u == 0x3000
  }

  /** The first place from i on that is no blank. */
  function SkipSpaces(s: string, i: nat): (j: nat)
    requires i <= |s|
    ensures i <= j <= |s| && (j < |s| ==> !IsSpace(s[j]))
    decreases |s| - i
  {
    if i < |s| && IsSpace(s[i]) then SkipSpaces(s, i + 1) else i
  }

  /** The end of what precedes i without its trailing blanks. */
  function DropSpaces(s: string, i: nat): (j: nat)
    requires i <= |s|
    ensures j <= i && (j > 0 ==> !IsSpace(s[j - 1]))
  {
    if i > 0 && IsSpace(s[i - 1]) then DropSpaces(s, i - 1) else i
  }

  function TrimStart(s: string): string { s[SkipSpaces(s, 0)..] }

  function TrimEnd(s: string): string { s[..DropSpaces(s, |s|)] }

  function Trim(s: string): string {
    TrimEnd(TrimStart(s))
  }

  predicate Trimmed(s: string) {
    s == "" || (!IsSpace(s[0]) && !IsSpace(s[|s| - 1]))
  }

  lemma TrimTrimmed(s: string)
    requires Trimmed(s)
    ensures Trim(s) == s
  {
  }

  predicate NoSpace(s: string) {
    forall i :: 0 <= i < |s| ==> !IsSpace(s[i])
  }

  /** The first blank from i on. */
  function WordEnd(s: string, i: nat): (j: nat)
    requires i <= |s|
    ensures i <= j <= |s| && (j < |s| ==> IsSpace(s[j])) && (i < |s| && !IsSpace(s[i]) ==> i < j)
    decreases |s| - i
  {
    if i < |s| && !IsSpace(s[i]) then WordEnd(s, i + 1) else i
  }

  function WordsFrom(s: string, i: nat): seq<string>
    requires i <= |s|
    decreases |s| - i
  {
    var j := SkipSpaces(s, i);
    if j == |s| then [] else [s[j..WordEnd(s, j)]] + WordsFrom(s, WordEnd(s, j))
  }

  function SplitWhitespace(s: string): seq<string> { WordsFrom(s, 0) }

  function StripPrefix(s: string, prefix: string): Option<string> {
    if prefix <= s then Some(s[|prefix|..]) else None
  }

  function StripSuffix(s: string, suffix: string): Option<string> {
    if |suffix| <= |s| && s[|s| - |suffix|..] == suffix then Some(s[..|s| - |suffix|]) else None
  }

  // ================================================================ integers

  predicate IsDigit(c: char) { '0' <= c <= '9' }

  function DigitValue(c: char): nat
    requires IsDigit(c)
  {
    c as int - '0' as int
  }

  function DigitChar(d: nat): (c: char)
    requires d < 10
    ensures IsDigit(c) && DigitValue(c) == d && !IsSpace(c)
  {
    (d + '0' as int) as char
  }

  predicate AllDigits(s: string) {
    forall i :: 0 <= i < |s| ==> IsDigit(s[i])
  }

  function DigitsValue(s: string): nat
    requires AllDigits(s)
  {
    if s == "" then 0 else 10 * DigitsValue(s[..|s| - 1]) + DigitValue(s[|s| - 1])
  }

  function FormatNat(n: nat): (s: string)
    ensures s != "" && AllDigits(s) && NoSpace(s) && DigitsValue(s) == n
  {
    if n < 10 then
      assert [DigitChar(n)][..0] == "";
      [DigitChar(n)]
    else
      var init := FormatNat(n / 10);
      assert (init + [DigitChar(n % 10)])[..|init|] == init;
      init + [DigitChar(n % 10)]
  }

  function FormatInt(i: int): (s: string)
    ensures s != "" && NoSpace(s)
  {
    if i < 0 then "-" + FormatNat(-i) else FormatNat(i)
  }

  /** str::parse for an unsigned type with the given exclusive bound: an optional +, then digits. */
  function ParseNat(s: string, bound: nat): Option<nat> {
    var digits := if s != "" && s[0] == '+' then s[1..] else s;
    if digits != "" && AllDigits(digits) && DigitsValue(digits) < bound then Some(DigitsValue(digits)) else None
  }

  const I32_BOUND: int := 0x8000_0000
  const U32_BOUND: nat := 0x1_0000_0000
  const USIZE_BOUND: nat := 0x1_0000_0000_0000_0000

  /** str::parse::<i32>: an optional sign, then digits, in range. */
  function ParseI32(s: string): (r: Option<int>)
    ensures r.Some? ==> -I32_BOUND <= r.value < I32_BOUND
  {
    if s != "" && s[0] == '-' then
      var digits := s[1..];
      if digits != "" && AllDigits(digits) && DigitsValue(digits) <= I32_BOUND
      then Some(0 - DigitsValue(digits) as int) else None
    else
      match ParseNat(s, I32_BOUND)
      case Some(n) => Some(n)
      case None => None
  }

  lemma ParseFormatNat(n: nat, bound: nat)
    requires n < bound
    ensures ParseNat(FormatNat(n), bound) == Some(n)
  {
    assert IsDigit(FormatNat(n)[0]);
  }

  lemma ParseFormatInt(i: int)
    requires -I32_BOUND <= i < I32_BOUND
    ensures ParseI32(FormatInt(i)) == Some(i)
  {
    if i < 0 {
      assert FormatInt(i)[1..] == FormatNat(-i);
    } else {
      assert IsDigit(FormatNat(i)[0]);
      ParseFormatNat(i, I32_BOUND);
    }
  }

  /** Different numbers are written differently. */
  lemma FormatNatInjective(a: nat, b: nat)
    requires FormatNat(a) == FormatNat(b)
    ensures a == b
  {
    assert a == DigitsValue(FormatNat(a)) == DigitsValue(FormatNat(b)) == b;
  }
}
