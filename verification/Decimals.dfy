/** Texts of integers, as `String(n)` writes and `parseInt` reads them. */
module Decimals {
  import opened Options

  predicate IsDigit(c: char) { '0' <= c <= '9' }

  /** What `parseInt` skips: the white space and the line ends of ECMAScript. */
  predicate IsSpace(c: char) {
    '\U{0009}' <= c <= '\U{000D}' || c == ' ' || c == '\U{00A0}' || c == '\U{1680}' ||
    '\U{2000}' <= c <= '\U{200A}' || c == '\U{2028}' || c == '\U{2029}' || c == '\U{202F}' || c == '\U{205F}' ||
    c == '\U{3000}' || c == '\U{FEFF}'
  }

  function DigitChar(d: nat): char
    requires d < 10
  {
    '0' + d as char
  }

  function DigitValue(c: char): nat
    requires IsDigit(c)
  {
    (c - '0') as nat
  }

  function NatText(n: nat): string {
    if n < 10 then [DigitChar(n)] else NatText(n / 10) + [DigitChar(n % 10)]
  }

  function IntText(n: int): string { if n < 0 then "-" + NatText(-n) else NatText(n) }

  predicate AllDigits(s: string) { forall i :: 0 <= i < |s| ==> IsDigit(s[i]) }

  function Value(digits: string): nat
    requires AllDigits(digits)
  {
    if digits == "" then 0 else Value(digits[..|digits| - 1]) * 10 + DigitValue(digits[|digits| - 1])
  }

  function LeadingDigits(s: string): (digits: string)
    ensures AllDigits(digits) && digits <= s
  {
    if s == "" || !IsDigit(s[0]) then "" else [s[0]] + LeadingDigits(s[1..])
  }

  function SkipSpaces(s: string): string {
    if s != "" && IsSpace(s[0]) then SkipSpaces(s[1..]) else s
  }

  function ParseLeading(s: string): Option<int> {
    var digits := LeadingDigits(s);
    if digits == "" then None else Some(Value(digits))
  }

  predicate IsSigned(s: string) { s != "" && (s[0] == '-' || s[0] == '+') }

  function Negate(n: Option<int>): Option<int> { if n.None? then None else Some(-n.value) }

  function ParseSign(s: string): Option<int> {
    if !IsSigned(s) then ParseLeading(s)
    else if s[0] == '-' then Negate(ParseLeading(s[1..]))
    else ParseLeading(s[1..])
  }

  /** The integer at the start of the text; `None` stands for NaN. */
  function ParseInt(s: string): Option<int> { ParseSign(SkipSpaces(s)) }

  lemma {:induction false} NatTextDigits(n: nat)
    ensures NatText(n) != "" && AllDigits(NatText(n)) && Value(NatText(n)) == n
  {
    if n >= 10 {
      NatTextDigits(n / 10);
      var text := NatText(n);
      assert text[..|text| - 1] == NatText(n / 10);
    } else {
      assert NatText(n)[..0] == "";
    }
  }

  lemma {:induction false} LeadingOfDigits(s: string)
    requires AllDigits(s)
    ensures LeadingDigits(s) == s
  {
    if s != "" {
      assert AllDigits(s[1..]);
      LeadingOfDigits(s[1..]);
    }
  }

  lemma NothingToSkip(s: string)
    requires s != "" && !IsSpace(s[0])
    ensures SkipSpaces(s) == s
  {
  }

  lemma ParseAllDigits(digits: string)
    requires AllDigits(digits) && digits != ""
    ensures ParseLeading(digits) == Some(Value(digits))
  {
    LeadingOfDigits(digits);
  }

  lemma ParsePositive(digits: string)
    requires AllDigits(digits) && digits != ""
    ensures ParseInt(digits) == Some(Value(digits))
  {
    assert IsDigit(digits[0]);
    NothingToSkip(digits);
    ParseAllDigits(digits);
  }

  predicate IsMinus(s: string, digits: string) { s != "" && s[0] == '-' && s[1..] == digits }

  lemma NegativeText(digits: string)
    ensures IsMinus("-" + digits, digits)
  {
  }

  lemma ParseNegative(s: string, digits: string)
    requires AllDigits(digits) && digits != "" && IsMinus(s, digits)
    ensures ParseInt(s) == Some(-(Value(digits) as int))
  {
    NothingToSkip(s);
    ParseAllDigits(digits);
  }

  /** Reading a written integer gives the integer back. */
  lemma ParseText(n: int)
    ensures ParseInt(IntText(n)) == Some(n)
  {
    var size: nat := if n < 0 then -n else n;
    NatTextDigits(size);
    if n < 0 {
      NegativeText(NatText(size));
      ParseNegative(IntText(n), NatText(size));
    } else {
      ParsePositive(NatText(size));
    }
  }

  // ---- Without a radix -----------------------------------------------------------------------------------------

  predicate IsHex(c: char) { IsDigit(c) || 'a' <= c <= 'f' || 'A' <= c <= 'F' }

  function HexDigit(c: char): nat
    requires IsHex(c)
  {
    if IsDigit(c) then DigitValue(c) else if c <= 'F' then c as int - 'A' as int + 10 else c as int - 'a' as int + 10
  }

  function HexValue(digits: string): nat
    requires forall i :: 0 <= i < |digits| ==> IsHex(digits[i])
  {
    if digits == "" then 0 else HexValue(digits[..|digits| - 1]) * 16 + HexDigit(digits[|digits| - 1])
  }

  function LeadingHex(s: string): (digits: string)
    ensures forall i :: 0 <= i < |digits| ==> IsHex(digits[i])
  {
    if s == "" || !IsHex(s[0]) then "" else [s[0]] + LeadingHex(s[1..])
  }

  predicate HasHexPrefix(s: string) { "0x" <= s || "0X" <= s }

  function Unsign(s: string): string { if IsSigned(s) then s[1..] else s }

  function ParseHex(s: string): Option<int>
    requires HasHexPrefix(s)
  {
    var digits := LeadingHex(s[2..]);
    if digits == "" then None else Some(HexValue(digits))
  }

  /** `parseInt(text)`: a text that starts with `0x` is hexadecimal, any other decimal. */
  function ParseAnyInt(s: string): Option<int> {
    var t := SkipSpaces(s);
    if !HasHexPrefix(Unsign(t)) then ParseInt(s)
    else if t[0] == '-' then Negate(ParseHex(Unsign(t)))
    else ParseHex(Unsign(t))
  }

  lemma DigitsAreNoHex(digits: string)
    requires AllDigits(digits)
    ensures !HasHexPrefix(digits)
  {
    if |digits| > 1 {
      assert IsDigit(digits[1]);
    }
  }

  lemma NotHex(s: string, digits: string)
    requires AllDigits(digits) && digits != "" && (s == digits || IsMinus(s, digits))
    ensures ParseAnyInt(s) == ParseInt(s)
  {
    assert IsDigit(digits[0]);
    NothingToSkip(s);
    assert Unsign(s) == digits;
    DigitsAreNoHex(digits);
  }

  lemma ParseAnyDigits(s: string, digits: string)
    requires AllDigits(digits) && digits != "" && (s == digits || IsMinus(s, digits))
    ensures ParseAnyInt(s) == Some(if s == digits then Value(digits) as int else -(Value(digits) as int))
  {
    NotHex(s, digits);
    if s == digits {
      ParsePositive(digits);
    } else {
      ParseNegative(s, digits);
    }
  }

  lemma ParseWritten(n: int)
    ensures ParseAnyInt(IntText(n)) == Some(n)
  {
    var size: nat := if n < 0 then -n else n;
    NatTextDigits(size);
    NegativeText(NatText(size));
    NotHex(IntText(n), NatText(size));
    ParseText(n);
  }

  // ---- What the texts mean -------------------------------------------------------------------------------------

  /** The digit for a number below sixteen, in either case. */
  function DigitOf(d: nat, upper: bool): char
    requires d < 16
  {
    if d < 10 then '0' + d as char else (if upper then 'A' else 'a') + (d - 10) as char
  }

  lemma DigitsAre(d: nat)
    requires d < 16
    ensures DigitOf(d, false) == "0123456789abcdef"[d] && DigitOf(d, true) == "0123456789ABCDEF"[d]
  {
  }

  /** The character is the digit for the number. */
  predicate IsDigitFor(c: char, d: nat)
    requires d < 16
  {
    c == DigitOf(d, false) || c == DigitOf(d, true)
  }

  /** The text is the number in the base, found by repeated division; zeros may lead, and either case will do. */
  predicate Spells(s: string, n: nat, base: nat)
    requires base == 10 || base == 16
  {
    && s != ""
    && IsDigitFor(s[|s| - 1], n % base)
    && if |s| == 1 then n < base else Spells(s[..|s| - 1], n / base, base)
  }

  lemma {:induction false} SpellsDecimal(s: string, n: nat)
    requires Spells(s, n, 10)
    ensures AllDigits(s) && Value(s) == n
  {
    DigitIs(s[|s| - 1], n % 10);
    var before := s[..|s| - 1];
    if |s| > 1 {
      SpellsDecimal(before, n / 10);
      assert s == before + [s[|s| - 1]];
    } else {
      assert before == "";
    }
  }

  lemma DigitIs(c: char, d: nat)
    requires d < 10
    ensures IsDigitFor(c, d) <==> c == DigitChar(d)
    ensures c == DigitChar(d) <==> IsDigit(c) && DigitValue(c) == d
  {
  }

  lemma Divided(n: nat, d: nat, base: nat)
    requires (base == 10 || base == 16) && d < base
    ensures (n * base + d) / base == n && (n * base + d) % base == d
  {
  }

  /** A digit after the text of a number multiplies the number by the base. */
  lemma SpellsMore(s: string, n: nat, c: char, d: nat, base: nat, m: nat)
    requires (base == 10 || base == 16) && d < base && IsDigitFor(c, d)
    requires m / base == n && m % base == d
    requires if s == "" then n == 0 else Spells(s, n, base)
    ensures Spells(s + [c], m, base)
  {
    assert (s + [c])[..|s|] == s;
  }

  lemma {:induction false} DecimalSpells(s: string)
    requires s != "" && AllDigits(s)
    ensures Spells(s, Value(s), 10)
  {
    var before, last := s[..|s| - 1], s[|s| - 1];
    assert IsDigit(last) && s == before + [last];
    DigitIs(last, DigitValue(last));
    if before != "" {
      DecimalSpells(before);
    }
    Divided(Value(before), DigitValue(last), 10);
    SpellsMore(before, Value(before), last, DigitValue(last), 10, Value(s));
  }

  predicate AllHex(s: string) { forall i :: 0 <= i < |s| ==> IsHex(s[i]) }

  lemma HexDigitIs(c: char, d: nat)
    requires d < 16
    ensures IsDigitFor(c, d) <==> IsHex(c) && HexDigit(c) == d
  {
  }

  lemma {:induction false} SpellsHex(s: string, n: nat)
    requires Spells(s, n, 16)
    ensures AllHex(s) && HexValue(s) == n
  {
    var before, last := s[..|s| - 1], s[|s| - 1];
    HexDigitIs(last, n % 16);
    if |s| > 1 {
      SpellsHex(before, n / 16);
    } else {
      assert before == "" && HexValue(before) == 0;
    }
    HexSnoc(before, last);
    assert s == before + [last];
    assert HexValue(s) == n / 16 * 16 + n % 16;
  }

  lemma HexSnoc(digits: string, last: char)
    requires AllHex(digits) && IsHex(last)
    ensures AllHex(digits + [last]) && HexValue(digits + [last]) == HexValue(digits) * 16 + HexDigit(last)
  {
    assert (digits + [last])[..|digits|] == digits;
  }

  lemma {:induction false} HexSpells(s: string)
    requires s != "" && AllHex(s)
    ensures Spells(s, HexValue(s), 16)
  {
    var before, last := s[..|s| - 1], s[|s| - 1];
    assert IsHex(last) && s == before + [last];
    HexDigitIs(last, HexDigit(last));
    if before != "" {
      HexSpells(before);
    }
    Divided(HexValue(before), HexDigit(last), 16);
    SpellsMore(before, HexValue(before), last, HexDigit(last), 16, HexValue(s));
  }

  /** The hexadecimal text of a number by repeated division, in lower or in upper case. */
  function HexText(n: nat, upper: bool): string {
    var digit := [DigitOf(n % 16, upper)];
    if n < 16 then digit else HexText(n / 16, upper) + digit
  }

  lemma {:induction false} HexTextSpells(n: nat, upper: bool)
    ensures Spells(HexText(n, upper), n, 16)
  {
    if n >= 16 {
      HexTextSpells(n / 16, upper);
      var text := HexText(n, upper);
      assert text[..|text| - 1] == HexText(n / 16, upper);
    }
  }
}
