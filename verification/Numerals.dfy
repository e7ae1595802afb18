/** What `parseInt` accepts: exactly the texts that start with the digits of a number. */
module Numerals {
  import opened Options
  import opened Decimals

  const WHITE_SPACE :=
    "\U{0009}\U{000A}\U{000B}\U{000C}\U{000D} \U{00A0}\U{1680}\U{2000}\U{2001}\U{2002}\U{2003}\U{2004}\U{2005}" +
    "\U{2006}\U{2007}\U{2008}\U{2009}\U{200A}\U{2028}\U{2029}\U{202F}\U{205F}\U{3000}\U{FEFF}"

  predicate IsWhite(s: string) { forall i :: 0 <= i < |s| ==> s[i] in WHITE_SPACE }

  predicate IsSign(s: string) { s == "" || s == "+" || s == "-" }

  function WithSign(sign: string, n: int): int { if sign == "-" then -n else n }

  /** No digit of the base comes first. */
  predicate NoDigit(s: string, base: nat)
    requires base == 10 || base == 16
  {
    s == "" || forall d: nat :: d < base ==> !IsDigitFor(s[0], d)
  }

  /** A text taken apart: white space, a sign, a prefix, the digits and whatever follows them. */
  datatype Parts = Parts(spaces: string, sign: string, prefix: string, digits: string, tail: string)
  {
    function Body(): string { prefix + (digits + tail) }

    function Text(): string { spaces + (sign + Body()) }

    /** The digits are those of the number, and no more digits follow; a zero before an `x` is a prefix. */
    predicate Fit(n: nat, base: nat)
      requires base == 10 || base == 16
    {
      && IsWhite(spaces) && IsSign(sign)
      && (if base == 16 then prefix == "0x" || prefix == "0X" else prefix == "")
      && Spells(digits, n, base) && NoDigit(tail, base)
    }

    /** What looks like the number zero is the start of a hexadecimal prefix. */
    predicate ZeroIsPrefix() { digits == "0" && tail != "" && (tail[0] == 'x' || tail[0] == 'X') }

    function Signed(n: int): int { WithSign(sign, n) }
  }

  /** The text starts with the number in the base. */
  ghost predicate Starts(s: string, v: int, base: nat)
    requires base == 10 || base == 16
  {
    exists p: Parts, n: nat :: p.Fit(n, base) && p.Text() == s && p.Signed(n) == v
  }

  /** The text starts with the number in hexadecimal, or in decimal and not with the prefix of a hexadecimal number. */
  ghost predicate Denotes(s: string, v: int) {
    || Starts(s, v, 16)
    || exists p: Parts, n: nat :: p.Fit(n, 10) && p.Text() == s && p.Signed(n) == v && !p.ZeroIsPrefix()
  }

  // ---- White space and sign ------------------------------------------------------------------------------------

  lemma SpaceIs(c: char)
    ensures IsSpace(c) <==> c in WHITE_SPACE
  {
    if IsSpace(c) {
      var i := if c as int <= 13 then c as int - 9 else if c == ' ' then 5 else if c == '\U{00A0}' then 6
      else if c == '\U{1680}' then 7 else if c <= '\U{200A}' then c as int - 0x2000 + 8
      else if c == '\U{2028}' then 19 else if c == '\U{2029}' then 20 else if c == '\U{202F}' then 21
      else if c == '\U{205F}' then 22 else if c == '\U{3000}' then 23 else 24;
      assert WHITE_SPACE[i] == c;
    }
  }

  lemma {:induction false} SkipsSpaces(spaces: string, rest: string)
    requires IsWhite(spaces) && (rest == "" || !IsSpace(rest[0]))
    ensures SkipSpaces(spaces + rest) == rest
  {
    if spaces == "" {
      assert spaces + rest == rest;
    } else {
      SpaceIs(spaces[0]);
      assert (spaces + rest)[1..] == spaces[1..] + rest;
      SkipsSpaces(spaces[1..], rest);
    }
  }

  /** The text without its last `|t|` characters, where those are `t`. */
  function Before(s: string, t: string): string { if |t| <= |s| then s[..|s| - |t|] else "" }

  predicate EndsWith(s: string, t: string) { Before(s, t) + t == s }

  lemma {:induction false} SkippedSpaces(s: string)
    ensures EndsWith(s, SkipSpaces(s)) && IsWhite(Before(s, SkipSpaces(s)))
  {
    if s != "" && IsSpace(s[0]) {
      SkippedSpaces(s[1..]);
      SpaceIs(s[0]);
      OneMoreBefore(s, SkipSpaces(s));
    } else {
      assert Before(s, s) == "" && "" + s == s;
    }
  }

  lemma OneMoreBefore(s: string, t: string)
    requires s != "" && EndsWith(s[1..], t)
    ensures EndsWith(s, t) && Before(s, t) == [s[0]] + Before(s[1..], t)
  {
    var before := Before(s[1..], t);
    assert |s[1..]| == |before| + |t|;
    assert [s[0]] + before + t == [s[0]] + (before + t);
  }

  lemma Unwrapped(spaces: string, sign: string, body: string)
    requires IsWhite(spaces) && IsSign(sign) && body != "" && IsDigit(body[0])
    ensures SkipSpaces(spaces + (sign + body)) == sign + body && Unsign(sign + body) == body
    ensures IsSigned(sign + body) <==> sign != ""
    ensures (sign + body)[0] == '-' <==> sign == "-"
  {
    if sign == "" {
      assert sign + body == body;
    } else {
      assert (sign + body)[0] == sign[0] && (sign + body)[1..] == body;
    }
    SkipsSpaces(spaces, sign + body);
  }

  lemma Unsigned(t: string)
    ensures EndsWith(t, Unsign(t)) && IsSign(Before(t, Unsign(t)))
    ensures Before(t, Unsign(t)) == "-" <==> IsSigned(t) && t[0] == '-'
  {
    if IsSigned(t) {
      assert Before(t, Unsign(t)) == [t[0]];
    } else {
      assert Before(t, t) == "";
    }
  }

  // ---- Digits --------------------------------------------------------------------------------------------------

  lemma DigitIn(s: string)
    ensures NoDigit(s, 10) <==> s == "" || !IsDigit(s[0])
    ensures NoDigit(s, 16) <==> s == "" || !IsHex(s[0])
  {
    if s != "" {
      forall d: nat | d < 16 ensures IsDigitFor(s[0], d) <==> IsHex(s[0]) && HexDigit(s[0]) == d {
        HexDigitIs(s[0], d);
      }
      forall d: nat | d < 10 ensures IsDigitFor(s[0], d) <==> IsDigit(s[0]) && DigitValue(s[0]) == d {
        DigitIs(s[0], d);
      }
      if IsHex(s[0]) {
        assert IsDigitFor(s[0], HexDigit(s[0]));
      }
      if IsDigit(s[0]) {
        assert IsDigitFor(s[0], DigitValue(s[0]));
      }
    }
  }

  lemma {:induction false} LeadingIs(digits: string, tail: string)
    requires AllDigits(digits) && (tail == "" || !IsDigit(tail[0]))
    ensures LeadingDigits(digits + tail) == digits
  {
    if digits == "" {
      assert digits + tail == tail;
    } else {
      assert (digits + tail)[1..] == digits[1..] + tail;
      LeadingIs(digits[1..], tail);
    }
  }

  lemma {:induction false} LeadingStops(s: string)
    ensures LeadingDigits(s) <= s
    ensures |LeadingDigits(s)| == |s| || !IsDigit(s[|LeadingDigits(s)|])
  {
    if s != "" && IsDigit(s[0]) {
      LeadingStops(s[1..]);
    }
  }

  lemma {:induction false} LeadingHexIs(digits: string, tail: string)
    requires AllHex(digits) && (tail == "" || !IsHex(tail[0]))
    ensures LeadingHex(digits + tail) == digits
  {
    if digits == "" {
      assert digits + tail == tail;
    } else {
      assert (digits + tail)[1..] == digits[1..] + tail;
      LeadingHexIs(digits[1..], tail);
    }
  }

  lemma {:induction false} LeadingHexStops(s: string)
    ensures LeadingHex(s) <= s
    ensures |LeadingHex(s)| == |s| || !IsHex(s[|LeadingHex(s)|])
  {
    if s != "" && IsHex(s[0]) {
      LeadingHexStops(s[1..]);
    }
  }

  /** The digits of a number read off the text that starts with them. */
  lemma DecimalBody(digits: string, tail: string, n: nat)
    requires Spells(digits, n, 10) && NoDigit(tail, 10)
    ensures digits + tail != "" && IsDigit((digits + tail)[0]) && ParseLeading(digits + tail) == Some(n)
  {
    SpellsDecimal(digits, n);
    DigitIn(tail);
    LeadingIs(digits, tail);
  }

  lemma HexBody(prefix: string, digits: string, tail: string, n: nat)
    requires (prefix == "0x" || prefix == "0X") && Spells(digits, n, 16) && NoDigit(tail, 16)
    ensures var body := prefix + (digits + tail);
            HasHexPrefix(body) && IsDigit(body[0]) && ParseHex(body) == Some(n)
  {
    SpellsHex(digits, n);
    DigitIn(tail);
    LeadingHexIs(digits, tail);
    assert (prefix + (digits + tail))[2..] == digits + tail;
  }

  lemma DecimalFound(body: string)
    requires ParseLeading(body).Some?
    ensures var digits := LeadingDigits(body);
            var tail := body[|digits|..];
            digits + tail == body && Spells(digits, Value(digits), 10) && NoDigit(tail, 10)
  {
    LeadingStops(body);
    DecimalSpells(LeadingDigits(body));
    DigitIn(body[|LeadingDigits(body)|..]);
  }

  lemma HexFound(body: string)
    requires HasHexPrefix(body) && ParseHex(body).Some?
    ensures var digits := LeadingHex(body[2..]);
            && digits <= body[2..]
            && var tail := body[2..][|digits|..];
               body[..2] + (digits + tail) == body && Spells(digits, HexValue(digits), 16) && NoDigit(tail, 16)
  {
    LeadingHexStops(body[2..]);
    HexSpells(LeadingHex(body[2..]));
    DigitIn(body[2..][|LeadingHex(body[2..])|..]);
  }

  // ---- The whole text ------------------------------------------------------------------------------------------

  /** The text with its white space and sign taken off, and taken apart as given. */
  function Found(s: string, prefix: string, digits: string, tail: string): Parts {
    Parts(Before(s, SkipSpaces(s)), Before(SkipSpaces(s), Unsign(SkipSpaces(s))), prefix, digits, tail)
  }

  lemma FoundIs(s: string, prefix: string, digits: string, tail: string)
    requires prefix + (digits + tail) == Unsign(SkipSpaces(s))
    ensures var p := Found(s, prefix, digits, tail);
            && p.Text() == s && IsWhite(p.spaces) && IsSign(p.sign)
            && (p.sign == "-" <==> IsSigned(SkipSpaces(s)) && SkipSpaces(s)[0] == '-')
  {
    SkippedSpaces(s);
    Unsigned(SkipSpaces(s));
  }

  lemma ParsesSigned(t: string, sign: string, body: string, n: nat)
    requires t != "" && Unsign(t) == body && ParseLeading(body) == Some(n)
    requires (IsSigned(t) <==> sign != "") && (t[0] == '-' <==> sign == "-")
    ensures ParseSign(t) == Some(WithSign(sign, n))
  {
    assert if IsSigned(t) then t[1..] == body else t == body;
  }

  lemma ParsesBody(spaces: string, sign: string, body: string, n: nat)
    requires IsWhite(spaces) && IsSign(sign) && body != "" && IsDigit(body[0]) && ParseLeading(body) == Some(n)
    ensures ParseInt(spaces + (sign + body)) == Some(WithSign(sign, n))
    ensures Unsign(SkipSpaces(spaces + (sign + body))) == body
  {
    Unwrapped(spaces, sign, body);
    ParsesSigned(sign + body, sign, body, n);
  }

  lemma ReadsDecimal(p: Parts, n: nat)
    requires p.Fit(n, 10)
    ensures ParseInt(p.Text()) == Some(p.Signed(n)) && Unsign(SkipSpaces(p.Text())) == p.Body()
  {
    var body := p.digits + p.tail;
    DecimalBody(p.digits, p.tail, n);
    ParsesBody(p.spaces, p.sign, body, n);
    assert p.Body() == body;
  }

  lemma FindsDecimal(s: string, v: int) returns (p: Parts, n: nat)
    requires ParseInt(s) == Some(v)
    ensures p.Fit(n, 10) && p.Text() == s && p.Signed(n) == v && p.Body() == Unsign(SkipSpaces(s))
  {
    var body := Unsign(SkipSpaces(s));
    DecimalFound(body);
    var digits := LeadingDigits(body);
    p, n := Found(s, "", digits, body[|digits|..]), Value(digits);
    assert "" + (digits + body[|digits|..]) == body;
    FoundIs(s, "", digits, body[|digits|..]);
  }

  /** `parseInt(text, 10)` yields a number exactly when the text starts with its decimal digits. */
  lemma ParsesDecimalIff(s: string, v: int)
    ensures ParseInt(s) == Some(v) <==> Starts(s, v, 10)
  {
    if Starts(s, v, 10) {
      var p: Parts, n: nat :| p.Fit(n, 10) && p.Text() == s && p.Signed(n) == v;
      ReadsDecimal(p, n);
    }
    if ParseInt(s) == Some(v) {
      var p, n := FindsDecimal(s, v);
    }
  }

  lemma ParsesHexBody(spaces: string, sign: string, body: string, n: nat)
    requires IsWhite(spaces) && IsSign(sign) && HasHexPrefix(body) && IsDigit(body[0]) && ParseHex(body) == Some(n)
    ensures ParseAnyInt(spaces + (sign + body)) == Some(WithSign(sign, n))
  {
    Unwrapped(spaces, sign, body);
    var s, t := spaces + (sign + body), sign + body;
    assert SkipSpaces(s) == t && Unsign(t) == body;
  }

  lemma ReadsHex(p: Parts, n: nat)
    requires p.Fit(n, 16)
    ensures ParseAnyInt(p.Text()) == Some(p.Signed(n))
  {
    HexBody(p.prefix, p.digits, p.tail, n);
    ParsesHexBody(p.spaces, p.sign, p.Body(), n);
  }

  lemma FindsHex(s: string, v: int)
    requires ParseAnyInt(s) == Some(v) && HasHexPrefix(Unsign(SkipSpaces(s)))
    ensures Starts(s, v, 16)
  {
    var body := Unsign(SkipSpaces(s));
    HexFound(body);
    var digits := LeadingHex(body[2..]);
    var tail := body[2..][|digits|..];
    FoundHexFits(s, body, digits, tail);
  }

  lemma FoundHexFits(s: string, body: string, digits: string, tail: string)
    requires body == Unsign(SkipSpaces(s)) && HasHexPrefix(body) && body[..2] + (digits + tail) == body
    requires AllHex(digits) && Spells(digits, HexValue(digits), 16) && NoDigit(tail, 16)
    ensures var t, n := SkipSpaces(s), HexValue(digits);
            Starts(s, if IsSigned(t) && t[0] == '-' then 0 - n else n, 16)
  {
    HexPrefix(body);
    FoundIs(s, body[..2], digits, tail);
    var p, n := Found(s, body[..2], digits, tail), HexValue(digits);
    StartsBy(p, n, 16);
  }

  lemma HexPrefix(body: string)
    requires HasHexPrefix(body)
    ensures |body| >= 2 && (body[..2] == "0x" || body[..2] == "0X")
  {
  }

  lemma StartsBy(p: Parts, n: nat, base: nat)
    requires (base == 10 || base == 16) && p.Fit(n, base)
    ensures Starts(p.Text(), p.Signed(n), base)
  {
  }

  lemma PrefixIs(p: Parts, n: nat)
    requires p.Fit(n, 10)
    ensures HasHexPrefix(p.Body()) <==> p.ZeroIsPrefix()
  {
    SpellsDecimal(p.digits, n);
    var body := p.digits + p.tail;
    assert p.Body() == body && body[0] == p.digits[0];
    if |p.digits| > 1 {
      assert body[1] == p.digits[1] && IsDigit(body[1]);
    } else {
      assert p.digits == [body[0]];
      assert p.tail != "" ==> body[1] == p.tail[0];
      assert p.ZeroIsPrefix() ==> body[..2] == "0x" || body[..2] == "0X";
    }
  }

  /**
   `parseInt(text)` yields a number exactly when the text, after white space and a sign, starts with its hexadecimal
   digits after `0x`, or with its decimal digits and without `0x`.
   */
  lemma ParsesIff(s: string, v: int)
    ensures ParseAnyInt(s) == Some(v) <==> Denotes(s, v)
  {
    if Starts(s, v, 16) {
      var p: Parts, n: nat :| p.Fit(n, 16) && p.Text() == s && p.Signed(n) == v;
      ReadsHex(p, n);
    } else if Denotes(s, v) {
      var p: Parts, n: nat :| p.Fit(n, 10) && p.Text() == s && p.Signed(n) == v && !p.ZeroIsPrefix();
      ReadsDecimal(p, n);
      PrefixIs(p, n);
    }
    if ParseAnyInt(s) == Some(v) {
      if HasHexPrefix(Unsign(SkipSpaces(s))) {
        FindsHex(s, v);
      } else {
        var p, n := FindsDecimal(s, v);
        PrefixIs(p, n);
      }
    }
  }

  /** A hexadecimal text is read as the decimal text of the same number is, in either case of the digits. */
  lemma HexReadsAsDecimal(digits: string, n: nat)
    requires Spells(digits, n, 16)
    ensures ParseAnyInt("0x" + digits) == ParseAnyInt(NatText(n)) == Some(n)
  {
    ReadsHexText("0x" + digits, digits, n);
    ParseWritten(n);
  }

  lemma ReadsHexText(text: string, digits: string, n: nat)
    requires text == "0x" + digits && Spells(digits, n, 16)
    ensures ParseAnyInt(text) == Some(n)
  {
    assert digits + "" == digits && "" + ("" + text) == text;
    HexBody("0x", digits, "", n);
    ParsesHexBody("", "", text, n);
  }
}
