/**
 Values on the chip-tool web socket: `convertMatterToWebSocketTagBased` writes a value of the node for the client and
 `convertWebsocketDataToMatter` reads a client's value, both guided by the data model
 (support/chip-testing/src/ChipToolWebSocketHandler.ts).
 */
module ChipToolCodec {
  import opened Options
  import opened Decimals
  import Base64

  type Byte = Base64.Byte

  /** Seconds and microseconds from the Unix epoch to the Matter epoch, 10957 days. */
  const EPOCH_OFFSET_S: int := 10_957 * 86_400
  const EPOCH_OFFSET_US: int := 10_957 * 86_400 * 1_000_000

  /** A JavaScript value; `Big` is a bigint. */
  datatype Js =
    | Undefined
    | Null
    | Bool(b: bool)
    | Num(n: int)
    | Big(n: int)
    | Octets(bytes: seq<Byte>)
    | Text(s: string)
    | List(items: seq<Js>)

  datatype Model = ListOf(entry: Model) | Integer | EpochS | EpochUs | Enum | OctetString | Boolean | String
  {
    predicate Counts() { Integer? || EpochS? || EpochUs? || Enum? }
  }

  /** Parsers of other packages: `None` stands for the error they throw. */
  datatype Parsers = Parsers(json: string -> Option<Js>, hex: string -> Option<seq<Byte>>)

  // ---- Writing -------------------------------------------------------------------------------------------------

  function Encode(v: Js, m: Model): Js
    decreases m
  {
    if v.List? && m.ListOf? then List(seq(|v.items|, i requires 0 <= i < |v.items| => Encode(v.items[i], m.entry)))
    else if v.Octets? && m.OctetString? then Text("base64:" + Base64.Encode(v.bytes))
    else if v.Num? && m.EpochS? then Num(v.n - EPOCH_OFFSET_S)
    else if (v.Num? || v.Big?) && m.EpochUs? then Big(v.n - EPOCH_OFFSET_US)
    else v
  }

  // ---- Reading -------------------------------------------------------------------------------------------------

  predicate Negative(s: string) { s != "" && s[0] == '-' }

  function Unsigned(s: string): string { if Negative(s) then s[1..] else s }

  /** Texts of decimal numbers without superfluous zeros. */
  predicate IsNumeral(s: string) {
    s == "0" || (Unsigned(s) != "" && '1' <= Unsigned(s)[0] && AllDigits(Unsigned(s)))
  }

  predicate IsHexNumeral(s: string) { "0x" < s && forall i :: 2 <= i < |s| ==> IsHex(s[i]) }

  function ParseNumber(s: string): Option<Js> {
    if IsHexNumeral(s) then Some(Big(HexValue(s[2..])))
    else
      var n := ParseAnyInt(s);
      if n.None? then None else Some(Num(n.value))
  }

  /** A Matter time becomes a Unix time; other numbers stay. */
  function FromEpoch(v: Js, m: Model): Js
    requires v.Num? || v.Big?
  {
    if m.EpochS? && v.Num? then Num(v.n + EPOCH_OFFSET_S)
    else if m.EpochUs? then Big(v.n + EPOCH_OFFSET_US)
    else v
  }

  function DecodeText(s: string, m: Model, parsers: Parsers): Option<Js> {
    if m.OctetString? && s == "" then Some(Octets([]))
    else if m.OctetString? && "base64:" <= s then
      var bytes := Base64.Decode(s[7..]);
      if bytes.None? then None else Some(Octets(bytes.value))
    else if m.OctetString? && "hex:" <= s then
      var bytes := parsers.hex(s[4..]);
      if bytes.None? then None else Some(Octets(bytes.value))
    else if (m.Counts() && IsHexNumeral(s)) || IsNumeral(s) then
      var n := ParseNumber(s);
      if n.None? then None else Some(FromEpoch(n.value, m))
    else if m.Boolean? then Some(Bool(s == "true" || s == "1" || s == "True"))
    else Some(Text(s))
  }

  function DecodePlain(v: Js, m: Model, parsers: Parsers): Option<Js> {
    if (v.Num? || v.Big?) && m.Counts() then Some(FromEpoch(v, m))
    else if v.Text? then DecodeText(v.s, m, parsers)
    else Some(v)
  }

  /** The list of the items read, unless reading one of them threw. */
  function Gather(read: seq<Option<Js>>): Option<Js> {
    if exists i :: 0 <= i < |read| && read[i].None? then None
    else Some(List(seq(|read|, i requires 0 <= i < |read| => read[i].value)))
  }

  function DecodeItems(items: seq<Js>, m: Model, parsers: Parsers): (read: seq<Option<Js>>)
    ensures |read| == |items|
    decreases m, 1
  {
    seq(|items|, i requires 0 <= i < |items| => Decode(items[i], m, parsers))
  }

  function Decode(v: Js, m: Model, parsers: Parsers): Option<Js>
    decreases m, 0
  {
    if v == Undefined then Some(Undefined)
    else if v == Null || v == Text("null") then Some(Null)
    else if m.ListOf? then
      var parsed := if v.Text? then parsers.json(v.s) else Some(v);
      if parsed.None? then None
      else if parsed.value.List? then Gather(DecodeItems(parsed.value.items, m.entry, parsers))
      else DecodePlain(parsed.value, m, parsers)
    else DecodePlain(v, m, parsers)
  }

  // ---- There and back ------------------------------------------------------------------------------------------

  /** The values a model allows; any value may be null or missing. */
  predicate WellTyped(v: Js, m: Model)
    decreases m
  {
    match v
    case Undefined => true
    case Null => true
    case Bool(_) => m.Boolean?
    case Num(_) => m.Counts()
    case Big(_) => m.Counts()
    case Octets(_) => m.OctetString?
    case Text(_) => m.String?
    case List(items) => m.ListOf? && forall i :: 0 <= i < |items| ==> WellTyped(items[i], m.entry)
  }

  function NumeralValue(s: string): int
    requires IsNumeral(s)
  {
    var value: int := Value(Unsigned(s));
    if Negative(s) then -value else value
  }

  /** What a written value is read back as. */
  function Returned(v: Js, m: Model): Js
    decreases m
  {
    if v.List? && m.ListOf? then List(seq(|v.items|, i requires 0 <= i < |v.items| => Returned(v.items[i], m.entry)))
    else if v.Num? && m.EpochUs? then Big(v.n)
    else if v == Text("null") then Null
    else if v.Text? && IsNumeral(v.s) then Num(NumeralValue(v.s))
    else v
  }

  lemma NumeralShape(s: string)
    requires IsNumeral(s)
    ensures AllDigits(Unsigned(s)) && Unsigned(s) != "" && !IsHexNumeral(s)
    ensures if Negative(s) then IsMinus(s, Unsigned(s)) && s != Unsigned(s) else s == Unsigned(s)
  {
    if |s| > 1 {
      assert IsDigit(s[1]) by {
        assert s[1] == Unsigned(s)[if Negative(s) then 0 else 1];
      }
    }
  }

  lemma ParseNumeral(s: string)
    requires IsNumeral(s)
    ensures ParseNumber(s) == Some(Num(NumeralValue(s)))
  {
    NumeralShape(s);
    ParseAnyDigits(s, Unsigned(s));
  }

  lemma TextComesBack(s: string, parsers: Parsers)
    ensures Decode(Text(s), String, parsers) == Some(Returned(Text(s), String))
  {
    if s != "null" && IsNumeral(s) {
      ParseNumeral(s);
    }
  }

  lemma OctetsComeBack(bytes: seq<Byte>, parsers: Parsers)
    ensures Decode(Encode(Octets(bytes), OctetString), OctetString, parsers) == Some(Octets(bytes))
  {
    Base64.DecodeEncode(bytes);
    ReadsBase64(Base64.Encode(bytes), parsers);
  }

  lemma ReadsBase64(encoded: string, parsers: Parsers)
    requires Base64.Decode(encoded).Some?
    ensures Decode(Text("base64:" + encoded), OctetString, parsers) == Some(Octets(Base64.Decode(encoded).value))
  {
    var text := "base64:" + encoded;
    assert text[7..] == encoded;
    assert "base64:" <= text && text[0] == 'b';
  }

  lemma ListComesBack(items: seq<Js>, m: Model, parsers: Parsers)
    requires forall i :: 0 <= i < |items| ==>
                           Decode(Encode(items[i], m), m, parsers) == Some(Returned(items[i], m))
    ensures Decode(Encode(List(items), ListOf(m)), ListOf(m), parsers) == Some(Returned(List(items), ListOf(m)))
  {
    var written := Encode(List(items), ListOf(m)).items;
    forall i | 0 <= i < |items| ensures Decode(written[i], m, parsers) == Some(Returned(items[i], m)) {
      assert written[i] == Encode(items[i], m);
    }
    ListReads(written, m, parsers);
    var back := Decode(List(written), ListOf(m), parsers);
    assert back.Some? && back.value.items == Returned(List(items), ListOf(m)).items;
  }

  /** A well-typed value is always read back without an error, and as what `Returned` says. */
  lemma {:induction false} ComesBack(v: Js, m: Model, parsers: Parsers)
    requires WellTyped(v, m)
    ensures Decode(Encode(v, m), m, parsers) == Some(Returned(v, m))
    decreases m
  {
    match v
    case Octets(bytes) => OctetsComeBack(bytes, parsers);
    case Text(s) => TextComesBack(s, parsers);
    case List(items) =>
      forall i | 0 <= i < |items| ensures Decode(Encode(items[i], m.entry), m.entry, parsers) ==
                                          Some(Returned(items[i], m.entry)) {
        ComesBack(items[i], m.entry, parsers);
      }
      ListComesBack(items, m.entry, parsers);
    case _ =>
  }

  /** No time in microseconds is an ordinary number, and no string reads as `null` or as a number. */
  predicate Survives(v: Js, m: Model)
    decreases m
  {
    match v
    case List(items) => m.ListOf? ==> forall i :: 0 <= i < |items| ==> Survives(items[i], m.entry)
    case Num(_) => !m.EpochUs?
    case Text(s) => s != "null" && !IsNumeral(s)
    case _ => true
  }

  lemma {:induction false} ReturnedIff(v: Js, m: Model)
    ensures Returned(v, m) == v <==> Survives(v, m)
    decreases m
  {
    if v.List? && m.ListOf? {
      var back := Returned(v, m).items;
      forall i | 0 <= i < |v.items| ensures back[i] == v.items[i] <==> Survives(v.items[i], m.entry) {
        ReturnedIff(v.items[i], m.entry);
      }
      if Survives(v, m) {
        assert back == v.items;
      }
    }
  }

  /** Reading what was written gives the value back exactly when it holds none of the three exceptions. */
  lemma RoundTripIff(v: Js, m: Model, parsers: Parsers)
    requires WellTyped(v, m)
    ensures Decode(Encode(v, m), m, parsers) == Some(v) <==> Survives(v, m)
  {
    ComesBack(v, m, parsers);
    ReturnedIff(v, m);
  }

  // ---- Numbers and booleans given as text ----------------------------------------------------------------------

  lemma {:induction false} NatTextLead(n: nat)
    requires n > 0
    ensures NatText(n) != "" && '1' <= NatText(n)[0]
  {
    if n >= 10 {
      NatTextLead(n / 10);
    }
  }

  lemma WrittenIsNumeral(n: int)
    ensures IsNumeral(IntText(n)) && NumeralValue(IntText(n)) == n
  {
    var size: nat := if n < 0 then -n else n;
    NatTextDigits(size);
    if n == 0 {
      assert NatText(0) == "0";
    } else {
      NatTextLead(size);
      assert n < 0 ==> IntText(n)[1..] == NatText(size);
      assert IsDigit(NatText(size)[0]);
    }
  }

  lemma NumeralIsNotNull(s: string)
    requires IsNumeral(s)
    ensures s != "null"
  {
    NumeralShape(s);
    assert IsDigit(Unsigned(s)[0]);
  }

  lemma PlainText(s: string, m: Model, parsers: Parsers, n: int)
    requires s != "null" && IsNumeral(s) && ParseNumber(s) == Some(Num(n)) && !m.OctetString? && !m.ListOf?
    ensures Decode(Text(s), m, parsers) == Some(FromEpoch(Num(n), m))
  {
  }

  lemma NumeralText(s: string, m: Model, parsers: Parsers)
    requires IsNumeral(s) && !m.OctetString? && !m.ListOf?
    ensures Decode(Text(s), m, parsers) == Some(FromEpoch(Num(NumeralValue(s)), m))
  {
    NumeralIsNotNull(s);
    ParseNumeral(s);
    PlainText(s, m, parsers, NumeralValue(s));
  }

  /** Under a numeric model the decimal text of a number is read as the number itself would be. */
  lemma TextReadsAsNumber(n: int, m: Model, parsers: Parsers)
    requires m.Counts()
    ensures Decode(Text(IntText(n)), m, parsers) == Decode(Num(n), m, parsers)
  {
    WrittenIsNumeral(n);
    NumeralText(IntText(n), m, parsers);
  }

  lemma OneIsNumeral()
    ensures IsNumeral("1") && NumeralValue("1") == 1
  {
    assert AllDigits("1") && Unsigned("1") == "1" && "1"[..0] == "";
  }

  /** A text makes a boolean true exactly when it is "true" or "True", and false unless it is "null" or a numeral. */
  lemma BooleanText(s: string, parsers: Parsers)
    ensures Decode(Text(s), Boolean, parsers) == Some(Bool(true)) <==> s == "true" || s == "True"
    ensures Decode(Text(s), Boolean, parsers) == Some(Bool(false)) <==>
            s != "true" && s != "True" && s != "null" && !IsNumeral(s)
  {
    OneIsNumeral();
    if IsNumeral(s) {
      NumeralText(s, Boolean, parsers);
      NumeralShape(s);
      assert IsDigit(Unsigned(s)[0]);
    }
  }

  /** The test for "1" among the true texts never applies: a "1" is taken for a number first. */
  lemma OneIsNoBoolean(parsers: Parsers)
    ensures Decode(Text("1"), Boolean, parsers) == Some(Num(1))
  {
    OneIsNumeral();
    NumeralText("1", Boolean, parsers);
  }

  // ---- What is written -----------------------------------------------------------------------------------------

  function DaysIn(year: nat): nat { if year % 4 == 0 && (year % 100 != 0 || year % 400 == 0) then 366 else 365 }

  /** The days from the start of one year to the start of another, in the Gregorian calendar. */
  function DaysBetween(year: nat, later: nat): nat
    requires year <= later
    decreases later - year
  {
    if year == later then 0 else DaysIn(year) + DaysBetween(year + 1, later)
  }

  /** Between the epochs lie the years from 1970 to 2000. */
  lemma EpochOffsets()
    ensures EPOCH_OFFSET_S == DaysBetween(1970, 2000) * 24 * 60 * 60
    ensures EPOCH_OFFSET_US == EPOCH_OFFSET_S * 1_000_000
  {
    assert DaysBetween(1996, 2000) == 1461;
    assert DaysBetween(1992, 2000) == 2 * 1461;
    assert DaysBetween(1988, 2000) == 3 * 1461;
    assert DaysBetween(1984, 2000) == 4 * 1461;
    assert DaysBetween(1980, 2000) == 5 * 1461;
    assert DaysBetween(1976, 2000) == 6 * 1461;
    assert DaysBetween(1972, 2000) == 7 * 1461;
    assert DaysBetween(1970, 2000) == 10_957;
  }

  /** Times are counted from 2000 on the socket and from 1970 in the node. */
  lemma TimesShift(n: int, parsers: Parsers)
    ensures var seconds := DaysBetween(1970, 2000) * 24 * 60 * 60;
            && Decode(Num(n), EpochS, parsers) == Some(Num(n + seconds))
            && Decode(Big(n), EpochS, parsers) == Some(Big(n))
            && Decode(Big(n), Integer, parsers) == Decode(Big(n), Enum, parsers) == Some(Big(n))
            && Decode(Num(n), EpochUs, parsers) == Decode(Big(n), EpochUs, parsers) ==
               Some(Big(n + seconds * 1_000_000))
            && Encode(Num(n), EpochS) == Num(n - seconds)
            && Encode(Big(n), EpochS) == Big(n)
            && Encode(Num(n), EpochUs) == Encode(Big(n), EpochUs) == Big(n - seconds * 1_000_000)
  {
    EpochOffsets();
  }

  /** Apart from times, octets and lists a value is written as it is. */
  lemma OthersStay(v: Js, m: Model)
    requires !(v.List? && m.ListOf?) && !(v.Octets? && m.OctetString?)
    requires !(v.Num? && m.EpochS?) && !((v.Num? || v.Big?) && m.EpochUs?)
    ensures Encode(v, m) == v
  {
  }

  lemma ListIsWritten(items: seq<Js>, m: Model)
    ensures var w := Encode(List(items), ListOf(m));
            w.List? && |w.items| == |items| && forall i :: 0 <= i < |items| ==> w.items[i] == Encode(items[i], m)
  {
  }

  // ---- What is read --------------------------------------------------------------------------------------------

  lemma {:induction false} NatTextValue(digits: string)
    requires digits != "" && AllDigits(digits) && (|digits| == 1 || '1' <= digits[0])
    ensures NatText(Value(digits)) == digits && ('1' <= digits[0] ==> Value(digits) > 0)
  {
    var before, last := digits[..|digits| - 1], digits[|digits| - 1];
    assert IsDigit(last) && digits == before + [last];
    if before == "" {
      assert Value(before) == 0;
    } else {
      assert IsDigit(before[0]) && before[0] == digits[0];
      NatTextValue(before);
      Divided(Value(before), DigitValue(last), 10);
    }
  }

  /** A text is taken for a number exactly when it is the text of an integer. */
  lemma NumeralIff(s: string)
    ensures IsNumeral(s) <==> exists n :: s == IntText(n)
  {
    if n :| s == IntText(n) {
      WrittenIsNumeral(n);
    }
    if IsNumeral(s) {
      NumeralShape(s);
      var digits := Unsigned(s);
      assert IsDigit(digits[0]);
      NatTextValue(digits);
      assert s == IntText(NumeralValue(s));
    }
  }

  ghost predicate SpellsHexNumber(s: string) { |s| > 2 && s[..2] == "0x" && exists n: nat :: Spells(s[2..], n, 16) }

  /** A text is taken for a hexadecimal number exactly when it spells one after `0x`. */
  lemma HexNumeralIff(s: string)
    ensures IsHexNumeral(s) <==> SpellsHexNumber(s)
  {
    assert "0x" < s <==> |s| > 2 && s[..2] == "0x";
    if |s| > 2 && s[..2] == "0x" {
      HexAfterPrefix(s);
      if SpellsHexNumber(s) {
        var n: nat :| Spells(s[2..], n, 16);
        SpellsHex(s[2..], n);
      }
      if AllHex(s[2..]) {
        HexSpells(s[2..]);
      }
    }
  }

  lemma HexAfterPrefix(s: string)
    requires |s| >= 2
    ensures AllHex(s[2..]) <==> forall i :: 2 <= i < |s| ==> IsHex(s[i])
  {
    var digits := s[2..];
    if AllHex(digits) {
      forall i | 2 <= i < |s| ensures IsHex(s[i]) {
        assert IsHex(digits[i - 2]);
      }
    }
  }

  /** Under a numeric model a hexadecimal text is read as a bigint, whatever the case of its digits. */
  lemma HexTextReads(digits: string, n: nat, m: Model, parsers: Parsers)
    requires m.Counts() && Spells(digits, n, 16)
    ensures Decode(Text("0x" + digits), m, parsers) == Some(FromEpoch(Big(n), m))
  {
    var s := "0x" + digits;
    assert s[..2] == "0x" && s[2..] == digits;
    assert SpellsHexNumber(s);
    HexNumeralIff(s);
    SpellsHex(digits, n);
    assert s[0] != 'n';
  }

  /** The hexadecimal text of a number, in lower or upper case, is read as the bigint. */
  lemma HexReads(n: nat, upper: bool, m: Model, parsers: Parsers)
    requires m.Counts()
    ensures Decode(Text("0x" + HexText(n, upper)), m, parsers) == Some(FromEpoch(Big(n), m))
    ensures Decode(Text("0x" + HexText(n, upper)), m, parsers) == Decode(Big(n), m, parsers)
  {
    HexTextSpells(n, upper);
    HexTextReads(HexText(n, upper), n, m, parsers);
  }

  /** The text of an integer is read as the number, as a time where the model says so, under every model but a list. */
  lemma DecimalTextReads(n: int, m: Model, parsers: Parsers)
    requires !m.ListOf?
    ensures var seconds := DaysBetween(1970, 2000) * 24 * 60 * 60;
            Decode(Text(IntText(n)), m, parsers) ==
            Some(if m.EpochS? then Num(n + seconds) else if m.EpochUs? then Big(n + seconds * 1_000_000) else Num(n))
  {
    EpochOffsets();
    WrittenIsNumeral(n);
    if m.OctetString? {
      NumeralIsNoOctets(IntText(n), parsers);
    } else {
      NumeralText(IntText(n), m, parsers);
    }
  }

  lemma NumeralIsNoOctets(s: string, parsers: Parsers)
    requires IsNumeral(s)
    ensures Decode(Text(s), OctetString, parsers) == Some(Num(NumeralValue(s)))
  {
    NumeralIsNotNull(s);
    NumeralHasNoPrefix(s);
    ParseNumeral(s);
    assert DecodeText(s, OctetString, parsers) == Some(Num(NumeralValue(s)));
  }

  lemma NumeralHasNoPrefix(s: string)
    requires IsNumeral(s)
    ensures s != "" && !("base64:" <= s) && !("hex:" <= s)
  {
    NumeralShape(s);
    assert IsDigit(Unsigned(s)[0]);
    assert s[0] != 'b' && s[0] != 'h';
  }

  function AsOctets(bytes: Option<seq<Byte>>): Option<Js> { if bytes.None? then None else Some(Octets(bytes.value)) }

  /** Texts of neither kind stay texts, or become octets or booleans. */
  lemma OtherTextReads(s: string, m: Model, parsers: Parsers)
    requires !m.ListOf? && s != "null"
    requires !(exists n :: s == IntText(n))
    requires m.Counts() ==> !SpellsHexNumber(s)
    ensures !m.OctetString? ==>
              Decode(Text(s), m, parsers) == Some(if m.Boolean? then Bool(s == "true" || s == "True") else Text(s))
    ensures m.OctetString? ==>
              Decode(Text(s), m, parsers) ==
              if s == "" then Some(Octets([]))
              else if |s| >= 7 && s[..7] == "base64:" then AsOctets(Base64.Decode(s[7..]))
              else if |s| >= 4 && s[..4] == "hex:" then AsOctets(parsers.hex(s[4..]))
              else Some(Text(s))
  {
    NumeralIff(s);
    HexNumeralIff(s);
    OneIsNumeral();
  }

  /** A list is read item by item, and not at all if one item cannot be read. */
  lemma ListReads(items: seq<Js>, m: Model, parsers: Parsers)
    ensures var r := Decode(List(items), ListOf(m), parsers);
            && (r.None? <==> exists i :: 0 <= i < |items| && Decode(items[i], m, parsers).None?)
            && (r.Some? ==>
                  && r.value.List? && |r.value.items| == |items|
                  && forall i :: 0 <= i < |items| ==> Decode(items[i], m, parsers) == Some(r.value.items[i]))
  {
    var read := DecodeItems(items, m, parsers);
    assert forall i :: 0 <= i < |items| ==> read[i] == Decode(items[i], m, parsers);
    assert Decode(List(items), ListOf(m), parsers) == Gather(read);
  }

  lemma ParsedText(t: string, m: Model, parsers: Parsers)
    requires m.ListOf?
    ensures DecodePlain(Text(t), m, parsers) == Some(if IsNumeral(t) then Num(NumeralValue(t)) else Text(t))
  {
    if IsNumeral(t) {
      ParseNumeral(t);
    }
  }

  /** A list given as text is parsed first. */
  lemma ListTextReads(s: string, m: Model, parsers: Parsers)
    requires s != "null"
    ensures match parsers.json(s)
            case None => Decode(Text(s), ListOf(m), parsers).None?
            case Some(List(items)) => Decode(Text(s), ListOf(m), parsers) == Decode(List(items), ListOf(m), parsers)
            case Some(Text(t)) =>
              Decode(Text(s), ListOf(m), parsers) == Some(if IsNumeral(t) then Num(NumeralValue(t)) else Text(t))
            case Some(v) => Decode(Text(s), ListOf(m), parsers) == Some(v)
  {
    var parsed := parsers.json(s);
    if parsed.Some? {
      if parsed.value.Text? {
        ParsedText(parsed.value.s, ListOf(m), parsers);
      } else if parsed.value.List? {
        assert Decode(parsed.value, ListOf(m), parsers) == Gather(DecodeItems(parsed.value.items, m, parsers));
      }
    }
  }

  /** A value that is neither a text nor what the model asks for is left alone. */
  lemma OthersAreLeft(v: Js, m: Model, parsers: Parsers)
    requires !v.Text? && !(v.List? && m.ListOf?) && !((v.Num? || v.Big?) && m.Counts())
    ensures Decode(v, m, parsers) == Some(v)
  {
  }

  // ---- Values that change --------------------------------------------------------------------------------------

  /** A string that is a numeral comes back as a number. */
  lemma NumeralStringChanges(parsers: Parsers)
    ensures Decode(Encode(Text("1"), String), String, parsers) == Some(Num(1))
  {
    OneIsNumeral();
    NumeralText("1", String, parsers);
  }

  /** The string "null" comes back as null. */
  lemma NullStringChanges(parsers: Parsers)
    ensures Decode(Encode(Text("null"), String), String, parsers) == Some(Null)
  {
    ComesBack(Text("null"), String, parsers);
  }

  /** A time in microseconds given as an ordinary number comes back as a bigint. */
  lemma MicrosecondsChange(n: int, parsers: Parsers)
    ensures Decode(Encode(Num(n), EpochUs), EpochUs, parsers) == Some(Big(n)) && Big(n) != Num(n)
  {
    ComesBack(Num(n), EpochUs, parsers);
  }
}
