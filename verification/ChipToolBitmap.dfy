/**
 Bitmaps on the chip-tool web socket: `convertMatterToWebSocketTagBased` packs the fields of a bitmap into a number and
 `convertWebsocketDataToMatter` reads the flags back out of the number's text
 (support/chip-testing/src/ChipToolWebSocketHandler.ts).
 */
module ChipToolBitmap {
  import opened Options
  import opened Decimals
  import opened Int32
  import opened Numerals

  /** The bits a bitmap member takes: a single one, or a range given by its first and last bit. */
  datatype Bits = Single(bit: nat) | Range(first: nat, last: nat)
  {
    function First(): nat { if Single? then bit else first }
    function Last(): nat { if Single? then bit else last }
  }

  /** A bitmap member; `alias` is the name its description gives, under which a value may also be set. */
  datatype Member = Member(named: bool, property: string, alias: Option<string>, bits: Bits)

  datatype Field = Flag(on: bool) | Count(n: int) | Unsupported
  {
    predicate Truthy() { match this case Flag(on) => on case Count(n) => n != 0 case Unsupported => true }
  }

  type Fields = map<string, Field>

  function FieldOf(m: Member, value: Fields): Option<Field> {
    if m.named && m.property in value && value[m.property].Truthy() then Some(value[m.property])
    else if m.alias.Some? && m.alias.value in value && value[m.alias.value].Truthy() then Some(value[m.alias.value])
    else None
  }

  /** What a set member contributes to the number. */
  function Contribution(m: Member, field: Field): int {
    if m.bits.Single? then ShiftLeft(1, m.bits.bit)
    else ShiftLeft(if field.Flag? then 1 else if field.Count? then field.n else 0, m.bits.first)
  }

  datatype Encoded = Number(n: int) | InvalidBitmapValue

  function EncodeBitmap(members: seq<Member>, value: Fields): Encoded {
    if members == [] then Number(0)
    else
      var before, m := EncodeBitmap(members[..|members| - 1], value), members[|members| - 1];
      var field := FieldOf(m, value);
      if before.InvalidBitmapValue? || field.None? then before
      else if field.value.Unsupported? then InvalidBitmapValue
      else Number(Or(before.n, Contribution(m, field.value)))
  }

  /** The loop over the members of a bitmap. */
  method ConvertBitmap(members: seq<Member>, value: Fields) returns (r: Encoded)
    ensures r == EncodeBitmap(members, value)
  {
    var n := 0;
    for i := 0 to |members|
      invariant EncodeBitmap(members[..i], value) == Number(n)
    {
      var m := members[i];
      assert members[..i + 1][..i] == members[..i];
      var field := FieldOf(m, value);
      if field.None? {
        continue;
      }
      if field.value.Unsupported? {
        InvalidStays(members, i + 1, value);
        return InvalidBitmapValue;
      }
      if m.bits.Single? {
        n := Or(n, ShiftLeft(1, m.bits.bit));
      } else {
        n := Or(n, ShiftLeft(if field.value.Flag? then 1 else field.value.n, m.bits.first));
      }
    }
    assert members[..|members|] == members;
    r := Number(n);
  }

  lemma {:induction false} InvalidStays(members: seq<Member>, i: nat, value: Fields)
    requires i <= |members| && EncodeBitmap(members[..i], value).InvalidBitmapValue?
    ensures EncodeBitmap(members, value).InvalidBitmapValue?
    decreases |members|
  {
    if i < |members| {
      assert members[..|members| - 1][..i] == members[..i];
      InvalidStays(members[..|members| - 1], i, value);
    } else {
      assert members[..i] == members;
    }
  }

  // ---- Where the bits end up -----------------------------------------------------------------------------------

  /** The value under a key, unless it is missing or counts as false. */
  function Entry(value: Fields, key: Option<string>): Option<Field> {
    if key.Some? && key.value in value && value[key.value] != Flag(false) && value[key.value] != Count(0)
    then Some(value[key.value]) else None
  }

  /** The value a member is given: that of its property if it has a name, and that of its alias otherwise. */
  function Given(m: Member, value: Fields): Option<Field> {
    var own := Entry(value, if m.named then Some(m.property) else None);
    if own.Some? then own else Entry(value, m.alias)
  }

  lemma FieldIsGiven(m: Member, value: Fields)
    ensures FieldOf(m, value) == Given(m, value)
  {
  }

  /**
   Whether a member sets bit `i` of the number: its first bit for a flag, and from there on the bits of a number given
   for a range, however many there are.  Shifts count modulo 32.
   */
  predicate Sets(m: Member, value: Fields, i: nat)
    requires i < 32
  {
    var field, at := Given(m, value), m.bits.First() % 32;
    && field.Some?
    && if m.bits.Range? && field.value.Count? then i >= at && Bit(field.value.n, i - at)
       else i == at && (m.bits.Single? || field.value.Flag?)
  }

  lemma ContributedBits(m: Member, value: Fields, i: nat)
    requires i < 32 && Given(m, value).Some?
    ensures Bit(Contribution(m, Given(m, value).value), i) <==> Sets(m, value, i)
  {
    var field, at := Given(m, value).value, m.bits.First() % 32;
    var n := if m.bits.Single? || field.Flag? then 1 else if field.Count? then field.n else 0;
    ShiftModulo(n, m.bits.First());
    assert Contribution(m, field) == ShiftLeft(n, at);
    ShiftBit(n, at, i);
    if i >= at {
      BitOfOne(i - at);
    }
  }

  lemma BitOfOne(i: nat)
    requires i < 32
    ensures !Bit(0, i) && (Bit(1, i) <==> i == 0)
  {
    OneBit(i);
    ZeroBits(32);
  }

  predicate AnySets(members: seq<Member>, value: Fields, i: nat)
    requires i < 32
  {
    exists k :: 0 <= k < |members| && Sets(members[k], value, i)
  }

  /** A bit of the result is set exactly when some member sets it. */
  lemma {:induction false} EncodedBits(members: seq<Member>, value: Fields, i: nat)
    requires i < 32 && EncodeBitmap(members, value).Number?
    ensures Bit(EncodeBitmap(members, value).n, i) <==> AnySets(members, value, i)
  {
    if members == [] {
      ZeroBits(32);
    } else {
      var before, m := members[..|members| - 1], members[|members| - 1];
      EncodedBits(before, value, i);
      var field := Given(m, value);
      if field.Some? {
        OrBit(EncodeBitmap(before, value).n, Contribution(m, field.value), i);
        ContributedBits(m, value, i);
      }
      AnySetsSnoc(before, m, value, i);
      assert members == before + [m];
    }
  }

  lemma AnySetsSnoc(before: seq<Member>, m: Member, value: Fields, i: nat)
    requires i < 32
    ensures AnySets(before + [m], value, i) <==> AnySets(before, value, i) || Sets(m, value, i)
  {
    var members := before + [m];
    if AnySets(before, value, i) {
      var k :| 0 <= k < |before| && Sets(before[k], value, i);
      assert Sets(members[k], value, i);
    }
    if Sets(m, value, i) {
      assert Sets(members[|before|], value, i);
    }
  }

  /** The value fits the bits of the member, and the bits fit a 32-bit number. */
  predicate Fits(m: Member, value: Fields) {
    && m.bits.First() <= m.bits.Last() < 32
    && var field := Given(m, value);
       field.Some? && m.bits.Range? ==>
         !field.value.Unsupported? &&
         (field.value.Count? ==> 0 <= field.value.n < Power(m.bits.last - m.bits.first + 1))
  }

  predicate Covers(m: Member, i: nat) { m.bits.First() <= i <= m.bits.Last() }

  /** Bit `i` of what the member should hold, counted from the lowest bit of the number. */
  predicate Holds(m: Member, value: Fields, i: nat)
    requires Covers(m, i) && i < 32
  {
    var field := Given(m, value);
    field.Some? &&
    if m.bits.Single? then true
    else match field.value
         case Flag(_) => i == m.bits.first
         case Count(n) => Bit(n, i - m.bits.first)
         case Unsupported => false
  }

  lemma SetsOwnBits(m: Member, value: Fields, i: nat)
    requires Fits(m, value) && i < 32
    ensures Sets(m, value, i) <==> Covers(m, i) && Holds(m, value, i)
  {
    var field := Given(m, value);
    assert m.bits.First() % 32 == m.bits.First();
    if field.Some? && m.bits.Range? && field.value.Count? {
      CountFits(field.value.n, m.bits.first, m.bits.last, i);
    }
  }

  /** A number that fits a range has no bits beyond it. */
  lemma CountFits(n: nat, first: nat, last: nat, i: nat)
    requires first <= last < 32 && n < Power(last - first + 1)
    ensures last < i < 32 ==> !Bit(n, i - first)
  {
    FitBits(n, last - first + 1);
  }

  predicate Disjoint(members: seq<Member>) {
    forall j, k :: 0 <= j < k < |members| ==>
      members[j].bits.Last() < members[k].bits.First() || members[k].bits.Last() < members[j].bits.First()
  }

  /** Encoding puts every member's value into the member's own bits and leaves all other bits clear. */
  lemma EncodingIsFaithful(members: seq<Member>, value: Fields, i: nat)
    requires i < 32 && Disjoint(members) && EncodeBitmap(members, value).Number?
    requires forall k :: 0 <= k < |members| ==> Fits(members[k], value)
    ensures var n := EncodeBitmap(members, value).n;
            && (forall k :: 0 <= k < |members| && Covers(members[k], i) ==>
                  (Bit(n, i) <==> Holds(members[k], value, i)))
            && ((forall k :: 0 <= k < |members| ==> !Covers(members[k], i)) ==> !Bit(n, i))
  {
    EncodedBits(members, value, i);
    forall k | 0 <= k < |members|
      ensures Sets(members[k], value, i) <==> Covers(members[k], i) && Holds(members[k], value, i)
    {
      SetsOwnBits(members[k], value, i);
    }
  }

  predicate Rejects(m: Member, value: Fields) { Given(m, value) == Some(Unsupported) }

  /** Encoding fails exactly when a member has a value that is neither a boolean nor a number. */
  lemma {:induction false} InvalidIff(members: seq<Member>, value: Fields)
    ensures EncodeBitmap(members, value).InvalidBitmapValue? <==> exists m :: m in members && Rejects(m, value)
  {
    if members != [] {
      var before, m := members[..|members| - 1], members[|members| - 1];
      assert members == before + [m];
      InvalidIff(before, value);
      assert m in members;
    }
  }

  lemma SameSets(a: seq<Member>, b: seq<Member>, value: Fields, i: nat)
    requires i < 32 && forall m :: m in a ==> m in b
    ensures AnySets(a, value, i) ==> AnySets(b, value, i)
  {
    if AnySets(a, value, i) {
      var k :| 0 <= k < |a| && Sets(a[k], value, i);
      assert a[k] in b;
      var j :| 0 <= j < |b| && b[j] == a[k];
    }
  }

  /** The order of the members does not matter, nor does repeating one. */
  lemma EncodingIgnoresOrder(a: seq<Member>, b: seq<Member>, value: Fields)
    requires forall m :: m in a <==> m in b
    ensures EncodeBitmap(a, value) == EncodeBitmap(b, value)
  {
    InvalidIff(a, value);
    InvalidIff(b, value);
    if EncodeBitmap(a, value).Number? {
      var x, y := EncodeBitmap(a, value).n, EncodeBitmap(b, value).n;
      forall i | 0 <= i < 32 ensures ToWord(x)[i] == ToWord(y)[i] {
        EncodedBits(a, value, i);
        EncodedBits(b, value, i);
        SameSets(a, b, value, i);
        SameSets(b, a, value, i);
      }
      EncodedIsWord(a, value);
      EncodedIsWord(b, value);
      SameBits(ToWord(x), ToWord(y));
    }
  }

  lemma {:induction false} EncodedIsWord(members: seq<Member>, value: Fields)
    requires EncodeBitmap(members, value).Number?
    ensures FromWord(ToWord(EncodeBitmap(members, value).n)) == EncodeBitmap(members, value).n
  {
    if members == [] {
      ZeroBits(32);
    } else {
      var before, m := members[..|members| - 1], members[|members| - 1];
      EncodedIsWord(before, value);
      var field := Given(m, value);
      if field.Some? {
        WordOfNumber(OrWord(ToWord(EncodeBitmap(before, value).n), ToWord(Contribution(m, field.value))));
      }
    }
  }

  /** The number is a signed 32-bit number. */
  lemma EncodedRange(members: seq<Member>, value: Fields)
    requires EncodeBitmap(members, value).Number?
    ensures -TWO_31 <= EncodeBitmap(members, value).n < TWO_31
  {
    EncodedIsWord(members, value);
    SignedRange(ToWord(EncodeBitmap(members, value).n));
  }

  // ---- Reading a bitmap ----------------------------------------------------------------------------------------

  predicate Reads(m: Member, n: int) { m.named && And(n, ShiftLeft(1, m.bits.First())) != 0 }

  /** The properties a bitmap number has set; `None` stands for the error that a text without a number causes. */
  function DecodeBitmap(members: seq<Member>, text: string): Option<set<string>> {
    var n := ParseAnyInt(text);
    if n.None? then None else Some(set m | m in members && Reads(m, n.value) :: m.property)
  }

  /** The member has a name and the number has its first bit. */
  predicate HasFirstBit(m: Member, n: int) { m.named && Bit(n, m.bits.First() % 32) }

  lemma ReadsBit(m: Member, n: int)
    ensures Reads(m, n) <==> HasFirstBit(m, n)
  {
    var bit := m.bits.First() % 32;
    ShiftModulo(1, m.bits.First());
    var w := AndWord(ToWord(n), ToWord(ShiftLeft(1, bit)));
    ZeroIff(w);
    forall i | 0 <= i < 32 ensures w[i] <==> Bit(n, i) && i == bit {
      ShiftBit(1, bit, i);
      if i >= bit {
        OneBit(i - bit);
      }
    }
  }

  function Names(members: seq<Member>, which: Member -> bool): set<string> {
    set m | m in members && which(m) :: m.property
  }

  lemma SameNames(members: seq<Member>, a: Member -> bool, b: Member -> bool)
    requires forall k :: 0 <= k < |members| ==> a(members[k]) == b(members[k])
    ensures Names(members, a) == Names(members, b)
  {
  }

  /** A text that denotes a number sets the named members whose first bit the number has; any other text is an error. */
  lemma BitmapTextReads(members: seq<Member>, text: string)
    ensures DecodeBitmap(members, text).None? <==> !exists n :: Denotes(text, n)
    ensures forall n :: Denotes(text, n) ==> DecodeBitmap(members, text) == Some(Names(members, m => HasFirstBit(m, n)))
  {
    if DecodeBitmap(members, text).Some? {
      ParsesIff(text, ParseAnyInt(text).value);
    }
    forall n | Denotes(text, n) ensures DecodeBitmap(members, text) == Some(Names(members, m => HasFirstBit(m, n))) {
      ParsesIff(text, n);
      BitmapReads(members, text, n);
    }
  }

  lemma BitmapReads(members: seq<Member>, text: string, n: int)
    requires ParseAnyInt(text) == Some(n)
    ensures DecodeBitmap(members, text) == Some(Names(members, m => HasFirstBit(m, n)))
  {
    forall k | 0 <= k < |members| ensures Reads(members[k], n) == HasFirstBit(members[k], n) {
      ReadsBit(members[k], n);
    }
    SameNames(members, m => Reads(m, n), m => HasFirstBit(m, n));
    assert Names(members, m => Reads(m, n)) == set m | m in members && Reads(m, n) :: m.property;
  }

  /** A hexadecimal text is read as the decimal text of the same number is, in either case of the digits. */
  lemma HexBitmapReads(members: seq<Member>, digits: string, n: nat)
    requires Spells(digits, n, 16)
    ensures DecodeBitmap(members, "0x" + digits) == DecodeBitmap(members, NatText(n))
    ensures DecodeBitmap(members, NatText(n)) == Some(set m | m in members && Reads(m, n) :: m.property)
  {
    HexReadsAsDecimal(digits, n);
  }

  /** A bitmap whose members have bits and properties of their own and hold values that fit them. */
  ghost predicate WellFormed(members: seq<Member>, value: Fields) {
    && Disjoint(members)
    && (forall k :: 0 <= k < |members| ==> Fits(members[k], value))
    && (forall j, k :: 0 <= j < k < |members| ==> members[j].property != members[k].property)
  }

  /** What reading back a member's lowest bit says about its value; only a member with a name is read. */
  predicate LowestBitSet(m: Member, value: Fields) {
    var field := Given(m, value);
    m.named && field.Some? && (m.bits.Single? || field.value.Flag? || (field.value.Count? && field.value.n % 2 == 1))
  }

  lemma EncodedReads(members: seq<Member>, value: Fields, k: nat)
    requires WellFormed(members, value) && EncodeBitmap(members, value).Number? && k < |members|
    ensures Reads(members[k], EncodeBitmap(members, value).n) <==> LowestBitSet(members[k], value)
  {
    var m := members[k];
    var bit, n := m.bits.First(), EncodeBitmap(members, value).n;
    assert Fits(m, value) && Covers(m, bit);
    FaithfulAt(members, value, k, bit);
    HoldsLowest(m, value);
    ReadsBit(m, n);
    assert bit % 32 == bit;
  }

  lemma FaithfulAt(members: seq<Member>, value: Fields, k: nat, i: nat)
    requires WellFormed(members, value) && EncodeBitmap(members, value).Number?
    requires k < |members| && i < 32 && Covers(members[k], i)
    ensures Bit(EncodeBitmap(members, value).n, i) <==> Holds(members[k], value, i)
  {
    EncodingIsFaithful(members, value, i);
  }

  lemma HoldsLowest(m: Member, value: Fields)
    requires Fits(m, value)
    ensures LowestBitSet(m, value) <==> m.named && Holds(m, value, m.bits.First())
  {
    var field := Given(m, value);
    if field.Some? && field.value.Count? {
      LowestBit(field.value.n);
    }
  }

  lemma DifferentNames(members: seq<Member>, a: Member -> bool, b: Member -> bool, k: nat)
    requires forall i, j :: 0 <= i < j < |members| ==> members[i].property != members[j].property
    requires k < |members| && a(members[k]) != b(members[k])
    ensures Names(members, a) != Names(members, b)
  {
    var m := members[k];
    assert m.property in Names(members, a) <==> a(m);
    assert m.property in Names(members, b) <==> b(m);
  }

  /** Reading back a written bitmap gives the members whose lowest bit is set. */
  lemma ReadsLowestBits(members: seq<Member>, value: Fields)
    requires WellFormed(members, value) && EncodeBitmap(members, value).Number?
    ensures DecodeBitmap(members, IntText(EncodeBitmap(members, value).n)) ==
            Some(Names(members, m => LowestBitSet(m, value)))
  {
    var n := EncodeBitmap(members, value).n;
    ParseWritten(n);
    forall k | 0 <= k < |members| ensures Reads(members[k], n) == LowestBitSet(members[k], value) {
      EncodedReads(members, value, k);
    }
    SameNames(members, m => Reads(m, n), m => LowestBitSet(m, value));
    assert Names(members, m => Reads(m, n)) == set m | m in members && Reads(m, n) :: m.property;
  }

  /**
   Reading back gives exactly the members that were set if and only if each of them had a name and none held an even
   number: a bitmap of flags survives, a multi-bit field does not in general.
   */
  lemma BitmapRoundTripIff(members: seq<Member>, value: Fields)
    requires WellFormed(members, value) && EncodeBitmap(members, value).Number?
    ensures DecodeBitmap(members, IntText(EncodeBitmap(members, value).n)) ==
            Some(Names(members, m => Given(m, value).Some?)) <==>
            forall m :: m in members && Given(m, value).Some? ==>
                          && m.named
                          && (m.bits.Range? && Given(m, value).value.Count? ==> Given(m, value).value.n % 2 == 1)
  {
    ReadsLowestBits(members, value);
    var read, present := m => LowestBitSet(m, value), m => Given(m, value).Some?;
    if k :| 0 <= k < |members| && read(members[k]) != present(members[k]) {
      DifferentNames(members, read, present, k);
      assert members[k] in members;
    } else {
      SameNames(members, read, present);
    }
  }

  lemma OnlyMember(m: Member, value: Fields)
    requires Given(m, value).Some? && !Given(m, value).value.Unsupported?
    ensures EncodeBitmap([m], value) == Number(Or(0, Contribution(m, Given(m, value).value)))
  {
    assert [m][..0] == [];
  }

  lemma ShiftZero(n: int)
    requires 0 <= n < TWO_31
    ensures ShiftLeft(n, 0) == n
  {
    assert ShiftWord(ToWord(n), 0) == ToWord(n);
    NumberOfWord(n);
  }

  lemma OrShiftZero(n: int)
    requires 0 <= n < TWO_31
    ensures Or(0, ShiftLeft(n, 0)) == n
  {
    ShiftZero(n);
    OrZero(ToWord(n));
    NumberOfWord(n);
  }

  lemma OrZero(w: Word)
    ensures OrWord(ToWord(0), w) == w
  {
    ZeroBits(32);
  }

  lemma OnlyCount(m: Member, value: Fields, n: int)
    requires m.bits == Range(0, 1) && Given(m, value) == Some(Count(n)) && 0 <= n < TWO_31
    ensures EncodeBitmap([m], value) == Number(n)
  {
    OnlyMember(m, value);
    OrShiftZero(n);
  }

  lemma TwoFits(m: Member, value: Fields)
    requires m.named && m.bits == Range(0, 1) && Given(m, value) == Some(Count(2))
    ensures WellFormed([m], value)
  {
    assert Power(2) == 4;
  }

  /** A two-bit field holding 2 is written as 2 and lost on the way back. */
  lemma EvenFieldIsLost(m: Member, value: Fields)
    requires m.named && m.bits == Range(0, 1) && Given(m, value) == Some(Count(2))
    ensures EncodeBitmap([m], value) == Number(2)
    ensures DecodeBitmap([m], IntText(EncodeBitmap([m], value).n)) == Some({})
  {
    TwoFits(m, value);
    OnlyCount(m, value, 2);
    ReadsLowestBits([m], value);
    NoneRead([m], value);
  }

  lemma NoneRead(members: seq<Member>, value: Fields)
    requires forall k :: 0 <= k < |members| ==> !LowestBitSet(members[k], value)
    ensures Names(members, m => LowestBitSet(m, value)) == {}
  {
  }
}
