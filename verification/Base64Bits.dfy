/** What Base64 text means: the bits of the octets, six to a letter (section 4 of RFC 4648). */
module Base64Bits {
  import opened Options
  import opened Base64

  /** The alphabet of table 1 of RFC 4648. */
  const CAPITALS := "ABCDEFGHIJKLMNOPQRSTUVWXYZ"
  const SMALL := "abcdefghijklmnopqrstuvwxyz"
  const ALPHABET := CAPITALS + SMALL + "0123456789+/"

  lemma CapitalIs(n: nat)
    requires n < 26
    ensures CAPITALS[n] == 'A' + n as char
  {
  }

  lemma SmallIs(n: nat)
    requires n < 26
    ensures SMALL[n] == 'a' + n as char
  {
  }

  /** The letters and their numbers are those of table 1 of RFC 4648. */
  lemma LetterIs(n: Sextet)
    ensures Letter(n) == ALPHABET[n]
  {
    if n < 26 {
      CapitalIs(n);
      assert ALPHABET[n] == CAPITALS[n];
    } else if n < 52 {
      SmallIs(n - 26);
      assert ALPHABET[n] == SMALL[n - 26];
    } else {
      assert ALPHABET[n] == "0123456789+/"[n - 52];
    }
  }

  lemma IndexIs(c: char, n: Sextet)
    ensures Index(c) == Some(n) <==> c == ALPHABET[n]
  {
    LetterIs(n);
    LetterIndex(n);
    if Index(c) == Some(n) {
      IndexLetter(c, n);
    }
  }

  /** The lowest bits of a number, the most significant of them first. */
  function BitsOf(n: nat, k: nat): seq<bool> { if k == 0 then [] else BitsOf(n / 2, k - 1) + [n % 2 == 1] }

  function Power(k: nat): nat { if k == 0 then 1 else 2 * Power(k - 1) }

  lemma {:induction false} BitsJoin(high: nat, low: nat, j: nat, k: nat, power: nat)
    requires power == Power(k) && low < power
    ensures BitsOf(high * power + low, j + k) == BitsOf(high, j) + BitsOf(low, k)
    decreases k
  {
    if k > 0 {
      var p := high * Power(k - 1);
      Doubled(high, Power(k - 1));
      Halved(p, low);
      BitsJoin(high, low / 2, j, k - 1, Power(k - 1));
      assert BitsOf(2 * p + low, j + k) == BitsOf(p + low / 2, j + k - 1) + [low % 2 == 1];
    }
  }

  lemma Doubled(a: nat, b: nat)
    ensures a * (2 * b) == 2 * (a * b)
  {
  }

  lemma Halved(p: nat, low: nat)
    ensures (2 * p + low) / 2 == p + low / 2 && (2 * p + low) % 2 == low % 2
  {
  }

  function OctetBits(bytes: seq<Byte>): seq<bool> {
    if bytes == [] then [] else BitsOf(bytes[0], 8) + OctetBits(bytes[1..])
  }

  predicate AllLetters(s: string) { forall i :: 0 <= i < |s| ==> Index(s[i]).Some? }

  function LetterBits(s: string): seq<bool>
    requires AllLetters(s)
  {
    if s == "" then [] else BitsOf(Index(s[0]).value, 6) + LetterBits(s[1..])
  }

  lemma Powers()
    ensures Power(2) == 4 && Power(4) == 16 && Power(6) == 64
  {
  }

  lemma FirstBits(x: nat, high: nat, low: nat)
    requires low < 4 && x == high * 4 + low
    ensures BitsOf(x, 8) == BitsOf(high, 6) + BitsOf(low, 2) && BitsOf(x, 6) == BitsOf(high, 4) + BitsOf(low, 2)
  {
    Powers();
    BitsJoin(high, low, 6, 2, 4);
    BitsJoin(high, low, 4, 2, 4);
  }

  lemma MiddleBits(x: nat, high: nat, low: nat)
    requires low < 16 && x == high * 16 + low
    ensures BitsOf(x, 8) == BitsOf(high, 4) + BitsOf(low, 4) && BitsOf(x, 6) == BitsOf(high, 2) + BitsOf(low, 4)
  {
    Powers();
    BitsJoin(high, low, 4, 4, 16);
    BitsJoin(high, low, 2, 4, 16);
  }

  lemma LastBits(x: nat, high: nat, low: nat)
    requires low < 64 && x == high * 64 + low
    ensures BitsOf(x, 8) == BitsOf(high, 2) + BitsOf(low, 6)
  {
    Powers();
    BitsJoin(high, low, 2, 6, 64);
  }

  predicate SameBits(q: Quad, x: Byte, y: Byte, z: Byte) {
    BitsOf(q.a, 6) + BitsOf(q.b, 6) + BitsOf(q.c, 6) + BitsOf(q.d, 6) == BitsOf(x, 8) + BitsOf(y, 8) + BitsOf(z, 8)
  }

  /** The bits of the four letters are those of the three octets, in order. */
  lemma QuadBits(q: Quad, x: Byte, y: Byte, z: Byte)
    requires q.Octets() == [x, y, z]
    ensures SameBits(q, x, y, z)
  {
    var b, b', c, c' := q.b / 16, q.b % 16, q.c / 4, q.c % 4;
    FirstBits(x, q.a, b);
    MiddleBits(q.b, b, b');
    MiddleBits(y, b', c);
    FirstBits(q.c, c, c');
    LastBits(z, c', q.d);
    Regrouped(BitsOf(q.a, 6), BitsOf(b, 2), BitsOf(b', 4), BitsOf(c, 4), BitsOf(c', 2), BitsOf(q.d, 6));
  }

  lemma Regrouped(a: seq<bool>, b: seq<bool>, b': seq<bool>, c: seq<bool>, c': seq<bool>, d: seq<bool>)
    ensures a + (b + b') + (c + c') + d == (a + b) + (b' + c) + (c' + d)
  {
  }

  // ---- Whole groups --------------------------------------------------------------------------------------------

  /** A group of four letters before further letters. */
  lemma QuadLetters(q: Quad, rest: string)
    requires AllLetters(rest)
    ensures AllLetters(q.Text() + rest)
    ensures LetterBits(q.Text() + rest) ==
            BitsOf(q.a, 6) + BitsOf(q.b, 6) + BitsOf(q.c, 6) + BitsOf(q.d, 6) + LetterBits(rest)
  {
    OneLetter(q.d, rest);
    OneLetter(q.c, [Letter(q.d)] + rest);
    OneLetter(q.b, [Letter(q.c)] + ([Letter(q.d)] + rest));
    OneLetter(q.a, [Letter(q.b)] + ([Letter(q.c)] + ([Letter(q.d)] + rest)));
    assert q.Text() + rest == [Letter(q.a)] + ([Letter(q.b)] + ([Letter(q.c)] + ([Letter(q.d)] + rest)));
    Associated(BitsOf(q.a, 6), BitsOf(q.b, 6), BitsOf(q.c, 6), BitsOf(q.d, 6), LetterBits(rest));
  }

  lemma OneLetter(n: Sextet, rest: string)
    requires AllLetters(rest)
    ensures AllLetters([Letter(n)] + rest)
    ensures LetterBits([Letter(n)] + rest) == BitsOf(n, 6) + LetterBits(rest)
  {
    LetterIndex(n);
    assert ([Letter(n)] + rest)[1..] == rest;
  }

  lemma Associated(a: seq<bool>, b: seq<bool>, c: seq<bool>, d: seq<bool>, e: seq<bool>)
    ensures a + (b + (c + (d + e))) == a + b + c + d + e
  {
  }

  lemma ThreeOctets(x: Byte, y: Byte, z: Byte, rest: seq<Byte>)
    ensures OctetBits([x, y, z] + rest) == BitsOf(x, 8) + BitsOf(y, 8) + BitsOf(z, 8) + OctetBits(rest)
  {
    OneOctet(z, rest);
    OneOctet(y, [z] + rest);
    OneOctet(x, [y] + ([z] + rest));
    assert [x, y, z] + rest == [x] + ([y] + ([z] + rest));
    Associated([], BitsOf(x, 8), BitsOf(y, 8), BitsOf(z, 8), OctetBits(rest));
    assert [] + BitsOf(x, 8) == BitsOf(x, 8);
  }

  lemma OneOctet(n: Byte, rest: seq<Byte>)
    ensures OctetBits([n] + rest) == BitsOf(n, 8) + OctetBits(rest)
  {
    assert ([n] + rest)[1..] == rest;
  }

  /** Letters and octets that hold the same bits do so with a group in front of them. */
  lemma GroupInFront(q: Quad, x: Byte, y: Byte, z: Byte, letters: string, bytes: seq<Byte>)
    requires q.Octets() == [x, y, z] && AllLetters(letters) && LetterBits(letters) == OctetBits(bytes)
    ensures AllLetters(q.Text() + letters) && LetterBits(q.Text() + letters) == OctetBits([x, y, z] + bytes)
  {
    QuadLetters(q, letters);
    QuadBits(q, x, y, z);
    ThreeOctets(x, y, z, bytes);
  }

  /** Octets in groups of three are written as letters with the same bits. */
  lemma {:induction false} EncodeKeepsBits(bytes: seq<Byte>)
    requires |bytes| % 3 == 0
    ensures |Encode(bytes)| == |bytes| / 3 * 4
    ensures AllLetters(Encode(bytes)) && LetterBits(Encode(bytes)) == OctetBits(bytes)
  {
    if bytes != [] {
      var x, y, z, rest := bytes[0], bytes[1], bytes[2], bytes[3..];
      EncodeKeepsBits(rest);
      PackOctets(x, y, z);
      GroupInFront(Pack(x, y, z), x, y, z, Encode(rest), rest);
      assert bytes == [x, y, z] + rest;
    }
  }

  /** Letters in groups of four are read as octets with the same bits. */
  lemma {:induction false} DecodeKeepsBits(s: string)
    requires |s| % 4 == 0 && AllLetters(s)
    ensures Decode(s).Some? && |Decode(s).value| == |s| / 4 * 3 && OctetBits(Decode(s).value) == LetterBits(s)
  {
    if s != "" {
      var q := Quad(Index(s[0]).value, Index(s[1]).value, Index(s[2]).value, Index(s[3]).value);
      DecodeKeepsBits(s[4..]);
      GroupAtStart(s, q);
      DecodeQuad(q, s[4..]);
      var o := q.Octets();
      GroupInFront(q, o[0], o[1], o[2], s[4..], Decode(s[4..]).value);
    }
  }

  lemma GroupAtStart(s: string, q: Quad)
    requires |s| >= 4 && Index(s[0]) == Some(q.a) && Index(s[1]) == Some(q.b)
    requires Index(s[2]) == Some(q.c) && Index(s[3]) == Some(q.d)
    ensures s == q.Text() + s[4..]
  {
    IndexLetter(s[0], q.a);
    IndexLetter(s[1], q.b);
    IndexLetter(s[2], q.c);
    IndexLetter(s[3], q.d);
  }

  lemma IndexLetter(c: char, n: Sextet)
    requires Index(c) == Some(n)
    ensures c == Letter(n)
  {
  }

  // ---- Padding -------------------------------------------------------------------------------------------------

  const ZEROS: seq<Byte> := [0, 0]
  const PADS := "=="

  /** The text with its last letters replaced. */
  function Ending(s: string, p: nat, end: string): string
    requires p <= |s|
  {
    s[..|s| - p] + end
  }

  lemma EndingInFront(head: string, s: string, p: nat, end: string)
    requires p <= |s|
    ensures Ending(head + s, p, end) == head + Ending(s, p, end)
  {
  }

  /** Octets that do not fill the last group are written as if zeros did, with a pad in place of each such letter. */
  lemma {:induction false} EncodePads(bytes: seq<Byte>, p: nat)
    requires p <= 2 && (|bytes| + p) % 3 == 0
    ensures p <= |Encode(bytes + ZEROS[..p])|
    ensures Encode(bytes) == Ending(Encode(bytes + ZEROS[..p]), p, PADS[..p])
    decreases |bytes|
  {
    if |bytes| >= 3 {
      var rest := bytes[3..];
      var head := Pack(bytes[0], bytes[1], bytes[2]).Text();
      EncodePads(rest, p);
      EncodeGroup(bytes, ZEROS[..p]);
      EncodeGroup(bytes, []);
      EndingInFront(head, Encode(rest + ZEROS[..p]), p, PADS[..p]);
      assert bytes + [] == bytes && rest + [] == rest;
    } else {
      EncodePaddedGroup(bytes, p);
    }
  }

  lemma EncodeGroup(bytes: seq<Byte>, more: seq<Byte>)
    requires |bytes| >= 3
    ensures Encode(bytes + more) == Pack(bytes[0], bytes[1], bytes[2]).Text() + Encode(bytes[3..] + more)
  {
    assert (bytes + more)[3..] == bytes[3..] + more;
  }

  lemma EncodePaddedGroup(bytes: seq<Byte>, p: nat)
    requires |bytes| < 3 && p <= 2 && (|bytes| + p) % 3 == 0
    ensures p <= |Encode(bytes + ZEROS[..p])|
    ensures Encode(bytes) == Ending(Encode(bytes + ZEROS[..p]), p, PADS[..p])
  {
    var all := bytes + ZEROS[..p];
    if |bytes| == 1 {
      assert p == 2 && ZEROS[..2] == [0, 0] && PADS[..2] == "==";
      EncodeOne(bytes, all);
    } else if |bytes| == 2 {
      assert p == 1 && ZEROS[..1] == [0] && PADS[..1] == "=";
      EncodeTwo(bytes, all);
    }
  }

  lemma EncodeOne(bytes: seq<Byte>, all: seq<Byte>)
    requires |bytes| == 1 && all == [bytes[0], 0, 0]
    ensures |Encode(all)| == 4 && Encode(bytes) == Ending(Encode(all), 2, "==")
  {
    EncodeThree(all);
  }

  lemma EncodeTwo(bytes: seq<Byte>, all: seq<Byte>)
    requires |bytes| == 2 && all == [bytes[0], bytes[1], 0]
    ensures |Encode(all)| == 4 && Encode(bytes) == Ending(Encode(all), 1, "=")
  {
    EncodeThree(all);
  }

  lemma EncodeThree(bytes: seq<Byte>)
    requires |bytes| == 3
    ensures Encode(bytes) == Pack(bytes[0], bytes[1], bytes[2]).Text()
  {
    var text := Pack(bytes[0], bytes[1], bytes[2]).Text();
    assert bytes[3..] == [] && text + "" == text;
  }

  /** A padded text is read as if the pads were the letter for zero, less an octet for each pad. */
  lemma {:induction false} DecodePads(letters: string, p: nat)
    requires 0 < p <= 2 && (|letters| + p) % 4 == 0 && AllLetters(letters)
    ensures PaddedReads(letters, PADS[..p], "AA"[..p], p)
    decreases |letters|
  {
    if |letters| < 4 {
      DecodePaddedGroup(letters, p);
    } else {
      DecodePads(letters[4..], p);
      PadsInFront(letters, PADS[..p], "AA"[..p], p);
    }
  }

  /** With pads at its end the text is read as with zeros there, less the last octets. */
  predicate PaddedReads(letters: string, pads: string, zeros: string, p: nat) {
    var full := Decode(letters + zeros);
    full.Some? && p <= |full.value| && Decode(letters + pads) == Some(full.value[..|full.value| - p])
  }

  lemma DecodeMore(s: string, end: string)
    requires |s| >= 4 && s[4..] + end != "" && Group(s[..4]).Some? && Decode(s[4..] + end).Some?
    ensures Decode(s + end) == Some(Group(s[..4]).value + Decode(s[4..] + end).value)
  {
    assert (s + end)[..4] == s[..4] && (s + end)[4..] == s[4..] + end;
  }

  lemma GroupOfLetters(s: string)
    requires |s| == 4
    ensures Group(s).Some? <==> AllLetters(s)
  {
  }

  lemma PadsInFront(letters: string, pads: string, zeros: string, p: nat)
    requires |letters| >= 4 && AllLetters(letters) && pads != "" && zeros != ""
    requires PaddedReads(letters[4..], pads, zeros, p)
    ensures PaddedReads(letters, pads, zeros, p)
  {
    GroupOfLetters(letters[..4]);
    DecodeMore(letters, pads);
    DecodeMore(letters, zeros);
    var octets, full := Group(letters[..4]).value, Decode(letters[4..] + zeros).value;
    assert octets + full[..|full| - p] == (octets + full)[..|octets + full| - p];
  }

  lemma DecodePaddedGroup(letters: string, p: nat)
    requires 0 < p <= 2 && |letters| + p == 4 && AllLetters(letters)
    ensures PaddedReads(letters, PADS[..p], "AA"[..p], p)
  {
    var s, t := letters + PADS[..p], letters + "AA"[..p];
    assert Index('A') == Some(0) && letters[|letters| - 1] != '=';
    GroupOfLetters(t);
    var octets := Group(t).value;
    assert LastGroup(t) == Some(octets) by {
      assert t[3] == 'A' && t[..4] + "AA"[..0] == t && octets[..3] == octets;
    }
    assert PADS[..2] == "==" && PADS[..1] == "=" && s[..4 - p] == letters && s[..4 - p] + "AA"[..p] == t;
    if p == 2 {
      assert s[2] == '=' && s[3] == '=';
    } else {
      assert s[2] == letters[2] && s[3] == '=';
    }
    assert LastGroup(s) == Some(octets[..3 - p]);
  }

  /** Whole groups of letters, of which the last may end in `p` pads. */
  predicate WellPadded(s: string, p: nat) {
    p <= 2 && p <= |s| && |s| % 4 == 0 && AllLetters(s[..|s| - p]) && s == s[..|s| - p] + PADS[..p]
  }

  /** Exactly the texts of whole groups with pads at most at their end can be read. */
  lemma DecodeIff(s: string)
    ensures Decode(s).Some? <==> exists p: nat :: WellPadded(s, p)
  {
    if p: nat :| WellPadded(s, p) {
      if p == 0 {
        assert s[..|s|] == s;
        DecodeKeepsBits(s);
      } else {
        DecodePads(s[..|s| - p], p);
      }
    }
    if Decode(s).Some? {
      var p := ReadIsPadded(s);
    }
  }

  lemma {:induction false} ReadIsPadded(s: string) returns (p: nat)
    requires Decode(s).Some?
    ensures WellPadded(s, p)
  {
    if s == "" {
      p := 0;
      assert s[..0] == "" && PADS[..0] == "";
    } else if |s| == 4 {
      p := LastIsPadded(s);
    } else {
      GroupOfLetters(s[..4]);
      p := ReadIsPadded(s[4..]);
      PaddedInFront(s, p);
    }
  }

  lemma LastIsPadded(s: string) returns (p: nat)
    requires |s| == 4 && LastGroup(s).Some?
    ensures WellPadded(s, p)
  {
    p := if s[3] != '=' then 0 else if s[2] != '=' then 1 else 2;
    var t := s[..4 - p] + "AA"[..p];
    GroupOfLetters(t);
    assert forall i :: 0 <= i < 4 - p ==> s[..4 - p][i] == t[i];
    assert PADS[..2] == "==" && PADS[..1] == "=" && PADS[..0] == "";
    assert s == s[..4 - p] + s[4 - p..];
  }

  lemma PaddedInFront(s: string, p: nat)
    requires |s| >= 4 && AllLetters(s[..4]) && WellPadded(s[4..], p)
    ensures WellPadded(s, p)
  {
    var rest := s[4..];
    assert s[..|s| - p] == s[..4] + rest[..|rest| - p];
    assert s == s[..4] + rest;
    assert s[..4] + rest[..|rest| - p] + PADS[..p] == s[..4] + (rest[..|rest| - p] + PADS[..p]);
  }
}
