/** Base64 as in section 4 of RFC 4648, which `btoa` writes and `atob` reads. */
module Base64 {
  import opened Options

  type Byte = x: int | 0 <= x < 256
  type Sextet = x: int | 0 <= x < 64

  function Letter(n: Sextet): char {
    if n < 26 then 'A' + n as char
    else if n < 52 then 'a' + (n - 26) as char
    else if n < 62 then '0' + (n - 52) as char
    else if n == 62 then '+' else '/'
  }

  function Index(c: char): Option<Sextet> {
    if 'A' <= c <= 'Z' then Some((c - 'A') as int)
    else if 'a' <= c <= 'z' then Some(26 + (c - 'a') as int)
    else if '0' <= c <= '9' then Some(52 + (c - '0') as int)
    else if c == '+' then Some(62)
    else if c == '/' then Some(63)
    else None
  }

  lemma LetterIndex(n: Sextet)
    ensures Index(Letter(n)) == Some(n) && Letter(n) != '='
  {
  }

  datatype Quad = Quad(a: Sextet, b: Sextet, c: Sextet, d: Sextet)
  {
    function Text(): string { [Letter(a), Letter(b), Letter(c), Letter(d)] }

    function Octets(): seq<Byte> { [a * 4 + b / 16, b % 16 * 16 + c / 4, c % 4 * 64 + d] }
  }

  function Pack(x: Byte, y: Byte, z: Byte): Quad { Quad(x / 4, x % 4 * 16 + y / 16, y % 16 * 4 + z / 64, z % 64) }

  lemma PackOctets(x: Byte, y: Byte, z: Byte)
    ensures Pack(x, y, z).Octets() == [x, y, z]
  {
  }

  function Encode(bytes: seq<Byte>): string {
    if |bytes| == 0 then ""
    else if |bytes| == 1 then Pack(bytes[0], 0, 0).Text()[..2] + "=="
    else if |bytes| == 2 then Pack(bytes[0], bytes[1], 0).Text()[..3] + "="
    else Pack(bytes[0], bytes[1], bytes[2]).Text() + Encode(bytes[3..])
  }

  /** The octets of four letters. */
  function Group(s: string): Option<seq<Byte>>
    requires |s| == 4
  {
    var a, b, c, d := Index(s[0]), Index(s[1]), Index(s[2]), Index(s[3]);
    if a.None? || b.None? || c.None? || d.None? then None
    else Some(Quad(a.value, b.value, c.value, d.value).Octets())
  }

  /** The octets of the last group, which may end in pads. */
  function LastGroup(s: string): Option<seq<Byte>>
    requires |s| == 4
  {
    var pads := if s[3] != '=' then 0 else if s[2] != '=' then 1 else 2;
    var octets := Group(s[..4 - pads] + "AA"[..pads]);
    if octets.None? then None else Some(octets.value[..|octets.value| - pads])
  }

  function Decode(s: string): Option<seq<Byte>> {
    if s == "" then Some([])
    else if |s| < 4 then None
    else if |s| == 4 then LastGroup(s)
    else
      var octets, rest := Group(s[..4]), Decode(s[4..]);
      if octets.None? || rest.None? then None else Some(octets.value + rest.value)
  }

  lemma GroupOf(q: Quad)
    ensures Group(q.Text()) == Some(q.Octets())
  {
    LetterIndex(q.a);
    LetterIndex(q.b);
    LetterIndex(q.c);
    LetterIndex(q.d);
  }

  lemma LastGroupOf(q: Quad)
    ensures LastGroup(q.Text()) == Some(q.Octets())
  {
    GroupOf(q);
    LetterIndex(q.d);
    var s := q.Text();
    assert s[..4] + "AA"[..0] == s && q.Octets()[..3] == q.Octets();
  }

  lemma DecodeQuad(q: Quad, rest: string)
    requires Decode(rest).Some?
    ensures Decode(q.Text() + rest) == Some(q.Octets() + Decode(rest).value)
  {
    var s := q.Text() + rest;
    assert s[..4] == q.Text() && s[4..] == rest;
    GroupOf(q);
    if rest == "" {
      assert s == q.Text() && q.Octets() + [] == q.Octets();
      LastGroupOf(q);
    }
  }

  lemma DecodePadded(q: Quad)
    ensures q.c == 0 && q.d == 0 ==> Decode(q.Text()[..2] + "==") == Some(q.Octets()[..1])
    ensures q.d == 0 ==> Decode(q.Text()[..3] + "=") == Some(q.Octets()[..2])
  {
    GroupOf(q);
    LetterIndex(q.c);
    var one, two := q.Text()[..2] + "==", q.Text()[..3] + "=";
    assert "AA"[..2] == "AA" && "AA"[..1] == "A" && Letter(0) == 'A';
    assert one[..2] + "AA" == [Letter(q.a), Letter(q.b), 'A', 'A'];
    assert two[..3] + "A" == [Letter(q.a), Letter(q.b), Letter(q.c), 'A'];
  }

  lemma DecodeOne(bytes: seq<Byte>)
    requires |bytes| == 1
    ensures Decode(Encode(bytes)) == Some(bytes)
  {
    PackOctets(bytes[0], 0, 0);
    DecodePadded(Pack(bytes[0], 0, 0));
    assert [bytes[0], 0, 0][..1] == bytes;
  }

  lemma DecodeTwo(bytes: seq<Byte>)
    requires |bytes| == 2
    ensures Decode(Encode(bytes)) == Some(bytes)
  {
    PackOctets(bytes[0], bytes[1], 0);
    DecodePadded(Pack(bytes[0], bytes[1], 0));
    assert [bytes[0], bytes[1], 0][..2] == bytes;
  }

  lemma DecodeFirst(q: Quad, rest: string, bytes: seq<Byte>)
    requires |bytes| >= 3 && q.Octets() == bytes[..3] && Decode(rest) == Some(bytes[3..])
    ensures Decode(q.Text() + rest) == Some(bytes)
  {
    DecodeQuad(q, rest);
    assert bytes == bytes[..3] + bytes[3..];
  }

  lemma PackThree(bytes: seq<Byte>)
    requires |bytes| >= 3
    ensures Pack(bytes[0], bytes[1], bytes[2]).Octets() == bytes[..3]
  {
    PackOctets(bytes[0], bytes[1], bytes[2]);
  }

  lemma DecodeThree(bytes: seq<Byte>)
    requires |bytes| >= 3 && Decode(Encode(bytes[3..])) == Some(bytes[3..])
    ensures Decode(Encode(bytes)) == Some(bytes)
  {
    PackThree(bytes);
    DecodeFirst(Pack(bytes[0], bytes[1], bytes[2]), Encode(bytes[3..]), bytes);
  }

  /** Octets survive being written as Base64 and read back. */
  lemma {:induction false} DecodeEncode(bytes: seq<Byte>)
    ensures Decode(Encode(bytes)) == Some(bytes)
  {
    if |bytes| == 1 {
      DecodeOne(bytes);
    } else if |bytes| == 2 {
      DecodeTwo(bytes);
    } else if |bytes| > 2 {
      DecodeEncode(bytes[3..]);
      DecodeThree(bytes);
    }
  }
}
