/** JavaScript's bitwise operators: they work on the low 32 bits of a number and yield a signed 32-bit number. */
module Int32 {
  /** The lowest bit comes first. */
  type Word = w: seq<bool> | |w| == 32 witness seq(32, _ => false)

  const TWO_31: int := 0x8000_0000
  const TWO_32: int := 0x1_0000_0000

  function Bits(n: nat, k: nat): (bits: seq<bool>)
    ensures |bits| == k
  {
    if k == 0 then [] else [n % 2 == 1] + Bits(n / 2, k - 1)
  }

  function Number(bits: seq<bool>): nat {
    if bits == [] then 0 else (if bits[0] then 1 else 0) + 2 * Number(bits[1..])
  }

  function Power(k: nat): nat { if k == 0 then 1 else 2 * Power(k - 1) }

  lemma {:induction false} NumberFits(bits: seq<bool>)
    ensures Number(bits) < Power(|bits|)
  {
    if bits != [] {
      NumberFits(bits[1..]);
    }
  }

  lemma {:induction false} BitsOfNumber(bits: seq<bool>)
    ensures Bits(Number(bits), |bits|) == bits
  {
    if bits != [] {
      BitsOfNumber(bits[1..]);
    }
  }

  lemma {:induction false} PowerAdd(a: nat, b: nat)
    ensures Power(a + b) == Power(a) * Power(b)
  {
    if a > 0 {
      PowerAdd(a - 1, b);
      Doubled(Power(a - 1), Power(b));
    }
  }

  lemma Doubled(a: nat, b: nat)
    ensures 2 * (a * b) == 2 * a * b
  {
  }

  lemma Power32()
    ensures Power(32) == TWO_32
  {
    assert Power(4) == 16;
    PowerAdd(4, 4);
    PowerAdd(8, 8);
    PowerAdd(16, 16);
  }

  function ToWord(n: int): Word { Bits(n % TWO_32, 32) }

  function FromWord(w: Word): int { if Number(w) >= TWO_31 then Number(w) - TWO_32 else Number(w) }

  /** A word survives being written as a signed number. */
  lemma WordOfNumber(w: Word)
    ensures ToWord(FromWord(w)) == w
  {
    NumberFits(w);
    Power32();
    BitsOfNumber(w);
    assert FromWord(w) % TWO_32 == Number(w);
  }

  lemma {:induction false} NumberOfBits(n: nat, k: nat)
    requires n < Power(k)
    ensures Number(Bits(n, k)) == n
  {
    if k > 0 {
      NumberOfBits(n / 2, k - 1);
    }
  }

  /** A number in the signed 32-bit range survives being taken apart into bits. */
  lemma NumberOfWord(n: int)
    requires -TWO_31 <= n < TWO_31
    ensures FromWord(ToWord(n)) == n
  {
    Power32();
    NumberOfBits(n % TWO_32, 32);
  }

  function OrWord(a: Word, b: Word): Word { seq(32, i requires 0 <= i < 32 => a[i] || b[i]) }

  function AndWord(a: Word, b: Word): Word { seq(32, i requires 0 <= i < 32 => a[i] && b[i]) }

  function ShiftWord(w: Word, k: nat): Word { seq(32, i requires 0 <= i < 32 => i >= k && w[i - k]) }

  function Or(a: int, b: int): int { FromWord(OrWord(ToWord(a), ToWord(b))) }

  function And(a: int, b: int): int { FromWord(AndWord(ToWord(a), ToWord(b))) }

  function ShiftLeft(a: int, k: int): int { FromWord(ShiftWord(ToWord(a), k % 32)) }

  /** Bit `i` of a number in 32-bit two's complement. */
  predicate Bit(n: int, i: nat)
    requires i < 32
  {
    ToWord(n)[i]
  }

  lemma OrBit(a: int, b: int, i: nat)
    requires i < 32
    ensures Bit(Or(a, b), i) <==> Bit(a, i) || Bit(b, i)
  {
    WordOfNumber(OrWord(ToWord(a), ToWord(b)));
  }

  lemma ShiftedWord(a: int, k: nat)
    requires k < 32
    ensures ToWord(ShiftLeft(a, k)) == ShiftWord(ToWord(a), k)
  {
    var w := ShiftWord(ToWord(a), k);
    assert ShiftLeft(a, k) == FromWord(w) by {
      assert k % 32 == k;
    }
    WordOfNumber(w);
  }

  lemma ShiftBit(a: int, k: nat, i: nat)
    requires i < 32 && k < 32
    ensures Bit(ShiftLeft(a, k), i) <==> i >= k && Bit(a, i - k)
  {
    ShiftedWord(a, k);
  }

  lemma ShiftModulo(a: int, k: nat)
    ensures ShiftLeft(a, k) == ShiftLeft(a, k % 32)
  {
    assert k % 32 % 32 == k % 32;
  }

  lemma {:induction false} ZeroBits(k: nat)
    ensures forall i :: 0 <= i < k ==> !Bits(0, k)[i]
    ensures Number(Bits(0, k)) == 0
  {
    if k > 0 {
      ZeroBits(k - 1);
    }
  }

  /** A small number has no bits above its size. */
  lemma {:induction false} SmallBits(n: nat, size: nat, k: nat)
    requires n < Power(size)
    ensures forall i :: size <= i < k ==> !Bits(n, k)[i]
    decreases k
  {
    if k > 0 {
      if size == 0 {
        ZeroBits(k);
      } else {
        SmallBits(n / 2, size - 1, k - 1);
      }
    }
  }

  lemma FitBits(n: nat, size: nat)
    requires n < Power(size) && size <= 32
    ensures forall i :: size <= i < 32 ==> !Bit(n, i)
  {
    Power32();
    PowerGrows(size, 32);
    SmallBits(n, size, 32);
  }

  lemma {:induction false} PowerGrows(a: nat, b: nat)
    requires a <= b
    ensures Power(a) <= Power(b)
    decreases b
  {
    if a < b {
      PowerGrows(a, b - 1);
    }
  }

  lemma OneBit(i: nat)
    requires i < 32
    ensures Bit(1, i) <==> i == 0
  {
    ZeroBits(31);
    assert Bits(1, 32) == [true] + Bits(0, 31);
  }

  lemma LowestBit(n: int)
    ensures Bit(n, 0) <==> n % 2 == 1
  {
    var low, q := n % TWO_32, n / TWO_32;
    assert n == low + 2 * (q * TWO_31);
    EvenPart(low, q * TWO_31);
    FirstBit(low, 32);
  }

  lemma EvenPart(a: int, b: int)
    ensures (a + 2 * b) % 2 == a % 2
  {
  }

  lemma FirstBit(n: nat, k: nat)
    requires k > 0
    ensures Bits(n, k)[0] <==> n % 2 == 1
  {
  }

  /** Two numbers in the signed 32-bit range with the same bits are equal. */
  lemma SameBits(a: Word, b: Word)
    requires forall i :: 0 <= i < 32 ==> a[i] == b[i]
    ensures FromWord(a) == FromWord(b)
  {
    assert a == b;
  }

  /** A result of the operators is zero exactly when no bit is set. */
  lemma ZeroIff(w: Word)
    ensures FromWord(w) == 0 <==> forall i :: 0 <= i < 32 ==> !w[i]
  {
    ZeroBits(32);
    if forall i :: 0 <= i < 32 ==> !w[i] {
      assert w == Bits(0, 32);
    }
    if FromWord(w) == 0 {
      WordOfNumber(w);
    }
  }

  // ---- Bits as digits ------------------------------------------------------------------------------------------

  lemma Quotient(n: nat, p: nat, q: nat, r: nat)
    requires p > 0 && n == p * q + r && r < p
    ensures n / p == q
  {
    var q' := n / p;
    assert n == p * q' + n % p;
    if q' < q {
      Multiples(p, q', q);
    } else if q' > q {
      Multiples(p, q, q');
    }
  }

  lemma Multiples(p: nat, a: nat, b: nat)
    requires a < b
    ensures p * a + p <= p * b
  {
    var rest := b - a - 1;
    assert b == (a + 1) + rest;
    Distribute(p, a + 1, rest);
    Distribute(p, a, 1);
  }

  lemma Distribute(p: nat, a: nat, b: nat)
    ensures p * (a + b) == p * a + p * b
  {
  }

  lemma DivideTwice(n: nat, p: nat)
    requires p > 0
    ensures n / (2 * p) == n / 2 / p
  {
    var half := n / 2;
    var q, r := half / p, half % p;
    assert half == p * q + r;
    assert n == 2 * p * q + (2 * r + n % 2) by {
      assert 2 * (p * q) == 2 * p * q;
    }
    Quotient(n, 2 * p, q, 2 * r + n % 2);
  }

  lemma {:induction false} PowerPositive(k: nat)
    ensures Power(k) > 0
  {
    if k > 0 {
      PowerPositive(k - 1);
    }
  }

  lemma {:induction false} BitsAt(n: nat, k: nat, i: nat)
    requires i < k
    ensures Power(i) > 0 && (Bits(n, k)[i] <==> n / Power(i) % 2 == 1)
    decreases k
  {
    PowerPositive(i);
    if i > 0 {
      BitsAt(n / 2, k - 1, i - 1);
      DivideTwice(n, Power(i - 1));
    }
  }

  /** Bit `i` is the binary digit of that place, of the number modulo 2^32. */
  lemma BitIs(n: int, i: nat)
    requires i < 32
    ensures Power(i) > 0 && (Bit(n, i) <==> n % TWO_32 / Power(i) % 2 == 1)
  {
    BitsAt(n % TWO_32, 32, i);
  }

  /** The operators yield signed 32-bit numbers. */
  lemma SignedRange(w: Word)
    ensures -TWO_31 <= FromWord(w) < TWO_31
  {
    NumberFits(w);
    Power32();
  }
}
