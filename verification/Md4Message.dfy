/**
 MD4 of a bit string (sections 3.1 to 3.5 of RFC 1320): padding, length, chaining over blocks, and output.
 */
module Md4Message {
  import opened Md4Block

  type Bitstring = seq<bool>

  // ---------------------------------------------------------------- bits and bytes

  function Mask(j: nat): octet
    requires j < 8
  {
    match j
    case 0 => 0x80 case 1 => 0x40 case 2 => 0x20 case 3 => 0x10
    case 4 => 0x08 case 5 => 0x04 case 6 => 0x02 case _ => 0x01
  }

  /** Bits are numbered from the high-order end of a byte. */
  predicate Bit(b: octet, j: nat)
    requires j < 8
  {
    b & Mask(j) != 0
  }

  function Octet(b0: bool, b1: bool, b2: bool, b3: bool, b4: bool, b5: bool, b6: bool, b7: bool): octet {
    (if b0 then 0x80 else 0) | (if b1 then 0x40 else 0) | (if b2 then 0x20 else 0) | (if b3 then 0x10 else 0) |
    (if b4 then 0x08 else 0) | (if b5 then 0x04 else 0) | (if b6 then 0x02 else 0) | (if b7 then 0x01 else 0)
  }

  function OctetAt(bits: Bitstring, j: nat): octet
    requires 8 * j + 8 <= |bits|
  {
    var k := 8 * j;
    Octet(bits[k], bits[k + 1], bits[k + 2], bits[k + 3], bits[k + 4], bits[k + 5], bits[k + 6], bits[k + 7])
  }

  function Pack(bits: Bitstring): (r: seq<octet>)
    requires |bits| % 8 == 0
    ensures |r| == |bits| / 8
  {
    seq(|bits| / 8, j requires 0 <= j < |bits| / 8 => OctetAt(bits, j))
  }

  /** The first `n` bits of some bytes. */
  function Bits(x: seq<octet>, n: nat): (r: Bitstring)
    requires n <= 8 * |x|
    ensures |r| == n
  {
    seq(n, i requires 0 <= i < n => Bit(x[i / 8], i % 8))
  }

  /** Whole blocks of 512 bits, so whole bytes too. */
  predicate Whole(bits: Bitstring) {
    |bits| % 512 == 0 && |bits| % 8 == 0
  }

  // ---------------------------------------------------------------- sections 3.1 and 3.2: padding and length

  function Zeros(k: nat): (r: Bitstring)
    ensures |r| == k
  {
    seq(k, _ => false)
  }

  /** The number of zeros after the one, to reach 448 modulo 512. */
  function PadZeros(n: nat): (k: nat)
    ensures k < 512 && (n + 1 + k) % 512 == 448
  {
    (447 - n) % 512
  }

  function Quot(n: nat, i: nat): nat {
    if i == 0 then n else Quot(n, i - 1) / 256
  }

  /** Byte `i` of a number, counted from the low-order end. */
  function Digit(n: nat, i: nat): (d: nat)
    ensures d < 256
  {
    Quot(n, i) % 256
  }

  function LengthOctets(n: nat): seq<octet> {
    seq(8, i requires 0 <= i < 8 => Digit(n, i) as octet)
  }

  function Tail(bits: Bitstring): (r: Bitstring)
    ensures |r| % 8 == 0
  {
    WholeOctets(|bits| + 1 + PadZeros(|bits|));
    bits + [true] + Zeros(PadZeros(|bits|))
  }

  lemma WholeOctets(n: nat)
    requires n % 512 == 448
    ensures n % 8 == 0
  {
    assert n == 8 * (64 * (n / 512) + 56);
  }

  function Padded(bits: Bitstring): seq<octet> {
    Pack(Tail(bits)) + LengthOctets(|bits|)
  }

  // ---------------------------------------------------------------- sections 3.3 to 3.5

  const INITIAL := State(W(0x67452301), W(0xefcdab89), W(0x98badcfe), W(0x10325476))

  function Chain(st: State, data: seq<octet>): State
    decreases |data|
  {
    if |data| < 64 then st else Chain(Compress(st, data[..64]), data[64..])
  }

  function Digest(bits: Bitstring): State {
    Chain(INITIAL, Padded(bits))
  }

  function Low(v: bv32): octet {
    (v & 0xff) as octet
  }

  function Down(v: bv32, bytes: nat): bv32
    requires bytes <= 4
  {
    match bytes case 0 => v case 1 => v >> 8 case 2 => v >> 16 case 3 => v >> 24 case _ => 0
  }

  function LowFirst(w: word): (r: seq<octet>)
    ensures |r| == 4
  {
    seq(4, j requires 0 <= j < 4 => Low(Down(w.v, j)))
  }

  function Output(st: State): seq<octet> {
    LowFirst(st.a) + LowFirst(st.b) + LowFirst(st.c) + LowFirst(st.d)
  }

  // ---------------------------------------------------------------- lemmas

  lemma OctetOfItsBits(x: octet)
    ensures Octet(Bit(x, 0), Bit(x, 1), Bit(x, 2), Bit(x, 3), Bit(x, 4), Bit(x, 5), Bit(x, 6), Bit(x, 7)) == x
  {}

  /** A byte whose first `n` bits belong to the message, with the padding bit after them. */
  function Ended(x: octet, n: nat): octet
    requires n < 8
  {
    (x | Mask(n)) & !(Mask(n) - 1)
  }

  /** The byte where the message ends: `(x | mask) & ~(mask - 1)`, for the mask `1 << (7 - n)`. */
  lemma LastOctet(x: octet, n: nat)
    requires n < 8
    ensures Octet(n > 0 ==> Bit(x, 0), if n > 1 then Bit(x, 1) else n == 1, if n > 2 then Bit(x, 2) else n == 2,
                  if n > 3 then Bit(x, 3) else n == 3, if n > 4 then Bit(x, 4) else n == 4,
                  if n > 5 then Bit(x, 5) else n == 5, if n > 6 then Bit(x, 6) else n == 6, n == 7)
            == Ended(x, n)
  {}

  lemma PackConcat(a: Bitstring, b: Bitstring)
    requires |a| % 8 == 0 && |b| % 8 == 0
    ensures |a + b| % 8 == 0 && Pack(a + b) == Pack(a) + Pack(b)
  {
    hide Octet;
    var m := |a| / 8;
    forall j | 0 <= j < |b| / 8
      ensures OctetAt(a + b, m + j) == OctetAt(b, j)
    {
      assert 8 * (m + j) == |a| + 8 * j;
    }
  }

  lemma BitAt(x: seq<octet>, n: nat, j: nat, i: nat)
    requires n <= 8 * |x| && i < 8 && 8 * j + i < n
    ensures Bits(x, n)[8 * j + i] == Bit(x[j], i)
  {
    assert (8 * j + i) / 8 == j && (8 * j + i) % 8 == i;
  }

  lemma BitsAt(x: seq<octet>, n: nat, j: nat)
    requires n <= 8 * |x| && 8 * j + 8 <= n
    ensures OctetAt(Bits(x, n), j) == x[j]
  {
    hide Octet, Bit, Bits;
    OctetOfItsBits(x[j]);
    BitAt(x, n, j, 0);
    BitAt(x, n, j, 1);
    BitAt(x, n, j, 2);
    BitAt(x, n, j, 3);
    BitAt(x, n, j, 4);
    BitAt(x, n, j, 5);
    BitAt(x, n, j, 6);
    BitAt(x, n, j, 7);
  }

  /** Whole bytes survive the way through their bits. */
  lemma PackBits(x: seq<octet>, m: nat)
    requires m <= |x|
    ensures Pack(Bits(x, 8 * m)) == x[..m]
  {
    hide OctetAt, Bit;
    forall j | 0 <= j < m
      ensures OctetAt(Bits(x, 8 * m), j) == x[j]
    {
      BitsAt(x, 8 * m, j);
    }
  }

  lemma WholeStep(bits: Bitstring, block: Bitstring)
    requires Whole(bits) && |block| == 512
    ensures Whole(bits + block)
  {}

  lemma {:induction false} ChainConcat(st: State, a: seq<octet>, b: seq<octet>)
    requires |a| % 64 == 0
    ensures Chain(st, a + b) == Chain(Chain(st, a), b)
    decreases |a|
  {
    hide Compress;
    if a == [] {
      assert a + b == b;
    } else {
      assert (a + b)[..64] == a[..64] && (a + b)[64..] == a[64..] + b;
      ChainConcat(Compress(st, a[..64]), a[64..], b);
    }
  }

  lemma ChainBlock(st: State, block: seq<octet>)
    requires |block| == 64
    ensures Chain(st, block) == Compress(st, block)
  {
    hide Compress;
    assert block[..64] == block && block[64..] == [];
  }

  /** Padding looks only at what follows the last whole block. */
  lemma TailOfRest(a: Bitstring, b: Bitstring)
    requires |a| % 512 == 0
    ensures Tail(a + b) == a + Tail(b)
  {
    hide Zeros, PadZeros;
    SameZeros(|a|, |b|);
    var z := Zeros(PadZeros(|b|));
    assert a + b + [true] + z == a + (b + [true] + z);
  }

  lemma SameZeros(m: nat, n: nat)
    requires m % 512 == 0
    ensures PadZeros(m + n) == PadZeros(n)
  {}

  lemma TailLength(n: nat)
    requires n < 512
    ensures n + 1 + PadZeros(n) == if n <= 447 then 448 else 960
  {}

  /** Bit `i` of byte `j` of the padded rest, where the message ends in or before that byte. */
  lemma TailBit(x: seq<octet>, n: nat, y: octet, j: nat, i: nat)
    requires n <= 8 * |x| && i < 8 && n / 8 <= j && 8 * j + i < |Tail(Bits(x, n))|
    requires n % 8 != 0 ==> y == x[n / 8]
    ensures Tail(Bits(x, n))[8 * j + i] == if j > n / 8 then false else if i < n % 8 then Bit(y, i) else i == n % 8
  {
    hide Bit;
    if j == n / 8 && i < n % 8 {
      BitAt(x, n, j, i);
    }
  }

  lemma TailOctetLast(x: seq<octet>, n: nat, y: octet, j: nat)
    requires n <= 8 * |x| && n / 8 <= j && 8 * j + 8 <= |Tail(Bits(x, n))|
    requires n % 8 != 0 ==> y == x[n / 8]
    ensures OctetAt(Tail(Bits(x, n)), j) == if j == n / 8 then Ended(y, n % 8) else 0
  {
    hide Octet, Bit, Bits, Tail, Ended;
    TailBit(x, n, y, j, 0);
    TailBit(x, n, y, j, 1);
    TailBit(x, n, y, j, 2);
    TailBit(x, n, y, j, 3);
    TailBit(x, n, y, j, 4);
    TailBit(x, n, y, j, 5);
    TailBit(x, n, y, j, 6);
    TailBit(x, n, y, j, 7);
    LastOctet(y, n % 8);
    NoBits();
  }

  lemma NoBits()
    ensures Octet(false, false, false, false, false, false, false, false) == 0
  {}

  /** Byte `j` of the padded rest: of the message, the one where it ends, or zero. */
  lemma TailOctet(x: seq<octet>, n: nat, y: octet, j: nat)
    requires n <= 8 * |x| && (n % 8 != 0 ==> y == x[n / 8])
    requires 8 * j + 8 <= |Tail(Bits(x, n))|
    ensures OctetAt(Tail(Bits(x, n)), j)
            == if j < n / 8 then x[j] else if j == n / 8 then Ended(y, n % 8) else 0
  {
    hide Octet, Bits, Ended;
    if j < n / 8 {
      assert OctetAt(Tail(Bits(x, n)), j) == OctetAt(Bits(x, n), j);
      BitsAt(x, n, j);
    } else {
      TailOctetLast(x, n, y, j);
    }
  }
}
