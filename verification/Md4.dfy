/**
 The MD4 context of md4.c. Full blocks are absorbed as they come; the first shorter update pads and closes.
 */
module Md4 {
  import opened Bytes
  import opened Md4Block
  import opened Md4Message

  // ---------------------------------------------------------------- the 64-bit count

  /** The eight bytes of the number of bits, the low-order byte first. */
  ghost predicate Holds(count: array<byte>, n: nat)
    reads count
  {
    count.Length == 8 && forall i :: 0 <= i < 8 ==> count[i] == Digit(n, i)
  }

  lemma QuotEight(n: nat)
    requires n < 0x1_0000_0000_0000_0000
    ensures Quot(n, 8) == 0
  {
    assert Quot(n, 1) < 0x1_00_0000_0000_0000;
    assert Quot(n, 2) < 0x1_0000_0000_0000;
    assert Quot(n, 3) < 0x1_00_0000_0000;
    assert Quot(n, 4) < 0x1_0000_0000;
    assert Quot(n, 5) < 0x1_00_0000;
    assert Quot(n, 6) < 0x1_0000;
    assert Quot(n, 7) < 0x1_00;
  }

  lemma {:induction false} QuotSame(m: nat, n: nat, i: nat, j: nat)
    requires i <= j && Quot(m, i) == Quot(n, i)
    ensures Quot(m, j) == Quot(n, j)
  {
    if i < j { QuotSame(m, n, i, j - 1); }
  }

  /** `tmp += *p` on a 32-bit `tmp`. */
  function Sum32(tmp: nat, b: nat): nat {
    (tmp + b) % 0x1_0000_0000
  }

  function LowByte(x: nat): byte {
    x % 256
  }

  function Carry(x: nat): nat {
    x / 256
  }

  /** What the count becomes: the sum, unless adding the low-order byte wraps, which loses 2^32. */
  function Counted(n: nat, c: nat): nat
    requires c < 0x1_0000_0000
  {
    if n % 256 + c < 0x1_0000_0000 then n + c else n + c - 0x1_0000_0000
  }

  /** The low-order byte of the sum. */
  lemma FirstStep(n: nat, c: nat)
    requires c < 0x1_0000_0000
    ensures LowByte(Sum32(c, Digit(n, 0))) == Digit(Counted(n, c), 0)
    ensures Carry(Sum32(c, Digit(n, 0))) == Quot(Counted(n, c), 1) - Quot(n, 1) < 0x100_0000
  {
    var m, b := Counted(n, c), n % 256;
    assert Quot(n, 0) == n && Quot(m, 0) == m && Digit(n, 0) == b;
    assert Quot(n, 1) == n / 256 && Quot(m, 1) == m / 256;
    assert Sum32(c, b) == m - 256 * (n / 256);
  }

  /** Another byte of the sum: what stays, and what is carried on; no further sum wraps. */
  lemma CarryStep(n: nat, m: nat, p: nat, tmp: nat, b: nat)
    requires tmp == Quot(m, p) - Quot(n, p) && b == Digit(n, p) && tmp < 0x100_0000
    ensures LowByte(Sum32(tmp, b)) == Digit(m, p)
    ensures Carry(Sum32(tmp, b)) == Quot(m, p + 1) - Quot(n, p + 1) < 0x100_0000
  {
    var q := Quot(n, p) / 256;
    assert tmp + b < 0x1_0000_0000 && Sum32(tmp, b) == tmp + b;
    assert tmp + b == Quot(m, p) - 256 * q;
  }

  lemma NothingCounted(n: nat)
    ensures Counted(n, 0) == n
  {
  }

  /** The carry loop of `MD4Update`, in 32-bit arithmetic. */
  method AddCount(count: array<byte>, c: nat, ghost n: nat)
    requires c < 0x1_0000_0000 && Holds(count, n) && Counted(n, c) < 0x1_0000_0000_0000_0000
    modifies count
    ensures Holds(count, Counted(n, c))
  {
    hide Quot, Digit, Sum32, LowByte, Carry, Counted;
    ghost var m := Counted(n, c);
    NothingCounted(n);
    FirstStep(n, c);
    QuotEight(m);
    var tmp: nat, p := c, 0;
    while tmp != 0
      invariant 0 <= p <= 8
      invariant if p == 0 then tmp == c else tmp == Quot(m, p) - Quot(n, p) < 0x100_0000
      invariant forall i :: 0 <= i < p ==> count[i] == Digit(m, i)
      invariant forall i :: p <= i < 8 ==> count[i] == Digit(n, i)
      decreases 8 - p
    {
      if p > 0 { CarryStep(n, m, p, tmp, count[p]); }
      tmp := Sum32(tmp, count[p]);
      count[p] := LowByte(tmp);
      tmp := Carry(tmp);
      p := p + 1;
    }
    forall i | p <= i < 8
      ensures Digit(n, i) == Digit(m, i)
    {
      if p > 0 { SameDigit(n, m, p, i); }
    }
  }

  lemma SameDigit(m: nat, n: nat, p: nat, i: nat)
    requires p <= i && Quot(m, p) == Quot(n, p)
    ensures Digit(m, i) == Digit(n, i)
  {
    QuotSame(m, n, p, i);
  }

  // ---------------------------------------------------------------- the last block

  /** The padding bit as the source puts it in: `1 << (7 - n)`, and all below it cleared. */
  function PadAt(x: octet, n: nat): octet
    requires n < 8
  {
    var mask: octet := 1 << (7 - n);
    (x | mask) & !(mask - 1)
  }

  lemma PadEnds(x: octet, n: nat)
    requires n < 8
    ensures PadAt(x, n) == Ended(x, n)
  {
    MaskShift(n);
    hide Mask;
  }

  lemma MaskShift(n: nat)
    requires n < 8
    ensures (1 as octet) << (7 - n) == Mask(n)
  {}

  /** `XX`: the bytes of the rest, the padding bit, and zeros. One byte too many is read when `n` is a multiple of 8. */
  method Fill(x: seq<octet>, n: nat) returns (xx: array<octet>)
    requires n < 512 && n <= 8 * |x|
    ensures fresh(xx) && xx.Length == 64
    ensures forall j :: 0 <= j < 64 && 8 * j + 8 <= |Tail(Bits(x, n))| ==> xx[j] == OctetAt(Tail(Bits(x, n)), j)
    ensures forall j :: n / 8 < j < 64 ==> xx[j] == 0
  {
    hide Tail, OctetAt, Bits, Ended, PadAt;
    xx := new octet[64];
    var last, bit := n / 8, n % 8;
    var beyond: octet := *;
    var y := if last < |x| then x[last] else beyond;
    var i := 0;
    while i < last
      invariant 0 <= i <= last
      invariant forall j :: 0 <= j < i ==> xx[j] == x[j]
    {
      xx[i] := x[i];
      i := i + 1;
    }
    xx[last] := y;
    i := last + 1;
    while i < 64
      invariant last + 1 <= i <= 64
      invariant forall j :: 0 <= j < last ==> xx[j] == x[j]
      invariant xx[last] == y
      invariant forall j :: last < j < i ==> xx[j] == 0
    {
      xx[i] := 0;
      i := i + 1;
    }
    PadEnds(y, bit);
    xx[last] := PadAt(xx[last], bit);
    forall j | 0 <= j < 64 && 8 * j + 8 <= |Tail(Bits(x, n))|
      ensures xx[j] == OctetAt(Tail(Bits(x, n)), j)
    {
      TailOctet(x, n, y, j);
    }
  }

  /** The count at the end of a block. */
  method PutCount(xx: array<octet>, count: array<byte>, ghost n: nat)
    requires xx.Length == 64 && Holds(count, n)
    modifies xx
    ensures xx[..] == old(xx[..56]) + LengthOctets(n)
  {
    var i := 0;
    while i < 8
      invariant 0 <= i <= 8
      invariant forall j :: 0 <= j < 56 ==> xx[j] == old(xx[j])
      invariant forall j :: 0 <= j < i ==> xx[56 + j] == LengthOctets(n)[j]
    {
      xx[56 + i] := count[i] as octet;
      i := i + 1;
    }
    assert xx[..] == xx[..56] + xx[56..];
  }

  // ---------------------------------------------------------------- closing

  /** The digest, from the state after the whole blocks and the padded rest. */
  lemma DigestOfRest(bits: Bitstring, rest: Bitstring)
    requires Whole(bits)
    ensures Digest(bits + rest) == Chain(Chain(INITIAL, Pack(bits)), Pack(Tail(rest)) + LengthOctets(|bits| + |rest|))
  {
    hide Chain, Pack, Tail, LengthOctets;
    var l := LengthOctets(|bits| + |rest|);
    TailOfRest(bits, rest);
    PackConcat(bits, Tail(rest));
    assert Pack(bits) + Pack(Tail(rest)) + l == Pack(bits) + (Pack(Tail(rest)) + l);
    ChainConcat(INITIAL, Pack(bits), Pack(Tail(rest)) + l);
  }

  lemma ChainTwo(st: State, first: seq<octet>, second: seq<octet>)
    requires |first| == 64 && |second| == 64
    ensures Chain(st, first + second) == Compress(Compress(st, first), second)
  {
    hide Chain, Compress;
    ChainConcat(st, first, second);
    ChainBlock(st, first);
    ChainBlock(Compress(st, first), second);
  }

  /** The padded rest of at most 447 bits leaves room for the count in its block. */
  lemma ShortTail(x: seq<octet>, n: nat, block: seq<octet>)
    requires n <= 447 && n <= 8 * |x| && |block| == 64
    requires forall j :: 0 <= j < 64 && 8 * j + 8 <= |Tail(Bits(x, n))| ==> block[j] == OctetAt(Tail(Bits(x, n)), j)
    ensures block[..56] == Pack(Tail(Bits(x, n)))
  {
    TailLength(n);
    hide OctetAt, Bits, PadZeros;
  }

  /** A longer one fills its block and is zero in the 56 bytes after it. */
  lemma LongTail(x: seq<octet>, n: nat, block: seq<octet>)
    requires 447 < n < 512 && n <= 8 * |x| && |block| == 64
    requires forall j :: 0 <= j < 64 && 8 * j + 8 <= |Tail(Bits(x, n))| ==> block[j] == OctetAt(Tail(Bits(x, n)), j)
    ensures Pack(Tail(Bits(x, n))) == block + seq(56, _ => 0)
  {
    TailLength(n);
    var t := Tail(Bits(x, n));
    assert |t| == 960;
    hide OctetAt, Bits, PadZeros, Tail, Ended;
    forall j | 64 <= j < 120
      ensures OctetAt(t, j) == 0
    {
      TailOctet(x, n, if n % 8 == 0 then 0 else x[n / 8], j);
    }
  }

  lemma Absorb(bits: Bitstring, x: seq<octet>)
    requires Whole(bits) && |x| >= 64 && Whole(bits + Bits(x, 512))
    ensures Compress(Chain(INITIAL, Pack(bits)), x[..64]) == Chain(INITIAL, Pack(bits + Bits(x, 512)))
  {
    hide Chain, Compress, Pack, Bits;
    PackConcat(bits, Bits(x, 512));
    PackBits(x, 64);
    ChainConcat(INITIAL, Pack(bits), x[..64]);
    ChainBlock(Chain(INITIAL, Pack(bits)), x[..64]);
  }

  // ---------------------------------------------------------------- the context

  datatype Status = Success | AlreadyDone | IllegalCount

  class Context {
    const buffer: array<word>
    const count: array<byte>
    var done: bool

    ghost predicate Shape() {
      buffer.Length == 4 && count.Length == 8
    }

    ghost function Now(): State
      requires Shape()
      reads buffer
    {
      State(buffer[0], buffer[1], buffer[2], buffer[3])
    }

    /** So far the context has taken in these bits, all in whole blocks. */
    ghost predicate Absorbed(bits: Bitstring)
      reads this, buffer, count
    {
      Shape() && !done && Whole(bits) && Now() == Chain(INITIAL, Pack(bits)) && Holds(count, |bits|)
    }

    /** The context is closed and holds the digest of these bits. */
    ghost predicate Closed(bits: Bitstring)
      reads this, buffer
    {
      Shape() && done && Now() == Digest(bits)
    }

    lemma StillOpen(bits: Bitstring)
      requires Absorbed(bits)
      ensures Shape() && !done
    {}

    constructor ()
      ensures Shape() && fresh(buffer) && fresh(count)
    {
      buffer := new word[4](_ => W(0));
      count := new byte[8];
      done := false;
    }

    method Init()
      requires Shape()
      modifies this, buffer, count
      ensures Absorbed([])
    {
      hide Quot, Compress;
      buffer[0] := W(0x67452301);
      buffer[1] := W(0xefcdab89);
      buffer[2] := W(0x98badcfe);
      buffer[3] := W(0x10325476);
      var i := 0;
      while i < 8
        invariant 0 <= i <= 8
        invariant Now() == INITIAL
        invariant forall j :: 0 <= j < i ==> count[j] == 0
      {
        count[i] := 0;
        i := i + 1;
      }
      done := false;
      forall j | 0 <= j < 8
        ensures Digit(0, j) == 0
      {
        ZeroDigit(j);
      }
    }

    /** The last, short update: one block if the count fits behind the padding bit, two otherwise. */
    method Close(x: seq<octet>, n: nat, ghost bits: Bitstring)
      requires Shape() && !done && Whole(bits) && Now() == Chain(INITIAL, Pack(bits)) && Holds(count, |bits| + n)
      requires n < 512 && n <= 8 * |x|
      modifies this, buffer
      ensures Closed(bits + Bits(x, n))
    {
      hide Compress, Chain, Pack, Tail, Bits, Digest, LengthOctets, Quot, OctetAt;
      ghost var st, padded, length := Now(), Pack(Tail(Bits(x, n))), LengthOctets(|bits| + n);
      DigestOfRest(bits, Bits(x, n));
      var xx := Fill(x, n);
      if n / 8 <= 55 {
        ShortTail(x, n, xx[..]);
        assert xx[..][..56] == xx[..56];
        PutCount(xx, count, |bits| + n);
        ChainBlock(st, xx[..]);
        Block(buffer, xx);
      } else {
        LongTail(x, n, xx[..]);
        ghost var first := xx[..];
        Block(buffer, xx);
        var i := 0;
        while i < 56
          invariant 0 <= i <= 56
          invariant Now() == Compress(st, first)
          invariant forall j :: 0 <= j < i ==> xx[j] == 0
        {
          xx[i] := 0;
          i := i + 1;
        }
        assert xx[..56] == seq(56, _ => 0);
        PutCount(xx, count, |bits| + n);
        assert padded + length == first + xx[..];
        ChainTwo(st, first, xx[..]);
        Block(buffer, xx);
      }
      done := true;
    }

    /**
     `MD4Update` with `n` bits of `x`. A count above 512 is refused, but only after it went into the bit count.
     */
    method Update(x: seq<octet>, n: nat, ghost bits: Bitstring) returns (status: Status)
      requires n < 0x1_0000_0000 && (n <= 512 ==> n <= 8 * |x|)
      requires done || (Absorbed(bits) && |bits| + n < 0x1_0000_0000_0000_0000)
      requires Shape()
      modifies this, buffer, count
      ensures old(done) ==> done && Now() == old(Now()) && status == if n == 0 then Success else AlreadyDone
      ensures !old(done) && n == 512 ==> status == Success && Absorbed(bits + Bits(x, 512))
      ensures !old(done) && n < 512 ==> status == Success && Closed(bits + Bits(x, n))
      ensures !old(done) && n > 512 ==>
                status == IllegalCount && !done && Now() == old(Now()) && Holds(count, |bits| + n)
    {
      hide Compress, Chain, Pack, Bits, Digest, Holds;
      if n == 0 && done {
        return Success;
      }
      if done {
        return AlreadyDone;
      }
      WholeCount(bits);
      AddCount(count, n, |bits|);
      if n == 512 {
        var block := new octet[64](i requires 0 <= i < 64 => x[i]);
        assert block[..] == x[..64];
        WholeStep(bits, Bits(x, 512));
        Absorb(bits, x);
        Block(buffer, block);
      } else if n > 512 {
        return IllegalCount;
      } else {
        Close(x, n, bits);
      }
      return Success;
    }

    /** `MD4Final`: a closing update of no bits, ignored if the context is closed, then the words byte by byte. */
    method Final(buf: array<octet>, ghost bits: Bitstring)
      requires Absorbed(bits) || Closed(bits)
      requires |bits| < 0x1_0000_0000_0000_0000 && buf.Length == 16
      modifies this, buffer, count, buf
      ensures Closed(bits) && buf[..] == Output(Digest(bits))
    {
      hide Compress, Chain, Pack, Digest, Holds, LowFirst;
      assert Bits([], 0) == [] && bits + [] == bits;
      var status := Update([], 0, bits);
      var i := 0;
      while i < 4
        invariant 0 <= i <= 4
        invariant Closed(bits)
        invariant forall k :: 0 <= k < i ==> buf[4 * k..4 * k + 4] == LowFirst(buffer[k])
      {
        PutWord(buf, 4 * i, buffer[i]);
        i := i + 1;
      }
    }
  }

  lemma DownOne(v: bv32, j: nat)
    requires j < 4
    ensures Down(Down(v, j), 1) == Down(v, j + 1) && Down(v, 0) == v
  {
    assert j == 0 || j == 1 || j == 2 || j == 3;
  }

  method PutWord(buf: array<octet>, at: nat, word: word)
    requires at + 4 <= buf.Length
    modifies buf
    ensures buf[at..at + 4] == LowFirst(word)
    ensures forall k :: 0 <= k < buf.Length && !(at <= k < at + 4) ==> buf[k] == old(buf[k])
  {
    hide Down, Low;
    var w, j := word.v, 0;
    DownOne(w, 0);
    while j < 4
      invariant 0 <= j <= 4 && w == Down(word.v, j)
      invariant forall k :: 0 <= k < j ==> buf[at + k] == Low(Down(word.v, k))
      invariant forall k :: 0 <= k < buf.Length && !(at <= k < at + 4) ==> buf[k] == old(buf[k])
    {
      DownOne(word.v, j);
      buf[at + j] := Low(w);
      w := Down(w, 1);
      j := j + 1;
    }
  }

  /** After whole blocks the low byte of the count is zero. */
  lemma WholeCount(bits: Bitstring)
    requires Whole(bits)
    ensures |bits| % 256 == 0
  {
    assert |bits| == 256 * (2 * (|bits| / 512));
  }

  lemma {:induction false} ZeroDigit(j: nat)
    ensures Quot(0, j) == 0 && Digit(0, j) == 0
  {
    if j > 0 { ZeroDigit(j - 1); }
  }

  // ---------------------------------------------------------------- a whole computation

  /** The bits of whole blocks, one after the other. */
  function Joined(blocks: seq<seq<octet>>): (r: Bitstring)
    requires forall k :: 0 <= k < |blocks| ==> |blocks[k]| == 64
    ensures |r| == 512 * |blocks|
  {
    if blocks == [] then [] else Joined(blocks[..|blocks| - 1]) + Bits(blocks[|blocks| - 1], 512)
  }

  lemma JoinedNone()
    ensures Joined([]) == []
  {}

  lemma JoinedNext(blocks: seq<seq<octet>>, k: nat)
    requires k < |blocks| && forall i :: 0 <= i < |blocks| ==> |blocks[i]| == 64
    ensures Joined(blocks[..k + 1]) == Joined(blocks[..k]) + Bits(blocks[k], 512)
  {
    hide Bits;
    assert blocks[..k + 1][..k] == blocks[..k];
  }

  /** Full-block updates, one short update of `n` bits, and the result: MD4 of the whole bit string. */
  method Hash(context: Context, blocks: seq<seq<octet>>, last: seq<octet>, n: nat) returns (digest: array<octet>)
    requires context.Shape()
    requires forall k :: 0 <= k < |blocks| ==> |blocks[k]| == 64
    requires n < 512 && n <= 8 * |last| && 512 * |blocks| + n < 0x1_0000_0000_0000_0000
    modifies context, context.buffer, context.count
    ensures fresh(digest) && digest[..] == Output(Digest(Joined(blocks) + Bits(last, n)))
  {
    hide Bits, Output, Digest, Joined, Context.Absorbed, Context.Closed;
    JoinedNone();
    context.Init();
    var k := 0;
    while k < |blocks|
      invariant 0 <= k <= |blocks|
      invariant context.Absorbed(Joined(blocks[..k]))
    {
      JoinedNext(blocks, k);
      context.StillOpen(Joined(blocks[..k]));
      var status := context.Update(blocks[k], 512, Joined(blocks[..k]));
      k := k + 1;
    }
    assert blocks[..k] == blocks;
    context.StillOpen(Joined(blocks));
    var status := context.Update(last, n, Joined(blocks));
    digest := new octet[16];
    context.Final(digest, Joined(blocks) + Bits(last, n));
  }
}
