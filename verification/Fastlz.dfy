/** The public entry points of fastlz.c and the end-to-end round trip through both of them. */
module Fastlz {
  import opened Bytes
  import opened LzFormat
  import LzCompress
  import LzDecompress

  /** The level the block itself is marked with: blocks of fewer than four bytes carry no tag. */
  function Mark(level: int, input: seq<byte>): int {
    if |input| < 4 then 1 else level
  }

  /** `fastlz_compress`: level 1 for blocks under 64 KiB, level 2 otherwise. */
  method CompressAuto(input: seq<byte>, output: array<byte>, slot: nat -> nat) returns (n: nat)
    requires |input| < 0x8000_0000
    requires output.Length >= |input| + |input| / 32 + 1
    requires forall p :: slot(p) < LzCompress.HASH_SIZE
    modifies output
    ensures n <= |input| + |input| / 32 + 1 && (n == 0 <==> input == [])
    ensures forall i :: |input| + |input| / 32 + 1 <= i < output.Length ==> output[i] == old(output[i])
    ensures input != [] ==> Encodes(if |input| < 65536 then 1 else 2, output[..n], input)
  {
    if |input| < 65536 {
      n := LzCompress.Compress(1, input, output, slot);
    } else {
      n := LzCompress.Compress(2, input, output, slot);
    }
  }

  /** `fastlz_compress_level`: 0 for an unknown level. */
  method CompressLevel(level: int, input: seq<byte>, output: array<byte>, slot: nat -> nat) returns (n: nat)
    requires |input| < 0x8000_0000
    requires output.Length >= |input| + |input| / 32 + 1
    requires forall p :: slot(p) < LzCompress.HASH_SIZE
    modifies output
    ensures n <= |input| + |input| / 32 + 1
    ensures forall i :: |input| + |input| / 32 + 1 <= i < output.Length ==> output[i] == old(output[i])
    ensures n == 0 <==> input == [] || (level != 1 && level != 2)
    ensures n != 0 ==> Encodes(Mark(level, input), output[..n], input)
    ensures level != 1 && level != 2 ==> output[..] == old(output[..])
  {
    if level == 1 || level == 2 {
      n := LzCompress.Compress(level, input, output, slot);
    } else {
      n := 0;
    }
  }

  /** `fastlz_decompress`: dispatch on the tag of the first byte. */
  method Decompress(mem: seq<byte>, length: nat, output: array<byte>, maxout: nat, wide: bool)
    returns (r: LzDecompress.Outcome)
    requires length <= |mem| && maxout <= output.Length
    modifies output
    ensures LzDecompress.Agrees(DecompressedAny(mem, length, maxout), r, output[..maxout])
    ensures forall i :: maxout <= i < output.Length ==> output[i] == old(output[i])
  {
    if mem == [] { return LzDecompress.OverRun; }
    var level := mem[0] / 32 + 1;
    if level == 1 || level == 2 {
      r := LzDecompress.Decompress(level, mem, length, output, maxout, wide);
    } else {
      r := LzDecompress.Size(0);
    }
  }

  /** Compressing any non-empty input at either level and decompressing the block gives the input back. */
  method CompressThenDecompress(level: int, input: seq<byte>, slot: nat -> nat, wide: bool, room: nat)
    returns (block: seq<byte>, text: seq<byte>)
    requires level == 1 || level == 2
    requires 0 < |input| < 0x8000_0000 && |input| <= room
    requires forall p :: slot(p) < LzCompress.HASH_SIZE
    ensures text == input
    ensures block != [] && block[0] / 32 + 1 == Mark(level, input)
    ensures |block| <= |input| + |input| / 32 + 1
  {
    var packed := new byte[|input| + |input| / 32 + 1];
    var n := CompressLevel(level, input, packed, slot);
    block := packed[..n];
    RoundTrip(Mark(level, input), block, input, block, room);
    var unpacked := new byte[room];
    var r := Decompress(block, n, unpacked, room, wide);
    text := unpacked[..r.n];
  }
}
