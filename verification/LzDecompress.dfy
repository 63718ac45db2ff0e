/**
 `FASTLZ_DECOMPRESSOR` and `fastlz_decompress` of fastlz.c, proved to compute the decoding function for
 every memory content: no write lands at or past `maxout` and copies read only bytes already produced.
 */
module LzDecompress {
  import opened Bytes
  import opened LzFormat

  /** Copying one byte more. */
  lemma {:induction false} CopySnoc(s: seq<byte>, dist: nat, n: nat)
    requires 1 <= dist <= |s|
    ensures Copy(s, dist, n + 1) == Copy(s, dist, n) + [Copy(s, dist, n)[|s| + n - dist]]
    decreases n
  {
    if n > 0 {
      var s' := s + [s[|s| - dist]];
      CopySnoc(s', dist, n - 1);
    }
  }

  /** Two bytes more: at distance two or more neither depends on the other. */
  lemma CopyWord(s: seq<byte>, dist: nat, n: nat)
    requires 2 <= dist <= |s|
    ensures var c := Copy(s, dist, n);
            Copy(s, dist, n + 2) == c + [c[|s| + n - dist], c[|s| + n + 1 - dist]]
  {
    hide Copy;
    CopySnoc(s, dist, n);
    CopySnoc(s, dist, n + 1);
  }

  /** A match at distance one: the last byte over and over. */
  method RunFill(output: array<byte>, op: nat, n: nat)
    requires 1 <= op && op + n <= output.Length
    modifies output
    ensures output[..op + n] == Copy(old(output[..op]), 1, n)
    ensures forall i :: op + n <= i < output.Length ==> output[i] == old(output[i])
  {
    ghost var s := output[..op];
    var b := output[op - 1];
    var k := 0;
    while k < n
      invariant 0 <= k <= n && output[op + k - 1] == b
      invariant output[..op + k] == Copy(s, 1, k)
      invariant forall i :: op + k <= i < output.Length ==> output[i] == old(output[i])
    {
      CopySnoc(s, 1, k);
      output[op + k] := b;
      k := k + 1;
    }
  }

  /** Byte-at-a-time copy, with `op - |s|` bytes copied after `s` already. */
  method ByteCopy(output: array<byte>, op: nat, dist: nat, n: nat, ghost s: seq<byte>)
    requires 1 <= dist <= |s| <= op && op + n <= output.Length
    requires output[..op] == Copy(s, dist, op - |s|)
    modifies output
    ensures output[..op + n] == Copy(s, dist, op + n - |s|)
    ensures forall i :: op + n <= i < output.Length ==> output[i] == old(output[i])
  {
    hide Copy;
    var q := op;
    while q < op + n
      invariant op <= q <= op + n
      invariant output[..q] == Copy(s, dist, q - |s|)
      invariant forall i :: q <= i < output.Length ==> output[i] == old(output[i])
    {
      CopySnoc(s, dist, q - |s|);
      ghost var c := output[..q];
      assert c[q - dist] == output[q - dist];
      output[q] := output[q - dist];
      q := q + 1;
      assert output[..q] == c + [c[q - 1 - dist]];
    }
  }

  /** Two bytes at a time: both of them are read before either is written. */
  method WordCopy(output: array<byte>, op: nat, dist: nat, words: nat, ghost s: seq<byte>)
    requires 2 <= dist <= |s| <= op && op + 2 * words <= output.Length
    requires output[..op] == Copy(s, dist, op - |s|)
    modifies output
    ensures output[..op + 2 * words] == Copy(s, dist, op + 2 * words - |s|)
    ensures forall i :: op + 2 * words <= i < output.Length ==> output[i] == old(output[i])
  {
    hide Copy;
    var q, len := op, words;
    while len > 0
      invariant 0 <= len <= words && q == op + 2 * (words - len)
      invariant output[..q] == Copy(s, dist, q - |s|)
      invariant forall i :: q <= i < output.Length ==> output[i] == old(output[i])
    {
      CopyWord(s, dist, q - |s|);
      ghost var c := output[..q];
      assert c[q - dist] == output[q - dist] && c[q + 1 - dist] == output[q + 1 - dist];
      output[q], output[q + 1] := output[q - dist], output[q + 1 - dist];
      q := q + 2;
      assert output[..q] == c + [c[q - 2 - dist], c[q - 1 - dist]];
      len := len - 1;
    }
  }

  /** A whole match, on machines that copy words (`wide`) and on those that copy bytes. */
  method CopyMatch(output: array<byte>, op: nat, dist: nat, len: nat, wide: bool)
    requires 1 <= dist <= op && 3 <= len && op + len <= output.Length
    modifies output
    ensures output[..op + len] == Copy(old(output[..op]), dist, len)
    ensures forall i :: op + len <= i < output.Length ==> output[i] == old(output[i])
  {
    hide Copy;
    if dist == 1 {
      RunFill(output, op, len);
      return;
    }
    ghost var s := output[..op];
    CopyNone(s, dist);
    ByteCopy(output, op, dist, 3, s);
    var q, rest := op + 3, len - 3;
    if wide {
      if rest % 2 == 1 {
        ByteCopy(output, q, dist, 1, s);
        q, rest := q + 1, rest - 1;
      }
      WordCopy(output, q, dist, rest / 2, s);
    } else {
      ByteCopy(output, q, dist, rest, s);
    }
  }

  lemma CopyNone(s: seq<byte>, dist: nat)
    requires 1 <= dist <= |s|
    ensures Copy(s, dist, 0) == s
  {
  }

  /** The C result: bytes written (0 on error), or a read past the readable memory on the way. */
  datatype Outcome = Size(n: nat) | OverRun

  ghost predicate Agrees(d: Decoded, r: Outcome, output: seq<byte>) {
    match d
    case Done(out) => r == Size(|out|) && out <= output && 0 < |out|
    case Reject => r == Size(0)
    case OverRead => r == OverRun
  }

  /** Reads the length and distance of a match, moving the cursor. */
  method ReadMatch(level: int, mem: seq<byte>, ip: nat, ctrl: byte) returns (f: Fetched)
    requires ip <= |mem| && 32 <= ctrl
    ensures f == Fetch(level, mem, ip, ctrl)
  {
    var at, len := ip, ctrl / 32 - 1;
    if len == 7 - 1 {
      if level == 1 {
        if at == |mem| { return NoFetch; }
        len := len + mem[at];
        at := at + 1;
      } else {
        var more := true;
        while more
          invariant ip <= at <= |mem| && 0 <= len
          invariant more ==> ReadChain(mem, at, len) == ReadChain(mem, ip, 6)
          invariant !more ==> ReadChain(mem, ip, 6) == Length(len, at)
          decreases |mem| - at, more
        {
          if at == |mem| { return NoFetch; }
          var code := mem[at];
          at := at + 1;
          len := (len + code) % TWO_32;
          more := code == 255;
        }
      }
    }
    if at == |mem| { return NoFetch; }
    var code: nat, ofs := mem[at], ctrl % 32 * 256;
    at := at + 1;
    if level != 1 && code == 255 && ofs == 31 * 256 {
      if at + 2 > |mem| { return NoFetch; }
      var hi: nat, lo: nat := mem[at], mem[at + 1];
      return Fetched(len, hi * 256 + lo + 8191 + 1, at + 2);
    }
    return Fetched(len, ofs + code + 1, at);
  }

  method Decompress(level: int, mem: seq<byte>, length: nat, output: array<byte>, maxout: nat, wide: bool)
    returns (r: Outcome)
    requires length <= |mem| && maxout <= output.Length
    modifies output
    ensures Agrees(Decompressed(level, mem, length, maxout), r, output[..maxout])
    ensures forall i :: maxout <= i < output.Length ==> output[i] == old(output[i])
  {
    hide Copy, Fetch, Decode;
    ghost var goal := Decompressed(level, mem, length, maxout);
    if mem == [] { return OverRun; }
    var ip, op, ctrl: byte, more := 1, 0, mem[0] % 32, true;
    assert output[..0] == [];
    while more
      invariant 1 <= ip <= |mem| && 0 <= op <= maxout
      invariant more ==> Decode(level, mem, length, ip, ctrl, output[..op], maxout) == goal
      invariant !more ==> goal == Done(output[..op]) && 0 < op
      invariant forall i :: maxout <= i < output.Length ==> output[i] == old(output[i])
      decreases |mem| - ip, more
    {
      DecodeUnfold(level, mem, length, ip, ctrl, output[..op], maxout);
      if ctrl >= 32 {
        var f := ReadMatch(level, mem, ip, ctrl);
        if f.NoFetch? { return OverRun; }
        if op + f.len + 3 > maxout { return Size(0); }
        if f.dist > op { return Size(0); }
        CopyMatch(output, op, f.dist, f.len + 3, wide);
        op := op + f.len + 3;
        ip := f.ip;
      } else {
        var n := ctrl + 1;
        if op + n > maxout { return Size(0); }
        if ip + n > length { return Size(0); }
        CopyLiteral(mem, ip, output, op, n);
        op := op + n;
        ip := ip + n;
      }
      more := ip < length;
      if more {
        ctrl := mem[ip];
        ip := ip + 1;
      }
    }
    r := Size(op);
  }

  /** One turn of the decoder. */
  lemma DecodeUnfold(level: int, mem: seq<byte>, length: nat, ip: nat, ctrl: byte, out: seq<byte>, maxout: nat)
    requires length <= |mem| && ip <= |mem|
    ensures Decode(level, mem, length, ip, ctrl, out, maxout)
            == if ctrl >= 32 then
                 var f := Fetch(level, mem, ip, ctrl);
                 if f.NoFetch? then OverRead
                 else if |out| + f.len + 3 > maxout || f.dist > |out| then Reject
                 else Continue(level, mem, length, ip, f.ip, Copy(out, f.dist, f.len + 3), maxout)
               else if |out| + ctrl + 1 > maxout || ip + ctrl + 1 > length then Reject
               else Continue(level, mem, length, ip, ip + ctrl + 1, out + mem[ip..ip + ctrl + 1], maxout)
  {
    hide Copy, Fetch;
  }

  method CopyLiteral(mem: seq<byte>, ip: nat, output: array<byte>, op: nat, n: nat)
    requires ip + n <= |mem| && op + n <= output.Length
    modifies output
    ensures output[..op + n] == old(output[..op]) + mem[ip..ip + n]
    ensures forall i :: op + n <= i < output.Length ==> output[i] == old(output[i])
  {
    var k := 0;
    while k < n
      invariant 0 <= k <= n
      invariant output[..op + k] == old(output[..op]) + mem[ip..ip + k]
      invariant forall i :: op + k <= i < output.Length ==> output[i] == old(output[i])
    {
      output[op + k] := mem[ip + k];
      k := k + 1;
    }
  }
}
