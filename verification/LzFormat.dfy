/**
 The two FastLZ block formats: instructions, their byte encoding, their meaning,
 and the byte-level decoder as a function. The main result is that decoding the
 encoding of any playable instruction list yields what the list describes.
 */
module LzFormat {
  import opened Bytes

  const MAX_COPY := 32
  const MAX_LEN := 264
  const TWO_32 := 0x1_0000_0000

  /** Literal bytes, or a copy of `len` bytes starting `dist` bytes back. */
  datatype Token = Lit(bytes: seq<byte>) | Match(len: nat, dist: nat)

  /** The instructions a level can express. Match lengths are kept in a 32-bit counter. */
  predicate Expressible(level: int, t: Token) {
    match t
    case Lit(b) => 1 <= |b| <= MAX_COPY
    case Match(len, dist) =>
      && 3 <= len < TWO_32
      && 1 <= dist
      && if level == 1 then len <= MAX_LEN && dist <= 8192 else dist <= 8191 + 65536
  }

  /** Length extension of level 2: 255-chained remainder. */
  function Chain(n: nat): seq<byte> {
    if n < 255 then [n] else [255] + Chain(n - 255)
  }

  /** The bytes that extend the three-bit length field when it is saturated. */
  function Extension(level: int, n: nat): seq<byte>
    requires level == 1 ==> n <= MAX_LEN - 2
  {
    if n < 7 then [] else if level == 1 then [n - 7] else Chain(n - 7)
  }

  /** Level 2 has a second form for distances that do not fit 13 bits. */
  predicate Far(level: int, d: nat) {
    level != 1 && d >= 8191
  }

  /** Match length less 2 in the top three bits, high part of the biased distance in the others. */
  function Control(level: int, n: nat, d: nat): byte
    requires 1 <= n && (!Far(level, d) ==> d < 8192)
  {
    (if n < 7 then n else 7) * 32 + (if Far(level, d) then 31 else d / 256)
  }

  function Low(level: int, d: nat): seq<byte>
    requires Far(level, d) ==> d < 8191 + 65536
  {
    if Far(level, d) then [255, (d - 8191) / 256, (d - 8191) % 256] else [d % 256]
  }

  function Ser(level: int, t: Token): (s: seq<byte>)
    requires Expressible(level, t)
    ensures s != []
  {
    match t
    case Lit(b) => [|b| - 1] + b
    case Match(len, dist) =>
      [Control(level, len - 2, dist - 1)] + (Extension(level, len - 2) + Low(level, dist - 1))
  }

  /** The overlapping copy: one byte at a time, each read from `dist` back. */
  function Copy(out: seq<byte>, dist: nat, n: nat): (r: seq<byte>)
    requires 1 <= dist <= |out|
    ensures |r| == |out| + n && out <= r
    decreases n
  {
    if n == 0 then out else Copy(out + [out[|out| - dist]], dist, n - 1)
  }

  predicate Playable(out: seq<byte>, t: Token) {
    t.Match? ==> 1 <= t.dist <= |out|
  }

  function Play(out: seq<byte>, t: Token): (r: seq<byte>)
    requires Playable(out, t)
  {
    match t
    case Lit(b) => out + b
    case Match(len, dist) => Copy(out, dist, len)
  }

  /** A list of instructions that a decoder can carry out from the empty output. */
  ghost predicate Script(level: int, ts: seq<Token>)
    decreases |ts|, 0
  {
    ts != [] ==>
      && ts[0].Lit?
      && Script(level, ts[..|ts| - 1])
      && Expressible(level, ts[|ts| - 1])
      && Playable(Text(level, ts[..|ts| - 1]), ts[|ts| - 1])
  }

  ghost function Text(level: int, ts: seq<Token>): seq<byte>
    requires Script(level, ts)
    decreases |ts|, 1
  {
    if ts == [] then [] else Play(Text(level, ts[..|ts| - 1]), ts[|ts| - 1])
  }

  ghost function Code(level: int, ts: seq<Token>): seq<byte>
    requires Script(level, ts)
  {
    if ts == [] then [] else Code(level, ts[..|ts| - 1]) + Ser(level, ts[|ts| - 1])
  }

  lemma EmptyScript(level: int)
    ensures Script(level, []) && Text(level, []) == [] && Code(level, []) == []
  {
  }

  /** Appending one instruction. */
  lemma ScriptSnoc(level: int, ts: seq<Token>, t: Token)
    requires Script(level, ts) && Expressible(level, t) && Playable(Text(level, ts), t)
    requires ts == [] ==> t.Lit?
    ensures Script(level, ts + [t])
    ensures Text(level, ts + [t]) == Play(Text(level, ts), t)
    ensures Code(level, ts + [t]) == Code(level, ts) + Ser(level, t)
  {
    assert (ts + [t])[..|ts|] == ts;
  }

  // ---------------------------------------------------------------- decoder

  /** `Done`: decoded bytes; `Reject`: the C code returns 0; `OverRead`: a read past readable memory. */
  datatype Decoded = Done(out: seq<byte>) | Reject | OverRead

  /** A length (and the position after it), or a read past readable memory. */
  datatype Length = Length(len: nat, ip: nat) | NoLength

  /** The level 2 length loop, in a 32-bit counter. */
  function ReadChain(mem: seq<byte>, ip: nat, len: nat): (r: Length)
    requires ip <= |mem|
    ensures r.Length? ==> ip < r.ip <= |mem| && r.len < TWO_32
    decreases |mem| - ip
  {
    if ip == |mem| then NoLength
    else
      var l := (len + mem[ip]) % TWO_32;
      if mem[ip] == 255 then ReadChain(mem, ip + 1, l) else Length(l, ip + 1)
  }

  /** Length field minus one of a match, extended when it is saturated. */
  function ReadLength(level: int, mem: seq<byte>, ip: nat, ctrl: byte): (r: Length)
    requires ip <= |mem| && 32 <= ctrl
    ensures r.Length? ==> ip <= r.ip <= |mem|
  {
    var len := ctrl / 32 - 1;
    if len != 6 then Length(len, ip)
    else if level == 1 then
      if ip < |mem| then Length(len + mem[ip], ip + 1) else NoLength
    else ReadChain(mem, ip, len)
  }

  /** Distance of a match (and the position after it). */
  datatype Distance = Distance(dist: nat, ip: nat) | NoDistance

  function ReadDistance(level: int, mem: seq<byte>, ip: nat, high: nat): (r: Distance)
    requires ip <= |mem|
    ensures r.Distance? ==> ip < r.ip <= |mem| && 1 <= r.dist
  {
    if ip == |mem| then NoDistance
    else
      var code: nat := mem[ip];
      if level != 1 && code == 255 && high == 31 then
        if ip + 3 > |mem| then NoDistance
        else
          var hi: nat, lo: nat := mem[ip + 1], mem[ip + 2];
          Distance(hi * 256 + lo + 8191 + 1, ip + 3)
      else Distance(high * 256 + code + 1, ip + 1)
  }

  datatype Fetched = Fetched(len: nat, dist: nat, ip: nat) | NoFetch

  /** A whole match instruction: its length minus 3, its distance and the position after it. */
  function Fetch(level: int, mem: seq<byte>, ip: nat, ctrl: byte): (r: Fetched)
    requires ip <= |mem| && 32 <= ctrl
    ensures r.Fetched? ==> ip < r.ip <= |mem| && 1 <= r.dist
  {
    var l := ReadLength(level, mem, ip, ctrl);
    if l.NoLength? then NoFetch
    else
      var d := ReadDistance(level, mem, l.ip, ctrl % 32);
      if d.NoDistance? then NoFetch else Fetched(l.len, d.dist, d.ip)
  }

  /** The decoding loop from instruction byte `ctrl`, the next byte being `ip`, with `out` already written. */
  function Decode(level: int, mem: seq<byte>, length: nat, ip: nat, ctrl: byte, out: seq<byte>, maxout: nat): Decoded
    requires length <= |mem| && ip <= |mem|
    decreases |mem| - ip
  {
    if ctrl >= 32 then
      var f := Fetch(level, mem, ip, ctrl);
      if f.NoFetch? then OverRead
      else if |out| + f.len + 3 > maxout || f.dist > |out| then Reject
      else Continue(level, mem, length, ip, f.ip, Copy(out, f.dist, f.len + 3), maxout)
    else
      var n := ctrl + 1;
      if |out| + n > maxout || ip + n > length then Reject
      else Continue(level, mem, length, ip, ip + n, out + mem[ip..ip + n], maxout)
  }

  /** Goes on at `next` if that is still inside the block. */
  function Continue(level: int, mem: seq<byte>, length: nat, ghost prev: nat, next: nat, out: seq<byte>,
                    maxout: nat): Decoded
    requires length <= |mem| && prev < next <= |mem|
    decreases |mem| - prev, 0
  {
    if next < length then Decode(level, mem, length, next + 1, mem[next], out, maxout) else Done(out)
  }

  /** `FASTLZ_DECOMPRESSOR`: the tag bits of the first byte are masked off. */
  function Decompressed(level: int, mem: seq<byte>, length: nat, maxout: nat): Decoded
    requires length <= |mem|
  {
    if mem == [] then OverRead else Decode(level, mem, length, 1, mem[0] % 32, [], maxout)
  }

  /** `fastlz_decompress`: the level is in the top three bits of the first byte. */
  function DecompressedAny(mem: seq<byte>, length: nat, maxout: nat): Decoded
    requires length <= |mem|
  {
    if mem == [] then OverRead
    else
      var level := mem[0] / 32 + 1;
      if level == 1 || level == 2 then Decompressed(level, mem, length, maxout) else Reject
  }

  // ---------------------------------------------------------------- safety

  /**
   Whatever the bytes are, the decoder extends what it has written, stays within
   `maxout`, and never accepts without having written something.
   */
  lemma {:induction false} DecodeBounded(level: int, mem: seq<byte>, length: nat, ip: nat, ctrl: byte, out: seq<byte>,
                                         maxout: nat)
    requires length <= |mem| && ip <= |mem|
    ensures var r := Decode(level, mem, length, ip, ctrl, out, maxout);
            r.Done? ==> out < r.out && |r.out| <= maxout
    decreases |mem| - ip
  {
    hide Copy, Fetch;
    if ctrl >= 32 {
      var f := Fetch(level, mem, ip, ctrl);
      if f.Fetched? && |out| + f.len + 3 <= maxout && f.dist <= |out| {
        var out' := Copy(out, f.dist, f.len + 3);
        if f.ip < length { DecodeBounded(level, mem, length, f.ip + 1, mem[f.ip], out', maxout); }
      }
    } else {
      var n := ctrl + 1;
      if |out| + n <= maxout && ip + n <= length && ip + n < length {
        DecodeBounded(level, mem, length, ip + n + 1, mem[ip + n], out + mem[ip..ip + n], maxout);
      }
    }
  }

  // ---------------------------------------------------------------- round trip

  lemma {:induction false} ChainRead(mem: seq<byte>, ip: nat, n: nat, len: nat)
    requires ip + |Chain(n)| <= |mem| && mem[ip..ip + |Chain(n)|] == Chain(n)
    requires len + n < TWO_32
    ensures ReadChain(mem, ip, len) == Length(len + n, ip + |Chain(n)|)
    decreases n
  {
    assert mem[ip] == Chain(n)[0];
    if n >= 255 {
      assert mem[ip + 1..ip + |Chain(n)|] == Chain(n)[1..] == Chain(n - 255);
      ChainRead(mem, ip + 1, n - 255, len + 255);
    }
  }

  lemma SplitSlice(mem: seq<byte>, ip: nat, a: seq<byte>, b: seq<byte>)
    requires ip + |a| + |b| <= |mem| && mem[ip..ip + |a| + |b|] == a + b
    ensures mem[ip..ip + |a|] == a && mem[ip + |a|..ip + |a| + |b|] == b
  {
    var s := mem[ip..ip + |a| + |b|];
    assert s[..|a|] == mem[ip..ip + |a|] && s[|a|..] == mem[ip + |a|..ip + |a| + |b|];
  }

  lemma LengthRead(level: int, mem: seq<byte>, ip: nat, n: nat, ctrl: byte)
    requires 1 <= n < TWO_32 - 2 && (level == 1 ==> n <= MAX_LEN - 2)
    requires ctrl / 32 == if n < 7 then n else 7
    requires ip + |Extension(level, n)| <= |mem|
    requires mem[ip..ip + |Extension(level, n)|] == Extension(level, n)
    ensures ReadLength(level, mem, ip, ctrl) == Length(n - 1, ip + |Extension(level, n)|)
  {
    if n >= 7 {
      assert mem[ip] == Extension(level, n)[0];
      if level != 1 { ChainRead(mem, ip, n - 7, 6); }
    }
  }

  lemma DistanceRead(level: int, mem: seq<byte>, ip: nat, d: nat)
    requires if Far(level, d) then d < 8191 + 65536 else d < 8192
    requires ip + |Low(level, d)| <= |mem| && mem[ip..ip + |Low(level, d)|] == Low(level, d)
    ensures ReadDistance(level, mem, ip, if Far(level, d) then 31 else d / 256) == Distance(d + 1, ip + |Low(level, d)|)
  {
    var low := Low(level, d);
    assert forall i :: 0 <= i < |low| ==> mem[ip..ip + |low|][i] == low[i];
    assert mem[ip] == low[0];
    if Far(level, d) {
      assert mem[ip + 1] == low[1] && mem[ip + 2] == low[2];
    }
  }

  lemma ControlFields(level: int, n: nat, d: nat)
    requires 1 <= n && (!Far(level, d) ==> d < 8192)
    ensures Control(level, n, d) >= 32
    ensures Control(level, n, d) / 32 == if n < 7 then n else 7
    ensures Control(level, n, d) % 32 == if Far(level, d) then 31 else d / 256
  {
  }

  /** A serialised match is fetched back. */
  lemma FetchSer(level: int, mem: seq<byte>, ip: nat, t: Token)
    requires t.Match? && Expressible(level, t)
    requires ip + |Ser(level, t)| - 1 <= |mem| && mem[ip..ip + |Ser(level, t)| - 1] == Ser(level, t)[1..]
    ensures Ser(level, t)[0] >= 32
    ensures Fetch(level, mem, ip, Ser(level, t)[0]) == Fetched(t.len - 3, t.dist, ip + |Ser(level, t)| - 1)
  {
    hide ReadLength, ReadDistance, Extension, Low, Control, Ser;
    var n, d := t.len - 2, t.dist - 1;
    var ext, low := Extension(level, n), Low(level, d);
    SerMatch(level, n, d);
    SplitSlice(mem, ip, ext, low);
    ControlFields(level, n, d);
    LengthRead(level, mem, ip, n, Ser(level, t)[0]);
    DistanceRead(level, mem, ip + |ext|, d);
  }

  /** The three fields of a match; `n` is the length less 2, `d` is the distance less 1. */
  lemma SerMatch(level: int, n: nat, d: nat)
    requires Expressible(level, Match(n + 2, d + 1))
    ensures var s := Ser(level, Match(n + 2, d + 1));
            && s == [Control(level, n, d)] + (Extension(level, n) + Low(level, d))
            && s[0] == Control(level, n, d) && s[1..] == Extension(level, n) + Low(level, d)
  {
    hide Extension, Low, Control;
    var fields := Extension(level, n) + Low(level, d);
    assert ([Control(level, n, d)] + fields)[1..] == fields;
  }

  /** A prefix of a script is a script whose code and text are prefixes. */
  lemma {:induction false} ScriptPrefix(level: int, ts: seq<Token>, k: nat)
    requires Script(level, ts) && k <= |ts|
    ensures Script(level, ts[..k])
    ensures Code(level, ts[..k]) <= Code(level, ts) && Text(level, ts[..k]) <= Text(level, ts)
  {
    if k < |ts| {
      var init := ts[..|ts| - 1];
      ScriptPrefix(level, init, k);
      assert init[..k] == ts[..k];
    } else {
      assert ts[..k] == ts;
    }
  }

  /** The `k`th instruction stands in the code right after the first `k`. */
  lemma ScriptAt(level: int, ts: seq<Token>, k: nat)
    requires Script(level, ts) && k < |ts|
    ensures Script(level, ts[..k]) && Script(level, ts[..k + 1]) && Expressible(level, ts[k])
    ensures Playable(Text(level, ts[..k]), ts[k])
    ensures Text(level, ts[..k + 1]) == Play(Text(level, ts[..k]), ts[k]) <= Text(level, ts)
    ensures Code(level, ts[..k + 1]) == Code(level, ts[..k]) + Ser(level, ts[k]) <= Code(level, ts)
  {
    ScriptPrefix(level, ts, k + 1);
    ScriptPrefix(level, ts, k);
    assert ts[..k + 1][..k] == ts[..k];
  }

  /** One serialised instruction is carried out, or rejected for lack of room. */
  lemma DecodeToken(level: int, mem: seq<byte>, length: nat, ip: nat, t: Token, out: seq<byte>, maxout: nat)
    requires level == 1 || level == 2
    requires Expressible(level, t) && Playable(out, t)
    requires length <= |mem| && ip + |Ser(level, t)| - 1 <= length
    requires mem[ip..ip + |Ser(level, t)| - 1] == Ser(level, t)[1..]
    ensures Decode(level, mem, length, ip, Ser(level, t)[0], out, maxout) ==
            if |Play(out, t)| > maxout then Reject
            else Continue(level, mem, length, ip, ip + |Ser(level, t)| - 1, Play(out, t), maxout)
  {
    hide Fetch, Control, Extension, Low, Copy;
    if t.Match? {
      FetchSer(level, mem, ip, t);
    } else {
      assert Ser(level, t)[1..] == t.bytes;
    }
  }

  /** `mem` holds `code` from index 1 on; index 0 may carry a tag. */
  ghost predicate Holds(mem: seq<byte>, code: seq<byte>) {
    1 <= |code| <= |mem| && forall i :: 1 <= i < |code| ==> mem[i] == code[i]
  }

  lemma ScriptBytes(level: int, ts: seq<Token>, k: nat, mem: seq<byte>)
    requires Script(level, ts) && k < |ts| && Holds(mem, Code(level, ts))
    requires Script(level, ts[..k])
    ensures Expressible(level, ts[k])
    ensures var at, ser := |Code(level, ts[..k])|, Ser(level, ts[k]);
            && at + |ser| <= |Code(level, ts)|
            && Code(level, ts)[at] == ser[0]
            && mem[at + 1..at + |ser|] == ser[1..]
  {
    hide Ser, Script, Text, Code;
    ScriptAt(level, ts, k);
    var code, at, ser := Code(level, ts), |Code(level, ts[..k])|, Ser(level, ts[k]);
    assert forall i :: 0 <= i < |ser| ==> ser[i] == Code(level, ts[..k + 1])[at + i];
  }

  /** From instruction `k` on, the decoder replays the rest of the script as far as there is room. */
  lemma {:induction false} DecodeScript(level: int, ts: seq<Token>, k: nat, mem: seq<byte>, maxout: nat)
    requires level == 1 || level == 2
    requires Script(level, ts) && k < |ts|
    requires Holds(mem, Code(level, ts))
    requires Script(level, ts[..k]) && |Text(level, ts[..k])| <= maxout
    requires |Code(level, ts[..k])| < |Code(level, ts)|
    ensures Decode(level, mem, |Code(level, ts)|, |Code(level, ts[..k])| + 1,
                   Code(level, ts)[|Code(level, ts[..k])|], Text(level, ts[..k]), maxout)
         == if |Text(level, ts)| <= maxout then Done(Text(level, ts)) else Reject
    decreases |ts| - k
  {
    hide Decode, Ser, Script, Text, Code, Copy, Play;
    ScriptAt(level, ts, k);
    ScriptBytes(level, ts, k, mem);
    var length, at, out := |Code(level, ts)|, |Code(level, ts[..k])|, Text(level, ts[..k + 1]);
    var next := at + |Ser(level, ts[k])|;
    DecodeToken(level, mem, length, at + 1, ts[k], Text(level, ts[..k]), maxout);
    if |out| <= maxout {
      if k + 1 < |ts| {
        ScriptBytes(level, ts, k + 1, mem);
        DecodeScript(level, ts, k + 1, mem, maxout);
      } else {
        assert ts[..k + 1] == ts;
      }
    }
  }

  // ---------------------------------------------------------------- blocks

  /** A script's code with the level tag put into the first byte. */
  ghost function Tagged(level: int, code: seq<byte>): seq<byte>
    requires level == 1 || level == 2
    requires code != [] && code[0] < 32
  {
    code[0 := code[0] + (level - 1) * 32]
  }

  /** `block` is a level `level` encoding of `text`. */
  ghost predicate Encodes(level: int, block: seq<byte>, text: seq<byte>)
    requires level == 1 || level == 2
  {
    exists ts :: EncodedBy(level, ts, block, text)
  }

  ghost predicate EncodedBy(level: int, ts: seq<Token>, block: seq<byte>, text: seq<byte>)
    requires level == 1 || level == 2
  {
    && ts != [] && Script(level, ts) && Text(level, ts) == text
    && Code(level, ts) != [] && Code(level, ts)[0] < 32
    && block == Tagged(level, Code(level, ts))
  }

  /**
   The tag selects the matching decoder. That decoder returns exactly the text when there is
   room for it and reports an error when there is not, whatever follows the block in memory.
   */
  lemma RoundTrip(level: int, block: seq<byte>, text: seq<byte>, mem: seq<byte>, maxout: nat)
    requires level == 1 || level == 2
    requires Encodes(level, block, text)
    requires block <= mem
    ensures block != [] && block[0] / 32 + 1 == level
    ensures DecompressedAny(mem, |block|, maxout) == if |text| <= maxout then Done(text) else Reject
  {
    hide Decode, Ser, Script, Text, Code;
    var ts :| EncodedBy(level, ts, block, text);
    var code := Code(level, ts);
    EmptyScript(level);
    assert ts[..0] == [];
    assert Holds(mem, code);
    DecodeScript(level, ts, 0, mem, maxout);
    assert mem[0] == block[0];
  }
}
