/**
 `FASTLZ_COMPRESSOR` of fastlz.c: the source text is compiled once per level, so the model is one
 method with a `level` parameter. The slot a position hashes to is given by an arbitrary function:
 nothing below depends on the quality of the hash.
 */
module LzCompress {
  import opened Bytes
  import opened LzFormat

  const HASH_SIZE := 8192

  /** `[from, to)` repeats what stands `dist` bytes before it. */
  ghost predicate Repeats(input: seq<byte>, dist: nat, from: nat, to: nat) {
    1 <= dist <= from <= to <= |input| && forall i :: from <= i < to ==> input[i] == input[i - dist]
  }

  /** Copying over a repetition extends the text along the input. */
  lemma {:induction false} CopyRepeats(input: seq<byte>, dist: nat, from: nat, to: nat)
    requires Repeats(input, dist, from, to)
    ensures Copy(input[..from], dist, to - from) == input[..to]
    decreases |input| - from
  {
    if from < to {
      assert input[..from] + [input[..from][from - dist]] == input[..from + 1];
      CopyRepeats(input, dist, from + 1, to);
    }
  }

  /** Bytes written never exceed the text they stand for by more than one in 32. */
  ghost predicate Lean(code: nat, text: nat) {
    32 * (code - text) <= text
  }

  /** `output` starts with the code of script `ts`, which stands for `input[..pos]`. */
  ghost predicate Written(level: int, input: seq<byte>, code: seq<byte>, ts: seq<Token>, pos: nat) {
    && Script(level, ts)
    && pos <= |input|
    && code == Code(level, ts)
    && Text(level, ts) == input[..pos]
  }

  method Put(output: array<byte>, op: nat, b: byte) returns (op': nat)
    requires op < output.Length
    modifies output
    ensures op' == op + 1
    ensures output[..op'] == old(output[..op]) + [b]
    ensures forall i :: op' <= i < output.Length ==> output[i] == old(output[i])
  {
    output[op] := b;
    op' := op + 1;
  }

  /** Length extension of level 2. */
  method PutChain(output: array<byte>, op: nat, n: nat) returns (op': nat)
    requires op + n / 255 + 1 <= output.Length
    modifies output
    ensures op' == op + n / 255 + 1
    ensures output[..op'] == old(output[..op]) + Chain(n)
    ensures forall i :: op' <= i < output.Length ==> output[i] == old(output[i])
  {
    var len := n;
    op' := op;
    ghost var done: seq<byte> := [];
    while len >= 255
      invariant op' + len / 255 == op + n / 255
      invariant 0 <= len && op' <= output.Length
      invariant output[..op'] == old(output[..op]) + done
      invariant done + Chain(len) == Chain(n)
      invariant forall i :: op' <= i < output.Length ==> output[i] == old(output[i])
    {
      op' := Put(output, op', 255);
      done := done + [255];
      len := len - 255;
    }
    op' := Put(output, op', len);
  }

  method PutExtension(level: int, output: array<byte>, op: nat, len: nat) returns (op': nat)
    requires level == 1 ==> len <= MAX_LEN - 2
    requires op + |Extension(level, len)| <= output.Length
    modifies output
    ensures op' == op + |Extension(level, len)| <= output.Length
    ensures output[..op'] == old(output[..op]) + Extension(level, len)
    ensures forall i :: op' <= i < output.Length ==> output[i] == old(output[i])
  {
    op' := op;
    if len >= 7 {
      if level == 1 {
        op' := Put(output, op', len - 7);
      } else {
        ChainLength(len - 7);
        op' := PutChain(output, op', len - 7);
      }
    }
  }

  method PutLow(level: int, output: array<byte>, op: nat, distance: nat) returns (op': nat)
    requires if Far(level, distance) then distance < 8191 + 65536 else distance < 8192
    requires op + |Low(level, distance)| <= output.Length
    modifies output
    ensures op' == op + |Low(level, distance)| <= output.Length
    ensures output[..op'] == old(output[..op]) + Low(level, distance)
    ensures forall i :: op' <= i < output.Length ==> output[i] == old(output[i])
  {
    if Far(level, distance) {
      var f := distance - 8191;
      op' := Put(output, op, 255);
      op' := Put(output, op', f / 256);
      op' := Put(output, op', f % 256);
    } else {
      op' := Put(output, op, distance % 256);
    }
  }

  lemma {:induction false} ChainLength(n: nat)
    ensures |Chain(n)| == n / 255 + 1
  {
    if n >= 255 { ChainLength(n - 255); }
  }

  /** A match is written in fewer bytes than it stands for, a far one when it covers at least five. */
  lemma SerShort(level: int, len: nat, distance: nat)
    requires Expressible(level, Match(len, distance))
    requires Far(level, distance - 1) ==> len >= 5
    ensures 2 <= |Ser(level, Match(len, distance))| < len
  {
    if len >= 9 && level != 1 { ChainLength(len - 9); }
  }

  /** One match instruction: `len` is the length less 2, `distance` is biased by one. */
  method PutMatch(level: int, output: array<byte>, op: nat, len: nat, distance: nat) returns (op': nat)
    requires Expressible(level, Match(len + 2, distance + 1))
    requires op + |Ser(level, Match(len + 2, distance + 1))| <= output.Length
    modifies output
    ensures op' == op + |Ser(level, Match(len + 2, distance + 1))|
    ensures output[..op'] == old(output[..op]) + Ser(level, Match(len + 2, distance + 1))
    ensures forall i :: op' <= i < output.Length ==> output[i] == old(output[i])
  {
    hide Control, Extension, Low, Ser;
    JoinMatch(level, len, distance, output[..op]);
    op' := Put(output, op, Control(level, len, distance));
    op' := PutExtension(level, output, op', len);
    op' := PutLow(level, output, op', distance);
  }

  /** The three fields of a match, written one after another. */
  lemma JoinMatch(level: int, len: nat, distance: nat, out: seq<byte>)
    requires Expressible(level, Match(len + 2, distance + 1))
    ensures |Ser(level, Match(len + 2, distance + 1))| == 1 + |Extension(level, len)| + |Low(level, distance)|
    ensures out + [Control(level, len, distance)] + Extension(level, len) + Low(level, distance)
            == out + Ser(level, Match(len + 2, distance + 1))
  {
    hide Control, Extension, Low, Ser;
    SerMatch(level, len, distance);
    var c, e, l := [Control(level, len, distance)], Extension(level, len), Low(level, distance);
    assert out + c + e + l == out + (c + (e + l));
  }

  /** The distances and lengths level `level` looks for. */
  predicate Searchable(level: int, distance: nat) {
    1 <= distance < (if level == 1 then 8192 else 65535 + 8191 - 1)
  }

  lemma AppendMatch(level: int, input: seq<byte>, code: seq<byte>, ts: seq<Token>, pos: nat, len: nat, dist: nat)
    requires ts != [] && Written(level, input, code, ts, pos)
    requires Expressible(level, Match(len, dist)) && Repeats(input, dist, pos, pos + len)
    ensures Written(level, input, code + Ser(level, Match(len, dist)), ts + [Match(len, dist)], pos + len)
  {
    hide Ser, Copy;
    assert |input[..pos]| == pos;
    CopyRepeats(input, dist, pos, pos + len);
    ScriptSnoc(level, ts, Match(len, dist));
  }

  lemma AppendLiteral(level: int, input: seq<byte>, code: seq<byte>, ts: seq<Token>, pos: nat, n: nat)
    requires Written(level, input, code, ts, pos)
    requires 1 <= n <= MAX_COPY && pos + n <= |input|
    ensures Written(level, input, code + [n - 1] + input[pos..pos + n], ts + [Lit(input[pos..pos + n])], pos + n)
  {
    hide Script, Text, Code;
    var lit := input[pos..pos + n];
    ScriptSnoc(level, ts, Lit(lit));
    assert input[..pos] + lit == input[..pos + n];
    assert code + [n - 1] + lit == code + Ser(level, Lit(lit));
  }

  /**
   The match `[anchor, anchor + len + 2)` as one instruction, or in level 1 as several when it is too
   long for one. The caller has just closed a literal run, so one byte may be outstanding.
   */
  method PutMatches(level: int, input: seq<byte>, output: array<byte>, op: nat, anchor: nat, length: nat, distance: nat,
                    ghost ts: seq<Token>) returns (op': nat, ghost ts': seq<Token>)
    requires level == 1 || level == 2
    requires |input| < 0x8000_0000 && |input| + |input| / 32 + 1 <= output.Length
    requires op <= output.Length && ts != [] && Written(level, input, output[..op], ts, anchor)
    requires 1 <= length && Repeats(input, distance + 1, anchor, anchor + length + 2)
    requires Searchable(level, distance + 1) && (Far(level, distance) ==> length >= 3)
    requires 32 * (op - anchor - 1) <= anchor
    modifies output
    ensures op < op' <= |input| + |input| / 32
    ensures forall i :: op' <= i < output.Length ==> output[i] == old(output[i])
    ensures ts' != [] && ts <= ts' && Written(level, input, output[..op'], ts', anchor + length + 2)
    ensures Lean(op', anchor + length + 2)
  {
    hide Ser, Script, Text, Code, Copy;
    op', ts' := op, ts;
    var len := length;
    ghost var pos: nat := anchor;
    if level == 1 {
      while len > MAX_LEN - 2
        invariant 1 <= len && pos + len == anchor + length
        invariant op' <= output.Length && ts' != [] && ts <= ts'
        invariant Written(level, input, output[..op'], ts', pos)
        invariant Repeats(input, distance + 1, pos, pos + len + 2)
        invariant 32 * (op' - pos - 1) <= pos
        invariant op <= op' && forall i :: op' <= i < output.Length ==> output[i] == old(output[i])
      {
        SerShort(level, MAX_LEN - 2, distance + 1);
        AppendMatch(level, input, output[..op'], ts', pos, MAX_LEN - 2, distance + 1);
        op' := PutMatch(level, output, op', MAX_LEN - 4, distance);
        ts' := ts' + [Match(MAX_LEN - 2, distance + 1)];
        pos := pos + (MAX_LEN - 2);
        len := len - (MAX_LEN - 2);
      }
    }
    SerShort(level, len + 2, distance + 1);
    AppendMatch(level, input, output[..op'], ts', pos, len + 2, distance + 1);
    op' := PutMatch(level, output, op', len, distance);
    ts' := ts' + [Match(len + 2, distance + 1)];
  }

  // ---------------------------------------------------------------- literal runs

  /**
   The loop state: closed instructions for `input[..ip - copy]`, then the reserved count byte, then
   the `copy` literals of the open run.
   */
  ghost predicate Pending(level: int, input: seq<byte>, out: seq<byte>, ts: seq<Token>, copy: nat, ip: nat) {
    && copy < MAX_COPY && copy <= ip <= |input| && copy + 1 <= |out|
    && Written(level, input, out[..|out| - copy - 1], ts, ip - copy)
    && Lean(|out| - copy - 1, ip - copy)
    && out[|out| - copy - 1] == MAX_COPY - 1
    && out[|out| - copy..] == input[ip - copy..ip]
    && (ts == [] ==> 2 <= copy)
  }

  /** The open run keeps within the bound too, its reserved byte included. */
  lemma PendingBound(level: int, input: seq<byte>, out: seq<byte>, ts: seq<Token>, copy: nat, ip: nat)
    requires Pending(level, input, out, ts, copy, ip)
    ensures |out| <= |input| + |input| / 32 + 1
  {
    hide Written;
  }

  lemma LiteralAdded(level: int, input: seq<byte>, out: seq<byte>, ts: seq<Token>, copy: nat, ip: nat)
    requires Pending(level, input, out, ts, copy, ip) && ip < |input| && copy + 1 < MAX_COPY
    ensures Pending(level, input, out + [input[ip]], ts, copy + 1, ip + 1)
  {
    hide Script, Text, Code;
    var out' := out + [input[ip]];
    assert out'[..|out'| - copy - 2] == out[..|out| - copy - 1];
    assert out'[|out'| - copy - 1..] == out[|out| - copy..] + [input[ip]] == input[ip - copy..ip + 1];
  }

  lemma LiteralFull(level: int, input: seq<byte>, out: seq<byte>, ts: seq<Token>, copy: nat, ip: nat)
    requires Pending(level, input, out, ts, copy, ip) && ip < |input| && copy + 1 == MAX_COPY
    ensures Pending(level, input, out + [input[ip]] + [MAX_COPY - 1], ts + [Lit(input[ip - copy..ip + 1])], 0, ip + 1)
  {
    hide Script, Text, Code;
    var code := out[..|out| - copy - 1];
    var out' := out + [input[ip]] + [MAX_COPY - 1];
    AppendLiteral(level, input, code, ts, ip - copy, MAX_COPY);
    assert out'[..|out'| - 1] == code + [MAX_COPY - 1] + input[ip - copy..ip + 1] by {
      assert out == code + [MAX_COPY - 1] + input[ip - copy..ip];
    }
  }

  /** Back-patching the count byte closes the run. */
  lemma RunClosed(level: int, input: seq<byte>, out: seq<byte>, ts: seq<Token>, copy: nat, ip: nat)
    requires Pending(level, input, out, ts, copy, ip) && 0 < copy
    ensures Written(level, input, out[|out| - copy - 1 := copy - 1], ts + [Lit(input[ip - copy..ip])], ip)
    ensures 32 * (|out| - ip - 1) <= ip
  {
    hide Script, Text, Code;
    var code := out[..|out| - copy - 1];
    AppendLiteral(level, input, code, ts, ip - copy, copy);
    assert out[|out| - copy - 1 := copy - 1] == code + [copy - 1] + input[ip - copy..ip];
  }

  /** Closes the open run: its count byte is filled in, or taken back if the run is empty. */
  method CloseRun(level: int, input: seq<byte>, output: array<byte>, op: nat, copy: nat, ip: nat, ghost ts: seq<Token>)
    returns (op': nat, ghost ts': seq<Token>)
    requires op <= output.Length && Pending(level, input, output[..op], ts, copy, ip)
    modifies output
    ensures op - 1 <= op' <= op && ts' != [] && Written(level, input, output[..op'], ts', ip)
    ensures forall i :: op <= i < output.Length ==> output[i] == old(output[i])
    ensures 32 * (op' - ip - 1) <= ip
  {
    hide Script, Text, Code;
    op', ts' := op, ts;
    if copy > 0 {
      RunClosed(level, input, output[..op], ts, copy, ip);
      output[op - copy - 1] := copy - 1;
      ts' := ts + [Lit(input[ip - copy..ip])];
      assert output[..op] == old(output[..op])[op - copy - 1 := copy - 1];
    } else {
      op' := op - 1;
      assert old(output[..op])[..op - 1] == output[..op'];
    }
  }

  /** One literal byte; a full run is closed and a new one opened. */
  method PutLiteral(level: int, input: seq<byte>, output: array<byte>, op: nat, copy: nat, ip: nat,
                    ghost ts: seq<Token>)
    returns (op': nat, copy': nat, ghost ts': seq<Token>)
    requires op <= output.Length && Pending(level, input, output[..op], ts, copy, ip)
    requires ip < |input| && |input| + |input| / 32 + 1 <= output.Length
    modifies output
    ensures op < op' <= output.Length
    ensures forall i :: op' <= i < output.Length ==> output[i] == old(output[i])
    ensures Pending(level, input, output[..op'], ts', copy', ip + 1)
  {
    hide Script, Text, Code, Written;
    ts' := ts;
    if copy + 1 < MAX_COPY {
      LiteralAdded(level, input, output[..op], ts, copy, ip);
    } else {
      LiteralFull(level, input, output[..op], ts, copy, ip);
      ts' := ts + [Lit(input[ip - copy..ip + 1])];
    }
    op' := Put(output, op, input[ip]);
    copy' := copy + 1;
    if copy' == MAX_COPY {
      copy' := 0;
      op' := Put(output, op', MAX_COPY - 1);
    }
  }

  // ---------------------------------------------------------------- match search

  /** Level 2 checks for a run of equal bytes before it looks at the hash table. */
  predicate RunAt(level: int, input: seq<byte>, ip: nat)
    requires 1 <= ip && ip + 3 <= |input|
  {
    level == 2 && input[ip] == input[ip - 1] && input[ip - 1] == input[ip + 1] && input[ip] == input[ip + 2]
  }

  /** The first bytes of a usable match: three, or five when it is far away. */
  predicate Starts(level: int, input: seq<byte>, ref: nat, anchor: nat)
    requires ref <= anchor && anchor + 5 <= |input|
  {
    && Searchable(level, anchor - ref)
    && input[ref] == input[anchor] && input[ref + 1] == input[anchor + 1] && input[ref + 2] == input[anchor + 2]
    && (level == 2 && anchor - ref >= 8191 ==>
          input[anchor + 3] == input[ref + 3] && input[anchor + 4] == input[ref + 4])
  }

  /** Looks for a match at `anchor`; `len == 0` sends the byte to the literal branch. */
  method Probe(level: int, input: seq<byte>, anchor: nat, htab: array<nat>, h: nat) returns (len: nat, distance: nat)
    requires level == 1 || level == 2
    requires 1 <= anchor && anchor + 12 < |input|
    requires h < htab.Length && forall k :: 0 <= k < htab.Length ==> htab[k] < anchor
    modifies htab
    ensures forall k :: 0 <= k < htab.Length ==> htab[k] <= anchor
    ensures len != 0 <==> RunAt(level, input, anchor) || Starts(level, input, old(htab[h]), anchor)
    ensures len != 0 ==>
      && len == (if level == 2 && distance >= 8191 then 5 else 3)
      && Searchable(level, distance) && Repeats(input, distance, anchor, anchor + len)
  {
    len, distance := 3, 1;
    if RunAt(level, input, anchor) {
      return;
    }
    var ref := htab[h];
    distance := anchor - ref;
    htab[h] := anchor;
    if distance == 0 || (level == 1 && distance >= 8192) || (level == 2 && distance >= 65535 + 8191 - 1)
      || input[ref] != input[anchor] || input[ref + 1] != input[anchor + 1] || input[ref + 2] != input[anchor + 2] {
      len := 0;
      return;
    }
    if level == 2 && distance >= 8191 {
      if input[anchor + 3] != input[ref + 3] || input[anchor + 4] != input[ref + 4] {
        len := 0;
        return;
      }
      len := len + 2;
    }
  }

  /**
   Extends a match of `len` bytes. The cursor stops one past the last matching byte, or at the bound:
   everything before it but one byte is known to match, and the match is as long as it can be.
   */
  method Extend(input: seq<byte>, anchor: nat, len: nat, distance: nat) returns (ip: nat)
    requires anchor + 12 < |input| && (len == 3 || len == 5)
    requires distance == 1 ==> len == 3
    requires Repeats(input, distance, anchor, anchor + len)
    ensures anchor + len + 1 <= ip <= |input|
    ensures len == 3 ==> ip <= |input| - 2
    ensures Repeats(input, distance, anchor, ip - 1)
    ensures ip >= |input| - 2 || input[ip - 1] != input[ip - 1 - distance]
  {
    var bound := |input| - 2;
    ip := anchor + len;
    if distance == 1 {
      ip := ExtendRun(input, anchor);
    } else {
      assert 1 <= distance <= anchor;
      hide Repeats;
      var k := 0;
      while k < 8
        invariant 0 <= k <= 8 && ip == anchor + len + k
        invariant Repeats(input, distance, anchor, ip)
      {
        RepeatsMore(input, distance, anchor, ip);
        ip := ip + 1;
        if input[ip - 1 - distance] != input[ip - 1] { return; }
        k := k + 1;
      }
      while ip < bound
        invariant anchor + len + 8 <= ip
        invariant ip <= bound || ip <= anchor + len + 8
        invariant Repeats(input, distance, anchor, ip)
      {
        RepeatsMore(input, distance, anchor, ip);
        ip := ip + 1;
        if input[ip - 1 - distance] != input[ip - 1] { return; }
      }
    }
  }

  lemma RepeatsMore(input: seq<byte>, distance: nat, from: nat, to: nat)
    requires Repeats(input, distance, from, to) && to < |input|
    ensures input[to] == input[to - distance] ==> Repeats(input, distance, from, to + 1)
  {}

  /** The same for a run of one byte. */
  method ExtendRun(input: seq<byte>, anchor: nat) returns (ip: nat)
    requires anchor + 12 < |input| && Repeats(input, 1, anchor, anchor + 3)
    ensures anchor + 4 <= ip <= |input| - 2 && Repeats(input, 1, anchor, ip - 1)
    ensures ip == |input| - 2 || input[ip - 1] != input[ip - 2]
  {
    var bound := |input| - 2;
    ip := anchor + 3;
    var x := input[ip - 1];
    assert input[anchor + 2] == input[anchor + 1] == input[anchor];
    while ip < bound
      invariant anchor + 3 <= ip <= bound
      invariant ip > anchor + 3 ==> Repeats(input, 1, anchor, ip - 1)
      invariant forall i :: anchor <= i < ip - 1 ==> input[i] == x
    {
      if input[ip - 1] != x { break; }
      ip := ip + 1;
    }
  }

  // ---------------------------------------------------------------- the compressor

  /** A non-empty script's code starts with a literal count, which leaves the tag bits clear. */
  lemma FirstByte(level: int, ts: seq<Token>)
    requires Script(level, ts) && ts != []
    ensures Code(level, ts) != [] && Code(level, ts)[0] < 32
  {
    ScriptAt(level, ts, 0);
    assert ts[..0] == [] && ts[..1] == [ts[0]];
  }

  /** Marks the block with its level: `*output |= 1 << 5` for level 2. */
  function OrTag(b: byte): byte {
    if b / 32 % 2 == 1 then b else if b + 32 < 256 then b + 32 else b
  }

  /** A block of fewer than four bytes: one literal run, untagged at either level. */
  method CompressShort(input: seq<byte>, output: array<byte>) returns (n: nat)
    requires 1 <= |input| < 4 && |input| + 1 <= output.Length
    modifies output
    ensures n == |input| + 1 && forall i :: n <= i < output.Length ==> output[i] == old(output[i])
    ensures Encodes(1, output[..n], input)
  {
    hide Encodes;
    n := Put(output, 0, |input| - 1);
    var ip := 0;
    while ip < |input|
      invariant 0 <= ip <= |input| && n == ip + 1
      invariant output[..n] == [|input| - 1] + input[..ip]
      invariant forall i :: n <= i < output.Length ==> output[i] == old(output[i])
    {
      n := Put(output, n, input[ip]);
      ip := ip + 1;
    }
    assert input[..ip] == input;
    ShortEncodes(input);
  }

  lemma ShortEncodes(input: seq<byte>)
    requires 1 <= |input| < 4
    ensures Encodes(1, [|input| - 1] + input, input)
  {
    var ts := [Lit(input)];
    EmptyScript(1);
    assert input[0..|input|] == input;
    AppendLiteral(1, input, [], [], 0, |input|);
    assert [] + ts == ts;
    assert EncodedBy(1, ts, [|input| - 1] + input, input) by { FirstByte(1, ts); }
  }

  /** Closes the open literal run, writes the match and reserves the next count byte. */
  method PutMatchRun(level: int, input: seq<byte>, output: array<byte>, op: nat, copy: nat, anchor: nat, len: nat,
                     distance: nat, ghost ts: seq<Token>) returns (op': nat, ghost ts': seq<Token>)
    requires level == 1 || level == 2
    requires |input| < 0x8000_0000 && |input| + |input| / 32 + 1 <= output.Length
    requires op <= output.Length && Pending(level, input, output[..op], ts, copy, anchor)
    requires 1 <= len && Repeats(input, distance + 1, anchor, anchor + len + 2)
    requires Searchable(level, distance + 1) && (Far(level, distance) ==> len >= 3)
    modifies output
    ensures op < op' <= output.Length
    ensures forall i :: op' <= i < output.Length ==> output[i] == old(output[i])
    ensures Pending(level, input, output[..op'], ts', 0, anchor + len + 2)
  {
    hide Script, Text, Code, Written, Pending;
    op', ts' := CloseRun(level, input, output, op, copy, anchor, ts);
    op', ts' := PutMatches(level, input, output, op', anchor, len, distance, ts');
    ReopenPending(level, input, output[..op'], ts', anchor + len + 2);
    op' := Put(output, op', MAX_COPY - 1);
  }

  /** The end of the input goes out as literals. */
  method PutLeftOver(level: int, input: seq<byte>, output: array<byte>, op: nat, copy: nat, from: nat,
                     ghost ts: seq<Token>)
    returns (n: nat, ghost ts': seq<Token>)
    requires op <= output.Length && Pending(level, input, output[..op], ts, copy, from)
    requires |input| + |input| / 32 + 1 <= output.Length
    modifies output
    ensures n <= |input| + |input| / 32 + 1
    ensures forall i :: |input| + |input| / 32 + 1 <= i < output.Length ==> output[i] == old(output[i])
    ensures ts' != [] && Written(level, input, output[..n], ts', |input|)
  {
    hide Script, Text, Code, Written;
    var ip, copy' := from, copy;
    n, ts' := op, ts;
    while ip <= |input| - 1
      invariant 0 <= ip <= |input| && 0 <= n <= output.Length
      invariant Pending(level, input, output[..n], ts', copy', ip)
      invariant forall i :: |input| + |input| / 32 + 1 <= i < output.Length ==> output[i] == old(output[i])
    {
      n, copy', ts' := PutLiteral(level, input, output, n, copy', ip, ts');
      ip := ip + 1;
      PendingBound(level, input, output[..n], ts', copy', ip);
    }
    PendingBound(level, input, output[..n], ts', copy', ip);
    n, ts' := CloseRun(level, input, output, n, copy', ip, ts');
  }

  /** A match up to `ip` that the next byte would break, or that has come near the end of the input. */
  ghost predicate Longest(input: seq<byte>, dist: nat, from: nat, ip: nat) {
    Repeats(input, dist, from, ip) && (ip + 3 >= |input| || input[ip] != input[ip - dist])
  }

  /** One turn of the main loop: a match as long as it goes where one is proposed, a literal byte where none is. */
  method Step(level: int, input: seq<byte>, output: array<byte>, op: nat, copy: nat, anchor: nat, htab: array<nat>,
              slot: nat -> nat, ghost ts: seq<Token>) returns (op': nat, copy': nat, ip: nat, ghost ts': seq<Token>)
    requires level == 1 || level == 2
    requires |input| < 0x8000_0000 && |input| + |input| / 32 + 1 <= output.Length
    requires 2 <= anchor < |input| - 12 && op <= output.Length
    requires Pending(level, input, output[..op], ts, copy, anchor)
    requires htab.Length == HASH_SIZE && forall k :: 0 <= k < HASH_SIZE ==> htab[k] < anchor
    requires forall p :: slot(p) < HASH_SIZE
    modifies output, htab
    ensures anchor < ip <= |input| && op < op' <= output.Length
    ensures forall i :: op' <= i < output.Length ==> output[i] == old(output[i])
    ensures Pending(level, input, output[..op'], ts', copy', ip)
    ensures forall k :: 0 <= k < HASH_SIZE ==> htab[k] < ip
    ensures ip == anchor + 1 <==> !RunAt(level, input, anchor) && !Starts(level, input, old(htab[slot(anchor)]), anchor)
    ensures ip != anchor + 1 ==> copy' == 0 && exists dist: nat :: Longest(input, dist, anchor, ip)
  {
    hide Pending, RunAt, Starts;
    var len, distance := Probe(level, input, anchor, htab, slot(anchor));
    if len == 0 {
      op', copy', ts' := PutLiteral(level, input, output, op, copy, anchor, ts);
      ip := anchor + 1;
      return;
    }
    ip := Extend(input, anchor, len, distance);
    assert Longest(input, distance, anchor, ip - 1);
    distance := distance - 1;
    ip := ip - 3;
    len := ip - anchor;
    op', ts' := PutMatchRun(level, input, output, op, copy, anchor, len, distance, ts);
    copy' := 0;
    htab[slot(ip)] := ip;
    ip := ip + 1;
    htab[slot(ip)] := ip;
    ip := ip + 1;
  }

  /**
   The compressor. For every input and whatever earlier positions the hash table proposes, the block
   is an encoding of the input, and no byte is ever written at or past `length + length / 32 + 1`.
   */
  method Compress(level: int, input: seq<byte>, output: array<byte>, slot: nat -> nat) returns (n: nat)
    requires level == 1 || level == 2
    requires |input| < 0x8000_0000
    requires output.Length >= |input| + |input| / 32 + 1
    requires forall p :: slot(p) < HASH_SIZE
    modifies output
    ensures n <= |input| + |input| / 32 + 1
    ensures forall i :: |input| + |input| / 32 + 1 <= i < output.Length ==> output[i] == old(output[i])
    ensures n == 0 <==> input == []
    ensures input != [] ==> Encodes(if |input| < 4 then 1 else level, output[..n], input)
  {
    hide Encodes, Pending, Written;
    if |input| < 4 {
      if input == [] { return 0; }
      n := CompressShort(input, output);
      return;
    }
    var limit := |input| - 12;
    var htab := new nat[HASH_SIZE](_ => 0);
    var copy: nat := 2;
    var op := Put(output, 0, MAX_COPY - 1);
    op := Put(output, op, input[0]);
    op := Put(output, op, input[1]);
    var ip := 2;
    ghost var ts: seq<Token> := [];
    StartPending(level, input, output[..op]);

    while ip < limit
      invariant 2 <= ip <= |input| && 0 <= op <= output.Length
      invariant Pending(level, input, output[..op], ts, copy, ip)
      invariant htab.Length == HASH_SIZE && forall k :: 0 <= k < HASH_SIZE ==> htab[k] < ip
      invariant forall i :: |input| + |input| / 32 + 1 <= i < output.Length ==> output[i] == old(output[i])
    {
      op, copy, ip, ts := Step(level, input, output, op, copy, ip, htab, slot, ts);
      PendingBound(level, input, output[..op], ts, copy, ip);
    }

    n, ts := PutLeftOver(level, input, output, op, copy, ip, ts);
    ghost var code := output[..n];
    FinishWritten(level, input, code, ts);
    if level == 2 {
      output[0] := OrTag(output[0]);
    }
    assert output[..n] == Tagged(level, code);
  }

  lemma StartPending(level: int, input: seq<byte>, out: seq<byte>)
    requires 4 <= |input| && out == [MAX_COPY - 1, input[0], input[1]]
    ensures Pending(level, input, out, [], 2, 2)
  {
    EmptyScript(level);
    assert out[..0] == [] && input[..0] == [] && out[1..] == input[0..2];
  }

  lemma ReopenPending(level: int, input: seq<byte>, code: seq<byte>, ts: seq<Token>, ip: nat)
    requires ts != [] && Written(level, input, code, ts, ip) && Lean(|code|, ip)
    ensures Pending(level, input, code + [MAX_COPY - 1], ts, 0, ip)
  {
    hide Script, Text, Code;
    assert (code + [MAX_COPY - 1])[..|code|] == code;
  }

  lemma FinishWritten(level: int, input: seq<byte>, code: seq<byte>, ts: seq<Token>)
    requires level == 1 || level == 2
    requires ts != [] && Written(level, input, code, ts, |input|)
    ensures code != [] && code[0] < 32
    ensures Encodes(level, Tagged(level, code), input)
  {
    FirstByte(level, ts);
    assert input[..|input|] == input;
    assert EncodedBy(level, ts, Tagged(level, code), input);
  }

  /** The buffer the header file asks for is large enough. */
  lemma DocumentedBufferSuffices(length: nat, size: nat)
    requires size >= 66 && 100 * size >= 105 * length
    ensures size >= length + length / 32 + 1
  {
  }
}
