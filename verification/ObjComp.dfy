/**
 rtl-obj-comp.c: the decompression streamer on top of the read cache. A compressed region is a sequence
 of blocks, each a 16-bit big-endian length and that many bytes of FastLZ (or plain) data.
 */
module ObjComp {
  import opened Bytes
  import opened ObjCache
  import LzFormat
  import Fastlz

  const COMP_NONE := 0
  const COMP_LZ77 := 1

  // ---------------------------------------------------------------- the region

  function BlockSize(file: seq<byte>, off: nat): (n: nat)
    requires off + 2 <= |file|
    ensures n < 65536
  {
    var hi: nat, lo: nat := file[off], file[off + 1];
    hi * 256 + lo
  }

  /** A block's bytes, decoded; the decoder may look at what follows the block in memory. */
  function Unpacked(compression: int, mem: seq<byte>, len: nat, size: nat): (r: LzFormat.Decoded)
    requires len <= |mem|
  {
    if compression == COMP_NONE then LzFormat.Done(mem[..len])
    else if compression == COMP_LZ77 then LzFormat.DecompressedAny(mem, len, size)
    else LzFormat.Reject
  }

  /** `block` stands for `chunk` under the compression in use. */
  ghost predicate Packs(compression: int, block: seq<byte>, chunk: seq<byte>) {
    if compression == COMP_NONE then block == chunk
    else compression == COMP_LZ77 && (LzFormat.Encodes(1, block, chunk) || LzFormat.Encodes(2, block, chunk))
  }

  /** The block fits the cache and lies inside the file. */
  predicate Framed(file: seq<byte>, off: nat, cacheSize: nat) {
    2 <= cacheSize && off + 2 < |file| && BlockSize(file, off) <= cacheSize && off + 2 + BlockSize(file, off) <= |file|
  }

  function Block(file: seq<byte>, off: nat): seq<byte>
    requires off + 2 <= |file| && off + 2 + BlockSize(file, off) <= |file|
  {
    file[off + 2..off + 2 + BlockSize(file, off)]
  }

  /**
   The cache refuses the length, or the block: a cache too small, a position past the end of the `current` file, or a
   block that is too large for the cache or cut off by the end of the file.
   */
  predicate Refused(file: seq<byte>, off: nat, current: bool, cacheSize: nat) {
    || cacheSize < 2
    || (current && off > |file|)
    || (off + 2 <= |file| && BlockSize(file, off) > cacheSize)
    || (off + 2 < |file| && off + 2 + BlockSize(file, off) > |file|)
  }

  /**
   Where the file does not say what happens: the cache read of the length or of the block does not end, or there is
   but one byte of the length and the other one is whatever the buffer holds.
   */
  predicate Unanswered(file: seq<byte>, off: nat, current: bool, cacheSize: nat) {
    && 2 <= cacheSize && !(current && off > |file|)
    && (off + 2 > |file| || (off + 2 == |file| && BlockSize(file, off) <= cacheSize))
  }

  /** At any position the block is refused, unanswered or framed, and only one of these. */
  lemma OneFate(file: seq<byte>, off: nat, current: bool, cacheSize: nat)
    ensures Refused(file, off, current, cacheSize) || Unanswered(file, off, current, cacheSize) ||
            Framed(file, off, cacheSize)
    ensures !(Refused(file, off, current, cacheSize) && Unanswered(file, off, current, cacheSize))
    ensures Framed(file, off, cacheSize) ==>
              !Refused(file, off, current, cacheSize) && !Unanswered(file, off, current, cacheSize)
  {}

  /** A plain block that does not fit the buffer, which the source does not check. */
  predicate Spills(file: seq<byte>, off: nat, compression: int, size: nat)
    requires off + 2 <= |file|
  {
    compression == COMP_NONE && BlockSize(file, off) > size
  }

  /** What the block decodes to, with some bytes behind it in the cache buffer. */
  ghost predicate Decodes(file: seq<byte>, off: nat, z: Sizes, r: LzFormat.Decoded) {
    && Framed(file, off, z.cache) && !Spills(file, off, z.compression, z.buffer)
    && exists mem :: Block(file, off) <= mem && Unpacked(z.compression, mem, BlockSize(file, off), z.buffer) == r
  }

  /** The kind of compression, and the sizes of the cache and of the streamer's buffer. */
  datatype Sizes = Sizes(compression: int, cache: nat, buffer: nat)

  /** The streamer fails at this position. */
  ghost predicate Fails(file: seq<byte>, off: nat, current: bool, z: Sizes) {
    Refused(file, off, current, z.cache) || Decodes(file, off, z, LzFormat.Reject)
  }

  /** The streamer goes where the file does not lead it: it waits for ever, writes past its buffer, or decodes on. */
  ghost predicate Strays(file: seq<byte>, off: nat, current: bool, z: Sizes) {
    || Unanswered(file, off, current, z.cache)
    || (Framed(file, off, z.cache) && Spills(file, off, z.compression, z.buffer))
    || Decodes(file, off, z, LzFormat.OverRead)
  }

  /** The position behind `n` blocks. */
  function Past(file: seq<byte>, off: nat, n: nat): nat {
    if n == 0 then off
    else
      var p := Past(file, off, n - 1);
      if p + 2 <= |file| then p + 2 + BlockSize(file, p) else p
  }

  /** The chunks that the blocks from `off` on decode to. */
  ghost predicate Blocks(file: seq<byte>, off: nat, z: Sizes, chunks: seq<seq<byte>>) {
    forall k :: 0 <= k < |chunks| ==> Decodes(file, Past(file, off, k), z, LzFormat.Done(chunks[k]))
  }

  /** From `off` on the file holds blocks for `chunks`, each fitting the two buffers. */
  ghost predicate Region(file: seq<byte>, off: nat, z: Sizes, chunks: seq<seq<byte>>)
    decreases |chunks|
  {
    chunks != [] ==>
      && Framed(file, off, z.cache)
      && |chunks[0]| <= z.buffer
      && Packs(z.compression, Block(file, off), chunks[0])
      && Region(file, off + 2 + BlockSize(file, off), z, chunks[1..])
  }

  function Concat(chunks: seq<seq<byte>>): seq<byte> {
    if chunks == [] then [] else chunks[0] + Concat(chunks[1..])
  }

  // ---------------------------------------------------------------- the streamer

  class Comp {
    var cache: Cache?
    var fd: int
    var compression: int
    var offset: nat
    var level: nat
    var read: nat
    const size: nat
    const buffer: array<byte>

    /** `rtems_rtl_obj_comp_open` */
    constructor (size: nat)
      ensures cache == null && this.size == size && level == 0 && buffer.Length == size && fresh(buffer)
    {
      cache, fd, compression, offset, level, read := null, -1, COMP_LZ77, 0, 0, 0;
      this.size := size;
      buffer := new byte[size];
    }

    /** `rtems_rtl_obj_comp_set` */
    method Set(cache: Cache, fd: int, compression: int, offset: nat)
      modifies this
      ensures this.cache == cache && this.fd == fd && this.compression == compression
      ensures this.offset == offset && level == 0 && read == 0
    {
      this.cache, this.fd, this.compression, this.offset, level, read := cache, fd, compression, offset, 0, 0;
    }

    ghost predicate Valid(files: Files)
      reads this, cache, if cache != null then {cache.buffer} else {}
    {
      && level <= size == buffer.Length
      && cache != null && cache.buffer != buffer && cache.Valid(files)
      && fd in files
    }

    /** Decoded bytes not yet delivered; they are dropped when the cache has moved to another descriptor. */
    ghost function Undelivered(): seq<byte>
      requires cache != null && level <= buffer.Length
      reads this, cache, buffer
    {
      if fd == cache.fd then buffer[..level] else []
    }

    ghost function Shape(): Sizes
      requires cache != null
      reads this, cache
    {
      Sizes(compression, cache.size, size)
    }

    /** The file region still to be decoded stands for `chunks`. */
    ghost predicate Ahead(files: Files, chunks: seq<seq<byte>>)
      requires cache != null && fd in files
      reads this, cache
    {
      Region(files[fd], offset, Shape(), chunks)
    }

    /** Hands out `n` bytes from the front of the buffer and moves the rest down. */
    method Deliver(n: nat) returns (data: seq<byte>)
      requires n <= level <= size == buffer.Length
      modifies this`level, this`read, buffer
      ensures data == old(buffer[..n])
      ensures level == old(level) - n && read == old(read) + n
      ensures buffer[..level] == old(buffer[n..level])
    {
      data := buffer[..n];
      forall i | 0 <= i < level - n {
        buffer[i] := buffer[n + i];
      }
      level := level - n;
      read := read + n;
    }

    /** The 16-bit length in front of the block. */
    method FetchLength(files: Files, works: bool) returns (err: Error, astray: bool, blockSize: nat)
      requires Valid(files)
      modifies cache, cache.buffer
      ensures astray ==> err != NoError && Unanswered(files[fd], offset, old(cache.fd) == fd, cache.size)
      ensures works && err != NoError && !astray ==>
                cache.size < 2 || (old(cache.fd) == fd && offset > |files[fd]|)
      ensures err == NoError ==>
        && Valid(files) && cache.fd == fd && 2 <= cache.size
        && offset + 2 <= |files[fd]| && blockSize == BlockSize(files[fd], offset)
    {
      astray, blockSize := false, 0;
      if !cache.Answers(files, fd, offset, 2) { return Failed, true, 0; }
      var at, len;
      err, at, len := cache.Read(files, fd, offset, 2, works);
      if err != NoError { return; }
      if len < 2 { return Failed, true, 0; }
      var header := cache.buffer[at..at + len];
      var hi: nat, lo: nat := header[0], header[1];
      blockSize := hi * 256 + lo;
    }

    /** Finds the next block in the file; `mem` is what can be read from its start on. */
    method FetchBlock(files: Files, works: bool) returns (err: Error, astray: bool, mem: seq<byte>, len: nat)
      requires Valid(files)
      modifies this`offset, cache, cache.buffer
      ensures astray ==> err != NoError && Unanswered(files[fd], old(offset), old(cache.fd) == fd, cache.size)
      ensures works && err != NoError && !astray ==> Refused(files[fd], old(offset), old(cache.fd) == fd, cache.size)
      ensures err == NoError ==>
        && Framed(files[fd], old(offset), cache.size) && Valid(files) && cache.fd == fd && offset == old(offset) + 2
        && len == BlockSize(files[fd], old(offset)) <= |mem|
        && mem[..len] == Block(files[fd], old(offset))
    {
      astray, mem, len := false, [], 0;
      var at, blockSize;
      err, astray, blockSize := FetchLength(files, works);
      if err != NoError { return; }
      offset := offset + 2;
      if !cache.Answers(files, fd, offset, blockSize) { return Failed, true, [], 0; }
      err, at, len := cache.Read(files, fd, offset, blockSize, works);
      if err != NoError { return; }
      if len != blockSize { return Failed, false, [], len; }
      mem := cache.buffer[at..];
      assert forall i :: 0 <= i < len ==> mem[i] == cache.buffer[at + i];
      assert mem[..len] == cache.buffer[at..at + len];
    }

    /**
     Decodes the first `len` bytes of `mem` into the buffer. It goes `astray` with a plain block that is larger than the
     buffer, and with one whose fields reach past the memory.
     */
    method DecodeBlock(mem: seq<byte>, len: nat, wide: bool) returns (ok: bool, astray: bool)
      requires len <= |mem| && size == buffer.Length
      modifies this`level, buffer
      ensures astray <==> (compression == COMP_NONE && len > size) || Unpacked(compression, mem, len, size).OverRead?
      ensures ok <==> !astray && Unpacked(compression, mem, len, size).Done?
      ensures ok ==> level <= size && Unpacked(compression, mem, len, size) == LzFormat.Done(buffer[..level])
      ensures !ok ==> level == old(level)
    {
      hide LzFormat.DecompressedAny;
      ok, astray := false, false;
      if compression == COMP_NONE {
        if len > size { return false, true; }
        forall i | 0 <= i < len {
          buffer[i] := mem[i];
        }
        level := len;
        assert buffer[..level] == mem[..len];
      } else if compression == COMP_LZ77 {
        var r := Fastlz.Decompress(mem, len, buffer, size, wide);
        if r.OverRun? { return false, true; }
        if r.n == 0 { return; }
        level := r.n;
      } else {
        return;
      }
      ok := true;
    }

    /** Reads and decodes the next block into the empty buffer. */
    method NextBlock(files: Files, wide: bool, works: bool) returns (err: Error, astray: bool)
      requires Valid(files) && level == 0
      modifies this`offset, this`level, buffer, cache, cache.buffer
      ensures astray ==> err != NoError && Strays(files[fd], old(offset), old(cache.fd) == fd, Shape())
      ensures works && err != NoError && !astray ==> Fails(files[fd], old(offset), old(cache.fd) == fd, Shape())
      ensures err == NoError ==>
        && Valid(files) && cache.fd == fd && offset == Past(files[fd], old(offset), 1)
        && Decodes(files[fd], old(offset), Shape(), LzFormat.Done(buffer[..level]))
    {
      hide Unpacked;
      var mem, len;
      ghost var off := offset;
      err, astray, mem, len := FetchBlock(files, works);
      if err != NoError { return; }
      assert Block(files[fd], off) <= mem;
      var ok;
      ok, astray := DecodeBlock(mem, len, wide);
      if !ok { return Failed, astray; }
      offset := offset + len;
    }

    /** One turn of the read loop: deliver what is buffered, then decode another block if that was not enough. */
    method Turn(files: Files, left: nat, wide: bool, works: bool)
      returns (err: Error, astray: bool, piece: seq<byte>, ghost more: seq<seq<byte>>)
      requires Valid(files) && 0 < left
      requires level > 0 ==> fd == cache.fd
      modifies this`offset, this`level, this`read, buffer, cache, cache.buffer
      ensures |piece| <= left && read == old(read) + |piece|
      ensures astray || (works && err != NoError) ==> left > old(level)
      ensures astray ==> err != NoError && Strays(files[fd], old(offset), old(cache.fd) == fd, Shape())
      ensures works && err != NoError && !astray ==> Fails(files[fd], old(offset), old(cache.fd) == fd, Shape())
      ensures err == NoError ==>
        && Valid(files) && (level > 0 || more != [] ==> fd == cache.fd) && (more == [] ==> cache.fd == old(cache.fd))
        && |more| <= 1 && (more == [] <==> |piece| == left) && (more != [] <==> left > old(level))
        && offset == Past(files[fd], old(offset), |more|)
        && (more != [] ==> Decodes(files[fd], old(offset), Shape(), LzFormat.Done(more[0])))
        && piece + buffer[..level] == old(buffer[..level]) + Concat(more)
    {
      hide Decodes, Strays, Fails;
      more, astray := [], false;
      var n := if left > level then level else left;
      ghost var before := buffer[..level];
      piece := Deliver(n);
      assert before == piece + buffer[..level];
      err := NoError;
      if left - n > 0 {
        assert before == piece;
        err, astray := NextBlock(files, wide, works);
        if err == NoError { more := [buffer[..level]]; }
      }
    }

    /**
     `rtems_rtl_obj_comp_read`: the next `length` bytes of the stream, which is what is left in the buffer followed by
     what as many blocks as it takes decode to. It fails, or goes astray, only at a position where the next block makes
     it do so, and only when that block is needed.
     */
    method Read(files: Files, length: nat, wide: bool, works: bool)
      returns (err: Error, astray: bool, data: seq<byte>, ghost used: seq<seq<byte>>)
      requires cache != null ==> Valid(files)
      modifies this, buffer, cache, if cache != null then {cache.buffer} else {}
      ensures cache == old(cache) && fd == old(fd) && compression == old(compression)
      ensures cache == null ==> err != NoError && !astray
      ensures cache != null ==>
        && Blocks(files[fd], old(offset), Shape(), used) && Needed(old(Undelivered()), used, length)
        && (astray ==> err != NoError)
        && (astray || (works && err != NoError) ==>
              && length > |old(Undelivered()) + Concat(used)|
              && Stopped(files[fd], old(offset), old(cache.fd) == fd, Shape(), used, astray))
      ensures err == NoError ==>
        var stream := old(Undelivered()) + Concat(used);
        && Valid(files) && offset == Past(files[fd], old(offset), |used|) && read == old(read) + length
        && length <= |stream| && data == stream[..length] && Undelivered() == stream[length..]
    {
      astray, data, used := false, [], [];
      if cache == null { return Failed, false, [], []; }
      hide Decodes, Strays, Fails, Past, Blocks, Needed, Stopped, Concat, Cache.Valid, Far;
      ghost var file, off, pending, current := files[fd], offset, Undelivered(), cache.fd == fd;
      FarNothing(file, off, Shape(), pending, length);
      if fd != cache.fd {
        level := 0;
      }
      var left := length;
      while left > 0
        invariant 0 <= left <= length == left + |data| && read == old(read) + |data|
        invariant cache == old(cache) && fd == old(fd) && compression == old(compression) && !astray
        invariant Valid(files) && (level > 0 ==> fd == cache.fd) && (used != [] || current <==> fd == cache.fd)
        invariant Far(file, off, Shape(), pending, length, used, offset, data + buffer[..level])
        decreases if offset <= |file| then |file| - offset else 0, left
      {
        ghost var had, at := buffer[..level], offset;
        var piece;
        ghost var more;
        err, astray, piece, more := Turn(files, left, wide, works);
        if err != NoError {
          FarStops(file, off, current, Shape(), pending, length, used, at, data, had, astray);
          return;
        }
        FarOn(file, off, Shape(), pending, length, used, at, data, had, more, offset, piece, buffer[..level]);
        used := used + more;
        data := data + piece;
        left := left - |piece|;
      }
      FarFacts(file, off, Shape(), pending, length, used, offset, data + buffer[..level]);
      Divide(data, buffer[..level], pending + Concat(used));
      err := NoError;
    }
  }

  /** How far a read has come: after the blocks `used`, at `at`, with these bytes delivered or buffered. */
  ghost predicate Far(file: seq<byte>, off: nat, z: Sizes, pending: seq<byte>, length: nat, used: seq<seq<byte>>,
                      at: nat, got: seq<byte>) {
    && Blocks(file, off, z, used) && Needed(pending, used, length)
    && at == Past(file, off, |used|) && got == pending + Concat(used)
  }

  lemma FarFacts(file: seq<byte>, off: nat, z: Sizes, pending: seq<byte>, length: nat, used: seq<seq<byte>>, at: nat,
                 got: seq<byte>)
    requires Far(file, off, z, pending, length, used, at, got)
    ensures Blocks(file, off, z, used) && Needed(pending, used, length)
    ensures at == Past(file, off, |used|) && got == pending + Concat(used)
  {
    hide Blocks, Needed, Past, Concat;
  }

  lemma FarNothing(file: seq<byte>, off: nat, z: Sizes, pending: seq<byte>, length: nat)
    ensures Far(file, off, z, pending, length, [], off, [] + pending)
  {
    hide Blocks, Needed, Past;
    NoBlocks(file, off, z, pending, length);
  }

  /** The read stops where it is. */
  lemma FarStops(file: seq<byte>, off: nat, current: bool, z: Sizes, pending: seq<byte>, length: nat,
                 used: seq<seq<byte>>, at: nat, data: seq<byte>, had: seq<byte>, astray: bool)
    requires Far(file, off, z, pending, length, used, at, data + had)
    ensures Blocks(file, off, z, used) && Needed(pending, used, length)
    ensures length - |data| > |had| ==> length > |pending + Concat(used)|
    ensures var here := used != [] || current;
            (if astray then Strays(file, at, here, z) else Fails(file, at, here, z)) ==>
              Stopped(file, off, current, z, used, astray)
  {
    hide Blocks, Needed, Past, Concat, Strays, Fails;
  }

  /** A turn of the loop takes it on. */
  lemma FarOn(file: seq<byte>, off: nat, z: Sizes, pending: seq<byte>, length: nat, used: seq<seq<byte>>, at: nat,
              data: seq<byte>, had: seq<byte>, more: seq<seq<byte>>, at': nat, piece: seq<byte>, now: seq<byte>)
    requires Far(file, off, z, pending, length, used, at, data + had) && |more| <= 1
    requires more != [] ==> Decodes(file, at, z, LzFormat.Done(more[0])) && length - |data| > |had|
    requires at' == Past(file, at, |more|) && piece + now == had + Concat(more)
    ensures Far(file, off, z, pending, length, used + more, at', data + piece + now)
    ensures if more == [] then at' == at else at < at' <= |file|
  {
    hide Blocks, Needed, Past, Concat, Decodes;
    PastNone(file, at);
    MoreBlocks(file, off, z, used, more, pending, length);
    MoreData(data, had, pending, used, more, piece, now);
  }

  lemma Divide(data: seq<byte>, rest: seq<byte>, stream: seq<byte>)
    requires data + rest == stream
    ensures |data| <= |stream| && data == stream[..|data|] && rest == stream[|data|..]
  {}

  /** The streamer fails, or goes astray, at the block behind those used. */
  ghost predicate Stopped(file: seq<byte>, off: nat, current: bool, z: Sizes, used: seq<seq<byte>>, astray: bool) {
    var end, here := Past(file, off, |used|), used != [] || current;
    if astray then Strays(file, end, here, z) else Fails(file, end, here, z)
  }

  lemma NoBlocks(file: seq<byte>, off: nat, z: Sizes, pending: seq<byte>, length: nat)
    ensures Past(file, off, 0) == off && Blocks(file, off, z, []) && Needed(pending, [], length)
    ensures Concat([]) == []
  {}

  lemma MoreData(data: seq<byte>, had: seq<byte>, pending: seq<byte>, used: seq<seq<byte>>, more: seq<seq<byte>>,
                 piece: seq<byte>, now: seq<byte>)
    requires data + had == pending + Concat(used) && piece + now == had + Concat(more)
    ensures data + piece + now == pending + Concat(used + more)
  {
    hide Concat;
    ConcatConcat(used, more);
    assert data + piece + now == data + had + Concat(more) by {
      assert data + piece + now == data + (piece + now);
    }
    assert pending + Concat(used) + Concat(more) == pending + (Concat(used) + Concat(more));
  }

  /** No block is decoded that is not needed for `length` bytes. */
  ghost predicate Needed(pending: seq<byte>, used: seq<seq<byte>>, length: nat) {
    used != [] ==> length > |pending + Concat(used[..|used| - 1])|
  }

  lemma PastNone(file: seq<byte>, off: nat)
    ensures Past(file, off, 0) == off
  {}

  lemma PastNext(file: seq<byte>, off: nat, n: nat)
    ensures Past(file, off, n + 1) == Past(file, Past(file, off, n), 1)
  {}

  lemma DecodesInside(file: seq<byte>, off: nat, z: Sizes, r: LzFormat.Decoded)
    requires Decodes(file, off, z, r)
    ensures off < Past(file, off, 1) <= |file|
  {}

  lemma ConcatCons(a: seq<seq<byte>>)
    requires a != []
    ensures Concat(a) == a[0] + Concat(a[1..])
  {}

  lemma {:induction false} ConcatConcat(a: seq<seq<byte>>, b: seq<seq<byte>>)
    ensures Concat(a + b) == Concat(a) + Concat(b)
  {
    hide Concat;
    if a == [] {
      ConcatNone();
      assert a + b == b;
      assert [] + Concat(b) == Concat(b);
    } else {
      var rest := a[1..];
      ConcatCons(a);
      ConcatCons(a + b);
      ConcatConcat(rest, b);
      assert (a + b)[1..] == rest + b && (a + b)[0] == a[0];
      Associate(a[0], Concat(rest), Concat(b));
    }
  }

  lemma ConcatNone()
    ensures Concat([]) == []
  {}

  lemma Associate(a: seq<byte>, b: seq<byte>, c: seq<byte>)
    ensures a + (b + c) == a + b + c
  {}

  lemma MoreBlocks(file: seq<byte>, off: nat, z: Sizes, used: seq<seq<byte>>, more: seq<seq<byte>>, pending: seq<byte>,
                   length: nat)
    requires Blocks(file, off, z, used) && Needed(pending, used, length) && |more| <= 1
    requires more != [] ==>
               && Decodes(file, Past(file, off, |used|), z, LzFormat.Done(more[0]))
               && length > |pending + Concat(used)|
    ensures Blocks(file, off, z, used + more) && Needed(pending, used + more, length)
    ensures Past(file, off, |used + more|) == Past(file, Past(file, off, |used|), |more|)
    ensures more != [] ==> Past(file, off, |used|) < Past(file, off, |used + more|) <= |file|
    ensures Concat(used + more) == Concat(used) + Concat(more)
  {
    hide Decodes, Past, Blocks, Concat, Needed;
    ConcatConcat(used, more);
    PastNone(file, Past(file, off, |used|));
    if more == [] {
      assert used + more == used;
    } else {
      var chunk := more[0];
      assert more == [chunk];
      PastNext(file, off, |used|);
      DecodesInside(file, Past(file, off, |used|), z, LzFormat.Done(chunk));
      BlocksSnoc(file, off, z, used, chunk);
      NeededSnoc(pending, used, chunk, length);
    }
  }

  lemma NeededSnoc(pending: seq<byte>, used: seq<seq<byte>>, chunk: seq<byte>, length: nat)
    requires length > |pending + Concat(used)|
    ensures Needed(pending, used + [chunk], length)
  {
    hide Concat;
    assert (used + [chunk])[..|used|] == used;
  }

  lemma BlocksSnoc(file: seq<byte>, off: nat, z: Sizes, used: seq<seq<byte>>, chunk: seq<byte>)
    requires Blocks(file, off, z, used) && Decodes(file, Past(file, off, |used|), z, LzFormat.Done(chunk))
    ensures Blocks(file, off, z, used + [chunk])
  {
    hide Decodes, Past;
  }

  /** A good block is decoded to its chunk, whatever follows it in the cache buffer. */
  lemma Unpacks(compression: int, block: seq<byte>, chunk: seq<byte>, mem: seq<byte>, size: nat)
    requires Packs(compression, block, chunk) && block <= mem && |chunk| <= size
    ensures Unpacked(compression, mem, |block|, size) == LzFormat.Done(chunk)
  {
    hide LzFormat.DecompressedAny, LzFormat.Encodes;
    if compression == COMP_LZ77 {
      if LzFormat.Encodes(1, block, chunk) {
        LzFormat.RoundTrip(1, block, chunk, mem, size);
      } else {
        LzFormat.RoundTrip(2, block, chunk, mem, size);
      }
    }
  }

  // ---------------------------------------------------------------- whole streams

  /** A good block decodes to its chunk and to nothing else, and the streamer does not fail or go astray there. */
  lemma PacksDecodes(file: seq<byte>, off: nat, current: bool, z: Sizes, chunk: seq<byte>, r: LzFormat.Decoded)
    requires Framed(file, off, z.cache) && |chunk| <= z.buffer && Packs(z.compression, Block(file, off), chunk)
    ensures Decodes(file, off, z, r) ==> r == LzFormat.Done(chunk)
    ensures !Fails(file, off, current, z) && !Strays(file, off, current, z)
  {
    hide Packs, Unpacked;
    PlainSize(z.compression, Block(file, off), chunk);
    OneFate(file, off, current, z.cache);
    forall mem | Block(file, off) <= mem
      ensures Unpacked(z.compression, mem, BlockSize(file, off), z.buffer) == LzFormat.Done(chunk)
    {
      Unpacks(z.compression, Block(file, off), chunk, mem, z.buffer);
    }
  }

  lemma PlainSize(compression: int, block: seq<byte>, chunk: seq<byte>)
    requires Packs(compression, block, chunk)
    ensures compression == COMP_NONE ==> |block| == |chunk|
  {
  }

  lemma RegionHead(file: seq<byte>, off: nat, z: Sizes, chunks: seq<seq<byte>>)
    requires Region(file, off, z, chunks) && chunks != []
    ensures Framed(file, off, z.cache) && |chunks[0]| <= z.buffer
    ensures Packs(z.compression, Block(file, off), chunks[0])
    ensures Region(file, Past(file, off, 1), z, chunks[1..])
  {
    hide Packs;
    assert Past(file, off, 0) == off;
  }

  /** Where a region of good blocks is known, decoding follows it. */
  lemma {:induction false} Follow(file: seq<byte>, off: nat, z: Sizes, chunks: seq<seq<byte>>, used: seq<seq<byte>>,
                                  n: nat)
    requires Region(file, off, z, chunks) && Blocks(file, off, z, used) && n <= |used| && n <= |chunks|
    ensures used[..n] == chunks[..n] && Region(file, Past(file, off, n), z, chunks[n..])
    decreases n
  {
    hide Region, Packs, Decodes, Past;
    if n == 0 {
      PastNone(file, off);
      assert chunks[0..] == chunks;
    } else {
      var at := Past(file, off, n - 1);
      Follow(file, off, z, chunks, used, n - 1);
      RegionHead(file, at, z, chunks[n - 1..]);
      PacksDecodes(file, at, true, z, chunks[n - 1], LzFormat.Done(used[n - 1]));
      PastNext(file, off, n - 1);
      assert chunks[n - 1..][1..] == chunks[n..];
      assert used[..n] == used[..n - 1] + [used[n - 1]] && chunks[..n] == chunks[..n - 1] + [chunks[n - 1]];
    }
  }

  /** So a read within a known region uses the first of its chunks, and does not fail or go astray. */
  lemma WithinRegion(file: seq<byte>, off: nat, current: bool, z: Sizes, chunks: seq<seq<byte>>, used: seq<seq<byte>>,
                     pending: seq<byte>, length: nat)
    requires Region(file, off, z, chunks) && Blocks(file, off, z, used) && Needed(pending, used, length)
    requires length <= |pending + Concat(chunks)|
    ensures used <= chunks && Region(file, Past(file, off, |used|), z, chunks[|used|..])
    ensures Concat(used) + Concat(chunks[|used|..]) == Concat(chunks)
    ensures length > |pending + Concat(used)| ==>
              !Fails(file, Past(file, off, |used|), current, z) && !Strays(file, Past(file, off, |used|), current, z)
  {
    hide Region, Blocks, Packs, Past, Fails, Strays;
    if |used| > |chunks| {
      var n := |used| - 1;
      Follow(file, off, z, chunks, used, |chunks|);
      assert used[..n] == chunks + used[|chunks|..n] by { assert chunks[..|chunks|] == chunks; }
      ConcatConcat(chunks, used[|chunks|..n]);
      assert false;
    }
    Follow(file, off, z, chunks, used, |used|);
    assert used[..|used|] == used;
    assert used + chunks[|used|..] == chunks;
    ConcatConcat(used, chunks[|used|..]);
    if length > |pending + Concat(used)| {
      var at, rest := Past(file, off, |used|), chunks[|used|..];
      RegionHead(file, at, z, rest);
      PacksDecodes(file, at, current, z, rest[0], LzFormat.Reject);
    }
  }

  function Sum(ns: seq<nat>): nat {
    if ns == [] then 0 else ns[0] + Sum(ns[1..])
  }

  /** No block at this position decodes: it is refused, cut off or broken, whatever the cache buffer holds behind it. */
  ghost predicate Barren(file: seq<byte>, at: nat, z: Sizes) {
    forall out: seq<byte> :: !Decodes(file, at, z, LzFormat.Done(out))
  }

  lemma UsedDecode(file: seq<byte>, off: nat, z: Sizes, used: seq<seq<byte>>, k: nat)
    requires Blocks(file, off, z, used)
    ensures k < |used| ==> !Barren(file, Past(file, off, k), z)
  {
    hide Past, Decodes;
  }

  /** A read never gets past such a position. */
  lemma BeforeBarren(file: seq<byte>, off: nat, z: Sizes, chunks: seq<seq<byte>>, used: seq<seq<byte>>)
    requires Region(file, off, z, chunks) && Blocks(file, off, z, used) && Barren(file, Past(file, off, |chunks|), z)
    ensures |Concat(used)| <= |Concat(chunks)|
  {
    hide Region, Past, Decodes, Concat, Blocks, Barren;
    UsedDecode(file, off, z, used, |chunks|);
    Follow(file, off, z, chunks, used, |used|);
    assert used[..|used|] == used;
    assert used + chunks[|used|..] == chunks;
    ConcatConcat(used, chunks[|used|..]);
  }

  /**
   A read where a region of good blocks is known: within it the read succeeds, and past it it cannot if no block decodes
   there.
   */
  method ReadWithin(comp: Comp, files: Files, length: nat, wide: bool, works: bool, ghost chunks: seq<seq<byte>>)
    returns (err: Error, data: seq<byte>, ghost rest: seq<seq<byte>>)
    requires comp.Valid(files) && comp.Ahead(files, chunks)
    modifies comp, comp.buffer, comp.cache, comp.cache.buffer
    ensures comp.cache == old(comp.cache) && comp.fd == old(comp.fd) && comp.Shape() == old(comp.Shape())
    ensures works && length <= |old(comp.Undelivered()) + Concat(chunks)| ==> err == NoError
    ensures Barren(files[comp.fd], Past(files[comp.fd], old(comp.offset), |chunks|), comp.Shape()) ==>
              length > |old(comp.Undelivered()) + Concat(chunks)| ==> err != NoError
    ensures err == NoError && length <= |old(comp.Undelivered()) + Concat(chunks)| ==>
      var stream := old(comp.Undelivered()) + Concat(chunks);
      && comp.Valid(files) && comp.Ahead(files, rest)
      && data == stream[..length] && comp.Undelivered() + Concat(rest) == stream[length..]
  {
    hide Region, Blocks, Fails, Strays, Past, Needed, Barren, Concat;
    ghost var pending, off, current := comp.Undelivered(), comp.offset, comp.cache.fd == comp.fd;
    var astray;
    ghost var used;
    err, astray, data, used := comp.Read(files, length, wide, works);
    rest := [];
    if length <= |pending + Concat(chunks)| {
      WithinRegion(files[comp.fd], off, used != [] || current, comp.Shape(), chunks, used, pending, length);
      rest := chunks[|used|..];
      Regroup(pending, Concat(used), Concat(rest), length);
    } else if Barren(files[comp.fd], Past(files[comp.fd], off, |chunks|), comp.Shape()) {
      BeforeBarren(files[comp.fd], off, comp.Shape(), chunks, used);
    }
  }

  lemma Regroup(a: seq<byte>, b: seq<byte>, c: seq<byte>, n: nat)
    ensures a + (b + c) == a + b + c
    ensures n <= |a + b| ==> (a + b)[..n] == (a + b + c)[..n] && (a + b)[n..] + c == (a + b + c)[n..]
  {}

  /**
   A series of reads, split in any way: the pieces are consecutive, so joined they are the stream itself.
   */
  method ReadSeries(comp: Comp, files: Files, lengths: seq<nat>, wide: bool, works: bool, ghost chunks: seq<seq<byte>>)
    returns (ok: bool, data: seq<byte>, ghost pieces: seq<seq<byte>>)
    requires comp.Valid(files) && comp.Ahead(files, chunks)
    requires Sum(lengths) <= |comp.Undelivered() + Concat(chunks)|
    modifies comp, comp.buffer, comp.cache, comp.cache.buffer
    ensures works ==> ok
    ensures ok ==> |pieces| == |lengths| && forall i :: 0 <= i < |pieces| ==> |pieces[i]| == lengths[i]
    ensures ok ==> data == Concat(pieces) == (old(comp.Undelivered()) + Concat(chunks))[..Sum(lengths)]
    decreases |lengths|
  {
    hide Region;
    pieces, data := [], [];
    if lengths == [] { return true, [], []; }
    ghost var stream := comp.Undelivered() + Concat(chunks);
    var err, piece;
    ghost var rest;
    err, piece, rest := ReadWithin(comp, files, lengths[0], wide, works, chunks);
    if err != NoError { return false, [], []; }
    var more;
    ghost var tail;
    ok, more, tail := ReadSeries(comp, files, lengths[1..], wide, works, rest);
    pieces := [piece] + tail;
    data := piece + more;
    if ok { JoinSlices(stream, lengths[0], Sum(lengths[1..])); }
  }

  lemma JoinSlices(s: seq<byte>, a: nat, b: nat)
    requires a + b <= |s|
    ensures s[..a] + s[a..][..b] == s[..a + b]
  {
  }

  // ---------------------------------------------------------------- end to end

  /** The region depends on the file from its offset on only. */
  lemma {:induction false} RegionShift(pre: seq<byte>, file: seq<byte>, off: nat, z: Sizes,
                                       chunks: seq<seq<byte>>)
    requires Region(file, off, z, chunks)
    ensures Region(pre + file, |pre| + off, z, chunks)
    decreases |chunks|
  {
    hide Packs;
    if chunks != [] {
      var n := BlockSize(file, off);
      assert BlockSize(pre + file, |pre| + off) == n;
      assert Block(pre + file, |pre| + off) == Block(file, off);
      RegionShift(pre, file, off + 2 + n, z, chunks[1..]);
    }
  }

  /** A block with its length in front. */
  function Frame(block: seq<byte>): seq<byte>
    requires |block| < 65536
  {
    [|block| / 256, |block| % 256] + block
  }

  /** Putting a block in front of a region. */
  lemma RegionCons(block: seq<byte>, chunk: seq<byte>, rest: seq<byte>, z: Sizes, chunks: seq<seq<byte>>)
    requires 0 < |block| < 65536 && 2 <= z.cache && |block| <= z.cache && |chunk| <= z.buffer
    requires Packs(z.compression, block, chunk) && Region(rest, 0, z, chunks)
    ensures Region(Frame(block) + rest, 0, z, [chunk] + chunks)
  {
    hide Packs;
    var pre := Frame(block);
    var file := pre + rest;
    RegionShift(pre, rest, 0, z, chunks);
    assert BlockSize(file, 0) == |block|;
    assert Block(file, 0) == block;
    assert ([chunk] + chunks)[1..] == chunks;
  }

  /** Every chunk, compressed, fits a 16-bit length, the cache and the streamer's buffer. */
  predicate Packable(chunks: seq<seq<byte>>, cacheSize: nat, size: nat) {
    forall i :: 0 <= i < |chunks| ==> Fits(chunks[i], cacheSize, size)
  }

  predicate Fits(chunk: seq<byte>, cacheSize: nat, size: nat) {
    0 < |chunk| <= size && |chunk| + |chunk| / 32 + 1 < 65536 && |chunk| + |chunk| / 32 + 1 <= cacheSize
  }

  method PackChunk(level: int, chunk: seq<byte>, slot: nat -> nat) returns (block: seq<byte>)
    requires level == 1 || level == 2
    requires 0 < |chunk| < 0x8000_0000
    requires forall p :: slot(p) < 8192
    ensures Packs(COMP_LZ77, block, chunk) && 0 < |block| <= |chunk| + |chunk| / 32 + 1
  {
    hide LzFormat.Encodes;
    var out := new byte[|chunk| + |chunk| / 32 + 1];
    var n := Fastlz.CompressLevel(level, chunk, out, slot);
    block := out[..n];
  }

  /** A file made of compressed chunks. */
  method Pack(level: int, chunks: seq<seq<byte>>, cacheSize: nat, size: nat, slot: nat -> nat) returns (file: seq<byte>)
    requires level == 1 || level == 2
    requires Packable(chunks, cacheSize, size) && 2 <= cacheSize
    requires forall p :: slot(p) < 8192
    ensures Region(file, 0, Sizes(COMP_LZ77, cacheSize, size), chunks)
    decreases |chunks|
  {
    if chunks == [] { return []; }
    hide Packs, Region, Frame;
    var rest := Pack(level, chunks[1..], cacheSize, size, slot);
    assert Fits(chunks[0], cacheSize, size);
    var block := PackChunk(level, chunks[0], slot);
    RegionCons(block, chunks[0], rest, Sizes(COMP_LZ77, cacheSize, size), chunks[1..]);
    assert [chunks[0]] + chunks[1..] == chunks;
    file := Frame(block) + rest;
  }

  /**
   From compressor to loader: chunks compressed at either level into a file come back through the cache
   and the streamer as the concatenated chunks, however the reads are split.
   */
  method PackThenRead(level: int, chunks: seq<seq<byte>>, cacheSize: nat, size: nat, slot: nat -> nat,
                      fd: int, lengths: seq<nat>, wide: bool, works: bool) returns (ok: bool, data: seq<byte>)
    requires level == 1 || level == 2
    requires Packable(chunks, cacheSize, size) && 2 <= cacheSize
    requires forall p :: slot(p) < 8192
    requires 0 <= fd && Sum(lengths) <= |Concat(chunks)|
    ensures works ==> ok
    ensures ok ==> data == Concat(chunks)[..Sum(lengths)]
  {
    hide Region;
    var file := Pack(level, chunks, cacheSize, size, slot);
    var files: Files := map[fd := file];
    var cache := new Cache(cacheSize);
    var comp := new Comp(size);
    comp.Set(cache, fd, COMP_LZ77, 0);
    assert comp.Undelivered() == [];
    ghost var pieces;
    ok, data, pieces := ReadSeries(comp, files, lengths, wide, works, chunks);
    assert [] + Concat(chunks) == Concat(chunks);
  }
}
