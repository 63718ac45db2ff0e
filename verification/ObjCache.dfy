/**
 rtl-obj-cache.c: a sliding window over the file of one descriptor at a time. The system calls may fail
 and `read` may return short; the contents behind a descriptor do not change while it is open.
 */
module ObjCache {
  import opened Bytes

  /** The files behind the open descriptors. */
  type Files = f: map<int, seq<byte>> | -1 !in f witness map[]

  function Min(a: int, b: int): int {
    if a < b then a else b
  }

  // ---------------------------------------------------------------- system calls

  /** `read`: an error unless the system `works`, end of file, or any number of the bytes asked for, from one up. */
  method PosixRead(file: seq<byte>, pos: nat, buf: array<byte>, at: nat, n: nat, works: bool) returns (r: int)
    requires 0 < n && at + n <= buf.Length
    modifies buf
    ensures -1 <= r <= n && (works ==> 0 <= r)
    ensures r == 0 ==> |file| <= pos
    ensures 0 < r ==> pos + r <= |file| && forall i :: at <= i < at + r ==> buf[i] == file[pos + (i - at)]
    ensures forall i :: 0 <= i < at ==> buf[i] == old(buf[i])
  {
    var fails: bool := *;
    if fails && !works {
      return -1;
    }
    if |file| <= pos {
      return 0;
    }
    r :| 0 < r <= n && r <= |file| - pos;
    forall i | 0 <= i < r {
      buf[at + i] := file[pos + i];
    }
  }

  method SystemCall(works: bool) returns (ok: bool)
    ensures works ==> ok
  {
    ok := *;
    ok := ok || works;
  }

  // ---------------------------------------------------------------- one turn of the read loop

  /** What the loop looks at, apart from the bytes. */
  datatype Window = Window(fd: int, offset: nat, level: nat)

  /** Is any part of the data in the cache? */
  predicate Hit(w: Window, fd: int, off: nat) {
    w.fd == fd && w.offset <= off < w.offset + w.level
  }

  /** Is all of it? */
  predicate Full(w: Window, fd: int, off: nat, length: nat) {
    Hit(w, fd, off) && length <= w.offset + w.level - off
  }

  /** The window after a turn that does not return: as much of the file from `off` on as fits. */
  function Slide(size: nat, fileSize: nat, fd: int, off: nat): Window {
    Window(fd, off, if off < fileSize then Min(size, fileSize - off) else 0)
  }

  /** The window after at most `n` turns without I/O errors; it stays put once the loop has returned. */
  function Turns(n: nat, size: nat, fileSize: nat, w: Window, fd: int, off: nat, length: nat): Window {
    if n == 0 || Full(w, fd, off, length) then w
    else Turns(n - 1, size, fileSize, Slide(size, fileSize, fd, off), fd, off, length)
  }

  /** The loop returns within `n` turns. */
  predicate EndsBy(n: nat, size: nat, fileSize: nat, w: Window, fd: int, off: nat, length: nat) {
    Full(Turns(n, size, fileSize, w, fd, off, length), fd, off, length)
  }

  /**
   Exactly when the loop ends: the cache is not of size zero, the offset is inside the file and so is
   the range. (For the descriptor already in the cache the range has been truncated beforehand.)
   */
  lemma {:induction false} LoopEnds(size: nat, fileSize: nat, w: Window, fd: int, off: nat, length: nat)
    requires length <= size
    requires w.fd == fd ==> w.level <= size && w.offset + w.level <= fileSize
    ensures (exists n: nat :: EndsBy(n, size, fileSize, w, fd, off, length))
       <==> 0 < size && off < fileSize && off + length <= fileSize
  {
    var s := Slide(size, fileSize, fd, off);
    if 0 < size && off < fileSize && off + length <= fileSize {
      assert Full(s, fd, off, length);
      var n: nat := 1;
      assert Turns(n - 1, size, fileSize, s, fd, off, length) == s;
      assert EndsBy(n, size, fileSize, w, fd, off, length);
    } else {
      forall n: nat ensures !EndsBy(n, size, fileSize, w, fd, off, length) {
        if n > 0 { Stuck(n - 1, size, fileSize, fd, off, length); }
      }
    }
  }

  /** A window that is as good as it gets and still not enough is refilled for ever. */
  lemma {:induction false} Stuck(n: nat, size: nat, fileSize: nat, fd: int, off: nat, length: nat)
    requires !Full(Slide(size, fileSize, fd, off), fd, off, length)
    ensures Turns(n, size, fileSize, Slide(size, fileSize, fd, off), fd, off, length) == Slide(size, fileSize, fd, off)
  {
    if n > 0 { Stuck(n - 1, size, fileSize, fd, off, length); }
  }

  // ---------------------------------------------------------------- the cache

  datatype Error = NoError | TooLong | PastEnd | Failed

  class Cache {
    var fd: int
    var fileSize: nat
    var offset: nat
    var level: nat
    const size: nat
    const buffer: array<byte>

    ghost predicate Valid(files: Files)
      reads this, buffer
    {
      && buffer.Length == size && level <= size
      && (fd != -1 ==>
            && fd in files && fileSize == |files[fd]|
            && offset + level <= fileSize
            && Holds(files[fd], offset, level))
    }

    /** The first `n` bytes of the buffer are the file from `off` on. */
    ghost predicate Holds(file: seq<byte>, off: nat, n: nat)
      requires n <= buffer.Length && off + n <= |file|
      reads buffer
    {
      forall i :: 0 <= i < n ==> buffer[i] == file[off + i]
    }

    ghost function View(): Window
      reads this
    {
      Window(fd, offset, level)
    }

    /** `rtems_rtl_obj_cache_open` */
    constructor (size: nat)
      ensures forall files: Files :: Valid(files)
      ensures fd == -1 && this.size == size && fresh(buffer)
    {
      fd, fileSize, offset, level := -1, 0, 0, 0;
      this.size := size;
      buffer := new byte[size];
    }

    /** `rtems_rtl_obj_cache_flush`: good for any files, even after a failed read. */
    method Flush()
      requires buffer.Length == size
      modifies this
      ensures forall files: Files :: Valid(files)
      ensures fd == -1
    {
      fd, fileSize, offset, level := -1, 0, 0, 0;
    }

    /** The inner loop: fill `buffer[from..from + count]` from the file position of the descriptor. */
    method Fill(file: seq<byte>, off: nat, from: nat, count: nat, works: bool) returns (ok: bool)
      requires buffer.Length == size && from + count <= size && off + from <= |file|
      requires Holds(file, off, from)
      modifies this`level, buffer
      ensures works ==> ok
      ensures ok ==> level == from + Min(count, |file| - off - from)
      ensures level <= size
      ensures ok ==> Holds(file, off, level)
    {
      var bufferOffset, bufferRead, pos := from, count, off + from;
      level := bufferOffset + bufferRead;
      while bufferRead > 0
        invariant 0 <= bufferRead && from <= bufferOffset && pos == off + bufferOffset <= |file|
        invariant level == bufferOffset + bufferRead <= size
        invariant bufferRead > 0 ==> level == from + count
        invariant bufferRead == 0 ==> level == from + Min(count, |file| - off - from)
        invariant Holds(file, off, bufferOffset)
        decreases bufferRead
      {
        var r := PosixRead(file, pos, buffer, bufferOffset, bufferRead, works);
        if r < 0 {
          return false;
        }
        if r == 0 {
          level := level - bufferRead;
          bufferRead := 0;
        } else {
          bufferRead := bufferRead - r;
          bufferOffset := bufferOffset + r;
          pos := pos + r;
        }
      }
      ok := true;
    }

    /** Copy down the data in the buffer. */
    method CopyDown(files: Files, off: nat)
      requires Valid(files) && fd in files && offset <= off < offset + level
      modifies this`offset, this`level, buffer
      ensures Valid(files) && View() == Window(fd, off, old(offset + level) - off)
    {
      var bufferOffset := off - offset;
      var avail := level - bufferOffset;
      forall i | 0 <= i < avail {
        buffer[i] := buffer[bufferOffset + i];
      }
      forall i | 0 <= i < avail ensures buffer[i] == files[fd][off + i] {
        assert buffer[i] == old(buffer[bufferOffset + i]) == files[fd][offset + (bufferOffset + i)];
      }
      offset := off;
      level := avail;
    }

    /** One turn of the loop that does not find all of the data: slide the window to `off`. */
    method Refill(files: Files, fd: int, off: nat, works: bool) returns (ok: bool)
      requires Valid(files) && fd in files && off <= |files[fd]|
      modifies this, buffer
      ensures level <= size && (works ==> ok)
      ensures ok ==> Valid(files) && View() == Slide(size, |files[fd]|, fd, off)
    {
      var bufferOffset, bufferRead := 0, size;
      if fd == this.fd {
        if off + bufferRead > fileSize {
          bufferRead := fileSize - off;
        }
        if offset <= off < offset + level {
          CopyDown(files, off);
          bufferRead := size - level;
          bufferOffset := level;
          if off + bufferOffset + bufferRead > fileSize {
            bufferRead := fileSize - (off + bufferOffset);
          }
        }
      }
      ok := SystemCall(works);  // lseek
      if !ok {
        return;
      }
      ok := Fill(files[fd], off, bufferOffset, bufferRead, works);
      if !ok {
        return;
      }
      offset := off;
      if this.fd != fd {
        this.fd := fd;
        ok := SystemCall(works);  // fstat
        if ok {
          fileSize := |files[fd]|;
        }
      }
    }

    /** The calls that come back: see LoopEnds. */
    predicate Answers(files: Files, fd: int, off: nat, length: nat)
      requires fd in files
      reads this
    {
      || length > size
      || (this.fd == fd && off > |files[fd]|)
      || (0 < size && off < |files[fd]| && (this.fd == fd || off + length <= |files[fd]|))
    }

    /**
     `rtems_rtl_obj_cache_read`: on success the data is `buffer[at..at + len]` and is exactly the file at
     `off`, shortened only by the end of the file.
     */
    method Read(files: Files, fd: int, off: nat, length: nat, works: bool) returns (err: Error, at: nat, len: nat)
      requires Valid(files) && fd in files && Answers(files, fd, off, length)
      modifies this, buffer
      ensures works ==> err != Failed
      ensures err == TooLong <==> length > size
      ensures err == PastEnd <==> length <= size && old(this.fd) == fd && off > |files[fd]|
      ensures err == TooLong || err == PastEnd ==>
                Valid(files) && View() == old(View()) && buffer[..] == old(buffer[..])
      ensures err == NoError ==>
        && Valid(files) && this.fd == fd && off < |files[fd]|
        && len == Min(length, |files[fd]| - off) && at + len <= level
        && buffer[at..at + len] == files[fd][off..off + len]
    {
      at, len := 0, length;
      if length > size {
        return TooLong, 0, len;
      }
      if this.fd == fd {
        if off > fileSize {
          return PastEnd, 0, len;
        }
        if off + length > fileSize {
          len := fileSize - off;
        }
      }
      while true
        invariant Valid(files) && len <= size && off < |files[fd]|
        invariant len == Min(length, |files[fd]| - off)
        decreases if Full(View(), fd, off, len) then 0 else 1
      {
        if fd == this.fd && offset <= off < offset + level {
          at := off - offset;
          if len <= level - at {
            WindowSlice(buffer[..level], files[fd], offset, at, len);
            assert buffer[..level][at..at + len] == buffer[at..at + len];
            return NoError, at, len;
          }
        }
        var ok := Refill(files, fd, off, works);
        if !ok {
          return Failed, 0, len;
        }
      }
    }

    /** `rtems_rtl_obj_cache_read_byval`: all of the data or nothing. */
    method ReadByVal(files: Files, fd: int, off: nat, length: nat, works: bool) returns (err: Error, data: seq<byte>)
      requires Valid(files) && fd in files && Answers(files, fd, off, length)
      modifies this, buffer
      ensures err == NoError ==> Valid(files) && this.fd == fd
      ensures err == NoError ==> off + length <= |files[fd]| && data == files[fd][off..off + length]
      ensures err != NoError ==> data == []
      ensures works && length <= size && off + length <= |files[fd]| && off < |files[fd]| ==> err == NoError
    {
      var at, len;
      err, at, len := Read(files, fd, off, length, works);
      data := [];
      if err == NoError && len != length {
        err := Failed;
      }
      if err == NoError {
        data := buffer[at..at + len];
      }
    }
  }

  lemma WindowSlice(window: seq<byte>, file: seq<byte>, offset: nat, at: nat, len: nat)
    requires offset + |window| <= |file| && at + len <= |window|
    requires forall i :: 0 <= i < |window| ==> window[i] == file[offset + i]
    ensures window[at..at + len] == file[offset + at..offset + at + len]
  {}

  // ---------------------------------------------------------------- histories

  datatype Request = Flush | Get(fd: int, off: nat, length: nat)

  /**
   A history the loop answers: ranges begin inside the file and end there too, except that on the descriptor of the
   last successful read a range may pass the end, and one that begins past the end is refused.
   */
  ghost predicate Legal(files: Files, size: nat, current: int, reqs: seq<Request>)
    decreases |reqs|
  {
    reqs != [] ==>
      match reqs[0]
      case Flush => Legal(files, size, -1, reqs[1..])
      case Get(fd, off, length) =>
        && fd in files
        && (length > size || (current == fd && off > |files[fd]|) ==> Legal(files, size, current, reqs[1..]))
        && (length <= size && !(current == fd && off > |files[fd]|) ==>
              && 0 < size && off < |files[fd]| && (off + length <= |files[fd]| || current == fd)
              && Legal(files, size, fd, reqs[1..]))
  }

  /** What a request may deliver: the slice of the file, or nothing when it is refused. */
  ghost predicate Answer(files: Files, size: nat, req: Request, data: seq<byte>) {
    match req
    case Flush => data == []
    case Get(fd, off, length) =>
      if length > size || (fd in files && off > |files[fd]|) then data == []
      else fd in files && data == files[fd][off..off + Min(length, |files[fd]| - off)]
  }

  /**
   Any history of reads and flushes over several descriptors: every answer is the file's own bytes. It
   stops at the first I/O error, after which the loader flushes.
   */
  method Serve(cache: Cache, files: Files, reqs: seq<Request>, works: bool)
    returns (answers: seq<seq<byte>>, failed: bool)
    requires cache.Valid(files) && Legal(files, cache.size, cache.fd, reqs)
    modifies cache, cache.buffer
    ensures |answers| <= |reqs| && (!failed ==> |answers| == |reqs|) && (works ==> !failed)
    ensures forall i :: 0 <= i < |answers| ==> Answer(files, cache.size, reqs[i], answers[i])
    ensures cache.Valid(files)
  {
    answers, failed := [], false;
    var k := 0;
    while k < |reqs|
      invariant 0 <= k <= |reqs| && |answers| == k
      invariant cache.Valid(files) && Legal(files, cache.size, cache.fd, reqs[k..])
      invariant forall i :: 0 <= i < k ==> Answer(files, cache.size, reqs[i], answers[i])
    {
      var data: seq<byte> := [];
      assert reqs[k..][0] == reqs[k] && reqs[k..][1..] == reqs[k + 1..];
      match reqs[k] {
        case Flush =>
          cache.Flush();
        case Get(fd, off, length) =>
          var err, at, len := cache.Read(files, fd, off, length, works);
          if err == Failed {
            cache.Flush();
            return answers, true;
          }
          if err == NoError {
            data := cache.buffer[at..at + len];
          }
      }
      answers := answers + [data];
      k := k + 1;
    }
  }
}
