/**
 ASCII transfers of ftpd.c (type A, section 3.1.1.1 of RFC 959): RETR sends CR LF for each line feed of the file,
 STOR writes a line feed for each CR LF received. Both work on buffers cut anywhere in the stream, and a `send`
 or `write` may fail part of the way.
 */
module FtpAscii {
  type Text = seq<char>

  function Concat(chunks: seq<Text>): Text {
    if chunks == [] then [] else chunks[0] + Concat(chunks[1..])
  }

  lemma ConcatAt(chunks: seq<Text>, k: nat)
    requires k < |chunks|
    ensures Concat(chunks[k..]) == chunks[k] + Concat(chunks[k + 1..])
  {
    assert chunks[k..][1..] == chunks[k + 1..];
  }

  /** As much of a text as the far side takes. */
  function Cut(s: Text, room: nat): Text {
    if |s| <= room then s else s[..room]
  }

  /**
   `send`, or `write`. The far side takes `room` bytes in all: a transfer stops at the first call that fails, so
   every way of failing is one such number. `rest` is what has to follow the data.
   */
  method Put(out: Text, data: Text, room: nat, ghost rest: Text) returns (out': Text, ok: bool)
    requires |out| <= room
    ensures ok <==> |out + data| <= room
    ensures ok ==> out' == out + data && out' + rest == out + (data + rest)
    ensures !ok ==> out' == Cut(out + (data + rest), room) && |out + (data + rest)| > room
  {
    var n := if |data| <= room - |out| then |data| else room - |out|;
    out', ok := out + data[..n], n == |data|;
  }

  // ---------------------------------------------------------------- RETR

  /** The stream for a file: CR LF in place of every line feed. */
  function Expand(f: Text): Text {
    if f == [] then [] else (if f[0] == '\n' then ['\r', '\n'] else [f[0]]) + Expand(f[1..])
  }

  lemma {:induction false} ExpandConcat(a: Text, b: Text)
    ensures Expand(a + b) == Expand(a) + Expand(b)
  {
    if a == [] {
      assert a + b == b;
    } else {
      assert (a + b)[1..] == a[1..] + b;
      ExpandConcat(a[1..], b);
    }
  }

  lemma ExpandAt(buf: Text, e: nat)
    requires e < |buf|
    ensures Expand(buf[e..]) == (if buf[e] == '\n' then ['\r', '\n'] else [buf[e]]) + Expand(buf[e + 1..])
  {
    assert buf[e..][1..] == buf[e + 1..];
  }

  /** The first line feed at or after `b`, or the end of the buffer. */
  method FindLf(buf: Text, b: nat) returns (e: nat)
    requires b <= |buf|
    ensures b <= e <= |buf|
    ensures e < |buf| ==> buf[e] == '\n'
    ensures Expand(buf[b..]) == buf[b..e] + Expand(buf[e..])
  {
    hide Expand;
    e := b;
    assert buf[b..e] == [];
    while e < |buf|
      invariant b <= e <= |buf|
      invariant Expand(buf[b..]) == buf[b..e] + Expand(buf[e..])
    {
      if buf[e] == '\n' { break; }
      ExpandAt(buf, e);
      assert buf[b..e] + [buf[e]] == buf[b..e + 1];
      e := e + 1;
    }
  }

  /** The sending loop for one buffer. */
  method SendChunk(sent: Text, buf: Text, room: nat) returns (sent': Text, ok: bool)
    requires |sent| <= room
    ensures sent' == Cut(sent + Expand(buf), room)
    ensures ok <==> |sent + Expand(buf)| <= room
  {
    hide Expand, Cut;
    sent' := sent;
    var b := 0;
    assert buf[b..] == buf;
    while b < |buf|
      invariant 0 <= b <= |buf| && |sent'| <= room
      invariant sent' + Expand(buf[b..]) == sent + Expand(buf)
    {
      var e := FindLf(buf, b);
      sent', ok := Put(sent', buf[b..e], room, Expand(buf[e..]));
      if !ok { return; }
      if e < |buf| {
        ExpandAt(buf, e);
        sent', ok := Put(sent', ['\r', '\n'], room, Expand(buf[e + 1..]));
        if !ok { return; }
        e := e + 1;
      }
      b := e;
    }
    ok := true;
    assert buf[b..] == [] && Expand([]) == [] by { ExpandNil(); }
    assert sent' + [] == sent';
    CutAll(sent', room);
  }

  lemma ExpandNil()
    ensures Expand([]) == []
  {}

  lemma CutAll(s: Text, room: nat)
    requires |s| <= room
    ensures Cut(s, room) == s
  {}

  /** Once a text is cut, what was to follow makes no difference. */
  lemma CutMore(s: Text, more: Text, room: nat)
    requires |s| > room
    ensures Cut(s + more, room) == Cut(s, room)
  {}

  /** The ASCII loop of `command_retrieve`; `chunks` is what `read` returns until the end of the file. */
  method Retrieve(chunks: seq<Text>, room: nat) returns (sent: Text, ok: bool)
    ensures sent == Cut(Expand(Concat(chunks)), room)
    ensures ok <==> |Expand(Concat(chunks))| <= room
  {
    hide Expand, Concat, Cut;
    sent := [];
    var k := 0;
    assert chunks[k..] == chunks;
    while k < |chunks|
      invariant 0 <= k <= |chunks| && |sent| <= room
      invariant sent + Expand(Concat(chunks[k..])) == Expand(Concat(chunks))
    {
      ConcatAt(chunks, k);
      ghost var first, last := Expand(chunks[k]), Expand(Concat(chunks[k + 1..]));
      ExpandConcat(chunks[k], Concat(chunks[k + 1..]));
      assert sent + (first + last) == (sent + first) + last;
      ghost var before := sent;
      sent, ok := SendChunk(sent, chunks[k], room);
      if !ok {
        CutMore(before + first, last, room);
        return;
      }
      CutAll(before + first, room);
      k := k + 1;
    }
    ok := true;
    assert chunks[k..] == [] && Expand(Concat([])) == [] by { Nothing(); }
    assert sent + [] == sent;
    CutAll(sent, room);
  }

  lemma Nothing()
    ensures Concat([]) == [] && Expand(Concat([])) == []
  {}

  // ---------------------------------------------------------------- STOR

  /** What a received character adds to the file; `held` says that the CR before it was not written yet. */
  function Emit(c: char, held: bool): Text {
    if c == '\n' then ['\n']
    else (if held then ['\r'] else []) + (if c == '\r' then [] else [c])
  }

  /** The file for a received stream: CR LF becomes a line feed, and a CR at the very end is held back. */
  function Collapse(s: Text, held: bool): Text {
    if s == [] then [] else Emit(s[0], held) + Collapse(s[1..], s[0] == '\r')
  }

  /** The number of line feeds that do not follow a CR. */
  function BareLfs(s: Text, held: bool): nat {
    if s == [] then 0 else (if s[0] == '\n' && !held then 1 else 0) + BareLfs(s[1..], s[0] == '\r')
  }

  predicate Held(s: Text, held: bool) {
    if s == [] then held else s[|s| - 1] == '\r'
  }

  lemma {:induction false} CollapseConcat(a: Text, b: Text, held: bool)
    ensures Collapse(a + b, held) == Collapse(a, held) + Collapse(b, Held(a, held))
    ensures BareLfs(a + b, held) == BareLfs(a, held) + BareLfs(b, Held(a, held))
  {
    hide Emit, Collapse, BareLfs;
    CollapseNone(held);
    if a == [] {
      assert a + b == b;
      assert [] + Collapse(b, held) == Collapse(b, held);
    } else {
      CollapseHead(a, held);
      CollapseHead(a + b, held);
      assert (a + b)[1..] == a[1..] + b;
      CollapseConcat(a[1..], b, a[0] == '\r');
      var first, middle, last := Emit(a[0], held), Collapse(a[1..], a[0] == '\r'), Collapse(b, Held(a, held));
      assert first + (middle + last) == first + middle + last;
    }
  }

  lemma CollapseNone(held: bool)
    ensures Collapse([], held) == [] && BareLfs([], held) == 0
  {}

  lemma CollapseHead(s: Text, held: bool)
    requires s != []
    ensures Collapse(s, held) == Emit(s[0], held) + Collapse(s[1..], s[0] == '\r')
    ensures BareLfs(s, held) == (if s[0] == '\n' && !held then 1 else 0) + BareLfs(s[1..], s[0] == '\r')
  {}

  lemma CollapseAt(buf: Text, e: nat, held: bool)
    requires e < |buf|
    ensures Collapse(buf[e..], held) == Emit(buf[e], held) + Collapse(buf[e + 1..], buf[e] == '\r')
    ensures BareLfs(buf[e..], held) ==
            (if buf[e] == '\n' && !held then 1 else 0) + BareLfs(buf[e + 1..], buf[e] == '\r')
  {
    hide Emit, Collapse, BareLfs;
    CollapseHead(buf[e..], held);
    assert buf[e..][1..] == buf[e + 1..];
  }

  /** The two writes after a scan of `buf[b..e]`: up to `stop`, then the line feed if CR LF was found. */
  function Segment(buf: Text, b: nat, e: nat, found: bool, held: bool): Text
    requires b <= e <= |buf|
  {
    var count := e - b - (if found then 2 else 0) - (if held then 1 else 0);
    (if count > 0 then buf[b..b + count] else []) + (if found then ['\n'] else [])
  }

  /** One more character of a scan that has not found CR LF. */
  lemma Extend(buf: Text, b: nat, e: nat, held: bool)
    requires b <= e < |buf| && (held ==> b < e && buf[e - 1] == '\r')
    ensures var found := held && buf[e] == '\n';
            Segment(buf, b, e, false, held) + Emit(buf[e], held) == Segment(buf, b, e + 1, found, buf[e] == '\r')
  {
    if held { ExtendHeld(buf, b, e); } else { ExtendFree(buf, b, e); }
    hide Segment, Emit;
  }

  lemma ExtendHeld(buf: Text, b: nat, e: nat)
    requires b < e < |buf| && buf[e - 1] == '\r'
    ensures Segment(buf, b, e, false, true) + Emit(buf[e], true) ==
            Segment(buf, b, e + 1, buf[e] == '\n', buf[e] == '\r')
  {
    var line := buf[b..e - 1];
    assert Segment(buf, b, e, false, true) == line;
    if buf[e] == '\r' {
      assert buf[b..e] == line + ['\r'];
    } else if buf[e] != '\n' {
      assert buf[b..e + 1] == line + ['\r', buf[e]];
      assert ['\r'] + [buf[e]] == ['\r', buf[e]];
    }
  }

  lemma ExtendFree(buf: Text, b: nat, e: nat)
    requires b <= e < |buf|
    ensures Segment(buf, b, e, false, false) + Emit(buf[e], false) == Segment(buf, b, e + 1, false, buf[e] == '\r')
  {
    assert Segment(buf, b, e, false, false) == buf[b..e];
    assert buf[b..e + 1] == buf[b..e] + [buf[e]];
  }

  /** The scan of `command_store`: up to and including the next CR LF, or to the end of the buffer. */
  method Scan(buf: Text, b: nat, held: bool, bare: nat) returns (e: nat, held': bool, found: bool, bare': nat)
    requires b < |buf| && (held ==> buf[b] == '\n')
    ensures b < e <= |buf| && (found || e == |buf|) && held' == (buf[e - 1] == '\r')
    ensures found ==> buf[e - 1] == '\n'
    ensures Collapse(buf[b..], held) == Segment(buf, b, e, found, held') + Collapse(buf[e..], held')
    ensures bare' + BareLfs(buf[e..], held') == bare + BareLfs(buf[b..], held)
  {
    hide Collapse, BareLfs, Emit, Segment;
    e, held', found, bare' := b, held, false, bare;
    Opening(buf, b, held);
    while e < |buf|
      invariant b <= e <= |buf| && !found
      invariant held' == (if e == b then held else buf[e - 1] == '\r')
      invariant held ==> e == b
      invariant Collapse(buf[b..], held) == Segment(buf, b, e, false, held') + Collapse(buf[e..], held')
      invariant bare' + BareLfs(buf[e..], held') == bare + BareLfs(buf[b..], held)
    {
      CollapseAt(buf, e, held');
      if e == b && held {
      } else {
        Extend(buf, b, e, held');
      }
      var pcr := held';
      held' := false;
      if buf[e] == '\r' {
        held' := true;
      } else if buf[e] == '\n' {
        if pcr {
          found := true;
          e := e + 1;
          break;
        }
        bare' := bare' + 1;
      }
      e := e + 1;
    }
  }

  lemma Opening(buf: Text, b: nat, held: bool)
    requires b < |buf|
    ensures Segment(buf, b, b, false, held) == []
    ensures Segment(buf, b, b + 1, true, false) == Emit('\n', held)
  {}

  /** The writes after a scan; when the second one fails, the loop in `command_store` scans once more. */
  method Flush(file: Text, buf: Text, b: nat, e: nat, found: bool, held: bool, room: nat, ghost rest: Text)
    returns (file': Text, ok: bool, stop: bool)
    requires b <= e <= |buf| && (found ==> b < e && buf[e - 1] == '\n') && |file| <= room
    ensures ok ==> file' + rest == file + (Segment(buf, b, e, found, held) + rest) && |file'| <= room
    ensures !ok ==> file' == Cut(file + (Segment(buf, b, e, found, held) + rest), room)
    ensures !ok ==> |file + (Segment(buf, b, e, found, held) + rest)| > room
    ensures stop ==> !ok
  {
    Pieces(buf, b, e, found, held, rest);
    hide Segment, Cut;
    file', ok, stop := file, true, false;
    ghost var lf := if found then ['\n'] else [];
    var count := e - b - (if found then 2 else 0) - (if held then 1 else 0);
    if count > 0 {
      file', ok := Put(file', buf[b..b + count], room, lf + rest);
      if !ok {
        stop := true;
        return;
      }
    }
    if found {
      file', ok := Put(file', [buf[e - 1]], room, rest);
    }
  }

  /** `command_store` on one received buffer; `held` is a CR pending from the buffer before. */
  method StoreChunk(file: Text, buf: Text, held: bool, bare: nat, room: nat)
    returns (file': Text, held': bool, bare': nat, ok: bool)
    requires buf != [] && |file| <= room
    ensures file' == Cut(file + Collapse(buf, held), room)
    ensures ok <==> |file + Collapse(buf, held)| <= room
    ensures ok ==> held' == Held(buf, held) && bare' == bare + BareLfs(buf, held)
  {
    hide Collapse, BareLfs, Emit, Segment, Cut;
    file', held', bare', ok := file, held, bare, true;
    var b := 0;
    assert buf[b..] == buf;
    if held' && buf[0] != '\n' {
      Leading(buf);
      held' := false;
      file', ok := Put(file', ['\r'], room, Collapse(buf, false));
      if !ok { return; }
    }
    ghost var goal := file + Collapse(buf, held);
    while b < |buf|
      invariant 0 <= b <= |buf|
      invariant held' && b < |buf| ==> buf[b] == '\n'
      invariant b > 0 ==> held' == (buf[b - 1] == '\r')
      invariant if ok then |file'| <= room && file' + Collapse(buf[b..], held') == goal
                else file' == Cut(goal, room) && |goal| > room
      invariant bare' + BareLfs(buf[b..], held') == bare + BareLfs(buf, held)
    {
      var e, found, stop;
      e, held', found, bare' := Scan(buf, b, held', bare');
      if !ok { return; }
      file', ok, stop := Flush(file', buf, b, e, found, held', room, Collapse(buf[e..], held'));
      if stop { return; }
      b := e;
    }
    assert buf[b..] == [];
    Closing(held');
    assert file' + [] == file';
    if ok { CutAll(file', room); }
  }

  lemma Leading(buf: Text)
    requires buf != [] && buf[0] != '\n'
    ensures Collapse(buf, true) == ['\r'] + Collapse(buf, false)
    ensures BareLfs(buf, true) == BareLfs(buf, false)
  {}

  lemma Pieces(buf: Text, b: nat, e: nat, found: bool, held: bool, rest: Text)
    requires b <= e <= |buf|
    ensures var count := e - b - (if found then 2 else 0) - (if held then 1 else 0);
            Segment(buf, b, e, found, held) + rest
            == (if count > 0 then buf[b..b + count] else []) + ((if found then ['\n'] else []) + rest)
  {}

  lemma Closing(held: bool)
    ensures Collapse([], held) == [] && BareLfs([], held) == 0
  {}

  /** The ASCII loop of `command_store`; `chunks` is what `recv` returns until the connection is closed. */
  method Store(chunks: seq<Text>, room: nat) returns (file: Text, bare: nat, ok: bool)
    requires forall i :: 0 <= i < |chunks| ==> chunks[i] != []
    ensures file == Cut(Collapse(Concat(chunks), false), room)
    ensures ok <==> |Collapse(Concat(chunks), false)| <= room
    ensures ok ==> bare == BareLfs(Concat(chunks), false)
  {
    hide Collapse, BareLfs, Concat, Held, Cut;
    file, bare, ok := [], 0, true;
    var held, k := false, 0;
    assert chunks[k..] == chunks;
    while k < |chunks|
      invariant 0 <= k <= |chunks| && ok && |file| <= room
      invariant file + Collapse(Concat(chunks[k..]), held) == Collapse(Concat(chunks), false)
      invariant bare + BareLfs(Concat(chunks[k..]), held) == BareLfs(Concat(chunks), false)
    {
      ConcatAt(chunks, k);
      ghost var before, tail := file, Concat(chunks[k + 1..]);
      ghost var first, last := Collapse(chunks[k], held), Collapse(tail, Held(chunks[k], held));
      CollapseConcat(chunks[k], tail, held);
      assert before + (first + last) == (before + first) + last;
      file, held, bare, ok := StoreChunk(file, chunks[k], held, bare, room);
      if !ok {
        CutMore(before + first, last, room);
        return;
      }
      CutAll(before + first, room);
      k := k + 1;
    }
    assert chunks[k..] == [] && Concat([]) == [] by { Nothing(); }
    Closing(held);
    assert file + [] == file;
    CutAll(file, room);
  }

  /** The same file by looking ahead: the stream without each CR that a line feed, or nothing at all, follows. */
  function Strip(s: Text): Text {
    if s == [] then []
    else if s[0] == '\r' && (|s| == 1 || s[1] == '\n') then Strip(s[1..])
    else [s[0]] + Strip(s[1..])
  }

  lemma {:induction false} CollapseStrips(s: Text, held: bool)
    ensures Collapse(s, held) == (if held && s != [] && s[0] != '\n' then ['\r'] else []) + Strip(s)
  {
    if s != [] {
      CollapseStrips(s[1..], s[0] == '\r');
    }
  }

  // ---------------------------------------------------------------- there and back

  /** The file without a CR at its end. */
  function Kept(f: Text): Text {
    if f != [] && f[|f| - 1] == '\r' then f[..|f| - 1] else f
  }

  function Lead(held: bool): Text {
    if held then ['\r'] else []
  }

  /** A held CR and the file after it. */
  function Restored(f: Text, held: bool): Text {
    if f == [] then [] else Lead(held) + Kept(f)
  }

  lemma KeptCons(f: Text)
    requires f != []
    ensures |f| == 1 ==> f[1..] == [] && Kept(f) == if f[0] == '\r' then [] else [f[0]]
    ensures |f| > 1 ==> Kept(f) == [f[0]] + Kept(f[1..])
  {
    assert f == [f[0]] + f[1..];
  }

  lemma RestoredCons(f: Text, held: bool)
    requires f != []
    ensures Restored(f, held) == Lead(held) + (if f[0] == '\r' then [] else [f[0]]) + Restored(f[1..], f[0] == '\r')
  {
    hide Kept, Lead;
    KeptCons(f);
    Leads();
    var lead, c, rest := Lead(held), [f[0]], f[1..];
    if rest == [] {
      assert lead + [] + [] == lead && lead + c + [] == lead + c && lead + [] == lead;
    } else if f[0] == '\r' {
      assert lead + [] + (c + Kept(rest)) == lead + (c + Kept(rest));
    } else {
      assert [] + Kept(rest) == Kept(rest);
      assert lead + (c + Kept(rest)) == lead + c + Kept(rest);
    }
  }

  lemma Leads()
    ensures Lead(true) == ['\r'] && Lead(false) == []
  {}

  lemma CollapseLine(rest: Text, held: bool)
    ensures Collapse(['\r', '\n'] + rest, held) == Lead(held) + ['\n'] + Collapse(rest, false)
    ensures BareLfs(['\r', '\n'] + rest, held) == BareLfs(rest, false)
  {
    hide Collapse, BareLfs;
    var s := ['\r', '\n'] + rest;
    CollapseAt(s, 0, held);
    CollapseAt(s, 1, true);
    assert s[0..] == s && s[2..] == rest;
    assert Lead(held) + (['\n'] + Collapse(rest, false)) == Lead(held) + ['\n'] + Collapse(rest, false);
  }

  lemma CollapseOther(c: char, rest: Text, held: bool)
    requires c != '\n'
    ensures Collapse([c] + rest, held) == Lead(held) + (if c == '\r' then [] else [c]) + Collapse(rest, c == '\r')
    ensures BareLfs([c] + rest, held) == BareLfs(rest, c == '\r')
  {
    assert ([c] + rest)[1..] == rest;
  }

  /** Storing what was sent for a file gives the file back, except for a CR at its end; no line feed counts as bare. */
  lemma {:induction false} CollapseExpand(f: Text, held: bool)
    ensures Collapse(Expand(f), held) == Restored(f, held)
    ensures BareLfs(Expand(f), held) == 0
  {
    if f == [] {
      Closing(held);
    } else {
      var rest := Expand(f[1..]);
      assert Expand(f) == (if f[0] == '\n' then ['\r', '\n'] else [f[0]]) + rest;
      hide *;
      CollapseExpand(f[1..], f[0] == '\r');
      if f[0] == '\n' {
        CollapseLine(rest, held);
      } else {
        CollapseOther(f[0], rest, held);
      }
      RestoredCons(f, held);
    }
  }

  /** RETR then STOR is the identity on exactly the files that do not end in CR, however both streams are cut. */
  method RetrieveThenStore(blocks: seq<Text>, packets: seq<Text>, room: nat) returns (sent: Text, file: Text, bare: nat)
    requires forall i :: 0 <= i < |packets| ==> packets[i] != []
    requires Concat(packets) == Expand(Concat(blocks)) && |Expand(Concat(blocks))| <= room
    ensures sent == Concat(packets)
    ensures file == Kept(Concat(blocks)) && bare == 0
    ensures file == Concat(blocks) <==> !Held(Concat(blocks), false)
  {
    hide Expand, Collapse, BareLfs;
    var ok;
    sent, ok := Retrieve(blocks, room);
    CollapseExpand(Concat(blocks), false);
    ExpandLonger(Concat(blocks));
    file, bare, ok := Store(packets, room);
  }

  lemma {:induction false} ExpandLonger(f: Text)
    ensures |Kept(f)| <= |f| <= |Expand(f)|
  {
    if f != [] { ExpandLonger(f[1..]); }
  }
}
