/**
 The compression step of MD4 (section 3.4 of RFC 1320) and its unrolled form in md4.c.
 */
module Md4Block {
  type octet = bv8

  /** A 32-bit word; the wrapper keeps bit-level reasoning inside the operations below. */
  datatype word = W(v: bv32)

  datatype State = State(a: word, b: word, c: word, d: word)

  function Add(x: word, y: word): word { W(x.v + y.v) }

  // ---------------------------------------------------------------- section 3.4 of RFC 1320

  function F(x: word, y: word, z: word): word { W((x.v & y.v) | (!x.v & z.v)) }

  function G(x: word, y: word, z: word): word { W((x.v & y.v) | (x.v & z.v) | (y.v & z.v)) }

  function H(x: word, y: word, z: word): word { W(x.v ^ y.v ^ z.v) }

  function Rotated(x: word, s: nat): word
    requires s < 32
  {
    W(x.v.RotateLeft(s))
  }

  /** The constants of rounds 2 and 3, from the square roots of 2 and of 3. */
  const K2 := W(0x5A827999)
  const K3 := W(0x6ED9EBA1)

  /** The word that operation `i` of the 48 takes: in order, by columns, and with the four bits of `i` reversed. */
  function Index(i: nat): (k: nat)
    requires i < 48
    ensures k < 16
  {
    if i < 16 then i
    else if i < 32 then i % 4 * 4 + (i - 16) / 4
    else i % 2 * 8 + i / 2 % 2 * 4 + i / 4 % 2 * 2 + i / 8 % 2
  }

  function Shift(i: nat): (s: nat)
    ensures s in {3, 5, 7, 9, 11, 13, 15, 19}
  {
    if i < 16 then (match i % 4 case 0 => 3 case 1 => 7 case 2 => 11 case _ => 19)
    else if i < 32 then (match i % 4 case 0 => 3 case 1 => 5 case 2 => 9 case _ => 13)
    else (match i % 4 case 0 => 3 case 1 => 9 case 2 => 11 case _ => 15)
  }

  /** One operation `[ABCD k s]`, followed by the turn of the four registers. */
  function Operation(st: State, x: seq<word>, i: nat): State
    requires |x| == 16 && i < 48
  {
    var v := x[Index(i)];
    var t := if i < 16 then Add(Add(st.a, F(st.b, st.c, st.d)), v)
             else if i < 32 then Add(Add(Add(st.a, G(st.b, st.c, st.d)), v), K2)
             else Add(Add(Add(st.a, H(st.b, st.c, st.d)), v), K3);
    State(st.d, Rotated(t, Shift(i)), st.b, st.c)
  }

  function Operations(st: State, x: seq<word>, i: nat, n: nat): State
    requires |x| == 16 && i <= n <= 48
    decreases |x| + n
  {
    if i == n then st else Operation(Operations(st, x, i, n - 1), x, n - 1)
  }

  /** Four bytes as a word, the low-order byte first. */
  function Word(b0: octet, b1: octet, b2: octet, b3: octet): word {
    W((b0 as bv32) | ((b1 as bv32) << 8) | ((b2 as bv32) << 16) | ((b3 as bv32) << 24))
  }

  function WordAt(block: seq<octet>, i: nat): word
    requires |block| == 64 && i < 16
  {
    Word(block[4 * i], block[4 * i + 1], block[4 * i + 2], block[4 * i + 3])
  }

  function Words(block: seq<octet>): seq<word>
    requires |block| == 64
  {
    seq(16, i requires 0 <= i < 16 => WordAt(block, i))
  }

  function Compress(st: State, block: seq<octet>): State
    requires |block| == 64
  {
    var r := Operations(st, Words(block), 0, 48);
    State(Add(st.a, r.a), Add(st.b, r.b), Add(st.c, r.c), Add(st.d, r.d))
  }

  // ---------------------------------------------------------------- the macros of md4.c

  function Rot(x: word, s: nat): word
    requires 0 < s < 32
  {
    W((x.v << s) | (x.v >> (32 - s)))
  }

  function FF(a: word, b: word, c: word, d: word, x: word, s: nat): word
    requires 0 < s < 32
  {
    Rot(Add(Add(a, F(b, c, d)), x), s)
  }

  function GG(a: word, b: word, c: word, d: word, x: word, s: nat): word
    requires 0 < s < 32
  {
    Rot(Add(Add(Add(a, G(b, c, d)), x), K2), s)
  }

  function HH(a: word, b: word, c: word, d: word, x: word, s: nat): word
    requires 0 < s < 32
  {
    Rot(Add(Add(Add(a, H(b, c, d)), x), K3), s)
  }

  lemma RotRotates(x: word, s: nat)
    requires s in {3, 5, 7, 9, 11, 13, 15, 19}
    ensures Rot(x, s) == Rotated(x, s)
  {
    if s == 3 { assert Rot(x, 3) == Rotated(x, 3); }
    else if s == 5 { assert Rot(x, 5) == Rotated(x, 5); }
    else if s == 7 { assert Rot(x, 7) == Rotated(x, 7); }
    else if s == 9 { assert Rot(x, 9) == Rotated(x, 9); }
    else if s == 11 { assert Rot(x, 11) == Rotated(x, 11); }
    else if s == 13 { assert Rot(x, 13) == Rotated(x, 13); }
    else if s == 15 { assert Rot(x, 15) == Rotated(x, 15); }
    else { assert Rot(x, 19) == Rotated(x, 19); }
  }

  lemma SumWord(b0: octet, b1: octet, b2: octet, b3: octet)
    ensures W((b0 as bv32) + ((b1 as bv32) << 8) + ((b2 as bv32) << 16) + ((b3 as bv32) << 24)) == Word(b0, b1, b2, b3)
  {}

  /** The macro of operation `i`. */
  function Macro(i: nat, a: word, b: word, c: word, d: word, x: word): word {
    if i < 16 then FF(a, b, c, d, x, Shift(i))
    else if i < 32 then GG(a, b, c, d, x, Shift(i))
    else HH(a, b, c, d, x, Shift(i))
  }

  lemma MacroComputes(st: State, x: seq<word>, i: nat)
    requires |x| == 16 && i < 48
    ensures Operation(st, x, i) == State(st.d, Macro(i, st.a, st.b, st.c, st.d, x[Index(i)]), st.b, st.c)
  {
    hide Add, Rot, Rotated, F, G, H, Index, Shift;
    var v := x[Index(i)];
    if i < 16 {
      RotRotates(Add(Add(st.a, F(st.b, st.c, st.d)), v), Shift(i));
    } else if i < 32 {
      RotRotates(Add(Add(Add(st.a, G(st.b, st.c, st.d)), v), K2), Shift(i));
    } else {
      RotRotates(Add(Add(Add(st.a, H(st.b, st.c, st.d)), v), K3), Shift(i));
    }
  }

  /** Four macros in a row update each register once, in the order a, d, c, b. */
  lemma FourMacros(st: State, x: seq<word>, base: nat, i: nat)
    requires |x| == 16 && base <= i <= 44
    ensures var s := Operations(st, x, base, i);
            var a := Macro(i, s.a, s.b, s.c, s.d, x[Index(i)]);
            var d := Macro(i + 1, s.d, a, s.b, s.c, x[Index(i + 1)]);
            var c := Macro(i + 2, s.c, d, a, s.b, x[Index(i + 2)]);
            var b := Macro(i + 3, s.b, c, d, a, x[Index(i + 3)]);
            Operations(st, x, base, i + 4) == State(a, b, c, d)
  {
    var s0 := Operations(st, x, base, i);
    var s1, s2, s3 := Operations(st, x, base, i + 1), Operations(st, x, base, i + 2), Operations(st, x, base, i + 3);
    hide Macro, Operation, Index;
    MacroComputes(s0, x, i);
    MacroComputes(s1, x, i + 1);
    MacroComputes(s2, x, i + 2);
    MacroComputes(s3, x, i + 3);
  }

  /** One line of round 1, 2 or 3 in section 3.4 of RFC 1320, as four macros. */
  lemma Line1(st: State, x: seq<word>, k: nat)
    requires |x| == 16 && k in {0, 4, 8, 12}
    ensures var s := Operations(st, x, 0, k);
            var a := FF(s.a, s.b, s.c, s.d, x[k], 3);
            var d := FF(s.d, a, s.b, s.c, x[k + 1], 7);
            var c := FF(s.c, d, a, s.b, x[k + 2], 11);
            var b := FF(s.b, c, d, a, x[k + 3], 19);
            Operations(st, x, 0, k + 4) == State(a, b, c, d)
  {
    hide Operations, FF;
    FourMacros(st, x, 0, k);
  }

  lemma Line2(st: State, x: seq<word>, k: nat)
    requires |x| == 16 && k < 4
    ensures var s := Operations(st, x, 16, 16 + 4 * k);
            var a := GG(s.a, s.b, s.c, s.d, x[k], 3);
            var d := GG(s.d, a, s.b, s.c, x[k + 4], 5);
            var c := GG(s.c, d, a, s.b, x[k + 8], 9);
            var b := GG(s.b, c, d, a, x[k + 12], 13);
            Operations(st, x, 16, 20 + 4 * k) == State(a, b, c, d)
  {
    hide Operations, GG;
    FourMacros(st, x, 16, 16 + 4 * k);
  }

  lemma Line3(st: State, x: seq<word>, j: nat, k: nat)
    requires |x| == 16 && j < 4 && k == j / 2 + j % 2 * 2
    ensures var s := Operations(st, x, 32, 32 + 4 * j);
            var a := HH(s.a, s.b, s.c, s.d, x[k], 3);
            var d := HH(s.d, a, s.b, s.c, x[k + 8], 9);
            var c := HH(s.c, d, a, s.b, x[k + 4], 11);
            var b := HH(s.b, c, d, a, x[k + 12], 15);
            Operations(st, x, 32, 36 + 4 * j) == State(a, b, c, d)
  {
    hide Operations, HH, Index;
    Reversed(j);
    FourMacros(st, x, 32, 32 + 4 * j);
  }

  lemma Reversed(j: nat)
    requires j < 4
    ensures var k := j / 2 + j % 2 * 2; var i := 32 + 4 * j;
            Index(i) == k && Index(i + 1) == k + 8 && Index(i + 2) == k + 4 && Index(i + 3) == k + 12
  {
    assert j == 0 || j == 1 || j == 2 || j == 3;
  }

  lemma NoOperation(st: State, x: seq<word>, i: nat)
    requires |x| == 16 && i <= 48
    ensures Operations(st, x, i, i) == st
  {}

  method Round1(a0: word, b0: word, c0: word, d0: word, x: seq<word>) returns (a: word, b: word, c: word, d: word)
    requires |x| == 16
    ensures State(a, b, c, d) == Operations(State(a0, b0, c0, d0), x, 0, 16)
  {
    hide FF, Operations;
    ghost var st := State(a0, b0, c0, d0);
    a, b, c, d := a0, b0, c0, d0;
    NoOperation(st, x, 0);
    a := FF(a, b, c, d, x[0], 3);
    d := FF(d, a, b, c, x[1], 7);
    c := FF(c, d, a, b, x[2], 11);
    b := FF(b, c, d, a, x[3], 19);
    Line1(st, x, 0);
    a := FF(a, b, c, d, x[4], 3);
    d := FF(d, a, b, c, x[5], 7);
    c := FF(c, d, a, b, x[6], 11);
    b := FF(b, c, d, a, x[7], 19);
    Line1(st, x, 4);
    a := FF(a, b, c, d, x[8], 3);
    d := FF(d, a, b, c, x[9], 7);
    c := FF(c, d, a, b, x[10], 11);
    b := FF(b, c, d, a, x[11], 19);
    Line1(st, x, 8);
    a := FF(a, b, c, d, x[12], 3);
    d := FF(d, a, b, c, x[13], 7);
    c := FF(c, d, a, b, x[14], 11);
    b := FF(b, c, d, a, x[15], 19);
    Line1(st, x, 12);
  }

  method Round2(a0: word, b0: word, c0: word, d0: word, x: seq<word>) returns (a: word, b: word, c: word, d: word)
    requires |x| == 16
    ensures State(a, b, c, d) == Operations(State(a0, b0, c0, d0), x, 16, 32)
  {
    hide GG, Operations;
    ghost var st := State(a0, b0, c0, d0);
    a, b, c, d := a0, b0, c0, d0;
    NoOperation(st, x, 16);
    a := GG(a, b, c, d, x[0], 3);
    d := GG(d, a, b, c, x[4], 5);
    c := GG(c, d, a, b, x[8], 9);
    b := GG(b, c, d, a, x[12], 13);
    Line2(st, x, 0);
    a := GG(a, b, c, d, x[1], 3);
    d := GG(d, a, b, c, x[5], 5);
    c := GG(c, d, a, b, x[9], 9);
    b := GG(b, c, d, a, x[13], 13);
    Line2(st, x, 1);
    a := GG(a, b, c, d, x[2], 3);
    d := GG(d, a, b, c, x[6], 5);
    c := GG(c, d, a, b, x[10], 9);
    b := GG(b, c, d, a, x[14], 13);
    Line2(st, x, 2);
    a := GG(a, b, c, d, x[3], 3);
    d := GG(d, a, b, c, x[7], 5);
    c := GG(c, d, a, b, x[11], 9);
    b := GG(b, c, d, a, x[15], 13);
    Line2(st, x, 3);
  }

  method Round3(a0: word, b0: word, c0: word, d0: word, x: seq<word>) returns (a: word, b: word, c: word, d: word)
    requires |x| == 16
    ensures State(a, b, c, d) == Operations(State(a0, b0, c0, d0), x, 32, 48)
  {
    hide HH, Operations;
    ghost var st := State(a0, b0, c0, d0);
    a, b, c, d := a0, b0, c0, d0;
    NoOperation(st, x, 32);
    a := HH(a, b, c, d, x[0], 3);
    d := HH(d, a, b, c, x[8], 9);
    c := HH(c, d, a, b, x[4], 11);
    b := HH(b, c, d, a, x[12], 15);
    Line3(st, x, 0, 0);
    a := HH(a, b, c, d, x[2], 3);
    d := HH(d, a, b, c, x[10], 9);
    c := HH(c, d, a, b, x[6], 11);
    b := HH(b, c, d, a, x[14], 15);
    Line3(st, x, 1, 2);
    a := HH(a, b, c, d, x[1], 3);
    d := HH(d, a, b, c, x[9], 9);
    c := HH(c, d, a, b, x[5], 11);
    b := HH(b, c, d, a, x[13], 15);
    Line3(st, x, 2, 1);
    a := HH(a, b, c, d, x[3], 3);
    d := HH(d, a, b, c, x[11], 9);
    c := HH(c, d, a, b, x[7], 11);
    b := HH(b, c, d, a, x[15], 15);
    Line3(st, x, 3, 3);
  }

  lemma {:induction false} OperationsChain(st: State, x: seq<word>, i: nat, m: nat, n: nat)
    requires |x| == 16 && i <= m <= n <= 48
    ensures Operations(Operations(st, x, i, m), x, m, n) == Operations(st, x, i, n)
    decreases n
  {
    hide Operation;
    if m < n {
      OperationsChain(st, x, i, m, n - 1);
    }
  }

  /** The words of `MDblock`, summed from shifted bytes. */
  function Summed(b0: octet, b1: octet, b2: octet, b3: octet): (w: word)
    ensures w == Word(b0, b1, b2, b3)
  {
    SumWord(b0, b1, b2, b3);
    W((b0 as bv32) + ((b1 as bv32) << 8) + ((b2 as bv32) << 16) + ((b3 as bv32) << 24))
  }

  method Load(data: array<octet>) returns (x: seq<word>)
    requires data.Length == 64
    ensures |x| == 16 && x == Words(data[..])
  {
    hide Word, Summed;
    var xs := new word[16];
    var i := 0;
    while i < 16
      invariant 0 <= i <= 16
      invariant forall j :: 0 <= j < i ==> xs[j] == WordAt(data[..], j)
    {
      xs[i] := Summed(data[4 * i], data[4 * i + 1], data[4 * i + 2], data[4 * i + 3]);
      i := i + 1;
    }
    x := xs[..];
  }

  /** `MDblock`: the words from the bytes, the 48 steps, and the sums with the buffer. */
  method Block(buffer: array<word>, data: array<octet>)
    requires buffer.Length == 4 && data.Length == 64
    modifies buffer
    ensures State(buffer[0], buffer[1], buffer[2], buffer[3])
            == Compress(old(State(buffer[0], buffer[1], buffer[2], buffer[3])), data[..])
  {
    hide Operations, Words, Add;
    ghost var st := State(buffer[0], buffer[1], buffer[2], buffer[3]);
    var x := Load(data);
    var a, b, c, d := Round1(buffer[0], buffer[1], buffer[2], buffer[3], x);
    a, b, c, d := Round2(a, b, c, d, x);
    a, b, c, d := Round3(a, b, c, d, x);
    OperationsChain(st, x, 0, 16, 32);
    OperationsChain(st, x, 0, 32, 48);
    buffer[0] := Add(buffer[0], a);
    buffer[1] := Add(buffer[1], b);
    buffer[2] := Add(buffer[2], c);
    buffer[3] := Add(buffer[3], d);
  }
}
