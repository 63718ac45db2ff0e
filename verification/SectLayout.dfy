/**
 Section layout of rtl-obj.c: one pass sums the size to allocate for a kind of section, another numbers the
 sections, and a loop that restarts from the head of the list after every load places them.
 */
module SectLayout {
  import opened SectLinks

  // ---------------------------------------------------------------- alignment

  lemma Times(q: int, d: int, a: int)
    ensures (q - d) * a == q * a - d * a
  {}

  lemma AtLeast(k: int, a: nat)
    requires k >= 1
    ensures k * a >= a
  {}

  /** No multiple of `a` lies strictly between two neighbours. */
  lemma Between(q: int, d: int, r: nat, a: nat)
    requires r < a && q * a == d * a + r
    ensures r == 0
  {
    if q > d {
      Times(q, d, a);
      AtLeast(q - d, a);
    } else if q < d {
      Times(d, q, a);
      AtLeast(d - q, a);
    }
  }

  lemma Multiple(q: int, a: nat)
    requires a > 0
    ensures q * a % a == 0
  {
    Between(q, q * a / a, q * a % a, a);
  }

  lemma RoundUp(offset: nat, a: nat)
    requires a > 1 && offset % a != 0
    ensures (offset + a - (offset + a) % a) % a == 0
    ensures offset < offset + a - (offset + a) % a < offset + a
  {
    var q, r := (offset + a) / a, (offset + a) % a;
    assert offset + a == q * a + r;
    Multiple(q, a);
    if r == 0 {
      assert offset == (q - 1) * a;
      Multiple(q - 1, a);
    }
  }

  /**
   `rtems_rtl_sect_align`: the least multiple of the alignment that is not below the offset; 0 and 1 align nothing.
   */
  function Align(offset: nat, alignment: nat): (r: nat)
    ensures offset <= r
    ensures alignment > 0 ==> r % alignment == 0 && r < offset + alignment
    ensures alignment == 0 ==> r == offset
  {
    if alignment > 1 && offset % alignment != 0 then
      RoundUp(offset, alignment);
      offset + alignment - (offset + alignment) % alignment
    else offset
  }

  // ---------------------------------------------------------------- numbering and summing

  predicate Of(s: Sect, kind: Flag) {
    kind in s.flags
  }

  /** The number of sections of the kind before position `i`. */
  function Rank(sects: seq<Sect>, kind: Flag, i: nat): nat
    requires i <= |sects|
  {
    if i == 0 then 0 else Rank(sects, kind, i - 1) + (if Of(sects[i - 1], kind) then 1 else 0)
  }

  /** The size of the first `n` sections, as `rtems_rtl_obj_section_size` sums it. */
  function Sum(sects: seq<Sect>, kind: Flag, n: nat): nat
    requires n <= |sects|
  {
    if n == 0 then 0
    else if Of(sects[n - 1], kind) then Align(Sum(sects, kind, n - 1), sects[n - 1].alignment) + sects[n - 1].size
    else Sum(sects, kind, n - 1)
  }

  /** The number of unlinked sections of the kind before position `i`. */
  function Unlinked(sects: seq<Sect>, kind: Flag, i: nat): nat
    requires i <= |sects|
  {
    if i == 0 then 0
    else Unlinked(sects, kind, i - 1) + (if Of(sects[i - 1], kind) && sects[i - 1].link == 0 then 1 else 0)
  }

  /** Some section of the kind is linked for ever. */
  ghost predicate Looping(sects: seq<Sect>, kind: Flag) {
    exists i :: 0 <= i < |sects| && Of(sects[i], kind) && sects[i].link != 0 && Endless(sects, sects[i].link, {kind})
  }

  ghost function OrderOf(sects: seq<Sect>, kind: Flag, i: nat): int
    requires i < |sects| && Of(sects[i], kind) && !Looping(sects, kind)
  {
    if sects[i].link == 0 then Unlinked(sects, kind, i) else LinkedTo(sects, sects[i].link, {kind})
  }

  /** Sections of the kind carry their position in the load order. */
  predicate Numbered(sects: seq<Sect>, kind: Flag) {
    forall i :: 0 <= i < |sects| && Of(sects[i], kind) ==> sects[i].loadOrder == Rank(sects, kind, i)
  }

  // ---------------------------------------------------------------- what the loader places

  predicate Picks(sects: seq<Sect>, kind: Flag, order: int, i: nat) {
    i < |sects| && sects[i].size != 0 && Of(sects[i], kind) && sects[i].loadOrder == order
  }

  /** The first section in the list with this order. */
  predicate First(sects: seq<Sect>, kind: Flag, order: int, i: nat) {
    Picks(sects, kind, order, i) && forall j: nat :: j < i ==> !Picks(sects, kind, order, j)
  }

  /** The sections placed, one for each order from 0 up. */
  predicate Schedule(sects: seq<Sect>, kind: Flag, placed: seq<nat>) {
    forall k: nat :: k < |placed| ==> First(sects, kind, k, placed[k])
  }

  /** The offset of the section placed as number `k`; `n` of them take up `End(n)` bytes. */
  function Offset(sects: seq<Sect>, placed: seq<nat>, k: nat): nat
    requires k < |placed| && forall j :: 0 <= j < |placed| ==> placed[j] < |sects|
    decreases k, 1
  {
    if k == 0 then 0 else Align(End(sects, placed, k), sects[placed[k]].alignment)
  }

  function End(sects: seq<Sect>, placed: seq<nat>, n: nat): nat
    requires n <= |placed| && forall j :: 0 <= j < |placed| ==> placed[j] < |sects|
    decreases n, 0
  {
    if n == 0 then 0 else Offset(sects, placed, n - 1) + sects[placed[n - 1]].size
  }

  /** Each order places another section, so the restarts come to an end. */
  lemma ScheduleFits(sects: seq<Sect>, kind: Flag, placed: seq<nat>)
    requires Schedule(sects, kind, placed)
    ensures |placed| <= |sects|
  {
    forall j, k | 0 <= j < k < |placed|
      ensures placed[j] != placed[k]
    {
      assert First(sects, kind, j, placed[j]) && First(sects, kind, k, placed[k]);
    }
    DistinctFits(placed, |sects|);
  }

  /** `now` is `was` with the placed sections at their offsets. */
  predicate Laid(now: seq<Sect>, was: seq<Sect>, base: nat, placed: seq<nat>) {
    |now| == |was| && (forall k :: 0 <= k < |placed| ==> placed[k] < |was|) &&
    (forall k :: 0 <= k < |placed| ==> now[placed[k]] == was[placed[k]].(base := base + Offset(was, placed, k))) &&
    forall i: nat :: i < |was| && i !in placed ==> now[i] == was[i]
  }

  /** Loading the section works: the handler reads it, or there is nothing to read and it is to be cleared. */
  predicate Takes(s: Sect, read: bool) {
    if Load in s.flags then read else Zero in s.flags
  }

  /** Loading stopped at section `f`, which is left without a base; those before it in the order are placed. */
  predicate Refused(now: seq<Sect>, was: seq<Sect>, kind: Flag, base: nat, placed: seq<nat>, f: nat) {
    First(was, kind, |placed|, f) && |now| == |was| && now[f] == was[f].(base := 0) &&
    Laid(now[f := was[f]], was, base, placed)
  }

  lemma RefusedAt(after: seq<Sect>, now: seq<Sect>, was: seq<Sect>, kind: Flag, base: nat, placed: seq<nat>, f: nat)
    requires First(was, kind, |placed|, f) && Laid(now, was, base, placed) && f !in placed
    requires |now| == |was| && after == now[f := was[f].(base := 0)]
    ensures Refused(after, was, kind, base, placed, f)
  {
    assert after[f := was[f]] == now;
  }

  lemma OffsetNew(sects: seq<Sect>, placed: seq<nat>, i: nat)
    requires i < |sects| && forall j :: 0 <= j < |placed| ==> placed[j] < |sects|
    ensures Offset(sects, placed + [i], |placed|)
            == if placed == [] then 0 else Align(End(sects, placed, |placed|), sects[i].alignment)
    ensures End(sects, placed + [i], |placed| + 1) == Offset(sects, placed + [i], |placed|) + sects[i].size
  {
    EndSnoc(sects, placed, i, |placed|);
    hide Align;
  }

  lemma LaidSnoc(now: seq<Sect>, was: seq<Sect>, base: nat, placed: seq<nat>, i: nat, offset: nat)
    requires Laid(now, was, base, placed) && i < |was| && i !in placed
    requires offset == if placed == [] then 0 else Align(End(was, placed, |placed|), was[i].alignment)
    ensures Laid(now[i := was[i].(base := base + offset)], was, base, placed + [i])
    ensures End(was, placed + [i], |placed| + 1) == offset + was[i].size
  {
    hide Align, End, Offset;
    OffsetNew(was, placed, i);
    var next, after := placed + [i], now[i := was[i].(base := base + offset)];
    forall k | 0 <= k < |next|
      ensures next[k] < |was| && after[next[k]] == was[next[k]].(base := base + Offset(was, next, k))
    {
      if k < |placed| {
        EndSnoc(was, placed, i, k);
        assert next[k] == placed[k] != i;
      }
    }
  }

  // ---------------------------------------------------------------- the loops

  class Obj {
    var sections: seq<Sect>

    method SectionSize(kind: Flag) returns (size: nat)
      ensures size == Sum(sections, kind, |sections|)
    {
      size := 0;
      var i := 0;
      while i < |sections|
        invariant 0 <= i <= |sections| && size == Sum(sections, kind, i)
      {
        if Of(sections[i], kind) {
          size := Align(size, sections[i].alignment) + sections[i].size;
        }
        i := i + 1;
      }
    }

    /** `rtems_rtl_obj_sections_link_order`: unlinked sections are counted, linked ones take the order they lead to. */
    method LinkOrder(kind: Flag) returns (endless: bool)
      requires kind in TYPES
      modifies this
      ensures endless <==> Looping(old(sections), kind)
      ensures SameBut(sections, old(sections))
      ensures !endless ==> Ordered(sections, old(sections), kind)
    {
      hide LinkedTo, Endless, Looping, OrderOf, Unlinked;
      ghost var was := sections;
      var i, order := 0, 0;
      OrdersNone(was, kind);
      while i < |sections|
        invariant 0 <= i <= |sections| && SameBut(sections, was) && Orders(sections, was, kind, i)
        invariant order == Unlinked(was, kind, i)
      {
        UnlinkedNext(was, kind, i);
        var next := sections[i].loadOrder;
        if Of(sections[i], kind) {
          if sections[i].link == 0 {
            next := order;
            order := order + 1;
          } else {
            SameLinks(sections, was, was[i].link, {kind});
            NoTrail(sections, was[i].link);
            next, endless := LinkedOrder(sections, sections[i].link, {kind}, []);
            if endless {
              LoopsAt(was, kind, i);
              return;
            }
          }
        }
        OrdersNext(sections, was, kind, i, next);
        sections := sections[i := sections[i].(loadOrder := next)];
        i := i + 1;
      }
      endless := false;
      OrdersAll(sections, was, kind);
    }

    /**
     `rtems_rtl_obj_sections_loader`. The handler reads a section from the file, or fails; a section that has neither
     the load nor the zero flag fails too.
     */
    method Loader(kind: Flag, base: nat, handler: nat -> bool) returns (ok: bool, ghost placed: seq<nat>)
      modifies this
      ensures Schedule(old(sections), kind, placed)
      ensures ok ==> Laid(sections, old(sections), base, placed)
      ensures ok ==> forall i: nat :: !Picks(old(sections), kind, |placed|, i)
      ensures forall i: nat :: i in placed ==> i < |old(sections)| && Takes(old(sections)[i], handler(i))
      ensures !ok ==> exists f: nat ::
                Refused(sections, old(sections), kind, base, placed, f) && !Takes(old(sections)[f], handler(f))
    {
      hide End, Offset, Align, Laid, Schedule;
      ghost var was := sections;
      var baseOffset, first, order, node := 0, true, 0, 0;
      placed := [];
      Nothing(was, kind, base);
      while node < |sections|
        invariant 0 <= node <= |sections| == |was|
        invariant Schedule(was, kind, placed) && |placed| <= |was| && order == |placed| && first == (placed == [])
        invariant Laid(sections, was, base, placed)
        invariant (forall k :: 0 <= k < |placed| ==> placed[k] < |was|) && baseOffset == End(was, placed, |placed|)
        invariant forall i: nat :: i in placed ==> i < |was| && Takes(was[i], handler(i))
        invariant forall j: nat :: j < node ==> !Picks(was, kind, order, j)
        decreases |was| - |placed|, |was| - node
      {
        var sect := sections[node];
        ghost var now := sections;
        LaidSame(sections, was, base, placed, node);
        if sect.size != 0 && Of(sect, kind) && sect.loadOrder == order {
          assert First(was, kind, |placed|, node);
          ScheduleSnoc(was, kind, placed, node);
          LaidRest(sections, was, base, placed, node);
          if !first {
            baseOffset := Align(baseOffset, sect.alignment);
          }
          first := false;
          LaidSnoc(now, was, base, placed, node, baseOffset);
          sections := sections[node := sect.(base := base + baseOffset)];
          if Load in sect.flags {
            var read := handler(node);
            if !read {
              sections := sections[node := sect.(base := 0)];
              RefusedAt(sections, now, was, kind, base, placed, node);
              return false, placed;
            }
          } else if Zero !in sect.flags {
            sections := sections[node := sect.(base := 0)];
            RefusedAt(sections, now, was, kind, base, placed, node);
            return false, placed;
          }
          baseOffset := baseOffset + sect.size;
          order := order + 1;
          placed := placed + [node];
          ScheduleFits(was, kind, placed);
          node := 0;
        } else {
          node := node + 1;
        }
      }
      ok := true;
    }
  }

  lemma Nothing(sects: seq<Sect>, kind: Flag, base: nat)
    ensures Schedule(sects, kind, []) && Laid(sects, sects, base, []) && End(sects, [], 0) == 0
  {}

  lemma LaidSame(now: seq<Sect>, was: seq<Sect>, base: nat, placed: seq<nat>, i: nat)
    requires Laid(now, was, base, placed) && i < |was|
    ensures |now| == |was| && now[i] == was[i].(base := now[i].base)
  {
    hide Offset;
    if i in placed {
      var k :| 0 <= k < |placed| && placed[k] == i;
    }
  }

  lemma LaidRest(now: seq<Sect>, was: seq<Sect>, base: nat, placed: seq<nat>, i: nat)
    requires Laid(now, was, base, placed) && i < |was| && i !in placed
    ensures |now| == |was| && now[i] == was[i]
  {}

  lemma ScheduleSnoc(sects: seq<Sect>, kind: Flag, placed: seq<nat>, i: nat)
    requires Schedule(sects, kind, placed) && First(sects, kind, |placed|, i)
    ensures Schedule(sects, kind, placed + [i]) && i !in placed
  {
    forall k: nat | k < |placed|
      ensures placed[k] != i
    {
      assert First(sects, kind, k, placed[k]);
    }
  }

  lemma {:induction false} EndSnoc(sects: seq<Sect>, placed: seq<nat>, i: nat, k: nat)
    requires i < |sects| && k <= |placed| && forall j :: 0 <= j < |placed| ==> placed[j] < |sects|
    ensures End(sects, placed + [i], k) == End(sects, placed, k)
    ensures k < |placed| ==> Offset(sects, placed + [i], k) == Offset(sects, placed, k)
  {
    if k > 0 { EndSnoc(sects, placed, i, k - 1); }
  }

  // ---------------------------------------------------------------- what linking decides

  /** The order of section `i`, if its links end. */
  ghost predicate Given(was: seq<Sect>, kind: Flag, i: nat, order: int)
    requires i < |was|
  {
    if was[i].link == 0 then order == Unlinked(was, kind, i)
    else !Endless(was, was[i].link, {kind}) && order == LinkedTo(was, was[i].link, {kind})
  }

  /** The first `n` sections have their orders. */
  ghost predicate Orders(now: seq<Sect>, was: seq<Sect>, kind: Flag, n: nat) {
    && SameBut(now, was) && n <= |was|
    && (forall i :: 0 <= i < |was| && (!Of(was[i], kind) || n <= i) ==> now[i] == was[i])
    && (forall i :: 0 <= i < n && Of(was[i], kind) ==> Given(was, kind, i, now[i].loadOrder))
  }

  lemma OrdersNone(was: seq<Sect>, kind: Flag)
    ensures Orders(was, was, kind, 0) && Unlinked(was, kind, 0) == 0
  {}

  lemma UnlinkedNext(was: seq<Sect>, kind: Flag, i: nat)
    requires i < |was|
    ensures Unlinked(was, kind, i + 1)
            == Unlinked(was, kind, i) + (if Of(was[i], kind) && was[i].link == 0 then 1 else 0)
  {}

  lemma OrdersNext(now: seq<Sect>, was: seq<Sect>, kind: Flag, i: nat, order: int)
    requires Orders(now, was, kind, i) && i < |was|
    requires if Of(was[i], kind) then Given(was, kind, i, order) else order == now[i].loadOrder
    ensures Orders(now[i := now[i].(loadOrder := order)], was, kind, i + 1)
  {
    hide Given;
  }

  lemma LoopsAt(was: seq<Sect>, kind: Flag, i: nat)
    requires i < |was| && Of(was[i], kind) && was[i].link != 0 && Endless(was, was[i].link, {kind})
    ensures Looping(was, kind)
  {}

  lemma OrdersAll(now: seq<Sect>, was: seq<Sect>, kind: Flag)
    requires Orders(now, was, kind, |was|)
    ensures !Looping(was, kind) && Ordered(now, was, kind)
  {
    hide LinkedTo, Endless, Unlinked;
    forall i | 0 <= i < |was| && Of(was[i], kind)
      ensures Given(was, kind, i, now[i].loadOrder)
    {
    }
  }

  /** Links of sections with a type that do not lead to linked sections without one make no loop. */
  lemma TypedNoLoop(sects: seq<Sect>, kind: Flag)
    requires TypedLinks(sects) && kind in TYPES
    ensures !Looping(sects, kind)
  {
    hide Endless;
    forall i | 0 <= i < |sects| && Of(sects[i], kind) && sects[i].link != 0
      ensures !Endless(sects, sects[i].link, {kind})
    {
      assert kind in Mask(sects[i]);
      var n := TypedEnds(sects, sects[i].link, {kind});
    }
  }

  lemma {:induction false} SameRank(a: seq<Sect>, b: seq<Sect>, kind: Flag, i: nat)
    requires |a| == |b| && i <= |a| && forall j :: 0 <= j < |a| ==> a[j].flags == b[j].flags
    ensures Rank(a, kind, i) == Rank(b, kind, i)
  {
    if i > 0 { SameRank(a, b, kind, i - 1); }
  }

  // ---------------------------------------------------------------- numbered sections

  lemma {:induction false} RankGrows(sects: seq<Sect>, kind: Flag, i: nat, j: nat)
    requires i <= j <= |sects|
    ensures Rank(sects, kind, i) <= Rank(sects, kind, j)
    ensures i < j && Of(sects[i], kind) ==> Rank(sects, kind, i) < Rank(sects, kind, j)
  {
    if i < j { RankGrows(sects, kind, i, j - 1); }
  }

  lemma RankUnique(sects: seq<Sect>, kind: Flag, i: nat, j: nat)
    requires i < |sects| && j < |sects| && Of(sects[i], kind) && Of(sects[j], kind)
    requires Rank(sects, kind, i) == Rank(sects, kind, j)
    ensures i == j
  {
    if i < j {
      RankGrows(sects, kind, i, j);
    } else if j < i {
      RankGrows(sects, kind, j, i);
    }
  }

  lemma {:induction false} RankHit(sects: seq<Sect>, kind: Flag, i: nat, k: nat) returns (j: nat)
    requires i <= |sects| && k < Rank(sects, kind, i)
    ensures j < i && Of(sects[j], kind) && Rank(sects, kind, j) == k
  {
    if Of(sects[i - 1], kind) && Rank(sects, kind, i - 1) == k {
      j := i - 1;
    } else {
      j := RankHit(sects, kind, i - 1, k);
    }
  }

  /** No section of the kind before position `i` is empty. */
  predicate Clear(sects: seq<Sect>, kind: Flag, i: nat)
    requires i <= |sects|
  {
    forall j :: 0 <= j < i && Of(sects[j], kind) ==> sects[j].size != 0
  }

  /** The loader took every order it could. */
  ghost predicate Complete(sects: seq<Sect>, kind: Flag, placed: seq<nat>) {
    Numbered(sects, kind) && Schedule(sects, kind, placed) && forall i: nat :: !Picks(sects, kind, |placed|, i)
  }

  lemma ClearPlaced(sects: seq<Sect>, kind: Flag, placed: seq<nat>, i: nat)
    requires Complete(sects, kind, placed) && i < |sects| && Of(sects[i], kind) && Clear(sects, kind, i + 1)
    ensures Rank(sects, kind, i) < |placed| && placed[Rank(sects, kind, i)] == i
  {
    var k := Rank(sects, kind, i);
    if k >= |placed| {
      var j := RankHit(sects, kind, i + 1, |placed|);
      assert Picks(sects, kind, |placed|, j);
    } else {
      assert First(sects, kind, k, placed[k]);
      RankUnique(sects, kind, i, placed[k]);
    }
  }

  lemma PlacedClear(sects: seq<Sect>, kind: Flag, placed: seq<nat>, k: nat)
    requires Complete(sects, kind, placed) && k < |placed|
    ensures placed[k] < |sects| && Clear(sects, kind, placed[k] + 1)
  {
    assert First(sects, kind, k, placed[k]);
    forall j | 0 <= j <= placed[k] && Of(sects[j], kind)
      ensures sects[j].size != 0
    {
      RankGrows(sects, kind, j, placed[k]);
      var r := Rank(sects, kind, j);
      assert First(sects, kind, r, placed[r]);
      RankUnique(sects, kind, j, placed[r]);
    }
  }

  /** Exactly the sections of the kind with no empty one at or before them are placed. */
  lemma PlacedIffClear(sects: seq<Sect>, kind: Flag, placed: seq<nat>, i: nat)
    requires Complete(sects, kind, placed) && i < |sects| && Of(sects[i], kind)
    ensures i in placed <==> Clear(sects, kind, i + 1)
  {
    if Clear(sects, kind, i + 1) {
      ClearPlaced(sects, kind, placed, i);
    }
    if i in placed {
      var k :| 0 <= k < |placed| && placed[k] == i;
      PlacedClear(sects, kind, placed, k);
    }
  }

  /** The placement loop and the summing pass agree at every position reached. */
  lemma {:induction false} EndIsSum(sects: seq<Sect>, kind: Flag, placed: seq<nat>, i: nat)
    requires Complete(sects, kind, placed) && i <= |sects| && Clear(sects, kind, i)
    requires forall j :: 0 <= j < |placed| ==> placed[j] < |sects|
    ensures Rank(sects, kind, i) <= |placed| && End(sects, placed, Rank(sects, kind, i)) == Sum(sects, kind, i)
  {
    hide Complete, Align;
    if i > 0 {
      EndIsSum(sects, kind, placed, i - 1);
      if Of(sects[i - 1], kind) {
        ClearPlaced(sects, kind, placed, i - 1);
        AlignZero(sects[i - 1].alignment);
      }
    }
  }

  lemma AlignZero(alignment: nat)
    ensures Align(0, alignment) == 0
  {}

  /** Where the loader puts a section of the kind: at the aligned sum of those before it. */
  lemma PlacedAt(now: seq<Sect>, sects: seq<Sect>, kind: Flag, base: nat, placed: seq<nat>, i: nat)
    requires Complete(sects, kind, placed) && Laid(now, sects, base, placed)
    requires i < |sects| && Of(sects[i], kind) && Clear(sects, kind, i + 1)
    ensures |now| == |sects| && now[i].base == base + Align(Sum(sects, kind, i), sects[i].alignment)
  {
    ClearPlaced(sects, kind, placed, i);
    EndIsSum(sects, kind, placed, i);
  }

  // ---------------------------------------------------------------- one kind of section, from sizes to addresses

  predicate Aligned(offset: int, alignment: nat) {
    alignment > 0 ==> offset % alignment == 0
  }

  /** Every section of the kind lies in the area of `total` bytes at `base`, aligned, and they do not overlap. */
  predicate WellPlaced(now: seq<Sect>, kind: Flag, base: nat, total: nat) {
    (forall i :: 0 <= i < |now| && Of(now[i], kind) ==>
       base <= now[i].base && now[i].base + now[i].size <= base + total &&
       Aligned(now[i].base - base, now[i].alignment)) &&
    forall i, j :: 0 <= i < j < |now| && Of(now[i], kind) && Of(now[j], kind) ==>
      now[i].base + now[i].size <= now[j].base
  }

  lemma {:induction false} SumGrows(sects: seq<Sect>, kind: Flag, i: nat, j: nat)
    requires i <= j <= |sects|
    ensures Sum(sects, kind, i) <= Sum(sects, kind, j)
  {
    if i < j { SumGrows(sects, kind, i, j - 1); }
  }

  /** A placed section fills the space from the aligned sum before it to the sum after it. */
  lemma Fills(now: seq<Sect>, sects: seq<Sect>, kind: Flag, base: nat, placed: seq<nat>, i: nat)
    requires Complete(sects, kind, placed) && Laid(now, sects, base, placed)
    requires i < |sects| && Clear(sects, kind, i + 1)
    ensures |now| == |sects| && now[i] == sects[i].(base := now[i].base)
    ensures Of(sects[i], kind) ==>
              base + Sum(sects, kind, i) <= now[i].base &&
              now[i].base + now[i].size == base + Sum(sects, kind, i + 1) &&
              Aligned(now[i].base - base, now[i].alignment)
  {
    LaidSame(now, sects, base, placed, i);
    if Of(sects[i], kind) { PlacedAt(now, sects, kind, base, placed, i); }
    hide Align, Complete, Laid, Clear;
  }

  lemma CountPlaced(sects: seq<Sect>, kind: Flag, placed: seq<nat>)
    requires Complete(sects, kind, placed)
    ensures |placed| <= Rank(sects, kind, |sects|)
  {
    if |placed| > 0 {
      var k := |placed| - 1;
      assert First(sects, kind, k, placed[k]);
      RankGrows(sects, kind, placed[k], |sects|);
    }
  }

  lemma LaidShape(now: seq<Sect>, was: seq<Sect>, base: nat, placed: seq<nat>)
    requires Laid(now, was, base, placed)
    ensures |now| == |was| && forall k :: 0 <= k < |placed| ==> placed[k] < |was|
  {}

  lemma ClearBefore(sects: seq<Sect>, kind: Flag, i: nat)
    requires i <= |sects| && Clear(sects, kind, |sects|)
    ensures Clear(sects, kind, i)
  {}

  /** If no section of the kind is empty, all are placed, within the summed size and up to its very end. */
  lemma AllPlaced(now: seq<Sect>, sects: seq<Sect>, kind: Flag, base: nat, placed: seq<nat>)
    requires Complete(sects, kind, placed) && Laid(now, sects, base, placed) && Clear(sects, kind, |sects|)
    ensures |now| == |sects| && WellPlaced(now, kind, base, Sum(sects, kind, |sects|))
    ensures |placed| == Rank(sects, kind, |sects|)
    ensures (forall k :: 0 <= k < |placed| ==> placed[k] < |sects|) &&
            End(sects, placed, |placed|) == Sum(sects, kind, |sects|)
  {
    hide Complete, Laid, Clear, Align, Aligned, Sum, End, Rank;
    LaidShape(now, sects, base, placed);
    CountPlaced(sects, kind, placed);
    EndIsSum(sects, kind, placed, |sects|);
    forall i | 0 <= i < |sects|
      ensures now[i] == sects[i].(base := now[i].base)
      ensures Of(sects[i], kind) ==>
                base <= now[i].base && now[i].base + now[i].size <= base + Sum(sects, kind, |sects|) &&
                Aligned(now[i].base - base, now[i].alignment)
    {
      ClearBefore(sects, kind, i + 1);
      Fills(now, sects, kind, base, placed, i);
      SumGrows(sects, kind, i + 1, |sects|);
    }
    forall i, j | 0 <= i < j < |sects| && Of(sects[i], kind) && Of(sects[j], kind)
      ensures now[i].base + now[i].size <= now[j].base
    {
      ClearBefore(sects, kind, i + 1);
      ClearBefore(sects, kind, j + 1);
      Fills(now, sects, kind, base, placed, i);
      Fills(now, sects, kind, base, placed, j);
      SumGrows(sects, kind, i + 1, j);
    }
  }

  lemma {:induction false} SameSum(a: seq<Sect>, b: seq<Sect>, kind: Flag, i: nat)
    requires |a| == |b| && i <= |a|
    requires forall j :: 0 <= j < |a| ==> a[j] == b[j].(loadOrder := a[j].loadOrder)
    ensures Sum(a, kind, i) == Sum(b, kind, i) && (Clear(a, kind, i) <==> Clear(b, kind, i))
  {
    hide Align;
    if i > 0 { SameSum(a, b, kind, i - 1); }
  }

  // ---------------------------------------------------------------- linked sections

  /** Among sections without links every one takes its position among those of its kind. */
  predicate NoLinks(sects: seq<Sect>, kind: Flag) {
    forall i :: 0 <= i < |sects| && Of(sects[i], kind) ==> sects[i].link == 0
  }

  lemma {:induction false} UnlinkedRank(sects: seq<Sect>, kind: Flag, i: nat)
    requires NoLinks(sects, kind) && i <= |sects|
    ensures Unlinked(sects, kind, i) == Rank(sects, kind, i)
  {
    if i > 0 { UnlinkedRank(sects, kind, i - 1); }
  }

  lemma NumberedWithoutLinks(now: seq<Sect>, was: seq<Sect>, kind: Flag)
    requires |now| == |was| && forall j :: 0 <= j < |was| ==> now[j] == was[j].(loadOrder := now[j].loadOrder)
    requires NoLinks(was, kind)
    requires forall i :: 0 <= i < |was| && Of(was[i], kind) ==> now[i].loadOrder == Unlinked(was, kind, i)
    ensures Numbered(now, kind)
  {
    forall i | 0 <= i < |now| && Of(now[i], kind)
      ensures now[i].loadOrder == Rank(now, kind, i)
    {
      UnlinkedRank(was, kind, i);
      SameRank(now, was, kind, i);
    }
  }

  /** As many orders from 0 up as there are sections of the kind, each taken by a section that is not empty. */
  ghost predicate Gapless(sects: seq<Sect>, kind: Flag) {
    forall k: nat :: k < Rank(sects, kind, |sects|) ==> Taken(sects, kind, k)
  }

  ghost predicate Taken(sects: seq<Sect>, kind: Flag, order: nat) {
    exists i: nat :: Picks(sects, kind, order, i)
  }

  predicate AllIn(sects: seq<Sect>, kind: Flag, placed: seq<nat>) {
    forall i: nat :: i < |sects| && Of(sects[i], kind) ==> i in placed
  }

  function Kinds(sects: seq<Sect>, kind: Flag, i: nat): set<nat>
    requires i <= |sects|
  {
    set j: nat | j < i && Of(sects[j], kind)
  }

  lemma KindsNone(sects: seq<Sect>, kind: Flag)
    ensures Kinds(sects, kind, 0) == {}
  {}

  lemma KindsSnoc(sects: seq<Sect>, kind: Flag, i: nat)
    requires i < |sects|
    ensures i !in Kinds(sects, kind, i)
    ensures Kinds(sects, kind, i + 1)
            == if Of(sects[i], kind) then Kinds(sects, kind, i) + {i} else Kinds(sects, kind, i)
  {
    hide Of;
  }

  lemma {:induction false} KindSize(sects: seq<Sect>, kind: Flag, i: nat)
    requires i <= |sects|
    ensures |Kinds(sects, kind, i)| == Rank(sects, kind, i)
  {
    hide Kinds, Of;
    if i == 0 {
      KindsNone(sects, kind);
    } else {
      KindSize(sects, kind, i - 1);
      KindsSnoc(sects, kind, i - 1);
    }
  }

  lemma {:induction false} Fewer(a: set<nat>, b: set<nat>)
    requires a <= b
    ensures |a| <= |b| && (|a| == |b| ==> a == b)
  {
    if a != {} {
      var x :| x in a;
      Fewer(a - {x}, b - {x});
    }
  }

  /** For any load orders: every section of the kind is placed exactly if the orders leave no gap and none is empty. */
  lemma PlacedIffGapless(sects: seq<Sect>, kind: Flag, placed: seq<nat>)
    requires Schedule(sects, kind, placed) && forall i: nat :: !Picks(sects, kind, |placed|, i)
    ensures AllIn(sects, kind, placed) <==> Gapless(sects, kind)
  {
    var kinds := Kinds(sects, kind, |sects|);
    KindSize(sects, kind, |sects|);
    forall j, k | 0 <= j < k < |placed|
      ensures placed[j] != placed[k]
    {
      assert First(sects, kind, j, placed[j]) && First(sects, kind, k, placed[k]);
    }
    var all := set x | x in placed;
    DistinctSize(placed, all);
    forall x | x in all
      ensures x in kinds
    {
      var k :| 0 <= k < |placed| && placed[k] == x;
      assert First(sects, kind, k, placed[k]);
    }
    Fewer(all, kinds);
    if AllIn(sects, kind, placed) {
      assert all == kinds;
      forall k: nat | k < |placed|
        ensures Taken(sects, kind, k)
      {
        assert First(sects, kind, k, placed[k]);
      }
    }
    if Gapless(sects, kind) {
      assert !Taken(sects, kind, |placed|);
      assert all == kinds;
      forall i: nat | i < |sects| && Of(sects[i], kind)
        ensures i in placed
      {
        assert i in kinds;
      }
    }
  }

  lemma {:induction false} EndGrows(sects: seq<Sect>, placed: seq<nat>, i: nat, j: nat)
    requires i <= j <= |placed| && forall k :: 0 <= k < |placed| ==> placed[k] < |sects|
    ensures End(sects, placed, i) <= End(sects, placed, j)
  {
    if i < j {
      EndGrows(sects, placed, i, j - 1);
    }
  }

  /** The sections placed are aligned and each lies behind the one before it in the order. */
  predicate Behind(now: seq<Sect>, base: nat, placed: seq<nat>) {
    (forall k :: 0 <= k < |placed| ==>
       placed[k] < |now| && base <= now[placed[k]].base &&
       Aligned(now[placed[k]].base - base, now[placed[k]].alignment)) &&
    forall j, k :: 0 <= j < k < |placed| ==> now[placed[j]].base + now[placed[j]].size <= now[placed[k]].base
  }

  predicate Inside(now: seq<Sect>, end: nat, placed: seq<nat>) {
    forall k :: 0 <= k < |placed| ==> placed[k] < |now| && now[placed[k]].base + now[placed[k]].size <= end
  }

  lemma LaidAt(now: seq<Sect>, was: seq<Sect>, base: nat, placed: seq<nat>, k: nat)
    requires Laid(now, was, base, placed) && k < |placed|
    ensures |now| == |was| && forall k :: 0 <= k < |placed| ==> placed[k] < |was|
    ensures now[placed[k]] == was[placed[k]].(base := base + Offset(was, placed, k))
    ensures End(was, placed, k) <= Offset(was, placed, k) && Aligned(Offset(was, placed, k), was[placed[k]].alignment)
    ensures now[placed[k]].base + now[placed[k]].size == base + End(was, placed, k + 1)
  {
    hide Offset, End, Aligned;
    OffsetFacts(was, placed, k);
  }

  lemma OffsetFacts(sects: seq<Sect>, placed: seq<nat>, k: nat)
    requires k < |placed| && forall j :: 0 <= j < |placed| ==> placed[j] < |sects|
    ensures End(sects, placed, k) <= Offset(sects, placed, k)
    ensures Aligned(Offset(sects, placed, k), sects[placed[k]].alignment)
    ensures End(sects, placed, k + 1) == Offset(sects, placed, k) + sects[placed[k]].size
  {
    AlignedAt(End(sects, placed, k), sects[placed[k]].alignment);
    hide Align, Aligned;
  }

  lemma AlignedAt(offset: nat, alignment: nat)
    ensures offset <= Align(offset, alignment)
    ensures Aligned(Align(offset, alignment), alignment) && Aligned(0, alignment)
  {}

  /** For any load orders: the sections placed are aligned and do not overlap. */
  lemma LaidBehind(now: seq<Sect>, was: seq<Sect>, base: nat, placed: seq<nat>)
    requires Laid(now, was, base, placed)
    ensures |now| == |was| && forall k :: 0 <= k < |placed| ==> placed[k] < |was|
    ensures Behind(now, base, placed)
  {
    hide Laid, Align, Aligned, End, Offset;
    LaidShape(now, was, base, placed);
    forall k | 0 <= k < |placed|
      ensures base <= now[placed[k]].base && Aligned(now[placed[k]].base - base, now[placed[k]].alignment)
    {
      LaidAt(now, was, base, placed, k);
    }
    forall j, k | 0 <= j < k < |placed|
      ensures now[placed[j]].base + now[placed[j]].size <= now[placed[k]].base
    {
      LaidAt(now, was, base, placed, j);
      LaidAt(now, was, base, placed, k);
      EndGrows(was, placed, j + 1, k);
    }
  }

  /** For any load orders: the sections placed lie in an area exactly if it reaches the end of the last. */
  lemma LaidInside(now: seq<Sect>, was: seq<Sect>, base: nat, placed: seq<nat>, total: nat)
    requires Laid(now, was, base, placed)
    ensures |now| == |was| && forall k :: 0 <= k < |placed| ==> placed[k] < |was|
    ensures Inside(now, base + total, placed) <==> End(was, placed, |placed|) <= total
  {
    hide Laid, Align, Aligned, End, Offset;
    LaidShape(now, was, base, placed);
    forall k | 0 <= k < |placed|
      ensures now[placed[k]].base + now[placed[k]].size <= base + End(was, placed, |placed|)
    {
      LaidAt(now, was, base, placed, k);
      EndGrows(was, placed, k + 1, |placed|);
    }
    if |placed| > 0 {
      LaidAt(now, was, base, placed, |placed| - 1);
    } else {
      NoEnd(was, placed);
    }
  }

  lemma NoEnd(sects: seq<Sect>, placed: seq<nat>)
    requires forall k :: 0 <= k < |placed| ==> placed[k] < |sects|
    ensures placed == [] ==> End(sects, placed, |placed|) == 0
  {}

  lemma {:induction false} SameEnd(a: seq<Sect>, b: seq<Sect>, placed: seq<nat>, n: nat)
    requires |a| == |b| && n <= |placed| && forall k :: 0 <= k < |placed| ==> placed[k] < |a|
    requires forall j :: 0 <= j < |a| ==> a[j].size == b[j].size && a[j].alignment == b[j].alignment
    ensures End(a, placed, n) == End(b, placed, n)
  {
    hide Align;
    if n > 0 { SameEnd(a, b, placed, n - 1); }
  }

  /** What linking decides: the sections with the orders it gives them. */
  ghost predicate Ordered(now: seq<Sect>, was: seq<Sect>, kind: Flag) {
    && SameBut(now, was) && !Looping(was, kind)
    && (forall i :: 0 <= i < |was| && !Of(was[i], kind) ==> now[i] == was[i])
    && (forall i :: 0 <= i < |was| && Of(was[i], kind) ==> now[i].loadOrder == OrderOf(was, kind, i))
  }

  lemma NoLinksNoLoop(sects: seq<Sect>, kind: Flag)
    ensures NoLinks(sects, kind) ==> !Looping(sects, kind)
  {}

  lemma OrderedSame(now: seq<Sect>, was: seq<Sect>, kind: Flag)
    requires Ordered(now, was, kind)
    ensures |now| == |was|
    ensures forall i :: 0 <= i < |was| ==> now[i] == was[i].(loadOrder := now[i].loadOrder)
    ensures NoLinks(was, kind) ==> Numbered(now, kind)
  {
    hide LinkedTo, Looping;
    if NoLinks(was, kind) {
      NumberedWithoutLinks(now, was, kind);
    }
  }

  /**
   Sizing, numbering and loading of one kind of section in `rtems_rtl_obj_load_sections`. All sections are placed
   exactly if the orders that links give them leave no gap; they are apart, and fit the summed size exactly if their
   end in load order does. If load order is list order, as it is without links, a section is placed exactly if no
   section of its kind up to and including it is empty, and with none empty the layout fits.
   */
  method Place(obj: Obj, kind: Flag, base: nat, handler: nat -> bool)
    returns (total: nat, ok: bool, endless: bool, ghost placed: seq<nat>, ghost numbered: seq<Sect>)
    requires kind in TYPES
    modifies obj
    ensures |obj.sections| == |old(obj.sections)| && total == Sum(old(obj.sections), kind, |obj.sections|)
    ensures endless <==> Looping(old(obj.sections), kind)
    ensures endless ==> !ok
    ensures !endless ==> Ordered(numbered, old(obj.sections), kind) && Schedule(numbered, kind, placed)
    ensures !endless && (forall i: nat :: i < |obj.sections| && Of(old(obj.sections)[i], kind) ==>
               Takes(old(obj.sections)[i], handler(i)))
            ==> ok
    ensures ok ==> (AllIn(old(obj.sections), kind, placed) <==> Gapless(numbered, kind))
    ensures |numbered| == |obj.sections|
    ensures ok ==> forall i :: 0 <= i < |numbered| ==> obj.sections[i] == numbered[i].(base := obj.sections[i].base)
    ensures ok ==> Behind(obj.sections, base, placed)
    ensures ok ==> (forall k :: 0 <= k < |placed| ==> placed[k] < |old(obj.sections)|) &&
                   (Inside(obj.sections, base + total, placed) <==> End(old(obj.sections), placed, |placed|) <= total)
    ensures NoLinks(old(obj.sections), kind) ==> !endless && Numbered(numbered, kind)
    ensures ok && Numbered(numbered, kind) ==>
              forall i: nat :: i < |obj.sections| && Of(old(obj.sections)[i], kind) ==>
                (i in placed <==> Clear(old(obj.sections), kind, i + 1))
    ensures ok && Numbered(numbered, kind) && Clear(old(obj.sections), kind, |obj.sections|) ==>
              WellPlaced(obj.sections, kind, base, total)
  {
    hide Sum, Clear, WellPlaced, Complete, Laid, Ordered, NoLinks, Numbered, Gapless, Behind, Inside, AllIn, End,
         Aligned, Looping;
    ghost var was := obj.sections;
    total := obj.SectionSize(kind);
    endless := obj.LinkOrder(kind);
    numbered, placed, ok := obj.sections, [], false;
    NoLinksNoLoop(was, kind);
    if endless { return; }
    OrderedSame(numbered, was, kind);
    ok, placed := obj.Loader(kind, base, handler);
    if ok {
      LinkedResult(obj.sections, numbered, was, kind, base, placed, total);
      if Numbered(numbered, kind) {
        NumberedResult(obj.sections, numbered, was, kind, base, placed);
      }
    } else {
      RefusedShape(obj.sections, numbered, kind, base, placed);
    }
  }

  lemma LinkedResult(now: seq<Sect>, numbered: seq<Sect>, was: seq<Sect>, kind: Flag, base: nat, placed: seq<nat>,
                     total: nat)
    requires |numbered| == |was|
    requires forall i :: 0 <= i < |was| ==> numbered[i] == was[i].(loadOrder := numbered[i].loadOrder)
    requires Schedule(numbered, kind, placed) && forall i: nat :: !Picks(numbered, kind, |placed|, i)
    requires Laid(now, numbered, base, placed)
    ensures |now| == |was| && Behind(now, base, placed)
    ensures forall i :: 0 <= i < |was| ==> now[i] == numbered[i].(base := now[i].base)
    ensures AllIn(was, kind, placed) <==> Gapless(numbered, kind)
    ensures forall k :: 0 <= k < |placed| ==> placed[k] < |was|
    ensures Inside(now, base + total, placed) <==> End(was, placed, |placed|) <= total
  {
    hide Laid, Gapless, Behind, Inside, End, Schedule;
    PlacedIffGapless(numbered, kind, placed);
    LaidBehind(now, numbered, base, placed);
    LaidInside(now, numbered, base, placed, total);
    SameEnd(numbered, was, placed, |placed|);
    forall i | 0 <= i < |was|
      ensures now[i] == numbered[i].(base := now[i].base)
    {
      LaidSame(now, numbered, base, placed, i);
    }
  }

  lemma NumberedResult(now: seq<Sect>, numbered: seq<Sect>, was: seq<Sect>, kind: Flag, base: nat, placed: seq<nat>)
    requires |numbered| == |was|
    requires forall i :: 0 <= i < |was| ==> numbered[i] == was[i].(loadOrder := numbered[i].loadOrder)
    requires Numbered(numbered, kind) && Schedule(numbered, kind, placed)
    requires forall i: nat :: !Picks(numbered, kind, |placed|, i)
    requires Laid(now, numbered, base, placed)
    ensures |now| == |was|
    ensures forall i: nat :: i < |was| && Of(was[i], kind) ==> (i in placed <==> Clear(was, kind, i + 1))
    ensures Clear(was, kind, |was|) ==> WellPlaced(now, kind, base, Sum(was, kind, |was|))
  {
    hide Sum, Clear, WellPlaced, Complete, Laid, Numbered, Schedule;
    Completed(numbered, kind, placed);
    LaidShape(now, numbered, base, placed);
    SameSum(numbered, was, kind, |was|);
    forall i: nat | i < |was| && Of(was[i], kind)
      ensures i in placed <==> Clear(was, kind, i + 1)
    {
      SameSum(numbered, was, kind, i + 1);
      PlacedIffClear(numbered, kind, placed, i);
    }
    if Clear(was, kind, |was|) {
      AllPlaced(now, numbered, kind, base, placed);
    }
  }

  /** Two exception sections, linked to the second and to the first code section; the one placed last needs aligning. */
  function Crossed(): seq<Sect> {
    [Sect(1, {Text, Load}, 1, 1, 0, 0, 0), Sect(2, {Text, Load}, 1, 1, 0, 0, 0),
     Sect(3, {Eh, Load}, 4, 4, 2, 0, 0), Sect(4, {Eh, Load}, 1, 1, 1, 0, 0)]
  }

  lemma CrossedOrders()
    ensures !Looping(Crossed(), Eh) && OrderOf(Crossed(), Eh, 2) == 1 && OrderOf(Crossed(), Eh, 3) == 0
    ensures Sum(Crossed(), Eh, 4) == 5
    ensures Rank(Crossed(), Eh, 4) == 2
  {
    var s := Crossed();
    assert Find(s, 2, 0) == 1 && Find(s, 1, 0) == 0 by {
      assert Find(s, 2, 1) == 1;
    }
    FinalOrder(s, 2, {Eh});
    FinalOrder(s, 1, {Eh});
    hide LinkedTo, Endless;
    assert Mask(s[1]) == {Text} && Mask(s[0]) == {Text};
    assert Before(s, {Text}, 0) == 0 && Before(s, {Text}, 1) == 1;
    assert Sum(s, Eh, 2) == 0 by { assert Sum(s, Eh, 0) == 0 && Sum(s, Eh, 1) == 0; }
    assert Sum(s, Eh, 3) == 4;
    assert Rank(s, Eh, 2) == 0 by { assert Rank(s, Eh, 0) == 0 && Rank(s, Eh, 1) == 0; }
  }

  /** Sizes are summed in list order and sections placed in link order: these two end behind the summed size. */
  method CrossedRun() returns (total: nat, obj: Obj, ghost placed: seq<nat>)
    ensures AllIn(Crossed(), Eh, placed) && !Inside(obj.sections, total, placed)
  {
    hide Sum, Looping, OrderOf, Rank, Gapless, Behind, Inside, AllIn, Schedule, Ordered;
    obj := new Obj;
    obj.sections := Crossed();
    CrossedOrders();
    var ok, endless; ghost var numbered;
    total, ok, endless, placed, numbered := Place(obj, Eh, 0, i => true);
    CrossedAll(numbered);
    OrderedSame(numbered, Crossed(), Eh);
    CrossedEnd(obj.sections, numbered, placed);
  }

  lemma CrossedAll(numbered: seq<Sect>)
    requires Ordered(numbered, Crossed(), Eh)
    ensures Gapless(numbered, Eh) && |numbered| == 4 && numbered[2].loadOrder == 1 && numbered[3].loadOrder == 0
  {
    hide Sum, Looping, OrderOf, Rank;
    CrossedOrders();
    assert Picks(numbered, Eh, 0, 3) && Picks(numbered, Eh, 1, 2);
    assert Taken(numbered, Eh, 0) && Taken(numbered, Eh, 1);
    SameRank(numbered, Crossed(), Eh, 4);
  }

  lemma CrossedEnd(now: seq<Sect>, numbered: seq<Sect>, placed: seq<nat>)
    requires Schedule(numbered, Eh, placed) && Behind(now, 0, placed) && AllIn(Crossed(), Eh, placed)
    requires |numbered| == 4 && numbered[2].loadOrder == 1 && numbered[3].loadOrder == 0
    requires |now| == 4 && forall i :: 0 <= i < 4 ==>
               now[i].size == Crossed()[i].size && now[i].alignment == Crossed()[i].alignment
    ensures !Inside(now, 5, placed)
  {
    assert 2 in placed && 3 in placed;
    var j: nat :| j < |placed| && placed[j] == 2;
    var k: nat :| k < |placed| && placed[k] == 3;
    assert First(numbered, Eh, j, 2) && First(numbered, Eh, k, 3);
    assert Aligned(now[placed[j]].base - 0, now[placed[j]].alignment);
  }

  lemma Completed(sects: seq<Sect>, kind: Flag, placed: seq<nat>)
    requires Numbered(sects, kind) && Schedule(sects, kind, placed) && forall i: nat :: !Picks(sects, kind, |placed|, i)
    ensures Complete(sects, kind, placed)
  {}

  lemma RefusedShape(now: seq<Sect>, was: seq<Sect>, kind: Flag, base: nat, placed: seq<nat>)
    requires exists f: nat :: Refused(now, was, kind, base, placed, f)
    ensures |now| == |was|
  {}

  /** Sections that were never numbered, all with order zero: at most the first of them is placed. */
  lemma UnnumberedFirstOnly(sects: seq<Sect>, kind: Flag, placed: seq<nat>)
    requires Schedule(sects, kind, placed) && forall s <- sects :: Of(s, kind) ==> s.loadOrder == 0
    ensures |placed| <= 1
  {
    if |placed| > 0 {
      var last := |placed| - 1;
      assert First(sects, kind, last, placed[last]);
    }
  }
}
