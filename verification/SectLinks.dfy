/** Sections of rtl-obj.c and the order that links between them give: `rtems_rtl_obj_sections_linked_to_order`. */
module SectLinks {
  datatype Flag = Text | Const | Eh | Data | Bss | Load | Zero

  /**
   `link` is the number of the section this one is ordered after, or 0; `base` is zero until the section is placed.
   */
  datatype Sect = Sect(section: nat, flags: set<Flag>, size: nat, alignment: nat, link: nat, loadOrder: int, base: nat)

  const TYPES := {Text, Const, Eh, Data, Bss}

  function Mask(s: Sect): set<Flag> {
    s.flags * TYPES
  }

  /** The first section with this number, or the end. */
  function Find(sects: seq<Sect>, section: nat, i: nat): (r: nat)
    requires i <= |sects|
    ensures i <= r <= |sects| && (r < |sects| ==> sects[r].section == section)
    decreases |sects| - i
  {
    if i == |sects| || sects[i].section == section then i else Find(sects, section, i + 1)
  }

  /** The number of sections before position `i` that have all these flags. */
  function Before(sects: seq<Sect>, mask: set<Flag>, i: nat): nat
    requires i <= |sects|
  {
    if i == 0 then 0 else Before(sects, mask, i - 1) + (if mask <= sects[i - 1].flags then 1 else 0)
  }

  // ---------------------------------------------------------------- following links

  /** The section with this number ends the links: there is none, it has no link, or its type was visited before. */
  predicate Final(sects: seq<Sect>, section: nat, visited: set<Flag>) {
    var i := Find(sects, section, 0);
    i == |sects| || sects[i].link == 0 || sects[i].flags * visited != {}
  }

  /** The links come to an end within `n` sections. */
  predicate Ends(sects: seq<Sect>, section: nat, visited: set<Flag>, n: nat)
    decreases n
  {
    n > 0 && (Final(sects, section, visited) ||
              var s := sects[Find(sects, section, 0)]; Ends(sects, s.link, visited + Mask(s), n - 1))
  }

  /** The order of the section at the end: its position in its type, or -1 for none or a type seen before. */
  function Chase(sects: seq<Sect>, section: nat, visited: set<Flag>, n: nat): int
    requires Ends(sects, section, visited, n)
    decreases n
  {
    var i := Find(sects, section, 0);
    if Final(sects, section, visited) then
      if i < |sects| && sects[i].link == 0 then Before(sects, Mask(sects[i]), i) else -1
    else Chase(sects, sects[i].link, visited + Mask(sects[i]), n - 1)
  }

  /** The links never come to an end. */
  ghost predicate Endless(sects: seq<Sect>, section: nat, visited: set<Flag>) {
    forall n: nat :: !Ends(sects, section, visited, n)
  }

  ghost function LinkedTo(sects: seq<Sect>, section: nat, visited: set<Flag>): int
    requires !Endless(sects, section, visited)
  {
    var n: nat :| Ends(sects, section, visited, n);
    Chase(sects, section, visited, n)
  }

  /** However long one is ready to follow the links, the order is the same. */
  lemma {:induction false} ChaseSame(sects: seq<Sect>, section: nat, visited: set<Flag>, m: nat, n: nat)
    requires Ends(sects, section, visited, m) && Ends(sects, section, visited, n)
    ensures Chase(sects, section, visited, m) == Chase(sects, section, visited, n)
    decreases n
  {
    if !Final(sects, section, visited) {
      var s := sects[Find(sects, section, 0)];
      ChaseSame(sects, s.link, visited + Mask(s), m - 1, n - 1);
    }
  }

  lemma LinkedChase(sects: seq<Sect>, section: nat, visited: set<Flag>, n: nat)
    requires Ends(sects, section, visited, n)
    ensures !Endless(sects, section, visited)
    ensures LinkedTo(sects, section, visited) == Chase(sects, section, visited, n)
  {
    hide Chase;
    var m: nat :| Ends(sects, section, visited, m) &&
                  LinkedTo(sects, section, visited) == Chase(sects, section, visited, m);
    ChaseSame(sects, section, visited, m, n);
  }

  /** One link further. */
  lemma LinkOn(sects: seq<Sect>, section: nat, visited: set<Flag>)
    requires !Final(sects, section, visited)
    ensures var s := sects[Find(sects, section, 0)]; var more := visited + Mask(s);
            && (Endless(sects, section, visited) <==> Endless(sects, s.link, more))
            && (!Endless(sects, section, visited) ==>
                  LinkedTo(sects, section, visited) == LinkedTo(sects, s.link, more))
  {
    hide Chase;
    var s := sects[Find(sects, section, 0)];
    var more := visited + Mask(s);
    if !Endless(sects, s.link, more) {
      var n: nat :| Ends(sects, s.link, more, n);
      ChaseOn(sects, section, visited, n);
      LinkedChase(sects, section, visited, n + 1);
      LinkedChase(sects, s.link, more, n);
    } else {
      forall n: nat
        ensures !Ends(sects, section, visited, n)
      {
        assert n > 0 ==> !Ends(sects, s.link, more, n - 1);
      }
    }
  }

  lemma ChaseOn(sects: seq<Sect>, section: nat, visited: set<Flag>, n: nat)
    requires !Final(sects, section, visited)
    requires var s := sects[Find(sects, section, 0)]; Ends(sects, s.link, visited + Mask(s), n)
    ensures Ends(sects, section, visited, n + 1)
    ensures var s := sects[Find(sects, section, 0)];
            Chase(sects, section, visited, n + 1) == Chase(sects, s.link, visited + Mask(s), n)
  {}

  lemma FinalOrder(sects: seq<Sect>, section: nat, visited: set<Flag>)
    requires Final(sects, section, visited)
    ensures !Endless(sects, section, visited)
    ensures var i := Find(sects, section, 0);
            LinkedTo(sects, section, visited)
            == if i < |sects| && sects[i].link == 0 then Before(sects, Mask(sects[i]), i) else -1
  {
    assert Ends(sects, section, visited, 1);
    LinkedChase(sects, section, visited, 1);
  }

  // ---------------------------------------------------------------- links without an end

  /** A linked section without a type: passing it leaves no mark. */
  predicate Unmarked(s: Sect) {
    s.link != 0 && Mask(s) == {}
  }

  /** Sections without a type, one linked to the next, the last to `section`. */
  predicate Trail(sects: seq<Sect>, section: nat, path: seq<nat>) {
    && (forall k :: 0 <= k < |path| ==> path[k] < |sects| && Unmarked(sects[path[k]]))
    && (forall k :: 0 <= k < |path| - 1 ==> Find(sects, sects[path[k]].link, 0) == path[k + 1])
    && (path != [] ==> sects[path[|path| - 1]].link == section)
  }

  predicate Distinct(path: seq<nat>) {
    forall j, k :: 0 <= j < k < |path| ==> path[j] != path[k]
  }

  /** A trail that leads back to one of its sections is never left. */
  lemma {:induction false} Circle(sects: seq<Sect>, section: nat, path: seq<nat>, from: nat, visited: set<Flag>,
                                  at: nat, j: nat, n: nat)
    requires Trail(sects, section, path) && from <= j < |path| && visited <= TYPES
    requires Find(sects, section, 0) == path[from] && Find(sects, at, 0) == path[j]
    ensures !Ends(sects, at, visited, n)
    decreases n
  {
    var s := sects[path[j]];
    assert Unmarked(s);
    assert s.flags * visited == {} by {
      assert forall f :: f in s.flags && f in visited ==> f in Mask(s);
    }
    assert visited + Mask(s) == visited;
    if n > 0 {
      Circle(sects, section, path, from, visited, s.link, if j == |path| - 1 then from else j + 1, n - 1);
    }
  }

  lemma CircleEndless(sects: seq<Sect>, section: nat, path: seq<nat>, visited: set<Flag>)
    requires Trail(sects, section, path) && visited <= TYPES && Find(sects, section, 0) in path
    ensures Endless(sects, section, visited)
  {
    hide Trail, Ends;
    var from: nat :| from < |path| && path[from] == Find(sects, section, 0);
    forall n: nat
      ensures !Ends(sects, section, visited, n)
    {
      Circle(sects, section, path, from, visited, section, from, n);
    }
  }

  lemma {:induction false} RangeSize(s: set<nat>, n: nat)
    requires forall x <- s :: x < n
    ensures |s| <= n
  {
    if n == 0 {
      assert s == {};
    } else {
      RangeSize(s - {n - 1}, n - 1);
    }
  }

  lemma {:induction false} DistinctSize(path: seq<nat>, all: set<nat>)
    requires Distinct(path) && forall x :: x in all <==> x in path
    ensures |all| == |path|
  {
    if path == [] {
      assert all == {};
    } else {
      var n := |path| - 1;
      DistinctSize(path[..n], all - {path[n]});
    }
  }

  lemma DistinctFits(path: seq<nat>, n: nat)
    requires Distinct(path) && forall k :: 0 <= k < |path| ==> path[k] < n
    ensures |path| <= n
  {
    var all := set x | x in path;
    DistinctSize(path, all);
    RangeSize(all, n);
  }

  lemma TrailOn(sects: seq<Sect>, section: nat, path: seq<nat>)
    requires Trail(sects, section, path) && Distinct(path)
    requires var i := Find(sects, section, 0); i < |sects| && Unmarked(sects[i]) && i !in path
    ensures var i := Find(sects, section, 0);
            Trail(sects, sects[i].link, path + [i]) && Distinct(path + [i]) && |path| < |sects|
  {
    var i := Find(sects, section, 0);
    DistinctFits(path + [i], |sects|);
  }

  lemma Longer(mask: set<Flag>, visited: set<Flag>)
    requires mask != {} && mask <= TYPES && mask * visited == {}
    ensures TYPES - (visited + mask) < TYPES - visited
  {
    var f :| f in mask;
    assert f !in visited by {
      assert f in visited ==> f in mask * visited;
    }
    assert f in TYPES - visited && f !in TYPES - (visited + mask);
  }

  /**
   `rtems_rtl_obj_sections_linked_to_order`. A link to a type seen before is noticed, a circle of sections without a
   type is not, and the recursion does not end; `path` serves only to report that.
   */
  method LinkedOrder(sects: seq<Sect>, section: nat, visited: set<Flag>, path: seq<nat>)
    returns (order: int, endless: bool)
    requires visited <= TYPES && Trail(sects, section, path) && Distinct(path)
    ensures endless <==> Endless(sects, section, visited)
    ensures !endless ==> order == LinkedTo(sects, section, visited)
    decreases TYPES - visited, |sects| - |path|
  {
    hide Ends, Endless, LinkedTo, Trail, Distinct;
    var node := 0;
    while node < |sects| && sects[node].section != section
      invariant 0 <= node <= |sects| && Find(sects, section, node) == Find(sects, section, 0)
      invariant forall j :: 0 <= j < node ==> sects[j].section != section
    {
      node := node + 1;
    }
    if node == |sects| {
      FinalOrder(sects, section, visited);
      return -1, false;
    }
    var sect := sects[node];
    var mask := Mask(sect);
    if sect.link != 0 {
      if sect.flags * visited != {} {
        FinalOrder(sects, section, visited);
        return -1, false;
      }
      LinkOn(sects, section, visited);
      if mask == {} {
        if node in path {
          CircleEndless(sects, section, path, visited);
          return -1, true;
        }
        assert visited + mask == visited;
        TrailOn(sects, section, path);
        order, endless := LinkedOrder(sects, sect.link, visited + mask, path + [node]);
      } else {
        Longer(mask, visited);
        NoTrail(sects, sect.link);
        order, endless := LinkedOrder(sects, sect.link, visited + mask, []);
      }
      return;
    }
    FinalOrder(sects, section, visited);
    order, endless := 0, false;
    var i := 0;
    while sects[i].section != section || !(mask <= sects[i].flags)
      invariant 0 <= i <= node && order == Before(sects, mask, i)
      decreases node - i
    {
      if mask <= sects[i].flags { order := order + 1; }
      i := i + 1;
    }
  }

  lemma NoTrail(sects: seq<Sect>, section: nat)
    ensures Trail(sects, section, []) && Distinct([])
  {}

  // ---------------------------------------------------------------- when links end

  /** A section that is linked on has a type. */
  predicate TypedEnd(sects: seq<Sect>, section: nat) {
    forall j :: 0 <= j < |sects| && sects[j].section == section && sects[j].link != 0 ==> Mask(sects[j]) != {}
  }

  /** Links of sections with a type do not lead to linked sections without one, such as relocation sections. */
  predicate TypedLinks(sects: seq<Sect>) {
    forall i :: 0 <= i < |sects| && Mask(sects[i]) != {} && sects[i].link != 0 ==> TypedEnd(sects, sects[i].link)
  }

  /** Then they end. */
  lemma {:induction false} TypedEnds(sects: seq<Sect>, section: nat, visited: set<Flag>) returns (n: nat)
    requires TypedLinks(sects) && TypedEnd(sects, section) && visited <= TYPES
    ensures Ends(sects, section, visited, n) && !Endless(sects, section, visited)
    decreases TYPES - visited
  {
    n := 1;
    if !Final(sects, section, visited) {
      var s := sects[Find(sects, section, 0)];
      assert Mask(s) * visited == {} by {
        assert forall f :: f in Mask(s) && f in visited ==> f in s.flags * visited;
      }
      Longer(Mask(s), visited);
      n := TypedEnds(sects, s.link, visited + Mask(s));
      n := n + 1;
    }
    LinkedChase(sects, section, visited, n);
  }

  /** A section of code linked to one without a type that is linked to itself. */
  function SelfLinked(): seq<Sect> {
    [Sect(1, {Text, Load}, 1, 1, 2, 0, 0), Sect(2, {Load}, 1, 1, 2, 0, 0)]
  }

  lemma SelfLinkedEndless()
    ensures Endless(SelfLinked(), SelfLinked()[0].link, {Text})
  {
    hide Endless;
    var sects := SelfLinked();
    assert Find(sects, 2, 0) == Find(sects, 2, 1) == 1;
    CircleEndless(sects, 2, [1], {Text});
  }

  // ---------------------------------------------------------------- load orders do not matter

  predicate SameBut(a: seq<Sect>, b: seq<Sect>) {
    |a| == |b| && forall j :: 0 <= j < |a| ==> a[j] == b[j].(loadOrder := a[j].loadOrder)
  }

  lemma {:induction false} SameFind(a: seq<Sect>, b: seq<Sect>, section: nat, i: nat)
    requires SameBut(a, b) && i <= |a|
    ensures Find(a, section, i) == Find(b, section, i)
    decreases |a| - i
  {
    if i < |a| { SameFind(a, b, section, i + 1); }
  }

  lemma {:induction false} SameBefore(a: seq<Sect>, b: seq<Sect>, mask: set<Flag>, i: nat)
    requires SameBut(a, b) && i <= |a|
    ensures Before(a, mask, i) == Before(b, mask, i)
  {
    if i > 0 { SameBefore(a, b, mask, i - 1); }
  }

  lemma {:induction false} SameChase(a: seq<Sect>, b: seq<Sect>, section: nat, visited: set<Flag>, n: nat)
    requires SameBut(a, b)
    ensures Ends(a, section, visited, n) <==> Ends(b, section, visited, n)
    ensures Ends(a, section, visited, n) ==> Chase(a, section, visited, n) == Chase(b, section, visited, n)
    decreases n
  {
    SameFind(a, b, section, 0);
    var i := Find(b, section, 0);
    if i < |b| { SameBefore(a, b, Mask(b[i]), i); }
    if n > 0 && !Final(b, section, visited) {
      SameChase(a, b, b[i].link, visited + Mask(b[i]), n - 1);
    }
  }

  lemma SameLinks(a: seq<Sect>, b: seq<Sect>, section: nat, visited: set<Flag>)
    requires SameBut(a, b)
    ensures Endless(a, section, visited) <==> Endless(b, section, visited)
    ensures !Endless(a, section, visited) ==> LinkedTo(a, section, visited) == LinkedTo(b, section, visited)
  {
    hide SameBut, Ends, Chase;
    forall n: nat
      ensures Ends(a, section, visited, n) <==> Ends(b, section, visited, n)
    {
      SameChase(a, b, section, visited, n);
    }
    if !Endless(a, section, visited) {
      var n: nat :| Ends(a, section, visited, n);
      SameChase(a, b, section, visited, n);
      LinkedChase(a, section, visited, n);
      LinkedChase(b, section, visited, n);
    }
  }
}
