/**
 What registration keeps is what translation and the depth-first walk rely on: the registry as a tree of buses with
 their address tables, and as the linked structure that is walked.
 */
module DrvTogether {
  import opened Options
  import opened DrvRegistry
  import opened DrvTree
  import DrvTranslate
  import DrvWalk

  /** The root device and its bus; every other device is on a bus. */
  ghost predicate RootedAt(s: State, d: nat, b: nat) {
    && Valid(s) && d in s.devs && s.devs[d].parent == None && s.devs[d].bus == Some(b) && b in s.buses
    && forall x :: x in s.devs && s.devs[x].parent == None ==> x == d
  }

  // ---------------------------------------------------------------- translation

  /** The buses with their tables. */
  function BusesOf(s: State, up: nat -> DrvTranslate.Maps, down: nat -> DrvTranslate.Maps): DrvTranslate.Buses
    requires forall b :: b in s.buses ==> s.buses[b].bridge in s.devs
  {
    map b | b in s.buses :: DrvTranslate.Bus(s.buses[b].depth, s.devs[s.buses[b].bridge].parent, up(b), down(b))
  }

  lemma BusTree(s: State, up: nat -> DrvTranslate.Maps, down: nat -> DrvTranslate.Maps)
    requires Valid(s)
    ensures forall b :: b in s.buses ==> s.buses[b].bridge in s.devs
    ensures DrvTranslate.Tree(BusesOf(s, up, down))
  {
    hide Minors, Listed, NoDup;
  }

  lemma {:induction false} BelowRoot(s: State, d: nat, r: nat, up: nat -> DrvTranslate.Maps,
                                     down: nat -> DrvTranslate.Maps, b: nat)
    requires RootedAt(s, d, r) && b in s.buses
    requires forall b :: b in s.buses ==> s.buses[b].bridge in s.devs
    requires DrvTranslate.Tree(BusesOf(s, up, down))
    ensures DrvTranslate.Above(BusesOf(s, up, down), b, r)
    decreases s.buses[b].depth
  {
    hide Minors, Listed, NoDup;
    var buses := BusesOf(s, up, down);
    if b != r {
      BusFacts(s, b);
      assert buses[b].parent.Some?;
      BelowRoot(s, d, r, up, down, buses[b].parent.value);
    }
  }

  /** A valid registry meets what `drvmgr_translate` relies on. */
  lemma RegistryRooted(s: State, d: nat, r: nat, up: nat -> DrvTranslate.Maps, down: nat -> DrvTranslate.Maps)
    requires RootedAt(s, d, r)
    ensures forall b :: b in s.buses ==> s.buses[b].bridge in s.devs
    ensures DrvTranslate.Rooted(BusesOf(s, up, down), r)
  {
    hide Valid, DrvTranslate.Above, DrvTranslate.Tree;
    BusTree(s, up, down);
    DevFacts(s, d);
    forall b | b in s.buses ensures DrvTranslate.Above(BusesOf(s, up, down), b, r) { BelowRoot(s, d, r, up, down, b); }
  }

  // ---------------------------------------------------------------- the walk

  function FirstOf(l: seq<nat>): Option<nat> {
    if l == [] then None else Some(l[0])
  }

  /** The entry after `x`. */
  function NextOf(l: seq<nat>, x: nat): Option<nat> {
    if l == [] then None else if l[0] == x then FirstOf(l[1..]) else NextOf(l[1..], x)
  }

  lemma {:induction false} NextAt(l: seq<nat>, i: nat)
    requires NoDup(l) && i < |l|
    ensures NextOf(l, l[i]) == FirstOf(l[i + 1..])
  {
    if i > 0 {
      assert l[1..][i - 1] == l[i] && l[1..][i..] == l[i + 1..];
      NextAt(l[1..], i - 1);
    }
  }

  /** The linked structure: each device with the bus it exports and its neighbour on its own bus. */
  function WorldOf(s: State, d: nat, r: nat): DrvWalk.World
    requires Families(s)
  {
    DrvWalk.World(
      map x | x in s.devs && s.devs[x].parent.Some? ::
        DrvWalk.Dev(s.devs[x].bus, NextOf(s.children[s.devs[x].parent.value], x), s.devs[x].parent.value),
      map b | b in s.buses :: DrvWalk.Bus(FirstOf(s.children[b]), s.buses[b].bridge), d, r)
  }

  /** The devices of a list with all that hangs below them; no bus is `room` levels down. */
  function Forest(s: State, l: seq<nat>, room: nat): seq<DrvWalk.Tree>
    decreases room, |l|
  {
    if l == [] then []
    else
      var kids := if l[0] in s.devs && s.devs[l[0]].bus.Some? && s.devs[l[0]].bus.value in s.children && room > 0
                  then Forest(s, s.children[s.devs[l[0]].bus.value], room - 1) else [];
      [DrvWalk.Node(l[0], kids)] + Forest(s, l[1..], room)
  }

  /** A device in the linked structure. */
  lemma DevAt(s: State, d: nat, r: nat, b: nat, i: nat)
    requires RootedAt(s, d, r) && b in s.buses && b in s.children && i < |s.children[b]|
    ensures Families(s)
    ensures var w, l, x := WorldOf(s, d, r), s.children[b], s.children[b][i];
      && x in s.devs && x in w.devs && x != w.root
      && w.devs[x] == DrvWalk.Dev(s.devs[x].bus, FirstOf(l[i + 1..]), b)
      && (s.devs[x].bus.Some? ==>
            var c := s.devs[x].bus.value;
            && c in s.buses && c in s.children && c in w.buses && w.buses[c] == DrvWalk.Bus(FirstOf(s.children[c]), x)
            && s.buses[c].depth == s.buses[b].depth + 1)
  {
    hide Minors, Listed, Bridges, NextOf, NoDup, Depth, Under;
    ChildFacts(s, b, s.children[b][i]);
    DevFacts(s, s.children[b][i]);
    NextAt(s.children[b], i);
  }

  /** The list of a bus from its `i`-th device on is linked as the walk wants it. */
  lemma {:induction false} ForestHolds(s: State, d: nat, r: nat, b: nat, i: nat, room: nat)
    requires RootedAt(s, d, r) && b in s.buses && b in s.children && i <= |s.children[b]|
    requires Families(s) && Shallow(s, s.buses[b].depth + 1 + room)
    ensures DrvWalk.Holds(WorldOf(s, d, r), Forest(s, s.children[b][i..], room), FirstOf(s.children[b][i..]), b)
    decreases room, |s.children[b]| - i
  {
    hide RootedAt, Families, WorldOf, Shallow;
    var l := s.children[b];
    if i < |l| {
      assert l[i..][1..] == l[i + 1..];
      DevAt(s, d, r, b, i);
      ForestHolds(s, d, r, b, i + 1, room);
      if s.devs[l[i]].bus.Some? {
        var c := s.devs[l[i]].bus.value;
        ShallowAt(s, c, s.buses[b].depth + 1 + room);
        ForestHolds(s, d, r, c, 0, room - 1);
        assert s.children[c][0..] == s.children[c];
      }
    }
  }

  lemma ShallowAt(s: State, b: nat, depth: nat)
    requires Shallow(s, depth) && b in s.buses
    ensures s.buses[b].depth < depth
  {
  }

  /** A valid registry meets what the depth-first walk relies on. */
  lemma RegistryWhole(s: State, d: nat, r: nat, room: nat)
    requires RootedAt(s, d, r) && Shallow(s, 1 + room)
    ensures Families(s) && r in s.children && DrvWalk.Whole(WorldOf(s, d, r), Forest(s, s.children[r], room))
  {
    hide Minors, Listed, NoDup, DrvWalk.Holds, Forest;
    assert s.children[r][0..] == s.children[r];
    assert s.buses[r].depth == 0;
    ForestHolds(s, d, r, r, 0, room);
  }

  // ---------------------------------------------------------------- what the walk visits

  /** Whatever is in the trees of a list is below one of its devices. */
  lemma {:induction false} VisitedBelow(s: State, d: nat, r: nat, b: nat, i: nat, room: nat, x: nat)
    requires RootedAt(s, d, r) && b in s.buses && b in s.children && i <= |s.children[b]|
    requires x in DrvWalk.PreOrder(Forest(s, s.children[b][i..], room))
    ensures exists j :: i <= j < |s.children[b]| && Under(s, x, s.children[b][j])
    decreases room, |s.children[b]| - i
  {
    hide RootedAt, Under, Forest, DrvWalk.PreOrder;
    var l := s.children[b];
    if i == |l| {
      assert l[i..] == [];
      NoneVisited(s, room);
    } else {
      DevAt(s, d, r, b, i);
      UnderSelf(s, l[i]);
      if x in DrvWalk.PreOrder(Forest(s, l[i + 1..], room)) {
        VisitedBelow(s, d, r, b, i + 1, room, x);
      } else if x != l[i] {
        VisitedSplit(s, l, i, room, x);
        var c := s.devs[l[i]].bus.value;
        assert s.children[c][0..] == s.children[c];
        VisitedBelow(s, d, r, c, 0, room - 1, x);
        var j :| 0 <= j < |s.children[c]| && Under(s, x, s.children[c][j]);
        OnBus(s, d, r, c, j);
        UnderTrans(s, x, s.children[c][j], l[i]);
      }
    }
  }

  lemma NoneVisited(s: State, room: nat)
    ensures DrvWalk.PreOrder(Forest(s, [], room)) == []
  {}

  /** What is visited from entry `i` on: the entry, what hangs below it, or what is visited from the next on. */
  lemma VisitedSplit(s: State, l: seq<nat>, i: nat, room: nat, x: nat)
    requires i < |l| && x in DrvWalk.PreOrder(Forest(s, l[i..], room)) && x != l[i]
    requires x !in DrvWalk.PreOrder(Forest(s, l[i + 1..], room))
    ensures l[i] in s.devs && s.devs[l[i]].bus.Some? && s.devs[l[i]].bus.value in s.children && room > 0
    ensures x in DrvWalk.PreOrder(Forest(s, s.children[s.devs[l[i]].bus.value], room - 1))
  {
    assert l[i..][1..] == l[i + 1..] && l[i..][0] == l[i];
    var f := Forest(s, l[i..], room);
    assert f[1..] == Forest(s, l[i + 1..], room);
    assert DrvWalk.PreOrder(f) == [f[0].dev] + DrvWalk.PreOrder(f[0].kids) + DrvWalk.PreOrder(f[1..]);
    assert DrvWalk.PreOrder([]) == [];
  }

  lemma OnBus(s: State, d: nat, r: nat, b: nat, i: nat)
    requires RootedAt(s, d, r) && b in s.buses && b in s.children && i < |s.children[b]|
    ensures Under(s, s.children[b][i], s.buses[b].bridge) && Depth(s, s.children[b][i]) == s.buses[b].depth + 1
    ensures s.children[b][i] in s.devs
  {
    hide Valid, Under;
    ChildFacts(s, b, s.children[b][i]);
  }

  lemma {:induction false} HeadsVisited(s: State, l: seq<nat>, room: nat, j: nat)
    requires j < |l|
    ensures l[j] in DrvWalk.PreOrder(Forest(s, l, room))
    decreases |l|
  {
    if j > 0 { HeadsVisited(s, l[1..], room, j - 1); }
  }

  /** With a bridge, the trees of a list hold the devices on its bus. */
  lemma {:induction false} VisitedOn(s: State, d: nat, r: nat, b: nat, i: nat, room: nat, up: nat, c: nat, j: nat)
    requires RootedAt(s, d, r) && b in s.buses && b in s.children && i <= |s.children[b]|
    requires Shallow(s, s.buses[b].depth + 1 + room)
    requires up in DrvWalk.PreOrder(Forest(s, s.children[b][i..], room)) && up in s.devs && s.devs[up].bus == Some(c)
    requires c in s.buses && c in s.children && j < |s.children[c]|
    ensures s.children[c][j] in DrvWalk.PreOrder(Forest(s, s.children[b][i..], room))
    decreases room, |s.children[b]| - i
  {
    hide RootedAt, Shallow, Forest, DrvWalk.PreOrder, WorldOf;
    var l, x := s.children[b], s.children[c][j];
    if i == |l| {
      assert l[i..] == [];
      Nothing(s, room);
    } else {
      ForestCons(s, l, i, room);
      DevAt(s, d, r, b, i);
      if up in DrvWalk.PreOrder(Forest(s, l[i + 1..], room)) {
        VisitedOn(s, d, r, b, i + 1, room, up, c, j);
      } else {
        Nothing(s, room);
        var e := s.devs[l[i]].bus.value;
        ShallowAt(s, e, s.buses[b].depth + 1 + room);
        assert s.children[e][0..] == s.children[e];
        if up == l[i] {
          HeadsVisited(s, s.children[c], room - 1, j);
        } else {
          VisitedOn(s, d, r, e, 0, room - 1, up, c, j);
        }
      }
    }
  }

  /** Whatever is below a device of a list is in its trees. */
  lemma {:induction false} BelowVisited(s: State, d: nat, r: nat, b: nat, j: nat, room: nat, x: nat)
    requires RootedAt(s, d, r) && b in s.buses && b in s.children && j < |s.children[b]| && x in s.devs
    requires Shallow(s, s.buses[b].depth + 1 + room) && Under(s, x, s.children[b][j])
    ensures x in DrvWalk.PreOrder(Forest(s, s.children[b], room))
    decreases Depth(s, x)
  {
    var l := s.children[b];
    if x == l[j] {
      HeadsVisited(s, l, room, j);
    } else {
      var c := s.devs[x].parent.value;
      var up := s.buses[c].bridge;
      ParentOf(s, d, r, x);
      hide RootedAt, Shallow, Forest, Depth;
      BelowVisited(s, d, r, b, j, room, up);
      var k :| 0 <= k < |s.children[c]| && s.children[c][k] == x;
      assert l[0..] == l;
      VisitedOn(s, d, r, b, 0, room, up, c, k);
    }
  }

  lemma ParentOf(s: State, d: nat, r: nat, x: nat)
    requires RootedAt(s, d, r) && x in s.devs && s.devs[x].parent.Some?
    ensures var c := s.devs[x].parent.value;
      && c in s.buses && c in s.children && x in s.children[c]
      && s.buses[c].bridge in s.devs && s.devs[s.buses[c].bridge].bus == Some(c) &&
         Depth(s, s.buses[c].bridge) < Depth(s, x)
  {
    hide Minors, Listed, NoDup;
  }

  lemma {:induction false} UnderUnique(s: State, x: nat, a: nat, b: nat)
    requires Under(s, x, a) && Under(s, x, b) && Depth(s, a) == Depth(s, b)
    ensures a == b
    decreases Depth(s, x)
  {
    if x == a {
      UnderDepth(s, x, b);
    } else if x == b {
      UnderDepth(s, x, a);
    } else {
      UnderUnique(s, s.buses[s.devs[x].parent.value].bridge, a, b);
    }
  }

  /** The trees below the `i`-th device of a list. */
  function Kids(s: State, x: nat, room: nat): seq<DrvWalk.Tree> {
    if x in s.devs && s.devs[x].bus.Some? && s.devs[x].bus.value in s.children && room > 0
    then Forest(s, s.children[s.devs[x].bus.value], room - 1) else []
  }

  lemma ForestCons(s: State, l: seq<nat>, i: nat, room: nat)
    requires i < |l|
    ensures Forest(s, l[i..], room) == [DrvWalk.Node(l[i], Kids(s, l[i], room))] + Forest(s, l[i + 1..], room)
    ensures DrvWalk.PreOrder(Forest(s, l[i..], room))
            == [l[i]] + DrvWalk.PreOrder(Kids(s, l[i], room)) + DrvWalk.PreOrder(Forest(s, l[i + 1..], room))
  {
    assert l[i..][1..] == l[i + 1..] && l[i..][0] == l[i];
    var t := DrvWalk.Node(l[i], Kids(s, l[i], room));
    var rest := Forest(s, l[i + 1..], room);
    assert ([t] + rest)[1..] == rest;
  }

  /** What is in the trees below a device is below it and is not the device. */
  lemma KidsBelow(s: State, d: nat, r: nat, b: nat, i: nat, room: nat, y: nat)
    requires RootedAt(s, d, r) && b in s.buses && b in s.children && i < |s.children[b]|
    requires y in DrvWalk.PreOrder(Kids(s, s.children[b][i], room))
    ensures Under(s, y, s.children[b][i]) && y != s.children[b][i]
  {
    hide RootedAt, Forest, Under, Depth;
    var x := s.children[b][i];
    DevAt(s, d, r, b, i);
    OnBus(s, d, r, b, i);
    var c := s.devs[x].bus.value;
    assert s.children[c][0..] == s.children[c];
    VisitedBelow(s, d, r, c, 0, room - 1, y);
    var j :| 0 <= j < |s.children[c]| && Under(s, y, s.children[c][j]);
    OnBus(s, d, r, c, j);
    UnderTrans(s, y, s.children[c][j], x);
    UnderDepth(s, y, s.children[c][j]);
  }

  /** What is in the trees of the later devices is not below an earlier one. */
  lemma RestApart(s: State, d: nat, r: nat, b: nat, i: nat, room: nat, y: nat)
    requires RootedAt(s, d, r) && b in s.buses && b in s.children && i < |s.children[b]|
    requires y in DrvWalk.PreOrder(Forest(s, s.children[b][i + 1..], room))
    ensures !Under(s, y, s.children[b][i])
  {
    ListDistinct(s, d, r, b);
    hide RootedAt, Forest, Under, Depth;
    var l := s.children[b];
    VisitedBelow(s, d, r, b, i + 1, room, y);
    var j :| i + 1 <= j < |l| && Under(s, y, l[j]);
    OnBus(s, d, r, b, i);
    OnBus(s, d, r, b, j);
    if Under(s, y, l[i]) { UnderUnique(s, y, l[i], l[j]); }
  }

  lemma ListDistinct(s: State, d: nat, r: nat, b: nat)
    requires RootedAt(s, d, r) && b in s.buses
    ensures b in s.children && NoDup(s.children[b])
  {
    hide Minors, Listed, NoDup, Bridges;
  }

  /** No device is visited twice. */
  lemma {:induction false} VisitedOnce(s: State, d: nat, r: nat, b: nat, i: nat, room: nat)
    requires RootedAt(s, d, r) && b in s.buses && b in s.children && i <= |s.children[b]|
    ensures NoDup(DrvWalk.PreOrder(Forest(s, s.children[b][i..], room)))
    decreases room, |s.children[b]| - i
  {
    hide RootedAt, NoDup, Under, Forest, DrvWalk.PreOrder, WorldOf;
    var l := s.children[b];
    if i == |l| {
      assert l[i..] == [];
      Nothing(s, room);
    } else {
      ForestCons(s, l, i, room);
      DevAt(s, d, r, b, i);
      VisitedOnce(s, d, r, b, i + 1, room);
      var kids, rest := Kids(s, l[i], room), Forest(s, l[i + 1..], room);
      if kids == [] {
        Nothing(s, room);
      } else {
        var c := s.devs[l[i]].bus.value;
        assert s.children[c][0..] == s.children[c];
        VisitedOnce(s, d, r, c, 0, room - 1);
      }
      UnderSelf(s, l[i]);
      forall y | y in DrvWalk.PreOrder(kids)
        ensures Under(s, y, l[i]) && y != l[i]
      {
        KidsBelow(s, d, r, b, i, room, y);
      }
      forall y | y in DrvWalk.PreOrder(rest) ensures !Under(s, y, l[i]) { RestApart(s, d, r, b, i, room, y); }
      Apart(l[i], DrvWalk.PreOrder(kids), DrvWalk.PreOrder(rest));
    }
  }

  lemma Nothing(s: State, room: nat)
    ensures Forest(s, [], room) == [] && DrvWalk.PreOrder([]) == [] && NoDup(DrvWalk.PreOrder([]))
  {
  }

  lemma Apart(x: nat, p: seq<nat>, q: seq<nat>)
    requires NoDup(p) && NoDup(q) && x !in p && x !in q && forall y :: y in p ==> y !in q
    ensures NoDup([x] + p + q)
  {
    var all := [x] + p + q;
    forall i, j | 0 <= i < j < |all|
      ensures all[i] != all[j]
    {
      if 0 < i && j <= |p| {
        assert all[i] == p[i - 1] && all[j] == p[j - 1];
      } else if |p| < i {
        assert all[i] == q[i - 1 - |p|] && all[j] == q[j - 1 - |p|];
      } else {
        assert i == 0 || all[i] in p;
        assert all[j] in p || all[j] in q;
      }
    }
  }

  /** Every device but the root is below one on the root bus. */
  lemma {:induction false} OnRootBus(s: State, d: nat, r: nat, x: nat) returns (j: nat)
    requires RootedAt(s, d, r) && r in s.children && x in s.devs && x != d
    ensures j < |s.children[r]| && Under(s, x, s.children[r][j])
    decreases Depth(s, x)
  {
    ParentOf(s, d, r, x);
    var c := s.devs[x].parent.value;
    var up := s.buses[c].bridge;
    if c == r {
      j :| 0 <= j < |s.children[r]| && s.children[r][j] == x;
    } else {
      j := OnRootBus(s, d, r, up);
    }
    hide RootedAt;
  }

  /** The depth-first order of a valid registry: each device but the root, once. */
  lemma WalkVisitsAll(s: State, d: nat, r: nat, room: nat)
    requires RootedAt(s, d, r) && Shallow(s, 1 + room) && r in s.children
    ensures var order := DrvWalk.PreOrder(Forest(s, s.children[r], room));
      NoDup(order) && forall x :: x in order <==> x in s.devs && x != d
  {
    DevFacts(s, d);
    hide RootedAt, Forest, Under, Shallow, NoDup;
    var order := DrvWalk.PreOrder(Forest(s, s.children[r], room));
    assert s.children[r][0..] == s.children[r];
    VisitedOnce(s, d, r, r, 0, room);
    forall x
      ensures x in order <==> x in s.devs && x != d
    {
      if x in order { NotRoot(s, d, r, room, x); }
      if x in s.devs && x != d {
        var j := OnRootBus(s, d, r, x);
        RootDepth(s, d, r);
        BelowVisited(s, d, r, r, j, room, x);
      }
    }
  }

  lemma RootDepth(s: State, d: nat, r: nat)
    requires RootedAt(s, d, r)
    ensures s.buses[r].depth == 0
  {
    hide Minors, Listed, Families, NoDup;
  }

  lemma NotRoot(s: State, d: nat, r: nat, room: nat, x: nat)
    requires RootedAt(s, d, r) && r in s.children && x in DrvWalk.PreOrder(Forest(s, s.children[r], room))
    ensures x in s.devs && x != d
  {
    assert s.children[r][0..] == s.children[r];
    VisitedBelow(s, d, r, r, 0, room, x);
    var j :| 0 <= j < |s.children[r]| && Under(s, x, s.children[r][j]);
    ChildFacts(s, r, s.children[r][j]);
    hide Valid, Forest;
  }

  // ---------------------------------------------------------------- together

  /**
   The walk over a valid registry: each device but the root is visited once, in pre-order, up to the first one for which
   the function is not zero.
   */
  method WalkRegistry(s: State, d: nat, r: nat, func: nat -> int, ghost room: nat)
    returns (ret: int, visited: seq<nat>, ghost order: seq<nat>)
    requires RootedAt(s, d, r) && r in s.children && Shallow(s, 1 + room)
    ensures NoDup(order) && forall x :: x in order <==> x in s.devs && x != d
    ensures order == DrvWalk.PreOrder(Forest(s, s.children[r], room))
    ensures visited <= order && (ret == 0 ==> visited == order)
    ensures forall i :: 0 <= i < |visited| - 1 ==> func(visited[i]) == 0
    ensures ret != 0 ==> visited != [] && ret == func(visited[|visited| - 1])
  {
    hide RootedAt, Families, Shallow, NoDup, DrvWalk.Whole, Forest, DrvWalk.PreOrder;
    RegistryWhole(s, d, r, room);
    WalkVisitsAll(s, d, r, room);
    order := DrvWalk.PreOrder(Forest(s, s.children[r], room));
    ret, visited := DrvWalk.ForEachDepth(WorldOf(s, d, r), func, Forest(s, s.children[r], room));
  }

  // ---------------------------------------------------------------- every registration

  /** The start of the driver manager: the root device, then its bus. */
  method Boot(drivers: set<nat>, d: nat, drv: nat, b: nat) returns (r: Registry)
    requires drv in drivers
    ensures RootedAt(r.View(), d, b) && fresh(r)
  {
    hide Valid;
    r := new Registry(drivers);
    r.DevRegister(d, None, Some(drv), false);
    r.BusRegister(b, d);
  }

  /** From then on devices are registered on a bus and buses on a device: the root stays the only one of its kind. */
  method AddDevice(r: Registry, d: nat, parent: nat, drv: Option<nat>, ignored: bool, ghost root: nat, ghost rb: nat)
    requires RootedAt(r.View(), root, rb) && d !in r.devs && parent in r.buses
    requires drv.Some? ==> drv.value in r.ofDrv
    modifies r
    ensures RootedAt(r.View(), root, rb) && r.devs.Keys == old(r.devs.Keys) + {d} && r.devs[d].parent == Some(parent)
  {
    hide Valid;
    r.DevRegister(d, Some(parent), drv, ignored);
  }

  method AddBus(r: Registry, b: nat, bridge: nat, ghost root: nat, ghost rb: nat)
    requires RootedAt(r.View(), root, rb) && b !in r.buses && bridge in r.devs && r.devs[bridge].bus == None
    modifies r
    ensures RootedAt(r.View(), root, rb) && r.buses.Keys == old(r.buses.Keys) + {b}
  {
    hide Valid;
    r.BusRegister(b, bridge);
  }
}
