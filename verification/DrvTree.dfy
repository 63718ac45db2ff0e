/**
 Registration and removal in the driver manager: minor numbers (drvmgr.c), separation and recursive
 unregistering (drvmgr_unregister.c). The manager's linked lists are sequences.
 */
module DrvTree {
  import opened Options

  const LEVELS := 5

  /** A device; `bus` is the bus it exports when it is a bridge. */
  datatype Dev = Dev(parent: Option<nat>, drv: Option<nat>, bus: Option<nat>, minorDrv: int, minorBus: int,
                     level: nat, inactive: bool)

  datatype Bus = Bus(bridge: nat, depth: nat, level: nat, inactive: bool)

  datatype State = State(devs: map<nat, Dev>, buses: map<nat, Bus>,
                         children: map<nat, seq<nat>>, ofDrv: map<nat, seq<nat>>,
                         active: seq<seq<nat>>, inactive: seq<nat>,
                         busActive: seq<seq<nat>>, busInactive: seq<nat>)

  // ---------------------------------------------------------------- sequences without duplicates

  ghost predicate NoDup(l: seq<nat>) {
    forall i, j :: 0 <= i < j < |l| ==> l[i] != l[j]
  }

  function Filter(l: seq<nat>, keep: set<nat>): (r: seq<nat>)
    ensures forall x :: x in r <==> x in l && x in keep
  {
    if l == [] then []
    else if l[0] in keep then [l[0]] + Filter(l[1..], keep)
    else Filter(l[1..], keep)
  }

  lemma {:induction false} FilterAll(l: seq<nat>, keep: set<nat>)
    requires forall x <- l :: x in keep
    ensures Filter(l, keep) == l
  {
    if l != [] { FilterAll(l[1..], keep); }
  }

  lemma {:induction false} FilterTwice(l: seq<nat>, a: set<nat>, b: set<nat>)
    requires b <= a
    ensures Filter(Filter(l, a), b) == Filter(l, b)
  {
    if l != [] {
      FilterTwice(l[1..], a, b);
      var r := Filter(l[1..], a);
      assert ([l[0]] + r)[1..] == r;
    }
  }

  lemma {:induction false} FilterConcat(l: seq<nat>, m: seq<nat>, keep: set<nat>)
    ensures Filter(l + m, keep) == Filter(l, keep) + Filter(m, keep)
  {
    if l == [] {
      assert l + m == m;
    } else {
      assert (l + m)[1..] == l[1..] + m;
      FilterConcat(l[1..], m, keep);
    }
  }

  /** What unlinking does: the entry is gone, everything else stays in order. */
  lemma UnlinkFilter(l: seq<nat>, i: nat, keep: set<nat>)
    requires NoDup(l) && i < |l| && l[i] !in keep && forall x <- l :: x != l[i] ==> x in keep
    ensures l[..i] + l[i + 1..] == Filter(l, keep)
  {
    hide Filter;
    forall k | 0 <= k < |l| && k != i
      ensures l[k] in keep
    {
      assert l[k] in l && l[k] != l[i];
    }
    UnlinkAt(l, i, keep);
  }

  lemma FilterOne(x: nat, keep: set<nat>)
    ensures Filter([x], keep) == if x in keep then [x] else []
  {
  }

  lemma {:induction false} UnlinkAt(l: seq<nat>, i: nat, keep: set<nat>)
    requires i < |l| && l[i] !in keep && forall k :: 0 <= k < |l| && k != i ==> l[k] in keep
    ensures l[..i] + l[i + 1..] == Filter(l, keep)
  {
    var rest := l[1..];
    if i == 0 {
      FilterAll(rest, keep);
      assert l[..0] + l[1..] == rest;
    } else {
      UnlinkAt(rest, i - 1, keep);
      assert l[..i] + l[i + 1..] == [l[0]] + (rest[..i - 1] + rest[i..]);
    }
  }

  /**
   `drvmgr_list_remove`, and the unlinking loops of drvmgr_unregister.c: walk to the entry, cut it out. None of them
   looks for the end of the list, so the walk is `lost` if the entry is not there.
   */
  method Unlink(l: seq<nat>, entry: nat, ghost keep: set<nat>) returns (r: seq<nat>, lost: bool)
    requires NoDup(l) && entry !in keep && forall x <- l :: x != entry ==> x in keep
    ensures lost <==> entry !in l
    ensures !lost ==> r == Filter(l, keep)
  {
    var i := 0;
    while i < |l| && l[i] != entry
      invariant 0 <= i <= |l| && entry !in l[..i]
    {
      i := i + 1;
    }
    if i == |l| {
      assert l[..i] == l;
      return l, true;
    }
    UnlinkFilter(l, i, keep);
    r, lost := l[..i] + l[i + 1..], false;
  }

  lemma {:induction false} FilterNoDup(l: seq<nat>, keep: set<nat>)
    requires NoDup(l)
    ensures NoDup(Filter(l, keep))
  {
    if l != [] { FilterNoDup(l[1..], keep); }
  }

  // ---------------------------------------------------------------- the invariant

  /** A device with a parent is among that bus's children, and the other way round. */
  ghost predicate Families(s: State) {
    && (forall b :: b in s.children <==> b in s.buses)
    && (forall d :: d in s.devs && s.devs[d].parent.Some? ==>
          s.devs[d].parent.value in s.buses && d in s.children[s.devs[d].parent.value])
    && (forall b, c :: b in s.buses && c in s.children[b] ==> c in s.devs && s.devs[c].parent == Some(b))
    && (forall b :: b in s.buses ==> NoDup(s.children[b]))
  }

  /** A bus and its bridge point at each other, and `depth` counts the buses above. */
  ghost predicate Bridges(s: State) {
    && (forall b :: b in s.buses ==> s.buses[b].bridge in s.devs && s.devs[s.buses[b].bridge].bus == Some(b))
    && (forall d :: d in s.devs && s.devs[d].bus.Some? ==>
          s.devs[d].bus.value in s.buses && s.buses[s.devs[d].bus.value].bridge == d)
    && (forall b :: b in s.buses ==> s.buses[b].depth == Depth(s, s.buses[b].bridge))
  }

  /** Buses above a device. */
  function Depth(s: State, d: nat): nat {
    if d in s.devs && s.devs[d].parent.Some? && s.devs[d].parent.value in s.buses
    then s.buses[s.devs[d].parent.value].depth + 1 else 0
  }

  /** On a bus, the devices of one driver stand in the order of their minor numbers. */
  ghost predicate BusMinors(devs: map<nat, Dev>, l: seq<nat>) {
    && (forall i :: 0 <= i < |l| ==> l[i] in devs)
    && (forall i :: 0 <= i < |l| && devs[l[i]].drv.Some? ==> 0 <= devs[l[i]].minorBus)
    && (forall i, j :: 0 <= i < j < |l| && devs[l[i]].drv.Some? && devs[l[i]].drv == devs[l[j]].drv ==>
          devs[l[i]].minorBus < devs[l[j]].minorBus)
  }

  /** A driver's devices, sorted by minor number. */
  ghost predicate DrvMinors(devs: map<nat, Dev>, v: nat, l: seq<nat>) {
    && (forall i :: 0 <= i < |l| ==> l[i] in devs && devs[l[i]].drv == Some(v) && 0 <= devs[l[i]].minorDrv)
    && (forall i, j :: 0 <= i < j < |l| ==> devs[l[i]].minorDrv < devs[l[j]].minorDrv)
  }

  ghost predicate Minors(s: State) {
    && (forall b :: b in s.children ==> BusMinors(s.devs, s.children[b]))
    && (forall v :: v in s.ofDrv ==> DrvMinors(s.devs, v, s.ofDrv[v]))
    && (forall d :: d in s.devs && s.devs[d].drv.Some? ==>
          s.devs[d].drv.value in s.ofDrv && (!s.devs[d].inactive ==> d in s.ofDrv[s.devs[d].drv.value]))
    && (forall d :: d in s.devs && s.devs[d].drv.None? ==> s.devs[d].inactive)
  }

  /** Where an object of level `level` stands: on the list of that level or on the inactive list, and nowhere else. */
  ghost predicate Listed(place: map<nat, (nat, bool)>, active: seq<seq<nat>>, inactive: seq<nat>) {
    && |active| == LEVELS
    && (forall k :: 0 <= k < LEVELS ==> NoDup(active[k]))
    && NoDup(inactive)
    && (forall k, x :: 0 <= k < LEVELS && x in active[k] ==> x in place && place[x] == (k, false))
    && (forall x :: x in inactive ==> x in place && place[x].1)
    && (forall x :: x in place ==> if place[x].1 then x in inactive else place[x].0 < LEVELS && x in active[place[x].0])
  }

  function DevPlace(devs: map<nat, Dev>): map<nat, (nat, bool)> {
    map d | d in devs :: (devs[d].level, devs[d].inactive)
  }

  function BusPlace(buses: map<nat, Bus>): map<nat, (nat, bool)> {
    map b | b in buses :: (buses[b].level, buses[b].inactive)
  }

  ghost predicate Valid(s: State) {
    && Families(s) && Bridges(s) && Minors(s)
    && Listed(DevPlace(s.devs), s.active, s.inactive)
    && Listed(BusPlace(s.buses), s.busActive, s.busInactive)
  }

  // ---------------------------------------------------------------- restriction

  function FilterEach(ls: seq<seq<nat>>, keep: set<nat>): (r: seq<seq<nat>>)
    ensures |r| == |ls| && forall k :: 0 <= k < |ls| ==> r[k] == Filter(ls[k], keep)
  {
    seq(|ls|, k requires 0 <= k < |ls| => Filter(ls[k], keep))
  }

  function Keep<V>(m: map<nat, V>, keys: set<nat>): (r: map<nat, V>)
    ensures forall x :: x in r <==> x in m && x in keys
    ensures forall x :: x in r ==> r[x] == m[x]
  {
    map x | x in m && x in keys :: m[x]
  }

  function FilterMap(m: map<nat, seq<nat>>, keep: set<nat>): (r: map<nat, seq<nat>>)
    ensures forall x :: x in r <==> x in m
    ensures forall x :: x in r ==> r[x] == Filter(m[x], keep)
  {
    map x | x in m :: Filter(m[x], keep)
  }

  /** Only devices `ds` and buses `bs` are left, on every list, in the same order and otherwise unchanged. */
  function Restrict(s: State, ds: set<nat>, bs: set<nat>): State {
    State(Keep(s.devs, ds), Keep(s.buses, bs),
          FilterMap(Keep(s.children, bs), ds), FilterMap(s.ofDrv, ds),
          FilterEach(s.active, ds), Filter(s.inactive, ds),
          FilterEach(s.busActive, bs), Filter(s.busInactive, bs))
  }

  lemma RestrictTwice(s: State, ds: set<nat>, bs: set<nat>, ds': set<nat>, bs': set<nat>)
    requires ds' <= ds && bs' <= bs
    ensures Restrict(Restrict(s, ds, bs), ds', bs') == Restrict(s, ds', bs')
  {
    hide Filter, FilterEach, FilterMap, Keep;
    var r, t := Restrict(Restrict(s, ds, bs), ds', bs'), Restrict(s, ds', bs');
    forall l: seq<nat> ensures Filter(Filter(l, ds), ds') == Filter(l, ds') { FilterTwice(l, ds, ds'); }
    forall l: seq<nat> ensures Filter(Filter(l, bs), bs') == Filter(l, bs') { FilterTwice(l, bs, bs'); }
    assert r.devs == t.devs && r.buses == t.buses && r.children == t.children && r.ofDrv == t.ofDrv;
    assert r.active == t.active && r.busActive == t.busActive;
  }

  /** Nothing that is kept points at something that is not. */
  ghost predicate Closed(s: State, ds: set<nat>, bs: set<nat>) {
    && (forall d :: d in ds ==> d in s.devs) && (forall b :: b in bs ==> b in s.buses)
    && (forall d :: d in ds && s.devs[d].parent.Some? ==> s.devs[d].parent.value in bs)
    && (forall d :: d in ds && s.devs[d].bus.Some? ==> s.devs[d].bus.value in bs)
    && (forall b :: b in bs ==> s.buses[b].bridge in ds)
  }

  lemma FilterHead(l: seq<nat>, keep: set<nat>)
    ensures if l == [] then Filter(l, keep) == []
            else Filter(l, keep) == (if l[0] in keep then [l[0]] else []) + Filter(l[1..], keep)
  {}

  /** Elements of a filtered list stand in their old order. */
  lemma {:induction false} FilterOrder(l: seq<nat>, keep: set<nat>, i: nat, j: nat) returns (i': nat, j': nat)
    requires i < j < |Filter(l, keep)|
    ensures i' < j' < |l| && l[i'] == Filter(l, keep)[i] && l[j'] == Filter(l, keep)[j]
  {
    FilterHead(l, keep);
    hide Filter;
    var r := Filter(l[1..], keep);
    if l[0] !in keep {
      i', j' := FilterOrder(l[1..], keep, i, j);
      i', j' := i' + 1, j' + 1;
    } else if i > 0 {
      i', j' := FilterOrder(l[1..], keep, i - 1, j - 1);
      i', j' := i' + 1, j' + 1;
    } else {
      i' := 0;
      assert r[j - 1] in r;
      j' :| 0 <= j' < |l[1..]| && l[1..][j'] == r[j - 1];
      j' := j' + 1;
    }
  }

  lemma RestrictMinors(devs: map<nat, Dev>, devs': map<nat, Dev>, v: nat, l: seq<nat>, ds: set<nat>)
    requires forall d :: d in devs && d in ds ==> d in devs' && devs'[d] == devs[d]
    ensures BusMinors(devs, l) ==> BusMinors(devs', Filter(l, ds))
    ensures DrvMinors(devs, v, l) ==> DrvMinors(devs', v, Filter(l, ds))
  {
    hide Filter, BusMinors, DrvMinors;
    if BusMinors(devs, l) { RestrictBusMinors(devs, devs', l, ds); }
    if DrvMinors(devs, v, l) { RestrictDrvMinors(devs, devs', v, l, ds); }
  }

  lemma RestrictBusMinors(devs: map<nat, Dev>, devs': map<nat, Dev>, l: seq<nat>, ds: set<nat>)
    requires (forall d :: d in devs && d in ds ==> d in devs' && devs'[d] == devs[d]) && BusMinors(devs, l)
    ensures BusMinors(devs', Filter(l, ds))
  {
    hide Filter;
    var r := Filter(l, ds);
    forall i | 0 <= i < |r|
      ensures r[i] in devs && r[i] in devs' && devs'[r[i]] == devs[r[i]] &&
              (devs[r[i]].drv.Some? ==> 0 <= devs[r[i]].minorBus)
    {
      assert r[i] in r;
    }
    forall i, j | 0 <= i < j < |r| && devs[r[i]].drv.Some? && devs[r[i]].drv == devs[r[j]].drv
      ensures devs[r[i]].minorBus < devs[r[j]].minorBus
    {
      var i', j' := FilterOrder(l, ds, i, j);
    }
  }

  lemma RestrictDrvMinors(devs: map<nat, Dev>, devs': map<nat, Dev>, v: nat, l: seq<nat>, ds: set<nat>)
    requires (forall d :: d in devs && d in ds ==> d in devs' && devs'[d] == devs[d]) && DrvMinors(devs, v, l)
    ensures DrvMinors(devs', v, Filter(l, ds))
  {
    hide Filter;
    var r := Filter(l, ds);
    forall i | 0 <= i < |r|
      ensures r[i] in devs && r[i] in devs' && devs'[r[i]] == devs[r[i]] &&
              devs[r[i]].drv == Some(v) && 0 <= devs[r[i]].minorDrv
    {
      assert r[i] in r;
    }
    forall i, j | 0 <= i < j < |r|
      ensures devs[r[i]].minorDrv < devs[r[j]].minorDrv
    {
      var i', j' := FilterOrder(l, ds, i, j);
    }
  }

  lemma RestrictListed(place: map<nat, (nat, bool)>, active: seq<seq<nat>>, inactive: seq<nat>, keep: set<nat>)
    requires Listed(place, active, inactive)
    ensures Listed(Keep(place, keep), FilterEach(active, keep), Filter(inactive, keep))
  {
    hide Filter;
    forall k | 0 <= k < LEVELS ensures NoDup(Filter(active[k], keep)) { FilterNoDup(active[k], keep); }
    FilterNoDup(inactive, keep);
  }

  lemma RestrictFamilies(s: State, ds: set<nat>, bs: set<nat>)
    requires Families(s) && Closed(s, ds, bs)
    ensures Families(Restrict(s, ds, bs))
  {
    hide Filter, FilterEach, FilterMap, Keep, NoDup;
    var t := Restrict(s, ds, bs);
    forall b | b in bs ensures NoDup(t.children[b]) { FilterNoDup(s.children[b], ds); }
  }

  lemma RestrictBridges(s: State, ds: set<nat>, bs: set<nat>)
    requires Bridges(s) && Closed(s, ds, bs)
    ensures Bridges(Restrict(s, ds, bs))
  {
    hide Filter, FilterEach, FilterMap, Keep, Depth;
    var t := Restrict(s, ds, bs);
    forall d | d in ds ensures Depth(t, d) == Depth(s, d) { RestrictDepth(s, ds, bs, d); }
  }

  lemma RestrictDepth(s: State, ds: set<nat>, bs: set<nat>, d: nat)
    requires Closed(s, ds, bs) && d in ds
    ensures Depth(Restrict(s, ds, bs), d) == Depth(s, d)
  {
  }

  lemma RestrictAllMinors(s: State, ds: set<nat>, bs: set<nat>)
    requires Minors(s)
    ensures Minors(Restrict(s, ds, bs))
  {
    hide Filter, FilterEach, FilterMap, Keep, BusMinors, DrvMinors;
    var t := Restrict(s, ds, bs);
    forall b | b in t.children ensures BusMinors(t.devs, t.children[b]) {
      RestrictMinors(s.devs, t.devs, 0, s.children[b], ds);
    }
    forall v | v in t.ofDrv ensures DrvMinors(t.devs, v, t.ofDrv[v]) {
      RestrictMinors(s.devs, t.devs, v, s.ofDrv[v], ds);
    }
  }

  lemma RestrictPlaces(s: State, ds: set<nat>, bs: set<nat>)
    requires Listed(DevPlace(s.devs), s.active, s.inactive) && Listed(BusPlace(s.buses), s.busActive, s.busInactive)
    ensures var t := Restrict(s, ds, bs);
            && Listed(DevPlace(t.devs), t.active, t.inactive) && Listed(BusPlace(t.buses), t.busActive, t.busInactive)
  {
    hide Filter, FilterEach, FilterMap, Keep, Listed;
    var t := Restrict(s, ds, bs);
    RestrictListed(DevPlace(s.devs), s.active, s.inactive, ds);
    RestrictListed(BusPlace(s.buses), s.busActive, s.busInactive, bs);
    assert DevPlace(t.devs) == Keep(DevPlace(s.devs), ds);
    assert BusPlace(t.buses) == Keep(BusPlace(s.buses), bs);
  }

  /** Restricting to a closed part keeps the invariant. */
  lemma RestrictValid(s: State, ds: set<nat>, bs: set<nat>)
    requires Valid(s) && Closed(s, ds, bs)
    ensures Valid(Restrict(s, ds, bs))
  {
    hide Families, Bridges, Listed, Minors, Restrict, Closed;
    RestrictFamilies(s, ds, bs);
    RestrictBridges(s, ds, bs);
    RestrictAllMinors(s, ds, bs);
    RestrictPlaces(s, ds, bs);
  }

  // ---------------------------------------------------------------- removing one object

  /** A device that exports no bus can go. */
  lemma DropDev(s: State, d: nat)
    requires Valid(s) && d in s.devs && s.devs[d].bus == None
    ensures Valid(Restrict(s, s.devs.Keys - {d}, s.buses.Keys))
  {
    hide Families, Bridges, Listed, Minors, Restrict;
    assert Closed(s, s.devs.Keys - {d}, s.buses.Keys) by { ClosedWithout(s, d); }
    RestrictValid(s, s.devs.Keys - {d}, s.buses.Keys);
  }

  lemma ClosedWithout(s: State, d: nat)
    requires Families(s) && Bridges(s) && d in s.devs && s.devs[d].bus == None
    ensures Closed(s, s.devs.Keys - {d}, s.buses.Keys)
  {
  }

  /** `bus->dev->bus = NULL` */
  function Detach(s: State, d: nat): State
    requires d in s.devs
  {
    s.(devs := s.devs[d := s.devs[d].(bus := None)])
  }

  function WithoutBus(s: State, b: nat): State
    requires b in s.buses && s.buses[b].bridge in s.devs
  {
    Restrict(Detach(s, s.buses[b].bridge), s.devs.Keys, s.buses.Keys - {b})
  }

  lemma DetachFamilies(s: State, d: nat)
    requires Families(s) && d in s.devs
    ensures Families(Detach(s, d))
  {
    hide NoDup;
  }

  lemma DetachMinors(s: State, d: nat)
    requires Minors(s) && d in s.devs
    ensures Minors(Detach(s, d))
  {
    var u := Detach(s, d);
    forall b | b in s.children ensures BusMinors(u.devs, u.children[b]) { assert BusMinors(s.devs, s.children[b]); }
    forall v | v in s.ofDrv ensures DrvMinors(u.devs, v, u.ofDrv[v]) { assert DrvMinors(s.devs, v, s.ofDrv[v]); }
  }

  lemma DetachPlace(s: State, d: nat)
    requires d in s.devs
    ensures DevPlace(Detach(s, d).devs) == DevPlace(s.devs)
  {
  }

  lemma DropBusClosed(s: State, b: nat)
    requires Families(s) && Bridges(s) && b in s.buses && s.children[b] == []
    ensures s.buses[b].bridge in s.devs && Closed(Detach(s, s.buses[b].bridge), s.devs.Keys, s.buses.Keys - {b})
  {
    hide Depth, NoDup;
  }

  lemma DropBusBridges(s: State, b: nat)
    requires Families(s) && Bridges(s) && b in s.buses && s.children[b] == []
    ensures s.buses[b].bridge in s.devs && Bridges(WithoutBus(s, b))
  {
    hide Filter, FilterEach, FilterMap, Keep, Depth, Families, Closed;
    DropBusClosed(s, b);
    var u, t := Detach(s, s.buses[b].bridge), WithoutBus(s, b);
    forall d | d in s.devs ensures Depth(t, d) == Depth(s, d) {
      RestrictDepth(u, s.devs.Keys, s.buses.Keys - {b}, d);
      DetachDepth(s, s.buses[b].bridge, d);
    }
  }

  lemma DetachDepth(s: State, bridge: nat, d: nat)
    requires bridge in s.devs
    ensures Depth(Detach(s, bridge), d) == Depth(s, d)
  {
  }

  /** A bus without children can go once its bridge lets go of it. */
  lemma DropBus(s: State, b: nat)
    requires Valid(s) && b in s.buses && s.buses[b].bridge in s.devs && s.children[b] == []
    ensures Valid(WithoutBus(s, b))
  {
    hide Families, Bridges, Listed, Minors, Restrict, Closed;
    var u := Detach(s, s.buses[b].bridge);
    DropBusClosed(s, b);
    DropBusBridges(s, b);
    DetachFamilies(s, s.buses[b].bridge);
    DetachMinors(s, s.buses[b].bridge);
    DetachPlace(s, s.buses[b].bridge);
    RestrictFamilies(u, s.devs.Keys, s.buses.Keys - {b});
    RestrictAllMinors(u, s.devs.Keys, s.buses.Keys - {b});
    RestrictPlaces(u, s.devs.Keys, s.buses.Keys - {b});
  }

  /** Separated from its driver: off the driver's list and the list of its level, on the inactive list. */
  function Separated(s: State, d: nat): State
    requires d in s.devs && s.devs[d].drv.Some? && s.devs[d].drv.value in s.ofDrv && s.devs[d].level < |s.active|
  {
    var others := s.devs.Keys - {d};
    var v, k := s.devs[d].drv.value, s.devs[d].level;
    s.(devs := s.devs[d := s.devs[d].(drv := None, level := 0, inactive := true)],
       ofDrv := s.ofDrv[v := Filter(s.ofDrv[v], others)],
       active := s.active[k := Filter(s.active[k], others)],
       inactive := s.inactive + [d])
  }

  /** Moving one object from its level's list to the end of the inactive list. */
  lemma MoveListed(place: map<nat, (nat, bool)>, active: seq<seq<nat>>, inactive: seq<nat>, d: nat, others: set<nat>)
    requires Listed(place, active, inactive) && d in place && !place[d].1
    requires d !in others && forall x :: x in place && x != d ==> x in others
    ensures Listed(place[d := (0, true)], active[place[d].0 := Filter(active[place[d].0], others)], inactive + [d])
  {
    hide Filter;
    var k := place[d].0;
    FilterNoDup(active[k], others);
    assert d !in inactive && NoDup(inactive + [d]);
  }

  lemma SeparatedListed(s: State, d: nat)
    requires Listed(DevPlace(s.devs), s.active, s.inactive)
    requires d in s.devs && s.devs[d].drv.Some? && s.devs[d].drv.value in s.ofDrv
    requires !s.devs[d].inactive && s.devs[d].level < |s.active|
    ensures var t := Separated(s, d); Listed(DevPlace(t.devs), t.active, t.inactive)
  {
    hide Filter, Listed;
    var t := Separated(s, d);
    MoveListed(DevPlace(s.devs), s.active, s.inactive, d, s.devs.Keys - {d});
    assert DevPlace(t.devs) == DevPlace(s.devs)[d := (0, true)];
  }

  lemma SeparatedFamilies(s: State, d: nat)
    requires d in s.devs && s.devs[d].drv.Some? && s.devs[d].drv.value in s.ofDrv && s.devs[d].level < |s.active|
    requires Families(s)
    ensures Families(Separated(s, d))
  {
    hide Filter, NoDup;
  }

  lemma SeparatedBridges(s: State, d: nat)
    requires d in s.devs && s.devs[d].drv.Some? && s.devs[d].drv.value in s.ofDrv && s.devs[d].level < |s.active|
    requires Bridges(s)
    ensures Bridges(Separated(s, d))
  {
    hide Filter;
    var t := Separated(s, d);
    assert forall x :: x in s.devs ==> Depth(t, x) == Depth(s, x);
  }

  lemma DetachDrv(devs: map<nat, Dev>, d: nat, dev: Dev, u: nat, l: seq<nat>)
    requires d in devs && devs[d].drv != Some(u) && DrvMinors(devs, u, l)
    ensures DrvMinors(devs[d := dev], u, l)
  {
    assert d !in l;
  }

  lemma DetachBus(devs: map<nat, Dev>, d: nat, dev: Dev, l: seq<nat>)
    requires dev.drv.None? && BusMinors(devs, l)
    ensures BusMinors(devs[d := dev], l)
  {}

  lemma SeparatedMinors(s: State, d: nat)
    requires Minors(s) && d in s.devs && s.devs[d].drv.Some? && s.devs[d].level < |s.active|
    requires s.devs[d].drv.value in s.ofDrv
    ensures Minors(Separated(s, d))
  {
    hide Filter, BusMinors, DrvMinors;
    var t, others, v := Separated(s, d), s.devs.Keys - {d}, s.devs[d].drv.value;
    var dev := t.devs[d];
    RestrictMinors(s.devs, t.devs, v, s.ofDrv[v], others);
    forall u | u in t.ofDrv && u != v ensures DrvMinors(t.devs, u, t.ofDrv[u]) {
      DetachDrv(s.devs, d, dev, u, s.ofDrv[u]);
    }
    forall b | b in t.children ensures BusMinors(t.devs, t.children[b]) {
      DetachBus(s.devs, d, dev, s.children[b]);
    }
  }

  lemma SeparatedValid(s: State, d: nat)
    requires Valid(s) && d in s.devs && s.devs[d].drv.Some? && !s.devs[d].inactive
    requires s.devs[d].drv.value in s.ofDrv && s.devs[d].level < |s.active|
    ensures Valid(Separated(s, d))
  {
    hide Families, Bridges, Listed, Minors, Filter;
    SeparatedListed(s, d);
    SeparatedMinors(s, d);
    SeparatedFamilies(s, d);
    SeparatedBridges(s, d);
  }

  // ---------------------------------------------------------------- the field updates of the code

  lemma FilterMapSame(m: map<nat, seq<nat>>, keep: set<nat>)
    requires forall x, y :: x in m && y in m[x] ==> y in keep
    ensures FilterMap(m, keep) == m
  {
    hide Filter;
    forall x | x in m ensures Filter(m[x], keep) == m[x] { FilterAll(m[x], keep); }
  }

  lemma FilterEachSame(ls: seq<seq<nat>>, keep: set<nat>)
    requires forall k, y :: 0 <= k < |ls| && y in ls[k] ==> y in keep
    ensures FilterEach(ls, keep) == ls
  {
    hide Filter;
    forall k | 0 <= k < |ls| ensures Filter(ls[k], keep) == ls[k] { FilterAll(ls[k], keep); }
  }

  lemma KeepAll<V>(m: map<nat, V>)
    ensures Keep(m, m.Keys) == m
  {
  }

  /** Whatever is on a list is registered. */
  ghost predicate Members(s: State) {
    && (forall b, x :: b in s.children && x in s.children[b] ==> x in s.devs)
    && (forall v, x :: v in s.ofDrv && x in s.ofDrv[v] ==> x in s.devs && s.devs[x].drv == Some(v))
    && (forall k, x :: 0 <= k < |s.active| && x in s.active[k] ==> x in s.devs && !s.devs[x].inactive)
    && (forall x :: x in s.inactive ==> x in s.devs)
    && (forall k, x :: 0 <= k < |s.busActive| && x in s.busActive[k] ==> x in s.buses)
    && (forall x :: x in s.busInactive ==> x in s.buses)
    && s.children.Keys == s.buses.Keys
  }

  lemma ValidMembers(s: State)
    requires Valid(s)
    ensures Members(s)
  {
    hide NoDup, Bridges;
    forall v, x | v in s.ofDrv && x in s.ofDrv[v] ensures x in s.devs && s.devs[x].drv == Some(v) {
      assert DrvMinors(s.devs, v, s.ofDrv[v]);
    }
    ListedMembers(DevPlace(s.devs), s.active, s.inactive);
    ListedMembers(BusPlace(s.buses), s.busActive, s.busInactive);
    hide Listed;
    forall k, x | 0 <= k < |s.active| && x in s.active[k] ensures x in s.devs && !s.devs[x].inactive {
      assert x in DevPlace(s.devs);
    }
    forall x | x in s.inactive ensures x in s.devs { assert x in DevPlace(s.devs); }
    forall k, x | 0 <= k < |s.busActive| && x in s.busActive[k] ensures x in s.buses { assert x in BusPlace(s.buses); }
    forall x | x in s.busInactive ensures x in s.buses { assert x in BusPlace(s.buses); }
    assert s.children.Keys == s.buses.Keys;
  }

  lemma ListedMembers(place: map<nat, (nat, bool)>, active: seq<seq<nat>>, inactive: seq<nat>)
    requires Listed(place, active, inactive)
    ensures forall k, x :: 0 <= k < |active| && x in active[k] ==> x in place && !place[x].1
    ensures forall x :: x in inactive ==> x in place
  {
  }

  lemma RestrictAll(s: State)
    requires Valid(s)
    ensures Restrict(s, s.devs.Keys, s.buses.Keys) == s
  {
    hide Filter, FilterEach, FilterMap, Keep, Valid;
    ValidMembers(s);
    KeepAll(s.devs);
    KeepAll(s.buses);
    KeepAll(s.children);
    FilterMapSame(s.children, s.devs.Keys);
    FilterMapSame(s.ofDrv, s.devs.Keys);
    FilterEachSame(s.active, s.devs.Keys);
    FilterEachSame(s.busActive, s.buses.Keys);
    FilterAll(s.inactive, s.devs.Keys);
    FilterAll(s.busInactive, s.buses.Keys);
  }

  /** A separated device is on its bus's list of children and the inactive list only. */
  lemma DropSeparated(s: State, d: nat, p: nat)
    requires Members(s) && d in s.devs && s.devs[d].drv == None && s.devs[d].inactive && p in s.children
    requires forall b :: b in s.children && b != p ==> d !in s.children[b]
    ensures var ds := s.devs.Keys - {d};
            Restrict(s, ds, s.buses.Keys) ==
            s.(devs := s.devs - {d}, children := s.children[p := Filter(s.children[p], ds)],
               inactive := Filter(s.inactive, ds))
  {
    hide Filter, FilterEach, FilterMap;
    var ds, bs := s.devs.Keys - {d}, s.buses.Keys;
    assert Keep(s.devs, ds) == s.devs - {d};
    KeepAll(s.buses);
    KeepAll(s.children);
    FilterMapSame(s.ofDrv, ds);
    FilterEachSame(s.active, ds);
    FilterEachSame(s.busActive, bs);
    FilterAll(s.busInactive, bs);
    forall b | b in s.children && b != p
      ensures Filter(s.children[b], ds) == s.children[b]
    {
      FilterAll(s.children[b], ds);
    }
    assert FilterMap(s.children, ds) == s.children[p := Filter(s.children[p], ds)];
  }

  /** Removing a device right after separating it is removing it. */
  lemma SeparateThenDrop(s: State, d: nat)
    requires d in s.devs && s.devs[d].drv.Some? && s.devs[d].drv.value in s.ofDrv && s.devs[d].level < |s.active|
    ensures Restrict(Separated(s, d), s.devs.Keys - {d}, s.buses.Keys) == Restrict(s, s.devs.Keys - {d}, s.buses.Keys)
  {
    hide Filter, FilterEach, FilterMap, Keep;
    var ds, u := s.devs.Keys - {d}, Separated(s, d);
    assert Keep(u.devs, ds) == Keep(s.devs, ds);
    FilterTwice(s.ofDrv[s.devs[d].drv.value], ds, ds);
    assert FilterMap(u.ofDrv, ds) == FilterMap(s.ofDrv, ds);
    FilterTwice(s.active[s.devs[d].level], ds, ds);
    assert FilterEach(u.active, ds) == FilterEach(s.active, ds);
    FilterConcat(s.inactive, [d], ds);
    FilterOne(d, ds);
  }

  lemma DetachThenDrop(s: State, d: nat, ds: set<nat>, bs: set<nat>)
    requires d in s.devs && d !in ds
    ensures Restrict(Detach(s, d), ds, bs) == Restrict(s, ds, bs)
  {
    assert Keep(Detach(s, d).devs, ds) == Keep(s.devs, ds);
  }

  /** Taking a bus off its lists is all that is left to do once its children are gone. */
  lemma DropBusFields(s: State, b: nat)
    requires Members(s) && b in s.buses && s.buses[b].bridge in s.devs
    ensures var bs := s.buses.Keys - {b};
            WithoutBus(s, b) ==
            Detach(s, s.buses[b].bridge).(buses := s.buses - {b}, children := s.children - {b},
              busActive := FilterEach(s.busActive, bs), busInactive := Filter(s.busInactive, bs))
  {
    hide Filter, FilterEach, FilterMap;
    var ds, bs, u := s.devs.Keys, s.buses.Keys - {b}, Detach(s, s.buses[b].bridge);
    assert u.devs.Keys == ds;
    KeepAll(u.devs);
    assert Keep(s.buses, bs) == s.buses - {b} && Keep(s.children, bs) == s.children - {b};
    FilterMapSame(s.children - {b}, ds);
    FilterMapSame(s.ofDrv, ds);
    FilterEachSame(s.active, ds);
    FilterAll(s.inactive, ds);
  }

  // ---------------------------------------------------------------- subtrees

  /** `x` is `top` or hangs below it. */
  predicate Under(s: State, x: nat, top: nat)
    decreases Depth(s, x)
  {
    || x == top
    || (&& x in s.devs && s.devs[x].parent.Some? && s.devs[x].parent.value in s.buses
        && var up := s.buses[s.devs[x].parent.value].bridge;
           Depth(s, up) < Depth(s, x) && Under(s, up, top))
  }

  lemma {:induction false} UnderTrans(s: State, x: nat, mid: nat, top: nat)
    requires Under(s, x, mid) && Under(s, mid, top)
    ensures Under(s, x, top)
    decreases Depth(s, x)
  {
    if x != mid { UnderTrans(s, s.buses[s.devs[x].parent.value].bridge, mid, top); }
  }

  /** `t` is part of `s`: some objects are gone, from every list; nothing else has changed. */
  ghost predicate PartOf(s: State, t: State) {
    && t.devs.Keys <= s.devs.Keys && t.buses.Keys <= s.buses.Keys
    && t == Restrict(s, t.devs.Keys, t.buses.Keys)
  }

  lemma PartOfTrans(s: State, t: State, u: State)
    requires PartOf(s, t) && PartOf(t, u)
    ensures PartOf(s, u)
  {
    hide Restrict;
    RestrictTwice(s, t.devs.Keys, t.buses.Keys, u.devs.Keys, u.buses.Keys);
  }

  /** What is left hangs where it did. */
  lemma {:induction false} UnderKept(s: State, t: State, x: nat, top: nat)
    requires Families(t) && Bridges(s) && Bridges(t) && x in t.devs
    requires forall d :: d in t.devs ==> d in s.devs && t.devs[d].parent == s.devs[d].parent
    requires forall b :: b in t.buses ==> b in s.buses && t.buses[b] == s.buses[b]
    ensures Under(s, x, top) <==> Under(t, x, top)
    decreases Depth(t, x)
  {
    hide NoDup;
    assert Depth(s, x) == Depth(t, x);
    if x != top && t.devs[x].parent.Some? {
      var up := t.buses[t.devs[x].parent.value].bridge;
      assert Depth(s, up) == Depth(t, up) < Depth(t, x);
      UnderKept(s, t, up, top);
    }
  }

  /** In a valid state every ancestor of a registered device is registered. */
  lemma {:induction false} AncestorsStay(s: State, x: nat, top: nat)
    requires Families(s) && Bridges(s) && x in s.devs && Under(s, x, top)
    ensures top in s.devs
    decreases Depth(s, x)
  {
    if x != top { AncestorsStay(s, s.buses[s.devs[x].parent.value].bridge, top); }
  }

  /**
   If a valid state goes to a valid part of itself, a device is gone, and nothing went that was not below
   it, then exactly its subtree went: devices and buses.
   */
  lemma ExactlySubtree(s: State, t: State, d: nat)
    requires Valid(s) && Valid(t) && PartOf(s, t) && d !in t.devs
    requires forall x :: x in s.devs && x !in t.devs ==> Under(s, x, d)
    ensures forall x :: x in s.devs ==> (x in t.devs <==> !Under(s, x, d))
    ensures forall b :: b in s.buses ==> (b in t.buses <==> !Under(s, s.buses[b].bridge, d))
  {
    hide Filter, FilterEach, FilterMap, Keep, Minors, Listed;
    forall x | x in t.devs ensures !Under(s, x, d) {
      UnderKept(s, t, x, d);
      if Under(t, x, d) { AncestorsStay(t, x, d); }
    }
    forall b | b in s.buses ensures b in t.buses <==> s.buses[b].bridge in t.devs { }
  }

  lemma {:induction false} UnderDepth(s: State, x: nat, top: nat)
    requires Under(s, x, top)
    ensures x == top || Depth(s, top) < Depth(s, x)
    decreases Depth(s, x)
  {
    if x != top { UnderDepth(s, s.buses[s.devs[x].parent.value].bridge, top); }
  }

  /** The device is where the unlinking loops look for it: on the list of its level, if it has a driver. */
  predicate Sane(dev: Dev) {
    dev.drv.Some? ==> !dev.inactive
  }

  /** No device at or below `top` is one the unlinking loops get lost for. */
  ghost predicate Removable(s: State, top: nat) {
    forall x :: x in s.devs && Under(s, x, top) ==> Sane(s.devs[x])
  }

  lemma NotRemovable(s: State, x: nat, top: nat)
    requires x in s.devs && Under(s, x, top) && !Sane(s.devs[x])
    ensures !Removable(s, top)
  {
  }

  /** All that went was sane, when it went in two steps. */
  lemma SaneAfter(s: State, t: State, u: State, c: nat)
    requires PartOf(s, t) && Removable(t, c)
    requires forall x :: x in s.devs && x !in t.devs ==> Sane(s.devs[x])
    requires forall x :: x in t.devs && x !in u.devs ==> Under(t, x, c)
    ensures forall x :: x in s.devs && x !in u.devs ==> Sane(s.devs[x])
  {
    hide Filter, FilterEach, FilterMap, Under, Sane;
  }

  /** If exactly the subtree went and all that went was sane, the subtree was removable. */
  lemma SaneSubtree(s: State, t: State, d: nat)
    requires forall x :: x in s.devs && x !in t.devs ==> Sane(s.devs[x])
    requires forall x :: x in s.devs ==> (x in t.devs <==> !Under(s, x, d))
    ensures Removable(s, d)
  {
    hide Under;
  }

  ghost predicate Shallow(s: State, depth: nat) {
    forall b :: b in s.buses ==> s.buses[b].depth < depth
  }

  lemma DetachRestrict(s: State, d: nat, ds: set<nat>, bs: set<nat>)
    requires d in s.devs && d in ds
    ensures Restrict(Detach(s, d), ds, bs) == Detach(Restrict(s, ds, bs), d)
  {
    assert Keep(Detach(s, d).devs, ds) == Keep(s.devs, ds)[d := s.devs[d].(bus := None)];
  }

  /** A part keeps what it has left of being removable and shallow. */
  lemma PartRemovable(s: State, t: State, top: nat, c: nat)
    requires Valid(s) && Valid(t) && PartOf(s, t) && Removable(s, top) && c in t.devs && Under(s, c, top)
    ensures Removable(t, c)
  {
    hide Filter, FilterEach, FilterMap, Keep, Minors, Listed;
    forall x | x in t.devs && Under(t, x, c) ensures Sane(t.devs[x]) {
      UnderKept(s, t, x, c);
      UnderTrans(s, x, c, top);
    }
  }

  /** Below `top` only, seen from the start, when the part removed last was below a device below `top`. */
  lemma RemovedBelow(s: State, t: State, u: State, c: nat, top: nat)
    requires Valid(s) && Valid(t) && PartOf(s, t) && PartOf(t, u) && c in t.devs && Under(s, c, top)
    requires forall x :: x in s.devs && x !in t.devs ==> Under(s, x, top)
    requires forall x :: x in t.devs && x !in u.devs ==> Under(t, x, c)
    ensures forall x :: x in s.devs && x !in u.devs ==> Under(s, x, top)
  {
    hide Filter, FilterEach, FilterMap, Keep, Minors, Listed;
    forall x | x in s.devs && x !in u.devs ensures Under(s, x, top) {
      if x in t.devs {
        UnderKept(s, t, x, c);
        UnderTrans(s, x, c, top);
      }
    }
  }

  // ---------------------------------------------------------------- steps of an unregistration

  /** A device with a driver and its place in that driver's list. */
  predicate Unitable(s: State, d: nat) {
    d in s.devs && s.devs[d].drv.Some? && s.devs[d].drv.value in s.ofDrv && s.devs[d].level < |s.active|
  }

  lemma DevFacts(s: State, d: nat)
    requires Valid(s) && d in s.devs
    ensures s.devs[d].bus.Some? ==>
      var b := s.devs[d].bus.value;
      b in s.buses && s.buses[b].bridge == d && s.buses[b].depth == Depth(s, d)
  {
    hide Minors, Listed, NoDup;
  }

  lemma NoBusGone(s: State, d: nat)
    requires Valid(s) && d in s.devs && s.devs[d].bus == None
    ensures BusGone(s, s, d)
  {
    hide Restrict, Valid;
    assert Detach(s, d).devs == s.devs;
    WholePart(s);
  }

  lemma BusGoneFacts(s: State, t: State, d: nat)
    requires d in s.devs && BusGone(s, t, d)
    ensures d in t.devs && t.devs[d] == s.devs[d].(bus := None)
  {
    hide Filter, FilterEach, FilterMap, Keep;
  }

  /** An inactive device is on no level's list. */
  lemma NotOnLevel(s: State, d: nat)
    requires Valid(s) && d in s.devs && s.devs[d].drv.Some? && s.devs[d].inactive
    ensures s.devs[d].drv.value in s.ofDrv && NoDup(s.ofDrv[s.devs[d].drv.value])
    ensures forall x <- s.ofDrv[s.devs[d].drv.value] :: x in s.devs
    ensures |s.active| == LEVELS && forall k :: 0 <= k < LEVELS ==> NoDup(s.active[k]) && d !in s.active[k]
    ensures forall k, x :: 0 <= k < LEVELS && x in s.active[k] ==> x in s.devs
  {
    hide Filter, Families, Bridges;
    assert DrvMinors(s.devs, s.devs[d].drv.value, s.ofDrv[s.devs[d].drv.value]);
    forall k, x | 0 <= k < LEVELS && x in s.active[k]
      ensures x in s.devs && x != d
    {
      assert DevPlace(s.devs)[x] == (k, false);
    }
  }

  lemma DevOnLists(s: State, d: nat)
    requires Valid(s) && d in s.devs && s.devs[d].drv.Some? && !s.devs[d].inactive
    ensures Unitable(s, d)
    ensures var v, k, others := s.devs[d].drv.value, s.devs[d].level, s.devs.Keys - {d};
      && NoDup(s.ofDrv[v]) && d in s.ofDrv[v] && (forall x <- s.ofDrv[v] :: x != d ==> x in others)
      && NoDup(s.active[k]) && d in s.active[k] && (forall x <- s.active[k] :: x != d ==> x in others)
  {
    hide Filter, Families, Bridges;
    ListedOnce(DevPlace(s.devs), s.active, s.inactive, d, s.devs.Keys - {d});
    assert DrvMinors(s.devs, s.devs[d].drv.value, s.ofDrv[s.devs[d].drv.value]);
  }

  lemma SeparatedGone(s: State, mid: State, u: State, d: nat)
    requires Valid(s) && Valid(mid) && d in s.devs && BusGone(s, mid, d) && mid.devs[d].bus == None
    requires if mid.devs[d].drv.Some? then Unitable(mid, d) && u == Separated(mid, d) else u == mid
    ensures var t := Restrict(u, u.devs.Keys - {d}, u.buses.Keys);
      && u.devs.Keys == mid.devs.Keys && d in u.devs && u.devs[d].bus == None && u.devs[d].drv == None
      && u.devs[d].parent == mid.devs[d].parent
      && PartOf(s, t) && d !in t.devs
      && (Valid(u) ==> Valid(t))
      && (forall x :: x in s.devs && x !in t.devs ==> Under(s, x, d))
  {
    hide Restrict, Valid, Under, Filter;
    var ds, bs := u.devs.Keys - {d}, u.buses.Keys;
    if mid.devs[d].drv.Some? { SeparateThenDrop(mid, d); }
    RestrictTwice(Detach(s, d), mid.devs.Keys, mid.buses.Keys, ds, bs);
    DetachThenDrop(s, d, ds, bs);
    RestrictKeys(u, ds, bs);
    UnderSelf(s, d);
    if Valid(u) { DropDev(u, d); }
  }

  lemma InactiveFacts(s: State, d: nat, p: nat)
    requires Valid(s) && d in s.devs && s.devs[d].parent == Some(p) && s.devs[d].drv == None
    ensures Members(s) && s.devs[d].inactive && p in s.children && NoDup(s.children[p]) && d in s.children[p]
    ensures forall b :: b in s.children && b != p ==> d !in s.children[b]
    ensures NoDup(s.inactive) && d in s.inactive
  {
    hide Members, Families, Bridges, Listed, NoDup;
    ValidMembers(s);
    ChildOf(s, d, p);
    ListedOnce(DevPlace(s.devs), s.active, s.inactive, d, s.devs.Keys - {d});
  }

  lemma ChildOf(s: State, d: nat, p: nat)
    requires Families(s) && d in s.devs && s.devs[d].parent == Some(p)
    ensures p in s.children && NoDup(s.children[p]) && d in s.children[p]
    ensures forall b :: b in s.children && b != p ==> d !in s.children[b]
  {
    hide NoDup;
  }

  /** From `s` to `t` the bus of `d` and all that hung below it went; `d` itself stays. */
  ghost predicate BusGone(s: State, t: State, d: nat)
    requires d in s.devs
  {
    && PartOf(Detach(s, d), t) && d in t.devs
    && forall x :: x in s.devs && x !in t.devs ==> Under(s, x, d)
  }

  lemma WholePart(s: State)
    requires Valid(s)
    ensures PartOf(s, s)
  {
    hide Restrict, Valid;
    RestrictAll(s);
  }

  lemma PartFacts(s: State, t: State, b: nat)
    requires Valid(s) && Valid(t) && PartOf(s, t) && b in t.buses
    ensures b in s.buses && t.buses[b] == s.buses[b] && b in t.children
    ensures t.buses[b].bridge in t.devs && t.buses[b].bridge in s.devs
  {
    hide Filter, FilterEach, FilterMap, Keep, Minors, Listed, NoDup;
  }

  /** A bus is on the list its fields say, and on no other. */
  lemma BusOnLists(s: State, b: nat)
    requires Valid(s) && b in s.buses
    ensures var bus, bs := s.buses[b], s.buses.Keys - {b};
      && (forall x <- s.busInactive :: x != b ==> x in bs) && NoDup(s.busInactive)
      && (if bus.inactive then
            b in s.busInactive && FilterEach(s.busActive, bs) == s.busActive
          else
            && bus.level < |s.busActive| && b in s.busActive[bus.level] && NoDup(s.busActive[bus.level])
            && (forall x <- s.busActive[bus.level] :: x != b ==> x in bs)
            && FilterEach(s.busActive, bs) == s.busActive[bus.level := Filter(s.busActive[bus.level], bs)]
            && Filter(s.busInactive, bs) == s.busInactive)
  {
    hide Filter, NoDup, Families, Bridges, Minors;
    ListedOnce(BusPlace(s.buses), s.busActive, s.busInactive, b, s.buses.Keys - {b});
  }

  lemma ListedOnce(place: map<nat, (nat, bool)>, active: seq<seq<nat>>, inactive: seq<nat>, b: nat, bs: set<nat>)
    requires Listed(place, active, inactive) && b in place
    requires b !in bs && forall x :: x in place && x != b ==> x in bs
    ensures (forall x <- inactive :: x != b ==> x in bs) && NoDup(inactive)
    ensures place[b].1 ==> b in inactive && FilterEach(active, bs) == active
    ensures !place[b].1 ==>
      && place[b].0 < |active| && b in active[place[b].0] && NoDup(active[place[b].0])
      && (forall x <- active[place[b].0] :: x != b ==> x in bs)
      && FilterEach(active, bs) == active[place[b].0 := Filter(active[place[b].0], bs)]
      && Filter(inactive, bs) == inactive
  {
    hide Filter, NoDup, FilterEach;
    if place[b].1 {
      FilterEachSame(active, bs);
    } else {
      var k := place[b].0;
      FilterAll(inactive, bs);
      forall j | 0 <= j < |active| && j != k ensures Filter(active[j], bs) == active[j] { FilterAll(active[j], bs); }
    }
  }

  lemma BusGoneFrom(s: State, t: State, b: nat)
    requires Valid(s) && Valid(t) && PartOf(s, t) && b in t.buses && t.children[b] == []
    requires b in s.buses && t.buses[b] == s.buses[b] && s.buses[b].bridge in s.devs && s.buses[b].bridge in t.devs
    requires forall x :: x in s.devs && x !in t.devs ==> Under(s, x, s.buses[b].bridge)
    ensures BusGone(s, WithoutBus(t, b), s.buses[b].bridge)
  {
    hide Restrict, Under, Valid;
    var d, ds, bs := s.buses[b].bridge, t.devs.Keys, t.buses.Keys - {b};
    var u := WithoutBus(t, b);
    DetachRestrict(s, d, ds, t.buses.Keys);
    assert Detach(t, d) == Restrict(Detach(s, d), ds, t.buses.Keys);
    RestrictTwice(Detach(s, d), ds, t.buses.Keys, ds, bs);
    RestrictKeys(Detach(t, d), ds, bs);
  }

  lemma RestrictKeys(s: State, ds: set<nat>, bs: set<nat>)
    requires ds <= s.devs.Keys && bs <= s.buses.Keys
    ensures Restrict(s, ds, bs).devs.Keys == ds && Restrict(s, ds, bs).buses.Keys == bs
  {
  }

  lemma WithoutKeys(s: State, b: nat)
    requires b in s.buses && s.buses[b].bridge in s.devs
    ensures WithoutBus(s, b).devs.Keys == s.devs.Keys
  {
    hide Restrict;
    RestrictKeys(Detach(s, s.buses[b].bridge), s.devs.Keys, s.buses.Keys - {b});
  }

  lemma BusFacts(s: State, b: nat)
    requires Valid(s) && b in s.buses
    ensures b in s.children && s.buses[b].bridge in s.devs && s.devs[s.buses[b].bridge].bus == Some(b)
    ensures s.buses[b].depth == Depth(s, s.buses[b].bridge)
  {
    hide Minors, Listed, NoDup;
  }

  lemma ChildFacts(s: State, b: nat, c: nat)
    requires Valid(s) && b in s.buses && b in s.children && c in s.children[b]
    ensures c in s.devs && s.devs[c].parent == Some(b) && Depth(s, c) == s.buses[b].depth + 1
    ensures Under(s, c, s.buses[b].bridge)
  {
    hide Minors, Listed, NoDup;
    assert Depth(s, s.buses[b].bridge) < Depth(s, c);
  }

  /** A child now was a child at the start, and can be removed if all below the bus could. */
  lemma BeforeChild(s: State, t: State, b: nat, c: nat)
    requires Valid(s) && Valid(t) && PartOf(s, t) && b in t.buses && b in t.children && c in t.children[b]
    requires b in s.buses
    ensures Under(s, c, s.buses[b].bridge)
    ensures c in t.devs && t.devs[c].parent == Some(b) && Depth(t, c) == t.buses[b].depth + 1
    ensures Removable(s, s.buses[b].bridge) ==> Removable(t, c)
  {
    hide Families, Bridges, Minors, Listed, Under, Removable, Filter, FilterEach, FilterMap, Keep;
    assert b in s.children && c in s.children[b];
    ChildFacts(s, b, c);
    ChildFacts(t, b, c);
    if Removable(s, s.buses[b].bridge) { PartRemovable(s, t, s.buses[b].bridge, c); }
  }

  lemma AfterChild(s: State, t: State, u: State, b: nat, c: nat, depth: nat)
    requires Valid(s) && Valid(t) && Valid(u) && PartOf(s, t) && PartOf(t, u)
    requires b in s.buses && b in t.buses && b in t.children && c in t.children[b] && t.buses[b] == s.buses[b]
    requires Under(s, c, s.buses[b].bridge) && Shallow(t, depth) && c in t.devs
    requires forall x :: x in s.devs && x !in t.devs ==> Under(s, x, s.buses[b].bridge)
    requires forall x :: x in t.devs ==> (x in u.devs <==> !Under(t, x, c))
    requires forall b' :: b' in t.buses ==> (b' in u.buses <==> !Under(t, t.buses[b'].bridge, c))
    ensures PartOf(s, u) && b in u.buses && b in u.children && u.buses[b] == s.buses[b] && s.buses[b].bridge in u.devs
    ensures Shallow(u, depth) && |u.devs| < |t.devs|
    ensures forall x :: x in s.devs && x !in u.devs ==> Under(s, x, s.buses[b].bridge)
  {
    hide Families, Bridges, Minors, Listed, Under, Restrict, Shallow;
    UnderSelf(t, c);
    PartOfTrans(s, t, u);
    RemovedBelow(s, t, u, c, s.buses[b].bridge);
    SiblingStays(t, u, b, c);
    KeysShrink(t, u, c);
  }

  lemma UnderSelf(s: State, x: nat)
    ensures Under(s, x, x)
  {
  }

  /** Removing a child's subtree leaves the bus and its bridge alone. */
  lemma SiblingStays(s: State, t: State, b: nat, c: nat)
    requires Valid(s) && Valid(t) && PartOf(s, t) && b in s.buses && b in s.children && c in s.children[b]
    requires forall x :: x in s.devs ==> (x in t.devs <==> !Under(s, x, c))
    requires forall b' :: b' in s.buses ==> (b' in t.buses <==> !Under(s, s.buses[b'].bridge, c))
    ensures b in t.buses && b in t.children && t.buses[b] == s.buses[b] && s.buses[b].bridge in t.devs
  {
    hide Minors, Listed, NoDup, Filter, FilterEach, FilterMap, Keep;
    var up := s.buses[b].bridge;
    ChildFacts(s, b, c);
    if Under(s, up, c) { UnderDepth(s, up, c); }
  }

  lemma KeysShrink(s: State, t: State, c: nat)
    requires PartOf(s, t) && c in s.devs && c !in t.devs
    ensures |t.devs| < |s.devs|
    ensures forall k :: Shallow(s, k) ==> Shallow(t, k)
  {
    hide Filter, FilterEach, FilterMap, Keep;
    assert t.devs.Keys < s.devs.Keys;
    ProperSubset(t.devs.Keys, s.devs.Keys);
  }

  lemma {:induction false} ProperSubset(a: set<nat>, b: set<nat>)
    requires a < b
    ensures |a| < |b|
  {
    var x :| x in b && x !in a;
    assert a <= b - {x};
    SubsetSize(a, b - {x});
  }

  lemma {:induction false} SubsetSize(a: set<nat>, b: set<nat>)
    requires a <= b
    ensures |a| <= |b|
  {
    if a != {} {
      var x :| x in a;
      SubsetSize(a - {x}, b - {x});
    }
  }
}
