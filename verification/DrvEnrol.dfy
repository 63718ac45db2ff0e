/**
 Minor numbers and registration (drvmgr.c): the searches for the smallest free number, and the proof that
 entering a device or a bus keeps the invariant.
 */
module DrvEnrol {
  import opened Options
  import opened DrvTree

  // ---------------------------------------------------------------- minor numbers

  function Insert(l: seq<nat>, i: nat, d: nat): (r: seq<nat>)
    requires i <= |l|
    ensures forall x :: x in r <==> x in l || x == d
  {
    l[..i] + [d] + l[i..]
  }

  /** The search loop of `drvmgr_insert_dev_into_drv`: the smallest minor number no device of the driver has. */
  method DrvGap(devs: map<nat, Dev>, v: nat, l: seq<nat>) returns (i: nat, minor: nat)
    requires DrvMinors(devs, v, l)
    ensures i <= |l| && forall j :: 0 <= j < |l| ==> l[j] in devs
    ensures forall j :: 0 <= j < i ==> devs[l[j]].minorDrv < minor
    ensures forall j :: i <= j < |l| ==> minor < devs[l[j]].minorDrv
    ensures forall m :: 0 <= m < minor ==> DrvHas(devs, l, m)
  {
    i, minor := 0, 0;
    while i < |l|
      invariant 0 <= i == minor <= |l|
      invariant forall j :: 0 <= j < i ==> devs[l[j]].minorDrv == j
    {
      if minor < devs[l[i]].minorDrv { break; }
      assert i > 0 ==> devs[l[i - 1]].minorDrv < devs[l[i]].minorDrv;
      minor := minor + 1;
      i := i + 1;
    }
    forall m | 0 <= m < minor ensures DrvHas(devs, l, m) { assert devs[l[m]].minorDrv == m; }
  }

  ghost predicate DrvHas(devs: map<nat, Dev>, l: seq<nat>, m: int) {
    exists j :: 0 <= j < |l| && l[j] in devs && devs[l[j]].minorDrv == m
  }

  ghost predicate BusHas(devs: map<nat, Dev>, l: seq<nat>, drv: Option<nat>, i: nat, m: int)
    requires i <= |l|
  {
    exists j :: 0 <= j < i && l[j] in devs && devs[l[j]].drv == drv && devs[l[j]].minorBus == m
  }

  /** The devices of driver `drv` among the first `i` have exactly the minor numbers below `minor`. */
  ghost predicate Dense(devs: map<nat, Dev>, l: seq<nat>, drv: Option<nat>, i: nat, minor: nat)
    requires i <= |l| && forall j :: 0 <= j < |l| ==> l[j] in devs
  {
    && (forall j :: 0 <= j < i && devs[l[j]].drv == drv ==> devs[l[j]].minorBus < minor)
    && (forall m :: 0 <= m < minor ==> BusHas(devs, l, drv, i, m))
  }

  /** The search loop of `drvmgr_insert_dev_into_bus`: the same per driver; -1 at the end for no driver. */
  method BusGap(devs: map<nat, Dev>, l: seq<nat>, drv: Option<nat>) returns (i: nat, minor: int)
    requires BusMinors(devs, l)
    ensures i <= |l| && forall j :: 0 <= j < |l| ==> l[j] in devs
    ensures drv.None? ==> minor == -1 && i == |l|
    ensures drv.Some? ==> 0 <= minor && Dense(devs, l, drv, i, minor)
    ensures drv.Some? ==> forall j :: i <= j < |l| && devs[l[j]].drv == drv ==> minor < devs[l[j]].minorBus
  {
    i, minor := 0, 0;
    while i < |l|
      invariant 0 <= i <= |l| && 0 <= minor
      invariant drv.Some? ==> Dense(devs, l, drv, i, minor)
    {
      ghost var next: nat := i + 1;
      forall m | drv.Some? && 0 <= m < minor
        ensures BusHas(devs, l, drv, next, m)
      {
        assert BusHas(devs, l, drv, i, m);
      }
      if drv.Some? && drv == devs[l[i]].drv {
        if minor < devs[l[i]].minorBus { break; }
        assert minor > 0 ==> BusHas(devs, l, drv, i, minor - 1);
        assert devs[l[i]].minorBus == minor && BusHas(devs, l, drv, next, minor);
        minor := minor + 1;
      }
      i := i + 1;
    }
    if drv.None? { minor := -1; }
  }

  /** A new device in its places: child `ci` of its bus, and, when it is to be initialised, `di` of its driver. */
  function Enrolled(s: State, d: nat, dev: Dev, ci: nat, di: nat): State
    requires dev.parent.Some? ==> dev.parent.value in s.children && ci <= |s.children[dev.parent.value]|
    requires !dev.inactive ==> dev.drv.Some? && dev.drv.value in s.ofDrv && di <= |s.ofDrv[dev.drv.value]|
    requires |s.active| == LEVELS
  {
    s.(devs := s.devs[d := dev],
       children := if dev.parent.None? then s.children
                   else s.children[dev.parent.value := Insert(s.children[dev.parent.value], ci, d)],
       ofDrv := if dev.inactive then s.ofDrv else s.ofDrv[dev.drv.value := Insert(s.ofDrv[dev.drv.value], di, d)],
       active := if dev.inactive then s.active else s.active[0 := s.active[0] + [d]],
       inactive := if dev.inactive then s.inactive + [d] else s.inactive)
  }

  /** What a registration may ask for, and the minor numbers it must get. */
  ghost predicate Fits(s: State, d: nat, dev: Dev, ci: nat, di: nat) {
    && d !in s.devs && dev.bus == None && dev.level == 0 && |s.active| == LEVELS
    && (dev.parent.Some? ==>
          && dev.parent.value in s.children && ci <= |s.children[dev.parent.value]|
          && BusFits(s.devs, s.children[dev.parent.value], dev, ci))
    && (dev.drv.None? ==> dev.inactive)
    && (dev.drv.Some? ==> dev.drv.value in s.ofDrv)
    && (!dev.inactive ==> di <= |s.ofDrv[dev.drv.value]| && DrvFits(s.devs, s.ofDrv[dev.drv.value], dev, di))
  }

  ghost predicate BusFits(devs: map<nat, Dev>, l: seq<nat>, dev: Dev, ci: nat)
    requires ci <= |l|
  {
    dev.drv.Some? ==>
      && 0 <= dev.minorBus
      && (forall j :: 0 <= j < ci && l[j] in devs && devs[l[j]].drv == dev.drv ==> devs[l[j]].minorBus < dev.minorBus)
      && (forall j :: ci <= j < |l| && l[j] in devs && devs[l[j]].drv == dev.drv ==> dev.minorBus < devs[l[j]].minorBus)
  }

  ghost predicate DrvFits(devs: map<nat, Dev>, l: seq<nat>, dev: Dev, di: nat)
    requires di <= |l|
  {
    && 0 <= dev.minorDrv
    && (forall j :: 0 <= j < di && l[j] in devs ==> devs[l[j]].minorDrv < dev.minorDrv)
    && (forall j :: di <= j < |l| && l[j] in devs ==> dev.minorDrv < devs[l[j]].minorDrv)
  }

  lemma InsertBusMinors(devs: map<nat, Dev>, l: seq<nat>, d: nat, dev: Dev, ci: nat)
    requires BusMinors(devs, l) && d !in devs && ci <= |l| && BusFits(devs, l, dev, ci)
    ensures BusMinors(devs[d := dev], Insert(l, ci, d))
  {
    var r, devs' := Insert(l, ci, d), devs[d := dev];
    assert forall i :: 0 <= i < |r| ==> r[i] == if i < ci then l[i] else if i == ci then d else l[i - 1];
  }

  lemma InsertDrvMinors(devs: map<nat, Dev>, v: nat, l: seq<nat>, d: nat, dev: Dev, di: nat)
    requires DrvMinors(devs, v, l) && d !in devs && di <= |l| && dev.drv == Some(v) && DrvFits(devs, l, dev, di)
    ensures DrvMinors(devs[d := dev], v, Insert(l, di, d))
  {
    var r, devs' := Insert(l, di, d), devs[d := dev];
    assert forall i :: 0 <= i < |r| ==> r[i] == if i < di then l[i] else if i == di then d else l[i - 1];
  }

  lemma ExtendMinors(devs: map<nat, Dev>, v: nat, l: seq<nat>, d: nat, dev: Dev)
    requires d !in devs
    ensures BusMinors(devs, l) ==> BusMinors(devs[d := dev], l)
    ensures DrvMinors(devs, v, l) ==> DrvMinors(devs[d := dev], v, l)
  {
  }

  lemma EnrolledMinors(s: State, d: nat, dev: Dev, ci: nat, di: nat)
    requires Minors(s) && Fits(s, d, dev, ci, di)
    ensures Minors(Enrolled(s, d, dev, ci, di))
  {
    hide Insert, BusFits, DrvFits, BusMinors, DrvMinors;
    var t := Enrolled(s, d, dev, ci, di);
    forall b | b in t.children ensures BusMinors(t.devs, t.children[b]) {
      ExtendMinors(s.devs, 0, s.children[b], d, dev);
      if dev.parent == Some(b) { InsertBusMinors(s.devs, s.children[b], d, dev, ci); }
    }
    forall v | v in t.ofDrv ensures DrvMinors(t.devs, v, t.ofDrv[v]) {
      ExtendMinors(s.devs, v, s.ofDrv[v], d, dev);
      if !dev.inactive && dev.drv == Some(v) { InsertDrvMinors(s.devs, v, s.ofDrv[v], d, dev, di); }
    }
  }

  lemma InsertNoDup(l: seq<nat>, i: nat, d: nat)
    requires NoDup(l) && i <= |l| && d !in l
    ensures NoDup(Insert(l, i, d))
  {
    var r := Insert(l, i, d);
    assert forall k :: 0 <= k < |r| ==> r[k] == if k < i then l[k] else if k == i then d else l[k - 1];
  }

  lemma EnrolledFamilies(s: State, d: nat, dev: Dev, ci: nat, di: nat)
    requires Families(s) && Fits(s, d, dev, ci, di)
    ensures Families(Enrolled(s, d, dev, ci, di))
  {
    hide Insert, BusFits, DrvFits, NoDup;
    if dev.parent.Some? { InsertNoDup(s.children[dev.parent.value], ci, d); }
  }

  lemma EnrolledBridges(s: State, d: nat, dev: Dev, ci: nat, di: nat)
    requires Bridges(s) && Fits(s, d, dev, ci, di)
    ensures Bridges(Enrolled(s, d, dev, ci, di))
  {
    hide Insert, BusFits, DrvFits;
    var t := Enrolled(s, d, dev, ci, di);
    assert forall x :: x in s.devs ==> Depth(t, x) == Depth(s, x);
  }

  lemma AddListed(place: map<nat, (nat, bool)>, active: seq<seq<nat>>, inactive: seq<nat>, d: nat)
    requires Listed(place, active, inactive) && d !in place
    ensures Listed(place[d := (0, false)], active[0 := active[0] + [d]], inactive)
    ensures Listed(place[d := (0, true)], active, inactive + [d])
  {
    assert d !in active[0] && d !in inactive;
  }

  /** Registration keeps the invariant: the lists stay sorted by minor number. */
  lemma EnrolledValid(s: State, d: nat, dev: Dev, ci: nat, di: nat)
    requires Valid(s) && Fits(s, d, dev, ci, di)
    ensures Valid(Enrolled(s, d, dev, ci, di))
  {
    hide Families, Bridges, Minors, Listed, Insert;
    EnrolledFamilies(s, d, dev, ci, di);
    EnrolledBridges(s, d, dev, ci, di);
    EnrolledMinors(s, d, dev, ci, di);
    AddListed(DevPlace(s.devs), s.active, s.inactive, d);
    assert DevPlace(s.devs[d := dev]) == DevPlace(s.devs)[d := (dev.level, dev.inactive)];
  }

  /** The new device's minor numbers are free, and all smaller ones are taken. */
  ghost predicate SmallestFree(s: State, dev: Dev) {
    && (dev.parent.Some? && dev.drv.Some? ==>
          && 0 <= dev.minorBus && dev.parent.value in s.children
          && var l := s.children[dev.parent.value];
             && (forall x <- l :: x in s.devs && (s.devs[x].drv == dev.drv ==> s.devs[x].minorBus != dev.minorBus))
             && (forall m :: 0 <= m < dev.minorBus ==> BusHas(s.devs, l, dev.drv, |l|, m)))
    && (!dev.inactive ==>
          && 0 <= dev.minorDrv && dev.drv.Some? && dev.drv.value in s.ofDrv
          && var l := s.ofDrv[dev.drv.value];
             && (forall x <- l :: x in s.devs && s.devs[x].minorDrv != dev.minorDrv)
             && (forall m :: 0 <= m < dev.minorDrv ==> DrvHas(s.devs, l, m)))
  }

  lemma BusMex(devs: map<nat, Dev>, l: seq<nat>, dev: Dev, i: nat)
    requires BusMinors(devs, l) && i <= |l| && 0 <= dev.minorBus && Dense(devs, l, dev.drv, i, dev.minorBus)
    requires forall j :: i <= j < |l| && devs[l[j]].drv == dev.drv ==> dev.minorBus < devs[l[j]].minorBus
    ensures BusFits(devs, l, dev, i)
    ensures forall x <- l :: x in devs && (devs[x].drv == dev.drv ==> devs[x].minorBus != dev.minorBus)
    ensures forall m :: 0 <= m < dev.minorBus ==> BusHas(devs, l, dev.drv, |l|, m)
  {
    forall m | 0 <= m < dev.minorBus ensures BusHas(devs, l, dev.drv, |l|, m) { assert BusHas(devs, l, dev.drv, i, m); }
  }

  lemma DrvMex(devs: map<nat, Dev>, l: seq<nat>, dev: Dev, i: nat)
    requires i <= |l| && 0 <= dev.minorDrv && forall j :: 0 <= j < |l| ==> l[j] in devs
    requires forall j :: 0 <= j < i ==> devs[l[j]].minorDrv < dev.minorDrv
    requires forall j :: i <= j < |l| ==> dev.minorDrv < devs[l[j]].minorDrv
    ensures DrvFits(devs, l, dev, i)
    ensures forall x <- l :: x in devs && devs[x].minorDrv != dev.minorDrv
  {
  }

  lemma DepthStep(s: State, d: nat)
    requires Valid(s) && d in s.devs
    ensures s.devs[d].parent.Some? ==>
      s.devs[d].parent.value in s.buses && Depth(s, d) == s.buses[s.devs[d].parent.value].depth + 1
    ensures s.devs[d].parent.None? ==> Depth(s, d) == 0
  {
    hide Bridges, Minors, Listed, NoDup;
  }

  /** A new bus on its bridge. */
  function Attached(s: State, b: nat, bridge: nat): State
    requires bridge in s.devs && |s.busActive| == LEVELS
  {
    s.(devs := s.devs[bridge := s.devs[bridge].(bus := Some(b))],
       buses := s.buses[b := Bus(bridge, Depth(s, bridge), 0, false)],
       children := s.children[b := []],
       busActive := s.busActive[0 := s.busActive[0] + [b]])
  }

  lemma AttachedFamilies(s: State, b: nat, bridge: nat)
    requires Families(s) && |s.busActive| == LEVELS && b !in s.buses && bridge in s.devs
    ensures Families(Attached(s, b, bridge))
  {
    assert NoDup([]);
    hide NoDup;
  }

  lemma AttachedBridges(s: State, b: nat, bridge: nat)
    requires Bridges(s) && |s.busActive| == LEVELS
    requires forall x :: x in s.devs && s.devs[x].parent.Some? ==> s.devs[x].parent.value != b
    requires b !in s.buses && bridge in s.devs && s.devs[bridge].bus == None
    ensures Bridges(Attached(s, b, bridge))
  {
    hide Depth;
    var t := Attached(s, b, bridge);
    forall x | x in s.devs ensures Depth(t, x) == Depth(s, x) { AttachedDepth(s, b, bridge, x); }
  }

  lemma AttachedDepth(s: State, b: nat, bridge: nat, x: nat)
    requires |s.busActive| == LEVELS && bridge in s.devs && b !in s.buses && x in s.devs
    requires s.devs[x].parent.Some? ==> s.devs[x].parent.value != b
    ensures Depth(Attached(s, b, bridge), x) == Depth(s, x)
  {
  }

  lemma NoParentYet(s: State, b: nat)
    requires Families(s) && b !in s.buses
    ensures forall x :: x in s.devs && s.devs[x].parent.Some? ==> s.devs[x].parent.value != b
  {
    hide NoDup;
  }

  lemma AttachedMinors(s: State, b: nat, bridge: nat)
    requires Minors(s) && |s.busActive| == LEVELS && bridge in s.devs
    ensures Minors(Attached(s, b, bridge))
  {
    var t := Attached(s, b, bridge);
    forall b' | b' in t.children ensures BusMinors(t.devs, t.children[b']) {
      if b' != b { assert BusMinors(s.devs, s.children[b']); }
    }
    forall v | v in t.ofDrv ensures DrvMinors(t.devs, v, t.ofDrv[v]) { assert DrvMinors(s.devs, v, s.ofDrv[v]); }
  }

  lemma AttachedValid(s: State, b: nat, bridge: nat)
    requires Valid(s) && b !in s.buses && bridge in s.devs && s.devs[bridge].bus == None
    ensures |s.busActive| == LEVELS && Valid(Attached(s, b, bridge))
  {
    BusListCount(s);
    hide Families, Bridges, Minors, Listed, Attached;
    NoParentYet(s, b);
    AttachedFamilies(s, b, bridge);
    AttachedBridges(s, b, bridge);
    AttachedMinors(s, b, bridge);
    AddListed(BusPlace(s.buses), s.busActive, s.busInactive, b);
    AttachedPlaces(s, b, bridge);
  }

  lemma BusListCount(s: State)
    requires Listed(BusPlace(s.buses), s.busActive, s.busInactive)
    ensures |s.busActive| == LEVELS
  {
  }

  lemma AttachedPlaces(s: State, b: nat, bridge: nat)
    requires |s.busActive| == LEVELS && bridge in s.devs
    ensures var t := Attached(s, b, bridge);
      && DevPlace(t.devs) == DevPlace(s.devs) && t.active == s.active && t.inactive == s.inactive
      && BusPlace(t.buses) == BusPlace(s.buses)[b := (0, false)]
      && t.busActive == s.busActive[0 := s.busActive[0] + [b]] && t.busInactive == s.busInactive
  {
  }

  lemma ValidMinors(s: State, parent: Option<nat>, drv: Option<nat>)
    requires Valid(s) && (parent.Some? ==> parent.value in s.buses) && (drv.Some? ==> drv.value in s.ofDrv)
    ensures |s.active| == LEVELS
    ensures parent.Some? ==> parent.value in s.children && BusMinors(s.devs, s.children[parent.value])
    ensures drv.Some? ==> DrvMinors(s.devs, drv.value, s.ofDrv[drv.value])
  {
    hide NoDup, Bridges;
  }
}
