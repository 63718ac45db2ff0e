/**
 What initialisation does to the registry: `do_dev_init` and `do_bus_init` take the head of the list of a level to the
 tail of the next one, or to the head of the inactive list when it fails.
 */
module DrvLevels {
  import opened Options
  import opened DrvTree

  // ---------------------------------------------------------------- lists

  /** `x` is the head of the list of its level. */
  predicate Heads(active: seq<seq<nat>>, k: nat, x: nat) {
    |active| == LEVELS && k < LEVELS && active[k] != [] && active[k][0] == x
  }

  function Raised(active: seq<seq<nat>>, k: nat): seq<seq<nat>>
    requires |active| == LEVELS && k + 1 < LEVELS && active[k] != []
  {
    active[k := active[k][1..]][k + 1 := active[k + 1] + [active[k][0]]]
  }

  function Popped(active: seq<seq<nat>>, k: nat): seq<seq<nat>>
    requires |active| == LEVELS && k < LEVELS && active[k] != []
  {
    active[k := active[k][1..]]
  }

  lemma NoDupTail(l: seq<nat>)
    requires NoDup(l) && l != []
    ensures NoDup(l[1..]) && l[0] !in l[1..] && forall x :: x in l <==> x == l[0] || x in l[1..]
  {
    assert l == [l[0]] + l[1..];
  }

  lemma NoDupSnoc(l: seq<nat>, x: nat)
    requires NoDup(l) && x !in l
    ensures NoDup(l + [x]) && forall y :: y in l + [x] <==> y in l || y == x
  {}

  lemma NoDupCons(l: seq<nat>, x: nat)
    requires NoDup(l) && x !in l
    ensures NoDup([x] + l) && forall y :: y in [x] + l <==> y in l || y == x
  {}

  /** An object off the head of its list is on no list. */
  lemma ListedPopped(place: map<nat, (nat, bool)>, active: seq<seq<nat>>, inactive: seq<nat>, k: nat, x: nat)
    requires Listed(place, active, inactive) && Heads(active, k, x)
    ensures x in place && place[x] == (k, false) && x !in inactive
    ensures var a := Popped(active, k);
            && (forall j :: 0 <= j < LEVELS ==> NoDup(a[j]) && x !in a[j])
            && forall j, y :: 0 <= j < LEVELS && y != x ==> (y in a[j] <==> y in active[j])
  {
    hide NoDup;
    NoDupTail(active[k]);
    assert x in active[k];
  }

  lemma ListedRaised(place: map<nat, (nat, bool)>, active: seq<seq<nat>>, inactive: seq<nat>, k: nat, x: nat)
    requires Listed(place, active, inactive) && Heads(active, k, x) && k + 1 < LEVELS
    ensures Listed(place[x := (k + 1, false)], Raised(active, k), inactive)
  {
    hide NoDup;
    ListedPopped(place, active, inactive, k, x);
    NoDupSnoc(Popped(active, k)[k + 1], x);
  }

  lemma ListedAside(place: map<nat, (nat, bool)>, active: seq<seq<nat>>, inactive: seq<nat>, k: nat, x: nat)
    requires Listed(place, active, inactive) && Heads(active, k, x)
    ensures Listed(place[x := (k, true)], Popped(active, k), [x] + inactive)
  {
    hide NoDup;
    ListedPopped(place, active, inactive, k, x);
    NoDupCons(inactive, x);
  }

  // ---------------------------------------------------------------- devices

  /** The device is at the head of the list of its level. */
  predicate DevReady(s: State, d: nat) {
    d in s.devs && Heads(s.active, s.devs[d].level, d)
  }

  function RaiseDev(s: State, d: nat): State
    requires DevReady(s, d) && s.devs[d].level + 1 < LEVELS
  {
    var k := s.devs[d].level;
    s.(devs := s.devs[d := s.devs[d].(level := k + 1)], active := Raised(s.active, k))
  }

  function DevAside(s: State, d: nat): State
    requires DevReady(s, d)
  {
    s.(devs := s.devs[d := s.devs[d].(inactive := true)], active := Popped(s.active, s.devs[d].level),
       inactive := [d] + s.inactive)
  }

  /** Links and minor numbers do not depend on levels, and an inactive device need not be on its driver's list. */
  lemma LinksKept(s: State, t: State, d: nat, dev: Dev)
    requires Families(s) && Bridges(s) && Minors(s) && d in s.devs
    requires t == s.(devs := s.devs[d := dev], active := t.active, inactive := t.inactive)
    requires dev == s.devs[d].(level := dev.level, inactive := dev.inactive) && (s.devs[d].inactive ==> dev.inactive)
    ensures Families(t) && Bridges(t) && Minors(t)
  {
    hide Families, Bridges, Minors;
    FamiliesKept(s, t, d, dev);
    BridgesKept(s, t, d, dev);
    MinorsKept(s, t, d, dev);
  }

  /** A change that minor numbers do not depend on. */
  predicate SameMinors(devs: map<nat, Dev>, devs': map<nat, Dev>) {
    && devs'.Keys == devs.Keys
    && forall x :: x in devs ==>
         devs'[x].drv == devs[x].drv && devs'[x].minorBus == devs[x].minorBus && devs'[x].minorDrv == devs[x].minorDrv
  }

  lemma BusMinorsKept(devs: map<nat, Dev>, devs': map<nat, Dev>, l: seq<nat>)
    requires BusMinors(devs, l) && SameMinors(devs, devs')
    ensures BusMinors(devs', l)
  {}

  lemma DrvMinorsKept(devs: map<nat, Dev>, devs': map<nat, Dev>, v: nat, l: seq<nat>)
    requires DrvMinors(devs, v, l) && SameMinors(devs, devs')
    ensures DrvMinors(devs', v, l)
  {}

  lemma MinorsKept(s: State, t: State, d: nat, dev: Dev)
    requires Minors(s) && d in s.devs && t.devs == s.devs[d := dev] && t.children == s.children && t.ofDrv == s.ofDrv
    requires dev == s.devs[d].(level := dev.level, inactive := dev.inactive) && (s.devs[d].inactive ==> dev.inactive)
    ensures Minors(t)
  {
    hide BusMinors, DrvMinors;
    assert SameMinors(s.devs, t.devs);
    forall b | b in t.children
      ensures BusMinors(t.devs, t.children[b])
    {
      BusMinorsKept(s.devs, t.devs, t.children[b]);
    }
    forall v | v in t.ofDrv
      ensures DrvMinors(t.devs, v, t.ofDrv[v])
    {
      DrvMinorsKept(s.devs, t.devs, v, t.ofDrv[v]);
    }
  }

  lemma FamiliesKept(s: State, t: State, d: nat, dev: Dev)
    requires Families(s) && d in s.devs && t.devs == s.devs[d := dev] && t.buses == s.buses && t.children == s.children
    requires dev.parent == s.devs[d].parent
    ensures Families(t)
  {
    hide NoDup;
  }

  lemma BridgesKept(s: State, t: State, d: nat, dev: Dev)
    requires Bridges(s) && d in s.devs && t.devs == s.devs[d := dev] && t.buses == s.buses
    requires dev.parent == s.devs[d].parent && dev.bus == s.devs[d].bus
    ensures Bridges(t)
  {
    assert forall x :: Depth(t, x) == Depth(s, x);
  }

  lemma RaiseDevValid(s: State, d: nat)
    requires Valid(s) && DevReady(s, d) && s.devs[d].level + 1 < LEVELS
    ensures Valid(RaiseDev(s, d))
  {
    hide Families, Bridges, Minors, Listed, Raised;
    var t := RaiseDev(s, d);
    var dev := t.devs[d];
    LinksKept(s, t, d, dev);
    ListedRaised(DevPlace(s.devs), s.active, s.inactive, s.devs[d].level, d);
    PlaceUpdate(s.devs, d, dev);
    HeadActive(s, d);
  }

  lemma DevAsideValid(s: State, d: nat)
    requires Valid(s) && DevReady(s, d)
    ensures Valid(DevAside(s, d))
  {
    hide Families, Bridges, Minors, Listed, Popped;
    var t := DevAside(s, d);
    var dev := t.devs[d];
    LinksKept(s, t, d, dev);
    ListedAside(DevPlace(s.devs), s.active, s.inactive, s.devs[d].level, d);
    PlaceUpdate(s.devs, d, dev);
  }

  lemma HeadActive(s: State, d: nat)
    requires Listed(DevPlace(s.devs), s.active, s.inactive) && DevReady(s, d)
    ensures !s.devs[d].inactive
  {
    hide Listed;
    ListedPopped(DevPlace(s.devs), s.active, s.inactive, s.devs[d].level, d);
    assert DevPlace(s.devs)[d] == (s.devs[d].level, s.devs[d].inactive);
  }

  lemma PlaceUpdate(devs: map<nat, Dev>, d: nat, dev: Dev)
    ensures DevPlace(devs[d := dev]) == DevPlace(devs)[d := (dev.level, dev.inactive)]
  {}

  // ---------------------------------------------------------------- buses

  predicate BusReady(s: State, b: nat) {
    b in s.buses && Heads(s.busActive, s.buses[b].level, b)
  }

  function RaiseBus(s: State, b: nat): State
    requires BusReady(s, b) && s.buses[b].level + 1 < LEVELS
  {
    var k := s.buses[b].level;
    s.(buses := s.buses[b := s.buses[b].(level := k + 1)], busActive := Raised(s.busActive, k))
  }

  function BusAside(s: State, b: nat): State
    requires BusReady(s, b)
  {
    s.(buses := s.buses[b := s.buses[b].(inactive := true)], busActive := Popped(s.busActive, s.buses[b].level),
       busInactive := [b] + s.busInactive)
  }

  lemma BusLinksKept(s: State, t: State, b: nat, bus: Bus)
    requires Families(s) && Bridges(s) && Minors(s) && b in s.buses
    requires t == s.(buses := s.buses[b := bus], busActive := t.busActive, busInactive := t.busInactive)
    requires bus == s.buses[b].(level := bus.level, inactive := bus.inactive)
    ensures Families(t) && Bridges(t) && Minors(t)
  {
    hide Families, Bridges, Minors;
    BusFamiliesKept(s, t);
    BusBridgesKept(s, t, b, bus);
    BusOthersKept(s, t);
  }

  lemma BusFamiliesKept(s: State, t: State)
    requires Families(s) && t.devs == s.devs && t.buses.Keys == s.buses.Keys && t.children == s.children
    ensures Families(t)
  {
    hide NoDup;
  }

  lemma BusOthersKept(s: State, t: State)
    requires Minors(s) && t.devs == s.devs && t.children == s.children && t.ofDrv == s.ofDrv
    ensures Minors(t)
  {
    hide BusMinors, DrvMinors;
  }

  lemma BusBridgesKept(s: State, t: State, b: nat, bus: Bus)
    requires Bridges(s) && b in s.buses && t.devs == s.devs && t.buses == s.buses[b := bus]
    requires bus.bridge == s.buses[b].bridge && bus.depth == s.buses[b].depth
    ensures Bridges(t)
  {
    assert forall x :: Depth(t, x) == Depth(s, x);
  }

  lemma RaiseBusValid(s: State, b: nat)
    requires Valid(s) && BusReady(s, b) && s.buses[b].level + 1 < LEVELS
    ensures Valid(RaiseBus(s, b))
  {
    hide Families, Bridges, Minors, Listed, Raised;
    var t := RaiseBus(s, b);
    var bus := t.buses[b];
    BusLinksKept(s, t, b, bus);
    ListedRaised(BusPlace(s.buses), s.busActive, s.busInactive, s.buses[b].level, b);
    BusPlaceUpdate(s.buses, b, bus);
    BusHeadActive(s, b);
  }

  lemma BusAsideValid(s: State, b: nat)
    requires Valid(s) && BusReady(s, b)
    ensures Valid(BusAside(s, b))
  {
    hide Families, Bridges, Minors, Listed, Popped;
    var t := BusAside(s, b);
    var bus := t.buses[b];
    BusLinksKept(s, t, b, bus);
    ListedAside(BusPlace(s.buses), s.busActive, s.busInactive, s.buses[b].level, b);
    BusPlaceUpdate(s.buses, b, bus);
  }

  lemma BusHeadActive(s: State, b: nat)
    requires Listed(BusPlace(s.buses), s.busActive, s.busInactive) && BusReady(s, b)
    ensures !s.buses[b].inactive
  {
    hide Listed;
    ListedPopped(BusPlace(s.buses), s.busActive, s.busInactive, s.buses[b].level, b);
    assert BusPlace(s.buses)[b] == (s.buses[b].level, s.buses[b].inactive);
  }

  lemma BusPlaceUpdate(buses: map<nat, Bus>, b: nat, bus: Bus)
    ensures BusPlace(buses[b := bus]) == BusPlace(buses)[b := (bus.level, bus.inactive)]
  {}
}
