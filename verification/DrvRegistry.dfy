/** The driver manager's registry: `drvmgr_dev_register`, `drvmgr_bus_register` and drvmgr_unregister.c. */
module DrvRegistry {
  import opened Options
  import opened DrvTree
  import opened DrvEnrol
  import opened DrvLevels

  const OK := 0
  const ENOSYS := 4
  const FAIL := -1

  lemma EmptyValid(s: State)
    requires s.devs == map[] && s.buses == map[] && s.children == map[] && forall v :: v in s.ofDrv ==> s.ofDrv[v] == []
    requires s.active == s.busActive == [[], [], [], [], []] && s.inactive == s.busInactive == []
    ensures Valid(s)
  {
    EmptyListed(DevPlace(s.devs));
    EmptyListed(BusPlace(s.buses));
    hide Listed;
  }

  lemma EmptyListed(place: map<nat, (nat, bool)>)
    requires place == map[]
    ensures Listed(place, [[], [], [], [], []], [])
  {}

  /** Children of the bus have been removed, with what hangs below them, and nothing else. */
  ghost predicate Thinned(s: State, t: State, b: nat, depth: nat) {
    && Valid(s) && Valid(t) && PartOf(s, t)
    && b in s.buses && b in t.buses && t.buses[b] == s.buses[b] && b in t.children && s.buses[b].bridge in t.devs
    && Shallow(t, depth)
    && (forall x :: x in s.devs && x !in t.devs ==> Under(s, x, s.buses[b].bridge))
    && forall x :: x in s.devs && x !in t.devs ==> Sane(s.devs[x])
  }

  lemma ThinnedStart(s: State, b: nat, depth: nat)
    requires Valid(s) && b in s.buses && Shallow(s, depth)
    ensures Thinned(s, s, b, depth) && b in s.children
  {
    hide Valid, PartOf, Shallow;
    WholePart(s);
    BusFacts(s, b);
  }

  lemma ThinnedFacts(s: State, t: State, b: nat, depth: nat)
    requires Thinned(s, t, b, depth)
    ensures Valid(t) && PartOf(s, t) && b in t.buses && b in t.children && s.buses[b].bridge in t.devs
    ensures forall x :: x in s.devs && x !in t.devs ==> Under(s, x, s.buses[b].bridge)
    ensures forall x :: x in s.devs && x !in t.devs ==> Sane(s.devs[x])
  {
    hide Valid, PartOf, Shallow, Under, Sane;
  }

  lemma ShallowRoom(s: State, b: nat, depth: nat)
    requires b in s.buses && Shallow(s, depth)
    ensures s.buses[b].depth < depth
  {}

  class Registry {
    var devs: map<nat, Dev>
    var buses: map<nat, Bus>
    var children: map<nat, seq<nat>>
    var ofDrv: map<nat, seq<nat>>
    var active: seq<seq<nat>>
    var inactive: seq<nat>
    var busActive: seq<seq<nat>>
    var busInactive: seq<nat>

    ghost function View(): State
      reads this
    {
      State(devs, buses, children, ofDrv, active, inactive, busActive, busInactive)
    }

    /** No device, one driver table per driver. */
    constructor (drivers: set<nat>)
      ensures Valid(View()) && devs == map[] && buses == map[] && ofDrv.Keys == drivers
    {
      hide Valid;
      devs, buses, children, ofDrv := map[], map[], map[], map v | v in drivers :: [];
      active, inactive, busActive, busInactive := [[], [], [], [], []], [], [[], [], [], [], []], [];
      new;
      EmptyValid(View());
    }

    /**
     `drvmgr_dev_register` up to the start of initialisation: the device gets the smallest minor number
     free on its bus for its driver, and the smallest one free in its driver.
     */
    method DevRegister(d: nat, parent: Option<nat>, drv: Option<nat>, ignored: bool)
      requires Valid(View()) && d !in devs
      requires parent.Some? ==> parent.value in buses
      requires drv.Some? ==> drv.value in ofDrv
      modifies this
      ensures Valid(View()) && devs.Keys == old(devs.Keys) + {d}
      ensures forall x :: x in old(devs) ==> devs[x] == old(devs)[x]
      ensures devs[d].parent == parent && devs[d].drv == drv && (devs[d].inactive <==> drv.None? || ignored)
      ensures devs[d].bus == None && devs[d].level == 0 && buses == old(buses) && ofDrv.Keys == old(ofDrv.Keys)
      ensures SmallestFree(old(View()), devs[d])
    {
      hide Valid, SmallestFree, BusFits, DrvFits, Insert;
      var dev, ci, di := Assign(d, parent, drv, ignored);
      ghost var s := View();
      EnrolledValid(s, d, dev, ci, di);
      if parent.Some? {
        children := children[parent.value := Insert(children[parent.value], ci, d)];
      }
      if drv.Some? && !ignored {
        ofDrv := ofDrv[drv.value := Insert(ofDrv[drv.value], di, d)];
        active := active[0 := active[0] + [d]];
      } else {
        inactive := inactive + [d];
      }
      devs := devs[d := dev];
      assert View() == Enrolled(s, d, dev, ci, di);
    }

    /** The two searches of a registration. */
    method Assign(d: nat, parent: Option<nat>, drv: Option<nat>, ignored: bool) returns (dev: Dev, ci: nat, di: nat)
      requires Valid(View()) && d !in devs
      requires parent.Some? ==> parent.value in buses
      requires drv.Some? ==> drv.value in ofDrv
      ensures Fits(View(), d, dev, ci, di) && SmallestFree(View(), dev)
      ensures dev.parent == parent && dev.drv == drv && dev.bus == None && (dev.inactive <==> drv.None? || ignored)
    {
      hide Valid, BusMinors, DrvMinors, Dense;
      dev := Dev(parent, drv, None, 0, 0, 0, drv.None? || ignored);
      ci, di := 0, 0;
      ValidMinors(View(), parent, drv);
      if parent.Some? {
        var minor;
        ci, minor := BusGap(devs, children[parent.value], drv);
        dev := dev.(minorBus := minor);
        if drv.Some? { BusMex(devs, children[parent.value], dev, ci); }
      }
      if drv.None? {
        dev := dev.(minorDrv := -1);
      } else if !ignored {
        var minor;
        di, minor := DrvGap(devs, drv.value, ofDrv[drv.value]);
        dev := dev.(minorDrv := minor);
        DrvMex(devs, ofDrv[drv.value], dev, di);
      }
    }

    /** `drvmgr_bus_register` up to the start of initialisation: the depth is found by walking up to the root. */
    method BusRegister(b: nat, bridge: nat)
      requires Valid(View()) && b !in buses && bridge in devs && devs[bridge].bus == None
      modifies this
      ensures Valid(View()) && buses.Keys == old(buses.Keys) + {b} && buses[b].bridge == bridge && children[b] == []
      ensures buses[b].depth == Depth(old(View()), bridge)
      ensures devs == old(devs)[bridge := old(devs)[bridge].(bus := Some(b))] && ofDrv == old(ofDrv)
    {
      hide Valid;
      ghost var s := View();
      var depth := 0;
      var up := devs[bridge].parent;
      DepthStep(s, bridge);
      while up.Some?
        invariant View() == s && Valid(s)
        invariant up.Some? ==> up.value in buses
        invariant depth + (if up.Some? then buses[up.value].depth + 1 else 0) == Depth(s, bridge)
        decreases if up.Some? then buses[up.value].depth + 1 else 0
      {
        BusFacts(s, up.value);
        DepthStep(s, buses[up.value].bridge);
        depth := depth + 1;
        up := devs[buses[up.value].bridge].parent;
      }
      AttachedValid(s, b, bridge);
      devs := devs[bridge := devs[bridge].(bus := Some(b))];
      buses := buses[b := Bus(bridge, depth, 0, false)];
      children := children[b := []];
      busActive := busActive[0 := busActive[0] + [b]];
      assert View() == Attached(s, b, bridge);
    }

    /** The list moves of `do_dev_init`, with the device that `drvmgr_init_update` takes off the head of its list. */
    method TakeUpDev(d: nat, ok: bool)
      requires Valid(View()) && DevReady(View(), d) && devs[d].level + 1 < LEVELS
      modifies this
      ensures Valid(View()) && View() == if ok then RaiseDev(old(View()), d) else DevAside(old(View()), d)
    {
      hide Valid;
      var dev := devs[d];
      RaiseDevValid(View(), d);
      DevAsideValid(View(), d);
      active := active[dev.level := active[dev.level][1..]];
      if ok {
        devs := devs[d := dev.(level := dev.level + 1)];
        active := active[dev.level + 1 := active[dev.level + 1] + [d]];
      } else {
        devs := devs[d := dev.(inactive := true)];
        inactive := [d] + inactive;
      }
    }

    /** The same for a bus, as `do_bus_init` has it. */
    method TakeUpBus(b: nat, ok: bool)
      requires Valid(View()) && BusReady(View(), b) && buses[b].level + 1 < LEVELS
      modifies this
      ensures Valid(View()) && View() == if ok then RaiseBus(old(View()), b) else BusAside(old(View()), b)
    {
      hide Valid;
      var bus := buses[b];
      RaiseBusValid(View(), b);
      BusAsideValid(View(), b);
      busActive := busActive[bus.level := busActive[bus.level][1..]];
      if ok {
        buses := buses[b := bus.(level := bus.level + 1)];
        busActive := busActive[bus.level + 1 := busActive[bus.level + 1] + [b]];
      } else {
        buses := buses[b := bus.(inactive := true)];
        busInactive := [b] + busInactive;
      }
    }

    /**
     `drvmgr_children_unregister`. If all drivers are `willing`, every remove function exists and succeeds. If the
     code gets `lost` in a list, nothing is said of what follows.
     */
    method ChildrenUnregister(b: nat, willing: bool, ghost room: nat) returns (err: int, lost: bool)
      requires Valid(View()) && b in buses
      requires Shallow(View(), buses[b].depth + room)
      modifies this
      ensures lost ==> !Removable(old(View()), old(buses[b].bridge))
      ensures !lost ==> Valid(View()) && (willing ==> err == OK)
      ensures !lost && err == OK ==>
        && PartOf(old(View()), View()) && b in buses && b in children && children[b] == [] &&
           old(buses[b].bridge) in devs
        && (forall x :: x in old(devs) && x !in devs ==> Under(old(View()), x, old(buses[b].bridge)))
        && forall x :: x in old(devs) && x !in devs ==> Sane(old(devs)[x])
      decreases room, 1
    {
      hide Valid, Thinned, PartOf, Under, Removable, Shallow, Sane;
      ghost var s := View();
      ThinnedStart(s, b, s.buses[b].depth + room);
      err, lost := OK, false;
      while children[b] != []
        invariant Thinned(s, View(), b, s.buses[b].depth + room) && b in children && !lost
        decreases |devs|
      {
        err, lost := RemoveChild(b, children[b][0], willing, room, s);
        if lost || err != OK { return; }
      }
      err := OK;
      ThinnedFacts(s, View(), b, s.buses[b].depth + room);
    }

    /** What a bus driver may do instead: remove children one by one, in any order, and stop when it likes. */
    method RemoveSome(b: nat, willing: bool, ghost room: nat) returns (err: int, lost: bool)
      requires Valid(View()) && b in buses
      requires Shallow(View(), buses[b].depth + room)
      modifies this
      ensures lost ==> !Removable(old(View()), old(buses[b].bridge))
      ensures !lost ==> Valid(View()) && (willing ==> err == OK)
      ensures !lost && err == OK ==>
        && PartOf(old(View()), View()) && b in buses && b in children && old(buses[b].bridge) in devs
        && (willing ==> children[b] == [])
        && (forall x :: x in old(devs) && x !in devs ==> Under(old(View()), x, old(buses[b].bridge)))
        && forall x :: x in old(devs) && x !in devs ==> Sane(old(devs)[x])
      decreases room, 1
    {
      hide Valid, Thinned, PartOf, Under, Removable, Shallow, Sane;
      ghost var s := View();
      ThinnedStart(s, b, s.buses[b].depth + room);
      err, lost := OK, false;
      var more: bool := *;
      while children[b] != [] && (more || willing)
        invariant Thinned(s, View(), b, s.buses[b].depth + room) && b in children && !lost
        decreases |devs|
      {
        var i: nat :| i < |children[b]|;
        err, lost := RemoveChild(b, children[b][i], willing, room, s);
        if lost || err != OK { return; }
        more := *;
      }
      err := *;
      if willing { err := OK; }
      ThinnedFacts(s, View(), b, s.buses[b].depth + room);
    }

    method RemoveChild(b: nat, c: nat, willing: bool, ghost room: nat, ghost s: State) returns (err: int, lost: bool)
      requires b in s.buses && Thinned(s, View(), b, s.buses[b].depth + room) && b in children && c in children[b]
      modifies this
      ensures lost ==> !Removable(s, s.buses[b].bridge)
      ensures !lost ==> Valid(View()) && (willing ==> err == OK)
      ensures !lost && err == OK ==>
        Thinned(s, View(), b, s.buses[b].depth + room) && b in children && |devs| < |old(devs)|
      decreases room, 0
    {
      hide Valid, PartOf, Under, Removable, Shallow, Sane;
      ghost var t := View();
      BeforeChild(s, t, b, c);
      ShallowRoom(t, b, s.buses[b].depth + room);
      err, lost := DevUnregister(c, willing, room - 1);
      if lost || err != OK { return; }
      AfterChild(s, t, View(), b, c, s.buses[b].depth + room);
      SaneAfter(s, t, View(), c);
    }

    /** `drvmgr_bus_unregister`: the bus driver must have removed all children, by either way. */
    method BusUnregister(b: nat, willing: bool, ghost room: nat) returns (err: int, lost: bool)
      requires Valid(View()) && b in buses
      requires Shallow(View(), buses[b].depth + room)
      modifies this
      ensures lost ==> !Removable(old(View()), old(buses[b].bridge))
      ensures !lost ==> Valid(View()) && (willing ==> err == OK)
      ensures !lost && err == OK ==>
        && old(buses[b].bridge) in old(devs) && BusGone(old(View()), View(), old(buses[b].bridge))
        && forall x :: x in old(devs) && x !in devs ==> Sane(old(devs)[x])
      decreases room, 2
    {
      hide Valid, PartOf, Under, Removable, Shallow, Restrict, BusGone, Sane;
      ghost var s := View();
      BusFacts(s, b);
      lost := false;
      var hasRemove: bool, byManager: bool := *, *;
      if !hasRemove && !willing { return ENOSYS, false; }
      if byManager {
        err, lost := ChildrenUnregister(b, willing, room);
      } else {
        err, lost := RemoveSome(b, willing, room);
      }
      if lost || err != OK { return; }
      if children[b] != [] { return FAIL, false; }
      ghost var t := View();
      PartFacts(s, t, b);
      BusGoneFrom(s, t, b);
      WithoutKeys(t, b);
      Unhook(b);
    }

    /** Takes a bus without children off its bridge and off its list. */
    method Unhook(b: nat)
      requires Valid(View()) && b in buses && b in children && children[b] == [] && buses[b].bridge in devs
      modifies this
      ensures Valid(View()) && View() == WithoutBus(old(View()), b)
    {
      hide Valid, Restrict;
      ghost var t := View();
      ValidMembers(t);
      DropBus(t, b);
      DropBusFields(t, b);
      BusOnLists(t, b);
      var bus := buses[b];
      ghost var bs := buses.Keys - {b};
      devs := devs[bus.bridge := devs[bus.bridge].(bus := None)];
      if bus.inactive {
        var list, lost := Unlink(busInactive, b, bs);
        busInactive := list;
      } else {
        var list, lost := Unlink(busActive[bus.level], b, bs);
        busActive := busActive[bus.level := list];
      }
      buses := buses - {b};
      children := children - {b};
    }

    /** Takes a device off its driver's list and moves it to the inactive list, if it is on the list of its level. */
    method LetGo(d: nat) returns (lost: bool)
      requires Valid(View()) && d in devs && devs[d].drv.Some?
      modifies this
      ensures lost <==> old(devs[d].inactive)
      ensures !lost ==> Valid(View()) && Unitable(old(View()), d) && View() == Separated(old(View()), d)
    {
      hide Valid, Filter;
      var v, k := devs[d].drv.value, devs[d].level;
      ghost var others := devs.Keys - {d};
      if devs[d].inactive {
        NotOnLevel(View(), d);
      } else {
        DevOnLists(View(), d);
        SeparatedValid(View(), d);
      }
      var list;
      list, lost := Unlink(ofDrv[v], d, others);
      if lost { return; }
      ofDrv := ofDrv[v := list];
      if k >= |active| { return true; }
      list, lost := Unlink(active[k], d, others);
      if lost { return; }
      active := active[k := list];
      devs := devs[d := devs[d].(level := 0, inactive := true)];
      inactive := inactive + [d];
      devs := devs[d := devs[d].(drv := None)];
      assert View() == Separated(old(View()), d);
    }

    /** `drvmgr_dev_drv_separate`; `mid` is the state in which the driver was told to let go. */
    method Separate(d: nat, willing: bool, ghost room: nat) returns (err: int, lost: bool, ghost mid: State)
      requires Valid(View()) && d in devs
      requires Shallow(View(), Depth(View(), d) + room)
      modifies this
      ensures lost ==> !Removable(old(View()), d)
      ensures !lost ==> Valid(View()) && (willing ==> err == OK)
      ensures !lost && err == OK ==>
        && Valid(mid) && BusGone(old(View()), mid, d)
        && mid.devs[d] == old(devs[d]).(bus := None)
        && (if mid.devs[d].drv.Some? then Unitable(mid, d) && View() == Separated(mid, d) else View() == mid)
        && Sane(old(devs[d])) && forall x :: x in old(devs) && x !in mid.devs ==> Sane(old(devs)[x])
      decreases room, 3
    {
      hide Valid, PartOf, Under, Removable, Shallow, Restrict, BusGone, Separated;
      mid, lost := View(), false;
      ghost var s := View();
      DevFacts(s, d);
      UnderSelf(s, d);
      if devs[d].bus.Some? {
        err, lost := BusUnregister(devs[d].bus.value, willing, room);
        if lost || err != OK { return; }
      } else {
        NoBusGone(s, d);
      }
      mid := View();
      BusGoneFacts(s, mid, d);
      if devs[d].drv.None? {
        return OK, false, mid;
      }
      var hasRemove: bool, code: int := *, *;
      if !hasRemove && !willing { return ENOSYS, false, mid; }
      if code != OK && !willing { return FAIL, false, mid; }
      lost := LetGo(d);
      if lost { NotRemovable(s, d, d); }
      err := OK;
    }

    /**
     `drvmgr_dev_unregister`: the device and exactly what hangs below it is gone, from every list of the
     manager, of every driver and of every bus; everything else is as it was. The root device has no bus to take it off.
     */
    method DevUnregister(d: nat, willing: bool, ghost room: nat) returns (err: int, lost: bool)
      requires Valid(View()) && d in devs
      requires Shallow(View(), Depth(View(), d) + room)
      modifies this
      ensures lost ==> !Removable(old(View()), d) || old(devs[d].parent).None?
      ensures !lost ==> Valid(View()) && (willing ==> err == OK)
      ensures !lost && err == OK ==>
        && PartOf(old(View()), View()) && Removable(old(View()), d) && old(devs[d].parent).Some?
        && (forall x :: x in old(devs) ==> (x in devs <==> !Under(old(View()), x, d)))
        && (forall b :: b in old(buses) ==> (b in buses <==> !Under(old(View()), old(buses)[b].bridge, d)))
      decreases room, 4
    {
      hide Valid, PartOf, Under, Removable, Shallow, Restrict, BusGone, Separated, Sane;
      ghost var s := View();
      ghost var mid;
      err, lost, mid := Separate(d, willing, room);
      if lost || err != OK { return; }
      ghost var u := View();
      SeparatedGone(s, mid, u, d);
      if devs[d].parent.None? { return OK, true; }
      TakeOff(d);
      ExactlySubtree(s, View(), d);
      SaneSubtree(s, View(), d);
    }

    /** Takes a device without driver and bus off the inactive list and off its parent bus. */
    method TakeOff(d: nat)
      requires Valid(View()) && d in devs && devs[d].parent.Some? && devs[d].drv == None && devs[d].bus == None
      modifies this
      ensures View() == Restrict(old(View()), old(devs.Keys) - {d}, old(buses.Keys)) &&
              devs.Keys == old(devs.Keys) - {d}
    {
      hide Valid, Restrict, Filter;
      var p := devs[d].parent.value;
      ghost var ds := devs.Keys - {d};
      InactiveFacts(View(), d, p);
      DropSeparated(View(), d, p);
      var list, lost := Unlink(inactive, d, ds);
      inactive := list;
      list, lost := Unlink(children[p], d, ds);
      children := children[p := list];
      devs := devs - {d};
    }

    /**
     Unregistering any device, as drivers call it. With willing drivers it succeeds exactly if the device is not the
     root and no device at or below it has a driver but was ignored or has failed; otherwise the code gets lost.
     */
    method Unregister(d: nat, willing: bool) returns (err: int, lost: bool)
      requires Valid(View()) && d in devs
      modifies this
      ensures willing ==> (lost <==> !Removable(old(View()), d) || old(devs[d].parent).None?)
      ensures lost ==> !Removable(old(View()), d) || old(devs[d].parent).None?
      ensures !lost ==> Valid(View()) && (willing ==> err == OK)
      ensures !lost && err == OK ==>
        && PartOf(old(View()), View())
        && (forall x :: x in old(devs) ==> (x in devs <==> !Under(old(View()), x, d)))
        && (forall b :: b in old(buses) ==> (b in buses <==> !Under(old(View()), old(buses)[b].bridge, d)))
    {
      hide Valid, PartOf, Under, Removable;
      ghost var room := Room(buses);
      err, lost := DevUnregister(d, willing, room);
    }
  }

  /** A device the user wants ignored cannot be unregistered: its driver's list does not have it. */
  method IgnoredRun() returns (r: Registry, err: int, lost: bool)
    ensures lost
  {
    hide Valid, Under, SmallestFree;
    r := new Registry({7});
    r.DevRegister(0, None, None, false);
    r.BusRegister(5, 0);
    r.DevRegister(1, Some(5), Some(7), true);
    UnderSelf(r.View(), 1);
    NotRemovable(r.View(), 1, 1);
    err, lost := r.Unregister(1, true);
  }

  /** Nor can one whose init function has failed: the list of its level does not have it. */
  method FailedRun() returns (r: Registry, err: int, lost: bool)
    ensures lost
  {
    hide Valid, Under, SmallestFree;
    r := new Registry({7});
    r.DevRegister(0, None, None, false);
    r.BusRegister(5, 0);
    r.DevRegister(1, Some(5), Some(7), false);
    OnlyActive(r.View(), 1);
    r.TakeUpDev(1, false);
    UnderSelf(r.View(), 1);
    NotRemovable(r.View(), 1, 1);
    err, lost := r.Unregister(1, true);
  }

  /** The only device on level 0 that is not on the inactive list is the head of that level's list. */
  lemma OnlyActive(s: State, d: nat)
    requires Valid(s) && d in s.devs && !s.devs[d].inactive && s.devs[d].level == 0
    requires forall x :: x in s.devs && x != d ==> s.devs[x].inactive
    ensures DevReady(s, d)
  {
    hide Families, Bridges, Minors, NoDup;
    var place := DevPlace(s.devs);
    assert place[d] == (0, false);
    var x := s.active[0][0];
    assert x in s.active[0];
    assert x in place && x in s.devs;
    assert place[x] == (s.devs[x].level, s.devs[x].inactive);
  }

  /** A bound on the depth of all buses. */
  ghost function Room(buses: map<nat, Bus>): (room: nat)
    ensures forall b :: b in buses ==> buses[b].depth < room
    decreases |buses|
  {
    if buses == map[] then 0
    else
      var b :| b in buses;
      assert forall x :: x in buses && x != b ==> x in buses - {b};
      var rest := Room(buses - {b});
      if buses[b].depth < rest then rest else buses[b].depth + 1
  }
}
