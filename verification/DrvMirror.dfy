/**
 The two views of the manager agree: a state of the initialisation sweep mirrors a registry, and every step of the sweep
 and every registration takes both to states that mirror each other, the registry staying valid.
 */
module DrvMirror {
  import opened Options
  import opened DrvTree
  import opened DrvEnrol
  import opened DrvLevels
  import I = DrvInit

  // ---------------------------------------------------------------- lists

  function Obj(bus: bool, x: nat): I.Obj {
    if bus then I.Bus(x) else I.Dev(x)
  }

  function Objs(bus: bool, l: seq<nat>): (r: seq<I.Obj>)
    ensures |r| == |l| && forall i :: 0 <= i < |l| ==> r[i] == Obj(bus, l[i])
  {
    seq(|l|, i requires 0 <= i < |l| => Obj(bus, l[i]))
  }

  /** The lists of all levels. */
  predicate SameLists(bus: bool, lists: I.Lists, active: seq<seq<nat>>) {
    |lists| == |active| == LEVELS && forall k :: 0 <= k < LEVELS ==> lists[k] == Objs(bus, active[k])
  }

  lemma ObjsTail(bus: bool, l: seq<nat>)
    requires l != []
    ensures Objs(bus, l)[0] == Obj(bus, l[0]) && Objs(bus, l[1..]) == Objs(bus, l)[1..]
  {}

  lemma ObjsMore(bus: bool, l: seq<nat>, x: nat)
    ensures Objs(bus, l + [x]) == Objs(bus, l) + [Obj(bus, x)]
    ensures Objs(bus, [x] + l) == [Obj(bus, x)] + Objs(bus, l)
  {}

  lemma ListsPopped(bus: bool, lists: I.Lists, active: seq<seq<nat>>, k: nat)
    requires SameLists(bus, lists, active) && k < LEVELS && active[k] != []
    ensures lists[k] != [] && SameLists(bus, lists[k := lists[k][1..]], Popped(active, k))
  {
    hide Objs, Obj;
    ObjsTail(bus, active[k]);
  }

  lemma ListsPushed(bus: bool, lists: I.Lists, active: seq<seq<nat>>, k: nat, x: nat)
    requires SameLists(bus, lists, active) && k < LEVELS
    ensures SameLists(bus, lists[k := lists[k] + [Obj(bus, x)]], active[k := active[k] + [x]])
  {
    hide Objs, Obj;
    ObjsMore(bus, active[k], x);
  }

  lemma ListsRaised(bus: bool, lists: I.Lists, active: seq<seq<nat>>, k: nat, x: nat)
    requires SameLists(bus, lists, active) && k + 1 < LEVELS && Heads(active, k, x)
    ensures lists[k] != []
    ensures var popped := lists[k := lists[k][1..]];
            SameLists(bus, popped[k + 1 := popped[k + 1] + [Obj(bus, x)]], Raised(active, k))
  {
    hide Objs, Obj;
    ListsPopped(bus, lists, active, k);
    ListsPushed(bus, lists[k := lists[k][1..]], Popped(active, k), k + 1, x);
  }

  // ---------------------------------------------------------------- records

  function DepOf(parent: Option<nat>): Option<I.Obj> {
    match parent
    case None => None
    case Some(b) => Some(I.Bus(b))
  }

  predicate DevAs(i: I.Info, dev: Dev) {
    i.level == dev.level && (dev.inactive <==> i.failed || !i.active) && i.dep == DepOf(dev.parent)
  }

  predicate BusAs(i: I.Info, bus: Bus) {
    i.level == bus.level && (bus.inactive <==> i.failed || !i.active) && i.dep == Some(I.Dev(bus.bridge))
  }

  ghost predicate Records(info: map<I.Obj, I.Info>, devs: map<nat, Dev>, buses: map<nat, Bus>) {
    && (forall d :: d in devs <==> I.Dev(d) in info)
    && (forall b :: b in buses <==> I.Bus(b) in info)
    && (forall d :: d in devs ==> DevAs(info[I.Dev(d)], devs[d]))
    && (forall b :: b in buses ==> BusAs(info[I.Bus(b)], buses[b]))
  }

  lemma RecordsDev(info: map<I.Obj, I.Info>, devs: map<nat, Dev>, buses: map<nat, Bus>, d: nat, i: I.Info, dev: Dev)
    requires Records(info, devs, buses) && DevAs(i, dev)
    ensures Records(info[I.Dev(d) := i], devs[d := dev], buses)
  {
    hide DevAs, BusAs;
  }

  lemma RecordsBus(info: map<I.Obj, I.Info>, devs: map<nat, Dev>, buses: map<nat, Bus>, b: nat, i: I.Info, bus: Bus)
    requires Records(info, devs, buses) && BusAs(i, bus)
    ensures Records(info[I.Bus(b) := i], devs, buses[b := bus])
  {
    hide DevAs, BusAs;
  }

  /** The bus a device exports is not part of its record. */
  lemma RecordsBridge(info: map<I.Obj, I.Info>, devs: map<nat, Dev>, buses: map<nat, Bus>, d: nat, bus: Option<nat>)
    requires Records(info, devs, buses) && d in devs
    ensures Records(info, devs[d := devs[d].(bus := bus)], buses)
  {
    hide BusAs;
  }

  /** The same objects, on the same lists in the same order, at the same levels. */
  ghost predicate Mirrors(m: I.State, s: State) {
    && SameLists(false, m.devices, s.active) && m.idleDevices == Objs(false, s.inactive)
    && SameLists(true, m.buses, s.busActive) && m.idleBuses == Objs(true, s.busInactive)
    && Records(m.info, s.devs, s.buses)
  }

  // ---------------------------------------------------------------- a step of the sweep

  /** The object at the head of its list is taken towards the next level. */
  predicate Takes(m: I.State, e: I.Event) {
    && |m.buses| == |m.devices| == LEVELS && 1 <= e.level < LEVELS && e.o in m.info
    && m.info[e.o].level == e.level - 1 && !m.info[e.o].failed && m.info[e.o].active
    && var l := (if e.o.Bus? then m.buses else m.devices)[e.level - 1]; l != [] && l[0] == e.o
  }

  function Swept(m: I.State, e: I.Event): I.State
    requires Takes(m, e)
  {
    I.Settle(I.Pop(m, e.o.Bus?, e.level - 1), e)
  }

  /** The object is ready in the registry too. */
  predicate Ready(s: State, e: I.Event) {
    && 1 <= e.level < LEVELS
    && if e.o.Bus? then BusReady(s, e.o.id) && s.buses[e.o.id].level == e.level - 1
       else DevReady(s, e.o.id) && s.devs[e.o.id].level == e.level - 1
  }

  /** The same step on the registry. */
  function Moved(s: State, e: I.Event): State
    requires Ready(s, e)
  {
    if e.o.Bus? then if I.Fails(e) then BusAside(s, e.o.id) else RaiseBus(s, e.o.id)
    else if I.Fails(e) then DevAside(s, e.o.id) else RaiseDev(s, e.o.id)
  }

  lemma ReadyThere(m: I.State, s: State, e: I.Event)
    requires Mirrors(m, s) && Takes(m, e)
    ensures Ready(s, e)
  {
    var k := e.level - 1;
    if e.o.Bus? {
      assert m.buses[k][0] == Obj(true, s.busActive[k][0]);
    } else {
      assert m.devices[k][0] == Obj(false, s.active[k][0]);
    }
    hide Records;
    RecordLevel(m, s, e.o);
  }

  lemma RecordLevel(m: I.State, s: State, o: I.Obj)
    requires Records(m.info, s.devs, s.buses) && o in m.info
    ensures if o.Bus? then o.id in s.buses && BusAs(m.info[o], s.buses[o.id])
            else o.id in s.devs && DevAs(m.info[o], s.devs[o.id])
  {
    hide DevAs, BusAs;
    assert o == Obj(o.Bus?, o.id);
  }

  /** What a step does to a device, on both sides. */
  lemma DevStep(m: I.State, s: State, e: I.Event)
    requires Mirrors(m, s) && Takes(m, e) && e.o.Dev? && Ready(s, e)
    ensures Mirrors(Swept(m, e), Moved(s, e))
  {
    hide Records, SameLists, Objs;
    var k, d := e.level - 1, e.o.id;
    var i := Swept(m, e).info[e.o];
    RecordLevel(m, s, e.o);
    assert Obj(false, d) == e.o == I.Dev(d);
    if I.Fails(e) {
      ListsPopped(false, m.devices, s.active, k);
      ObjsMore(false, s.inactive, d);
      RecordsDev(m.info, s.devs, s.buses, d, i, s.devs[d].(inactive := true));
    } else {
      ListsRaised(false, m.devices, s.active, k, d);
      RecordsDev(m.info, s.devs, s.buses, d, i, s.devs[d].(level := k + 1));
    }
  }

  lemma BusStep(m: I.State, s: State, e: I.Event)
    requires Mirrors(m, s) && Takes(m, e) && e.o.Bus? && Ready(s, e)
    ensures Mirrors(Swept(m, e), Moved(s, e))
  {
    hide Records, SameLists, Objs;
    var k, b := e.level - 1, e.o.id;
    var i := Swept(m, e).info[e.o];
    RecordLevel(m, s, e.o);
    assert Obj(true, b) == e.o == I.Bus(b);
    if I.Fails(e) {
      ListsPopped(true, m.buses, s.busActive, k);
      ObjsMore(true, s.busInactive, b);
      RecordsBus(m.info, s.devs, s.buses, b, i, s.buses[b].(inactive := true));
    } else {
      ListsRaised(true, m.buses, s.busActive, k, b);
      RecordsBus(m.info, s.devs, s.buses, b, i, s.buses[b].(level := k + 1));
    }
  }

  /** Every step of the sweep is a move in the registry, which stays valid. */
  lemma StepMirrored(m: I.State, s: State, e: I.Event)
    requires Mirrors(m, s) && Valid(s) && Takes(m, e)
    ensures Ready(s, e) && Mirrors(Swept(m, e), Moved(s, e)) && Valid(Moved(s, e))
  {
    hide Valid, Mirrors, Swept, Takes;
    ReadyThere(m, s, e);
    if e.o.Bus? {
      BusStep(m, s, e);
      if I.Fails(e) { BusAsideValid(s, e.o.id); } else { RaiseBusValid(s, e.o.id); }
    } else {
      DevStep(m, s, e);
      if I.Fails(e) { DevAsideValid(s, e.o.id); } else { RaiseDevValid(s, e.o.id); }
    }
  }

  // ---------------------------------------------------------------- registrations

  /** Registering a device does the same to both. */
  lemma DevMirrored(m: I.State, s: State, d: nat, dev: Dev, ci: nat, di: nat)
    requires Mirrors(m, s) && Valid(s) && Fits(s, d, dev, ci, di) && |m.buses| == |m.devices| == LEVELS
    ensures Mirrors(I.Registered(m, I.Dev(d), DepOf(dev.parent), !dev.inactive), Enrolled(s, d, dev, ci, di))
    ensures Valid(Enrolled(s, d, dev, ci, di))
  {
    hide Valid, Records, SameLists, Objs, Insert, BusFits, DrvFits;
    EnrolledValid(s, d, dev, ci, di);
    ListsPushed(false, m.devices, s.active, 0, d);
    ObjsMore(false, s.inactive, d);
    assert Obj(false, d) == I.Dev(d);
    RecordsDev(m.info, s.devs, s.buses, d, I.Info(DepOf(dev.parent), 0, false, !dev.inactive), dev);
  }

  /** Registering a bus does the same to both. */
  lemma BusMirrored(m: I.State, s: State, b: nat, bridge: nat)
    requires Mirrors(m, s) && Valid(s) && b !in s.buses && bridge in s.devs && s.devs[bridge].bus == None
    requires |m.buses| == |m.devices| == |s.busActive| == LEVELS
    ensures Mirrors(I.Registered(m, I.Bus(b), Some(I.Dev(bridge)), true), Attached(s, b, bridge))
    ensures Valid(Attached(s, b, bridge))
  {
    hide Valid, Records, SameLists, Objs;
    AttachedValid(s, b, bridge);
    ListsPushed(true, m.buses, s.busActive, 0, b);
    assert Obj(true, b) == I.Bus(b);
    RecordsBridge(m.info, s.devs, s.buses, bridge, Some(b));
    RecordsBus(m.info, Attached(s, b, bridge).devs, s.buses, b, I.Info(Some(I.Dev(bridge)), 0, false, true),
               Bus(bridge, Depth(s, bridge), 0, false));
  }

  /** What an init function registers while its object is off the lists could have been registered just before. */
  lemma RegisteredFirst(m: I.State, buses: bool, k: nat, o: I.Obj, dep: Option<I.Obj>, active: bool)
    requires |m.buses| == |m.devices| == LEVELS && k < LEVELS
    requires if buses then m.buses[k] != [] else m.devices[k] != []
    ensures var r := I.Registered(m, o, dep, active);
            && |r.buses| == |r.devices| == LEVELS && (if buses then r.buses[k] != [] else r.devices[k] != [])
            && I.Registered(I.Pop(m, buses, k), o, dep, active) == I.Pop(r, buses, k)
  {
    var r := I.Registered(m, o, dep, active);
    var a, b := I.Registered(I.Pop(m, buses, k), o, dep, active), I.Pop(r, buses, k);
    if buses {
      assert (m.buses[k] + [o])[1..] == m.buses[k][1..] + [o];
    } else {
      assert (m.devices[k] + [o])[1..] == m.devices[k][1..] + [o];
    }
    assert a.buses == b.buses && a.devices == b.devices;
  }
}
