/**
 The initialisation scheduler of drvmgr.c: buses and devices are taken level by level to the level of
 the manager while their init functions register more of both.
 */
module DrvInit {
  import opened Options

  const LEVEL_MAX := 4

  datatype Obj = Bus(id: nat) | Dev(id: nat)

  /**
   `dep` is what the object hangs on: a device's parent bus (none for the root), a bus's bridge device. A device without
   a driver, or one the user wants skipped, is not `active`.
   */
  datatype Info = Info(dep: Option<Obj>, level: nat, failed: bool, active: bool)

  /** `Blocked`: the object it hangs on has failed; `Skipped`: there is no init function for the level. */
  datatype Outcome = Blocked | Skipped | Ran(ok: bool)

  /** One `do_bus_init` or `do_dev_init`; `registered` counts objects its init function put on level 0 lists. */
  datatype Event = Event(o: Obj, dep: Option<Obj>, level: nat, outcome: Outcome, registered: nat)

  type Lists = seq<seq<Obj>>

  datatype State = State(buses: Lists, devices: Lists, idleBuses: seq<Obj>, idleDevices: seq<Obj>,
                         info: map<Obj, Info>, trace: seq<Event>)

  // ---------------------------------------------------------------- traces

  predicate Fails(e: Event) {
    e.outcome == Blocked || e.outcome == Ran(false)
  }

  /** Objects whose failure has been recorded. */
  function Failed(tr: seq<Event>): set<Obj> {
    if tr == [] then {}
    else Failed(tr[..|tr| - 1]) + (if Fails(tr[|tr| - 1]) then {tr[|tr| - 1].o} else {})
  }

  /** What failed is not taken up again, and an object is blocked exactly if what it hangs on has failed before. */
  predicate Clean(tr: seq<Event>) {
    tr != [] ==>
      var e, before := tr[|tr| - 1], tr[..|tr| - 1];
      && Clean(before)
      && e.o !in Failed(before) && (e.outcome == Blocked <==> e.dep.Some? && e.dep.value in Failed(before))
  }

  /** The levels object `o` was taken towards, in order. */
  function Attempts(tr: seq<Event>, o: Obj): seq<nat> {
    if tr == [] then []
    else Attempts(tr[..|tr| - 1], o) + (if tr[|tr| - 1].o == o then [tr[|tr| - 1].level] else [])
  }

  function Upto(n: nat): seq<nat> {
    seq(n, i => i + 1)
  }

  /** After the last device, a bus beyond its first init registered something. */
  predicate Late(tr: seq<Event>) {
    tr != [] &&
      var e := tr[|tr| - 1];
      e.o.Bus? && ((e.level >= 2 && e.registered > 0) || Late(tr[..|tr| - 1]))
  }

  lemma TraceSnoc(tr: seq<Event>, e: Event)
    ensures Failed(tr + [e]) == Failed(tr) + (if Fails(e) then {e.o} else {})
    ensures Clean(tr + [e]) <==>
              Clean(tr) && e.o !in Failed(tr) && (e.outcome == Blocked <==> e.dep.Some? && e.dep.value in Failed(tr))
    ensures forall o :: Attempts(tr + [e], o) == Attempts(tr, o) + (if e.o == o then [e.level] else [])
    ensures Late(tr + [e]) <==> e.o.Bus? && ((e.level >= 2 && e.registered > 0) || Late(tr))
  {
    assert (tr + [e])[..|tr|] == tr;
  }

  // ---------------------------------------------------------------- lists

  function Total(lists: Lists): multiset<Obj> {
    if lists == [] then multiset{} else Total(lists[1..]) + multiset(lists[0])
  }

  lemma {:induction false} TotalUpdate(lists: Lists, k: nat, l: seq<Obj>)
    requires k < |lists|
    ensures Total(lists[k := l]) + multiset(lists[k]) == Total(lists) + multiset(l)
  {
    if k == 0 {
      assert lists[0 := l][1..] == lists[1..];
    } else {
      assert lists[k := l][1..] == lists[1..][k - 1 := l];
      TotalUpdate(lists[1..], k - 1, l);
      var t, t' := Total(lists[1..]), Total(lists[1..][k - 1 := l]);
      assert lists[k := l][0] == lists[0] && lists[1..][k - 1] == lists[k];
      assert (t' + multiset(lists[0])) + multiset(lists[k]) == (t' + multiset(lists[k])) + multiset(lists[0]);
      assert (t + multiset(lists[0])) + multiset(l) == (t + multiset(l)) + multiset(lists[0]);
    }
  }

  lemma {:induction false} InTotal(lists: Lists, k: nat, i: nat)
    requires k < |lists| && i < |lists[k]|
    ensures lists[k][i] in Total(lists)
  {
    if k > 0 { InTotal(lists[1..], k - 1, i); }
  }

  /** Levels still to be climbed by the objects on the lists. */
  function Work(lists: Lists, top: nat): nat {
    if lists == [] || top == 0 then 0 else top * |lists[0]| + Work(lists[1..], top - 1)
  }

  lemma {:induction false} WorkUpdate(lists: Lists, k: nat, l: seq<Obj>, top: nat)
    requires k < |lists|
    ensures k >= top ==> Work(lists[k := l], top) == Work(lists, top)
    ensures k < top ==> Work(lists[k := l], top) == Work(lists, top) + (top - k) * (|l| - |lists[k]|)
    decreases k
  {
    if k == 0 {
      assert lists[0 := l][1..] == lists[1..];
    } else if top > 0 {
      assert lists[k := l][1..] == lists[1..][k - 1 := l];
      WorkUpdate(lists[1..], k - 1, l, top - 1);
    }
  }

  // ---------------------------------------------------------------- the invariant

  ghost predicate OnLevel(lists: Lists, info: map<Obj, Info>, buses: bool) {
    forall k, i :: 0 <= k < |lists| && 0 <= i < |lists[k]| ==>
      var o := lists[k][i];
      o.Bus? == buses && o in info && info[o].level == k && !info[o].failed && info[o].active
  }

  /** Only failed and inactive objects are put aside. */
  ghost predicate Aside(l: seq<Obj>, info: map<Obj, Info>) {
    forall i :: 0 <= i < |l| ==> l[i] in info && (info[l[i]].failed || !info[l[i]].active)
  }

  ghost function Everywhere(s: State): multiset<Obj> {
    Total(s.buses) + Total(s.devices) + multiset(s.idleBuses) + multiset(s.idleDevices)
  }

  ghost predicate History(info: map<Obj, Info>, tr: seq<Event>) {
    && Clean(tr)
    && (forall o :: o !in info ==> Attempts(tr, o) == [] && o !in Failed(tr))
    && (forall o :: o in info ==>
          && (info[o].failed <==> o in Failed(tr))
          && Attempts(tr, o) == Upto(info[o].level + if info[o].failed then 1 else 0))
  }

  /**
   Every registered object is on exactly one list, once, or is the one in flight; an object on list k has
   reached level k and has not failed, and one put aside has failed or is inactive; the trace is clean and
   every object was taken towards consecutive levels, once each.
   */
  ghost predicate Inv(s: State, flight: multiset<Obj>) {
    && |s.buses| == |s.devices| == LEVEL_MAX + 1
    && Everywhere(s) + flight == multiset(s.info.Keys)
    && OnLevel(s.buses, s.info, true) && OnLevel(s.devices, s.info, false)
    && Aside(s.idleBuses, s.info) && Aside(s.idleDevices, s.info)
    && (forall o :: o in flight ==> o in s.info && s.info[o].active)
    && History(s.info, s.trace)
    && (forall o :: o in s.info && s.info[o].dep.Some? ==> s.info[o].dep.value in s.info)
  }

  lemma InvLists(s: State, flight: multiset<Obj>)
    requires Inv(s, flight)
    ensures |s.buses| == |s.devices| == LEVEL_MAX + 1
  {
  }

  /** The list an object belongs on. */
  function Push(s: State, o: Obj, k: nat): State
    requires |s.buses| == |s.devices| == LEVEL_MAX + 1 && k <= LEVEL_MAX
  {
    if o.Bus? then s.(buses := s.buses[k := s.buses[k] + [o]]) else s.(devices := s.devices[k := s.devices[k] + [o]])
  }

  /** Removing the head of a list. */
  function Pop(s: State, buses: bool, k: nat): State
    requires |s.buses| == |s.devices| == LEVEL_MAX + 1 && k <= LEVEL_MAX
    requires if buses then s.buses[k] != [] else s.devices[k] != []
  {
    if buses then s.(buses := s.buses[k := s.buses[k][1..]]) else s.(devices := s.devices[k := s.devices[k][1..]])
  }

  /** Dropping the head of list `k` takes exactly that object away. */
  lemma PopTotal(lists: Lists, k: nat)
    requires k < |lists| && lists[k] != []
    ensures Total(lists[k := lists[k][1..]]) + multiset{lists[k][0]} == Total(lists)
  {
    TotalUpdate(lists, k, lists[k][1..]);
    assert lists[k] == [lists[k][0]] + lists[k][1..];
    var t := Total(lists[k := lists[k][1..]]);
    assert multiset(lists[k]) == multiset{lists[k][0]} + multiset(lists[k][1..]);
    Cancel(t + multiset{lists[k][0]}, Total(lists), multiset(lists[k][1..]));
  }

  lemma PushTotal(lists: Lists, k: nat, o: Obj)
    requires k < |lists|
    ensures Total(lists[k := lists[k] + [o]]) == Total(lists) + multiset{o}
  {
    TotalUpdate(lists, k, lists[k] + [o]);
    Cancel(Total(lists[k := lists[k] + [o]]), Total(lists) + multiset{o}, multiset(lists[k]));
  }

  lemma Cancel(a: multiset<Obj>, b: multiset<Obj>, c: multiset<Obj>)
    requires a + c == b + c
    ensures a == b
  {
    forall o ensures a[o] == b[o] { assert (a + c)[o] == (b + c)[o]; }
  }

  lemma PopInv(s: State, buses: bool, k: nat)
    requires Inv(s, multiset{}) && k <= LEVEL_MAX
    requires if buses then s.buses[k] != [] else s.devices[k] != []
    ensures var o := if buses then s.buses[k][0] else s.devices[k][0];
            o in s.info && o.Bus? == buses && s.info[o].level == k && !s.info[o].failed && s.info[o].active
            && Inv(Pop(s, buses, k), multiset{o})
  {
    hide History, Total;
    PopTotal(if buses then s.buses else s.devices, k);
    var s' := Pop(s, buses, k);
    var o := if buses then s.buses[k][0] else s.devices[k][0];
    assert Everywhere(s') + multiset{o} == Everywhere(s);
    assert OnLevel(s'.buses, s'.info, true) && OnLevel(s'.devices, s'.info, false);
  }

  /** Recording one attempt of `o` towards its next level. */
  function Record(s: State, e: Event): State
    requires e.o in s.info
  {
    var was := s.info[e.o];
    var now := if Fails(e) then was.(failed := true) else was.(level := e.level);
    s.(info := s.info[e.o := now], trace := s.trace + [e])
  }

  lemma RecordHistory(s: State, e: Event)
    requires e.o in s.info && History(s.info, s.trace)
    requires !s.info[e.o].failed && e.level == s.info[e.o].level + 1 && e.dep == s.info[e.o].dep
    requires e.dep.Some? ==> e.dep.value in s.info
    requires e.outcome == Blocked <==> e.dep.Some? && s.info[e.dep.value].failed
    ensures History(Record(s, e).info, Record(s, e).trace)
  {
    hide Failed, Clean, Attempts;
    TraceSnoc(s.trace, e);
    assert Upto(e.level - 1) + [e.level] == Upto(e.level);
  }

  /** Taking the object in flight to its next level, or to the inactive list. */
  function Settle(s: State, e: Event): State
    requires |s.buses| == |s.devices| == LEVEL_MAX + 1 && e.level <= LEVEL_MAX && e.o in s.info
  {
    var r := Record(s, e);
    if !Fails(e) then Push(r, e.o, e.level)
    else if e.o.Bus? then r.(idleBuses := [e.o] + r.idleBuses)
    else r.(idleDevices := [e.o] + r.idleDevices)
  }

  /** The object in flight is on no list. */
  lemma FlightOff(s: State, o: Obj)
    requires Inv(s, multiset{o})
    ensures o in s.info && o !in Total(s.buses) && o !in Total(s.devices)
  {
    var all := multiset(s.info.Keys);
    assert all[o] == (Everywhere(s) + multiset{o})[o];
    assert o in all;
  }

  /** Changing the record of an object that is on no list leaves the lists in order. */
  lemma OnLevelKept(lists: Lists, info: map<Obj, Info>, buses: bool, o: Obj, i: Info)
    requires OnLevel(lists, info, buses) && o !in Total(lists)
    ensures OnLevel(lists, info[o := i], buses)
  {
    forall k, j | 0 <= k < |lists| && 0 <= j < |lists[k]| ensures lists[k][j] != o {
      InTotal(lists, k, j);
    }
  }

  lemma AsideKept(l: seq<Obj>, info: map<Obj, Info>, o: Obj, i: Info)
    requires Aside(l, info)
    requires o in info ==> (info[o].failed || !info[o].active ==> i.failed || !i.active)
    ensures Aside(l, info[o := i])
  {
  }

  lemma AsideMore(l: seq<Obj>, info: map<Obj, Info>, o: Obj, i: Info)
    requires Aside(l, info) && (o in info ==> (info[o].failed || !info[o].active ==> i.failed || !i.active))
    ensures i.failed || !i.active ==> Aside([o] + l, info[o := i]) && Aside(l + [o], info[o := i])
  {
  }

  lemma PushInv(s: State, o: Obj, k: nat)
    requires |s.buses| == |s.devices| == LEVEL_MAX + 1 && k <= LEVEL_MAX
    requires OnLevel(s.buses, s.info, true) && OnLevel(s.devices, s.info, false)
    requires o in s.info && s.info[o].level == k && !s.info[o].failed && s.info[o].active
    ensures var s' := Push(s, o, k);
            && OnLevel(s'.buses, s'.info, true) && OnLevel(s'.devices, s'.info, false)
            && Everywhere(s') == Everywhere(s) + multiset{o}
  {
    hide Total;
    if o.Bus? { PushTotal(s.buses, k, o); } else { PushTotal(s.devices, k, o); }
  }

  lemma SettleInv(s: State, e: Event)
    requires Inv(s, multiset{e.o}) && e.o in s.info && e.level <= LEVEL_MAX
    requires !s.info[e.o].failed && e.level == s.info[e.o].level + 1 && e.dep == s.info[e.o].dep
    requires e.outcome == Blocked <==> e.dep.Some? && s.info[e.dep.value].failed
    ensures Inv(Settle(s, e), multiset{})
  {
    hide History, Everywhere, OnLevel, Push, Aside;
    var r := Record(s, e);
    FiledInv(s, r, e.o);
    RecordHistory(s, e);
    if !Fails(e) {
      PushInv(r, e.o, e.level);
      PushFrame(r, e.o, e.level);
    } else {
      IdlePlaces(r, e.o);
    }
  }

  /** With the new record, the object still on no list. */
  lemma FiledInv(s: State, r: State, o: Obj)
    requires Inv(s, multiset{o}) && o in s.info && o in r.info && !s.info[o].failed && s.info[o].active
    requires r == s.(info := s.info[o := r.info[o]], trace := r.trace)
    ensures OnLevel(r.buses, r.info, true) && OnLevel(r.devices, r.info, false)
    ensures Aside(r.idleBuses, r.info) && Aside(r.idleDevices, r.info)
    ensures r.info[o].failed ==> Aside([o] + r.idleBuses, r.info) && Aside([o] + r.idleDevices, r.info)
    ensures Everywhere(r) + multiset{o} == multiset(r.info.Keys)
  {
    hide History, Everywhere, OnLevel, Aside;
    AsideKept(s.idleBuses, s.info, o, r.info[o]);
    AsideKept(s.idleDevices, s.info, o, r.info[o]);
    AsideMore(s.idleBuses, s.info, o, r.info[o]);
    AsideMore(s.idleDevices, s.info, o, r.info[o]);
    FlightOff(s, o);
    OnLevelKept(s.buses, s.info, true, o, r.info[o]);
    OnLevelKept(s.devices, s.info, false, o, r.info[o]);
    assert r.info.Keys == s.info.Keys;
    SamePlaces(s, r);
  }

  lemma SamePlaces(s: State, r: State)
    requires r.buses == s.buses && r.devices == s.devices && r.idleBuses == s.idleBuses &&
             r.idleDevices == s.idleDevices
    ensures Everywhere(r) == Everywhere(s)
  {
  }

  lemma IdlePlaces(s: State, o: Obj)
    ensures Everywhere(s.(idleBuses := [o] + s.idleBuses)) == Everywhere(s) + multiset{o}
    ensures Everywhere(s.(idleDevices := [o] + s.idleDevices)) == Everywhere(s) + multiset{o}
    ensures Everywhere(s.(idleDevices := s.idleDevices + [o])) == Everywhere(s) + multiset{o}
  {
    hide Total;
  }

  lemma PushFrame(s: State, o: Obj, k: nat)
    requires |s.buses| == |s.devices| == LEVEL_MAX + 1 && k <= LEVEL_MAX
    ensures Push(s, o, k) == s.(buses := Push(s, o, k).buses, devices := Push(s, o, k).devices)
    ensures |Push(s, o, k).buses| == |Push(s, o, k).devices| == LEVEL_MAX + 1
  {
  }

  /** A new object: on level 0, or inactive when no driver takes it or the user asked to skip it. */
  function Registered(s: State, o: Obj, dep: Option<Obj>, active: bool): State
    requires |s.buses| == |s.devices| == LEVEL_MAX + 1
  {
    var r := s.(info := s.info[o := Info(dep, 0, false, active)]);
    if active then Push(r, o, 0) else r.(idleDevices := r.idleDevices + [o])
  }

  lemma RegisteredInv(s: State, o: Obj, dep: Option<Obj>, active: bool, flight: multiset<Obj>)
    requires Inv(s, flight) && o !in s.info && (dep.Some? ==> dep.value in s.info) && (o.Bus? ==> active)
    ensures Inv(Registered(s, o, dep, active), flight)
  {
    hide History, Everywhere, OnLevel, Push, Aside;
    var r := s.(info := s.info[o := Info(dep, 0, false, active)]);
    RecordedInv(s, r, o, flight);
    RegisteredHistory(s, o, dep, active);
    if active {
      PushInv(r, o, 0);
      PushFrame(r, o, 0);
    } else {
      IdlePlaces(r, o);
    }
  }

  /** With the new object known but on no list yet. */
  lemma RecordedInv(s: State, r: State, o: Obj, flight: multiset<Obj>)
    requires Inv(s, flight) && o !in s.info && o in r.info && r == s.(info := s.info[o := r.info[o]])
    ensures OnLevel(r.buses, r.info, true) && OnLevel(r.devices, r.info, false)
    ensures Aside(r.idleBuses, r.info) && Aside(r.idleDevices, r.info)
    ensures !r.info[o].active ==> Aside(r.idleDevices + [o], r.info)
    ensures Everywhere(r) + flight + multiset{o} == multiset(r.info.Keys)
  {
    hide History, Everywhere, OnLevel, Aside;
    AsideKept(s.idleBuses, s.info, o, r.info[o]);
    AsideKept(s.idleDevices, s.info, o, r.info[o]);
    AsideMore(s.idleDevices, s.info, o, r.info[o]);
    NotPlaced(s, o, flight);
    OnLevelKept(s.buses, s.info, true, o, r.info[o]);
    OnLevelKept(s.devices, s.info, false, o, r.info[o]);
    SamePlaces(s, r);
    assert r.info.Keys == s.info.Keys + {o};
    assert multiset(r.info.Keys) == multiset(s.info.Keys) + multiset{o};
  }

  lemma NotPlaced(s: State, o: Obj, flight: multiset<Obj>)
    requires Everywhere(s) + flight == multiset(s.info.Keys) && o !in s.info
    ensures o !in Total(s.buses) && o !in Total(s.devices)
  {
    hide Total;
    assert o !in multiset(s.info.Keys) && o !in Everywhere(s) + flight;
  }

  lemma RegisteredHistory(s: State, o: Obj, dep: Option<Obj>, active: bool)
    requires History(s.info, s.trace) && o !in s.info
    ensures History(s.info[o := Info(dep, 0, false, active)], s.trace)
  {
    hide Failed, Clean, Attempts;
    assert Upto(0) == [];
  }

  // ---------------------------------------------------------------- progress

  /** Levels to climb by present objects, and one more than that for each registration still to come. */
  function Effort(s: State, top: nat, budget: nat): nat {
    budget * (top + 1) + Work(s.buses, top) + Work(s.devices, top)
  }

  lemma PopEffort(s: State, buses: bool, k: nat, top: nat, budget: nat)
    requires |s.buses| == |s.devices| == LEVEL_MAX + 1 && k < top <= LEVEL_MAX
    requires if buses then s.buses[k] != [] else s.devices[k] != []
    ensures Effort(Pop(s, buses, k), top, budget) + (top - k) == Effort(s, top, budget)
  {
    hide Work;
    var lists := if buses then s.buses else s.devices;
    WorkUpdate(lists, k, lists[k][1..], top);
    assert (top - k) * (|lists[k][1..]| - |lists[k]|) == -(top - k);
  }

  lemma PushEffort(s: State, o: Obj, k: nat, top: nat, budget: nat)
    requires |s.buses| == |s.devices| == LEVEL_MAX + 1 && k <= top <= LEVEL_MAX
    ensures Effort(Push(s, o, k), top, budget) == Effort(s, top, budget) + (top - k)
  {
    hide Work;
    var lists := if o.Bus? then s.buses else s.devices;
    WorkUpdate(lists, k, lists[k] + [o], top);
    assert (top - k) * (|lists[k] + [o]| - |lists[k]|) == top - k;
  }

  lemma SettleEffort(s: State, e: Event, top: nat, budget: nat)
    requires |s.buses| == |s.devices| == LEVEL_MAX + 1 && e.o in s.info && e.level <= top <= LEVEL_MAX
    ensures Effort(Settle(s, e), top, budget) <= Effort(s, top, budget) + (top - e.level)
  {
    hide Work;
    if !Fails(e) { PushEffort(Record(s, e), e.o, e.level, top, budget); }
  }

  lemma RegisteredEffort(s: State, o: Obj, dep: Option<Obj>, active: bool, top: nat, budget: nat)
    requires |s.buses| == |s.devices| == LEVEL_MAX + 1 && top <= LEVEL_MAX && 0 < budget
    ensures Effort(Registered(s, o, dep, active), top, budget - 1) < Effort(s, top, budget)
  {
    hide Work;
    var r := s.(info := s.info[o := Info(dep, 0, false, active)]);
    if active { PushEffort(r, o, 0, top, budget - 1); }
    assert budget * (top + 1) == (budget - 1) * (top + 1) + (top + 1);
  }

  // ---------------------------------------------------------------- what callbacks may do

  /** From `s` to `s'` objects were only registered, `n` of them as candidates for initialisation. */
  ghost predicate Grown(s: State, s': State, n: nat)
    requires |s.buses| == |s.devices| == |s'.buses| == |s'.devices| == LEVEL_MAX + 1
  {
    && s'.trace == s.trace
    && (forall o :: o in s.info ==> o in s'.info && s'.info[o] == s.info[o])
    && (forall k :: 1 <= k <= LEVEL_MAX ==> s'.buses[k] == s.buses[k] && s'.devices[k] == s.devices[k])
    && s.buses[0] <= s'.buses[0] && s.devices[0] <= s'.devices[0]
    && n == |s'.buses[0]| - |s.buses[0]| + |s'.devices[0]| - |s.devices[0]|
  }

  lemma GrownRegister(s: State, s': State, n: nat, o: Obj, dep: Option<Obj>, active: bool)
    requires |s.buses| == |s.devices| == |s'.buses| == |s'.devices| == LEVEL_MAX + 1
    requires Grown(s, s', n) && o !in s'.info
    ensures Grown(s, Registered(s', o, dep, active), if active then n + 1 else n)
  {
  }

  /** One registration by an init function. */
  datatype New = New(o: Obj, dep: Obj, driver: bool, ignored: bool)

  /** An init function: what it registers, and whether it succeeds. It is called once at most, so this is all of it. */
  datatype Plan = Plan(objs: seq<New>, ok: bool)

  /** Which objects have an init function for which level, and what these do. */
  datatype Drivers = Drivers(inits: (Obj, nat) -> bool, plan: (Obj, nat) -> Plan)

  predicate Candidate(w: New) {
    w.o.Bus? || (w.driver && !w.ignored)
  }

  /** The event is what the object's init function does. */
  predicate Obeys(d: Drivers, e: Event) {
    && (e.outcome.Ran? ==> d.inits(e.o, e.level) && e.outcome.ok == d.plan(e.o, e.level).ok)
    && (e.outcome == Skipped ==> !d.inits(e.o, e.level))
    && (e.registered > 0 ==> e.outcome.Ran? && d.plan(e.o, e.level).objs != [])
  }

  ghost predicate Planned(p: Plan, x: Obj) {
    exists i :: 0 <= i < |p.objs| && p.objs[i].o == x
  }

  /** Object `x` was registered in the event. */
  ghost predicate Brings(d: Drivers, e: Event, x: Obj) {
    Planned(d.plan(e.o, e.level), x) && (x.Bus? ==> e.registered > 0)
  }

  /** An init function that registered no candidate had none to begin with, or could not register it. */
  predicate Tried(d: Drivers, known: map<Obj, Info>, info: map<Obj, Info>, budget: nat, e: Event) {
    var objs := d.plan(e.o, e.level).objs;
    e.outcome.Ran? && e.registered == 0 && objs != [] && Candidate(objs[0]) ==>
      objs[0].o in info || objs[0].dep !in known || budget == 0
  }

  /** No object is forgotten, hangs on something else, or becomes active or inactive. */
  ghost predicate Kept(known: map<Obj, Info>, info: map<Obj, Info>) {
    forall o :: o in known ==> o in info && info[o].active == known[o].active && info[o].dep == known[o].dep
  }

  /**
   From event `from` on, with the objects `known` before it, everything that ran and was registered is what the init
   functions do, and none of it is above `level`.
   */
  ghost predicate Account(d: Drivers, known: map<Obj, Info>, level: nat, s: State, from: nat, budget: nat) {
    && from <= |s.trace| && Kept(known, s.info)
    && (forall i :: from <= i < |s.trace| ==>
          Obeys(d, s.trace[i]) && Tried(d, known, s.info, budget, s.trace[i]) && s.trace[i].level <= level)
    && (forall x :: x in s.info && x !in known ==> exists i :: from <= i < |s.trace| && Brings(d, s.trace[i], x))
  }

  lemma AccountBegin(d: Drivers, level: nat, s: State, budget: nat)
    ensures Account(d, s.info, level, s, |s.trace|, budget)
  {
  }

  lemma AccountPop(d: Drivers, known: map<Obj, Info>, level: nat, s: State, from: nat, budget: nat, buses: bool, k: nat)
    requires Account(d, known, level, s, from, budget)
    requires |s.buses| == |s.devices| == LEVEL_MAX + 1 && k <= LEVEL_MAX
    requires if buses then s.buses[k] != [] else s.devices[k] != []
    ensures Account(d, known, level, Pop(s, buses, k), from, budget) && Kept(known, Pop(s, buses, k).info)
  {
    hide Obeys, Brings, Tried;
  }

  /** What one event adds to the account; `mid` is the state before the object is filed. */
  ghost predicate Entry(d: Drivers, known: map<Obj, Info>, level: nat, s: State, mid: State, budget: nat, e: Event) {
    && mid.trace == s.trace && Kept(s.info, mid.info) && e.level <= level
    && Obeys(d, e) && Tried(d, known, mid.info, budget, e)
    && forall x :: x in mid.info && x !in s.info ==> Brings(d, e, x)
  }

  lemma AccountStep(d: Drivers, known: map<Obj, Info>, level: nat, s: State, from: nat, budget: nat, mid: State,
                    budget': nat, e: Event)
    requires Account(d, known, level, s, from, budget) && budget' <= budget
    requires |mid.buses| == |mid.devices| == LEVEL_MAX + 1 && e.level <= LEVEL_MAX && e.o in mid.info
    requires Entry(d, known, level, s, mid, budget', e)
    ensures Account(d, known, level, Settle(mid, e), from, budget')
  {
    hide Obeys, Brings, Tried, Settle;
    SettleBelow(mid, e);
    SettleKeys(mid, e);
    SettleKept(mid, e);
    var s' := Settle(mid, e);
    AccountEvents(d, known, level, s, from, budget, mid, budget', e);
    forall i | from <= i < |s'.trace|
      ensures Tried(d, known, s'.info, budget', s'.trace[i])
    {
      TriedKeys(d, known, mid.info, s'.info, budget', s'.trace[i]);
    }
  }

  lemma DepKnown(s: State, flight: multiset<Obj>, o: Obj)
    requires Inv(s, flight) && o in s.info
    ensures |s.buses| == |s.devices| == LEVEL_MAX + 1
    ensures s.info[o].dep.Some? ==> s.info[o].dep.value in s.info
  {
    hide Everywhere, OnLevel, History, Aside;
  }

  lemma GrownKept(s: State, s': State, n: nat)
    requires |s.buses| == |s.devices| == |s'.buses| == |s'.devices| == LEVEL_MAX + 1 && Grown(s, s', n)
    ensures s'.trace == s.trace && forall o :: o in s.info ==> o in s'.info && s'.info[o] == s.info[o]
  {}

  lemma GrownNothing(s: State)
    requires |s.buses| == |s.devices| == LEVEL_MAX + 1
    ensures Grown(s, s, 0)
  {}

  /** An event in which an init function ran. */
  lemma EntryRan(d: Drivers, known: map<Obj, Info>, level: nat, s: State, mid: State, budget: nat, e: Event)
    requires mid.trace == s.trace && e.level <= level && e.outcome.Ran? && Kept(known, s.info)
    requires forall o :: o in s.info ==> o in mid.info && mid.info[o] == s.info[o]
    requires d.inits(e.o, e.level) && e.outcome.ok == d.plan(e.o, e.level).ok
    requires e.registered > 0 ==> d.plan(e.o, e.level).objs != []
    requires forall x :: x in mid.info && x !in s.info ==>
               Planned(d.plan(e.o, e.level), x) && (x.Bus? ==> e.registered > 0)
    requires var objs := d.plan(e.o, e.level).objs;
             e.registered == 0 && objs != [] && Candidate(objs[0]) ==>
               objs[0].o in mid.info || objs[0].dep !in s.info || budget == 0
    ensures Entry(d, known, level, s, mid, budget, e)
  {
    hide Planned;
  }

  /** An event in which none did. */
  lemma EntryIdle(d: Drivers, known: map<Obj, Info>, level: nat, s: State, budget: nat, e: Event)
    requires e.level <= level && !e.outcome.Ran? && e.registered == 0
    requires e.outcome == Skipped ==> !d.inits(e.o, e.level)
    ensures Entry(d, known, level, s, s, budget, e)
  {}

  lemma TriedKeys(d: Drivers, known: map<Obj, Info>, info: map<Obj, Info>, info': map<Obj, Info>, budget: nat, e: Event)
    requires Tried(d, known, info, budget, e) && info.Keys <= info'.Keys
    ensures Tried(d, known, info', budget, e)
  {}

  lemma TriedLater(d: Drivers, known: map<Obj, Info>, info: map<Obj, Info>, info': map<Obj, Info>, budget: nat,
                   budget': nat, e: Event)
    requires Tried(d, known, info, budget, e) && budget' <= budget && forall x :: x in info ==> x in info'
    ensures Tried(d, known, info', budget', e)
  {}

  /** The events with the new one, and what they bring. */
  lemma AccountEvents(d: Drivers, known: map<Obj, Info>, level: nat, s: State, from: nat, budget: nat, mid: State,
                      budget': nat, e: Event)
    requires Account(d, known, level, s, from, budget) && budget' <= budget
    requires Entry(d, known, level, s, mid, budget', e)
    ensures var tr := s.trace + [e];
            && Kept(known, mid.info)
            && (forall i :: from <= i < |tr| ==>
                  Obeys(d, tr[i]) && Tried(d, known, mid.info, budget', tr[i]) && tr[i].level <= level)
            && forall x :: x in mid.info && x !in known ==> exists i :: from <= i < |tr| && Brings(d, tr[i], x)
  {
    hide Obeys, Brings, Tried;
    var tr := s.trace + [e];
    forall i | from <= i < |tr|
      ensures Tried(d, known, mid.info, budget', tr[i])
    {
      if i < |s.trace| { TriedLater(d, known, s.info, mid.info, budget, budget', tr[i]); }
    }
    forall x | x in mid.info && x !in known
      ensures exists i :: from <= i < |tr| && Brings(d, tr[i], x)
    {
      if x in s.info {
        var i :| from <= i < |s.trace| && Brings(d, s.trace[i], x);
        assert tr[i] == s.trace[i];
      } else {
        assert Brings(d, tr[|s.trace|], x);
      }
    }
  }

  // ---------------------------------------------------------------- sweeps

  ghost predicate EmptyBelow(s: State, k: nat)
    requires |s.buses| == |s.devices| == LEVEL_MAX + 1 && k <= LEVEL_MAX
  {
    forall j :: 0 <= j < k ==> s.buses[j] == [] && s.devices[j] == []
  }

  /** The sweep that began with event `from` has reached level `k`. */
  ghost predicate Swept(s: State, k: nat, from: nat)
    requires |s.buses| == |s.devices| == LEVEL_MAX + 1 && k <= LEVEL_MAX && from <= |s.trace|
  {
    if Late(s.trace[from..]) then 1 <= k && (s.buses[0] != [] || s.devices[0] != []) else EmptyBelow(s, k)
  }

  lemma SweepStep(s: State, k: nat, from: nat, mid: State, e: Event)
    requires |s.buses| == |s.devices| == |mid.buses| == |mid.devices| == LEVEL_MAX + 1
    requires k < LEVEL_MAX && from <= |s.trace| && e.level == k + 1 && e.o in mid.info
    requires if e.o.Bus? then s.buses[k] != [] else s.devices[k] != []
    requires Grown(Pop(s, e.o.Bus?, k), mid, e.registered)
    ensures e.o.Bus? && Swept(s, k, from) ==> Swept(Settle(mid, e), k, from)
    ensures e.o.Dev? ==> Swept(Settle(mid, e), 0, from)
  {
    hide Late, Settle;
    var s' := Settle(mid, e);
    SettleBelow(mid, e);
    assert s'.trace[from..] == s.trace[from..] + [e];
    TraceSnoc(s.trace[from..], e);
  }

  lemma SweepBegin(s: State)
    requires |s.buses| == |s.devices| == LEVEL_MAX + 1
    ensures Swept(s, 0, |s.trace|)
  {
    assert s.trace[|s.trace|..] == [];
  }

  lemma SweepOn(s: State, k: nat, from: nat)
    requires |s.buses| == |s.devices| == LEVEL_MAX + 1 && k < LEVEL_MAX && from <= |s.trace|
    requires Swept(s, k, from) && s.buses[k] == [] && s.devices[k] == []
    ensures Swept(s, k + 1, from)
  {
  }

  lemma SweepEnd(s: State, k: nat, from: nat)
    requires |s.buses| == |s.devices| == LEVEL_MAX + 1 && 1 <= k <= LEVEL_MAX && from <= |s.trace|
    requires Swept(s, k, from)
    ensures EmptyBelow(s, k) <==> !Late(s.trace[from..])
  {
  }

  lemma SettleBelow(s: State, e: Event)
    requires |s.buses| == |s.devices| == LEVEL_MAX + 1 && e.level <= LEVEL_MAX && e.o in s.info
    ensures var s' := Settle(s, e);
      && |s'.buses| == |s'.devices| == LEVEL_MAX + 1 && s'.trace == s.trace + [e]
      && forall j :: 0 <= j < e.level ==> s'.buses[j] == s.buses[j] && s'.devices[j] == s.devices[j]
  {
  }

  // ---------------------------------------------------------------- the manager

  lemma EmptyInv(s: State)
    requires s.buses == s.devices == [[], [], [], [], []] && s.idleBuses == s.idleDevices == [] && s.info == map[] &&
             s.trace == []
    ensures Inv(s, multiset{})
  {
    TotalEmpty(s.buses);
    TotalEmpty(s.devices);
  }

  lemma {:induction false} TotalEmpty(ls: Lists)
    requires forall k :: 0 <= k < |ls| ==> ls[k] == []
    ensures Total(ls) == multiset{}
  {
    if ls != [] { TotalEmpty(ls[1..]); }
  }

  class Manager {
    var level: nat
    var initializing: bool
    var buses: Lists
    var devices: Lists
    var idleBuses: seq<Obj>
    var idleDevices: seq<Obj>
    var info: map<Obj, Info>
    ghost var trace: seq<Event>
    /** Registrations that may still happen. */
    var budget: nat
    const drivers: Drivers

    ghost function View(): State
      reads this
    {
      State(buses, devices, idleBuses, idleDevices, info, trace)
    }

    ghost predicate Valid(flight: multiset<Obj>)
      reads this
    {
      level <= LEVEL_MAX && Inv(View(), flight) && (initializing || flight == multiset{})
    }

    ghost function Left(): nat
      reads this
    {
      Effort(View(), level, budget)
    }

    constructor (budget: nat, drivers: Drivers)
      ensures Valid(multiset{}) && level == 0 && !initializing && info == map[] && trace == []
      ensures this.budget == budget && this.drivers == drivers
    {
      level, initializing, this.budget, this.drivers := 0, false, budget, drivers;
      buses, devices := [[], [], [], [], []], [[], [], [], [], []];
      idleBuses, idleDevices, info, trace := [], [], map[], [];
      new;
      hide Inv;
      EmptyInv(View());
    }

    /** Puts a new object on its list; the common part of `drvmgr_dev_register` and `drvmgr_bus_register`. */
    method Enlist(o: Obj, dep: Option<Obj>, active: bool, ghost flight: multiset<Obj>)
      requires Valid(flight) && 0 < budget
      requires o !in info && (dep.Some? ==> dep.value in info) && (o.Bus? ==> active)
      modifies this
      ensures View() == Registered(old(View()), o, dep, active)
      ensures Valid(flight) && level == old(level) && initializing == old(initializing)
      ensures budget == old(budget) - 1 && Left() < old(Left()) && budget + |info| == old(budget + |info|)
    {
      hide Everywhere, OnLevel, History, Effort;
      RegisteredInv(View(), o, dep, active, flight);
      RegisteredEffort(View(), o, dep, active, level, budget);
      info := info[o := Info(dep, 0, false, active)];
      if !active {
        idleDevices := idleDevices + [o];
      } else if o.Bus? {
        buses := buses[0 := buses[0] + [o]];
      } else {
        devices := devices[0 := devices[0] + [o]];
      }
      budget := budget - 1;
    }

    /** `drvmgr_dev_register`. A device without a driver, or one the user wants skipped, is inactive at once. */
    method DevRegister(o: Obj, parent: Option<Obj>, driver: bool, ignored: bool, ghost flight: multiset<Obj>)
      requires Valid(flight) && 0 < budget
      requires o.Dev? && o !in info && (parent.Some? ==> parent.value in info)
      modifies this
      ensures old(initializing) ==>
        && View() == Registered(old(View()), o, parent, driver && !ignored)
        && Valid(flight) && initializing && level == old(level)
        && budget == old(budget) - 1 && Left() < old(Left())
      ensures !old(initializing) ==> Valid(multiset{}) && !initializing && level == old(level) && o in info
      ensures budget + |info| == old(budget + |info|)
      ensures !old(initializing) && (parent.None? || !driver || level == 0) ==>
        View() == Registered(old(View()), o, parent, driver && !ignored) && budget == old(budget) - 1
      ensures !old(initializing) && parent.Some? && driver && level != 0 ==>
        && old(trace) <= trace && (EmptyBelow(View(), level) <==> !Late(trace[|old(trace)|..]))
        && (FirstOnly(drivers) ==> EmptyBelow(View(), level))
      decreases if initializing then 0 else 1, 2
    {
      hide Everywhere, OnLevel, History, Effort, EmptyBelow, Late, Account, FirstOnly;
      Enlist(o, parent, driver && !ignored, flight);
      if parent.Some? && driver {
        InitUpdate(flight);
      }
    }

    /** `drvmgr_bus_register` */
    method BusRegister(o: Obj, bridge: Obj, ghost flight: multiset<Obj>)
      requires Valid(flight) && 0 < budget
      requires o.Bus? && o !in info && bridge in info
      modifies this
      ensures old(initializing) ==>
        && View() == Registered(old(View()), o, Some(bridge), true)
        && Valid(flight) && initializing && level == old(level)
        && budget == old(budget) - 1 && Left() < old(Left())
      ensures !old(initializing) ==> Valid(multiset{}) && !initializing && level == old(level) && o in info
      ensures budget + |info| == old(budget + |info|)
      ensures !old(initializing) && level != 0 ==>
        && old(trace) <= trace && (EmptyBelow(View(), level) <==> !Late(trace[|old(trace)|..]))
        && (FirstOnly(drivers) ==> EmptyBelow(View(), level))
        && Account(drivers, old(info)[o := Info(Some(bridge), 0, false, true)], level, View(), |old(trace)|, budget)
      decreases if initializing then 0 else 1, 2
    {
      hide Everywhere, OnLevel, History, Effort, EmptyBelow, Late, Account, FirstOnly;
      Enlist(o, Some(bridge), true, flight);
      InitUpdate(flight);
    }

    /** The init function of object `f` for level `next`: it registers what it can, and succeeds or fails. */
    method Callback(f: Obj, next: nat, ghost flight: multiset<Obj>) returns (ok: bool, ghost n: nat)
      requires Valid(flight) && initializing
      modifies this
      ensures Valid(flight) && initializing && level == old(level)
      ensures budget <= old(budget) && budget + |info| == old(budget + |info|)
      ensures Grown(old(View()), View(), n) && Left() <= old(Left())
      ensures ok == drivers.plan(f, next).ok && (n > 0 ==> drivers.plan(f, next).objs != [])
      ensures forall x :: x in info && x !in old(info) ==> Planned(drivers.plan(f, next), x) && (x.Bus? ==> n > 0)
      ensures var objs := drivers.plan(f, next).objs;
        n == 0 && objs != [] && Candidate(objs[0]) ==> objs[0].o in info || objs[0].dep !in old(info) || budget == 0
      decreases 0, 3
    {
      hide Everywhere, OnLevel, History, Effort;
      var plan := drivers.plan(f, next);
      ok, n := plan.ok, 0;
      var i := 0;
      while i < |plan.objs|
        invariant 0 <= i <= |plan.objs|
        invariant Valid(flight) && initializing && level == old(level)
        invariant budget <= old(budget) && budget + |info| == old(budget + |info|)
        invariant Grown(old(View()), View(), n) && Left() <= old(Left())
        invariant n > 0 ==> i > 0
        invariant forall x :: x in info && x !in old(info) ==> Planned(plan, x) && (x.Bus? ==> n > 0)
        invariant i == 0 ==> info == old(info)
        invariant i > 0 && n == 0 && Candidate(plan.objs[0]) ==>
          plan.objs[0].o in info || plan.objs[0].dep !in old(info) || budget == 0
      {
        var w := plan.objs[i];
        if 0 < budget && w.o !in info && w.dep in info {
          ghost var before := View();
          assert Planned(plan, w.o);
          if w.o.Bus? {
            BusRegister(w.o, w.dep, flight);
          } else {
            DevRegister(w.o, Some(w.dep), w.driver, w.ignored, flight);
          }
          GrownRegister(old(View()), before, n, w.o, Some(w.dep), Candidate(w));
          n := if Candidate(w) then n + 1 else n;
        }
        i := i + 1;
      }
    }

    /** Files the object in flight under what became of it. */
    method File(o: Obj, next: nat, outcome: Outcome, ghost e: Event)
      requires Valid(multiset{o}) && initializing && next <= level
      requires o in info && !info[o].failed && next == info[o].level + 1
      requires e.o == o && e.dep == info[o].dep && e.level == next && e.outcome == outcome
      requires outcome == Blocked <==> e.dep.Some? && info[e.dep.value].failed
      modifies this
      ensures Valid(multiset{}) && initializing && level == old(level) && budget == old(budget) && |info| == old(|info|)
      ensures View() == Settle(old(View()), e) && Left() <= old(Left()) + (level - next)
    {
      hide Everywhere, OnLevel, History, Effort;
      SettleInv(View(), e);
      SettleEffort(View(), e, level, budget);
      trace := trace + [e];
      if outcome == Blocked || outcome == Ran(false) {
        info := info[o := info[o].(failed := true)];
        if o.Bus? {
          idleBuses := [o] + idleBuses;
        } else {
          idleDevices := [o] + idleDevices;
        }
      } else {
        info := info[o := info[o].(level := next)];
        if o.Bus? {
          buses := buses[next := buses[next] + [o]];
        } else {
          devices := devices[next := devices[next] + [o]];
        }
      }
    }

    /** `do_bus_init` and `do_dev_init`: take the object in flight towards level `next`. */
    method DoInit(o: Obj, next: nat, ghost known: map<Obj, Info>) returns (ghost mid: State, ghost e: Event)
      requires Valid(multiset{o}) && initializing && next <= level
      requires o in info && !info[o].failed && next == info[o].level + 1 && Kept(known, info)
      modifies this
      ensures Valid(multiset{}) && initializing && level == old(level)
      ensures |mid.buses| == |mid.devices| == LEVEL_MAX + 1 && Grown(old(View()), mid, e.registered)
      ensures e.o == o && e.level == next && o in mid.info && View() == Settle(mid, e)
      ensures e.dep == old(info[o].dep) && (e.outcome == Blocked <==> e.dep.Some? && old(info)[e.dep.value].failed)
      ensures e.outcome != Blocked ==> (e.outcome.Ran? <==> drivers.inits(o, next))
      ensures budget <= old(budget) && budget + |info| == old(budget + |info|)
      ensures Entry(drivers, known, level, old(View()), mid, budget, e)
      ensures Left() <= old(Left()) + (level - next)
      decreases 0, 4
    {
      hide Inv, Effort, Settle, Grown, Entry;
      var outcome;
      outcome, e := Attempt(o, next, known);
      mid := View();
      InvLists(mid, multiset{o});
      File(o, next, outcome, e);
    }

    /** The first half of it: the object it hangs on is looked at, and its init function called if there is one. */
    method Attempt(o: Obj, next: nat, ghost known: map<Obj, Info>) returns (outcome: Outcome, ghost e: Event)
      requires Valid(multiset{o}) && initializing && next <= level
      requires o in info && !info[o].failed && next == info[o].level + 1 && Kept(known, info)
      modifies this
      ensures Valid(multiset{o}) && initializing && level == old(level)
      ensures Grown(old(View()), View(), e.registered) && o in info && info[o] == old(info[o])
      ensures e.o == o && e.level == next && e.outcome == outcome && e.dep == old(info[o].dep)
      ensures e.dep.Some? ==> e.dep.value in info && info[e.dep.value] == old(info)[e.dep.value]
      ensures outcome == Blocked <==> e.dep.Some? && old(info)[e.dep.value].failed
      ensures outcome != Blocked ==> (outcome.Ran? <==> drivers.inits(o, next))
      ensures budget <= old(budget) && budget + |info| == old(budget + |info|)
      ensures Entry(drivers, known, level, old(View()), View(), budget, e) && Left() <= old(Left())
      decreases 0, 4, 0
    {
      hide Inv, Effort, Grown, Entry, Obeys, Tried, Planned;
      ghost var s := View();
      DepKnown(s, multiset{o}, o);
      var dep := info[o].dep;
      outcome := Skipped;
      ghost var n := 0;
      if dep.Some? && info[dep.value].failed {
        outcome := Blocked;
      } else {
        if drivers.inits(o, next) {
          var ok;
          ok, n := Callback(o, next, multiset{o});
          outcome := Ran(ok);
        }
      }
      e := Event(o, dep, next, outcome, n);
      if outcome.Ran? {
        InvLists(View(), multiset{o});
        GrownKept(s, View(), n);
        EntryRan(drivers, known, level, s, View(), budget, e);
      } else {
        GrownNothing(s);
        EntryIdle(drivers, known, level, s, budget, e);
      }
    }

    /** Takes every bus on list `k` to the next level, including those that join it on the way. */
    method DrainBuses(k: nat, ghost from: nat, ghost known: map<Obj, Info>)
      requires Valid(multiset{}) && initializing && k < level
      requires from <= |trace| && Swept(View(), k, from) && Account(drivers, known, level, View(), from, budget)
      modifies this
      ensures budget <= old(budget) && budget + |info| == old(budget + |info|)
      ensures Account(drivers, known, level, View(), from, budget)
      ensures Valid(multiset{}) && initializing && level == old(level)
      ensures old(trace) <= trace && old(info.Keys) <= info.Keys && Swept(View(), k, from)
      ensures buses[k] == [] && Left() <= old(Left())
      decreases 0, 5
    {
      hide Everywhere, OnLevel, History, Effort, Swept, Settle, Account, Entry;
      while buses[k] != []
        invariant Valid(multiset{}) && initializing && level == old(level)
        invariant budget <= old(budget) && budget + |info| == old(budget + |info|)
        invariant Account(drivers, known, level, View(), from, budget)
        invariant old(trace) <= trace && old(info.Keys) <= info.Keys && Swept(View(), k, from)
        invariant Left() <= old(Left())
        decreases Left()
      {
        ghost var before, left := View(), budget;
        var bus := buses[k][0];
        PopInv(before, true, k);
        PopEffort(before, true, k, level, budget);
        AccountPop(drivers, known, level, before, from, budget, true, k);
        buses := buses[k := buses[k][1..]];
        ghost var popped := View();
        ghost var mid, e := DoInit(bus, k + 1, known);
        SweepStep(before, k, from, mid, e);
        AccountStep(drivers, known, level, popped, from, left, mid, budget, e);
        SettleBelow(mid, e);
        SettleKeys(mid, e);
      }
    }

    /** The same for devices; any device processed makes the caller start over. */
    method DrainDevices(k: nat, ghost from: nat, ghost known: map<Obj, Info>) returns (any: bool)
      requires Valid(multiset{}) && initializing && k < level
      requires from <= |trace| && Account(drivers, known, level, View(), from, budget)
      modifies this
      ensures budget <= old(budget) && budget + |info| == old(budget + |info|)
      ensures Account(drivers, known, level, View(), from, budget)
      ensures Valid(multiset{}) && initializing && level == old(level)
      ensures old(trace) <= trace && old(info.Keys) <= info.Keys
      ensures !any ==> View() == old(View()) && devices[k] == [] && budget == old(budget)
      ensures any ==> Swept(View(), 0, from) && Left() < old(Left())
      decreases 0, 5
    {
      hide Everywhere, OnLevel, History, Effort, Swept, Settle, Account, Entry;
      any := false;
      while devices[k] != []
        invariant budget <= old(budget) && budget + |info| == old(budget + |info|)
        invariant Account(drivers, known, level, View(), from, budget)
        invariant Valid(multiset{}) && initializing && level == old(level)
        invariant old(trace) <= trace && old(info.Keys) <= info.Keys
        invariant !any ==> View() == old(View()) && budget == old(budget)
        invariant any ==> Swept(View(), 0, from) && Left() < old(Left())
        decreases Left()
      {
        ghost var before, left := View(), budget;
        var dev := devices[k][0];
        PopInv(before, false, k);
        PopEffort(before, false, k, level, budget);
        AccountPop(drivers, known, level, before, from, budget, false, k);
        devices := devices[k := devices[k][1..]];
        ghost var popped := View();
        ghost var mid, e := DoInit(dev, k + 1, known);
        SweepStep(before, k, from, mid, e);
        AccountStep(drivers, known, level, popped, from, left, mid, budget, e);
        SettleBelow(mid, e);
        SettleKeys(mid, e);
        any := true;
      }
    }

    /**
     `drvmgr_init_update`. It terminates, and when it is done every list below the manager's level is
     empty unless, after the last device, a bus beyond its first init registered something.
     */
    method InitUpdate(ghost flight: multiset<Obj>)
      requires Valid(flight)
      modifies this
      ensures old(initializing) || level == 0 ==>
        View() == old(View()) && budget == old(budget) && initializing == old(initializing)
      ensures level == old(level) && initializing == old(initializing) && budget + |info| == old(budget + |info|)
      ensures !initializing && level != 0 ==>
        && Valid(multiset{}) && old(trace) <= trace && old(info.Keys) <= info.Keys
        && (EmptyBelow(View(), level) <==> !Late(trace[|old(trace)|..]))
        && (FirstOnly(drivers) ==> EmptyBelow(View(), level))
        && Account(drivers, old(info), level, View(), |old(trace)|, budget)
      decreases if initializing then 0 else 1, 1
    {
      hide Inv, Effort, Swept, EmptyBelow, Late, Account, FirstOnly;
      if initializing || level == 0 {
        return;
      }
      initializing := true;
      InvLists(View(), flight);
      ghost var from, known := |trace|, info;
      AccountBegin(drivers, level, View(), budget);
      var k := 0;
      SweepBegin(View());
      while k < level
        invariant Valid(multiset{}) && initializing && level == old(level) && 0 <= k <= level
        invariant |buses| == |devices| == LEVEL_MAX + 1
        invariant old(trace) <= trace && old(info.Keys) <= info.Keys
        invariant Swept(View(), k, from)
        invariant budget <= old(budget) && budget + |info| == old(budget + |info|)
        invariant Account(drivers, known, level, View(), from, budget)
        decreases Left(), level - k
      {
        DrainBuses(k, from, known);
        var any := DrainDevices(k, from, known);
        InvLists(View(), multiset{});
        if any {
          k := -1;
        } else {
          SweepOn(View(), k, from);
        }
        k := k + 1;
      }
      SweepEnd(View(), k, from);
      if FirstOnly(drivers) { FirstInitOnly(drivers, known, level, View(), from, budget); }
      initializing := false;
    }

    /** `_DRV_Manager_init_level` */
    method InitLevel(next: nat)
      requires Valid(multiset{}) && !initializing && next <= LEVEL_MAX
      modifies this
      ensures Valid(multiset{}) && !initializing && level == (if old(level) >= next then old(level) else next)
      ensures old(trace) <= trace
      ensures old(level) < next ==> (EmptyBelow(View(), level) <==> !Late(trace[|old(trace)|..]))
      ensures old(level) < next && FirstOnly(drivers) ==> EmptyBelow(View(), level)
      ensures budget + |info| == old(budget + |info|) &&
              Account(drivers, old(info), level, View(), |old(trace)|, budget)
    {
      hide Inv, EmptyBelow, Late, Account, FirstOnly;
      InvLists(View(), multiset{});
      AccountBegin(drivers, level, View(), budget);
      if level >= next {
        return;
      }
      level := next;
      InitUpdate(multiset{});
      InvLists(View(), multiset{});
    }
  }

  lemma SettleKept(s: State, e: Event)
    requires |s.buses| == |s.devices| == LEVEL_MAX + 1 && e.level <= LEVEL_MAX && e.o in s.info
    ensures Kept(s.info, Settle(s, e).info)
  {
  }

  lemma SettleKeys(s: State, e: Event)
    requires |s.buses| == |s.devices| == LEVEL_MAX + 1 && e.level <= LEVEL_MAX && e.o in s.info
    ensures Settle(s, e).info.Keys == s.info.Keys
  {
  }

  /** Buses register in their first init function only, as the source's comment has it. */
  ghost predicate FirstOnly(d: Drivers) {
    forall o: Obj, l: nat :: o.Bus? && 2 <= l ==> d.plan(o, l).objs == []
  }

  lemma FirstInitOnly(d: Drivers, known: map<Obj, Info>, level: nat, s: State, from: nat, budget: nat)
    requires Account(d, known, level, s, from, budget) && FirstOnly(d)
    ensures !Late(s.trace[from..])
  {
    forall i | from <= i < |s.trace|
      ensures s.trace[i].o.Bus? && s.trace[i].registered > 0 ==> s.trace[i].level < 2
    {
      assert Obeys(d, s.trace[i]);
    }
    EarlyOnly(s.trace[from..]);
  }

  lemma {:induction false} EarlyOnly(tr: seq<Event>)
    requires forall i :: 0 <= i < |tr| ==> (tr[i].o.Bus? && tr[i].registered > 0 ==> tr[i].level < 2)
    ensures !Late(tr)
  {
    if tr != [] { EarlyOnly(tr[..|tr| - 1]); }
  }

  // ---------------------------------------------------------------- what the invariant means

  lemma {:induction false} AttemptsPrefix(tr: seq<Event>, o: Obj, i: nat)
    requires i <= |tr|
    ensures Attempts(tr[..i], o) <= Attempts(tr, o)
  {
    if i < |tr| {
      AttemptsPrefix(tr[..|tr| - 1], o, i);
      assert tr[..|tr| - 1][..i] == tr[..i];
    } else {
      assert tr[..i] == tr;
    }
  }

  /** The n-th time an object is taken up it is taken towards level n: consecutive levels, once each. */
  lemma Consecutive(s: State, flight: multiset<Obj>, j: nat)
    requires Inv(s, flight) && j < |s.trace|
    ensures s.trace[j].o in s.info && s.trace[j].level == |Attempts(s.trace[..j], s.trace[j].o)| + 1
  {
    hide Failed, Clean, Attempts, OnLevel, Everywhere, Aside;
    var tr, o := s.trace, s.trace[j].o;
    AttemptAt(tr, o, j);
    AttemptsPrefix(tr, o, j + 1);
    var all, b := Attempts(tr, o), Attempts(tr[..j + 1], o);
    assert |all| > 0 && all == Upto(|all|);
    assert b[|b| - 1] == all[|b| - 1];
  }

  /** So the next time is one level higher, and any later time is higher. */
  lemma Ascending(s: State, flight: multiset<Obj>, i: nat, j: nat)
    requires Inv(s, flight) && i < j < |s.trace| && s.trace[i].o == s.trace[j].o
    ensures 1 <= s.trace[i].level < s.trace[j].level
    ensures (forall k :: i < k < j ==> s.trace[k].o != s.trace[i].o) ==> s.trace[j].level == s.trace[i].level + 1
  {
    hide Inv, Attempts;
    var tr, o := s.trace, s.trace[i].o;
    Consecutive(s, flight, i);
    Consecutive(s, flight, j);
    AttemptAt(tr, o, i);
    AttemptsPrefix(tr[..j], o, i + 1);
    assert tr[..j][..i + 1] == tr[..i + 1];
    if forall k :: i < k < j ==> tr[k].o != o {
      NoAttempts(tr[..j], o, i + 1);
    }
  }

  lemma {:induction false} NoAttempts(tr: seq<Event>, o: Obj, i: nat)
    requires i <= |tr| && forall k :: i <= k < |tr| ==> tr[k].o != o
    ensures Attempts(tr, o) == Attempts(tr[..i], o)
  {
    if i < |tr| {
      NoAttempts(tr[..|tr| - 1], o, i);
      assert tr[..|tr| - 1][..i] == tr[..i];
    } else {
      assert tr[..i] == tr;
    }
  }

  lemma AttemptAt(tr: seq<Event>, o: Obj, i: nat)
    requires i < |tr| && tr[i].o == o
    ensures Attempts(tr[..i + 1], o) == Attempts(tr[..i], o) + [tr[i].level]
  {
    assert tr[..i + 1][..i] == tr[..i];
  }

  lemma {:induction false} FailedPrefix(tr: seq<Event>, i: nat)
    requires i < |tr| && Fails(tr[i])
    ensures tr[i].o in Failed(tr)
  {
    if i < |tr| - 1 { FailedPrefix(tr[..|tr| - 1], i); }
  }

  lemma {:induction false} CleanPrefix(tr: seq<Event>, j: nat)
    requires j <= |tr| && Clean(tr)
    ensures Clean(tr[..j])
  {
    if j < |tr| {
      CleanPrefix(tr[..|tr| - 1], j);
      assert tr[..|tr| - 1][..j] == tr[..j];
    } else {
      assert tr[..j] == tr;
    }
  }

  /** Once an object has failed it is never taken up again, and whatever hangs on it is blocked from then on. */
  lemma NeverAfterFailure(s: State, flight: multiset<Obj>, i: nat, j: nat)
    requires Inv(s, flight) && i < j < |s.trace| && Fails(s.trace[i])
    ensures s.trace[j].o != s.trace[i].o
    ensures s.trace[j].dep == Some(s.trace[i].o) ==> s.trace[j].outcome == Blocked
  {
    hide Attempts, OnLevel, Everywhere;
    CleanPrefix(s.trace, j + 1);
    assert s.trace[..j + 1][..j] == s.trace[..j];
    FailedPrefix(s.trace[..j], i);
  }

  lemma {:induction false} FailedAt(tr: seq<Event>, o: Obj) returns (i: nat)
    requires o in Failed(tr)
    ensures i < |tr| && Fails(tr[i]) && tr[i].o == o
  {
    if Fails(tr[|tr| - 1]) && tr[|tr| - 1].o == o {
      i := |tr| - 1;
    } else {
      i := FailedAt(tr[..|tr| - 1], o);
    }
  }

  /** An object is blocked only by an earlier failure of what it hangs on. */
  lemma BlockedByFailure(s: State, flight: multiset<Obj>, j: nat) returns (i: nat)
    requires Inv(s, flight) && j < |s.trace| && s.trace[j].outcome == Blocked
    ensures i < j && Fails(s.trace[i]) && s.trace[j].dep == Some(s.trace[i].o)
  {
    hide Attempts, OnLevel, Everywhere;
    CleanPrefix(s.trace, j + 1);
    assert s.trace[..j + 1][..j] == s.trace[..j];
    i := FailedAt(s.trace[..j], s.trace[j].dep.value);
  }

  /** A registered object is in exactly one place, which its record tells: aside, or on the list of its level. */
  lemma OnePlace(s: State, flight: multiset<Obj>, o: Obj)
    requires Inv(s, flight)
    ensures (Everywhere(s) + flight)[o] == if o in s.info then 1 else 0
    ensures o in s.info && o !in flight && s.info[o].active && !s.info[o].failed ==>
      var lists := if o.Bus? then s.buses else s.devices;
      s.info[o].level <= LEVEL_MAX && o in lists[s.info[o].level]
  {
    assert (Everywhere(s) + flight)[o] == multiset(s.info.Keys)[o];
    if o in s.info && o !in flight && s.info[o].active && !s.info[o].failed {
      assert o !in s.idleBuses && o !in s.idleDevices;
      hide Total, History;
      assert o in Total(s.buses) || o in Total(s.devices);
      if o in Total(s.buses) {
        var k, i := TotalAt(s.buses, o);
      } else {
        var k, i := TotalAt(s.devices, o);
      }
    }
  }

  lemma {:induction false} TotalAt(lists: Lists, o: Obj) returns (k: nat, i: nat)
    requires o in Total(lists)
    ensures k < |lists| && i < |lists[k]| && lists[k][i] == o
  {
    if o in lists[0] {
      k, i :| k == 0 && 0 <= i < |lists[0]| && lists[0][i] == o;
    } else {
      k, i := TotalAt(lists[1..], o);
      k := k + 1;
    }
  }

  // ---------------------------------------------------------------- a run that leaves something behind

  /** An active object that has not failed has reached the level below which all lists are empty. */
  lemma Reached(s: State, level: nat, o: Obj)
    requires Inv(s, multiset{}) && level <= LEVEL_MAX && EmptyBelow(s, level)
    requires o in s.info && s.info[o].active && !s.info[o].failed
    ensures level <= s.info[o].level && s.info[o].level == |Attempts(s.trace, o)|
  {
    hide Everywhere, OnLevel, Aside;
    OnePlace(s, multiset{}, o);
  }

  /** If no init function fails, no object does. */
  lemma {:induction false} NoFailure(tr: seq<Event>)
    requires Clean(tr) && forall i :: 0 <= i < |tr| ==> tr[i].outcome != Ran(false)
    ensures Failed(tr) == {}
  {
    if tr != [] { NoFailure(tr[..|tr| - 1]); }
  }

  /** A bus past its first init that registers something, and no device after it. */
  lemma {:induction false} LateAt(tr: seq<Event>, j: nat)
    requires j < |tr| && 2 <= tr[j].level && tr[j].registered > 0 && forall i :: j <= i < |tr| ==> tr[i].o.Bus?
    ensures Late(tr)
  {
    if j < |tr| - 1 { LateAt(tr[..|tr| - 1], j); }
  }

  const ROOT := Dev(0)
  const BUS := Bus(0)
  const LATE := Bus(1)

  /** All init functions exist and succeed; only the second one of `BUS` registers anything, the bus `LATE`. */
  function SecondInit(): Drivers {
    Drivers((o, l) => true, (o, l) => Plan(if o == BUS && l == 2 then [New(LATE, ROOT, true, false)] else [], true))
  }

  predicate Expected(e: Event) {
    && e.outcome != Ran(false) && (e.outcome != Blocked ==> e.outcome.Ran?)
    && (e.registered > 0 ==> e.o == BUS && e.level == 2)
  }

  lemma ExpectedEvents(known: map<Obj, Info>, s: State, from: nat, budget: nat)
    requires Account(SecondInit(), known, 2, s, from, budget)
    ensures forall i :: from <= i < |s.trace| ==> Expected(s.trace[i]) && s.trace[i].level <= 2
  {
    forall i | from <= i < |s.trace|
      ensures Expected(s.trace[i])
    {
      assert Obeys(SecondInit(), s.trace[i]);
    }
  }

  /** Under these drivers init functions bring `LATE` only, and `BUS` brings it in its second init. */
  lemma OnlyLate(known: map<Obj, Info>, s: State, from: nat, budget: nat, x: Obj) returns (i: nat)
    requires Account(SecondInit(), known, 2, s, from, budget) && x in s.info && x !in known
    ensures x == LATE && from <= i < |s.trace| && s.trace[i].o == BUS && s.trace[i].level == 2 &&
            s.trace[i].registered > 0
  {
    i :| from <= i < |s.trace| && Brings(SecondInit(), s.trace[i], x);
  }

  const ROOTED := Info(None, 0, false, true)
  const BRIDGED := Info(Some(ROOT), 0, false, true)

  lemma OnlyRoot(s: State, budget: nat, x: Obj)
    requires Inv(s, multiset{}) && Account(SecondInit(), map[ROOT := ROOTED], 2, s, 0, budget) && x in s.info
    ensures x == ROOT
  {
    hide Inv, Account, SecondInit;
    if x != ROOT {
      var i := OnlyLate(map[ROOT := ROOTED], s, 0, budget, x);
      Consecutive(s, multiset{}, i);
      i := OnlyLate(map[ROOT := ROOTED], s, 0, budget, BUS);
    }
  }

  /** With the root device alone, a sweep to level 2 takes it there. */
  lemma RootUp(s: State, budget: nat)
    requires Inv(s, multiset{}) && Account(SecondInit(), map[ROOT := ROOTED], 2, s, 0, budget)
    requires EmptyBelow(s, 2) <==> !Late(s.trace)
    ensures s.info.Keys == {ROOT} && s.info[ROOT].active && 2 <= |Attempts(s.trace, ROOT)|
  {
    assert Kept(map[ROOT := ROOTED], s.info) && History(s.info, s.trace) && |s.buses| == |s.devices| == LEVEL_MAX + 1;
    hide Inv, Account, SecondInit, EmptyBelow, Late, Attempts;
    ExpectedEvents(map[ROOT := ROOTED], s, 0, budget);
    forall x | x in s.info
      ensures x == ROOT
    {
      OnlyRoot(s, budget, x);
    }
    forall i | 0 <= i < |s.trace|
      ensures s.trace[i].registered == 0
    {
      Consecutive(s, multiset{}, i);
    }
    EarlyOnly(s.trace);
    NoFailure(s.trace);
    Reached(s, 2, ROOT);
  }

  /** All events after the root has come up are about buses. */
  lemma OnlyBuses(s: State, t: State, budget: nat, i: nat)
    requires Inv(s, multiset{}) && Inv(t, multiset{}) && s.trace <= t.trace && |s.trace| <= i < |t.trace|
    requires s.info.Keys == {ROOT} && 2 <= |Attempts(s.trace, ROOT)|
    requires Account(SecondInit(), s.info[BUS := BRIDGED], 2, t, |s.trace|, budget)
    ensures t.trace[i].o.Bus?
  {
    hide Inv, Account, SecondInit, Expected;
    var known, from := s.info[BUS := BRIDGED], |s.trace|;
    ExpectedEvents(known, t, from, budget);
    Consecutive(t, multiset{}, i);
    var o := t.trace[i].o;
    if o == ROOT {
      assert t.trace[..i][..from] == s.trace;
      AttemptsPrefix(t.trace[..i], ROOT, from);
    } else if o != BUS {
      var j := OnlyLate(known, t, from, budget, o);
    }
  }

  lemma {:induction false} NthAttempt(tr: seq<Event>, o: Obj, n: nat) returns (j: nat)
    requires n < |Attempts(tr, o)|
    ensures j < |tr| && tr[j].o == o && |Attempts(tr[..j], o)| == n
  {
    var before := tr[..|tr| - 1];
    if n < |Attempts(before, o)| {
      j := NthAttempt(before, o, n);
      assert before[..j] == tr[..j];
    } else {
      j := |tr| - 1;
    }
  }

  /** The bus comes to its second init, after the root has come up, and no init function fails. */
  lemma SecondOfBus(s: State, t: State) returns (j: nat)
    requires Inv(s, multiset{}) && Inv(t, multiset{}) && s.trace <= t.trace && EmptyBelow(t, 2) && BUS !in s.info
    requires BUS in t.info && t.info[BUS].active && forall i :: 0 <= i < |t.trace| ==> Expected(t.trace[i])
    ensures |s.trace| <= j < |t.trace| && t.trace[j].o == BUS && t.trace[j].level == 2 && t.trace[j].outcome.Ran?
  {
    assert History(t.info, t.trace);
    hide Inv, EmptyBelow;
    NoFailure(t.trace);
    Reached(t, 2, BUS);
    j := NthAttempt(t.trace, BUS, 1);
    Consecutive(t, multiset{}, j);
    if j < |s.trace| { Consecutive(s, multiset{}, j); }
    if t.trace[j].outcome == Blocked { FailedPrefix(t.trace, j); }
  }

  lemma AccountAt(d: Drivers, known: map<Obj, Info>, level: nat, s: State, from: nat, budget: nat, i: nat)
    requires Account(d, known, level, s, from, budget) && from <= i < |s.trace|
    ensures Obeys(d, s.trace[i]) && Tried(d, known, s.info, budget, s.trace[i])
  {
  }

  /** Then it registers the other bus. */
  lemma LateEvent(s: State, t: State, budget: nat) returns (j: nat)
    requires Inv(s, multiset{}) && Inv(t, multiset{}) && s.trace <= t.trace && budget > 0
    requires s.info.Keys == {ROOT} && forall i :: 0 <= i < |s.trace| ==> Expected(s.trace[i])
    requires Account(SecondInit(), s.info[BUS := BRIDGED], 2, t, |s.trace|, budget) && EmptyBelow(t, 2)
    ensures |s.trace| <= j < |t.trace| && t.trace[j].level == 2 && t.trace[j].registered > 0
  {
    var known, from := s.info[BUS := BRIDGED], |s.trace|;
    assert Kept(known, t.info);
    hide Inv, EmptyBelow, Account, Expected, SecondInit, Tried;
    ExpectedEvents(known, t, from, budget);
    if LATE in t.info {
      j := OnlyLate(known, t, from, budget, LATE);
    } else {
      j := SecondOfBus(s, t);
      AccountAt(SecondInit(), known, 2, t, from, budget, j);
      Registers(known, t.info, budget, t.trace[j]);
    }
  }

  lemma Registers(known: map<Obj, Info>, info: map<Obj, Info>, budget: nat, e: Event)
    requires Tried(SecondInit(), known, info, budget, e) && LATE !in info && ROOT in known && budget > 0
    requires e.o == BUS && e.level == 2 && e.outcome.Ran?
    ensures e.registered > 0
  {
  }

  /**
   The bus registered after the root has come up goes up alone, and what its second init registers is not taken up.
   */
  lemma LeftBehind(s: State, t: State, budget: nat)
    requires Inv(s, multiset{}) && Inv(t, multiset{}) && s.trace <= t.trace && budget > 0
    requires s.info.Keys == {ROOT} && 2 <= |Attempts(s.trace, ROOT)|
    requires forall i :: 0 <= i < |s.trace| ==> Expected(s.trace[i])
    requires Account(SecondInit(), s.info[BUS := BRIDGED], 2, t, |s.trace|, budget)
    requires EmptyBelow(t, 2) <==> !Late(t.trace[|s.trace|..])
    ensures !EmptyBelow(t, 2)
  {
    hide Inv, Account, EmptyBelow, Late, Expected, Attempts, SecondInit;
    InvLists(t, multiset{});
    var from := |s.trace|;
    if EmptyBelow(t, 2) {
      var j := LateEvent(s, t, budget);
      forall i | from <= i < |t.trace|
        ensures t.trace[i].o.Bus?
      {
        OnlyBuses(s, t, budget, i);
      }
      LateAt(t.trace[from..], j - from);
    }
  }

  /**
   A run of the manager that leaves a bus on list 0: the root device comes up to level 2, then a bus is registered whose
   second init function registers another.
   */
  method LateBusRun() returns (m: Manager)
    ensures m.Valid(multiset{}) && m.level == 2 && !m.initializing && !EmptyBelow(m.View(), m.level)
  {
    hide Inv, Account, EmptyBelow, Late, Expected, Attempts, SecondInit;
    m := new Manager(4, SecondInit());
    m.DevRegister(ROOT, None, true, false, multiset{});
    assert m.info == map[ROOT := ROOTED] && m.trace == [];
    m.InitLevel(2);
    ghost var s := m.View();
    assert m.trace[0..] == m.trace;
    RootUp(s, m.budget);
    ExpectedEvents(map[ROOT := ROOTED], s, 0, m.budget);
    m.BusRegister(BUS, ROOT, multiset{});
    FewObjects(s, m.View(), m.budget);
    LeftBehind(s, m.View(), m.budget);
  }

  lemma FewObjects(s: State, t: State, budget: nat)
    requires s.info.Keys == {ROOT} && Account(SecondInit(), s.info[BUS := BRIDGED], 2, t, |s.trace|, budget)
    ensures |t.info| <= 3
  {
    forall x | x in t.info
      ensures x in {ROOT, BUS, LATE}
    {
      if x != ROOT && x != BUS {
        var i := OnlyLate(s.info[BUS := BRIDGED], t, |s.trace|, budget, x);
      }
    }
    SubsetCount(t.info.Keys, {ROOT, BUS, LATE});
  }

  lemma {:induction false} SubsetCount(a: set<Obj>, b: set<Obj>)
    requires a <= b
    ensures |a| <= |b|
  {
    if a != {} {
      var x :| x in a;
      SubsetCount(a - {x}, b - {x});
    }
  }
}
