/**
 drvmgr_for_each_dev.c, depth first: a walk over the linked device tree that keeps no stack and finds its
 way back up through the parent pointers.
 */
module DrvWalk {
  import opened Options

  /** A device: the bus it exports, the next device on its own bus, and that bus. */
  datatype Dev = Dev(bus: Option<nat>, next: Option<nat>, parent: nat)

  datatype Bus = Bus(children: Option<nat>, dev: nat)

  /** The linked structure. The root device is not on any bus; its bus is `rootBus`. */
  datatype World = World(devs: map<nat, Dev>, buses: map<nat, Bus>, root: nat, rootBus: nat)

  datatype Tree = Node(dev: nat, kids: seq<Tree>)

  /** The list that starts at `first` on bus `bus` holds the trees `ts`. */
  ghost predicate Holds(w: World, ts: seq<Tree>, first: Option<nat>, bus: nat)
    decreases ts
  {
    if first.None? then ts == []
    else
      && ts != [] && ts[0].dev == first.value && first.value in w.devs && first.value != w.root
      && var d := w.devs[first.value];
      && d.parent == bus
      && (if d.bus.None? then ts[0].kids == []
          else d.bus.value in w.buses && w.buses[d.bus.value].dev == first.value
               && Holds(w, ts[0].kids, w.buses[d.bus.value].children, d.bus.value))
      && Holds(w, ts[1..], d.next, bus)
  }

  /** The whole tree. */
  ghost predicate Whole(w: World, ts: seq<Tree>) {
    w.rootBus in w.buses && w.buses[w.rootBus].dev == w.root && Holds(w, ts, w.buses[w.rootBus].children, w.rootBus)
  }

  function PreOrder(ts: seq<Tree>): seq<nat>
    decreases ts
  {
    if ts == [] then [] else [ts[0].dev] + PreOrder(ts[0].kids) + PreOrder(ts[1..])
  }

  /** What is left to visit: the rest of every list between here and the root. */
  function Ahead(rest: seq<seq<Tree>>): seq<nat> {
    if rest == [] then [] else PreOrder(rest[0]) + Ahead(rest[1..])
  }

  /** `rest` are the trees that follow the bridges on the way from `bus` up to the root. */
  ghost predicate Climb(w: World, bus: nat, rest: seq<seq<Tree>>)
    decreases |rest|
  {
    && bus in w.buses
    && var up := w.buses[bus].dev;
    if rest == [] then up == w.root
    else
      && up != w.root && up in w.devs
      && Holds(w, rest[0], w.devs[up].next, w.devs[up].parent)
      && Climb(w, w.devs[up].parent, rest[1..])
  }

  /** A walk over `order` stops after the first device for which `func` is not zero. */
  ghost predicate StopsAt(order: seq<nat>, func: nat -> int, visited: seq<nat>, ret: int) {
    && visited <= order
    && (forall i :: 0 <= i < |visited| - 1 ==> func(visited[i]) == 0)
    && ret == (if visited == [] then 0 else func(visited[|visited| - 1]))
    && (ret == 0 ==> visited == order)
  }

  /** Goes up from `d`, whose subtree is done, to the next device, or ends at the root. */
  method Next(w: World, d: nat, ghost sib: seq<Tree>, ghost rest: seq<seq<Tree>>)
    returns (dev: Option<nat>, ghost sib': seq<Tree>, ghost rest': seq<seq<Tree>>)
    requires d in w.devs && d != w.root
    requires Holds(w, sib, w.devs[d].next, w.devs[d].parent) && Climb(w, w.devs[d].parent, rest)
    ensures PreOrder(sib') + Ahead(rest') == PreOrder(sib) + Ahead(rest)
    ensures dev.None? ==> PreOrder(sib) + Ahead(rest) == []
    ensures dev.Some? ==>
      dev.value in w.devs && sib' != [] && Holds(w, sib', dev, w.devs[dev.value].parent) &&
        Climb(w, w.devs[dev.value].parent, rest')
  {
    var cur := d;
    sib', rest' := sib, rest;
    while w.devs[cur].next.None?
      invariant cur in w.devs && cur != w.root
      invariant Holds(w, sib', w.devs[cur].next, w.devs[cur].parent) && Climb(w, w.devs[cur].parent, rest')
      invariant PreOrder(sib') + Ahead(rest') == PreOrder(sib) + Ahead(rest)
      decreases |rest'|
    {
      cur := w.buses[w.devs[cur].parent].dev;
      if cur == w.root {
        return None, sib', rest';
      }
      sib', rest' := rest'[0], rest'[1..];
    }
    dev := w.devs[cur].next;
  }

  /** The walk stands on the first of the trees `here`; those of `rest` follow further up. */
  ghost predicate Stands(w: World, dev: Option<nat>, here: seq<Tree>, rest: seq<seq<Tree>>) {
    if dev.None? then PreOrder(here) + Ahead(rest) == []
    else
      && dev.value in w.devs && dev.value != w.root
      && Holds(w, here, dev, w.devs[dev.value].parent) && Climb(w, w.devs[dev.value].parent, rest)
  }

  /** What lies below and after the device the walk stands on. */
  lemma Around(w: World, d: nat, here: seq<Tree>, rest: seq<seq<Tree>>)
    requires Stands(w, Some(d), here, rest)
    ensures here != [] && d in w.devs && d != w.root
    ensures var kids, sib := here[0].kids, here[1..];
            PreOrder(here) + Ahead(rest) == [d] + (PreOrder(kids) + (PreOrder(sib) + Ahead(rest)))
    ensures Holds(w, here[1..], w.devs[d].next, w.devs[d].parent) && Climb(w, w.devs[d].parent, rest)
    ensures if w.devs[d].bus.None? then here[0].kids == []
            else w.devs[d].bus.value in w.buses && w.buses[w.devs[d].bus.value].dev == d &&
                 Holds(w, here[0].kids, w.buses[w.devs[d].bus.value].children, w.devs[d].bus.value)
  {}

  lemma Down(w: World, d: nat, b: nat, kids: seq<Tree>, sib: seq<Tree>, rest: seq<seq<Tree>>)
    requires d in w.devs && d != w.root && b in w.buses && w.buses[b].dev == d
    requires Holds(w, kids, w.buses[b].children, b)
    requires Holds(w, sib, w.devs[d].next, w.devs[d].parent) && Climb(w, w.devs[d].parent, rest)
    ensures w.buses[b].children.Some? ==> Stands(w, w.buses[b].children, kids, [sib] + rest)
    ensures w.buses[b].children.None? ==> kids == []
    ensures PreOrder(kids) + Ahead([sib] + rest) == PreOrder(kids) + (PreOrder(sib) + Ahead(rest))
  {
    assert ([sib] + rest)[1..] == rest;
  }

  lemma On(w: World, dev: nat, here: seq<Tree>, rest: seq<seq<Tree>>)
    requires dev in w.devs && Holds(w, here, Some(dev), w.devs[dev].parent) && Climb(w, w.devs[dev].parent, rest)
    ensures Stands(w, Some(dev), here, rest)
  {}

  lemma Off(w: World, here: seq<Tree>, rest: seq<seq<Tree>>)
    ensures Stands(w, None, here, rest) <==> PreOrder(here) + Ahead(rest) == []
    ensures PreOrder([]) == []
  {}

  /** From a device that has just been visited: down to its bus's first device if there is one, else on or up. */
  method Advance(w: World, d: nat, ghost here: seq<Tree>, ghost rest: seq<seq<Tree>>)
    returns (dev: Option<nat>, ghost here': seq<Tree>, ghost rest': seq<seq<Tree>>)
    requires Stands(w, Some(d), here, rest)
    ensures Stands(w, dev, here', rest')
    ensures PreOrder(here) + Ahead(rest) == [d] + (PreOrder(here') + Ahead(rest'))
  {
    hide PreOrder, Ahead, Holds, Climb, Stands;
    Around(w, d, here, rest);
    ghost var kids, sib := here[0].kids, here[1..];
    if w.devs[d].bus.Some? {
      Down(w, d, w.devs[d].bus.value, kids, sib, rest);
      if w.buses[w.devs[d].bus.value].children.Some? {
        dev := w.buses[w.devs[d].bus.value].children;
        here', rest' := kids, [sib] + rest;
        return;
      }
    }
    dev, here', rest' := Next(w, d, sib, rest);
    Off(w, here', rest');
    assert PreOrder(kids) + (PreOrder(sib) + Ahead(rest)) == PreOrder(sib) + Ahead(rest);
    if dev.Some? { On(w, dev.value, here', rest'); }
  }

  /**
   `drvmgr_for_each_dev_depth`: `func` is called on the devices in pre-order, up to and including the first
   one for which it is not zero, and that value is returned.
   */
  method ForEachDepth(w: World, func: nat -> int, ghost ts: seq<Tree>) returns (ret: int, visited: seq<nat>)
    requires Whole(w, ts)
    ensures StopsAt(PreOrder(ts), func, visited, ret)
  {
    ret, visited := 0, [];
    var dev := w.buses[w.rootBus].children;
    ghost var here, rest := ts, [];
    assert Stands(w, dev, here, rest);
    hide PreOrder, Stands, Ahead, Holds, Climb, Whole, StopsAt;
    ghost var left := PreOrder(here) + Ahead(rest);
    assert [] + left == PreOrder(ts) by { NoneAhead(ts); }
    while dev.Some?
      invariant Stands(w, dev, here, rest) && left == PreOrder(here) + Ahead(rest)
      invariant visited + left == PreOrder(ts)
      invariant ret == 0 && forall i :: 0 <= i < |visited| ==> func(visited[i]) == 0
      decreases |left|
    {
      var d := dev.value;
      FirstAhead(w, d, here, rest);
      VisitOne(PreOrder(ts), func, visited, left);
      ret := func(d);
      visited := visited + [d];
      if ret != 0 {
        return;
      }
      dev, here, rest := Advance(w, d, here, rest);
      left := left[1..];
    }
    NothingLeft(w, here, rest);
    VisitedAll(PreOrder(ts), func, visited);
  }

  lemma NoneAhead(ts: seq<Tree>)
    ensures PreOrder(ts) + Ahead([]) == PreOrder(ts)
  {
    hide PreOrder;
  }

  /** The first device ahead is visited: the walk stops there, or goes on with the rest. */
  lemma VisitOne(order: seq<nat>, func: nat -> int, visited: seq<nat>, left: seq<nat>)
    requires visited + left == order && left != [] && forall i :: 0 <= i < |visited| ==> func(visited[i]) == 0
    ensures visited + [left[0]] + left[1..] == order
    ensures func(left[0]) != 0 ==> StopsAt(order, func, visited + [left[0]], func(left[0]))
  {
    var more := visited + [left[0]];
    assert more + left[1..] == visited + left;
    assert more <= order;
  }

  lemma VisitedAll(order: seq<nat>, func: nat -> int, visited: seq<nat>)
    requires visited + [] == order && forall i :: 0 <= i < |visited| ==> func(visited[i]) == 0
    ensures StopsAt(order, func, visited, 0)
  {
    assert visited + [] == visited;
  }

  lemma NothingLeft(w: World, here: seq<Tree>, rest: seq<seq<Tree>>)
    requires Stands(w, None, here, rest)
    ensures PreOrder(here) + Ahead(rest) == []
  {
  }

  lemma FirstAhead(w: World, d: nat, here: seq<Tree>, rest: seq<seq<Tree>>)
    requires Stands(w, Some(d), here, rest)
    ensures var left := PreOrder(here) + Ahead(rest); left != [] && left[0] == d
  {
  }
}
