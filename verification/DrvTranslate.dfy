/**
 Address translation between buses: drvmgr_translate.c and drvmgr_translate_check.c. Addresses are 32-bit
 unsigned numbers. The size handed back is the last offset that translates with the address, one less than
 the number of bytes.
 */
module DrvTranslate {
  import opened Options

  const TWO_32: nat := 0x1_0000_0000
  const MAX: nat := 0xffff_ffff
  const PATH := 16

  /** A window: `size` addresses from `from` on stand for those from `to` on. */
  datatype Window = Window(size: nat, from: nat, to: nat)

  /** `maps_up` or `maps_down` of a bus; a window of size 0 ends the table. */
  datatype Maps = OneToOne | NoBridge | Table(windows: seq<Window>)

  /** `parent` is the bus the bridge device is on. */
  datatype Bus = Bus(depth: nat, parent: Option<nat>, up: Maps, down: Maps)

  type Buses = map<nat, Bus>

  // ---------------------------------------------------------------- one bridge

  function In(w: Window, reverse: bool): nat {
    if reverse then w.to else w.from
  }

  function Out(w: Window, reverse: bool): nat {
    if reverse then w.from else w.to
  }

  predicate Inside(w: Window, reverse: bool, a: nat) {
    In(w, reverse) <= a <= In(w, reverse) + (w.size - 1)
  }

  /** An address on the other side, and how far the window reaches beyond it. */
  datatype Hop = Hop(dst: nat, room: nat)

  function Cross(w: Window, reverse: bool, a: nat): Hop
    requires Inside(w, reverse, a)
  {
    Hop(a - In(w, reverse) + Out(w, reverse), In(w, reverse) + (w.size - 1) - a)
  }

  function Lookup(ws: seq<Window>, reverse: bool, a: nat): Option<Hop> {
    if ws == [] || ws[0].size == 0 then None
    else if Inside(ws[0], reverse, a) then Some(Cross(ws[0], reverse, a))
    else Lookup(ws[1..], reverse, a)
  }

  function Bridge(m: Maps, reverse: bool, a: nat): Option<Hop> {
    match m
    case OneToOne => Some(Hop(a, MAX))
    case NoBridge => None
    case Table(ws) => Lookup(ws, reverse, a)
  }

  /** Windows of non-zero size that do not wrap and do not overlap on either side. */
  predicate Sound(m: Maps) {
    m.Table? ==>
      var ws := m.windows;
      && (forall i :: 0 <= i < |ws| ==>
            0 < ws[i].size <= MAX && ws[i].from + ws[i].size <= TWO_32 && ws[i].to + ws[i].size <= TWO_32)
      && (forall i, j, reverse :: 0 <= i < j < |ws| ==>
            || In(ws[i], reverse) + ws[i].size <= In(ws[j], reverse)
            || In(ws[j], reverse) + ws[j].size <= In(ws[i], reverse))
  }

  /** With sound windows the search finds the one window that holds the address. */
  lemma {:induction false} LookupOnly(ws: seq<Window>, reverse: bool, a: nat, i: nat)
    requires Sound(Table(ws)) && i < |ws| && Inside(ws[i], reverse, a)
    ensures Lookup(ws, reverse, a) == Some(Cross(ws[i], reverse, a))
  {
    if i > 0 {
      assert !Inside(ws[0], reverse, a);
      assert Sound(Table(ws[1..]));
      LookupOnly(ws[1..], reverse, a, i - 1);
    }
  }

  lemma {:induction false} LookupFound(ws: seq<Window>, reverse: bool, a: nat) returns (i: nat)
    requires Lookup(ws, reverse, a).Some?
    ensures i < |ws| && Inside(ws[i], reverse, a) && Lookup(ws, reverse, a) == Some(Cross(ws[i], reverse, a))
  {
    if Inside(ws[0], reverse, a) {
      i := 0;
    } else {
      i := LookupFound(ws[1..], reverse, a);
      i := i + 1;
    }
  }

  /** One bridge, back again. */
  lemma BridgeBack(m: Maps, reverse: bool, a: nat)
    requires Sound(m) && Bridge(m, reverse, a).Some?
    ensures var h := Bridge(m, reverse, a).value; Bridge(m, !reverse, h.dst) == Some(Hop(a, h.room))
  {
    if m.Table? {
      var i := LookupFound(m.windows, reverse, a);
      LookupOnly(m.windows, !reverse, Cross(m.windows[i], reverse, a).dst, i);
    }
  }

  function Add(a: nat, k: nat): nat {
    (a + k) % TWO_32
  }

  function Min(a: nat, b: nat): nat {
    if a < b then a else b
  }

  /** One bridge is linear over the room it reports. */
  lemma BridgeLinear(m: Maps, reverse: bool, a: nat, k: nat)
    requires Sound(m) && a < TWO_32 && Bridge(m, reverse, a).Some? && k <= Bridge(m, reverse, a).value.room
    ensures var h := Bridge(m, reverse, a).value;
      && h.dst < TWO_32
      && (if m.Table? then a + k < TWO_32 && h.dst + k < TWO_32 && h.room < MAX else h.room == MAX)
      && Bridge(m, reverse, Add(a, k)) == Some(Hop(Add(h.dst, k), if m.Table? then h.room - k else MAX))
  {
    hide Lookup, Sound;
    if m.Table? {
      var i := LookupFound(m.windows, reverse, a);
      CrossLinear(m.windows, i, reverse, a, k);
      LookupOnly(m.windows, reverse, a + k, i);
    }
  }

  lemma CrossLinear(ws: seq<Window>, i: nat, reverse: bool, a: nat, k: nat)
    requires Sound(Table(ws)) && i < |ws| && Inside(ws[i], reverse, a) && k <= Cross(ws[i], reverse, a).room
    ensures Inside(ws[i], reverse, a + k)
    ensures var h := Cross(ws[i], reverse, a);
      && a + k < TWO_32 && h.dst + k < TWO_32 && h.room < MAX
      && Cross(ws[i], reverse, a + k) == Hop(h.dst + k, h.room - k)
  {}

  // ---------------------------------------------------------------- a path of bridges

  /** Through all bridges in turn; the room is the smallest on the way. */
  function Trip(ms: seq<Maps>, reverse: bool, a: nat): (r: Option<Hop>)
    ensures r.Some? ==> r.value.room <= MAX
  {
    if ms == [] then Some(Hop(a, MAX))
    else
      match Bridge(ms[0], reverse, a)
      case None => None
      case Some(h) =>
        match Trip(ms[1..], reverse, h.dst)
        case None => None
        case Some(t) => Some(Hop(t.dst, Min(h.room, t.room)))
  }

  lemma {:induction false} TripConcat(x: seq<Maps>, y: seq<Maps>, reverse: bool, a: nat)
    requires Trip(x, reverse, a).Some? && Trip(y, reverse, Trip(x, reverse, a).value.dst).Some?
    ensures var h := Trip(x, reverse, a).value; var t := Trip(y, reverse, h.dst).value;
            Trip(x + y, reverse, a) == Some(Hop(t.dst, Min(h.room, t.room)))
  {
    if x == [] {
      assert x + y == y;
    } else {
      assert (x + y)[0] == x[0] && (x + y)[1..] == x[1..] + y;
      TripConcat(x[1..], y, reverse, Bridge(x[0], reverse, a).value.dst);
    }
  }

  function Reverse<T>(s: seq<T>): (r: seq<T>)
    ensures |r| == |s| && forall i :: 0 <= i < |s| ==> r[i] == s[|s| - 1 - i]
  {
    if s == [] then [] else Reverse(s[1..]) + [s[0]]
  }

  /** A path walked the other way with the windows turned round leads back, with the same room. */
  lemma {:induction false} TripBack(ms: seq<Maps>, reverse: bool, a: nat)
    requires (forall m <- ms :: Sound(m)) && Trip(ms, reverse, a).Some?
    ensures var h := Trip(ms, reverse, a).value; Trip(Reverse(ms), !reverse, h.dst) == Some(Hop(a, h.room))
  {
    if ms != [] {
      hide Bridge, Sound;
      var h := Bridge(ms[0], reverse, a).value;
      BridgeBack(ms[0], reverse, a);
      TripBack(ms[1..], reverse, h.dst);
      assert Trip([ms[0]], !reverse, h.dst) == Some(Hop(a, Min(h.room, MAX))) by {
        assert [ms[0]][1..] == [];
        assert Trip([], !reverse, a) == Some(Hop(a, MAX));
      }
      BridgeRoom(ms[0], reverse, a);
      TripConcat(Reverse(ms[1..]), [ms[0]], !reverse, Trip(ms, reverse, a).value.dst);
    }
  }

  lemma BridgeRoom(m: Maps, reverse: bool, a: nat)
    requires Sound(m) && Bridge(m, reverse, a).Some?
    ensures Bridge(m, reverse, a).value.room <= MAX
  {
    if m.Table? { var i := LookupFound(m.windows, reverse, a); }
  }

  /** The whole path is linear over the room it reports. */
  lemma {:induction false} TripLinear(ms: seq<Maps>, reverse: bool, a: nat, k: nat)
    requires (forall m <- ms :: Sound(m)) && a < TWO_32
    requires Trip(ms, reverse, a).Some? && k <= Trip(ms, reverse, a).value.room
    ensures var h := Trip(ms, reverse, a).value;
      && h.dst < TWO_32 && (h.room < MAX <==> exists m <- ms :: m.Table?)
      && Trip(ms, reverse, Add(a, k)) == Some(Hop(Add(h.dst, k), if h.room < MAX then h.room - k else MAX))
  {
    hide Sound, Lookup, Bridge, Add;
    if ms != [] {
      var h := Bridge(ms[0], reverse, a).value;
      BridgeLinear(ms[0], reverse, a, k);
      TripLinear(ms[1..], reverse, h.dst, k);
      assert ms[0] in ms && forall m <- ms :: m == ms[0] || m in ms[1..];
    }
  }

  // ---------------------------------------------------------------- the bus tree

  /** `depth` is the distance from the root bus, as `drvmgr_bus_register` sets it. */
  predicate Tree(buses: Buses) {
    forall b :: b in buses ==>
      match buses[b].parent
      case None => buses[b].depth == 0
      case Some(p) => p in buses && buses[b].depth == buses[p].depth + 1
  }

  /** `top` is on the way from `bot` to the root. */
  predicate Above(buses: Buses, bot: nat, top: nat)
    requires Tree(buses) && bot in buses
    decreases buses[bot].depth
  {
    bot == top || (buses[bot].parent.Some? && Above(buses, buses[bot].parent.value, top))
  }

  /** The buses from `bot` up to but without `top`. */
  function Ascent(buses: Buses, bot: nat, top: nat): (r: seq<nat>)
    requires Tree(buses) && bot in buses && Above(buses, bot, top)
    ensures top in buses && buses[top].depth + |r| == buses[bot].depth
    ensures forall b <- r :: b in buses
    decreases buses[bot].depth
  {
    if bot == top then [] else [bot] + Ascent(buses, buses[bot].parent.value, top)
  }

  /** The tables used on the way: `maps_up` for addresses that CPU and DMA unit exchange upstream. */
  function Tables(buses: Buses, path: seq<nat>, up: bool): (r: seq<Maps>)
    requires forall b <- path :: b in buses
    ensures |r| == |path|
    ensures forall i :: 0 <= i < |path| ==> r[i] == (if up then buses[path[i]].up else buses[path[i]].down)
  {
    seq(|path|, i requires 0 <= i < |path| => if up then buses[path[i]].up else buses[path[i]].down)
  }

  predicate Connected(buses: Buses, from: nat, to: nat)
    requires Tree(buses) && from in buses && to in buses
  {
    if buses[from].depth > buses[to].depth then Above(buses, from, to) else Above(buses, to, from)
  }

  function Route(buses: Buses, from: nat, to: nat): (r: seq<nat>)
    requires Tree(buses) && from in buses && to in buses && Connected(buses, from, to)
    ensures forall b <- r :: b in buses
  {
    if buses[from].depth > buses[to].depth then Ascent(buses, from, to) else Reverse(Ascent(buses, to, from))
  }

  /** The tables of the whole route, in walking order. */
  function RouteTables(buses: Buses, from: nat, to: nat, reverse: bool): seq<Maps>
    requires Tree(buses) && from in buses && to in buses && Connected(buses, from, to)
  {
    var dir := !(buses[from].depth > buses[to].depth);
    Tables(buses, Route(buses, from, to), (dir && reverse) || (!dir && !reverse))
  }

  /** The inner search: the first window that holds the address. */
  method Search(ws: seq<Window>, reverse: bool, a: nat) returns (r: Option<Hop>)
    ensures r == Lookup(ws, reverse, a)
  {
    var i := 0;
    while i < |ws| && ws[i].size != 0
      invariant 0 <= i <= |ws| && Lookup(ws[i..], reverse, a) == Lookup(ws, reverse, a)
    {
      var w := ws[i];
      assert ws[i..][0] == w && ws[i..][1..] == ws[i + 1..];
      var from, to := if reverse then w.to else w.from, if reverse then w.from else w.to;
      if a >= from && a <= from + (w.size - 1) {
        return Some(Hop(a - from + to, from + (w.size - 1) - a));
      }
      i := i + 1;
    }
    r := None;
  }

  /** The loop that fills the path has gone `i` buses up from `bot` towards `top` and stands at `bus`. */
  ghost predicate Climbed(buses: Buses, bot: nat, top: nat, i: nat, bus: Option<nat>)
    requires Tree(buses) && bot in buses
  {
    if Above(buses, bot, top) then
      var way := Ascent(buses, bot, top);
      i <= |way| && bus.Some? && bus.value in buses && Above(buses, bus.value, top) &&
        Ascent(buses, bus.value, top) == way[i..]
    else
      match bus
      case None => i == buses[bot].depth + 1
      case Some(b) => b in buses && !Above(buses, b, top) && i + buses[b].depth == buses[bot].depth
  }

  lemma ClimbOn(buses: Buses, bot: nat, top: nat, i: nat, bus: nat)
    requires Tree(buses) && bot in buses && Climbed(buses, bot, top, i, Some(bus)) && bus != top
    ensures bus in buses && Climbed(buses, bot, top, i + 1, buses[bus].parent)
    ensures Above(buses, bot, top) ==> i < |Ascent(buses, bot, top)| && Ascent(buses, bot, top)[i] == bus
    ensures !Above(buses, bot, top) ==> i <= buses[bot].depth
  {
    if Above(buses, bot, top) {
      var way := Ascent(buses, bot, top);
      assert way[i..][0] == way[i] == bus && way[i..][1..] == way[i + 1..];
    }
  }

  lemma ClimbEnd(buses: Buses, bot: nat, top: nat, i: nat, bus: Option<nat>)
    requires Tree(buses) && bot in buses && Climbed(buses, bot, top, i, bus) && (bus.None? || bus.value == top)
    ensures bus.Some? <==> Above(buses, bot, top)
    ensures bus.Some? ==> i == |Ascent(buses, bot, top)|
  {
    if Above(buses, bot, top) { assert Ascent(buses, top, top) == []; }
  }

  lemma ClimbStart(buses: Buses, bot: nat, top: nat)
    requires Tree(buses) && bot in buses
    ensures Climbed(buses, bot, top, 0, Some(bot))
  {}

  /**
   Fills the path array by walking up: with exactly `levels` entries, because of the depths, if `top` is on the way.
   Otherwise the walk goes on past the root; it is `wild` if that takes it out of the array, which it always does when
   the target is the deeper bus (`dir`), and otherwise from depth 16 on.
   */
  method FillPath(buses: Buses, bot: nat, top: nat, dir: bool, path: array<nat>) returns (found: bool, wild: bool)
    requires Tree(buses) && bot in buses && top in buses && path.Length == PATH
    requires 0 <= buses[bot].depth - buses[top].depth < PATH
    modifies path
    ensures wild <==> !Above(buses, bot, top) && (dir || buses[bot].depth >= PATH)
    ensures !wild ==> (found <==> Above(buses, bot, top))
    ensures !wild && found ==>
      path[..|Ascent(buses, bot, top)|] == (if dir then Reverse(Ascent(buses, bot, top)) else Ascent(buses, bot, top))
  {
    hide Tree, Above, Climbed, Reverse;
    ghost var linked := Above(buses, bot, top);
    ghost var way := if linked then Ascent(buses, bot, top) else [];
    var levels := buses[bot].depth - buses[top].depth;
    var i, bus := 0, Some(bot);
    ClimbStart(buses, bot, top);
    while bus.Some? && bus.value != top
      invariant 0 <= i && Climbed(buses, bot, top, i, bus)
      invariant linked ==> i <= levels == |way|
      invariant linked && dir ==> forall j :: 0 <= j < i ==> path[levels - 1 - j] == way[j]
      invariant linked && !dir ==> forall j :: 0 <= j < i ==> path[j] == way[j]
      invariant !linked ==> i <= buses[bot].depth + 1 && (bus.None? ==> i == buses[bot].depth + 1)
      invariant if dir then i <= levels else i <= PATH
      decreases if linked then levels - i else buses[bot].depth + 1 - i
    {
      ClimbOn(buses, bot, top, i, bus.value);
      var slot := if dir then levels - 1 - i else i;
      if !(0 <= slot < PATH) { return false, true; }
      path[slot] := bus.value;
      i := i + 1;
      bus := buses[bus.value].parent;
      if !linked { ClimbTop(buses, bot, top, i, bus); }
    }
    ClimbEnd(buses, bot, top, i, bus);
    found, wild := bus.Some?, false;
    if found {
      Reversed(path[..levels], way, dir);
    }
  }

  lemma ClimbTop(buses: Buses, bot: nat, top: nat, i: nat, bus: Option<nat>)
    requires Tree(buses) && bot in buses && Climbed(buses, bot, top, i, bus) && !Above(buses, bot, top)
    ensures bus.None? ==> i == buses[bot].depth + 1
  {
  }

  lemma Reversed(path: seq<nat>, way: seq<nat>, dir: bool)
    requires |path| == |way|
    requires dir ==> forall j :: 0 <= j < |way| ==> path[|way| - 1 - j] == way[j]
    requires !dir ==> forall j :: 0 <= j < |way| ==> path[j] == way[j]
    ensures path == if dir then Reverse(way) else way
  {
    if dir {
      forall j | 0 <= j < |way| ensures path[j] == Reverse(way)[j] {
        assert path[|way| - 1 - (|way| - 1 - j)] == way[|way| - 1 - j];
      }
    }
  }

  /** The second loop: one bridge after the other. */
  method Follow(buses: Buses, path: seq<nat>, up: bool, reverse: bool, src: nat) returns (sz: nat, d: nat)
    requires forall b <- path :: b in buses
    ensures match Trip(Tables(buses, path, up), reverse, src)
            case Some(h) => sz == h.room && d == h.dst
            case None => sz == 0
  {
    sz, d := MAX, src;
    ghost var ms := Tables(buses, path, up);
    ghost var goal := Trip(ms, reverse, src);
    hide Tables, Lookup;
    var i := 0;
    while i < |path|
      invariant 0 <= i <= |path| && sz <= MAX
      invariant goal.None? <==> Trip(ms[i..], reverse, d).None?
      invariant goal.Some? ==> goal.value.dst == Trip(ms[i..], reverse, d).value.dst
      invariant goal.Some? ==> goal.value.room == Min(sz, Trip(ms[i..], reverse, d).value.room)
    {
      var bus := buses[path[i]];
      var table := if up then bus.up else bus.down;
      assert ms[i..][0] == table && ms[i..][1..] == ms[i + 1..];
      i := i + 1;
      match table {
        case OneToOne =>
        case NoBridge =>
          return 0, d;
        case Table(ws) =>
          var h := Search(ws, reverse, d);
          if h.None? {
            return 0, d;
          }
          if h.value.room < sz {
            sz := h.value.room;
          }
          d := h.value.dst;
      }
    }
    assert ms[i..] == [];
  }

  /** The calls that stay inside the path array: connected buses, too long a path, or a source above depth 16. */
  predicate Walkable(buses: Buses, from: nat, to: nat)
    requires Tree(buses) && from in buses && to in buses
  {
    var df, dt := buses[from].depth, buses[to].depth;
    Connected(buses, from, to) || (if df > dt then df < PATH || df - dt >= PATH else dt - df >= PATH)
  }

  /**
   `drvmgr_translate_bus`. It writes outside its path array exactly for the calls that are not walkable. Otherwise 0
   and no address for buses that are not connected and for too long a path, or the translation through all bridges
   and the room it leaves, or 0 when some bridge does not translate.
   */
  method TranslateBus(buses: Buses, from: nat, to: nat, reverse: bool, src: nat)
    returns (sz: nat, dst: Option<nat>, wild: bool)
    requires Tree(buses) && from in buses && to in buses
    ensures wild <==> !Walkable(buses, from, to)
    ensures !wild && !Connected(buses, from, to) ==> sz == 0 && dst == None
    ensures Connected(buses, from, to) && |Route(buses, from, to)| >= PATH ==> sz == 0 && dst == None
    ensures Connected(buses, from, to) && |Route(buses, from, to)| < PATH ==> dst.Some?
    ensures Connected(buses, from, to) && |Route(buses, from, to)| < PATH ==>
      match Trip(RouteTables(buses, from, to, reverse), reverse, src)
      case Some(h) => sz == h.room && dst == Some(h.dst)
      case None => sz == 0
  {
    hide Tree, Above, Ascent, Tables, Reverse, Trip;
    RouteLength(buses, from, to);
    wild := false;
    var d := src;
    sz := MAX;
    if from == to {
      SameBus(buses, from, reverse, src);
      return sz, Some(d), false;
    }
    var bot, top, dir := to, from, true;
    if buses[from].depth > buses[to].depth {
      bot, top, dir := from, to, false;
    }
    var levels := buses[bot].depth - buses[top].depth;
    if levels >= PATH {
      return 0, None, false;
    }
    var path := new nat[PATH];
    var found;
    found, wild := FillPath(buses, bot, top, dir, path);
    if wild || !found {
      return 0, None, wild;
    }
    sz, d := Follow(buses, path[..levels], (dir && reverse) || (!dir && !reverse), reverse, src);
    dst := Some(d);
  }

  /** Two buses on the root bus: the walk from one looks for the other, passes the root, and has no entry left. */
  method SiblingsRun() returns (sz: nat, dst: Option<nat>, wild: bool)
    ensures wild
  {
    var buses: Buses := map[0 := Bus(0, None, OneToOne, OneToOne), 1 := Bus(1, Some(0), OneToOne, OneToOne),
                            2 := Bus(1, Some(0), OneToOne, OneToOne)];
    sz, dst, wild := TranslateBus(buses, 1, 2, false, 0);
    assert !Above(buses, 0, 1);
  }

  lemma RouteLength(buses: Buses, from: nat, to: nat)
    requires Tree(buses) && from in buses && to in buses
    ensures Connected(buses, from, to) ==>
      var df, dt := buses[from].depth, buses[to].depth;
      |Route(buses, from, to)| == if df > dt then df - dt else dt - df
  {}

  lemma SameBus(buses: Buses, bus: nat, reverse: bool, src: nat)
    requires Tree(buses) && bus in buses
    ensures Connected(buses, bus, bus) &&
            Trip(RouteTables(buses, bus, bus, reverse), reverse, src) == Some(Hop(src, MAX))
  {
    assert Ascent(buses, bus, bus) == [];
  }

  // ---------------------------------------------------------------- the driver's view

  const CPUMEM_TO_DMA := 0
  const CPUMEM_FROM_DMA := 1
  const DMAMEM_TO_CPU := 2
  const DMAMEM_FROM_CPU := 3

  /** Every bus hangs below the root bus. */
  predicate Rooted(buses: Buses, root: nat) {
    Tree(buses) && root in buses && buses[root].parent == None && forall b :: b in buses ==> Above(buses, b, root)
  }

  function From(root: nat, bus: nat, options: nat): nat {
    if options == CPUMEM_TO_DMA || options == DMAMEM_FROM_CPU then root else bus
  }

  function To(root: nat, bus: nat, options: nat): nat {
    if options == CPUMEM_TO_DMA || options == DMAMEM_FROM_CPU then bus else root
  }

  lemma {:induction false} RootConnected(buses: Buses, root: nat, b: nat)
    requires Rooted(buses, root) && b in buses
    ensures Connected(buses, root, b) && Connected(buses, b, root)
  {
    assert |Ascent(buses, b, root)| == buses[b].depth;
    if buses[b].depth == 0 { assert Ascent(buses, b, root) == []; }
  }

  lemma RootedTree(buses: Buses, root: nat)
    requires Rooted(buses, root)
    ensures Tree(buses) && root in buses
  {}

  /** What `drvmgr_translate` yields for a device on `bus`: nothing for too deep a bus or a missing window. */
  function Translated(buses: Buses, root: nat, bus: nat, options: nat, src: nat): Option<Hop>
    requires Rooted(buses, root) && bus in buses
  {
    RootConnected(buses, root, bus);
    var from, to, reverse := From(root, bus, options), To(root, bus, options), options % 2 == 0;
    if |Route(buses, from, to)| >= PATH then None else Trip(RouteTables(buses, from, to, reverse), reverse, src)
  }

  /** `drvmgr_translate` */
  method Translate(buses: Buses, root: nat, bus: nat, options: nat, src: nat) returns (sz: nat, dst: Option<nat>)
    requires Rooted(buses, root) && bus in buses
    ensures match Translated(buses, root, bus, options, src)
            case Some(h) => sz == h.room && dst == Some(h.dst)
            case None => sz == 0
  {
    hide Rooted, Tree, Connected, Route, RouteTables, Trip;
    RootedTree(buses, root);
    RootConnected(buses, root, bus);
    var reverse := options % 2 == 0;
    var from, to := bus, root;
    if options == CPUMEM_TO_DMA || options == DMAMEM_FROM_CPU {
      from, to := root, bus;
    }
    var wild;
    sz, dst, wild := TranslateBus(buses, from, to, reverse, src);
  }

  predicate AllSound(buses: Buses) {
    forall b :: b in buses ==> Sound(buses[b].up) && Sound(buses[b].down)
  }

  function Opposite(options: nat): nat {
    if options == CPUMEM_TO_DMA then CPUMEM_FROM_DMA
    else if options == CPUMEM_FROM_DMA then CPUMEM_TO_DMA
    else if options == DMAMEM_TO_CPU then DMAMEM_FROM_CPU
    else DMAMEM_TO_CPU
  }

  /** The way back uses the same tables in the opposite order. */
  lemma WayBack(buses: Buses, from: nat, to: nat, reverse: bool)
    requires Tree(buses) && from in buses && to in buses && Connected(buses, from, to) && Connected(buses, to, from)
    ensures RouteTables(buses, to, from, !reverse) == Reverse(RouteTables(buses, from, to, reverse))
    ensures |Route(buses, to, from)| == |Route(buses, from, to)|
  {
    hide Tables, Route, Reverse, Above;
    RouteBack(buses, from, to);
    if buses[from].depth == buses[to].depth {
      assert RouteTables(buses, to, from, !reverse) == [] == RouteTables(buses, from, to, reverse);
    } else {
      var dir := !(buses[from].depth > buses[to].depth);
      TablesBack(buses, Route(buses, from, to), (dir && reverse) || (!dir && !reverse));
    }
  }

  lemma RouteBack(buses: Buses, from: nat, to: nat)
    requires Tree(buses) && from in buses && to in buses && Connected(buses, from, to) && Connected(buses, to, from)
    ensures Route(buses, to, from) == Reverse(Route(buses, from, to))
    ensures buses[from].depth == buses[to].depth ==> Route(buses, to, from) == [] == Route(buses, from, to)
  {
    hide Reverse, Ascent;
    if buses[from].depth > buses[to].depth {
    } else if buses[from].depth < buses[to].depth {
      var up := Ascent(buses, to, from);
      assert Reverse(Reverse(up)) == up;
    }
  }

  lemma TablesBack(buses: Buses, path: seq<nat>, up: bool)
    requires forall b <- path :: b in buses
    ensures forall b <- Reverse(path) :: b in buses
    ensures Tables(buses, Reverse(path), up) == Reverse(Tables(buses, path, up))
  {
    hide Reverse, Tables;
  }

  /** `drvmgr_translate` in terms of the buses it goes between. */
  lemma TranslatedIs(buses: Buses, root: nat, bus: nat, options: nat, src: nat)
    requires Rooted(buses, root) && bus in buses
    ensures var from, to, reverse := From(root, bus, options), To(root, bus, options), options % 2 == 0;
      && Tree(buses) && from in buses && to in buses && Connected(buses, from, to) && Connected(buses, to, from)
      && Translated(buses, root, bus, options, src) ==
         if |Route(buses, from, to)| >= PATH then None else Trip(RouteTables(buses, from, to, reverse), reverse, src)
  {
    hide Trip, RouteTables, Route, Connected;
    RootConnected(buses, root, bus);
  }

  /** CPUMEM_TO_DMA and CPUMEM_FROM_DMA undo each other, and so do DMAMEM_TO_CPU and DMAMEM_FROM_CPU. */
  lemma OppositeUndoes(buses: Buses, root: nat, bus: nat, options: nat, src: nat)
    requires Rooted(buses, root) && bus in buses && AllSound(buses) && options < 4
    requires Translated(buses, root, bus, options, src).Some?
    ensures var h := Translated(buses, root, bus, options, src).value;
            Translated(buses, root, bus, Opposite(options), h.dst) == Some(Hop(src, h.room))
  {
    hide Translated, Sound, Trip, RouteTables, Route, Rooted, Tree, Connected, Reverse;
    var from, to, reverse := From(root, bus, options), To(root, bus, options), options % 2 == 0;
    TranslatedIs(buses, root, bus, options, src);
    TranslatedIs(buses, root, bus, Opposite(options), Translated(buses, root, bus, options, src).value.dst);
    WayBack(buses, from, to, reverse);
    RouteSound(buses, from, to, reverse);
    TripBack(RouteTables(buses, from, to, reverse), reverse, src);
  }

  lemma RouteSound(buses: Buses, from: nat, to: nat, reverse: bool)
    requires Tree(buses) && from in buses && to in buses && Connected(buses, from, to) && AllSound(buses)
    ensures forall m <- RouteTables(buses, from, to, reverse) :: Sound(m)
  {
    hide Sound;
    var route := Route(buses, from, to);
    assert forall i :: 0 <= i < |route| ==> route[i] in buses;
  }

  /** A translation and its opposite: whenever the first size is not 0, the address and the size come back. */
  method ThereAndBack(buses: Buses, root: nat, bus: nat, options: nat, src: nat)
    returns (sz: nat, back: Option<nat>, sz': nat)
    requires Rooted(buses, root) && bus in buses && AllSound(buses) && options < 4
    ensures sz > 0 ==> back == Some(src) && sz' == sz
  {
    hide Translated, Sound;
    var dst;
    sz, dst := Translate(buses, root, bus, options, src);
    back, sz' := None, 0;
    if sz > 0 {
      OppositeUndoes(buses, root, bus, options, src);
      sz', back := Translate(buses, root, bus, Opposite(options), dst.value);
    }
  }

  /** Every address up to the reported offset translates with the first one. */
  lemma Contiguous(buses: Buses, root: nat, bus: nat, options: nat, src: nat, k: nat)
    requires Rooted(buses, root) && bus in buses && AllSound(buses) && src < TWO_32
    requires Translated(buses, root, bus, options, src).Some? &&
             k <= Translated(buses, root, bus, options, src).value.room
    ensures var h := Translated(buses, root, bus, options, src).value;
      && h.dst < TWO_32
      && Translated(buses, root, bus, options, Add(src, k)) ==
         Some(Hop(Add(h.dst, k), if h.room < MAX then h.room - k else MAX))
  {
    hide Translated, Sound, Trip, RouteTables, Route, Rooted, Tree, Connected;
    var from, to, reverse := From(root, bus, options), To(root, bus, options), options % 2 == 0;
    TranslatedIs(buses, root, bus, options, src);
    TranslatedIs(buses, root, bus, options, Add(src, k));
    RouteSound(buses, from, to, reverse);
    TripLinear(RouteTables(buses, from, to, reverse), reverse, src, k);
  }

  /**
   `drvmgr_translate_check`: 0 exactly when the whole of `size` bytes and one more translate linearly. A
   range that ends with its window is refused, since the size compared is an offset.
   */
  method TranslateCheck(buses: Buses, root: nat, bus: nat, options: nat, src: nat, size: nat)
    returns (r: int, dst: Option<nat>)
    requires Rooted(buses, root) && bus in buses && AllSound(buses) && src < TWO_32 && size < TWO_32
    ensures r == 0 || r == -1
    ensures r == 0 <==>
      var t := Translated(buses, root, bus, options, src);
      t.Some? && 0 < t.value.room && size <= t.value.room
    ensures r == 0 ==> dst.Some? && forall k :: 0 <= k < size ==>
      var t := Translated(buses, root, bus, options, Add(src, k));
      t.Some? && t.value.dst == Add(dst.value, k)
  {
    hide Translated, Sound;
    var max;
    max, dst := Translate(buses, root, bus, options, src);
    if max == 0 || (max < size && size != 0) {
      return -1, dst;
    }
    r := 0;
    forall k | 0 <= k < size
      ensures var t := Translated(buses, root, bus, options, Add(src, k)); t.Some? && t.value.dst == Add(dst.value, k)
    {
      Contiguous(buses, root, bus, options, src, k);
    }
  }

  /** Windows that overlap on the far side do not translate back. */
  lemma OverlapExample()
    ensures var m := Table([Window(0x100, 0x1000, 0x0), Window(0x100, 0x2000, 0x0)]);
      Bridge(m, false, 0x2010) == Some(Hop(0x10, 0xef)) && Bridge(m, true, 0x10) == Some(Hop(0x1010, 0xef))
  {
    var a, b := Window(0x100, 0x1000, 0x0), Window(0x100, 0x2000, 0x0);
    assert [a, b][1..] == [b];
  }

  /** A device behind one bridge: address 0x10 on its bus is CPU address 0x40001010. */
  lemma BridgeExample(buses: Buses)
    requires buses == map[0 := Bus(0, None, OneToOne, OneToOne), 1 := Bus(1, Some(0), Table([EXAMPLE]), NoBridge)]
    ensures Rooted(buses, 0) && AllSound(buses)
    ensures Translated(buses, 0, 1, CPUMEM_FROM_DMA, 0x10) == Some(Hop(0x4000_1010, 0xef))
  {
    assert Above(buses, 0, 0) && Above(buses, 1, 0);
    assert Ascent(buses, 0, 0) == [];
    TranslatedIs(buses, 0, 1, CPUMEM_FROM_DMA, 0x10);
    assert Route(buses, 1, 0) == [1];
    OneBridge(RouteTables(buses, 1, 0, false));
  }

  const EXAMPLE := Window(0x100, 0x0, 0x4000_1000)

  lemma OneBridge(ms: seq<Maps>)
    requires ms == [Table([EXAMPLE])]
    ensures Trip(ms, false, 0x10) == Some(Hop(0x4000_1010, 0xef))
  {
    assert Lookup([EXAMPLE], false, 0x10) == Some(Hop(0x4000_1010, 0xef));
    assert Trip(ms[1..], false, 0x4000_1010) == Some(Hop(0x4000_1010, MAX));
  }
}
