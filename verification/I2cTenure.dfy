/**
 libi2c.c: a bus is held from start to stop by one thread. Threads are interleaved step by step; the bus
 mutex is recursive and is created by whoever needs it first. A thread's program is the code it has still
 to run, so a call inside a call is code in front of code.
 */
module I2cTenure {
  import opened Options

  /**
   `Check` and `Recheck` read the stored mutex, without and with the library lock; `Create` makes a mutex that only
   the thread knows, and `Publish` stores it. `Drive`, `Op` and `Start` call the bus driver; `Op` goes on by whether
   that worked, `Start` by that and by whether the bus had been started. `Sign` goes on by the sign of an error.
   `Pass` calls the bus driver without the bus. `Released` does nothing: it marks where the bus must not be held.
   */
  datatype Instr =
    | Check | LibLock | Recheck | Create | Publish(id: nat) | LibUnlock
    | Acquire | Release
    | Test(no: seq<Instr>, yes: seq<Instr>)
    | Drive | Pass
    | Op(fail: seq<Instr>, ok: seq<Instr>)
    | Sign(negative: seq<Instr>, positive: seq<Instr>)
    | Start(first: seq<Instr>, again: seq<Instr>, failed: seq<Instr>, failedAgain: seq<Instr>)
    | SetStarted | ClearStarted
    | Released

  type Code = seq<Instr>

  // ---------------------------------------------------------------- the library as code

  /** `lock_bus`: create the mutex if there is none yet, then take it. */
  function Lock(): Code {
    [Check, Acquire]
  }

  /** `not_started`, and what follows either answer. */
  function NotStarted(no: Code, yes: Code): Code {
    Lock() + [Test([Release] + no, [Release] + yes)]
  }

  function SendStop(): Code {
    NotStarted([], [Drive, ClearStarted, Release])
  }

  /** `rtems_libi2c_send_start`, and what follows failure and success. */
  function SendStart(fail: Code, ok: Code): Code {
    Lock() + [Start([SetStarted] + ok, [Release] + ok, [Drive, Release] + fail, SendStop() + [Release] + fail)]
  }

  /** `send_addr`, `read_bytes` and `write_bytes`: a failing transfer gives the bus up. */
  function Transfer(): Code {
    NotStarted([], [Op(SendStop(), [])])
  }

  /** `do_s_rw`: start, address, transfer; `done` follows success. */
  function StartTransfer(done: Code): Code {
    SendStart([], [Op(SendStop(), [Op(SendStop(), done)])])
  }

  /** `rtems_i2c_read` and `rtems_i2c_write` on the raw device. A count of zero returns before the bus is touched. */
  function Raw(count: nat): Code {
    if count == 0 then [] else StartTransfer(SendStop()) + [Released]
  }

  /**
   The transfer of `rtems_libi2c_ioctl`: a restart and two driver requests; only a negative error gives the bus up.
   */
  function ModeTransfer(): Code {
    var give := [Sign(SendStop(), [])];
    NotStarted([], SendStart([], [Op(give, [Op(give, [])])]))
  }

  datatype Call =
    CallStart | CallStop | CallTransfer | CallStartTransfer | CallModeTransfer | CallPass | CallRaw(count: nat)

  function Body(c: Call): Code {
    match c
    case CallStart => SendStart([], [])
    case CallStop => SendStop()
    case CallTransfer => Transfer()
    case CallStartTransfer => StartTransfer([])
    case CallModeTransfer => ModeTransfer()
    case CallPass => [Pass]
    case CallRaw(count) => Raw(count)
  }

  // ---------------------------------------------------------------- the machine

  /**
   `mutex` is the stored mutex and `created` counts those ever created for the bus; `owner` and `nest` belong to the
   stored one.
   */
  datatype State = State(mutex: Option<nat>, created: nat, owner: Option<nat>, nest: nat, lib: Option<nat>,
                         started: bool, code: map<nat, Code>)

  /** A thread begins a call, or makes a step; `ok` is what the driver answers if it is asked. */
  datatype Act = Begin(call: Call) | Go(ok: bool)

  predicate Enabled(s: State, t: nat, a: Act) {
    && t in s.code
    && match a
       case Begin(_) => s.code[t] == []
       case Go(_) =>
         && s.code[t] != []
         && match s.code[t][0]
            case LibLock => s.lib == None
            case Acquire => s.mutex.Some? && (s.owner == None || s.owner == Some(t))
            case Release => s.owner == Some(t) && 0 < s.nest
            case _ => true
  }

  function Next(s: State, t: nat, a: Act): State
    requires Enabled(s, t, a)
  {
    match a
    case Begin(c) => s.(code := s.code[t := Body(c)])
    case Go(ok) =>
      var rest := s.code[t][1..];
      match s.code[t][0]
      case Check => s.(code := s.code[t := if s.mutex.Some? then rest else [LibLock, Recheck, LibUnlock] + rest])
      case LibLock => s.(lib := Some(t), code := s.code[t := rest])
      case Recheck => s.(code := s.code[t := if s.mutex.Some? then rest else [Create] + rest])
      case Create => s.(created := s.created + 1, code := s.code[t := [Publish(s.created)] + rest])
      case Publish(m) => s.(mutex := Some(m), owner := None, nest := 0, code := s.code[t := rest])
      case LibUnlock => s.(lib := None, code := s.code[t := rest])
      case Acquire => s.(owner := Some(t), nest := s.nest + 1, code := s.code[t := rest])
      case Release => s.(owner := if s.nest == 1 then None else s.owner, nest := s.nest - 1, code := s.code[t := rest])
      case Test(no, yes) => s.(code := s.code[t := (if s.started then yes else no) + rest])
      case Op(fail, good) => s.(code := s.code[t := (if ok then good else fail) + rest])
      case Sign(negative, positive) => s.(code := s.code[t := (if ok then positive else negative) + rest])
      case Start(first, again, failed, failedAgain) =>
        s.(code := s.code[t := (if ok then if s.started then again else first
                                else if s.started then failedAgain else failed) + rest])
      case SetStarted => s.(started := true, code := s.code[t := rest])
      case ClearStarted => s.(started := false, code := s.code[t := rest])
      case _ => s.(code := s.code[t := rest])
  }

  // ---------------------------------------------------------------- code that keeps the discipline

  /** Where a thread is with the library lock: not inside, just inside, about to make or store a mutex, or finished. */
  datatype Phase = Out | Locked | Making | Done

  /** What a thread has: the bus `n` times, a started bus, its phase, and the knowledge of a mutex. */
  datatype Local = Local(n: nat, started: bool, phase: Phase, ready: bool)

  function Weight(k: Code): nat
    decreases k
  {
    if k == [] then 0 else Weight1(k[0]) + Weight(k[1..])
  }

  function Weight1(i: Instr): (w: nat)
    ensures w >= 1
    decreases i
  {
    match i
    case Test(no, yes) => 1 + Weight(no) + Weight(yes)
    case Op(fail, ok) => 1 + Weight(fail) + Weight(ok)
    case Sign(negative, positive) => 1 + Weight(negative) + Weight(positive)
    case Start(a, b, c, d) => 1 + Weight(a) + Weight(b) + Weight(c) + Weight(d)
    case _ => 1
  }

  lemma {:induction false} WeightConcat(a: Code, b: Code)
    ensures Weight(a + b) == Weight(a) + Weight(b)
  {
    if a == [] {
      assert a + b == b;
    } else {
      assert (a + b)[1..] == a[1..] + b;
      WeightConcat(a[1..], b);
    }
  }

  /** The pieces of code an instruction may go on with. */
  function Branches(i: Instr): seq<Code> {
    match i
    case Test(no, yes) => [no, yes]
    case Op(fail, ok) => [fail, ok]
    case Sign(negative, positive) => [negative, positive]
    case Start(a, b, c, d) => [a, b, c, d]
    case _ => []
  }

  lemma {:induction false} Lighter(k: Code)
    requires k != []
    ensures Weight(k[1..]) < Weight(k)
    ensures forall b <- Branches(k[0]) :: Weight(b + k[1..]) < Weight(k)
  {
    forall b <- Branches(k[0]) ensures Weight(b + k[1..]) < Weight(k) {
      WeightConcat(b, k[1..]);
      assert Weight(b) < Weight1(k[0]);
    }
  }

  /**
   Run from `l`, the code asks the driver for something, releases and marks only with the bus in hand, takes
   the bus mutex only once there is one, makes one only after a look under the library lock, and ends outside
   that lock with the bus held once if started and not at all otherwise.
   */
  ghost predicate Good(k: Code, l: Local)
    decreases Weight(k)
  {
    if k == [] then l.n == (if l.started then 1 else 0) && l.phase.Out?
    else
      Lighter(k);
      var rest := k[1..];
      assert forall b <- Branches(k[0]) :: Weight(b + rest) < Weight(k);
      match k[0]
      case Check => l.phase.Out? && Good(rest, l.(ready := true))
      case LibLock => l.phase.Out? && Good(rest, l.(phase := Locked))
      case Recheck => l.phase.Locked? && Good(rest, l.(phase := Done, ready := true))
      case Create => l.phase.Making? && Good(rest, l.(phase := Done, ready := true))
      case Publish(_) => l.phase.Making? && Good(rest, l.(phase := Done, ready := true))
      case LibUnlock => l.phase.Done? && Good(rest, l.(phase := Out))
      case Acquire => l.phase.Out? && l.ready && Good(rest, l.(n := l.n + 1))
      case Release => l.phase.Out? && l.n >= (if l.started then 2 else 1) && Good(rest, l.(n := l.n - 1))
      case Test(no, yes) =>
        l.phase.Out? && l.n >= 1 && Good((if l.started then yes else no) + rest, l)
      case Drive => l.phase.Out? && l.n >= 1 && Good(rest, l)
      case Pass => l.phase.Out? && Good(rest, l)
      case Op(fail, ok) =>
        l.phase.Out? && l.n >= 1 && Good(fail + rest, l) && Good(ok + rest, l)
      case Sign(negative, positive) =>
        l.phase.Out? && Good(negative + rest, l) && Good(positive + rest, l)
      case Start(first, again, failed, failedAgain) =>
        l.phase.Out? && l.n >= 1 &&
        (if l.started then Good(again + rest, l) && Good(failedAgain + rest, l)
         else Good(first + rest, l) && Good(failed + rest, l))
      case SetStarted => l.phase.Out? && l.n >= 1 && !l.started && Good(rest, l.(started := true))
      case ClearStarted => l.phase.Out? && l.n >= 1 && l.started && Good(rest, l.(started := false))
      case Released => l.phase.Out? && l.n == 0 && !l.started && Good(rest, l)
  }

  lemma {:induction false} GoodReady(k: Code, l: Local)
    requires Good(k, l)
    ensures Good(k, l.(ready := true))
    decreases Weight(k)
  {
    if k != [] {
      Lighter(k);
      hide Weight, Weight1;
      var rest := k[1..];
      match k[0] {
        case Check =>
        case LibLock => GoodReady(rest, l.(phase := Locked));
        case Recheck =>
        case Create =>
        case Publish(_) =>
        case LibUnlock => GoodReady(rest, l.(phase := Out));
        case Acquire => GoodReady(rest, l.(n := l.n + 1));
        case Release => GoodReady(rest, l.(n := l.n - 1));
        case Test(no, yes) =>
          assert yes in Branches(k[0]) && no in Branches(k[0]);
          GoodReady((if l.started then yes else no) + rest, l);
        case Drive => GoodReady(rest, l);
        case Pass => GoodReady(rest, l);
        case Sign(negative, positive) =>
          assert negative in Branches(k[0]) && positive in Branches(k[0]);
          GoodReady(negative + rest, l);
          GoodReady(positive + rest, l);
        case Op(fail, ok) =>
          assert fail in Branches(k[0]) && ok in Branches(k[0]);
          GoodReady(fail + rest, l);
          GoodReady(ok + rest, l);
        case Start(first, again, failed, failedAgain) =>
          assert first in Branches(k[0]) && again in Branches(k[0]);
          assert failed in Branches(k[0]) && failedAgain in Branches(k[0]);
          if l.started {
            GoodReady(again + rest, l);
            GoodReady(failedAgain + rest, l);
          } else {
            GoodReady(first + rest, l);
            GoodReady(failed + rest, l);
          }
        case SetStarted => GoodReady(rest, l.(started := true));
        case ClearStarted => GoodReady(rest, l.(started := false));
        case Released => GoodReady(rest, l);
      }
    }
  }

  // ---------------------------------------------------------------- the invariant

  function PhaseOf(s: State, t: nat): Phase {
    if s.lib != Some(t) then Out
    else if Within(s).None? then Done
    else
      match Within(s).value
      case Recheck => Locked
      case Create => Making
      case Publish(_) => Making
      case _ => Done
  }

  function LocalOf(s: State, t: nat): Local {
    Local(if s.owner == Some(t) then s.nest else 0, s.owner == Some(t) && s.started, PhaseOf(s, t), s.mutex.Some?)
  }

  /** The next instruction of the thread that has the library lock. */
  function Within(s: State): Option<Instr> {
    if s.lib.Some? && s.lib.value in s.code && s.code[s.lib.value] != [] then Some(s.code[s.lib.value][0]) else None
  }

  predicate Storing(s: State) {
    Within(s).Some? && Within(s).value.Publish?
  }

  /**
   The mutexes ever created are the stored one and the one under way to be stored, and there are never both; the bus is
   owned while it is held, and started only while it is owned.
   */
  predicate Shape(s: State) {
    && s.created == (if s.mutex.Some? then 1 else 0) + (if Storing(s) then 1 else 0)
    && (Within(s).Some? && (Within(s).value.Create? || Within(s).value.Publish?) ==> s.mutex.None?)
    && (s.owner.Some? ==> s.mutex.Some?)
    && (s.owner.Some? <==> s.nest > 0)
    && (s.started ==> s.owner.Some?)
    && (s.owner.Some? ==> s.owner.value in s.code)
  }

  ghost predicate Inv(s: State) {
    Shape(s) && forall t :: t in s.code ==> Good(s.code[t], LocalOf(s, t))
  }

  predicate LibInstr(i: Instr) {
    i.Check? || i.LibLock? || i.Recheck? || i.Create? || i.Publish? || i.LibUnlock?
  }

  predicate BranchInstr(i: Instr) {
    i.Test? || i.Op? || i.Sign? || i.Start?
  }

  /** Good code, one instruction further. */
  lemma {:induction false} UnfoldLib(k: Code, l: Local)
    requires Good(k, l) && k != [] && LibInstr(k[0])
    ensures var rest := k[1..];
      match k[0]
      case Check => l.phase.Out? && Good(rest, l.(ready := true))
      case LibLock => l.phase.Out? && Good(rest, l.(phase := Locked))
      case Recheck => l.phase.Locked? && Good(rest, l.(phase := Done, ready := true))
      case LibUnlock => l.phase.Done? && Good(rest, l.(phase := Out))
      case _ => l.phase.Making? && Good(rest, l.(phase := Done, ready := true))
  {
    hide Weight, Weight1, Branches;
  }

  lemma {:induction false} UnfoldBus(k: Code, l: Local)
    requires Good(k, l) && k != [] && !LibInstr(k[0]) && !BranchInstr(k[0])
    ensures l.phase.Out?
    ensures var rest := k[1..];
      match k[0]
      case Acquire => Good(rest, l.(n := l.n + 1))
      case Release => l.n >= (if l.started then 2 else 1) && Good(rest, l.(n := l.n - 1))
      case SetStarted => l.n >= 1 && Good(rest, l.(started := true))
      case ClearStarted => l.n >= 1 && Good(rest, l.(started := false))
      case _ => Good(rest, l)
  {
    hide Weight, Weight1, Branches;
  }

  lemma {:induction false} UnfoldBranch(k: Code, l: Local)
    requires Good(k, l) && k != [] && BranchInstr(k[0])
    ensures l.phase.Out?
    ensures var rest := k[1..];
      match k[0]
      case Test(no, yes) => l.n >= 1 && Good((if l.started then yes else no) + rest, l)
      case Op(fail, ok) => Good(fail + rest, l) && Good(ok + rest, l)
      case Sign(negative, positive) => Good(negative + rest, l) && Good(positive + rest, l)
      case Start(first, again, failed, failedAgain) =>
        l.n >= 1 &&
        (if l.started then Good(again + rest, l) && Good(failedAgain + rest, l)
         else Good(first + rest, l) && Good(failed + rest, l))
      case _ => true
  {
    hide Weight, Weight1, Branches;
  }

  lemma {:induction false} StepLib(s: State, t: nat, ok: bool)
    requires Shape(s) && Enabled(s, t, Go(ok)) && Good(s.code[t], LocalOf(s, t)) && LibInstr(s.code[t][0])
    ensures var s' := Next(s, t, Go(ok)); t in s'.code && Good(s'.code[t], LocalOf(s', t))
  {
    hide Good;
    var k, l := s.code[t], LocalOf(s, t);
    UnfoldLib(k, l);
    if k[0].Check? && s.mutex.None? { MakeGood(k[1..], l); }
    if k[0].LibLock? { PhaseHead(k[1..], l.(phase := Locked)); }
    if k[0].Recheck? {
      PhaseHead(k[1..], l.(phase := Done, ready := true));
      MakingGood(Create, k[1..], l.(phase := Making));
    }
    if k[0].Create? { MakingGood(Publish(s.created), k[1..], l); }
    if k[0].Publish? { PhaseHead(k[1..], l.(phase := Done, ready := true)); }
  }

  lemma {:induction false} StepBus(s: State, t: nat, ok: bool)
    requires Shape(s) && Enabled(s, t, Go(ok)) && Good(s.code[t], LocalOf(s, t)) && !LibInstr(s.code[t][0])
    ensures var s' := Next(s, t, Go(ok)); t in s'.code && Good(s'.code[t], LocalOf(s', t))
  {
    hide Good;
    if BranchInstr(s.code[t][0]) {
      UnfoldBranch(s.code[t], LocalOf(s, t));
    } else {
      UnfoldBus(s.code[t], LocalOf(s, t));
    }
  }

  /** One step by one thread: its own code stays good. */
  lemma {:induction false} StepOwn(s: State, t: nat, ok: bool)
    requires Inv(s) && Enabled(s, t, Go(ok))
    ensures var s' := Next(s, t, Go(ok)); t in s'.code && Good(s'.code[t], LocalOf(s', t))
  {
    hide Good, Next, Shape, LocalOf, LibInstr;
    if LibInstr(s.code[t][0]) { StepLib(s, t, ok); } else { StepBus(s, t, ok); }
  }

  /** The code that goes with each phase. */
  lemma {:induction false} PhaseHead(k: Code, l: Local)
    requires Good(k, l) && !l.phase.Out?
    ensures k != []
    ensures l.phase.Locked? ==> k[0].Recheck?
    ensures l.phase.Making? ==> k[0].Create? || k[0].Publish?
    ensures l.phase.Done? ==> k[0].LibUnlock?
  {
  }

  lemma {:induction false} MakingGood(i: Instr, k: Code, l: Local)
    requires l.phase.Making? && (i.Create? || i.Publish?) && Good(k, l.(phase := Done, ready := true))
    ensures Good([i] + k, l)
  {
    assert ([i] + k)[1..] == k;
  }

  /** Looking again, and making a mutex if need be, under the library lock. */
  lemma {:induction false} MakeGood(k: Code, l: Local)
    requires l.phase.Out? && Good(k, l.(ready := true))
    ensures Good([LibLock, Recheck, LibUnlock] + k, l)
  {
    var more := [LibLock, Recheck, LibUnlock] + k;
    assert more[1..] == [Recheck, LibUnlock] + k;
    assert more[1..][1..] == [LibUnlock] + k;
    assert more[1..][1..][1..] == k;
    assert Good(more[1..][1..], l.(phase := Done, ready := true));
    assert Good(more[1..], l.(phase := Locked));
  }

  /** A step of `t` leaves another thread what it has; a mutex may have appeared. */
  lemma {:induction false} LocalKept(s: State, t: nat, a: Act, u: nat)
    requires Shape(s) && Enabled(s, t, a) && Good(s.code[t], LocalOf(s, t)) && u in s.code && u != t
    ensures var s' := Next(s, t, a);
      u in s'.code && s'.code[u] == s.code[u] &&
        (LocalOf(s', u) == LocalOf(s, u) || LocalOf(s', u) == LocalOf(s, u).(ready := true))
  {
    hide Good, Shape, Next, LocalOf, LibInstr;
    if a.Go? && LibInstr(s.code[t][0]) {
      LibLocalKept(s, t, a.ok, u);
    } else {
      BusLocalKept(s, t, a, u);
    }
  }

  lemma {:induction false} LibLocalKept(s: State, t: nat, ok: bool, u: nat)
    requires Shape(s) && Enabled(s, t, Go(ok)) && Good(s.code[t], LocalOf(s, t)) && u in s.code && u != t
    requires LibInstr(s.code[t][0])
    ensures var s' := Next(s, t, Go(ok));
      u in s'.code && s'.code[u] == s.code[u] &&
        (LocalOf(s', u) == LocalOf(s, u) || LocalOf(s', u) == LocalOf(s, u).(ready := true))
  {
    hide Good;
    UnfoldLib(s.code[t], LocalOf(s, t));
  }

  lemma {:induction false} BusLocalKept(s: State, t: nat, a: Act, u: nat)
    requires Shape(s) && Enabled(s, t, a) && Good(s.code[t], LocalOf(s, t)) && u in s.code && u != t
    requires a.Begin? || !LibInstr(s.code[t][0])
    ensures var s' := Next(s, t, a);
      u in s'.code && s'.code[u] == s.code[u] && LocalOf(s', u) == LocalOf(s, u)
  {
    hide Good, Body;
    HeadFacts(s.code[t], LocalOf(s, t));
  }

  lemma {:induction false} StepOthers(s: State, t: nat, a: Act, u: nat)
    requires Inv(s) && Enabled(s, t, a) && u in s.code && u != t
    ensures Good(Next(s, t, a).code[u], LocalOf(Next(s, t, a), u))
  {
    hide Good, Shape, Enabled, Next, LocalOf;
    EnabledIn(s, t, a);
    LocalKept(s, t, a, u);
    GoodReady(s.code[u], LocalOf(s, u));
  }

  lemma EnabledIn(s: State, t: nat, a: Act)
    requires Enabled(s, t, a)
    ensures t in s.code
  {
  }

  // ---------------------------------------------------------------- the library keeps the discipline

  const OFF := Local(0, false, Out, true)
  const ON := Local(1, true, Out, true)

  /** Between calls: the bus held once, started; or not held. */
  predicate Idle(l: Local) {
    l.phase.Out? && l.n == (if l.started then 1 else 0)
  }

  /** The rule for each instruction the library uses. */
  lemma {:induction false} Rules(l: Local, k: Code)
    ensures l.phase.Out? && Good(k, l.(ready := true)) ==> Good([Check] + k, l)
    ensures l.phase.Out? && l.ready && Good(k, l.(n := l.n + 1)) ==> Good([Acquire] + k, l)
    ensures l.phase.Out? && l.n >= (if l.started then 2 else 1) && Good(k, l.(n := l.n - 1)) ==> Good([Release] + k, l)
    ensures l.phase.Out? && l.n >= 1 && Good(k, l) ==> Good([Drive] + k, l)
    ensures l.phase.Out? && l.n >= 1 && !l.started && Good(k, l.(started := true)) ==> Good([SetStarted] + k, l)
    ensures l.phase.Out? && l.n >= 1 && l.started && Good(k, l.(started := false)) ==> Good([ClearStarted] + k, l)
  {
    assert ([Check] + k)[1..] == k && ([Acquire] + k)[1..] == k && ([Release] + k)[1..] == k;
    assert ([Drive] + k)[1..] == k && ([SetStarted] + k)[1..] == k && ([ClearStarted] + k)[1..] == k;
  }

  lemma {:induction false} BranchRules(l: Local, i: Instr, k: Code)
    requires l.phase.Out? && l.n >= 1
    ensures i.Test? && Good((if l.started then i.yes else i.no) + k, l) ==> Good([i] + k, l)
    ensures i.Op? && Good(i.fail + k, l) && Good(i.ok + k, l) ==> Good([i] + k, l)
    ensures i.Start? && l.started && Good(i.again + k, l) && Good(i.failedAgain + k, l) ==> Good([i] + k, l)
    ensures i.Start? && !l.started && Good(i.first + k, l) && Good(i.failed + k, l) ==> Good([i] + k, l)
  {
    assert ([i] + k)[1..] == k;
  }

  lemma {:induction false} LockGood(l: Local, rest: Code)
    requires l.phase.Out? && Good(rest, Local(l.n + 1, l.started, Out, true))
    ensures Good(Lock() + rest, l)
  {
    hide Good;
    var r, taken := l.(ready := true), [Acquire] + rest;
    assert r.(n := r.n + 1) == Local(l.n + 1, l.started, Out, true);
    Rules(r, rest);
    assert Good(taken, r);
    Rules(l, taken);
    assert Lock() + rest == [Check] + taken;
  }

  /** `not_started`: only with a started bus in hand does the code for `yes` run. */
  lemma {:induction false} NotStartedGood(l: Local, no: Code, yes: Code, rest: Code)
    requires l.phase.Out? && (l.started ==> 1 <= l.n)
    requires Good((if l.started then yes else no) + rest, l.(ready := true))
    ensures Good(NotStarted(no, yes) + rest, l)
  {
    hide Good;
    var test, branch := Test([Release] + no, [Release] + yes), if l.started then yes else no;
    var l' := Local(l.n + 1, l.started, Out, true);
    Rules(l', branch + rest);
    assert ([Release] + branch) + rest == [Release] + (branch + rest);
    BranchRules(l', test, rest);
    LockGood(l, [test] + rest);
    assert NotStarted(no, yes) + rest == Lock() + ([test] + rest);
  }

  /** With the bus started and in hand, stopping it gives up one hold. */
  lemma {:induction false} StoppingGood(l: Local, rest: Code)
    requires l.phase.Out? && l.started && l.ready && 1 <= l.n && Good(rest, Local(l.n - 1, false, Out, true))
    ensures Good([Drive, ClearStarted, Release] + rest, l)
  {
    hide Good;
    var stopped := l.(started := false);
    assert stopped.(n := stopped.n - 1) == Local(l.n - 1, false, Out, true);
    var release := [Release] + rest;
    Rules(stopped, rest);
    assert Good(release, stopped);
    var clear := [ClearStarted] + release;
    Rules(l, release);
    assert Good(clear, l);
    Rules(l, clear);
    assert [Drive, ClearStarted, Release] + rest == [Drive] + clear;
  }

  lemma {:induction false} StopGood(l: Local, rest: Code)
    requires l.phase.Out? && (l.started ==> 1 <= l.n)
    requires Good(rest, if l.started then Local(l.n - 1, false, Out, true) else l.(ready := true))
    ensures Good(SendStop() + rest, l)
  {
    hide Good;
    if l.started {
      StoppingGood(l.(ready := true), rest);
    } else {
      assert [] + rest == rest;
    }
    NotStartedGood(l, [], [Drive, ClearStarted, Release], rest);
  }

  /** What follows the driver's answer to a restart: one hold is given back, or both. */
  lemma {:induction false} RestartGood(l: Local, fail: Code, ok: Code, rest: Code)
    requires l == Local(2, true, Out, true) && Good(ok + rest, ON) && Good(fail + rest, OFF)
    ensures Good(([Release] + ok) + rest, l) && Good((SendStop() + [Release] + fail) + rest, l)
  {
    hide Good;
    var done := fail + rest;
    Rules(l, ok + rest);
    assert ([Release] + ok) + rest == [Release] + (ok + rest);
    Rules(Local(1, false, Out, true), done);
    StopGood(l, [Release] + done);
    assert (SendStop() + [Release] + fail) + rest == SendStop() + ([Release] + done);
  }

  lemma {:induction false} FirstStartGood(l: Local, fail: Code, ok: Code, rest: Code)
    requires l == Local(1, false, Out, true) && Good(ok + rest, ON) && Good(fail + rest, OFF)
    ensures Good(([SetStarted] + ok) + rest, l) && Good(([Drive, Release] + fail) + rest, l)
  {
    hide Good;
    var done := fail + rest;
    Rules(l, ok + rest);
    assert ([SetStarted] + ok) + rest == [SetStarted] + (ok + rest);
    Rules(l, done);
    Rules(l, [Release] + done);
    assert ([Drive, Release] + fail) + rest == [Drive] + ([Release] + done);
  }

  lemma {:induction false} StartGood(l: Local, fail: Code, ok: Code, rest: Code)
    requires Idle(l) && Good(ok + rest, ON) && Good(fail + rest, OFF)
    ensures Good(SendStart(fail, ok) + rest, l)
  {
    hide Good;
    var l' := Local(l.n + 1, l.started, Out, true);
    var start := Start([SetStarted] + ok, [Release] + ok, [Drive, Release] + fail, SendStop() + [Release] + fail);
    if l.started {
      RestartGood(l', fail, ok, rest);
    } else {
      FirstStartGood(l', fail, ok, rest);
    }
    BranchRules(l', start, rest);
    LockGood(l, [start] + rest);
    assert SendStart(fail, ok) + rest == Lock() + ([start] + rest);
  }

  /** A failing transfer gives the bus up, a good one goes on with it. */
  lemma {:induction false} TransferGood(ok: Code, rest: Code)
    requires Good(ok + rest, ON) && Good(rest, OFF)
    ensures Good([Op(SendStop(), ok)] + rest, ON)
  {
    hide Good;
    StopGood(ON, rest);
    BranchRules(ON, Op(SendStop(), ok), rest);
  }

  lemma {:induction false} EndGood(l: Local)
    requires Idle(l)
    ensures Good([], l)
  {
  }

  lemma {:induction false} ReleasedGood()
    ensures Good([Released], OFF)
  {
    assert [Released][1..] == [];
    EndGood(OFF);
  }

  lemma {:induction false} StartTransferGood(l: Local, done: Code, rest: Code)
    requires Idle(l) && Good(done + rest, ON) && Good(rest, OFF)
    ensures Good(StartTransfer(done) + rest, l)
  {
    hide Good;
    var inner := [Op(SendStop(), done)];
    TransferGood(done, rest);
    TransferGood(inner, rest);
    assert [] + rest == rest;
    StartGood(l, [], [Op(SendStop(), inner)], rest);
  }

  lemma {:induction false} PassGood(l: Local)
    requires Idle(l)
    ensures Good([Pass], l)
  {
    assert [Pass][1..] == [];
    EndGood(l);
  }

  /** A driver request that fails gives the bus up if the error is negative and keeps it otherwise. */
  lemma {:induction false} RequestGood(ok: Code)
    requires Good(ok, ON)
    ensures Good([Op([Sign(SendStop(), [])], ok)], ON)
  {
    hide Good;
    EndGood(ON);
    EndGood(OFF);
    var none: Code := [];
    StopGood(ON, none);
    assert SendStop() + none == SendStop() && none + none == none && ok + none == ok;
    SignRule(ON, SendStop(), none, none);
    var give := [Sign(SendStop(), none)];
    assert give + none == give;
    BranchRules(ON, Op(give, ok), none);
    assert [Op(give, ok)] + none == [Op(give, ok)];
  }

  lemma {:induction false} SignRule(l: Local, negative: Code, positive: Code, k: Code)
    requires l.phase.Out? && Good(negative + k, l) && Good(positive + k, l)
    ensures Good([Sign(negative, positive)] + k, l)
  {
    assert ([Sign(negative, positive)] + k)[1..] == k;
  }

  lemma {:induction false} ModeTransferGood(l: Local)
    requires Idle(l)
    ensures Good(ModeTransfer(), l)
  {
    hide Good;
    EndGood(ON);
    EndGood(OFF);
    EndGood(l.(ready := true));
    var none: Code := [];
    var give := [Sign(SendStop(), none)];
    RequestGood(none);
    RequestGood([Op(give, none)]);
    var requests := [Op(give, [Op(give, none)])];
    assert requests + none == requests && none + none == none;
    StartGood(l.(ready := true), none, requests, none);
    var start := SendStart(none, requests);
    assert start + none == start;
    NotStartedGood(l, none, start, none);
    assert ModeTransfer() + none == ModeTransfer();
  }

  /** Whatever is called between calls keeps the discipline. */
  lemma {:induction false} BodyGood(c: Call, l: Local)
    requires Idle(l)
    ensures Good(Body(c), l)
  {
    hide Good;
    EndGood(ON);
    EndGood(OFF);
    EndGood(l.(ready := true));
    var none: Code := [];
    assert none + none == none;
    match c {
      case CallStart =>
        StartGood(l, [], [], []);
        assert SendStart([], []) + [] == SendStart([], []);
      case CallStop =>
        StopGood(l, []);
        assert SendStop() + [] == SendStop();
      case CallTransfer =>
        var op := [Op(SendStop(), [])];
        assert op + none == op;
        TransferGood([], []);
        NotStartedGood(l, [], op, []);
        assert Transfer() + [] == Transfer();
      case CallStartTransfer =>
        StartTransferGood(l, [], []);
        assert StartTransfer([]) + [] == StartTransfer([]);
      case CallModeTransfer => ModeTransferGood(l);
      case CallPass => PassGood(l);
      case CallRaw(count) =>
        EndGood(l);
        ReleasedGood();
        StopGood(ON, [Released]);
        StartTransferGood(l, SendStop(), [Released]);
    }
  }

  // ---------------------------------------------------------------- all interleavings

  lemma {:induction false} StepInv(s: State, t: nat, a: Act)
    requires Inv(s) && Enabled(s, t, a)
    ensures Inv(Next(s, t, a))
  {
    hide Good, Shape, LocalOf, Next, Enabled;
    var s' := Next(s, t, a);
    SameThreads(s, t, a);
    forall u | u in s'.code && u != t ensures Good(s'.code[u], LocalOf(s', u)) { StepOthers(s, t, a, u); }
    match a {
      case Begin(c) => BeginOwn(s, t, c);
      case Go(ok) => StepOwn(s, t, ok);
    }
    StepShape(s, t, a);
  }

  lemma SameThreads(s: State, t: nat, a: Act)
    requires Enabled(s, t, a)
    ensures Next(s, t, a).code.Keys == s.code.Keys && t in s.code
  {
    hide Body;
  }

  lemma {:induction false} BeginOwn(s: State, t: nat, c: Call)
    requires Inv(s) && Enabled(s, t, Begin(c))
    ensures var s' := Next(s, t, Begin(c)); t in s'.code && Good(s'.code[t], LocalOf(s', t))
  {
    HeadFacts(s.code[t], LocalOf(s, t));
    hide Good, Body;
    BodyGood(c, LocalOf(s, t));
  }

  lemma {:induction false} StepShape(s: State, t: nat, a: Act)
    requires Inv(s) && Enabled(s, t, a)
    ensures Shape(Next(s, t, a))
  {
    assert Shape(s) && Good(s.code[t], LocalOf(s, t));
    hide Good, Inv, Shape, Next, LibInstr, LocalOf;
    if a.Begin? || !LibInstr(s.code[t][0]) {
      BusShape(s, t, a);
    } else {
      LibShape(s, t, a.ok);
    }
  }

  /** Outside the library lock the mutex and the lock holder's code are left alone. */
  lemma {:induction false} BusShape(s: State, t: nat, a: Act)
    requires Shape(s) && Enabled(s, t, a) && Good(s.code[t], LocalOf(s, t))
    requires a.Begin? || !LibInstr(s.code[t][0])
    ensures Shape(Next(s, t, a))
  {
    hide Good, Body;
    HeadFacts(s.code[t], LocalOf(s, t));
    if s.lib == Some(t) { PhaseHead(s.code[t], LocalOf(s, t)); }
  }

  /** Under the library lock one mutex is made at most, and it is stored before anyone else may look. */
  lemma {:induction false} LibShape(s: State, t: nat, ok: bool)
    requires Shape(s) && Enabled(s, t, Go(ok)) && Good(s.code[t], LocalOf(s, t)) && LibInstr(s.code[t][0])
    ensures Shape(Next(s, t, Go(ok)))
  {
    hide Good;
    var k, l := s.code[t], LocalOf(s, t);
    UnfoldLib(k, l);
    if k[0].LibLock? { PhaseHead(k[1..], l.(phase := Locked)); }
    if k[0].Recheck? || k[0].Publish? { PhaseHead(k[1..], l.(phase := Done, ready := true)); }
  }

  /** What good code's next instruction may rely on. */
  lemma {:induction false} HeadFacts(k: Code, l: Local)
    requires Good(k, l)
    ensures k == [] ==> Idle(l)
    ensures k != [] && k[0].Release? && l.started ==> l.n >= 2
    ensures k != [] && (k[0].SetStarted? || k[0].ClearStarted?) ==> l.n >= 1
  {
  }

  /** A registered bus nobody has used yet, and threads outside the library. */
  predicate Fresh(s: State) {
    && s.mutex == None && s.created == 0 && s.owner == None && s.nest == 0 && s.lib == None && !s.started
    && forall t :: t in s.code ==> s.code[t] == []
  }

  /** `run` is an interleaving that starts in `s`. */
  predicate Possible(s: State, run: seq<(nat, Act)>)
    decreases |run|
  {
    run != [] ==> Enabled(s, run[0].0, run[0].1) && Possible(Next(s, run[0].0, run[0].1), run[1..])
  }

  function After(s: State, run: seq<(nat, Act)>): State
    requires Possible(s, run)
    decreases |run|
  {
    if run == [] then s else After(Next(s, run[0].0, run[0].1), run[1..])
  }

  lemma {:induction false} RunInv(s: State, run: seq<(nat, Act)>)
    requires Inv(s) && Possible(s, run)
    ensures Inv(After(s, run))
    decreases |run|
  {
    hide Inv, Enabled, Next;
    if run != [] {
      StepInv(s, run[0].0, run[0].1);
      RunInv(Next(s, run[0].0, run[0].1), run[1..]);
    }
  }

  /** About to call the bus driver. */
  predicate AtDriver(s: State, t: nat) {
    t in s.code && s.code[t] != [] && (s.code[t][0].Drive? || s.code[t][0].Op? || s.code[t][0].Start?)
  }

  /**
   Tenure, over every interleaving from a fresh bus: at most one mutex is ever created; whoever is about to
   call the bus driver, or finds the bus started, owns it; nothing is released that is not held, and there
   is a mutex to take; outside the library a thread holds the bus once if it has started it and not at all
   otherwise; and the raw calls return with the bus released.
   */
  lemma {:induction false} Tenure(s: State, run: seq<(nat, Act)>, t: nat)
    requires Fresh(s) && Possible(s, run) && t in After(s, run).code
    ensures var r := After(s, run);
      && r.created <= 1
      && (AtDriver(r, t) ==> r.owner == Some(t))
      && (r.code[t] == [] ==> (r.owner == Some(t) ==> r.started && r.nest == 1))
      && (r.code[t] != [] ==>
            match r.code[t][0]
            case Test(_, _) => r.owner == Some(t)
            case Acquire => r.mutex.Some?
            case Release => r.owner == Some(t) && 0 < r.nest
            case SetStarted => r.owner == Some(t) && !r.started
            case ClearStarted => r.owner == Some(t) && r.started
            case Create => r.lib == Some(t) && r.mutex.None?
            case Publish(_) => r.lib == Some(t) && r.mutex.None?
            case LibUnlock => r.lib == Some(t)
            case Released => r.owner != Some(t)
            case _ => true)
  {
    FreshInv(s);
    RunInv(s, run);
    assert Good(After(s, run).code[t], LocalOf(After(s, run), t));
    hide Possible, After;
  }

  /** Two threads are never in the bus driver at once. */
  lemma {:induction false} OneInDriver(s: State, run: seq<(nat, Act)>, t: nat, u: nat)
    requires Fresh(s) && Possible(s, run)
    requires AtDriver(After(s, run), t) && AtDriver(After(s, run), u)
    ensures t == u
  {
    hide Possible, After, Fresh;
    Tenure(s, run, t);
    Tenure(s, run, u);
  }

  /** When no call is under way, the bus is held exactly when it is started, once, by one thread. */
  lemma {:induction false} Quiescent(s: State, run: seq<(nat, Act)>)
    requires Fresh(s) && Possible(s, run)
    requires forall t :: t in After(s, run).code ==> After(s, run).code[t] == []
    ensures var r := After(s, run);
      && (r.started <==> r.owner.Some?)
      && (r.started ==> r.nest == 1) && (!r.started ==> r.nest == 0)
  {
    FreshInv(s);
    RunInv(s, run);
    var r := After(s, run);
    if r.owner.Some? { Tenure(s, run, r.owner.value); }
  }

  // ---------------------------------------------------------------- what a raw call leaves behind

  /** In this run `t` begins no call. */
  predicate Quiet(run: seq<(nat, Act)>, t: nat) {
    forall i :: 0 <= i < |run| && run[i].0 == t ==> run[i].1.Go?
  }

  lemma {:induction false} OwnerKept(s: State, t: nat, a: Act, u: nat)
    requires Inv(s) && Enabled(s, t, a) && u in s.code && u != t
    ensures var s' := Next(s, t, a);
            u in s'.code && s'.code[u] == s.code[u] && (s'.owner == Some(u) <==> s.owner == Some(u))
  {
    hide Good, Next, Enabled, PhaseOf;
    EnabledIn(s, t, a);
    LocalKept(s, t, a, u);
    StepShape(s, t, a);
  }

  /** `t` is on its way to the mark at the end of a raw call, or has passed it without the bus. */
  predicate Ending(s: State, t: nat) {
    t in s.code && if s.code[t] == [] then s.owner != Some(t) else s.code[t][|s.code[t]| - 1] == Released
  }

  lemma {:induction false} EndingStep(s: State, t: nat, ok: bool)
    requires Inv(s) && Enabled(s, t, Go(ok)) && Ending(s, t)
    ensures Ending(Next(s, t, Go(ok)), t)
  {
    var k := s.code[t];
    assert Good(k, LocalOf(s, t));
    if |k| == 1 {
      ReleasedFree(k, LocalOf(s, t));
    } else {
      hide Good, LocalOf;
      assert k[1..][|k| - 2] == k[|k| - 1];
    }
  }

  lemma {:induction false} ReleasedFree(k: Code, l: Local)
    requires Good(k, l) && k != [] && k[0] == Released
    ensures l.n == 0
  {
  }

  /** The rest of a run: the mark is passed without the bus, and a thread that does nothing keeps what it has. */
  lemma {:induction false} RestOfRun(s: State, t: nat, run: seq<(nat, Act)>)
    requires Inv(s) && Possible(s, run) && Quiet(run, t) && t in s.code
    ensures t in After(s, run).code
    ensures Ending(s, t) ==> Ending(After(s, run), t)
    ensures s.code[t] == [] ==> (After(s, run).owner == Some(t) <==> s.owner == Some(t))
    decreases |run|
  {
    if run != [] {
      var u, a := run[0].0, run[0].1;
      var s' := Next(s, u, a);
      StepInv(s, u, a);
      SameThreads(s, u, a);
      if u != t {
        OwnerKept(s, u, a, t);
      } else if Ending(s, t) {
        EndingStep(s, t, a.ok);
      }
      assert Quiet(run[1..], t);
      hide Inv, Next, Body;
      RestOfRun(s', t, run[1..]);
    }
  }

  /**
   A raw call on any path returns with the bus released, unless it has no bytes to move and its caller had started
   the bus; then it returns with the bus still held.
   */
  lemma {:induction false} RawReturn(s: State, before: seq<(nat, Act)>, t: nat, count: nat, during: seq<(nat, Act)>)
    requires Fresh(s) && Possible(s, before) && Enabled(After(s, before), t, Begin(CallRaw(count)))
    requires Possible(Next(After(s, before), t, Begin(CallRaw(count))), during) && Quiet(during, t)
    requires var r := After(Next(After(s, before), t, Begin(CallRaw(count))), during); t in r.code && r.code[t] == []
    ensures var p := After(s, before); var r := After(Next(p, t, Begin(CallRaw(count))), during);
      r.owner != Some(t) <==> count > 0 || p.owner != Some(t)
  {
    FreshInv(s);
    RunInv(s, before);
    var p := After(s, before);
    var q := Next(p, t, Begin(CallRaw(count)));
    StepInv(p, t, Begin(CallRaw(count)));
    assert count > 0 ==> Ending(q, t);
    hide Inv, Good, After, Possible, Fresh, StartTransfer;
    RestOfRun(q, t, during);
  }

  lemma {:induction false} FreshInv(s: State)
    requires Fresh(s)
    ensures Inv(s)
  {
    forall u | u in s.code ensures Good(s.code[u], LocalOf(s, u)) { EndGood(LocalOf(s, u)); }
  }

  // ---------------------------------------------------------------- two runs

  lemma {:induction false} Further(s: State, run: seq<(nat, Act)>, t: nat, a: Act)
    requires Possible(s, run) && Enabled(After(s, run), t, a)
    ensures Possible(s, run + [(t, a)]) && After(s, run + [(t, a)]) == Next(After(s, run), t, a)
    decreases |run|
  {
    hide Enabled, Next;
    var all := run + [(t, a)];
    if run == [] {
      assert all[1..] == [];
    } else {
      assert all[1..] == run[1..] + [(t, a)];
      Further(Next(s, run[0].0, run[0].1), run[1..], t, a);
    }
  }

  /** A bus that has not been started, with thread 0 about to run `k` and thread 1 idle. */
  function Pair(mutex: Option<nat>, created: nat, owner: Option<nat>, lib: Option<nat>, k: Code): State {
    State(mutex, created, owner, if owner.Some? then 1 else 0, lib, false, map[0 := k, 1 := []])
  }

  /** Thread 0 takes instruction `i` on the way to its first start. */
  predicate PairRule(p: State, i: Instr, rest: Code, q: State) {
    var k := [i] + rest;
    match i
    case Check => p == Pair(None, 0, None, None, k) &&
      q == Pair(None, 0, None, None, [LibLock, Recheck, LibUnlock] + rest)
    case LibLock => p == Pair(None, 0, None, None, k) && q == Pair(None, 0, None, Some(0), rest)
    case Recheck => p == Pair(None, 0, None, Some(0), k) && q == Pair(None, 0, None, Some(0), [Create] + rest)
    case Create => p == Pair(None, 0, None, Some(0), k) && q == Pair(None, 1, None, Some(0), [Publish(0)] + rest)
    case Publish(m) => m == 0 && p == Pair(None, 1, None, Some(0), k) && q == Pair(Some(0), 1, None, Some(0), rest)
    case LibUnlock => p == Pair(Some(0), 1, None, Some(0), k) && q == Pair(Some(0), 1, None, None, rest)
    case Acquire => p == Pair(Some(0), 1, None, None, k) && q == Pair(Some(0), 1, Some(0), None, rest)
    case _ => false
  }

  lemma {:induction false} PairStep(p: State, i: Instr, rest: Code, q: State)
    requires PairRule(p, i, rest, q)
    ensures Enabled(p, 0, Go(true)) && Next(p, 0, Go(true)) == q
  {
    assert ([i] + rest)[1..] == rest;
    assert p.code[0 := q.code[0]] == q.code;
  }

  lemma {:induction false} PairMove(s: State, run: seq<(nat, Act)>, i: Instr, rest: Code, q: State)
    returns (run': seq<(nat, Act)>)
    requires Possible(s, run) && PairRule(After(s, run), i, rest, q)
    ensures Possible(s, run') && After(s, run') == q
  {
    hide Possible, After, Enabled, Next, PairRule;
    PairStep(After(s, run), i, rest, q);
    Further(s, run, 0, Go(true));
    run' := run + [(0, Go(true))];
  }

  lemma {:induction false} BeginStart(lock: Code) returns (s: State, run: seq<(nat, Act)>)
    requires SendStart([], []) == [Check] + lock
    ensures Fresh(s) && Possible(s, run) && After(s, run) == Pair(None, 0, None, None, [Check] + lock)
  {
    s, run := Pair(None, 0, None, None, []), [(0, Begin(CallStart))];
    assert run[1..] == [];
    assert s.code[0 := [Check] + lock] == map[0 := [Check] + lock, 1 := []];
  }

  /** Thread 0 makes the mutex, takes it and is about to ask the driver for a start; thread 1 is idle. */
  lemma {:induction false} AboutToStart() returns (s: State, run: seq<(nat, Act)>)
    ensures Fresh(s) && Possible(s, run)
    ensures After(s, run) == Pair(Some(0), 1, Some(0), None, SendStart([], [])[2..])
  {
    hide Possible, After, Fresh, SendStop;
    var start := SendStart([], [])[2..];
    var lock, more := [Acquire] + start, [LibUnlock] + ([Acquire] + start);
    assert SendStart([], []) == [Check] + lock;
    hide SendStart;
    s, run := BeginStart(lock);
    assert [LibLock, Recheck, LibUnlock] + lock == [LibLock] + ([Recheck] + more);
    run := PairMove(s, run, Check, lock, Pair(None, 0, None, None, [LibLock] + ([Recheck] + more)));
    run := PairMove(s, run, LibLock, [Recheck] + more, Pair(None, 0, None, Some(0), [Recheck] + more));
    run := PairMove(s, run, Recheck, more, Pair(None, 0, None, Some(0), [Create] + more));
    run := PairMove(s, run, Create, more, Pair(None, 1, None, Some(0), [Publish(0)] + more));
    run := PairMove(s, run, Publish(0), more, Pair(Some(0), 1, None, Some(0), more));
    run := PairMove(s, run, LibUnlock, lock, Pair(Some(0), 1, None, None, lock));
    run := PairMove(s, run, Acquire, start, Pair(Some(0), 1, Some(0), None, start));
  }

  /** A request the library passes straight on enters the bus driver beside the owner of the bus. */
  lemma {:induction false} PassBeside() returns (s: State, run: seq<(nat, Act)>)
    ensures Fresh(s) && Possible(s, run) && AtDriver(After(s, run), 0)
    ensures var r := After(s, run); 1 in r.code && r.code[1] == [Pass] && r.owner == Some(0)
  {
    s, run := AboutToStart();
    Further(s, run, 1, Begin(CallPass));
    run := run + [(1, Begin(CallPass))];
    hide Possible, After;
  }

  /** A raw call without bytes between start and stop: it returns at once, and the bus is still held and started. */
  lemma {:induction false} EmptyRawKeepsBus() returns (s: State, run: seq<(nat, Act)>)
    ensures Fresh(s) && Possible(s, run) && |run| > 0 && run[|run| - 1] == (0, Begin(CallRaw(0)))
    ensures var r := After(s, run); 0 in r.code && r.code[0] == [] && r.owner == Some(0) && r.started
  {
    s, run := AboutToStart();
    StartAnswered(After(s, run));
    hide Possible, After, SendStart;
    var p := After(s, run);
    Further(s, run, 0, Go(true));
    run := run + [(0, Go(true))];
    Further(s, run, 0, Go(true));
    run := run + [(0, Go(true))];
    Further(s, run, 0, Begin(CallRaw(0)));
    run := run + [(0, Begin(CallRaw(0)))];
  }

  lemma {:induction false} StartAnswered(p: State)
    requires p == Pair(Some(0), 1, Some(0), None, SendStart([], [])[2..])
    ensures Enabled(p, 0, Go(true))
    ensures var q := Next(p, 0, Go(true)); q.code.Keys == {0, 1} && q.code[0] == [SetStarted] && q.owner == Some(0)
  {
    var none: Code := [];
    assert [SetStarted] + none == [SetStarted];
    assert p.code[0][1..] == none;
  }
}
