/**
 The pool of session tasks of ftpd.c: a ring of session pointers, a counting semaphore of free sessions and a
 mutex around the ring. Any number of threads obtain and release; every access to shared state is one step, and
 the steps of different threads interleave freely.
 */
module FtpPool {
  type Session = nat

  /** Where a thread is in `task_pool_obtain` or `task_pool_release`. */
  datatype Pc =
    | Idle
    | Granted                     // took a unit of the semaphore, waits for the mutex
    | Popping                     // owns the mutex
    | Read(info: Session)         // has read queue[head]
    | Popped(info: Session)       // has advanced head
    | Returning(info: Session)    // in release, waits for the mutex
    | Pushing(info: Session)      // owns the mutex
    | Stored(info: Session)       // has written queue[tail]
    | Pushed                      // has advanced tail
    | Posting                     // has released the mutex, not yet the semaphore

  /** `out` holds the sessions that obtain returned and nobody has begun to release. */
  datatype Pool = Pool(queue: seq<Session>, head: nat, tail: nat, sem: nat, mutex: int, pcs: seq<Pc>,
                       out: multiset<Session>)

  const FREE := -1

  predicate Inside(pc: Pc) {
    !pc.Idle? && !pc.Granted? && !pc.Returning? && !pc.Posting?
  }

  // ---------------------------------------------------------------- steps

  function Next(i: nat, count: nat): nat {
    if i + 1 >= count then 0 else i + 1
  }

  datatype Action = Try | Lock | ReadHead | MoveHead | Unlock | Begin(info: Session) | Store | MoveTail | Post

  function At(p: Pool, t: nat, pc: Pc): Pool
    requires t < |p.pcs|
  {
    p.(pcs := p.pcs[t := pc])
  }

  /** Thread `t` can take the action now. A `Try` that finds the semaphore at zero returns NULL and changes nothing. */
  predicate Enabled(p: Pool, t: nat, a: Action) {
    t < |p.pcs| &&
    match a
    case Try => p.pcs[t].Idle?
    case Lock => (p.pcs[t].Granted? || p.pcs[t].Returning?) && p.mutex == FREE
    case ReadHead => p.pcs[t].Popping? && p.head < |p.queue|
    case MoveHead => p.pcs[t].Read?
    case Unlock => p.pcs[t].Popped? || p.pcs[t].Pushed?
    case Begin(s) => p.pcs[t].Idle? && s in p.out
    case Store => p.pcs[t].Pushing? && p.tail < |p.queue|
    case MoveTail => p.pcs[t].Stored?
    case Post => p.pcs[t].Posting?
  }

  function Step(p: Pool, t: nat, a: Action): Pool
    requires Enabled(p, t, a)
  {
    var pc := p.pcs[t];
    match a
    case Try => if p.sem > 0 then At(p, t, Granted).(sem := p.sem - 1) else p
    case Lock => At(p, t, if pc.Granted? then Popping else Pushing(pc.info)).(mutex := t)
    case ReadHead => At(p, t, Read(p.queue[p.head]))
    case MoveHead => At(p, t, Popped(pc.info)).(head := Next(p.head, |p.queue|))
    case Unlock =>
      if pc.Popped? then At(p, t, Idle).(mutex := FREE, out := p.out + multiset{pc.info})
      else At(p, t, Posting).(mutex := FREE)
    case Begin(s) => At(p, t, Returning(s)).(out := p.out - multiset{s})
    case Store => At(p, t, Stored(pc.info)).(queue := p.queue[p.tail := pc.info])
    case MoveTail => At(p, t, Pushed).(tail := Next(p.tail, |p.queue|))
    case Post => At(p, t, Idle).(sem := p.sem + 1)
  }

  // ---------------------------------------------------------------- the invariant

  /** Entries of the ring promised to one thread, or put there by it, that the semaphore does not count. */
  function Ticket(pc: Pc): nat {
    if pc.Granted? || pc.Popping? || pc.Read? || pc.Pushed? || pc.Posting? then 1 else 0
  }

  predicate Holding(pc: Pc) {
    pc.Popped? || pc.Returning? || pc.Pushing? || pc.Stored?
  }

  /** The session a thread has in hand, out of the ring. */
  function Hand(pc: Pc): multiset<Session> {
    if Holding(pc) then multiset{pc.info} else multiset{}
  }

  function Tickets(pcs: seq<Pc>): nat {
    if pcs == [] then 0 else Ticket(pcs[0]) + Tickets(pcs[1..])
  }

  function Hands(pcs: seq<Pc>): multiset<Session> {
    if pcs == [] then multiset{} else Hand(pcs[0]) + Hands(pcs[1..])
  }

  function Slot(head: nat, i: nat, count: nat): int {
    if head + i < count then head + i else head + i - count
  }

  /** The number of entries in the ring. */
  function Queued(p: Pool): nat {
    p.sem + Tickets(p.pcs)
  }

  /** `n` entries of the ring from `head` on. */
  function Ring(queue: seq<Session>, head: nat, n: nat): (r: seq<Session>)
    requires head < |queue| && n <= |queue|
    ensures |r| == n
  {
    seq(n, i requires 0 <= i < n => queue[Slot(head, i, |queue|)])
  }

  /** The ring, oldest entry first. */
  function Free(p: Pool): seq<Session>
    requires Shape(p)
  {
    Ring(p.queue, p.head, Queued(p))
  }

  predicate Shape(p: Pool) {
    p.head < |p.queue| && p.tail < |p.queue| && Queued(p) <= |p.queue| &&
    p.tail == Slot(p.head, Queued(p), |p.queue|)
  }

  predicate Locked(p: Pool) {
    forall t :: 0 <= t < |p.pcs| ==> (Inside(p.pcs[t]) <==> p.mutex == t)
  }

  /** What the thread inside has read or written is what the ring holds. */
  predicate Seen(p: Pool) {
    forall t :: 0 <= t < |p.pcs| ==>
      (p.pcs[t].Read? ==> p.head < |p.queue| && p.queue[p.head] == p.pcs[t].info) &&
      (p.pcs[t].Stored? ==> p.tail < |p.queue| && p.queue[p.tail] == p.pcs[t].info)
  }

  ghost predicate Inv(p: Pool, all: multiset<Session>) {
    Shape(p) && Locked(p) && Seen(p) && |all| == |p.queue| &&
    multiset(Free(p)) + Hands(p.pcs) + p.out == all
  }

  // ---------------------------------------------------------------- sums over threads

  lemma {:induction false} TicketsAt(pcs: seq<Pc>, t: nat, pc: Pc)
    requires t < |pcs|
    ensures Tickets(pcs[t := pc]) == Tickets(pcs) - Ticket(pcs[t]) + Ticket(pc)
    ensures Ticket(pcs[t]) <= Tickets(pcs)
  {
    if t == 0 {
      assert pcs[t := pc][1..] == pcs[1..];
    } else {
      assert pcs[t := pc][1..] == pcs[1..][t - 1 := pc];
      TicketsAt(pcs[1..], t - 1, pc);
    }
  }

  lemma {:induction false} HandsAt(pcs: seq<Pc>, t: nat, pc: Pc)
    requires t < |pcs|
    ensures Hands(pcs[t := pc]) + Hand(pcs[t]) == Hands(pcs) + Hand(pc)
    ensures Hand(pcs[t]) <= Hands(pcs)
  {
    hide Hand;
    if t == 0 {
      assert pcs[t := pc][1..] == pcs[1..];
      assert Hands(pcs[t := pc]) == Hand(pc) + Hands(pcs[1..]);
    } else {
      assert pcs[t := pc][1..] == pcs[1..][t - 1 := pc];
      HandsAt(pcs[1..], t - 1, pc);
      Regroup(Hand(pcs[0]), Hands(pcs[1..][t - 1 := pc]), Hand(pcs[t]), Hands(pcs[1..]), Hand(pc));
    }
  }

  lemma Regroup(h: multiset<Session>, a: multiset<Session>, x: multiset<Session>, b: multiset<Session>,
                y: multiset<Session>)
    requires a + x == b + y
    ensures h + a + x == h + b + y
  {
    assert h + a + x == h + (a + x);
    assert h + b + y == h + (b + y);
  }

  // ---------------------------------------------------------------- one step

  /** A first-in first-out queue: moving head takes the oldest entry, moving tail adds the session being released. */
  function FreeAfter(free: seq<Session>, p: Pool, t: nat, a: Action): seq<Session>
    requires Enabled(p, t, a)
  {
    if a.MoveHead? then (if free == [] then [] else free[1..])
    else if a.MoveTail? then free + [p.pcs[t].info]
    else free
  }

  lemma StepLocked(p: Pool, t: nat, a: Action)
    requires Locked(p) && Enabled(p, t, a)
    ensures Locked(Step(p, t, a))
  {}

  lemma StepSeen(p: Pool, t: nat, a: Action)
    requires Locked(p) && Seen(p) && Enabled(p, t, a)
    ensures Seen(Step(p, t, a))
  {
    var q := Step(p, t, a);
    forall u | 0 <= u < |q.pcs|
      ensures q.pcs[u].Read? ==> q.head < |q.queue| && q.queue[q.head] == q.pcs[u].info
      ensures q.pcs[u].Stored? ==> q.tail < |q.queue| && q.queue[q.tail] == q.pcs[u].info
    {
      assert u != t ==> q.pcs[u] == p.pcs[u];
    }
  }

  /** A thread with a session in hand leaves room in the ring. */
  lemma Room(p: Pool, t: nat, all: multiset<Session>)
    requires Inv(p, all) && t < |p.pcs| && Hand(p.pcs[t]) != multiset{}
    ensures Queued(p) < |p.queue|
  {
    HandsAt(p.pcs, t, Idle);
    assert |multiset(Free(p))| == Queued(p);
    assert |Hands(p.pcs)| > 0;
  }

  /** What a step does to the number of entries. */
  lemma StepQueued(p: Pool, t: nat, a: Action)
    requires Enabled(p, t, a)
    ensures Queued(Step(p, t, a)) == Queued(p) + (if a.MoveTail? then 1 else if a.MoveHead? then -1 else 0)
  {
    TicketsAt(p.pcs, t, Step(p, t, a).pcs[t]);
    assert p.pcs == p.pcs[t := p.pcs[t]];
  }

  lemma RingPop(queue: seq<Session>, head: nat, n: nat)
    requires head < |queue| && 0 < n <= |queue|
    ensures Ring(queue, Next(head, |queue|), n - 1) == Ring(queue, head, n)[1..]
    ensures Slot(Next(head, |queue|), n - 1, |queue|) == Slot(head, n, |queue|)
  {}

  lemma RingStore(queue: seq<Session>, head: nat, n: nat, info: Session)
    requires head < |queue| && n < |queue|
    ensures Ring(queue[Slot(head, n, |queue|) := info], head, n) == Ring(queue, head, n)
  {}

  lemma RingPush(queue: seq<Session>, head: nat, n: nat)
    requires head < |queue| && n < |queue|
    ensures Ring(queue, head, n + 1) == Ring(queue, head, n) + [queue[Slot(head, n, |queue|)]]
    ensures Next(Slot(head, n, |queue|), |queue|) == Slot(head, n + 1, |queue|)
  {}

  lemma PopShape(p: Pool, t: nat)
    requires Shape(p) && Enabled(p, t, MoveHead)
    ensures Free(p) != [] && Shape(Step(p, t, MoveHead)) && Free(Step(p, t, MoveHead)) == Free(p)[1..]
  {
    StepQueued(p, t, MoveHead);
    TicketsAt(p.pcs, t, Idle);
    RingPop(p.queue, p.head, Queued(p));
    hide Ring, Tickets;
  }

  lemma StoreShape(p: Pool, t: nat)
    requires Shape(p) && Enabled(p, t, Action.Store) && Queued(p) < |p.queue|
    ensures Shape(Step(p, t, Action.Store)) && Free(Step(p, t, Action.Store)) == Free(p)
  {
    StepQueued(p, t, Action.Store);
    RingStore(p.queue, p.head, Queued(p), p.pcs[t].info);
    hide Ring, Tickets;
  }

  lemma PushShape(p: Pool, t: nat)
    requires Shape(p) && Seen(p) && Enabled(p, t, MoveTail) && Queued(p) < |p.queue|
    ensures Shape(Step(p, t, MoveTail)) && Free(Step(p, t, MoveTail)) == Free(p) + [p.pcs[t].info]
  {
    StepQueued(p, t, MoveTail);
    RingPush(p.queue, p.head, Queued(p));
    hide Ring, Tickets;
  }

  lemma OtherShape(p: Pool, t: nat, a: Action)
    requires Shape(p) && Enabled(p, t, a) && !a.MoveHead? && !a.MoveTail? && !a.Store?
    ensures Shape(Step(p, t, a)) && Free(Step(p, t, a)) == Free(p)
  {
    StepQueued(p, t, a);
    hide Queued, Ring;
  }

  /** The ring behaves as that queue, and is never empty when head moves. */
  lemma StepFree(p: Pool, t: nat, a: Action, all: multiset<Session>)
    requires Inv(p, all) && Enabled(p, t, a)
    ensures a.MoveHead? ==> Free(p) != []
    ensures Shape(Step(p, t, a))
    ensures Free(Step(p, t, a)) == FreeAfter(Free(p), p, t, a)
  {
    if a.Store? || a.MoveTail? { Room(p, t, all); }
    assert Shape(p) && Seen(p);
    hide Inv, Shape, Seen, Free, Step;
    if a.MoveHead? {
      PopShape(p, t);
    } else if a.Store? {
      StoreShape(p, t);
    } else if a.MoveTail? {
      PushShape(p, t);
    } else {
      OtherShape(p, t, a);
    }
  }

  lemma TakeOldest(f: seq<Session>, o: multiset<Session>)
    requires f != []
    ensures multiset(f[1..]) + multiset{f[0]} + o == multiset(f) + multiset{} + o
  {
    assert f == [f[0]] + f[1..];
  }

  lemma AddNewest(f: seq<Session>, s: Session, o: multiset<Session>)
    ensures multiset(f + [s]) + multiset{} + o == multiset(f) + multiset{s} + o
  {}

  lemma HandOut(f: multiset<Session>, s: Session, o: multiset<Session>)
    ensures f + multiset{} + (o + multiset{s}) == f + multiset{s} + o
    ensures s in o ==> f + multiset{s} + (o - multiset{s}) == f + multiset{} + o
  {}

  lemma StepThread(p: Pool, t: nat, a: Action)
    requires Enabled(p, t, a)
    ensures t < |Step(p, t, a).pcs| && Step(p, t, a).pcs == p.pcs[t := Step(p, t, a).pcs[t]]
  {}

  lemma Oldest(p: Pool, t: nat)
    requires Shape(p) && Seen(p) && t < |p.pcs| && p.pcs[t].Read? && Free(p) != []
    ensures Free(p)[0] == p.pcs[t].info
  {}

  predicate Moves(p: Pool, t: nat, a: Action) {
    t < |p.pcs| && (a.MoveHead? || a.MoveTail? || a.Begin? || (a.Unlock? && p.pcs[t].Popped?))
  }

  lemma MovingHand(p: Pool, t: nat, a: Action)
    requires Enabled(p, t, a) && Moves(p, t, a)
    ensures var q := Step(p, t, a); var pc := p.pcs[t]; var x := Hand(pc); var y := Hand(q.pcs[t]);
            if a.MoveHead? then x == multiset{} && y == multiset{pc.info} && q.out == p.out
            else if a.MoveTail? then x == multiset{pc.info} && y == multiset{} && q.out == p.out
            else if a.Begin? then x == multiset{} && y == multiset{a.info} && q.out == p.out - multiset{a.info}
            else x == multiset{pc.info} && y == multiset{} && q.out == p.out + multiset{pc.info}
  {
    MovingPc(p, t, a);
    hide Step, Holding, Enabled;
  }

  lemma MovingPc(p: Pool, t: nat, a: Action)
    requires Enabled(p, t, a) && Moves(p, t, a)
    ensures var q := Step(p, t, a); var pc := p.pcs[t]; var pc' := q.pcs[t];
            if a.MoveHead? then !Holding(pc) && Holding(pc') && pc'.info == pc.info && q.out == p.out
            else if a.MoveTail? then Holding(pc) && !Holding(pc') && q.out == p.out
            else if a.Begin? then
              !Holding(pc) && Holding(pc') && pc'.info == a.info && q.out == p.out - multiset{a.info}
            else Holding(pc) && !Holding(pc') && q.out == p.out + multiset{pc.info}
  {}

  lemma StillHand(p: Pool, t: nat, a: Action)
    requires Enabled(p, t, a) && !Moves(p, t, a)
    ensures Hand(Step(p, t, a).pcs[t]) == Hand(p.pcs[t]) && Step(p, t, a).out == p.out
  {
    StillPc(p, t, a);
    hide Step, Holding, Moves;
  }

  lemma StillPc(p: Pool, t: nat, a: Action)
    requires Enabled(p, t, a) && !Moves(p, t, a)
    ensures var pc, pc' := p.pcs[t], Step(p, t, a).pcs[t];
            Holding(pc) == Holding(pc') && (Holding(pc) ==> pc.info == pc'.info)
    ensures Step(p, t, a).out == p.out
  {}

  /** What a step moves between the ring, the hands of the thread and `out`. */
  lemma StepMoves(p: Pool, t: nat, a: Action, all: multiset<Session>)
    requires Inv(p, all) && Enabled(p, t, a)
    ensures Shape(Step(p, t, a))
    ensures var q := Step(p, t, a); var x := Hand(p.pcs[t]); var y := Hand(q.pcs[t]);
            multiset(Free(q)) + y + q.out == multiset(Free(p)) + x + p.out
  {
    hide Inv, Shape, Seen, Free, Step, Hand, FreeAfter, Moves;
    InvParts(p, all);
    StepFree(p, t, a, all);
    var free := Free(p);
    if !Moves(p, t, a) {
      StillFree(p, t, a, free);
      StillHand(p, t, a);
    } else if a.MoveHead? {
      Oldest(p, t);
      MovesRing(p, t, a, free);
    } else if a.MoveTail? {
      MovesRing(p, t, a, free);
    } else {
      MovesOut(p, t, a, free);
    }
  }

  lemma InvParts(p: Pool, all: multiset<Session>)
    requires Inv(p, all)
    ensures Shape(p) && Seen(p)
  {
    hide Shape, Seen;
  }

  lemma StillFree(p: Pool, t: nat, a: Action, free: seq<Session>)
    requires Enabled(p, t, a) && !Moves(p, t, a)
    ensures FreeAfter(free, p, t, a) == free
  {}

  /** Between the ring and a hand. */
  lemma MovesRing(p: Pool, t: nat, a: Action, free: seq<Session>)
    requires Enabled(p, t, a) && Moves(p, t, a) && (a.MoveHead? || a.MoveTail?)
    requires a.MoveHead? ==> free != [] && free[0] == p.pcs[t].info
    ensures var q := Step(p, t, a);
            multiset(FreeAfter(free, p, t, a)) + Hand(q.pcs[t]) + q.out == multiset(free) + Hand(p.pcs[t]) + p.out
  {
    hide Step, Hand;
    MovingHand(p, t, a);
    if a.MoveHead? { TakeOldest(free, p.out); } else { AddNewest(free, p.pcs[t].info, p.out); }
  }

  /** Between a hand and `out`. */
  lemma MovesOut(p: Pool, t: nat, a: Action, free: seq<Session>)
    requires Enabled(p, t, a) && Moves(p, t, a) && !a.MoveHead? && !a.MoveTail?
    ensures var q := Step(p, t, a);
            multiset(FreeAfter(free, p, t, a)) + Hand(q.pcs[t]) + q.out == multiset(free) + Hand(p.pcs[t]) + p.out
  {
    hide Step, Hand;
    MovingHand(p, t, a);
    HandOut(multiset(free), if a.Begin? then a.info else p.pcs[t].info, p.out);
  }

  lemma Exchange(f: multiset<Session>, o: multiset<Session>, hs: multiset<Session>, x: multiset<Session>,
                 f': multiset<Session>, o': multiset<Session>, hs': multiset<Session>, y: multiset<Session>)
    requires f' + y + o' == f + x + o && hs' + x == hs + y
    ensures f' + hs' + o' == f + hs + o
  {
    forall s: Session
      ensures (f' + hs' + o')[s] == (f + hs + o)[s]
    {
      assert (f' + y + o')[s] == (f + x + o)[s] && (hs' + x)[s] == (hs + y)[s];
    }
  }

  /** Sessions move between the ring, the threads and `out`; none appears, disappears or is doubled. */
  lemma StepTotal(p: Pool, t: nat, a: Action, all: multiset<Session>)
    requires Inv(p, all) && Enabled(p, t, a)
    ensures Shape(Step(p, t, a)) && multiset(Free(Step(p, t, a))) + Hands(Step(p, t, a).pcs) + Step(p, t, a).out == all
  {
    var q := Step(p, t, a);
    assert Shape(p) && multiset(Free(p)) + Hands(p.pcs) + p.out == all;
    StepThread(p, t, a);
    hide *;
    StepMoves(p, t, a, all);
    HandsAt(p.pcs, t, q.pcs[t]);
    Exchange(multiset(Free(p)), p.out, Hands(p.pcs), Hand(p.pcs[t]), multiset(Free(q)), q.out, Hands(q.pcs),
             Hand(q.pcs[t]));
  }

  lemma RingSize(p: Pool, t: nat, a: Action)
    requires Enabled(p, t, a)
    ensures |Step(p, t, a).queue| == |p.queue|
  {}

  lemma StepInv(p: Pool, t: nat, a: Action, all: multiset<Session>)
    requires Inv(p, all) && Enabled(p, t, a)
    ensures Inv(Step(p, t, a), all)
  {
    hide Shape, Free, Hands, Locked, Seen, Step;
    RingSize(p, t, a);
    StepTotal(p, t, a, all);
    StepLocked(p, t, a);
    StepSeen(p, t, a);
  }

  // ---------------------------------------------------------------- whole runs

  /** The pool `task_pool_init` makes of its sessions, with `threads` threads that have not called it yet. */
  function Init(sessions: seq<Session>, threads: nat): Pool {
    Pool(sessions, 0, 0, |sessions|, FREE, seq(threads, _ => Idle), multiset{})
  }

  lemma {:induction false} AllIdle(pcs: seq<Pc>)
    requires forall t :: 0 <= t < |pcs| ==> pcs[t].Idle?
    ensures Tickets(pcs) == 0 && Hands(pcs) == multiset{}
  {
    if pcs != [] { AllIdle(pcs[1..]); }
  }

  lemma InitInv(sessions: seq<Session>, threads: nat)
    requires sessions != []
    ensures Inv(Init(sessions, threads), multiset(sessions))
  {
    var p := Init(sessions, threads);
    AllIdle(p.pcs);
    assert Free(p) == sessions;
  }

  predicate Runs(p: Pool, run: seq<(nat, Action)>)
    decreases |run|
  {
    run == [] || (Enabled(p, run[0].0, run[0].1) && Runs(Step(p, run[0].0, run[0].1), run[1..]))
  }

  function After(p: Pool, run: seq<(nat, Action)>): Pool
    requires Runs(p, run)
    decreases |run|
  {
    if run == [] then p else After(Step(p, run[0].0, run[0].1), run[1..])
  }

  lemma {:induction false} RunInv(p: Pool, run: seq<(nat, Action)>, all: multiset<Session>)
    requires Inv(p, all) && Runs(p, run)
    ensures Inv(After(p, run), all)
    decreases |run|
  {
    hide Inv, Step;
    if run != [] {
      StepInv(p, run[0].0, run[0].1, all);
      RunInv(Step(p, run[0].0, run[0].1), run[1..], all);
    }
  }

  /** The queue after a run, by its pushes and pops alone. */
  function Replay(free: seq<Session>, p: Pool, run: seq<(nat, Action)>): seq<Session>
    requires Runs(p, run)
    decreases |run|
  {
    if run == [] then free
    else Replay(FreeAfter(free, p, run[0].0, run[0].1), Step(p, run[0].0, run[0].1), run[1..])
  }

  lemma {:induction false} RunReplays(p: Pool, run: seq<(nat, Action)>, all: multiset<Session>)
    requires Inv(p, all) && Runs(p, run)
    ensures Shape(After(p, run)) && Free(After(p, run)) == Replay(Free(p), p, run)
    decreases |run|
  {
    assert Shape(p);
    hide Inv, Shape, Free, FreeAfter, Step;
    if run != [] {
      StepFree(p, run[0].0, run[0].1, all);
      StepInv(p, run[0].0, run[0].1, all);
      RunReplays(Step(p, run[0].0, run[0].1), run[1..], all);
    }
  }

  /**
   Every interleaving: the ring holds what its pushes and pops leave, in order; their number is the semaphore plus
   the threads past it that have not popped plus those that pushed and have not posted; and the ring, the threads'
   hands and the sessions handed out are together the sessions of the pool.
   */
  lemma Accounting(sessions: seq<Session>, threads: nat, run: seq<(nat, Action)>)
    requires sessions != [] && Runs(Init(sessions, threads), run)
    ensures var p := After(Init(sessions, threads), run); var ring := Replay(sessions, Init(sessions, threads), run);
            |ring| == p.sem + Tickets(p.pcs) && multiset(ring) + Hands(p.pcs) + p.out == multiset(sessions)
  {
    var p := Init(sessions, threads);
    InitInv(sessions, threads);
    AllIdle(p.pcs);
    assert Free(p) == sessions;
    RunReplays(p, run, multiset(sessions));
    RunInv(p, run, multiset(sessions));
  }

  lemma {:induction false} TwoHands(pcs: seq<Pc>, t: nat, u: nat)
    requires t < |pcs| && u < |pcs| && t != u
    ensures Hand(pcs[t]) + Hand(pcs[u]) <= Hands(pcs)
  {
    HandsAt(pcs, t, Idle);
    HandsAt(pcs[t := Idle], u, Idle);
    assert pcs[t := Idle][u] == pcs[u];
    var others := Hands(pcs[t := Idle]);
    assert others + Hand(pcs[t]) == Hands(pcs) + multiset{} && Hand(pcs[u]) <= others;
    hide *;
    assert others + Hand(pcs[t]) == Hands(pcs);
    assert Hand(pcs[t]) + Hand(pcs[u]) <= others + Hand(pcs[t]);
  }

  /** Each session of the pool is in one place: once in the ring, in one hand, or handed out once. */
  lemma OnePlace(sessions: seq<Session>, threads: nat, run: seq<(nat, Action)>, s: Session)
    requires sessions != [] && Runs(Init(sessions, threads), run)
    requires forall i, j :: 0 <= i < j < |sessions| ==> sessions[i] != sessions[j]
    ensures var p := After(Init(sessions, threads), run); var ring := Replay(sessions, Init(sessions, threads), run);
            multiset(ring)[s] + Hands(p.pcs)[s] + p.out[s] == if s in sessions then 1 else 0
  {
    hide Runs, After, Replay;
    Accounting(sessions, threads, run);
    Once(sessions, s);
    assert s in sessions <==> s in multiset(sessions);
    var p := After(Init(sessions, threads), run);
    var ring: multiset<Session> := multiset(Replay(sessions, Init(sessions, threads), run));
    assert (ring + Hands(p.pcs) + p.out)[s] == ring[s] + Hands(p.pcs)[s] + p.out[s];
  }

  /** No session is handed out twice: the one a thread has in hand is not in the ring, not out, not in another hand. */
  lemma Exclusive(sessions: seq<Session>, threads: nat, run: seq<(nat, Action)>, t: nat, s: Session)
    requires sessions != [] && Runs(Init(sessions, threads), run)
    requires forall i, j :: 0 <= i < j < |sessions| ==> sessions[i] != sessions[j]
    requires t < |After(Init(sessions, threads), run).pcs| && s in Hand(After(Init(sessions, threads), run).pcs[t])
    ensures var p := After(Init(sessions, threads), run); var ring := Replay(sessions, Init(sessions, threads), run);
            s in sessions && s !in ring && s !in p.out &&
            forall u :: 0 <= u < |p.pcs| && u != t ==> s !in Hand(p.pcs[u])
  {
    var p := After(Init(sessions, threads), run);
    Accounting(sessions, threads, run);
    Once(sessions, s);
    HandsAt(p.pcs, t, Idle);
    assert Hand(p.pcs[t])[s] <= Hands(p.pcs)[s];
    forall u | 0 <= u < |p.pcs| && u != t
      ensures s !in Hand(p.pcs[u])
    {
      TwoHands(p.pcs, t, u);
      assert (Hand(p.pcs[t]) + Hand(p.pcs[u]))[s] <= Hands(p.pcs)[s];
    }
    assert multiset(Replay(sessions, Init(sessions, threads), run))[s] == 0;
  }

  lemma {:induction false} Once(sessions: seq<Session>, s: Session)
    requires forall i, j :: 0 <= i < j < |sessions| ==> sessions[i] != sessions[j]
    ensures multiset(sessions)[s] <= 1
  {
    if sessions != [] {
      var rest := sessions[1..];
      Once(rest, s);
      assert sessions == [sessions[0]] + rest;
      if sessions[0] == s {
        assert s !in rest;
      }
    }
  }

  /** With no call under way, obtain gives NULL exactly when every session is out. */
  lemma NullWhenAllOut(sessions: seq<Session>, threads: nat, run: seq<(nat, Action)>, t: nat)
    requires sessions != [] && Runs(Init(sessions, threads), run)
    requires forall u :: 0 <= u < |After(Init(sessions, threads), run).pcs| ==>
               After(Init(sessions, threads), run).pcs[u].Idle?
    requires t < |After(Init(sessions, threads), run).pcs|
    ensures var p := After(Init(sessions, threads), run);
            p.sem + |p.out| == |sessions| && (Step(p, t, Try) == p <==> p.out == multiset(sessions))
  {
    var p := After(Init(sessions, threads), run);
    var ring := Replay(sessions, Init(sessions, threads), run);
    Accounting(sessions, threads, run);
    AllIdle(p.pcs);
    assert multiset(ring) + p.out == multiset(sessions);
    assert |multiset(ring)| + |p.out| == |multiset(sessions)|;
    if p.sem == 0 {
      assert ring == [];
    }
  }

  /** With calls under way, NULL still means that every session is out, in a hand or promised to a thread. */
  lemma NullMeansSpokenFor(sessions: seq<Session>, threads: nat, run: seq<(nat, Action)>, t: nat)
    requires sessions != [] && Runs(Init(sessions, threads), run)
    requires Enabled(After(Init(sessions, threads), run), t, Try)
    ensures var p := After(Init(sessions, threads), run);
            Step(p, t, Try) == p <==> |p.out| + |Hands(p.pcs)| + Tickets(p.pcs) == |sessions|
  {
    var p := After(Init(sessions, threads), run);
    var ring := Replay(sessions, Init(sessions, threads), run);
    Accounting(sessions, threads, run);
    assert |multiset(ring)| + |Hands(p.pcs)| + |p.out| == |multiset(sessions)|;
  }
}
