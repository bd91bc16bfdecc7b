/**
 The order in which the engine's calls and callbacks take Engine.mu, the queue locks and the
 concurrency tokens (core/engine.go, core/queue.go), and why they cannot block each other for
 good.
 */
module Locks {
  datatype Resource = Token(sem: nat) | EngineLock | QueueLock(queue: nat)

  datatype Op =
    | Acquire(r: Resource)
    | Release(r: Resource)
    | AwaitLimiter          // limiter.Wait
    | Deliver               // the HTTP dispatch

  /** A call or callback, with what decides how far it goes. */
  datatype Call =
    | EngineOnly                                  // a lookup that fails, an IAM call, a name that exists
    | UnderEngine(queue: nat)                     // CreateQueue, GetQueue, UpdateQueue, DeleteQueue
    | EnsureQueue(queue: nat)                     // a lookup, then CreateQueue
    | ListQueues(queues: seq<nat>)                // snapshots every queue of the page
    | AfterLookup(queue: nat)                     // SetQueueState, CreateTask, GetTask, ListTasks, DeleteTask
    | PurgeQueue(queue: nat)
    | RunTask(queue: nat, delivers: bool)
    | Callback(queue: nat)                        // expire, tombstone cleanup, a fire that is dropped or held
    | Fire(queue: nat, sem: nat, delivers: bool)

  function Section(queue: nat): seq<Op> {
    [Acquire(QueueLock(queue)), Release(QueueLock(queue))]
  }

  function Lookup(): seq<Op> {
    [Acquire(EngineLock), Release(EngineLock)]
  }

  /** attempt: the snapshot and, unless the task is gone, the delivery and the apply phase. */
  function Attempt(queue: nat, delivers: bool): seq<Op> {
    Section(queue) + if delivers then [Deliver] + Section(queue) else []
  }

  function Sections(queues: seq<nat>): seq<Op> {
    if queues == [] then [] else Sections(queues[..|queues| - 1]) + Section(queues[|queues| - 1])
  }

  /** What a call does to the locks, in order. */
  function Program(c: Call): seq<Op> {
    match c
    case EngineOnly => Lookup()
    case UnderEngine(queue) => [Acquire(EngineLock)] + Section(queue) + [Release(EngineLock)]
    case EnsureQueue(queue) => Lookup() + ([Acquire(EngineLock)] + Section(queue) + [Release(EngineLock)])
    case ListQueues(queues) => [Acquire(EngineLock)] + Sections(queues) + [Release(EngineLock)]
    case AfterLookup(queue) => Lookup() + Section(queue)
    case PurgeQueue(queue) => Lookup() + Section(queue) + Section(queue)
    case RunTask(queue, delivers) => Lookup() + Section(queue) + Attempt(queue, delivers) + Section(queue)
    case Callback(queue) => Section(queue)
    case Fire(queue, sem, delivers) =>
      Section(queue) + [AwaitLimiter, Acquire(Token(sem))] + Attempt(queue, delivers) + [Release(Token(sem))]
  }

  // ---- what a thread holds ----

  function Apply(held: set<Resource>, op: Op): set<Resource> {
    match op
    case Acquire(r) => held + {r}
    case Release(r) => held - {r}
    case _ => held
  }

  /** What a thread that started with nothing holds after these operations. */
  function Holding(done: seq<Op>): set<Resource> {
    if done == [] then {} else Apply(Holding(done[..|done| - 1]), done[|done| - 1])
  }

  function Rank(r: Resource): nat {
    match r
    case Token(_) => 0
    case EngineLock => 1
    case QueueLock(_) => 2
  }

  /** An operation never waits for something that ranks no higher than what is held. */
  predicate InOrder(held: set<Resource>, op: Op) {
    match op
    case Acquire(r) => forall h | h in held :: Rank(h) < Rank(r)
    case AwaitLimiter => held == {}
    case Deliver => forall h | h in held :: h.Token?
    case Release(r) => r in held
  }

  /** Every prefix is in order, and everything is given back at the end. */
  ghost predicate Disciplined(p: seq<Op>) {
    && (forall k | 0 <= k < |p| :: InOrder(Holding(p[..k]), p[k]))
    && Holding(p) == {}
  }

  // ---- every program is disciplined ----

  /** The operations are in order when started with these resources held, and leave these held. */
  ghost predicate Leads(from: set<Resource>, p: seq<Op>, to: set<Resource>)
    decreases |p|
  {
    if p == [] then from == to
    else InOrder(from, p[0]) && Leads(Apply(from, p[0]), p[1..], to)
  }

  lemma {:induction false} LeadsAppend(a: set<Resource>, p: seq<Op>, b: set<Resource>, q: seq<Op>, c: set<Resource>)
    requires Leads(a, p, b) && Leads(b, q, c)
    ensures Leads(a, p + q, c)
    decreases |p|
  {
    if p == [] {
      assert p + q == q;
    } else {
      LeadsAppend(Apply(a, p[0]), p[1..], b, q, c);
      assert (p + q)[1..] == p[1..] + q;
    }
  }

  lemma HoldingAppend(done: seq<Op>, op: Op)
    ensures Holding(done + [op]) == Apply(Holding(done), op)
  {
    assert (done + [op])[..|done|] == done;
  }

  /** What a thread holds at the end of operations that lead somewhere. */
  lemma {:induction false} LeadsHolding(done: seq<Op>, p: seq<Op>, to: set<Resource>)
    requires Leads(Holding(done), p, to)
    ensures Holding(done + p) == to
    decreases |p|
  {
    if p == [] {
      assert done + p == done;
    } else {
      HoldingAppend(done, p[0]);
      LeadsHolding(done + [p[0]], p[1..], to);
      assert done + p == done + [p[0]] + p[1..];
    }
  }

  /** Each operation of a sequence that leads somewhere is in order when its turn comes. */
  lemma {:induction false} LeadsInOrder(done: seq<Op>, p: seq<Op>, to: set<Resource>, k: nat)
    requires Leads(Holding(done), p, to) && k < |p|
    ensures InOrder(Holding(done + p[..k]), p[k])
    decreases |p|
  {
    if k == 0 {
      assert done + p[..0] == done;
    } else {
      HoldingAppend(done, p[0]);
      LeadsInOrder(done + [p[0]], p[1..], to, k - 1);
      assert done + p[..k] == done + [p[0]] + p[1..][..k - 1];
    }
  }

  lemma LeadsDisciplined(p: seq<Op>)
    requires Leads({}, p, {})
    ensures Disciplined(p)
  {
    LeadsHolding([], p, {});
    assert [] + p == p;
    forall k | 0 <= k < |p| ensures InOrder(Holding(p[..k]), p[k]) {
      LeadsInOrder([], p, {}, k);
      assert [] + p[..k] == p[..k];
    }
  }

  /** A queue section entered with at most the engine lock or tokens held leaves the same held. */
  lemma SectionLeads(held: set<Resource>, queue: nat)
    requires forall h | h in held :: Rank(h) < 2
    ensures Leads(held, Section(queue), held)
  {
    var r := QueueLock(queue);
    var p := Section(queue);
    assert p[1..] == [Release(r)] && p[1..][1..] == [];
    assert held + {r} - {r} == held;
  }

  lemma LookupLeads()
    ensures Leads({}, Lookup(), {})
  {
    var p := Lookup();
    assert p[1..] == [Release(EngineLock)] && p[1..][1..] == [];
    assert {} + {EngineLock} - {EngineLock} == {};
  }

  lemma OneLeads(held: set<Resource>, op: Op)
    requires InOrder(held, op)
    ensures Leads(held, [op], Apply(held, op))
  {
    assert [op][1..] == [];
  }

  lemma AttemptLeads(held: set<Resource>, queue: nat, delivers: bool)
    requires forall h | h in held :: h.Token?
    ensures Leads(held, Attempt(queue, delivers), held)
  {
    SectionLeads(held, queue);
    if delivers {
      OneLeads(held, Deliver);
      LeadsAppend(held, [Deliver], held, Section(queue), held);
      LeadsAppend(held, Section(queue), held, [Deliver] + Section(queue), held);
    } else {
      assert Section(queue) + [] == Section(queue);
    }
  }

  lemma {:induction false} SectionsLead(queues: seq<nat>)
    ensures Leads({EngineLock}, Sections(queues), {EngineLock})
  {
    if queues != [] {
      SectionsLead(queues[..|queues| - 1]);
      SectionLeads({EngineLock}, queues[|queues| - 1]);
      LeadsAppend({EngineLock}, Sections(queues[..|queues| - 1]), {EngineLock}, Section(queues[|queues| - 1]), {EngineLock});
    }
  }

  lemma UnderEngineLeads(inner: seq<Op>)
    requires Leads({EngineLock}, inner, {EngineLock})
    ensures Leads({}, [Acquire(EngineLock)] + inner + [Release(EngineLock)], {})
  {
    OneLeads({}, Acquire(EngineLock));
    assert Apply({}, Acquire(EngineLock)) == {EngineLock};
    LeadsAppend({}, [Acquire(EngineLock)], {EngineLock}, inner, {EngineLock});
    OneLeads({EngineLock}, Release(EngineLock));
    assert Apply({EngineLock}, Release(EngineLock)) == {};
    LeadsAppend({}, [Acquire(EngineLock)] + inner, {EngineLock}, [Release(EngineLock)], {});
  }

  lemma FireLeads(queue: nat, sem: nat, delivers: bool)
    ensures Leads({}, Program(Fire(queue, sem, delivers)), {})
  {
    var t := Token(sem);
    SectionLeads({}, queue);
    OneLeads({}, AwaitLimiter);
    OneLeads({}, Acquire(t));
    assert Apply({}, Acquire(t)) == {t};
    LeadsAppend({}, [AwaitLimiter], {}, [Acquire(t)], {t});
    assert [AwaitLimiter] + [Acquire(t)] == [AwaitLimiter, Acquire(t)];
    LeadsAppend({}, Section(queue), {}, [AwaitLimiter, Acquire(t)], {t});
    AttemptLeads({t}, queue, delivers);
    LeadsAppend({}, Section(queue) + [AwaitLimiter, Acquire(t)], {t}, Attempt(queue, delivers), {t});
    OneLeads({t}, Release(t));
    assert Apply({t}, Release(t)) == {};
    LeadsAppend({}, Section(queue) + [AwaitLimiter, Acquire(t)] + Attempt(queue, delivers), {t}, [Release(t)], {});
  }

  lemma ProgramLeads(c: Call)
    ensures Leads({}, Program(c), {})
  {
    LookupLeads();
    match c
    case EngineOnly =>
    case UnderEngine(queue) =>
      SectionLeads({EngineLock}, queue);
      UnderEngineLeads(Section(queue));
    case EnsureQueue(queue) =>
      SectionLeads({EngineLock}, queue);
      UnderEngineLeads(Section(queue));
      LeadsAppend({}, Lookup(), {}, [Acquire(EngineLock)] + Section(queue) + [Release(EngineLock)], {});
    case ListQueues(queues) =>
      SectionsLead(queues);
      UnderEngineLeads(Sections(queues));
    case AfterLookup(queue) =>
      SectionLeads({}, queue);
      LeadsAppend({}, Lookup(), {}, Section(queue), {});
    case PurgeQueue(queue) =>
      SectionLeads({}, queue);
      LeadsAppend({}, Lookup(), {}, Section(queue), {});
      LeadsAppend({}, Lookup() + Section(queue), {}, Section(queue), {});
    case RunTask(queue, delivers) =>
      SectionLeads({}, queue);
      AttemptLeads({}, queue, delivers);
      LeadsAppend({}, Lookup(), {}, Section(queue), {});
      LeadsAppend({}, Lookup() + Section(queue), {}, Attempt(queue, delivers), {});
      LeadsAppend({}, Lookup() + Section(queue) + Attempt(queue, delivers), {}, Section(queue), {});
    case Callback(queue) => SectionLeads({}, queue);
    case Fire(queue, sem, delivers) => FireLeads(queue, sem, delivers);
  }

  /**
   Lock discipline: no call or callback waits for Engine.mu, the limiter or a token while it
   holds a queue lock, none holds two queue locks, none delivers under a lock, and every one
   gives back what it took.
   */
  lemma ProgramsDisciplined(c: Call)
    ensures Disciplined(Program(c))
  {
    var p := Program(c);
    ProgramLeads(c);
    LeadsDisciplined(p);
  }

  // ---- threads ----

  datatype Thread = Thread(call: Call, pc: nat)

  /** The running threads and the capacity of each semaphore. */
  datatype World = World(threads: seq<Thread>, capacity: nat -> nat)

  ghost predicate InWorld(w: World) {
    && (forall i | 0 <= i < |w.threads| :: w.threads[i].pc <= |Program(w.threads[i].call)|)
    && (forall s: nat :: w.capacity(s) >= 1)
  }

  function Held(t: Thread): set<Resource>
    requires t.pc <= |Program(t.call)|
  {
    Holding(Program(t.call)[..t.pc])
  }

  predicate Finished(t: Thread) {
    t.pc >= |Program(t.call)|
  }

  function NextOp(t: Thread): Op
    requires t.pc < |Program(t.call)|
  {
    Program(t.call)[t.pc]
  }

  /** The threads that hold a resource. */
  ghost function Owners(w: World, r: Resource): set<nat>
    requires InWorld(w)
  {
    set i | 0 <= i < |w.threads| && r in Held(w.threads[i])
  }

  function Room(w: World, r: Resource): nat {
    if r.Token? then w.capacity(r.sem) else 1
  }

  /** Acquiring needs room; everything else goes on by itself. */
  ghost predicate CanStep(w: World, i: nat)
    requires InWorld(w)
  {
    && i < |w.threads|
    && !Finished(w.threads[i])
    && (NextOp(w.threads[i]).Acquire? ==>
          |Owners(w, NextOp(w.threads[i]).r)| < Room(w, NextOp(w.threads[i]).r))
  }

  ghost predicate Wants(w: World, i: nat, r: Resource)
    requires InWorld(w)
  {
    i < |w.threads| && !Finished(w.threads[i]) && NextOp(w.threads[i]) == Acquire(r)
  }

  /** Thread i waits for a resource that has no room and that thread j holds. */
  ghost predicate WaitsFor(w: World, i: nat, j: nat)
    requires InWorld(w)
  {
    exists r :: Wants(w, i, r) && |Owners(w, r)| >= Room(w, r) && j in Owners(w, r)
  }

  function WantedRank(w: World, i: nat): int {
    if i < |w.threads| && !Finished(w.threads[i]) && NextOp(w.threads[i]).Acquire?
    then Rank(NextOp(w.threads[i]).r) else 3
  }

  /** A thread at its end holds nothing. */
  lemma FinishedHoldsNothing(t: Thread)
    requires t.pc == |Program(t.call)|
    ensures Held(t) == {}
  {
    ProgramsDisciplined(t.call);
    assert Program(t.call)[..t.pc] == Program(t.call);
  }

  /** What a thread waits for outranks everything it holds. */
  lemma WantsAboveHeld(w: World, i: nat, held: Resource)
    requires InWorld(w) && i < |w.threads| && held in Held(w.threads[i])
    ensures !Finished(w.threads[i]) && Rank(held) < WantedRank(w, i)
  {
    var t := w.threads[i];
    if t.pc == |Program(t.call)| {
      FinishedHoldsNothing(t);
    } else {
      ProgramsDisciplined(t.call);
      assert InOrder(Holding(Program(t.call)[..t.pc]), Program(t.call)[t.pc]);
    }
  }

  /** Along a chain of waiting threads the rank of what is wanted strictly rises. */
  lemma RankRises(w: World, i: nat, j: nat)
    requires InWorld(w) && WaitsFor(w, i, j)
    ensures WantedRank(w, i) < WantedRank(w, j)
  {
    var r :| Wants(w, i, r) && |Owners(w, r)| >= Room(w, r) && j in Owners(w, r);
    WantsAboveHeld(w, j, r);
  }

  ghost predicate Chain(w: World, c: seq<nat>)
    requires InWorld(w)
  {
    forall k | 0 <= k < |c| - 1 :: WaitsFor(w, c[k], c[k + 1])
  }

  lemma {:induction false} ChainRises(w: World, c: seq<nat>, k: nat)
    requires InWorld(w) && Chain(w, c) && 0 < k < |c|
    ensures WantedRank(w, c[0]) < WantedRank(w, c[k])
  {
    assert WaitsFor(w, c[k - 1], c[k]);
    RankRises(w, c[k - 1], c[k]);
    if k > 1 {
      ChainRises(w, c, k - 1);
    }
  }

  /** No cycle of waiting threads, however many threads run whatever calls and wherever each stands. */
  lemma NoWaitingCycle(w: World, c: seq<nat>)
    requires InWorld(w) && |c| >= 2 && Chain(w, c)
    ensures c[0] != c[|c| - 1]
  {
    ChainRises(w, c, |c| - 1);
  }

  /** Starting from any unfinished thread, some thread can go on. */
  lemma {:induction false} SomeoneCanStep(w: World, i: nat) returns (j: nat)
    requires InWorld(w) && i < |w.threads| && !Finished(w.threads[i])
    ensures CanStep(w, j)
    decreases 3 - WantedRank(w, i)
  {
    if CanStep(w, i) {
      j := i;
    } else {
      var r := NextOp(w.threads[i]).r;
      assert |Owners(w, r)| >= 1;
      var owner: nat :| owner in Owners(w, r);
      assert Wants(w, i, r);
      assert WaitsFor(w, i, owner);
      RankRises(w, i, owner);
      WantsAboveHeld(w, owner, r);
      j := SomeoneCanStep(w, owner);
    }
  }

  /** Deadlock freedom: as long as a thread is unfinished, some thread can take its next step. */
  lemma NoDeadlock(w: World)
    requires InWorld(w) && exists i :: 0 <= i < |w.threads| && !Finished(w.threads[i])
    ensures exists j :: CanStep(w, j)
  {
    var i :| 0 <= i < |w.threads| && !Finished(w.threads[i]);
    var j := SomeoneCanStep(w, i);
  }

  // ---- mutual exclusion over runs ----

  function Advance(w: World, i: nat): World
    requires i < |w.threads|
  {
    w.(threads := w.threads[i := w.threads[i].(pc := w.threads[i].pc + 1)])
  }

  /** A new thread begins its call. */
  function Spawn(w: World, c: Call): World {
    w.(threads := w.threads + [Thread(c, 0)])
  }

  ghost predicate WithinRoom(w: World, r: Resource)
    requires InWorld(w)
  {
    |Owners(w, r)| <= Room(w, r)
  }

  lemma HeldAfter(t: Thread)
    requires t.pc < |Program(t.call)|
    ensures Held(t.(pc := t.pc + 1)) == Apply(Held(t), NextOp(t))
  {
    var p := Program(t.call);
    assert p[..t.pc + 1][..t.pc] == p[..t.pc];
  }

  lemma AdvanceOwners(w: World, i: nat, r: Resource)
    requires InWorld(w) && i < |w.threads| && !Finished(w.threads[i])
    ensures InWorld(Advance(w, i))
    ensures
      var after := r in Apply(Held(w.threads[i]), NextOp(w.threads[i]));
      Owners(Advance(w, i), r) == if after then Owners(w, r) + {i} else Owners(w, r) - {i}
  {
    HeldAfter(w.threads[i]);
    var w' := Advance(w, i);
    forall j | 0 <= j < |w.threads| && j != i ensures w'.threads[j] == w.threads[j] {
    }
  }

  /** No step makes more threads hold a lock or token than there is room for. */
  lemma RoomKept(w: World, i: nat, r: Resource)
    requires InWorld(w) && CanStep(w, i) && WithinRoom(w, r)
    ensures InWorld(Advance(w, i)) && WithinRoom(Advance(w, i), r)
  {
    AdvanceOwners(w, i, r);
    var op := NextOp(w.threads[i]);
    if r in Apply(Held(w.threads[i]), op) && op != Acquire(r) {
      assert i in Owners(w, r);
      assert Owners(w, r) + {i} == Owners(w, r);
    }
  }

  lemma SpawnOwners(w: World, c: Call, r: Resource)
    requires InWorld(w)
    ensures InWorld(Spawn(w, c)) && Owners(Spawn(w, c), r) == Owners(w, r)
  {
    var t := Thread(c, 0);
    assert Program(c)[..0] == [];
    assert Held(t) == {};
  }

  datatype Move = Go(i: nat) | Begin(c: Call)

  ghost predicate Moves(a: World, m: Move, b: World) {
    && InWorld(a)
    && (match m
        case Go(i) => CanStep(a, i) && b == Advance(a, i)
        case Begin(c) => b == Spawn(a, c))
  }

  ghost predicate MoveAt(ws: seq<World>, ms: seq<Move>, k: nat)
    requires |ws| == |ms| + 1 && k < |ms|
  {
    Moves(ws[k], ms[k], ws[k + 1])
  }

  lemma MoveKeepsRoom(a: World, m: Move, b: World, r: Resource)
    requires Moves(a, m, b) && WithinRoom(a, r)
    ensures InWorld(b) && WithinRoom(b, r)
  {
    match m
    case Go(i) => RoomKept(a, i, r);
    case Begin(c) => SpawnOwners(a, c, r);
  }

  /** In every interleaving that starts with no threads, each lock has at most one owner and each semaphore at most its capacity. */
  lemma {:induction false} MutualExclusion(ws: seq<World>, ms: seq<Move>, k: nat, r: Resource)
    requires |ws| == |ms| + 1 && k < |ws|
    requires ws[0].threads == [] && forall s: nat :: ws[0].capacity(s) >= 1
    requires forall j | 0 <= j < |ms| :: MoveAt(ws, ms, j)
    ensures InWorld(ws[k]) && WithinRoom(ws[k], r)
  {
    if k == 0 {
      assert Owners(ws[0], r) == {};
    } else {
      MutualExclusion(ws, ms, k - 1, r);
      assert MoveAt(ws, ms, k - 1);
      MoveKeepsRoom(ws[k - 1], ms[k - 1], ws[k], r);
    }
  }
}
