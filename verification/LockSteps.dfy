/** The lock programs of the calls and callbacks are made of the steps of the state machines. */
module LockSteps {
  import opened Wrappers
  import opened Types
  import opened Lifecycle
  import opened Locks
  import Engine
  import Semaphores
  import Dispatch

  /** What one step of the queue state machine does to the locks; sem is the semaphore it captured. */
  function StepOps(queue: nat, sem: nat, step: Step): seq<Op> {
    match step
    case Tick(_) => []
    case TimerStep(_) => []
    case TtlStep(_) => []
    case LimiterStep(_) => [AwaitLimiter]
    case TakeStep(_) => [Acquire(Token(sem))]
    case ReturnStep(_) => [Release(Token(sem))]
    case ApplyStep(_, _, _) => [Deliver] + Section(queue)
    case _ => Section(queue)
  }

  function TraceOps(queue: nat, sem: nat, steps: seq<Step>): seq<Op> {
    if steps == [] then [] else StepOps(queue, sem, steps[0]) + TraceOps(queue, sem, steps[1..])
  }

  /** What one step of the engine does to the locks; queue is the queue a call under the engine lock works on. */
  function EngineOps(queue: nat, step: Engine.EngineStep): seq<Op> {
    match step
    case ClockStep(_) => []
    case LookupStep(_) => Lookup()
    case CreateTaskStep(found, _, _, _, _) => Section(found.queue)
    case QueueStep(h, inner) => StepOps(h, 0, inner)
    case _ => [Acquire(EngineLock)] + Section(queue) + [Release(EngineLock)]
  }

  lemma TraceCons(queue: nat, sem: nat, step: Step, steps: seq<Step>)
    ensures TraceOps(queue, sem, [step] + steps) == StepOps(queue, sem, step) + TraceOps(queue, sem, steps)
  {
    assert ([step] + steps)[1..] == steps;
  }

  /** An attempt is its snapshot and, if it delivers, its result. */
  lemma AttemptIsSteps(queue: nat, sem: nat, i: nat, o: Dispatch.Outcome, dispatchTime: int, rest: seq<Step>)
    ensures TraceOps(queue, sem, [SnapshotStep(i)] + ([ApplyStep(i, o, dispatchTime)] + rest)) ==
            Attempt(queue, true) + TraceOps(queue, sem, rest)
    ensures TraceOps(queue, sem, [SnapshotStep(i)] + rest) == Attempt(queue, false) + TraceOps(queue, sem, rest)
  {
    TraceCons(queue, sem, SnapshotStep(i), [ApplyStep(i, o, dispatchTime)] + rest);
    TraceCons(queue, sem, ApplyStep(i, o, dispatchTime), rest);
    TraceCons(queue, sem, SnapshotStep(i), rest);
  }

  /** A whole fire takes the locks and tokens of the steps its continuation makes, in their order. */
  lemma FireIsSteps(queue: nat, sem: nat, i: nat, o: Dispatch.Outcome, dispatchTime: int)
    ensures
      var enter := [FireStep(i)] + ([LimiterStep(i)] + ([TakeStep(i)] + []));
      var deliver := [SnapshotStep(i)] + ([ApplyStep(i, o, dispatchTime)] + [ReturnStep(i)]);
      var skip := [SnapshotStep(i)] + [ReturnStep(i)];
      && Program(Fire(queue, sem, true)) == TraceOps(queue, sem, enter) + TraceOps(queue, sem, deliver)
      && Program(Fire(queue, sem, false)) == TraceOps(queue, sem, enter) + TraceOps(queue, sem, skip)
  {
    TraceCons(queue, sem, FireStep(i), [LimiterStep(i)] + ([TakeStep(i)] + []));
    TraceCons(queue, sem, LimiterStep(i), [TakeStep(i)] + []);
    TraceCons(queue, sem, TakeStep(i), []);
    AttemptIsSteps(queue, sem, i, o, dispatchTime, [ReturnStep(i)]);
    TraceCons(queue, sem, ReturnStep(i), []);
    assert [ReturnStep(i)] + [] == [ReturnStep(i)];
    assert TraceOps(queue, sem, [ReturnStep(i)]) == [Release(Token(sem))];
  }

  /**
   The other calls and callbacks, from the steps of the engine. ListQueues and the other reads
   take no step: they hold the same locks and change nothing.
   */
  lemma CallsAreSteps(queue: nat, parent: string, name: string, i: nat, o: Dispatch.Outcome, dispatchTime: int,
                      task: NewTask, q: Queue, fields: seq<QueueField>)
    ensures Program(Callback(queue)) == StepOps(queue, 0, FireStep(i)) == StepOps(queue, 0, ExpireStep(i))
    ensures Program(UnderEngine(queue)) == EngineOps(queue, Engine.CreateQueueStep(parent, q))
    ensures Program(UnderEngine(queue)) == EngineOps(queue, Engine.UpdateQueueStep(q, fields))
    ensures Program(UnderEngine(queue)) == EngineOps(queue, Engine.DeleteQueueStep(name))
    ensures Program(EnsureQueue(queue)) ==
            EngineOps(queue, Engine.LookupStep(parent)) + EngineOps(queue, Engine.CreateQueueStep(parent, q))
    ensures Program(AfterLookup(queue)) ==
            EngineOps(queue, Engine.LookupStep(parent))
            + EngineOps(queue, Engine.CreateTaskStep(Engine.Lookup(parent, queue), name, 0, 0, task))
    ensures Program(AfterLookup(queue)) ==
            EngineOps(queue, Engine.LookupStep(parent)) + EngineOps(queue, Engine.QueueStep(queue, DeleteStep(name)))
    ensures Program(PurgeQueue(queue)) ==
            EngineOps(queue, Engine.LookupStep(parent)) + EngineOps(queue, Engine.QueueStep(queue, PurgeStep)) + Section(queue)
    ensures Program(Locks.RunTask(queue, true)) ==
            EngineOps(queue, Engine.LookupStep(parent)) + EngineOps(queue, Engine.QueueStep(queue, RunStep(name)))
            + (StepOps(queue, 0, SnapshotStep(i)) + StepOps(queue, 0, ApplyStep(i, o, dispatchTime))) + Section(queue)
    ensures Program(Locks.RunTask(queue, false)) ==
            EngineOps(queue, Engine.LookupStep(parent)) + EngineOps(queue, Engine.QueueStep(queue, RunStep(name)))
            + StepOps(queue, 0, SnapshotStep(i)) + Section(queue)
  {
    assert Section(queue) + [] == Section(queue);
  }

  // ---- tokens ----

  /** How far a delivering fire has got in its program when its continuation is in a phase. */
  function OpsDone(p: Phase): nat {
    match p
    case AtLimiter(_) => 2
    case AtSemaphore(_) => 3
    case Admitted(_) => 4
    case InFlight(_, _) => 6
    case Returning(_) => 9
    case _ => 0
  }

  lemma HoldingNext(p: seq<Op>, k: nat)
    requires k < |p|
    ensures Holding(p[..k + 1]) == Apply(Holding(p[..k]), p[k])
  {
    assert p[..k + 1][..k] == p[..k];
  }

  lemma SectionHolds(p: seq<Op>, k: nat, queue: nat)
    requires k + 1 < |p| && p[k] == Acquire(QueueLock(queue)) && p[k + 1] == Release(QueueLock(queue))
    requires QueueLock(queue) !in Holding(p[..k])
    ensures Holding(p[..k + 2]) == Holding(p[..k])
  {
    HoldingNext(p, k);
    HoldingNext(p, k + 1);
  }

  /** A fire holds a token in its lock program exactly when its continuation holds one in the queue. */
  lemma TokensAgree(queue: nat, g: nat, p: Phase)
    requires p.Fired? || CapturedGen(p) == Some(g)
    ensures OpsDone(p) <= |Program(Fire(queue, g, true))|
    ensures Holding(Program(Fire(queue, g, true))[..OpsDone(p)]) ==
            if Semaphores.HoldsToken(p, g) then {Token(g)} else {}
  {
    var prog := Program(Fire(queue, g, true));
    var section := Section(queue);
    assert prog == [section[0], section[1], AwaitLimiter, Acquire(Token(g)), section[0], section[1], Deliver,
                    section[0], section[1], Release(Token(g))];
    assert prog[..0] == [];
    SectionHolds(prog, 0, queue);
    HoldingNext(prog, 2);
    HoldingNext(prog, 3);
    SectionHolds(prog, 4, queue);
    HoldingNext(prog, 6);
    SectionHolds(prog, 7, queue);
  }
}
