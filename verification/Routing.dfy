/** Names and routing agree in every engine state, and every queue of the engine runs as a queue. */
module Routing {
  import opened Wrappers
  import opened Types
  import opened Lifecycle
  import opened History
  import opened Naming
  import opened Registry
  import opened Guarantees
  import opened Progress
  import opened Engine

  /** A task name that belongs to a queue. */
  predicate Belongs(name: string, queue: string) {
    ParseTaskName(name).Some? && TaskQueueOf(name) == queue
  }

  ghost predicate OwnKeys(s: QState) {
    ParseQueueName(s.q.name).Some? && forall n | n in s.tasks :: Belongs(n, s.q.name)
  }

  /** A queue object of the pool: at the engine's clock, reachable, and with its own keys. */
  ghost predicate Good(sys: System, now: int) {
    WellFormed(sys.st) && sys.st.now == now && OwnKeys(sys.st) && Reachable(sys)
  }

  ghost predicate Routed(e: EngineState) {
    && (forall n | n in e.queues :: e.queues[n] < |e.pool| && e.pool[e.queues[n]].st.q.name == n)
    && (forall h | 0 <= h < |e.pool| :: Good(e.pool[h], e.now))
    && (forall l | l in e.lookups :: l.queue < |e.pool| && e.pool[l.queue].st.q.name == l.parent)
  }

  lemma ApplyAddsNoKey(s: QState, step: Step)
    requires WellFormed(s) && Enabled(s, step) && step.ApplyStep?
    ensures NextState(s, step).tasks.Keys <= s.tasks.Keys
  {
    var h := s.conts[step.i].task;
    if !s.arena[h].removed {
      var t := Record(s.arena[h], step.outcome, step.dispatchTime);
      match Judge(s.q.retryConfig, s.now, t, step.outcome) {
        case Retry(delay) => assert Reschedule(s, step.i, t, delay).tasks == s.tasks;
        case _ => assert Discard(s, step.i, t).tasks == s.tasks - {t.name};
      }
    }
  }

  /** Only CreateTask adds a key to the task map of a queue, and only the name it resolved. */
  lemma KeysOnlyFromCreate(s: QState, step: Step)
    requires WellFormed(s) && Enabled(s, step)
    ensures NextState(s, step).tasks.Keys <= s.tasks.Keys + if step.CreateStep? then {step.task.name} else {}
  {
    if step.ApplyStep? {
      ApplyAddsNoKey(s, step);
    }
  }

  lemma OwnKeysStep(s: QState, step: Step)
    requires WellFormed(s) && Enabled(s, step) && OwnKeys(s)
    requires step.CreateStep? ==> Belongs(step.task.name, s.q.name)
    ensures OwnKeys(NextState(s, step)) && NextState(s, step).q.name == s.q.name
  {
    ConfigKept(s, step);
    KeysOnlyFromCreate(s, step);
  }

  lemma GoodStep(sys: System, step: Step, now: int)
    requires Good(sys, now) && Enabled(sys.st, step)
    requires step.CreateStep? ==> Belongs(step.task.name, sys.st.q.name)
    ensures Good(Next(sys, step), if step.Tick? then step.to else now)
    ensures Next(sys, step).st.q.name == sys.st.q.name
  {
    OwnKeysStep(sys.st, step);
    ConfigKept(sys.st, step);
    ReachableNext(sys, step);
  }

  lemma RoutedStepQueue(e: EngineState, h: nat, step: Step)
    requires Routed(e) && h < |e.pool| && Enabled(e.pool[h].st, step) && !step.Tick?
    requires step.CreateStep? ==> Belongs(step.task.name, e.pool[h].st.q.name)
    ensures Routed(StepQueue(e, h, step))
  {
    GoodStep(e.pool[h], step, e.now);
  }

  lemma NewQueueGood(q: Queue, eng: EngineConfig, now: int)
    requires ParseQueueName(q.name).Some?
    ensures Good(System(NewQueueState(ApplyQueueDefaults(q), eng, now), []), now)
  {
    ReachableNew(q, eng, now);
  }

  lemma RoutedAddQueue(e: EngineState, q: Queue)
    requires Routed(e) && ParseQueueName(q.name).Some?
    ensures Routed(AddQueue(e, q))
  {
    NewQueueGood(q, e.eng, e.now);
    var e' := AddQueue(e, q);
    assert forall h | 0 <= h < |e.pool| :: e'.pool[h] == e.pool[h];
  }

  lemma RoutedAdvance(e: EngineState, to: int)
    requires Routed(e) && InPool(e) && e.now <= to
    ensures Routed(Advance(e, to))
  {
    forall h | 0 <= h < |e.pool|
      ensures Good(Next(e.pool[h], Tick(to)), to) && Next(e.pool[h], Tick(to)).st.q.name == e.pool[h].st.q.name
    {
      GoodStep(e.pool[h], Tick(to), e.now);
    }
  }

  lemma RoutedUpdate(e: EngineState, update: Queue, fields: seq<QueueField>)
    requires Routed(e) && InPool(e)
    ensures Routed(UpdateQueueIn(e, update, fields))
  {
    if ValidQueueName(update.name) {
      if update.name in e.queues {
        RoutedStepQueue(e, e.queues[update.name], UpdateStep(update, fields));
      } else {
        RoutedAddQueue(e, update);
      }
    }
  }

  lemma RoutedDelete(e: EngineState, name: string)
    requires Routed(e) && InPool(e)
    ensures Routed(DeleteQueueIn(e, name))
  {
    if name in e.queues {
      RoutedStepQueue(e, e.queues[name], StopStep);
    }
  }

  lemma RoutedStep(e: EngineState, step: EngineStep)
    requires Routed(e) && InPool(e) && EngineEnabled(e, step)
    ensures Routed(EngineNext(e, step))
  {
    match step
    case ClockStep(to) => RoutedAdvance(e, to);
    case CreateQueueStep(parent, q) =>
      if CreateQueueError(e.queues.Keys, parent, q.name).None? { RoutedAddQueue(e, q); }
    case UpdateQueueStep(update, fields) => RoutedUpdate(e, update, fields);
    case DeleteQueueStep(name) => RoutedDelete(e, name);
    case LookupStep(_) =>
    case CreateTaskStep(found, provided, clock, seqNo, task) =>
      assert OwnKeys(e.pool[found.queue].st);
      ResolvedIsChild(found.parent, provided, clock, seqNo);
      RoutedStepQueue(e, found.queue, CreateStep(task));
    case QueueStep(h, inner) => RoutedStepQueue(e, h, inner);
  }

  lemma RoutedFollows(a: EngineState, step: EngineStep, b: EngineState)
    requires Routed(a) && EngineFollows(a, step, b)
    ensures Routed(b)
  {
    RoutedStep(a, step);
  }

  lemma {:induction false} RunRouted(es: seq<EngineState>, steps: seq<EngineStep>, k: nat)
    requires EngineRun(es, steps) && k < |es|
    ensures Routed(es[k])
  {
    if k > 0 {
      RunRouted(es, steps, k - 1);
      assert EngineStepAt(es, steps, k - 1);
      RoutedFollows(es[k - 1], steps[k - 1], es[k]);
    }
  }

  /**
   Names and routing agree: in every engine state that any interleaving reaches, each key of a
   queue's task map is a well-formed task name of that very queue, taskQueue leads from it back
   to the queue, and no other queue of the engine holds it.
   */
  lemma RoutingAgrees(es: seq<EngineState>, steps: seq<EngineStep>, k: nat, queue: string, name: string)
    requires EngineRun(es, steps) && k < |es| && queue in es[k].queues
    ensures es[k].queues[queue] < |es[k].pool|
    ensures name in es[k].pool[es[k].queues[queue]].st.tasks ==>
              && name == queue + "/tasks/" + TaskID(name)
              && TaskQueue(es[k].queues, name) == Ok(es[k].queues[queue])
              && (forall other | other in es[k].queues && other != queue ::
                    es[k].queues[other] < |es[k].pool| && name !in es[k].pool[es[k].queues[other]].st.tasks)
  {
    RunRouted(es, steps, k);
    NamesDecompose(name);
    var e := es[k];
    var s := e.pool[e.queues[queue]].st;
    if name in s.tasks {
      assert Belongs(name, queue);
      forall other | other in e.queues && other != queue ensures name !in e.pool[e.queues[other]].st.tasks {
        assert OwnKeys(e.pool[e.queues[other]].st);
      }
    }
  }

  /**
   Every queue object of every engine run, deleted ones included, is at the end of a run of the
   queue state machine, so what holds of every such run holds of every queue of the engine.
   */
  lemma QueuesRun(es: seq<EngineState>, steps: seq<EngineStep>, k: nat, h: nat)
    requires EngineRun(es, steps) && k < |es| && h < |es[k].pool|
    ensures exists r, inner :: Run(r, inner) && r[|r| - 1] == es[k].pool[h]
  {
    RunRouted(es, steps, k);
    assert Good(es[k].pool[h], es[k].now);
  }

  predicate AllRemoved(arena: seq<TaskState>) {
    forall h | 0 <= h < |arena| :: arena[h].removed
  }

  lemma StopEmpties(s: QState)
    requires WellFormed(s) && Registered(s.arena, s.tasks)
    ensures Stop(s).tasks == map[] && Stop(s).tombstones == s.tombstones && AllRemoved(Stop(s).arena)
  {
    DetachRegistered(s);
  }

  /** A step of one queue object is a step of that object and leaves every other one alone. */
  lemma OneQueueSteps(e: EngineState, h: nat, step: Step)
    requires h < |e.pool| && WellFormed(e.pool[h].st) && Enabled(e.pool[h].st, step)
    ensures
      var after := StepQueue(e, h, step);
      && after.queues == e.queues && |after.pool| == |e.pool| && after.pool[h] == Next(e.pool[h], step)
      && forall g | 0 <= g < |e.pool| && g != h :: after.pool[g] == e.pool[g]
  {
  }

  /**
   DeleteQueue: the name leads nowhere any more, every task of the queue is removed with its
   timers, and nothing else changes; no name is reserved, for a queue that is created again under
   the name is another object with no reservations of its own.
   */
  lemma DeletedQueueIsEmpty(es: seq<EngineState>, steps: seq<EngineStep>, k: nat, name: string)
    requires EngineRun(es, steps) && k < |steps| && EngineStepAt(es, steps, k)
    requires steps[k] == DeleteQueueStep(name) && name in es[k].queues && es[k].queues[name] < |es[k].pool|
    ensures
      var h := es[k].queues[name];
      && es[k + 1].queues == es[k].queues - {name}
      && |es[k + 1].pool| == |es[k].pool|
      && (forall g | 0 <= g < |es[k].pool| && g != h :: es[k + 1].pool[g] == es[k].pool[g])
      && es[k + 1].pool[h].st.tasks == map[]
      && es[k + 1].pool[h].st.tombstones == es[k].pool[h].st.tombstones
      && AllRemoved(es[k + 1].pool[h].st.arena)
  {
    RunRouted(es, steps, k);
    var h := es[k].queues[name];
    assert Good(es[k].pool[h], es[k].now);
    SoundHere(es[k].pool[h]);
    StopEmpties(es[k].pool[h].st);
    OneQueueSteps(es[k], h, StopStep);
  }
}
