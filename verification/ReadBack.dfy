/**
 Queues configured through the v2beta3 API, in every run of the engine: each stays in the form
 the API gives it, and feeding what GetQueue answers back to UpdateQueue changes nothing of it.
 */
module ReadBack {
  import opened Wrappers
  import opened Types
  import opened Lifecycle
  import opened History
  import opened Naming
  import opened Engine
  import opened Routing
  import opened Adapter

  /** Queues come to the engine only through the API conversion. */
  ghost predicate FromApi(step: EngineStep) {
    match step
    case CreateQueueStep(_, q) => exists p :: q == QueueToCore(p)
    case UpdateQueueStep(update, _) => exists p :: update == QueueToCore(p)
    case _ => true
  }

  ghost predicate ApiRun(es: seq<EngineState>, steps: seq<EngineStep>) {
    EngineRun(es, steps) && forall k | 0 <= k < |steps| :: FromApi(steps[k])
  }

  /** Every queue object is in API form, and the queues are filed under names UpdateQueue accepts. */
  ghost predicate AllConfigured(e: EngineState) {
    && (forall h | 0 <= h < |e.pool| :: Configured(e.pool[h].st.q))
    && (forall n | n in e.queues :: ValidQueueName(n))
  }

  // ---- one step ----

  /** Nothing but UpdateQueue touches more of the queue resource than its state and purge time. */
  lemma ConfigurationStays(s: QState, step: Step)
    requires WellFormed(s) && Enabled(s, step) && !step.UpdateStep?
    ensures NextState(s, step).q == s.q.(state := NextState(s, step).q.state, purgeTime := NextState(s, step).q.purgeTime)
  {
  }

  lemma ConfiguredInner(sys: System, step: Step)
    requires WellFormed(sys.st) && Enabled(sys.st, step) && !step.UpdateStep? && Configured(sys.st.q)
    ensures Configured(Next(sys, step).st.q)
  {
    ConfigurationStays(sys.st, step);
  }

  lemma ConfiguredStepQueue(e: EngineState, h: nat, step: Step)
    requires AllConfigured(e) && h < |e.pool| && WellFormed(e.pool[h].st) && Enabled(e.pool[h].st, step) && !step.UpdateStep?
    ensures AllConfigured(StepQueue(e, h, step))
  {
    ConfiguredInner(e.pool[h], step);
  }

  lemma ConfiguredAdd(e: EngineState, p: ProtoQueue)
    requires AllConfigured(e) && ValidQueueName(p.name)
    ensures AllConfigured(AddQueue(e, QueueToCore(p)))
  {
    CreatedConfigured(p);
    var e' := AddQueue(e, QueueToCore(p));
    assert forall h | 0 <= h < |e.pool| :: e'.pool[h] == e.pool[h];
  }

  lemma ConfiguredMerge(e: EngineState, h: nat, p: ProtoQueue, fields: seq<QueueField>)
    requires AllConfigured(e) && h < |e.pool| && WellFormed(e.pool[h].st)
    ensures AllConfigured(StepQueue(e, h, UpdateStep(QueueToCore(p), fields)))
  {
    UpdatedConfigured(e.pool[h].st.q, p, fields);
    assert Next(e.pool[h], UpdateStep(QueueToCore(p), fields)).st.q == MergeUpdate(e.pool[h].st.q, QueueToCore(p), fields);
  }

  lemma ConfiguredUpdate(e: EngineState, p: ProtoQueue, fields: seq<QueueField>)
    requires AllConfigured(e) && InPool(e)
    ensures AllConfigured(UpdateQueueIn(e, QueueToCore(p), fields))
  {
    if ValidQueueName(p.name) {
      if p.name in e.queues {
        ConfiguredMerge(e, e.queues[p.name], p, fields);
      } else {
        ConfiguredAdd(e, p);
      }
    }
  }

  lemma ConfiguredAdvance(e: EngineState, to: int)
    requires AllConfigured(e) && InPool(e) && e.now <= to
    ensures AllConfigured(Advance(e, to))
  {
    forall h | 0 <= h < |e.pool| ensures Configured(Next(e.pool[h], Tick(to)).st.q) {
      ConfiguredInner(e.pool[h], Tick(to));
    }
  }

  lemma ConfiguredStep(e: EngineState, step: EngineStep)
    requires AllConfigured(e) && InPool(e) && EngineEnabled(e, step) && FromApi(step)
    ensures AllConfigured(EngineNext(e, step))
  {
    match step
    case ClockStep(to) => ConfiguredAdvance(e, to);
    case CreateQueueStep(parent, q) =>
      var p :| q == QueueToCore(p);
      if CreateQueueError(e.queues.Keys, parent, q.name).None? { ConfiguredAdd(e, p); }
    case UpdateQueueStep(update, fields) =>
      var p :| update == QueueToCore(p);
      ConfiguredUpdate(e, p, fields);
    case DeleteQueueStep(name) =>
      if name in e.queues { ConfiguredStepQueue(e, e.queues[name], StopStep); }
    case LookupStep(_) =>
    case CreateTaskStep(found, _, _, _, task) => ConfiguredStepQueue(e, found.queue, CreateStep(task));
    case QueueStep(h, inner) => ConfiguredStepQueue(e, h, inner);
  }

  // ---- whole runs ----

  lemma ConfiguredFollows(a: EngineState, step: EngineStep, b: EngineState)
    requires AllConfigured(a) && EngineFollows(a, step, b) && FromApi(step)
    ensures AllConfigured(b)
  {
    ConfiguredStep(a, step);
  }

  /** In every state of every run over the API, every queue object, deleted ones included, is in API form. */
  lemma {:induction false} AlwaysConfigured(es: seq<EngineState>, steps: seq<EngineStep>, k: nat)
    requires ApiRun(es, steps) && k < |es|
    ensures AllConfigured(es[k])
  {
    if k > 0 {
      AlwaysConfigured(es, steps, k - 1);
      assert EngineStepAt(es, steps, k - 1) && FromApi(steps[k - 1]);
      ConfiguredFollows(es[k - 1], steps[k - 1], es[k]);
    }
  }

  /** What UpdateQueue does to a queue whose read-back it is fed: a new limiter and semaphore of the same limits. */
  lemma ReadBackStep(sys: System, tasksCount: int, list: seq<Header>)
    requires WellFormed(sys.st) && Configured(sys.st.q)
    requires sys.st.q.httpOverride.Some? ==> Enumerates(list, sys.st.q.httpOverride.value.headers)
    ensures
      var update := QueueToCore(QueueFromCore(sys.st.q, tasksCount, list));
      Next(sys, UpdateStep(update, [])) ==
      System(sys.st.(limits := sys.st.limits + [NewLimits(sys.st.q.rateLimits)]), sys.log)
  {
    ReadBackMerge(sys.st.q, tasksCount, list);
    assert sys.log + [] == sys.log;
  }

  /**
   Read-back update is the identity: in every state of every run over the API, feeding what
   GetQueue answers for a queue to UpdateQueue with an empty mask leaves its resource, its tasks,
   its reservations and its history, and every other queue, exactly as they were, in whatever
   order the headers were listed; only a fresh limiter and semaphore of the same limits are built.
   */
  lemma ReadBackUpdateIsIdentity(es: seq<EngineState>, steps: seq<EngineStep>, k: nat, name: string,
                                 tasksCount: int, list: seq<Header>)
    requires ApiRun(es, steps) && k < |es| && name in es[k].queues
    requires es[k].queues[name] < |es[k].pool|
    requires
      var q := es[k].pool[es[k].queues[name]].st.q;
      q.httpOverride.Some? ==> Enumerates(list, q.httpOverride.value.headers)
    ensures InPool(es[k])
    ensures
      var h := es[k].queues[name];
      var sys := es[k].pool[h];
      UpdateQueueIn(es[k], QueueToCore(QueueFromCore(sys.st.q, tasksCount, list)), []) ==
      es[k].(pool := es[k].pool[h := System(sys.st.(limits := sys.st.limits + [NewLimits(sys.st.q.rateLimits)]), sys.log)])
  {
    AlwaysConfigured(es, steps, k);
    RunRouted(es, steps, k);
    var e := es[k];
    var h := e.queues[name];
    ReadBackStep(e.pool[h], tasksCount, list);
    assert QueueToCore(QueueFromCore(e.pool[h].st.q, tasksCount, list)).name == name;
  }
}
