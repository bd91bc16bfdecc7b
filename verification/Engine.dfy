/**
 The engine above the queues (core/engine.go): the map of queues, the calls that change it, and
 every interleaving of those calls with the locked sections of the queues.

 A *queueState is an index into `pool`, so a queue that was deleted lives on there for the calls
 and callbacks that still hold it, and a queue recreated under the same name is another object.
 CreateTask looks its queue up and lets go of the engine lock before it locks the queue; the
 lookups that are still under way are `lookups`.
 */
module Engine {
  import opened Wrappers
  import opened Types
  import opened Lifecycle
  import opened History
  import opened Naming

  datatype Lookup = Lookup(parent: string, queue: nat)

  datatype EngineState = EngineState(
    eng: EngineConfig,
    now: int,
    queues: map<string, nat>,
    pool: seq<System>,
    lookups: set<Lookup>)

  // ---- validation, in the order of the source ----

  predicate ValidQueueName(name: string) {
    name != "" && ParseQueueName(name).Some? && IsQueueID(QueueID(name))
  }

  /** Why CreateQueue refuses, if it does. */
  function CreateQueueError(queues: set<string>, parent: string, name: string): Option<ErrorCode> {
    if ParseLocationName(parent).None? then Some(InvalidArgument)
    else if !ValidQueueName(name) then Some(InvalidArgument)
    else if QueueParent(name) != parent then Some(InvalidArgument)
    else if name in queues then Some(AlreadyExists)
    else None
  }

  /** taskQueue: the queue that a task name leads to. */
  function TaskQueue<T>(queues: map<string, T>, name: string): Result<T> {
    if ParseTaskName(name).None? then Err(InvalidArgument)
    else if TaskQueueOf(name) in queues then Ok(queues[TaskQueueOf(name)])
    else Err(NotFound)
  }

  // ---- steps ----

  datatype EngineStep =
    | ClockStep(to: int)
    | CreateQueueStep(parent: string, q: Queue)
    | UpdateQueueStep(update: Queue, fields: seq<QueueField>)
    | DeleteQueueStep(name: string)
    | LookupStep(parent: string)          // CreateTask finds its queue
      // CreateTask resolves its name and locks the queue it found
    | CreateTaskStep(found: Lookup, provided: string, clock: nat, seqNo: nat, task: NewTask)
    | QueueStep(h: nat, step: Step)       // another locked section of a queue, deleted or not

  /** The locked sections that reach a queue other than through the calls above. */
  predicate OtherSection(step: Step) {
    !step.Tick? && !step.UpdateStep? && !step.StopStep? && !step.CreateStep?
  }

  ghost predicate InPool(e: EngineState) {
    && (forall n | n in e.queues :: e.queues[n] < |e.pool|)
    && (forall h | 0 <= h < |e.pool| :: WellFormed(e.pool[h].st) && e.pool[h].st.now == e.now)
  }

  ghost predicate EngineEnabled(e: EngineState, step: EngineStep)
    requires InPool(e)
  {
    match step
    case ClockStep(to) => e.now <= to
    case CreateTaskStep(found, provided, clock, seqNo, task) =>
      && found in e.lookups && found.queue < |e.pool| && task.createTime <= e.now
      && ResolveTaskName(found.parent, provided, GeneratedID(clock, seqNo)) == Ok(task.name)
    case QueueStep(h, inner) => h < |e.pool| && Enabled(e.pool[h].st, inner) && OtherSection(inner)
    case _ => true
  }

  function AddQueue(e: EngineState, q: Queue): EngineState {
    e.(queues := e.queues[q.name := |e.pool|],
       pool := e.pool + [System(NewQueueState(ApplyQueueDefaults(q), e.eng, e.now), [])])
  }

  function StepQueue(e: EngineState, h: nat, step: Step): EngineState
    requires h < |e.pool| && WellFormed(e.pool[h].st) && Enabled(e.pool[h].st, step)
  {
    e.(pool := e.pool[h := Next(e.pool[h], step)])
  }

  function UpdateQueueIn(e: EngineState, update: Queue, fields: seq<QueueField>): EngineState
    requires InPool(e)
  {
    if !ValidQueueName(update.name) then e
    else if update.name !in e.queues then AddQueue(e, update)
    else StepQueue(e, e.queues[update.name], UpdateStep(update, fields))
  }

  function DeleteQueueIn(e: EngineState, name: string): EngineState
    requires InPool(e)
  {
    if name !in e.queues then e
    else StepQueue(e, e.queues[name], StopStep).(queues := e.queues - {name})
  }

  function Advance(e: EngineState, to: int): EngineState
    requires InPool(e) && e.now <= to
  {
    e.(now := to, pool := seq(|e.pool|, h requires 0 <= h < |e.pool| => Next(e.pool[h], Tick(to))))
  }

  function EngineNext(e: EngineState, step: EngineStep): EngineState
    requires InPool(e) && EngineEnabled(e, step)
  {
    match step
    case ClockStep(to) => Advance(e, to)
    case CreateQueueStep(parent, q) =>
      if CreateQueueError(e.queues.Keys, parent, q.name).Some? then e else AddQueue(e, q)
    case UpdateQueueStep(update, fields) => UpdateQueueIn(e, update, fields)
    case DeleteQueueStep(name) => DeleteQueueIn(e, name)
    case LookupStep(parent) =>
      if ParseQueueName(parent).Some? && parent in e.queues
      then e.(lookups := e.lookups + {Lookup(parent, e.queues[parent])}) else e
    case CreateTaskStep(found, _, _, _, task) => StepQueue(e, found.queue, CreateStep(task))
    case QueueStep(h, inner) => StepQueue(e, h, inner)
  }

  // ---- runs of the engine ----

  ghost predicate EngineFollows(a: EngineState, step: EngineStep, b: EngineState) {
    InPool(a) && EngineEnabled(a, step) && b == EngineNext(a, step)
  }

  ghost predicate EngineStepAt(es: seq<EngineState>, steps: seq<EngineStep>, k: nat)
    requires |es| == |steps| + 1 && k < |steps|
  {
    EngineFollows(es[k], steps[k], es[k + 1])
  }

  ghost predicate EngineRun(es: seq<EngineState>, steps: seq<EngineStep>) {
    && |es| == |steps| + 1
    && es[0].queues == map[] && es[0].pool == [] && es[0].lookups == {}
    && (forall k | 0 <= k < |steps| :: EngineStepAt(es, steps, k))
  }
}
