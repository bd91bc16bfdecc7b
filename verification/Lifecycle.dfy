/**
 The life of the tasks of one queue (core/queue.go, driven by core/engine.go) as a state machine.

 Every section the source runs under the queue lock is one atomic step. A pending timer and a
 running goroutine are both continuations: entries of `conts` whose phase says where in
 schedule/fire/attempt they stand. Between two steps anything else may happen, the clock
 included. A *taskState is a handle, its index in `arena`, so two tasks that reuse a name are
 different objects.
 */
module Lifecycle {
  import opened Wrappers
  import opened FixedWidth
  import opened Types
  import Dispatch
  import RetryPolicy

  const PAUSE_POLL_INTERVAL: int := SECOND

  /** The engine settings a queue reads. */
  datatype EngineConfig = EngineConfig(taskTTL: int, tombstoneTTL: int, hardResetOnPurge: bool)

  datatype TaskState = TaskState(
    name: string,
    pull: bool,
    createTime: int,
    scheduleTime: int,
    dispatchCount: int,
    responseCount: int,
    executionCount: int,
    firstAttemptTime: Option<int>,
    lastDispatchTime: int,
    lastHTTPCode: int,
    lastRetryReason: string,
    timer: Option<nat>,
    removed: bool)

  /** One limiter and semaphore pair, as rebuildLimits makes them; held counts the tokens taken. */
  datatype Limits = Limits(burst: int, capacity: int, held: nat)

  /** Where a continuation stands. gen is the index of the Limits it captured. */
  datatype Phase =
    | Armed(due: int)                    // dispatch timer waiting for its time
    | Fired                              // timer went off, fire has not locked the queue yet
    | AtLimiter(gen: nat)                // passed the pause gate, waiting for the rate limiter
    | AtSemaphore(gen: nat)              // waiting for a concurrency token
    | Admitted(gen: nat)                 // holds a token, attempt not begun
    | Entered                            // RunTask unlocked, attempt not begun
    | InFlight(slot: Option<nat>, began: int)  // snapshot taken, dispatching without the lock
    | Returning(gen: nat)                // attempt over, token not yet returned

  datatype Cont = Cont(task: nat, phase: Phase)

  datatype TtlPhase = TtlArmed(due: int) | TtlFired(due: int)

  datatype Cleanup = Cleanup(name: string, due: int)

  datatype QState = QState(
    q: Queue,
    eng: EngineConfig,
    arena: seq<TaskState>,
    tasks: map<string, nat>,
    tombstones: map<string, int>,
    limits: seq<Limits>,
    conts: map<nat, Cont>,
    ttls: map<nat, TtlPhase>,
    cleanups: multiset<Cleanup>,
    nextId: nat,
    now: int)

  /** References stay inside the state. */
  ghost predicate WellFormed(s: QState) {
    && |s.limits| >= 1
    && TasksInRange(s.tasks, |s.arena|)
    && ContsInRange(s.conts, |s.arena|, |s.limits|)
    && TtlsInRange(s.ttls, |s.arena|)
  }

  ghost predicate TasksInRange(tasks: map<string, nat>, handles: nat) {
    forall n | n in tasks :: tasks[n] < handles
  }

  ghost predicate ContsInRange(conts: map<nat, Cont>, handles: nat, gens: nat) {
    forall i | i in conts :: InRange(conts[i], handles, gens)
  }

  ghost predicate TtlsInRange(ttls: map<nat, TtlPhase>, handles: nat) {
    forall h | h in ttls :: h < handles
  }

  predicate InRange(c: Cont, handles: nat, gens: nat) {
    && c.task < handles
    && (CapturedGen(c.phase).Some? ==> CapturedGen(c.phase).value < gens)
  }

  function CapturedGen(p: Phase): Option<nat> {
    match p
    case AtLimiter(g) => Some(g)
    case AtSemaphore(g) => Some(g)
    case Admitted(g) => Some(g)
    case InFlight(slot, _) => slot
    case Returning(g) => Some(g)
    case _ => None
  }

  /** Configuration, limits and clock, which most steps leave alone. */
  predicate SameSetting(a: QState, b: QState) {
    a.q == b.q && a.eng == b.eng && a.limits == b.limits && a.now == b.now
  }

  // ---- helpers that run with the lock held ----

  function EffectiveTaskTTL(q: Queue, eng: EngineConfig): int {
    if q.taskTTL > 0 then q.taskTTL else eng.taskTTL
  }

  function EffectiveTombstoneTTL(q: Queue, eng: EngineConfig): int {
    if q.tombstoneTTL > 0 then q.tombstoneTTL else eng.tombstoneTTL
  }

  function NewLimits(rl: RateLimits): Limits {
    Limits(Max(1, rl.maxBurstSize), Max(1, rl.maxConcurrentDispatches), 0)
  }

  /** The state of a queue that has just been created at the given time. */
  function NewQueueState(q: Queue, eng: EngineConfig, now: int): QState {
    QState(q, eng, [], map[], map[], [NewLimits(q.rateLimits)], map[], map[], multiset{}, 0, now)
  }

  /** time.AfterFunc for the dispatch timer of h. */
  function Arm(s: QState, h: nat, due: int): QState
    requires h < |s.arena|
  {
    s.(conts := s.conts[s.nextId := Cont(h, Armed(due))],
       arena := s.arena[h := s.arena[h].(timer := Some(s.nextId))],
       nextId := s.nextId + 1)
  }

  predicate NeverDispatched(s: QState, h: nat)
    requires h < |s.arena|
  {
    s.q.pull || s.arena[h].pull
  }

  function Schedule(s: QState, h: nat): (r: QState)
    requires h < |s.arena|
    ensures r == s.(arena := r.arena, conts := r.conts, nextId := r.nextId) && |r.arena| == |s.arena|
  {
    if s.arena[h].removed || NeverDispatched(s, h) then s
    else Arm(s, h, Max(s.now, s.arena[h].scheduleTime))
  }

  /** The dispatch timer that Stop would cancel: the last one armed, if it has not gone off. */
  function StoppableTimer(s: QState, h: nat): set<nat>
    requires h < |s.arena|
  {
    match s.arena[h].timer
    case None => {}
    case Some(i) => if i in s.conts && s.conts[i].phase.Armed? then {i} else {}
  }

  function StoppableTtl(s: QState, h: nat): set<nat> {
    if h in s.ttls && s.ttls[h].TtlArmed? then {h} else {}
  }

  function TombstoneLocked(s: QState, name: string): QState {
    var ttl := EffectiveTombstoneTTL(s.q, s.eng);
    if ttl < 0 then s
    else s.(tombstones := s.tombstones[name := s.now + ttl],
            cleanups := s.cleanups + multiset{Cleanup(name, s.now + ttl)})
  }

  predicate Tombstoned(s: QState, name: string) {
    name in s.tombstones && s.now < s.tombstones[name]
  }

  function RemoveLocked(s: QState, h: nat): (r: QState)
    requires h < |s.arena|
    ensures SameSetting(s, r) && |r.arena| == |s.arena|
  {
    var name := s.arena[h].name;
    TombstoneLocked(
      s.(arena := s.arena[h := s.arena[h].(removed := true)],
         conts := s.conts - StoppableTimer(s, h),
         ttls := s.ttls - StoppableTtl(s, h),
         tasks := s.tasks - {name}),
      name)
  }

  // ---- continuations of a delivery ----

  /** The runtime starts the callback of a due dispatch timer. */
  function TimerFires(s: QState, i: nat): QState
    requires i in s.conts
  {
    s.(conts := s.conts[i := s.conts[i].(phase := Fired)])
  }

  /** The locked section of fire: drop, hold while paused, or capture the limits. */
  function FireLocked(s: QState, i: nat): (r: QState)
    requires WellFormed(s) && i in s.conts
    ensures r == s.(arena := r.arena, conts := r.conts, nextId := r.nextId) && |r.arena| == |s.arena|
  {
    var h := s.conts[i].task;
    if s.arena[h].removed then
      s.(conts := s.conts - {i})
    else if s.q.state != Running then
      Arm(s.(conts := s.conts - {i}), h, s.now + PAUSE_POLL_INTERVAL)
    else
      s.(conts := s.conts[i := Cont(h, AtLimiter(|s.limits| - 1))])
  }

  /** limiter.Wait returns: an error if the burst cannot cover one event, else admission. */
  function LimiterReturns(s: QState, i: nat): QState
    requires WellFormed(s) && i in s.conts && s.conts[i].phase.AtLimiter?
  {
    var c := s.conts[i];
    if s.limits[c.phase.gen].burst < 1 then s.(conts := s.conts - {i})
    else s.(conts := s.conts[i := c.(phase := AtSemaphore(c.phase.gen))])
  }

  function TakeToken(s: QState, i: nat): QState
    requires WellFormed(s) && i in s.conts && s.conts[i].phase.AtSemaphore?
  {
    var c := s.conts[i];
    var g := c.phase.gen;
    s.(conts := s.conts[i := c.(phase := Admitted(g))],
       limits := s.limits[g := s.limits[g].(held := s.limits[g].held + 1)])
  }

  function ReturnToken(s: QState, i: nat): QState
    requires WellFormed(s) && i in s.conts && s.conts[i].phase.Returning?
    requires s.limits[s.conts[i].phase.gen].held > 0
  {
    var g := s.conts[i].phase.gen;
    s.(conts := s.conts - {i},
       limits := s.limits[g := s.limits[g].(held := s.limits[g].held - 1)])
  }

  /** The semaphore generation whose token the attempt of a continuation holds, if any. */
  function Slot(p: Phase): Option<nat> {
    match p
    case Admitted(g) => Some(g)
    case InFlight(slot, _) => slot
    case _ => None
  }

  /** attempt returns: a timer-driven one goes on to give its token back, RunTask's is over. */
  function Finish(s: QState, i: nat): (r: QState)
    requires i in s.conts
    ensures r == s.(conts := r.conts)
  {
    match Slot(s.conts[i].phase)
    case Some(g) => s.(conts := s.conts[i := s.conts[i].(phase := Returning(g))])
    case None => s.(conts := s.conts - {i})
  }

  function SnapshotAttempt(s: QState, i: nat): (r: QState)
    requires WellFormed(s) && i in s.conts
    ensures r == s.(conts := r.conts)
  {
    var c := s.conts[i];
    if s.arena[c.task].removed then Finish(s, i)
    else s.(conts := s.conts[i := c.(phase := InFlight(Slot(c.phase), s.now))])
  }

  /** The task after the result of one delivery has been recorded on it. */
  function Record(t: TaskState, o: Dispatch.Outcome, dispatchTime: int): TaskState {
    var httpCode := Dispatch.HttpCode(o);
    t.(dispatchCount := Wrap32(t.dispatchCount + 1),
       responseCount := if httpCode != 0 then Wrap32(t.responseCount + 1) else t.responseCount,
       executionCount := if httpCode != 0 && httpCode < 500 then Wrap32(t.executionCount + 1) else t.executionCount,
       firstAttemptTime := if t.firstAttemptTime.None? then Some(dispatchTime) else t.firstAttemptTime,
       lastDispatchTime := dispatchTime,
       lastHTTPCode := httpCode,
       lastRetryReason :=
         if Dispatch.RpcCode(o) == 0 then t.lastRetryReason
         else Dispatch.RetryReason(httpCode, Dispatch.Message(o)))
  }

  datatype Verdict = Complete | Exhaust | Retry(delay: int)

  /** What the retry policy says of a task whose latest result is recorded. */
  function Judge(rc: RetryConfig, now: int, t: TaskState, o: Dispatch.Outcome): Verdict
    requires t.firstAttemptTime.Some?
  {
    if Dispatch.RpcCode(o) == 0 then Complete
    else if !RetryPolicy.ShouldRetry(rc, t.dispatchCount, now - t.firstAttemptTime.value) then Exhaust
    else Retry(RetryPolicy.Backoff(rc, t.dispatchCount))
  }

  /** Stores the recorded task and schedules its next attempt. */
  function Reschedule(s: QState, i: nat, t: TaskState, delay: int): (r: QState)
    requires WellFormed(s) && i in s.conts
    ensures r == s.(arena := r.arena, conts := r.conts, nextId := r.nextId) && |r.arena| == |s.arena|
  {
    var h := s.conts[i].task;
    Schedule(Finish(s.(arena := s.arena[h := t.(scheduleTime := s.now + delay)]), i), h)
  }

  /** Stores the recorded task and removes it. */
  function Discard(s: QState, i: nat, t: TaskState): (r: QState)
    requires WellFormed(s) && i in s.conts
    ensures SameSetting(s, r) && |r.arena| == |s.arena|
  {
    var h := s.conts[i].task;
    RemoveLocked(Finish(s.(arena := s.arena[h := t]), i), h)
  }

  function ApplyAttempt(s: QState, i: nat, o: Dispatch.Outcome, dispatchTime: int): (r: QState)
    requires WellFormed(s) && i in s.conts
    ensures SameSetting(s, r) && |r.arena| == |s.arena|
  {
    var h := s.conts[i].task;
    if s.arena[h].removed then Finish(s, i)
    else
      var t := Record(s.arena[h], o, dispatchTime);
      match Judge(s.q.retryConfig, s.now, t, o)
      case Retry(delay) => Reschedule(s, i, t, delay)
      case _ => Discard(s, i, t)
  }

  // ---- calls and callbacks from outside a delivery ----

  datatype NewTask = NewTask(name: string, pull: bool, scheduleTime: Option<int>, createTime: int)

  function FreshTask(t: NewTask): TaskState {
    TaskState(t.name, t.pull, t.createTime,
              if t.scheduleTime.None? then t.createTime else t.scheduleTime.value,
              0, 0, 0, None, 0, 0, "", None, false)
  }

  /** A new task object in the map, with its TTL timer armed. */
  function Appended(s: QState, t: TaskState): QState {
    s.(arena := s.arena + [t],
       tasks := s.tasks[t.name := |s.arena|],
       ttls := s.ttls[|s.arena| := TtlArmed(s.now + Max(0, EffectiveTaskTTL(s.q, s.eng)))])
  }

  function AddTask(s: QState, t: TaskState): QState {
    Schedule(Appended(s, t), |s.arena|)
  }

  predicate NameTaken(s: QState, name: string) {
    name in s.tasks || Tombstoned(s, name)
  }

  function CreateTask(s: QState, t: NewTask): (r: QState)
    ensures SameSetting(s, r)
  {
    if NameTaken(s, t.name) then s else AddTask(s, FreshTask(t))
  }

  function DeleteTask(s: QState, name: string): (r: QState)
    requires WellFormed(s)
    ensures SameSetting(s, r) && |r.arena| == |s.arena|
  {
    if name in s.tasks then RemoveLocked(s, s.tasks[name]) else s
  }

  predicate Runnable(s: QState, name: string)
    requires WellFormed(s)
  {
    !s.q.pull && name in s.tasks && !s.arena[s.tasks[name]].pull
  }

  /** The first locked section of RunTask: stop the timer and enter attempt directly. */
  function RunTask(s: QState, name: string): (r: QState)
    requires WellFormed(s)
    ensures r == s.(arena := r.arena, conts := r.conts, nextId := r.nextId) && |r.arena| == |s.arena|
  {
    if !Runnable(s, name) then s
    else
      var h := s.tasks[name];
      s.(conts := (s.conts - StoppableTimer(s, h))[s.nextId := Cont(h, Entered)],
         arena := s.arena[h := s.arena[h].(scheduleTime := s.now)],
         nextId := s.nextId + 1)
  }

  function TtlFires(s: QState, h: nat): QState
    requires h in s.ttls
  {
    s.(ttls := s.ttls[h := TtlFired(s.ttls[h].due)])
  }

  function Expire(s: QState, h: nat): (r: QState)
    requires WellFormed(s) && h in s.ttls
    ensures SameSetting(s, r) && |r.arena| == |s.arena|
  {
    var s' := s.(ttls := s.ttls - {h});
    if s.arena[h].removed then s' else RemoveLocked(s', h)
  }

  function RunCleanup(s: QState, c: Cleanup): QState {
    var s' := s.(cleanups := s.cleanups - multiset{c});
    if c.name in s.tombstones && s.tombstones[c.name] <= s.now then s'.(tombstones := s.tombstones - {c.name}) else s'
  }

  /** The handles the task map holds. */
  function LiveHandles(s: QState): set<nat> {
    set n | n in s.tasks :: s.tasks[n]
  }

  /** The timers that stopping every task of the map cancels. */
  function StoppableTimers(s: QState): set<nat>
    requires WellFormed(s)
  {
    set n, i | n in s.tasks && i in StoppableTimer(s, s.tasks[n]) :: i
  }

  function StoppableTtls(s: QState): set<nat> {
    set n | n in s.tasks && StoppableTtl(s, s.tasks[n]) != {} :: s.tasks[n]
  }

  /** Every task of the map loses its timers and is marked removed. */
  function DetachAll(s: QState): (r: QState)
    requires WellFormed(s)
    ensures r == s.(arena := r.arena, conts := r.conts, ttls := r.ttls, tasks := map[]) && |r.arena| == |s.arena|
  {
    s.(arena := seq(|s.arena|, h requires 0 <= h < |s.arena| =>
                  if h in LiveHandles(s) then s.arena[h].(removed := true) else s.arena[h]),
       conts := s.conts - StoppableTimers(s),
       ttls := s.ttls - StoppableTtls(s),
       tasks := map[])
  }

  /** The reservations purge makes, one for each name in the map. */
  function ReserveAll(s: QState): map<string, int> {
    map n | n in s.tombstones.Keys + s.tasks.Keys ::
      if n in s.tasks then s.now + EffectiveTombstoneTTL(s.q, s.eng) else s.tombstones[n]
  }

  function CleanupsFor(names: set<string>, due: int): multiset<Cleanup> {
    multiset(set n | n in names :: Cleanup(n, due))
  }

  function Purge(s: QState): QState
    requires WellFormed(s)
  {
    var ttl := EffectiveTombstoneTTL(s.q, s.eng);
    var reserved := if ttl < 0 then s.tombstones else ReserveAll(s);
    DetachAll(s).(
      tombstones := if s.eng.hardResetOnPurge then map[] else reserved,
      cleanups := s.cleanups + (if ttl < 0 then multiset{} else CleanupsFor(s.tasks.Keys, s.now + ttl)),
      q := s.q.(purgeTime := Some(s.now)))
  }

  /** DeleteQueue tears the queue down without reserving names. */
  function Stop(s: QState): QState
    requires WellFormed(s)
  {
    DetachAll(s)
  }

  function UpdateQueue(s: QState, update: Queue, fields: seq<QueueField>): QState {
    var q := MergeUpdate(s.q, update, fields);
    s.(q := q, limits := s.limits + [NewLimits(q.rateLimits)])
  }

  function SetQueueState(s: QState, st: State): QState {
    s.(q := s.q.(state := st))
  }

  // ---- the state machine ----

  datatype Step =
    | Tick(to: int)
    | TimerStep(i: nat)
    | FireStep(i: nat)
    | LimiterStep(i: nat)
    | TakeStep(i: nat)
    | SnapshotStep(i: nat)
    | ApplyStep(i: nat, outcome: Dispatch.Outcome, dispatchTime: int)
    | ReturnStep(i: nat)
    | CreateStep(task: NewTask)
    | DeleteStep(name: string)
    | RunStep(name: string)
    | TtlStep(h: nat)
    | ExpireStep(h: nat)
    | CleanupStep(c: Cleanup)
    | PurgeStep
    | StopStep
    | UpdateStep(update: Queue, fields: seq<QueueField>)
    | SetStateStep(st: State)

  /** When a step can be taken. A call is always possible; a callback when its time has come. */
  ghost predicate Enabled(s: QState, step: Step)
    requires WellFormed(s)
  {
    match step
    case Tick(to) => s.now <= to
    case TimerStep(i) => i in s.conts && s.conts[i].phase.Armed? && s.conts[i].phase.due <= s.now
    case FireStep(i) => i in s.conts && s.conts[i].phase.Fired?
    case LimiterStep(i) => i in s.conts && s.conts[i].phase.AtLimiter?
    case TakeStep(i) =>
      && i in s.conts && s.conts[i].phase.AtSemaphore? && InRange(s.conts[i], |s.arena|, |s.limits|)
      && var l := s.limits[s.conts[i].phase.gen]; l.held < l.capacity
    case SnapshotStep(i) => i in s.conts && (s.conts[i].phase.Admitted? || s.conts[i].phase.Entered?)
    case ApplyStep(i, _, dispatchTime) =>
      i in s.conts && s.conts[i].phase.InFlight? && s.conts[i].phase.began <= dispatchTime <= s.now
    case ReturnStep(i) =>
      && i in s.conts && s.conts[i].phase.Returning? && InRange(s.conts[i], |s.arena|, |s.limits|)
      && s.limits[s.conts[i].phase.gen].held > 0
    case CreateStep(t) => t.createTime <= s.now
    case TtlStep(h) => h in s.ttls && s.ttls[h].TtlArmed? && s.ttls[h].due <= s.now
    case ExpireStep(h) => h in s.ttls && s.ttls[h].TtlFired?
    case CleanupStep(c) => c in s.cleanups && c.due <= s.now
    case _ => true
  }

  function NextState(s: QState, step: Step): QState
    requires WellFormed(s) && Enabled(s, step)
  {
    match step
    case Tick(to) => s.(now := to)
    case TimerStep(i) => TimerFires(s, i)
    case FireStep(i) => FireLocked(s, i)
    case LimiterStep(i) => LimiterReturns(s, i)
    case TakeStep(i) => TakeToken(s, i)
    case SnapshotStep(i) => SnapshotAttempt(s, i)
    case ApplyStep(i, o, dispatchTime) => ApplyAttempt(s, i, o, dispatchTime)
    case ReturnStep(i) => ReturnToken(s, i)
    case CreateStep(t) => CreateTask(s, t)
    case DeleteStep(name) => DeleteTask(s, name)
    case RunStep(name) => RunTask(s, name)
    case TtlStep(h) => TtlFires(s, h)
    case ExpireStep(h) => Expire(s, h)
    case CleanupStep(c) => RunCleanup(s, c)
    case PurgeStep => Purge(s)
    case StopStep => Stop(s)
    case UpdateStep(update, fields) => UpdateQueue(s, update, fields)
    case SetStateStep(st) => SetQueueState(s, st)
  }
}
