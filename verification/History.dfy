/**
 Runs of the queue state machine, with a log of what happened to each task. The log is not part
 of the emulator: it is what the properties of whole runs speak about.
 */
module History {
  import opened Types
  import opened Lifecycle
  import Dispatch

  datatype Reason = Completed | Exhausted | Deleted | Expired

  datatype Event =
    | Created(h: nat, name: string, at: int)
    | RunRequested(h: nat)
      // A delivery starts: which continuation, the retry count it carries, when it was due.
    | Started(h: nat, cont: nat, byTimer: bool, retryCount: int, scheduled: int, at: int)
      // A result was recorded: count is the dispatch count after it, rc the policy it met, dispatched when it was sent.
    | Applied(h: nat, httpCode: int, success: bool, count: int, rc: RetryConfig, verdict: Verdict, dispatched: int, at: int)
    | Removed(h: nat, name: string, reason: Reason, ttl: int, at: int)
    | Purged(hs: set<nat>, names: set<string>, ttl: int, hard: bool, at: int)
    | Stopped(hs: set<nat>, at: int)

  function RemovalEvent(s: QState, h: nat, reason: Reason): Event
    requires h < |s.arena|
  {
    Removed(h, s.arena[h].name, reason, EffectiveTombstoneTTL(s.q, s.eng), s.now)
  }

  function ApplyEvents(s: QState, i: nat, o: Dispatch.Outcome, dispatchTime: int): seq<Event>
    requires WellFormed(s) && i in s.conts
  {
    var h := s.conts[i].task;
    if s.arena[h].removed then []
    else
      var t := Record(s.arena[h], o, dispatchTime);
      ResultEvents(s, h, t, o, Judge(s.q.retryConfig, s.now, t, o))
  }

  /** The recorded result and, unless the task is retried, its removal. */
  function ResultEvents(s: QState, h: nat, t: TaskState, o: Dispatch.Outcome, v: Verdict): seq<Event>
    requires h < |s.arena|
  {
    var applied := Applied(h, Dispatch.HttpCode(o), Dispatch.IsSuccess(o), t.dispatchCount, s.q.retryConfig, v, t.lastDispatchTime, s.now);
    match v
    case Complete => [applied, RemovalEvent(s, h, Completed)]
    case Exhaust => [applied, RemovalEvent(s, h, Exhausted)]
    case Retry(_) => [applied]
  }

  /** What a step adds to the log. */
  function Events(s: QState, step: Step): seq<Event>
    requires WellFormed(s) && Enabled(s, step)
  {
    match step
    case CreateStep(t) => if NameTaken(s, t.name) then [] else [Created(|s.arena|, t.name, s.now)]
    case RunStep(name) => if Runnable(s, name) then [RunRequested(s.tasks[name])] else []
    case SnapshotStep(i) =>
      var h := s.conts[i].task;
      var t := s.arena[h];
      if t.removed then [] else [Started(h, i, s.conts[i].phase.Admitted?, t.dispatchCount, t.scheduleTime, s.now)]
    case ApplyStep(i, o, dispatchTime) => ApplyEvents(s, i, o, dispatchTime)
    case DeleteStep(name) => if name in s.tasks then [RemovalEvent(s, s.tasks[name], Deleted)] else []
    case ExpireStep(h) => if s.arena[h].removed then [] else [RemovalEvent(s, h, Expired)]
    case PurgeStep => [Purged(LiveHandles(s), s.tasks.Keys, EffectiveTombstoneTTL(s.q, s.eng), s.eng.hardResetOnPurge, s.now)]
    case StopStep => [Stopped(LiveHandles(s), s.now)]
    case _ => []
  }

  /** The task is removed one by one, for this reason. */
  predicate Ends(e: Event, reason: Reason) {
    e.Removed? && e.reason == reason
  }

  datatype System = System(st: QState, log: seq<Event>)

  lemma FireWellFormed(s: QState, i: nat)
    requires WellFormed(s) && i in s.conts
    ensures WellFormed(FireLocked(s, i))
  {
  }

  lemma FinishWellFormed(s: QState, i: nat)
    requires WellFormed(s) && i in s.conts
    ensures WellFormed(Finish(s, i))
  {
  }

  lemma SnapshotWellFormed(s: QState, i: nat)
    requires WellFormed(s) && i in s.conts
    ensures WellFormed(SnapshotAttempt(s, i))
  {
    FinishWellFormed(s, i);
  }

  lemma ScheduleWellFormed(s: QState, h: nat)
    requires WellFormed(s) && h < |s.arena|
    ensures WellFormed(Schedule(s, h))
  {
  }

  lemma CreateWellFormed(s: QState, t: NewTask)
    requires WellFormed(s)
    ensures WellFormed(CreateTask(s, t))
  {
  }

  lemma RemoveWellFormed(s: QState, h: nat)
    requires WellFormed(s) && h < |s.arena|
    ensures WellFormed(RemoveLocked(s, h))
  {
  }

  lemma DetachWellFormed(s: QState)
    requires WellFormed(s)
    ensures WellFormed(DetachAll(s))
  {
  }

  lemma RescheduleWellFormed(s: QState, i: nat, t: TaskState, delay: int)
    requires WellFormed(s) && i in s.conts
    ensures WellFormed(Reschedule(s, i, t, delay))
  {
    var h := s.conts[i].task;
    var stored := s.(arena := s.arena[h := t.(scheduleTime := s.now + delay)]);
    FinishWellFormed(stored, i);
    ScheduleWellFormed(Finish(stored, i), h);
  }

  lemma DiscardWellFormed(s: QState, i: nat, t: TaskState)
    requires WellFormed(s) && i in s.conts
    ensures WellFormed(Discard(s, i, t))
  {
    var h := s.conts[i].task;
    var stored := s.(arena := s.arena[h := t]);
    FinishWellFormed(stored, i);
    RemoveWellFormed(Finish(stored, i), h);
  }

  lemma ExpireWellFormed(s: QState, h: nat)
    requires WellFormed(s) && h in s.ttls
    ensures WellFormed(Expire(s, h))
  {
    RemoveWellFormed(s.(ttls := s.ttls - {h}), h);
  }

  lemma ApplyWellFormed(s: QState, i: nat, o: Dispatch.Outcome, dispatchTime: int)
    requires WellFormed(s) && i in s.conts
    ensures WellFormed(ApplyAttempt(s, i, o, dispatchTime))
  {
    if s.arena[s.conts[i].task].removed {
      FinishWellFormed(s, i);
    } else {
      var t := Record(s.arena[s.conts[i].task], o, dispatchTime);
      match Judge(s.q.retryConfig, s.now, t, o) {
        case Retry(delay) => RescheduleWellFormed(s, i, t, delay);
        case _ => DiscardWellFormed(s, i, t);
      }
    }
  }

  lemma RunTaskWellFormed(s: QState, name: string)
    requires WellFormed(s)
    ensures WellFormed(RunTask(s, name))
  {
  }

  lemma LimitsStepWellFormed(s: QState, step: Step)
    requires WellFormed(s) && Enabled(s, step) && (step.LimiterStep? || step.TakeStep? || step.ReturnStep?)
    ensures WellFormed(NextState(s, step))
  {
  }

  /** Every step keeps references inside the state. */
  lemma NextWellFormed(s: QState, step: Step)
    requires WellFormed(s) && Enabled(s, step)
    ensures WellFormed(NextState(s, step))
  {
    match step
    case FireStep(i) => FireWellFormed(s, i);
    case SnapshotStep(i) => SnapshotWellFormed(s, i);
    case ApplyStep(i, o, dispatchTime) => ApplyWellFormed(s, i, o, dispatchTime);
    case RunStep(name) => RunTaskWellFormed(s, name);
    case LimiterStep(_) => LimitsStepWellFormed(s, step);
    case TakeStep(_) => LimitsStepWellFormed(s, step);
    case ReturnStep(_) => LimitsStepWellFormed(s, step);
    case CreateStep(t) => CreateWellFormed(s, t);
    case DeleteStep(name) =>
      if name in s.tasks { RemoveWellFormed(s, s.tasks[name]); }
    case ExpireStep(h) => ExpireWellFormed(s, h);
    case PurgeStep => DetachWellFormed(s);
    case StopStep => DetachWellFormed(s);
    case _ =>
  }

  function Next(sys: System, step: Step): (r: System)
    requires WellFormed(sys.st) && Enabled(sys.st, step)
    ensures WellFormed(r.st)
  {
    NextWellFormed(sys.st, step);
    System(NextState(sys.st, step), sys.log + Events(sys.st, step))
  }

  ghost predicate Initial(sys: System) {
    exists q, eng, now :: sys == System(NewQueueState(ApplyQueueDefaults(q), eng, now), [])
  }

  ghost predicate Follows(a: System, step: Step, b: System) {
    WellFormed(a.st) && Enabled(a.st, step) && b == Next(a, step)
  }

  ghost predicate StepAt(r: seq<System>, steps: seq<Step>, k: nat)
    requires |r| == |steps| + 1 && k < |steps|
  {
    Follows(r[k], steps[k], r[k + 1])
  }

  /** Each state follows the one before it by its step. */
  ghost predicate Path(r: seq<System>, steps: seq<Step>) {
    && |r| == |steps| + 1
    && WellFormed(r[0].st)
    && (forall k | 0 <= k < |steps| :: StepAt(r, steps, k))
  }

  /** A path that begins with a queue that has just been created. */
  ghost predicate Run(r: seq<System>, steps: seq<Step>) {
    Path(r, steps) && Initial(r[0])
  }

  lemma PathWellFormed(r: seq<System>, steps: seq<Step>, k: nat)
    requires Path(r, steps) && k < |r|
    ensures WellFormed(r[k].st)
  {
    if k > 0 {
      assert StepAt(r, steps, k - 1);
    }
  }

  // ---- reachable systems ----

  /** Some run ends here. */
  ghost predicate Reachable(sys: System) {
    exists r, steps :: Run(r, steps) && r[|r| - 1] == sys
  }

  lemma ReachableNew(q: Queue, eng: EngineConfig, now: int)
    ensures Reachable(System(NewQueueState(ApplyQueueDefaults(q), eng, now), []))
  {
    var sys := System(NewQueueState(ApplyQueueDefaults(q), eng, now), []);
    assert Run([sys], []);
    assert [sys][|[sys]| - 1] == sys;
  }

  lemma PathExtends(r: seq<System>, steps: seq<Step>, step: Step)
    requires Path(r, steps) && WellFormed(r[|r| - 1].st) && Enabled(r[|r| - 1].st, step)
    ensures Path(r + [Next(r[|r| - 1], step)], steps + [step])
  {
    var r', steps' := r + [Next(r[|r| - 1], step)], steps + [step];
    forall k | 0 <= k < |steps'| ensures StepAt(r', steps', k) {
      if k < |steps| {
        assert StepAt(r, steps, k);
      }
    }
  }

  lemma ReachableNext(sys: System, step: Step)
    requires Reachable(sys) && WellFormed(sys.st) && Enabled(sys.st, step)
    ensures Reachable(Next(sys, step))
  {
    var r, steps :| Run(r, steps) && r[|r| - 1] == sys;
    PathExtends(r, steps, step);
    var r', steps' := r + [Next(sys, step)], steps + [step];
    assert Run(r', steps') && r'[|r'| - 1] == Next(sys, step);
  }

  lemma ReachableWellFormed(sys: System)
    requires Reachable(sys)
    ensures WellFormed(sys.st)
  {
    var r, steps :| Run(r, steps) && r[|r| - 1] == sys;
    PathWellFormed(r, steps, |r| - 1);
  }

  // ---- counting in the log ----

  datatype Kind = WasCreated | WasRun | WasStarted | WasApplied | HadResponse | HadNon5xx | WasRemoved

  predicate Matches(e: Event, h: nat, k: Kind) {
    match k
    case WasCreated => e.Created? && e.h == h
    case WasRun => e.RunRequested? && e.h == h
    case WasStarted => e.Started? && e.h == h
    case WasApplied => e.Applied? && e.h == h
    case HadResponse => e.Applied? && e.h == h && e.httpCode != 0
    case HadNon5xx => e.Applied? && e.h == h && e.httpCode != 0 && e.httpCode < 500
    case WasRemoved => (e.Removed? && e.h == h) || ((e.Purged? || e.Stopped?) && h in e.hs)
  }

  /** How many events of a kind the log holds for a task. */
  function Count(log: seq<Event>, h: nat, k: Kind): nat {
    if log == [] then 0
    else Count(log[..|log| - 1], h, k) + if Matches(log[|log| - 1], h, k) then 1 else 0
  }

  lemma CountAppend1(log: seq<Event>, e: Event, h: nat, k: Kind)
    ensures Count(log + [e], h, k) == Count(log, h, k) + if Matches(e, h, k) then 1 else 0
  {
    assert (log + [e])[..|log|] == log;
  }
}
