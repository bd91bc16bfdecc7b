/**
 Timer ownership and usable limits: a task's timer field never names another task's
 continuation, so stopping it cannot cancel anybody else's delivery, and every limiter and
 semaphore ever built can admit at least one delivery.
 */
module Ownership {
  import opened Wrappers
  import opened Types
  import opened Lifecycle
  import opened History
  import Dispatch

  /** Identifiers in use are below nextId, and a task's timer is its own continuation. */
  ghost predicate Owned(arena: seq<TaskState>, conts: map<nat, Cont>, nextId: nat) {
    && (forall i | i in conts :: i < nextId)
    && (forall h | 0 <= h < |arena| :: OwnTimer(arena[h].timer, h, conts, nextId))
  }

  predicate OwnTimer(timer: Option<nat>, h: nat, conts: map<nat, Cont>, nextId: nat) {
    timer.Some? ==> timer.value < nextId && (timer.value in conts ==> conts[timer.value].task == h)
  }

  /** Every limiter can admit one event and every semaphore has a token. */
  ghost predicate Usable(limits: seq<Limits>) {
    forall g | 0 <= g < |limits| :: limits[g].burst >= 1 && limits[g].capacity >= 1
  }

  // ---- preservation by the pieces of a step ----

  /** Storing a task with an unchanged timer. */
  lemma OwnedStore(arena: seq<TaskState>, conts: map<nat, Cont>, nextId: nat, h: nat, t: TaskState)
    requires Owned(arena, conts, nextId) && h < |arena| && t.timer == arena[h].timer
    ensures Owned(arena[h := t], conts, nextId)
  {
  }

  lemma OwnedAppend(arena: seq<TaskState>, conts: map<nat, Cont>, nextId: nat, t: TaskState)
    requires Owned(arena, conts, nextId) && t.timer.None?
    ensures Owned(arena + [t], conts, nextId)
  {
  }

  /** Moving a continuation of the same task to another phase. */
  lemma OwnedMove(arena: seq<TaskState>, conts: map<nat, Cont>, nextId: nat, i: nat, c: Cont)
    requires Owned(arena, conts, nextId) && i in conts && c.task == conts[i].task
    ensures Owned(arena, conts[i := c], nextId)
  {
  }

  lemma OwnedDrop(arena: seq<TaskState>, conts: map<nat, Cont>, nextId: nat, gone: set<nat>)
    requires Owned(arena, conts, nextId)
    ensures Owned(arena, conts - gone, nextId)
  {
  }

  /** A continuation under a fresh identifier, which may become the task's timer. */
  lemma OwnedNew(arena: seq<TaskState>, conts: map<nat, Cont>, nextId: nat, h: nat, t: TaskState, c: Cont)
    requires Owned(arena, conts, nextId) && h < |arena| && c.task == h
    requires t.timer == Some(nextId) || t.timer == arena[h].timer
    ensures Owned(arena[h := t], conts[nextId := c], nextId + 1)
  {
  }

  lemma OwnedSchedule(s: QState, h: nat)
    requires h < |s.arena| && Owned(s.arena, s.conts, s.nextId)
    ensures var s' := Schedule(s, h); Owned(s'.arena, s'.conts, s'.nextId)
  {
    OwnedNew(s.arena, s.conts, s.nextId, h, s.arena[h].(timer := Some(s.nextId)),
             Cont(h, Armed(Max(s.now, s.arena[h].scheduleTime))));
  }

  lemma OwnedFinish(s: QState, i: nat)
    requires i in s.conts && Owned(s.arena, s.conts, s.nextId)
    ensures var s' := Finish(s, i); Owned(s'.arena, s'.conts, s'.nextId)
  {
    match Slot(s.conts[i].phase)
    case Some(g) => OwnedMove(s.arena, s.conts, s.nextId, i, s.conts[i].(phase := Returning(g)));
    case None => OwnedDrop(s.arena, s.conts, s.nextId, {i});
  }

  lemma OwnedRemove(s: QState, h: nat)
    requires h < |s.arena| && Owned(s.arena, s.conts, s.nextId)
    ensures var s' := RemoveLocked(s, h); Owned(s'.arena, s'.conts, s'.nextId)
  {
    OwnedStore(s.arena, s.conts, s.nextId, h, s.arena[h].(removed := true));
    OwnedDrop(s.arena[h := s.arena[h].(removed := true)], s.conts, s.nextId, StoppableTimer(s, h));
  }

  lemma OwnedDetach(s: QState)
    requires WellFormed(s) && Owned(s.arena, s.conts, s.nextId)
    ensures var s' := DetachAll(s); Owned(s'.arena, s'.conts, s'.nextId)
  {
    var arena' := DetachAll(s).arena;
    assert Owned(arena', s.conts, s.nextId);
    OwnedDrop(arena', s.conts, s.nextId, StoppableTimers(s));
  }

  lemma OwnedReschedule(s: QState, i: nat, t: TaskState, delay: int)
    requires WellFormed(s) && i in s.conts && Owned(s.arena, s.conts, s.nextId)
    requires t.timer == s.arena[s.conts[i].task].timer
    ensures var s' := Reschedule(s, i, t, delay); Owned(s'.arena, s'.conts, s'.nextId)
  {
    var h := s.conts[i].task;
    var stored := s.(arena := s.arena[h := t.(scheduleTime := s.now + delay)]);
    OwnedStore(s.arena, s.conts, s.nextId, h, t.(scheduleTime := s.now + delay));
    OwnedFinish(stored, i);
    OwnedSchedule(Finish(stored, i), h);
  }

  lemma OwnedDiscard(s: QState, i: nat, t: TaskState)
    requires WellFormed(s) && i in s.conts && Owned(s.arena, s.conts, s.nextId)
    requires t.timer == s.arena[s.conts[i].task].timer
    ensures var s' := Discard(s, i, t); Owned(s'.arena, s'.conts, s'.nextId)
  {
    var h := s.conts[i].task;
    var stored := s.(arena := s.arena[h := t]);
    OwnedStore(s.arena, s.conts, s.nextId, h, t);
    OwnedFinish(stored, i);
    OwnedRemove(Finish(stored, i), h);
  }

  // ---- preservation by the steps ----

  lemma OwnedFire(s: QState, i: nat)
    requires WellFormed(s) && i in s.conts && Owned(s.arena, s.conts, s.nextId)
    ensures var s' := FireLocked(s, i); Owned(s'.arena, s'.conts, s'.nextId)
  {
    var h := s.conts[i].task;
    OwnedDrop(s.arena, s.conts, s.nextId, {i});
    OwnedMove(s.arena, s.conts, s.nextId, i, Cont(h, AtLimiter(|s.limits| - 1)));
    OwnedNew(s.arena, s.conts - {i}, s.nextId, h, s.arena[h].(timer := Some(s.nextId)),
             Cont(h, Armed(s.now + PAUSE_POLL_INTERVAL)));
  }

  lemma OwnedSnapshot(s: QState, i: nat)
    requires WellFormed(s) && i in s.conts && Owned(s.arena, s.conts, s.nextId)
    ensures var s' := SnapshotAttempt(s, i); Owned(s'.arena, s'.conts, s'.nextId)
  {
    OwnedFinish(s, i);
    OwnedMove(s.arena, s.conts, s.nextId, i, s.conts[i].(phase := InFlight(Slot(s.conts[i].phase), s.now)));
  }

  lemma OwnedApply(s: QState, i: nat, o: Dispatch.Outcome, dispatchTime: int)
    requires WellFormed(s) && i in s.conts && Owned(s.arena, s.conts, s.nextId)
    ensures var s' := ApplyAttempt(s, i, o, dispatchTime); Owned(s'.arena, s'.conts, s'.nextId)
  {
    if s.arena[s.conts[i].task].removed {
      OwnedFinish(s, i);
    } else {
      var t := Record(s.arena[s.conts[i].task], o, dispatchTime);
      match Judge(s.q.retryConfig, s.now, t, o) {
        case Retry(delay) => OwnedReschedule(s, i, t, delay);
        case _ => OwnedDiscard(s, i, t);
      }
    }
  }

  lemma OwnedRun(s: QState, name: string)
    requires WellFormed(s) && Owned(s.arena, s.conts, s.nextId)
    ensures var s' := RunTask(s, name); Owned(s'.arena, s'.conts, s'.nextId)
  {
    if Runnable(s, name) {
      var h := s.tasks[name];
      OwnedDrop(s.arena, s.conts, s.nextId, StoppableTimer(s, h));
      OwnedNew(s.arena, s.conts - StoppableTimer(s, h), s.nextId, h, s.arena[h].(scheduleTime := s.now), Cont(h, Entered));
    }
  }

  lemma OwnedCreate(s: QState, t: NewTask)
    requires WellFormed(s) && Owned(s.arena, s.conts, s.nextId)
    ensures var s' := CreateTask(s, t); Owned(s'.arena, s'.conts, s'.nextId)
  {
    if !NameTaken(s, t.name) {
      OwnedAppend(s.arena, s.conts, s.nextId, FreshTask(t));
      OwnedSchedule(Appended(s, FreshTask(t)), |s.arena|);
    }
  }

  lemma OwnedLimits(s: QState, step: Step)
    requires WellFormed(s) && Enabled(s, step) && Owned(s.arena, s.conts, s.nextId)
    requires step.TimerStep? || step.LimiterStep? || step.TakeStep? || step.ReturnStep?
    ensures var s' := NextState(s, step); Owned(s'.arena, s'.conts, s'.nextId)
  {
    var i := step.i;
    var c := NextState(s, step).conts;
    if i in c {
      OwnedMove(s.arena, s.conts, s.nextId, i, c[i]);
    }
    OwnedDrop(s.arena, s.conts, s.nextId, {i});
  }

  lemma OwnedStep(s: QState, step: Step)
    requires WellFormed(s) && Enabled(s, step) && Owned(s.arena, s.conts, s.nextId)
    ensures var s' := NextState(s, step); Owned(s'.arena, s'.conts, s'.nextId)
  {
    match step
    case TimerStep(_) => OwnedLimits(s, step);
    case LimiterStep(_) => OwnedLimits(s, step);
    case TakeStep(_) => OwnedLimits(s, step);
    case ReturnStep(_) => OwnedLimits(s, step);
    case FireStep(i) => OwnedFire(s, i);
    case SnapshotStep(i) => OwnedSnapshot(s, i);
    case ApplyStep(i, o, dispatchTime) => OwnedApply(s, i, o, dispatchTime);
    case CreateStep(t) => OwnedCreate(s, t);
    case DeleteStep(name) => if name in s.tasks { OwnedRemove(s, s.tasks[name]); }
    case RunStep(name) => OwnedRun(s, name);
    case ExpireStep(h) => if !s.arena[h].removed { OwnedRemove(s.(ttls := s.ttls - {h}), h); }
    case PurgeStep => OwnedDetach(s);
    case StopStep => OwnedDetach(s);
    case _ =>
  }

  lemma UsableStep(s: QState, step: Step)
    requires WellFormed(s) && Enabled(s, step) && Usable(s.limits)
    ensures Usable(NextState(s, step).limits)
  {
  }
}
