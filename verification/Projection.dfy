/** Every step of the queue is, for each of its tasks, one action of the task's own life. */
module Projection {
  import opened Wrappers
  import opened Types
  import opened Lifecycle
  import opened History
  import opened Registry
  import opened Ownership
  import opened Life
  import Dispatch

  ghost predicate Sound(s: QState) {
    && WellFormed(s)
    && Registered(s.arena, s.tasks)
    && Owned(s.arena, s.conts, s.nextId)
    && Usable(s.limits)
  }

  /** The pieces of a life that a queue state holds: everything but its history. */
  ghost predicate Shows(s: QState, l: Life) {
    && l.h < |s.arena|
    && l.t == s.arena[l.h]
    && l.mine == Mine(s.conts, l.h)
    && l.ttl == if l.h in s.ttls then Some(s.ttls[l.h]) else None
  }

  // ---- the pieces ----

  lemma StoppableShows(s: QState, l: Life)
    requires Shows(s, l) && Owned(s.arena, s.conts, s.nextId)
    ensures Stoppable(l) == StoppableTimer(s, l.h)
  {
    assert OwnTimer(s.arena[l.h].timer, l.h, s.conts, s.nextId);
  }

  lemma ScheduleShows(s: QState, h: nat, l: Life)
    requires Shows(s, l) && h < |s.arena| && Owned(s.arena, s.conts, s.nextId)
    ensures Shows(Schedule(s, h), if h == l.h then ScheduleLife(l, EnvOf(s)) else l)
  {
    MineUpdate(s.conts, s.nextId, Cont(h, Armed(Max(s.now, s.arena[h].scheduleTime))), l.h);
  }

  lemma FinishShows(s: QState, i: nat, l: Life)
    requires Shows(s, l) && i in s.conts
    ensures Shows(Finish(s, i), if s.conts[i].task == l.h then FinishLife(l, i) else l)
  {
    match Slot(s.conts[i].phase)
    case Some(g) => MineUpdate(s.conts, i, s.conts[i].(phase := Returning(g)), l.h);
    case None =>
      MineRemove(s.conts, {i}, l.h);
      if s.conts[i].task != l.h { MineRemoveOther(s.conts, {i}, l.h); }
  }

  lemma StopMine(s: QState, h: nat, l: Life)
    requires Shows(s, l) && h < |s.arena| && Owned(s.arena, s.conts, s.nextId)
    ensures Mine(s.conts - StoppableTimer(s, h), l.h) == if h == l.h then l.mine - Stoppable(l) else l.mine
  {
    MineRemove(s.conts, StoppableTimer(s, h), l.h);
    if h == l.h {
      StoppableShows(s, l);
    } else {
      assert OwnTimer(s.arena[h].timer, h, s.conts, s.nextId);
      MineRemoveOther(s.conts, StoppableTimer(s, h), l.h);
    }
  }

  lemma RemoveShows(s: QState, h: nat, l: Life, e: Env, reason: Reason)
    requires Shows(s, l) && h < |s.arena| && Owned(s.arena, s.conts, s.nextId)
    ensures Shows(RemoveLocked(s, h), if h == l.h then RemoveLife(l, e, reason) else l)
  {
    StopMine(s, h, l);
  }

  /** Sweeping the queue cancels a timer of a task only if the task is live and the timer its own. */
  lemma SweptTimers(s: QState, h: nat, i: nat)
    requires Sound(s) && h < |s.arena| && i in s.conts && s.conts[i].task == h
    ensures i in StoppableTimers(s) <==> !s.arena[h].removed && i in StoppableTimer(s, h)
  {
    if i in StoppableTimers(s) {
      var n :| n in s.tasks && i in StoppableTimer(s, s.tasks[n]);
      assert OwnTimer(s.arena[s.tasks[n]].timer, s.tasks[n], s.conts, s.nextId);
    }
    if !s.arena[h].removed {
      assert s.tasks[s.arena[h].name] == h;
    }
  }

  lemma DetachMine(s: QState, l: Life)
    requires Sound(s) && Shows(s, l)
    ensures Mine(s.conts - StoppableTimers(s), l.h) == if l.t.removed then l.mine else l.mine - Stoppable(l)
  {
    MineRemove(s.conts, StoppableTimers(s), l.h);
    StoppableShows(s, l);
    forall i | i in l.mine ensures i in StoppableTimers(s) <==> !l.t.removed && i in Stoppable(l) {
      SweptTimers(s, l.h, i);
    }
    if l.t.removed {
      assert l.mine - StoppableTimers(s) == l.mine;
    } else {
      assert l.mine - StoppableTimers(s) == l.mine - Stoppable(l);
    }
  }

  lemma DetachTtl(s: QState, h: nat)
    requires Sound(s) && h < |s.arena|
    ensures h in StoppableTtls(s) <==> !s.arena[h].removed && StoppableTtl(s, h) != {}
  {
    if !s.arena[h].removed {
      assert s.tasks[s.arena[h].name] == h;
    }
  }

  lemma DetachShows(s: QState, l: Life)
    requires Sound(s) && Shows(s, l)
    ensures Shows(DetachAll(s), if s.arena[l.h].removed then l else DetachLife(l))
  {
    DetachRegistered(s);
    DetachMine(s, l);
    DetachTtl(s, l.h);
  }

  // ---- the steps ----

  lemma MoveShows(s: QState, l: Life, step: Step)
    requires Sound(s) && Shows(s, l) && Enabled(s, step)
    requires step.TimerStep? || step.LimiterStep? || step.TakeStep? || step.ReturnStep?
    ensures Allowed(l, EnvOf(s), ActionOf(s, step, l.h))
    ensures Shows(NextState(s, step), Act(l, EnvOf(s), ActionOf(s, step, l.h)))
  {
    var i := step.i;
    var conts' := NextState(s, step).conts;
    if i in conts' {
      MineUpdate(s.conts, i, conts'[i], l.h);
    }
    MineRemove(s.conts, {i}, l.h);
    if s.conts[i].task != l.h {
      MineRemoveOther(s.conts, {i}, l.h);
    }
  }

  lemma GateMine(s: QState, l: Life, i: nat)
    requires Shows(s, l) && i in s.conts && Owned(s.arena, s.conts, s.nextId) && |s.limits| >= 1
    ensures
      var h := s.conts[i].task;
      && Mine(s.conts - {i}, l.h) == (if h == l.h then l.mine - {i} else l.mine)
      && Mine(s.conts[i := Cont(h, AtLimiter(|s.limits| - 1))], l.h) ==
         (if h == l.h then l.mine[i := AtLimiter(|s.limits| - 1)] else l.mine)
      && Mine((s.conts - {i})[s.nextId := Cont(h, Armed(s.now + PAUSE_POLL_INTERVAL))], l.h) ==
         (if h == l.h then (l.mine - {i})[s.nextId := Armed(s.now + PAUSE_POLL_INTERVAL)] else l.mine)
  {
    var h := s.conts[i].task;
    MineRemove(s.conts, {i}, l.h);
    MineUpdate(s.conts, i, Cont(h, AtLimiter(|s.limits| - 1)), l.h);
    MineUpdate(s.conts - {i}, s.nextId, Cont(h, Armed(s.now + PAUSE_POLL_INTERVAL)), l.h);
    if h != l.h {
      MineRemoveOther(s.conts, {i}, l.h);
    }
  }

  lemma GateDropped(s: QState, l: Life, i: nat)
    requires Sound(s) && Shows(s, l) && i in s.conts && s.conts[i].phase.Fired? && s.arena[s.conts[i].task].removed
    ensures Shows(FireLocked(s, i), if s.conts[i].task == l.h then Act(l, EnvOf(s), Gate(i, |s.limits| - 1)) else l)
  {
    GateMine(s, l, i);
    assert FireLocked(s, i) == s.(conts := s.conts - {i});
  }

  lemma GateHeld(s: QState, l: Life, i: nat)
    requires Sound(s) && Shows(s, l) && i in s.conts && s.conts[i].phase.Fired?
    requires !s.arena[s.conts[i].task].removed && s.q.state != Running
    ensures Shows(FireLocked(s, i), if s.conts[i].task == l.h then Act(l, EnvOf(s), Gate(i, |s.limits| - 1)) else l)
  {
    GateMine(s, l, i);
    assert FireLocked(s, i) == Arm(s.(conts := s.conts - {i}), s.conts[i].task, s.now + PAUSE_POLL_INTERVAL);
  }

  lemma GateOpen(s: QState, l: Life, i: nat)
    requires Sound(s) && Shows(s, l) && i in s.conts && s.conts[i].phase.Fired?
    requires !s.arena[s.conts[i].task].removed && s.q.state == Running
    ensures Shows(FireLocked(s, i), if s.conts[i].task == l.h then Act(l, EnvOf(s), Gate(i, |s.limits| - 1)) else l)
  {
    GateMine(s, l, i);
    assert FireLocked(s, i) == s.(conts := s.conts[i := Cont(s.conts[i].task, AtLimiter(|s.limits| - 1))]);
  }

  lemma GateShows(s: QState, l: Life, i: nat)
    requires Sound(s) && Shows(s, l) && i in s.conts && s.conts[i].phase.Fired?
    ensures Shows(FireLocked(s, i), if s.conts[i].task == l.h then Act(l, EnvOf(s), Gate(i, |s.limits| - 1)) else l)
  {
    if s.arena[s.conts[i].task].removed {
      GateDropped(s, l, i);
    } else if s.q.state != Running {
      GateHeld(s, l, i);
    } else {
      GateOpen(s, l, i);
    }
  }

  lemma BeginShows(s: QState, l: Life, i: nat)
    requires Sound(s) && Shows(s, l) && i in s.conts && (s.conts[i].phase.Admitted? || s.conts[i].phase.Entered?)
    ensures Shows(SnapshotAttempt(s, i), if s.conts[i].task == l.h then Act(l, EnvOf(s), Begin(i)) else l)
  {
    FinishShows(s, i, l);
    MineUpdate(s.conts, i, s.conts[i].(phase := InFlight(Slot(s.conts[i].phase), s.now)), l.h);
  }

  /** Storing a new state of the task a life shows, or of another task. */
  lemma StoreShows(s: QState, l: Life, h: nat, t: TaskState, log: seq<Event>)
    requires Shows(s, l) && h < |s.arena|
    ensures Shows(s.(arena := s.arena[h := t]), if h == l.h then l.(t := t, log := log) else l)
  {
  }

  lemma RescheduleShows(s: QState, l: Life, i: nat, t: TaskState, o: Dispatch.Outcome, delay: int)
    requires WellFormed(s) && Owned(s.arena, s.conts, s.nextId) && Shows(s, l) && i in s.conts
    requires t.timer == s.arena[s.conts[i].task].timer
    ensures Shows(Reschedule(s, i, t, delay),
                  if s.conts[i].task == l.h then SettleLife(l, EnvOf(s), i, t, o, Retry(delay)) else l)
  {
    var h := s.conts[i].task;
    var t' := t.(scheduleTime := s.now + delay);
    var stored := s.(arena := s.arena[h := t']);
    var log' := l.log + [AppliedEvent(l, EnvOf(s), t, o, Retry(delay))];
    OwnedStore(s.arena, s.conts, s.nextId, h, t');
    StoreShows(s, l, h, t', log');
    OwnedFinish(stored, i);
    assert EnvOf(Finish(stored, i)) == EnvOf(s);
    assert Reschedule(s, i, t, delay) == Schedule(Finish(stored, i), h);
    if h == l.h {
      var l' := l.(t := t', log := log');
      FinishShows(stored, i, l');
      ScheduleShows(Finish(stored, i), h, FinishLife(l', i));
      assert SettleLife(l, EnvOf(s), i, t, o, Retry(delay)) == ScheduleLife(FinishLife(l', i), EnvOf(s));
    } else {
      FinishShows(stored, i, l);
      ScheduleShows(Finish(stored, i), h, l);
    }
  }

  lemma DiscardShows(s: QState, l: Life, i: nat, t: TaskState, o: Dispatch.Outcome, v: Verdict)
    requires WellFormed(s) && Owned(s.arena, s.conts, s.nextId) && Shows(s, l) && i in s.conts && !v.Retry?
    requires t.timer == s.arena[s.conts[i].task].timer
    ensures Shows(Discard(s, i, t), if s.conts[i].task == l.h then SettleLife(l, EnvOf(s), i, t, o, v) else l)
  {
    var h := s.conts[i].task;
    var stored := s.(arena := s.arena[h := t]);
    var l' := if h == l.h then l.(t := t, log := l.log + [AppliedEvent(l, EnvOf(s), t, o, v)]) else l;
    OwnedStore(s.arena, s.conts, s.nextId, h, t);
    FinishShows(stored, i, l');
    OwnedFinish(stored, i);
    RemoveShows(Finish(stored, i), h, if h == l.h then FinishLife(l', i) else l', EnvOf(s),
                if v.Complete? then Completed else Exhausted);
  }

  lemma SettleShows(s: QState, l: Life, i: nat, o: Dispatch.Outcome, dispatchTime: int)
    requires Sound(s) && Shows(s, l) && i in s.conts
    requires s.conts[i].phase.InFlight? && s.conts[i].phase.began <= dispatchTime <= s.now
    ensures Shows(ApplyAttempt(s, i, o, dispatchTime),
                  if s.conts[i].task == l.h then Act(l, EnvOf(s), Settle(i, o, dispatchTime)) else l)
  {
    var h := s.conts[i].task;
    if s.arena[h].removed {
      FinishShows(s, i, l);
    } else {
      var t := Record(s.arena[h], o, dispatchTime);
      var v := Judge(s.q.retryConfig, s.now, t, o);
      if v.Retry? {
        RescheduleShows(s, l, i, t, o, v.delay);
      } else {
        DiscardShows(s, l, i, t, o, v);
      }
    }
  }

  lemma ForceShows(s: QState, l: Life, name: string)
    requires Sound(s) && Shows(s, l)
    ensures Allowed(l, EnvOf(s), ActionOf(s, RunStep(name), l.h))
    ensures Shows(RunTask(s, name), Act(l, EnvOf(s), ActionOf(s, RunStep(name), l.h)))
  {
    if Runnable(s, name) {
      var h := s.tasks[name];
      StopMine(s, h, l);
      MineUpdate(s.conts - StoppableTimer(s, h), s.nextId, Cont(h, Entered), l.h);
    }
  }

  lemma ExpireShows(s: QState, l: Life, h: nat)
    requires Sound(s) && Shows(s, l) && Enabled(s, ExpireStep(h))
    ensures Allowed(l, EnvOf(s), ActionOf(s, ExpireStep(h), l.h))
    ensures Shows(Expire(s, h), Act(l, EnvOf(s), ActionOf(s, ExpireStep(h), l.h)))
  {
    var s' := s.(ttls := s.ttls - {h});
    var l' := if h == l.h then l.(ttl := None) else l;
    assert Shows(s', l');
    if !s.arena[h].removed {
      RemoveShows(s', h, l', EnvOf(s), Expired);
    }
  }

  lemma CreateShows(s: QState, l: Life, t: NewTask)
    requires Sound(s) && Shows(s, l)
    ensures Shows(CreateTask(s, t), l)
  {
    if !NameTaken(s, t.name) {
      var s' := Appended(s, FreshTask(t));
      assert Shows(s', l);
      OwnedAppend(s.arena, s.conts, s.nextId, FreshTask(t));
      ScheduleShows(s', |s.arena|, l);
    }
  }

  lemma DropShows(s: QState, l: Life, name: string)
    requires Sound(s) && Shows(s, l)
    ensures Allowed(l, EnvOf(s), ActionOf(s, DeleteStep(name), l.h))
    ensures Shows(DeleteTask(s, name), Act(l, EnvOf(s), ActionOf(s, DeleteStep(name), l.h)))
  {
    if name in s.tasks {
      RemoveShows(s, s.tasks[name], l, EnvOf(s), Deleted);
    }
  }

  lemma SweepShows(s: QState, l: Life, step: Step)
    requires Sound(s) && Shows(s, l) && Enabled(s, step) && (step.PurgeStep? || step.StopStep?)
    ensures Allowed(l, EnvOf(s), ActionOf(s, step, l.h))
    ensures Shows(NextState(s, step), Act(l, EnvOf(s), ActionOf(s, step, l.h)))
  {
    DetachShows(s, l);
    if !s.arena[l.h].removed {
      assert s.tasks[s.arena[l.h].name] == l.h;
    }
  }

  lemma DeliveryShows(s: QState, l: Life, step: Step)
    requires Sound(s) && Shows(s, l) && Enabled(s, step)
    requires step.FireStep? || step.SnapshotStep? || step.ApplyStep?
    ensures Allowed(l, EnvOf(s), ActionOf(s, step, l.h))
    ensures Shows(NextState(s, step), Act(l, EnvOf(s), ActionOf(s, step, l.h)))
  {
    match step
    case FireStep(i) => GateShows(s, l, i);
    case SnapshotStep(i) => BeginShows(s, l, i);
    case ApplyStep(i, o, dispatchTime) => SettleShows(s, l, i, o, dispatchTime);
  }

  lemma ShowsFrame(s: QState, s': QState, l: Life)
    requires Shows(s, l) && s'.arena == s.arena && s'.conts == s.conts && s'.ttls == s.ttls
    ensures Shows(s', l)
  {
  }

  lemma SettingOnly(s: QState, step: Step)
    requires WellFormed(s) && Enabled(s, step)
    requires step.Tick? || step.CleanupStep? || step.UpdateStep? || step.SetStateStep?
    ensures
      var s' := NextState(s, step);
      s'.arena == s.arena && s'.conts == s.conts && s'.ttls == s.ttls
  {
  }

  /** Steps that touch neither tasks nor continuations nor TTL timers. */
  lemma SettingShows(s: QState, l: Life, step: Step)
    requires Sound(s) && Shows(s, l) && Enabled(s, step)
    requires step.Tick? || step.CleanupStep? || step.UpdateStep? || step.SetStateStep?
    ensures Allowed(l, EnvOf(s), ActionOf(s, step, l.h))
    ensures Shows(NextState(s, step), Act(l, EnvOf(s), ActionOf(s, step, l.h)))
  {
    SettingOnly(s, step);
    ShowsFrame(s, NextState(s, step), l);
  }

  lemma TtlShows(s: QState, l: Life, h: nat)
    requires Sound(s) && Shows(s, l) && Enabled(s, TtlStep(h))
    ensures Allowed(l, EnvOf(s), ActionOf(s, TtlStep(h), l.h))
    ensures Shows(TtlFires(s, h), Act(l, EnvOf(s), ActionOf(s, TtlStep(h), l.h)))
  {
  }

  /** A step of the queue is one allowed action of the life it shows. */
  lemma StepShows(s: QState, l: Life, step: Step)
    requires Sound(s) && Shows(s, l) && Enabled(s, step)
    ensures Allowed(l, EnvOf(s), ActionOf(s, step, l.h))
    ensures Shows(NextState(s, step), Act(l, EnvOf(s), ActionOf(s, step, l.h)))
  {
    match step
    case TimerStep(_) => MoveShows(s, l, step);
    case LimiterStep(_) => MoveShows(s, l, step);
    case TakeStep(_) => MoveShows(s, l, step);
    case ReturnStep(_) => MoveShows(s, l, step);
    case FireStep(_) => DeliveryShows(s, l, step);
    case SnapshotStep(_) => DeliveryShows(s, l, step);
    case ApplyStep(_, _, _) => DeliveryShows(s, l, step);
    case RunStep(name) => ForceShows(s, l, name);
    case ExpireStep(h) => ExpireShows(s, l, h);
    case DeleteStep(name) => DropShows(s, l, name);
    case PurgeStep => SweepShows(s, l, step);
    case StopStep => SweepShows(s, l, step);
    case TtlStep(h) => TtlShows(s, l, h);
    case CreateStep(t) => CreateShows(s, l, t);
    case _ => SettingShows(s, l, step);
  }
}
