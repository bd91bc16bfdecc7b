/**
 When dispatch timers go off: exactly at the schedule time, or at once when that has passed, and
 for a retry exactly at the end of its backoff; a task held by a closed gate is polled every
 second; and timers that are no longer wanted are stopped.
 */
module Timers {
  import opened Wrappers
  import opened Types
  import opened Lifecycle
  import opened History
  import opened Life
  import opened Projection
  import opened Lives
  import opened Tracking
  import opened Timing
  import opened Guarantees
  import opened Spacing
  import opened FixedWidth
  import Dispatch
  import RetryPolicy

  /** When the task was created or last had a result recorded. */
  function LastAt(log: seq<Event>): int {
    if log == [] then 0
    else if log[|log| - 1].Created? || log[|log| - 1].Applied? then log[|log| - 1].at
    else LastAt(log[..|log| - 1])
  }

  /** The last recorded result. */
  function LastResult(log: seq<Event>): Option<Event> {
    if log == [] then None
    else if log[|log| - 1].Applied? then Some(log[|log| - 1])
    else LastResult(log[..|log| - 1])
  }

  lemma LastAppend(log: seq<Event>, e: Event)
    ensures LastAt(log + [e]) == if e.Created? || e.Applied? then e.at else LastAt(log)
    ensures LastResult(log + [e]) == if e.Applied? then Some(e) else LastResult(log)
  {
    assert (log + [e])[..|log|] == log;
  }

  /** A timer set for the schedule time, or at once if that had passed by then. */
  predicate OnTime(l: Life, due: int) {
    due == if l.t.scheduleTime > LastAt(l.log) then l.t.scheduleTime else LastAt(l.log)
  }

  // ---- one task ----

  /** Of a task that was never run by RunTask, an armed timer is the only thing pending. */
  lemma ArmedAlone(l: Life, pullQueue: bool, i: nat, j: nat)
    requires Tracked(l, pullQueue) && Runs(l) == 0
    requires i in Pending(l.mine) && j in Pending(l.mine)
    ensures i == j
  {
    if i != j {
      SubsetSize({i, j}, Pending(l.mine));
    }
  }

  /** What the verdict of a result makes of the schedule. */
  lemma SettledSchedule(l: Life, e: Env, i: nat, t: TaskState, o: Dispatch.Outcome, v: Verdict)
    requires i in l.mine && e.nextId !in l.mine && !t.removed
    ensures
      var l' := SettleLife(l, e, i, t, o, v);
      && LastAt(l'.log) == e.now && LastResult(l'.log) == Some(AppliedEvent(l, e, t, o, v))
      && (v.Retry? ==> l'.t.scheduleTime == e.now + v.delay && !l'.t.removed)
      && (!v.Retry? ==> l'.t.removed)
  {
    var ev := AppliedEvent(l, e, t, o, v);
    LastAppend(l.log, ev);
    if !v.Retry? {
      var reason := if v.Complete? then Completed else Exhausted;
      LastAppend(l.log + [ev], Removed(l.h, t.name, reason, EffectiveTombstoneTTL(e.q, e.eng), e.now));
    }
  }

  lemma SettledTimer(l: Life, e: Env, i: nat, t: TaskState, o: Dispatch.Outcome, v: Verdict, j: nat)
    requires i in l.mine && l.mine[i].InFlight? && e.nextId !in l.mine && !t.removed && v.Retry?
    requires j in SettleLife(l, e, i, t, o, v).mine && SettleLife(l, e, i, t, o, v).mine[j].Armed?
    ensures (j in l.mine && l.mine[j].Armed?)
            || (j == e.nextId && SettleLife(l, e, i, t, o, v).mine[j].due == (if v.delay > 0 then e.now + v.delay else e.now)
                && SettleLife(l, e, i, t, o, v).t.timer == Some(j))
  {
  }

  /** Where an armed timer comes from: it was there, a closed gate set it for a second later, or it is on time. */
  lemma ArmedAct(l: Life, e: Env, a: Action, i: nat)
    requires Tracked(l, e.q.pull) && Allowed(l, e, a) && e.nextId !in l.mine
    requires Runs(Act(l, e, a)) == 0 && !Act(l, e, a).t.removed
    requires i in Act(l, e, a).mine && Act(l, e, a).mine[i].Armed?
    ensures
      var l' := Act(l, e, a);
      || (i in l.mine && l'.mine[i] == l.mine[i] && l'.t.scheduleTime == l.t.scheduleTime && LastAt(l'.log) == LastAt(l.log))
      || (a.Gate? && e.q.state != Running && l'.mine[i].due == e.now + 1_000_000_000)
      || OnTime(l', l'.mine[i].due)
  {
    RunsGrow(l, e, a);
    if a.Settle? && !l.t.removed {
      var t := Record(l.t, a.o, a.dispatchTime);
      var v := Judge(e.q.retryConfig, e.now, t, a.o);
      SettledSchedule(l, e, a.i, t, a.o, v);
      SettledTimer(l, e, a.i, t, a.o, v, i);
      if i in l.mine && l.mine[i].Armed? {
        ArmedAlone(l, e.q.pull, i, a.i);
      }
    } else if !a.Settle? {
      ActLog(l, e, a);
      var own := OwnEvent(l, e, a);
      if own.Some? {
        LastAppend(l.log, own.value);
      }
    }
  }

  /** Nothing takes RunTask calls out of a history. */
  lemma RunsGrow(l: Life, e: Env, a: Action)
    requires Allowed(l, e, a)
    ensures Runs(l) <= Runs(Act(l, e, a))
    ensures a.Force? ==> Runs(Act(l, e, a)) > 0
  {
    if a.Settle? && !l.t.removed {
      var t := Record(l.t, a.o, a.dispatchTime);
      SettledRuns(l, e, a.i, t, a.o, Judge(e.q.retryConfig, e.now, t, a.o));
    } else if !a.Settle? {
      ActLog(l, e, a);
      var own := OwnEvent(l, e, a);
      if own.Some? {
        RunsKept(l.log, own.value, l.h);
      }
    }
  }

  lemma TwoMore(log: seq<Event>, e1: Event, e2: Event, h: nat)
    requires !e1.RunRequested? && !e2.RunRequested?
    ensures Count(log + [e1] + [e2], h, WasRun) == Count(log + [e1], h, WasRun) == Count(log, h, WasRun)
  {
    RunsKept(log, e1, h);
    RunsKept(log + [e1], e2, h);
  }

  lemma SettledRuns(l: Life, e: Env, i: nat, t: TaskState, o: Dispatch.Outcome, v: Verdict)
    requires i in l.mine
    ensures Runs(SettleLife(l, e, i, t, o, v)) == Runs(l)
  {
    SettleLifeLog(l, e, i, t, o, v);
    var reason := if v.Complete? then Completed else Exhausted;
    TwoMore(l.log, AppliedEvent(l, e, t, o, v),
            Removed(l.h, t.name, reason, EffectiveTombstoneTTL(e.q, e.eng), e.now), l.h);
    SettledHandle(l, e, i, t, o, v);
  }

  lemma SettledHandle(l: Life, e: Env, i: nat, t: TaskState, o: Dispatch.Outcome, v: Verdict)
    requires i in l.mine
    ensures SettleLife(l, e, i, t, o, v).h == l.h
  {
  }

  /** What a task is created with and what its schedule time is, as long as nobody runs it by RunTask. */
  ghost predicate Scheduled(l: Life, name: string, pull: bool, createTime: int, first: int) {
    && l.t.name == name && l.t.pull == pull && l.t.createTime == createTime
    && (Runs(l) == 0 && !l.t.removed ==>
          match LastResult(l.log)
          case None => l.t.scheduleTime == first
          case Some(e) => e.Applied? && e.verdict.Retry? && l.t.scheduleTime == e.at + e.verdict.delay)
  }

  lemma ScheduledAct(l: Life, e: Env, a: Action, name: string, pull: bool, createTime: int, first: int)
    requires Scheduled(l, name, pull, createTime, first) && Allowed(l, e, a) && e.nextId !in l.mine
    ensures Scheduled(Act(l, e, a), name, pull, createTime, first)
  {
    RunsGrow(l, e, a);
    if a.Settle? && !l.t.removed {
      var t := Record(l.t, a.o, a.dispatchTime);
      var v := Judge(e.q.retryConfig, e.now, t, a.o);
      SettledSchedule(l, e, a.i, t, a.o, v);
      SettledFields(l, e, a.i, t, a.o, v);
    } else if !a.Settle? {
      ActLog(l, e, a);
      var own := OwnEvent(l, e, a);
      if own.Some? {
        LastAppend(l.log, own.value);
      }
    }
  }

  lemma SettledFields(l: Life, e: Env, i: nat, t: TaskState, o: Dispatch.Outcome, v: Verdict)
    requires i in l.mine
    ensures
      var t' := SettleLife(l, e, i, t, o, v).t;
      t'.name == t.name && t'.pull == t.pull && t'.createTime == t.createTime
  {
  }

  lemma ScheduledBorn(h: nat, t: NewTask, e: Env)
    ensures Scheduled(Born(h, FreshTask(t), e), t.name, t.pull, t.createTime,
                      if t.scheduleTime.Some? then t.scheduleTime.value else t.createTime)
  {
    BornLog(h, FreshTask(t), e);
    LastAppend([], Created(h, t.name, e.now));
    assert [] + [Created(h, t.name, e.now)] == [Created(h, t.name, e.now)];
  }

  lemma BornTimer(h: nat, t: TaskState, e: Env, i: nat)
    requires i in Born(h, t, e).mine && Born(h, t, e).mine[i].Armed?
    ensures OnTime(Born(h, t, e), Born(h, t, e).mine[i].due) && Born(h, t, e).t.timer == Some(i) && !t.removed
    ensures Born(h, t, e).mine[i].due >= e.now
  {
    BornLog(h, t, e);
    LastAppend([], Created(h, t.name, e.now));
    assert [] + [Created(h, t.name, e.now)] == [Created(h, t.name, e.now)];
  }

  // ---- timers that are stopped ----

  /** A removed task has no TTL timer left and, if nobody ran it by RunTask, no dispatch timer. */
  ghost predicate Stopped(l: Life) {
    && (l.t.removed ==> l.ttl.None? || l.ttl.value.TtlFired?)
    && (Runs(l) == 0 ==> forall i | i in l.mine && l.mine[i].Armed? :: !l.t.removed && l.t.timer == Some(i))
  }

  lemma StoppedSettle(l: Life, e: Env, i: nat, t: TaskState, o: Dispatch.Outcome, v: Verdict)
    requires Stopped(l) && Tracked(l, e.q.pull) && i in l.mine && l.mine[i].InFlight? && e.nextId !in l.mine
    requires !l.t.removed && !t.removed && t.timer == l.t.timer
    ensures Stopped(SettleLife(l, e, i, t, o, v))
  {
    SettledRuns(l, e, i, t, o, v);
    var l' := SettleLife(l, e, i, t, o, v);
    if Runs(l) == 0 {
      forall j | j in l.mine && l.mine[j].Armed? ensures false {
        ArmedAlone(l, e.q.pull, i, j);
      }
      if v.Retry? {
        forall j | j in l'.mine && l'.mine[j].Armed? ensures !l'.t.removed && l'.t.timer == Some(j) {
          SettledTimer(l, e, i, t, o, v, j);
        }
      }
    }
  }

  lemma StoppedGate(l: Life, e: Env, i: nat, gen: nat)
    requires Stopped(l) && Tracked(l, e.q.pull) && Allowed(l, e, Gate(i, gen)) && e.nextId !in l.mine
    ensures Stopped(Act(l, e, Gate(i, gen)))
  {
    RunsGrow(l, e, Gate(i, gen));
    if !l.t.removed && e.q.state != Running && Runs(l) == 0 {
      forall j | j in l.mine && l.mine[j].Armed? ensures false {
        ArmedAlone(l, e.q.pull, i, j);
      }
    }
  }

  lemma StoppedMove(l: Life, e: Env, a: Action)
    requires Stopped(l) && Allowed(l, e, a) && (a.Ring? || a.Pass? || a.Take? || a.Begin? || a.GiveBack?)
    ensures Stopped(Act(l, e, a))
  {
    RunsGrow(l, e, a);
  }

  lemma StoppedAct(l: Life, e: Env, a: Action)
    requires Stopped(l) && Tracked(l, e.q.pull) && Allowed(l, e, a) && e.nextId !in l.mine
    ensures Stopped(Act(l, e, a))
  {
    if a.Settle? && !l.t.removed {
      var t := Record(l.t, a.o, a.dispatchTime);
      StoppedSettle(l, e, a.i, t, a.o, Judge(e.q.retryConfig, e.now, t, a.o));
    } else if a.Gate? {
      StoppedGate(l, e, a.i, a.gen);
    } else if a.Ring? || a.Pass? || a.Take? || a.Begin? || a.GiveBack? {
      StoppedMove(l, e, a);
    } else {
      RunsGrow(l, e, a);
    }
  }

  lemma StoppedBorn(h: nat, t: TaskState, e: Env)
    requires !t.removed
    ensures Stopped(Born(h, t, e))
  {
  }

  // ---- whole runs: what a task was created with ----

  /** The step that created a task. */
  ghost predicate CreatedBy(r: seq<System>, steps: seq<Step>, j: nat, h: nat)
    requires |r| == |steps| + 1 && j < |steps|
  {
    steps[j].CreateStep? && |r[j].st.arena| == h < |r[j + 1].st.arena|
  }

  lemma {:induction false} Creation(r: seq<System>, steps: seq<Step>, k: nat, h: nat) returns (j: nat)
    requires Run(r, steps) && k < |r| && h < |r[k].st.arena|
    ensures j < k && CreatedBy(r, steps, j, h)
  {
    assert k > 0;
    RunFollows(r, steps, k - 1);
    if h < |r[k - 1].st.arena| {
      j := Creation(r, steps, k - 1, h);
    } else {
      OnlyCreateAdds(r[k - 1], steps[k - 1], h);
      ArenaGrows(r[k - 1].st, steps[k - 1]);
      j := k - 1;
    }
  }

  ghost predicate ScheduledAs(sys: System, h: nat, t: NewTask)
    requires h < |sys.st.arena|
  {
    Scheduled(LifeOf(sys, h), t.name, t.pull, t.createTime,
              if t.scheduleTime.Some? then t.scheduleTime.value else t.createTime)
  }

  lemma ScheduledStep(sys: System, step: Step, next: System, h: nat, t: NewTask)
    requires Follows(sys, step, next) && Sound(sys.st) && h < |sys.st.arena| && ScheduledAs(sys, h, t)
    ensures h < |next.st.arena| && ScheduledAs(next, h, t)
  {
    StepProjects(sys, step, h);
    FreshForLife(sys, h);
    ScheduledAct(LifeOf(sys, h), EnvOf(sys.st), ActionOf(sys.st, step, h), t.name, t.pull, t.createTime,
                 if t.scheduleTime.Some? then t.scheduleTime.value else t.createTime);
  }

  lemma ScheduledAtBirth(sys: System, step: Step, next: System, h: nat)
    requires Follows(sys, step, next) && Sound(sys.st) && Bounded(sys.log, |sys.st.arena|)
    requires step.CreateStep? && |sys.st.arena| == h < |next.st.arena|
    ensures ScheduledAs(next, h, step.task)
  {
    OnlyCreateAdds(sys, step, h);
    ScheduledBorn(h, step.task, EnvOf(sys.st));
  }

  lemma {:induction false} RunScheduled(r: seq<System>, steps: seq<Step>, j: nat, k: nat, h: nat)
    requires Run(r, steps) && j < k < |r| && CreatedBy(r, steps, j, h)
    ensures h < |r[k].st.arena| && ScheduledAs(r[k], h, steps[j].task)
    decreases k
  {
    RunFollows(r, steps, k - 1);
    if k == j + 1 {
      ScheduledAtBirth(r[j], steps[j], r[j + 1], h);
    } else {
      RunScheduled(r, steps, j, k - 1, h);
      ScheduledStep(r[k - 1], steps[k - 1], r[k], h, steps[j].task);
    }
  }

  /**
   The schedule of a task: in every run it keeps the name, kind and create time it was created
   with; and while nobody runs it by RunTask, its schedule time is the one asked for (its create
   time if none was) until the first result, and after each failure the time of that failure plus
   the backoff of that moment.
   */
  lemma ScheduleTimeIs(r: seq<System>, steps: seq<Step>, j: nat, k: nat, h: nat)
    requires Run(r, steps) && j < k < |r| && CreatedBy(r, steps, j, h)
    ensures h < |r[k].st.arena|
    ensures
      var t, asked := r[k].st.arena[h], steps[j].task;
      t.name == asked.name && t.pull == asked.pull && t.createTime == asked.createTime
    ensures
      var t, asked := r[k].st.arena[h], steps[j].task;
      Count(r[k].log, h, WasRun) == 0 && !t.removed ==>
        match LastResult(TaskLog(r[k].log, h))
        case None => t.scheduleTime == (if asked.scheduleTime.Some? then asked.scheduleTime.value else asked.createTime)
        case Some(e) =>
          && e.Applied? && !e.success
          && t.scheduleTime == e.at + RetryPolicy.Backoff(e.rc, Wrap32(Count(r[k].log, h, WasApplied)))
  {
    RunScheduled(r, steps, j, k, h);
    RunKept(r, steps, k, h);
    CountInTaskLog(r[k].log, h, WasRun);
    var log := TaskLog(r[k].log, h);
    if LastResult(log).Some? {
      LastIsIn(log);
      ResultsNumbered(r, steps, k, h);
      CountInTaskLog(r[k].log, h, WasApplied);
      LastNumber(log, h);
    }
  }

  /** The last result carries the number of all results. */
  lemma {:induction false} LastNumber(log: seq<Event>, h: nat)
    requires LastResult(log).Some? && LastResult(log).value.Applied? && InOrder(log, h)
    ensures LastResult(log).value.count == Wrap32(Count(log, h, WasApplied))
  {
    var n := |log| - 1;
    assert log[..n + 1] == log;
    if !log[n].Applied? {
      LastIsIn(log[..n]);
      forall j | 0 <= j < n && log[j].Applied? ensures log[..n][j].count == ResultNumber(log[..n], h, j) {
        assert log[..n][..j + 1] == log[..j + 1];
      }
      LastNumber(log[..n], h);
    }
  }

  lemma {:induction false} LastIsIn(log: seq<Event>)
    requires LastResult(log).Some?
    ensures LastResult(log).value in log && LastResult(log).value.Applied?
  {
    if !log[|log| - 1].Applied? {
      LastIsIn(log[..|log| - 1]);
    }
  }

  // ---- whole runs: when dispatch timers are due ----

  /** Step j found the task's gate closed, and a timer due at that moment plus one second was set. */
  ghost predicate PolledAt(r: seq<System>, steps: seq<Step>, j: nat, h: nat, due: int)
    requires |r| == |steps| + 1 && j < |steps|
  {
    && steps[j].FireStep? && steps[j].i in r[j].st.conts && r[j].st.conts[steps[j].i].task == h
    && r[j].st.q.state != Running
    && due == r[j].st.now + 1_000_000_000
  }

  ghost predicate Polled(r: seq<System>, steps: seq<Step>, k: nat, h: nat, due: int)
    requires |r| == |steps| + 1 && k < |r|
  {
    exists j :: 0 <= j < k && PolledAt(r, steps, j, h, due)
  }

  /** A live task that nobody ran by RunTask waits for the timer i. */
  ghost predicate Waits(sys: System, h: nat, i: nat) {
    && h < |sys.st.arena| && !sys.st.arena[h].removed && Runs(LifeOf(sys, h)) == 0
    && i in sys.st.conts && sys.st.conts[i].task == h && sys.st.conts[i].phase.Armed?
  }

  /** Where the timer comes from: it is on time, a closed gate set it, or it was set before and is unchanged. */
  ghost predicate TimerFrom(sys: System, step: Step, next: System, h: nat, i: nat)
    requires Waits(next, h, i)
  {
    var due := next.st.conts[i].phase.due;
    || OnTime(LifeOf(next, h), due)
    || (&& step.FireStep? && step.i in sys.st.conts && sys.st.conts[step.i].task == h
        && sys.st.q.state != Running && due == sys.st.now + 1_000_000_000)
    || (&& Waits(sys, h, i) && sys.st.conts[i].phase.due == due
        && (OnTime(LifeOf(sys, h), due) ==> OnTime(LifeOf(next, h), due)))
  }

  lemma TimerStepFrom(sys: System, step: Step, next: System, h: nat, i: nat)
    requires Follows(sys, step, next) && Sound(sys.st) && Bounded(sys.log, |sys.st.arena|) && Waits(next, h, i)
    requires h < |sys.st.arena| ==> Tracked(LifeOf(sys, h), sys.st.q.pull)
    ensures TimerFrom(sys, step, next, h, i)
  {
    assert i in LifeOf(next, h).mine;
    if h < |sys.st.arena| {
      TimerOfOld(sys, step, next, h, i);
    } else {
      OnlyCreateAdds(sys, step, h);
      BornTimer(h, FreshTask(step.task), EnvOf(sys.st), i);
    }
  }

  lemma TimerOfOld(sys: System, step: Step, next: System, h: nat, i: nat)
    requires Follows(sys, step, next) && Sound(sys.st) && h < |sys.st.arena| && Waits(next, h, i)
    requires Tracked(LifeOf(sys, h), sys.st.q.pull) && i in LifeOf(next, h).mine
    ensures TimerFrom(sys, step, next, h, i)
  {
    StepProjects(sys, step, h);
    FreshForLife(sys, h);
    GateIsFire(sys.st, step, h);
    TimerOfAct(sys, step, next, h, i, ActionOf(sys.st, step, h));
  }

  lemma TimerOfAct(sys: System, step: Step, next: System, h: nat, i: nat, a: Action)
    requires h < |sys.st.arena| && Waits(next, h, i) && i in LifeOf(next, h).mine
    requires Tracked(LifeOf(sys, h), sys.st.q.pull) && sys.st.nextId !in LifeOf(sys, h).mine
    requires Allowed(LifeOf(sys, h), EnvOf(sys.st), a) && LifeOf(next, h) == Act(LifeOf(sys, h), EnvOf(sys.st), a)
    requires a.Gate? ==> step.FireStep? && step.i in sys.st.conts && sys.st.conts[step.i].task == h
    ensures TimerFrom(sys, step, next, h, i)
  {
    var l, e := LifeOf(sys, h), EnvOf(sys.st);
    RunsGrow(l, e, a);
    ArmedAct(l, e, a, i);
    RemovedStays(l, e, a);
  }

  lemma GateIsFire(s: QState, step: Step, h: nat)
    requires WellFormed(s) && Enabled(s, step) && h < |s.arena|
    ensures ActionOf(s, step, h).Gate? ==> step.FireStep? && step.i in s.conts && s.conts[step.i].task == h
  {
  }

  lemma RemovedStays(l: Life, e: Env, a: Action)
    requires Allowed(l, e, a)
    ensures l.t.removed ==> Act(l, e, a).t.removed
  {
  }

  ghost predicate DueRight(r: seq<System>, steps: seq<Step>, k: nat, h: nat, i: nat)
    requires |r| == |steps| + 1 && k < |r| && Waits(r[k], h, i)
  {
    OnTime(LifeOf(r[k], h), r[k].st.conts[i].phase.due) || Polled(r, steps, k, h, r[k].st.conts[i].phase.due)
  }

  lemma DueFollows(r: seq<System>, steps: seq<Step>, k: nat, h: nat, i: nat)
    requires |r| == |steps| + 1 && k < |steps| && Waits(r[k + 1], h, i)
    requires TimerFrom(r[k], steps[k], r[k + 1], h, i)
    requires Waits(r[k], h, i) ==> DueRight(r, steps, k, h, i)
    ensures DueRight(r, steps, k + 1, h, i)
  {
    var due := r[k + 1].st.conts[i].phase.due;
    if !OnTime(LifeOf(r[k + 1], h), due) && !PolledAt(r, steps, k, h, due) {
      PolledLater(r, steps, k, h, due);
    }
  }

  lemma RunTimerFrom(r: seq<System>, steps: seq<Step>, k: nat, h: nat, i: nat)
    requires Run(r, steps) && k < |steps| && Waits(r[k + 1], h, i)
    ensures TimerFrom(r[k], steps[k], r[k + 1], h, i)
  {
    RunFollows(r, steps, k);
    if h < |r[k].st.arena| {
      RunKept(r, steps, k, h);
    }
    TimerStepFrom(r[k], steps[k], r[k + 1], h, i);
  }

  lemma {:induction false} RunDue(r: seq<System>, steps: seq<Step>, k: nat, h: nat, i: nat)
    requires Run(r, steps) && k < |r| && Waits(r[k], h, i)
    ensures DueRight(r, steps, k, h, i)
  {
    if k > 0 {
      if Waits(r[k - 1], h, i) {
        RunDue(r, steps, k - 1, h, i);
      }
      RunTimerFrom(r, steps, k - 1, h, i);
      DueFollows(r, steps, k - 1, h, i);
    }
  }

  /**
   Timers are set for exactly the right moment: in every run, an armed dispatch timer of a live
   task that nobody ran by RunTask is due at the later of the task's schedule time and its
   creation or last result; or, if a closed gate set it, exactly one second after that poll.
   */
  lemma DispatchTimerDue(r: seq<System>, steps: seq<Step>, k: nat, h: nat, i: nat)
    requires Run(r, steps) && k < |r| && h < |r[k].st.arena|
    requires !r[k].st.arena[h].removed && Count(r[k].log, h, WasRun) == 0
    requires i in r[k].st.conts && r[k].st.conts[i].task == h && r[k].st.conts[i].phase.Armed?
    ensures
      var due, log, at := r[k].st.conts[i].phase.due, TaskLog(r[k].log, h), r[k].st.arena[h].scheduleTime;
      due == (if at > LastAt(log) then at else LastAt(log)) || Polled(r, steps, k, h, due)
  {
    CountInTaskLog(r[k].log, h, WasRun);
    RunDue(r, steps, k, h, i);
  }

  lemma PolledLater(r: seq<System>, steps: seq<Step>, k: nat, h: nat, due: int)
    requires |r| == |steps| + 1 && k + 1 < |r| && Polled(r, steps, k, h, due)
    ensures Polled(r, steps, k + 1, h, due)
  {
    var j :| 0 <= j < k && PolledAt(r, steps, j, h, due);
  }

  // ---- runs in which due timers are handled in time ----

  /** The clock never passes an armed dispatch timer. */
  ghost predicate TimersHandled(r: seq<System>, steps: seq<Step>)
    requires Path(r, steps)
  {
    forall k | 0 <= k < |steps| && steps[k].Tick? ::
      forall i | i in r[k].st.conts && r[k].st.conts[i].phase.Armed? :: steps[k].to <= r[k].st.conts[i].phase.due
  }

  lemma ArmedAhead(l: Life, e: Env, a: Action, i: nat)
    requires Allowed(l, e, a) && e.nextId !in l.mine
    requires i in Act(l, e, a).mine && Act(l, e, a).mine[i].Armed?
    ensures (i in l.mine && l.mine[i] == Act(l, e, a).mine[i]) || Act(l, e, a).mine[i].due >= e.now
  {
    if a.Settle? && !l.t.removed {
      var t := Record(l.t, a.o, a.dispatchTime);
      SettledAhead(l, e, a.i, t, a.o, Judge(e.q.retryConfig, e.now, t, a.o), i);
    }
  }

  lemma SettledAhead(l: Life, e: Env, i: nat, t: TaskState, o: Dispatch.Outcome, v: Verdict, j: nat)
    requires i in l.mine && e.nextId !in l.mine
    requires j in SettleLife(l, e, i, t, o, v).mine && SettleLife(l, e, i, t, o, v).mine[j].Armed?
    ensures (j in l.mine && l.mine[j] == SettleLife(l, e, i, t, o, v).mine[j]) || SettleLife(l, e, i, t, o, v).mine[j].due >= e.now
  {
  }

  lemma AheadStep(sys: System, step: Step, next: System, i: nat)
    requires Follows(sys, step, next) && Sound(sys.st) && Bounded(sys.log, |sys.st.arena|)
    requires i in next.st.conts && next.st.conts[i].phase.Armed?
    ensures (i in sys.st.conts && sys.st.conts[i].phase == next.st.conts[i].phase) || sys.st.now <= next.st.conts[i].phase.due
  {
    var h := next.st.conts[i].task;
    NextWellFormed(sys.st, step);
    assert InRange(next.st.conts[i], |next.st.arena|, |next.st.limits|);
    assert i in LifeOf(next, h).mine;
    if h < |sys.st.arena| {
      StepProjects(sys, step, h);
      FreshForLife(sys, h);
      ArmedAhead(LifeOf(sys, h), EnvOf(sys.st), ActionOf(sys.st, step, h), i);
    } else {
      OnlyCreateAdds(sys, step, h);
      BornTimer(h, FreshTask(step.task), EnvOf(sys.st), i);
    }
  }

  lemma {:induction false} NotOverdue(r: seq<System>, steps: seq<Step>, k: nat, i: nat)
    requires Run(r, steps) && TimersHandled(r, steps) && k < |r|
    requires i in r[k].st.conts && r[k].st.conts[i].phase.Armed?
    ensures r[k].st.now <= r[k].st.conts[i].phase.due
  {
    if k > 0 {
      RunFollows(r, steps, k - 1);
      AheadStep(r[k - 1], steps[k - 1], r[k], i);
      ConfigKept(r[k - 1].st, steps[k - 1]);
      if i in r[k - 1].st.conts && r[k - 1].st.conts[i].phase == r[k].st.conts[i].phase {
        NotOverdue(r, steps, k - 1, i);
        TickWaits(r, steps, k - 1, i);
      } else if steps[k - 1].Tick? {
        assert r[k].st.conts == r[k - 1].st.conts;
      }
    }
  }

  lemma TickWaits(r: seq<System>, steps: seq<Step>, k: nat, i: nat)
    requires Run(r, steps) && TimersHandled(r, steps) && k < |steps| && Follows(r[k], steps[k], r[k + 1])
    requires i in r[k].st.conts && r[k].st.conts[i].phase.Armed?
    ensures steps[k].Tick? ==> r[k + 1].st.now <= r[k].st.conts[i].phase.due
  {
  }

  /**
   Tasks are dispatched on time: in a run whose clock waits for due timers, and in which the
   queue has always been running, the timer of a live task that nobody ran by RunTask goes off
   exactly at the later of its schedule time and its creation or last result.
   */
  lemma FiresOnTime(r: seq<System>, steps: seq<Step>, k: nat, h: nat, i: nat)
    requires Run(r, steps) && TimersHandled(r, steps) && k < |steps|
    requires StepAt(r, steps, k) && steps[k] == TimerStep(i) && r[k].st.conts[i].task == h
    requires h < |r[k].st.arena| && !r[k].st.arena[h].removed && Count(r[k].log, h, WasRun) == 0
    requires forall j | 0 <= j <= k :: r[j].st.q.state == Running
    ensures
      var log, at := TaskLog(r[k].log, h), r[k].st.arena[h].scheduleTime;
      r[k].st.now == if at > LastAt(log) then at else LastAt(log)
  {
    NotOverdue(r, steps, k, i);
    DispatchTimerDue(r, steps, k, h, i);
  }

  // ---- whole runs: stopped timers ----

  lemma StoppedFollows(sys: System, step: Step, next: System, h: nat)
    requires Follows(sys, step, next) && Sound(sys.st) && Bounded(sys.log, |sys.st.arena|) && h < |next.st.arena|
    requires h < |sys.st.arena| ==> Stopped(LifeOf(sys, h)) && Tracked(LifeOf(sys, h), sys.st.q.pull)
    ensures Stopped(LifeOf(next, h))
  {
    if h < |sys.st.arena| {
      StepProjects(sys, step, h);
      FreshForLife(sys, h);
      StoppedAct(LifeOf(sys, h), EnvOf(sys.st), ActionOf(sys.st, step, h));
    } else {
      OnlyCreateAdds(sys, step, h);
      StoppedBorn(h, FreshTask(step.task), EnvOf(sys.st));
    }
  }

  lemma RunTracked(r: seq<System>, steps: seq<Step>, k: nat, h: nat)
    requires Run(r, steps) && k < |r| && h < |r[k].st.arena|
    ensures Tracked(LifeOf(r[k], h), r[k].st.q.pull)
  {
    RunKept(r, steps, k, h);
  }

  lemma {:induction false} RunStopped(r: seq<System>, steps: seq<Step>, k: nat, h: nat)
    requires Run(r, steps) && k < |r| && h < |r[k].st.arena|
    ensures Stopped(LifeOf(r[k], h))
  {
    if k > 0 {
      RunFollows(r, steps, k - 1);
      if h < |r[k - 1].st.arena| {
        RunStopped(r, steps, k - 1, h);
        RunTracked(r, steps, k - 1, h);
      }
      StoppedFollows(r[k - 1], steps[k - 1], r[k], h);
    }
  }

  /**
   Removal stops the timers: in every run a removed task has no TTL timer waiting and, if nobody
   ran it by RunTask, no dispatch timer either.
   */
  lemma RemovedTimersStopped(r: seq<System>, steps: seq<Step>, k: nat, h: nat)
    requires Run(r, steps) && k < |r| && h < |r[k].st.arena| && r[k].st.arena[h].removed
    ensures h in r[k].st.ttls ==> r[k].st.ttls[h].TtlFired?
    ensures Count(r[k].log, h, WasRun) == 0 ==>
              forall i | i in r[k].st.conts && r[k].st.conts[i].task == h :: !r[k].st.conts[i].phase.Armed?
  {
    RunStopped(r, steps, k, h);
    CountInTaskLog(r[k].log, h, WasRun);
    forall i | i in r[k].st.conts && r[k].st.conts[i].task == h && Count(r[k].log, h, WasRun) == 0
      ensures !r[k].st.conts[i].phase.Armed?
    {
      assert i in LifeOf(r[k], h).mine;
    }
  }

  /**
   RunTask takes over: called on a task that waits for its timer and was not run before, it leaves
   exactly one thing pending, the attempt it begins, due now and ready to start whatever the
   state of the queue and of its limits.
   */
  lemma RunTaskTakesOver(r: seq<System>, steps: seq<Step>, k: nat, h: nat, name: string, i: nat)
    requires Run(r, steps) && k < |steps| && StepAt(r, steps, k) && steps[k] == RunStep(name)
    requires Runnable(r[k].st, name) && r[k].st.tasks[name] == h && h < |r[k].st.arena| && Count(r[k].log, h, WasRun) == 0
    requires i in r[k].st.conts && r[k].st.conts[i].task == h && r[k].st.conts[i].phase.Armed?
    ensures
      var id, s' := r[k].st.nextId, r[k + 1].st;
      && PendingOf(s', h) == {id} && s'.conts[id] == Cont(h, Entered)
      && h < |s'.arena| && s'.arena[h].scheduleTime == s'.now
      && WellFormed(s') && Enabled(s', SnapshotStep(id))
  {
    RunFollows(r, steps, k);
    RunStopped(r, steps, k, h);
    RunKept(r, steps, k, h);
    CountInTaskLog(r[k].log, h, WasRun);
    var l, e := LifeOf(r[k], h), EnvOf(r[k].st);
    assert i in l.mine;
    StepProjects(r[k], steps[k], h);
    FreshForLife(r[k], h);
    TakenOver(l, e, i);
    PendingOfLife(r[k + 1], h);
    NextWellFormed(r[k].st, steps[k]);
    assert r[k].st.nextId in LifeOf(r[k + 1], h).mine;
  }

  lemma TakenOver(l: Life, e: Env, i: nat)
    requires Stopped(l) && Tracked(l, e.q.pull) && Runs(l) == 0 && Allowed(l, e, Force) && e.nextId !in l.mine
    requires i in l.mine && l.mine[i].Armed?
    ensures
      var l' := Act(l, e, Force);
      Pending(l'.mine) == {e.nextId} && l'.mine[e.nextId] == Entered && l'.t.scheduleTime == e.now
  {
    forall j | j in Pending(l.mine) ensures j == i {
      ArmedAlone(l, e.q.pull, i, j);
    }
    PendingRemove(l.mine, {i});
    PendingUpdate(l.mine - {i}, e.nextId, Entered);
    assert Pending(l.mine) == {i};
  }
}
