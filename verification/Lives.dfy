/** Runs of the queue are runs of each task's life. */
module Lives {
  import opened Wrappers
  import opened Types
  import opened Lifecycle
  import opened History
  import opened Registry
  import opened Ownership
  import opened Life
  import opened Projection
  import Dispatch

  // ---- soundness of every reachable state ----

  lemma SoundStep(s: QState, step: Step)
    requires Sound(s) && Enabled(s, step)
    ensures Sound(NextState(s, step))
  {
    NextWellFormed(s, step);
    RegisteredStep(s, step);
    OwnedStep(s, step);
    UsableStep(s, step);
  }

  lemma {:induction false} RunSound(r: seq<System>, steps: seq<Step>, k: nat)
    requires Run(r, steps) && k < |r|
    ensures Sound(r[k].st)
  {
    if k > 0 {
      RunSound(r, steps, k - 1);
      assert StepAt(r, steps, k - 1);
      SoundStep(r[k - 1].st, steps[k - 1]);
    }
  }

  // ---- the log ----

  /** The log mentions only tasks that exist. */
  ghost predicate Bounded(log: seq<Event>, handles: nat) {
    forall j | 0 <= j < |log| :: EventBounded(log[j], handles)
  }

  ghost predicate EventBounded(e: Event, handles: nat) {
    if e.Purged? || e.Stopped? then forall h | h in e.hs :: h < handles else e.h < handles
  }

  lemma ArenaGrows(s: QState, step: Step)
    requires WellFormed(s) && Enabled(s, step)
    ensures |NextState(s, step).arena| ==
            |s.arena| + if step.CreateStep? && !NameTaken(s, step.task.name) then 1 else 0
  {
  }

  lemma EventsBounded(s: QState, step: Step)
    requires WellFormed(s) && Enabled(s, step)
    ensures |Events(s, step)| <= 2
    ensures Bounded(Events(s, step), |s.arena| + if step.CreateStep? then 1 else 0)
    ensures step.CreateStep? ==> Events(s, step) == [] || !NameTaken(s, step.task.name)
  {
  }

  lemma BoundedStep(sys: System, step: Step)
    requires WellFormed(sys.st) && Enabled(sys.st, step) && Bounded(sys.log, |sys.st.arena|)
    ensures Bounded(Next(sys, step).log, |Next(sys, step).st.arena|)
  {
    ArenaGrows(sys.st, step);
    EventsBounded(sys.st, step);
  }

  lemma {:induction false} RunBounded(r: seq<System>, steps: seq<Step>, k: nat)
    requires Run(r, steps) && k < |r|
    ensures Bounded(r[k].log, |r[k].st.arena|)
  {
    if k > 0 {
      RunBounded(r, steps, k - 1);
      assert StepAt(r, steps, k - 1);
      BoundedStep(r[k - 1], steps[k - 1]);
    }
  }

  lemma {:induction false} NoHistoryYet(log: seq<Event>, h: nat)
    requires Bounded(log, h)
    ensures TaskLog(log, h) == []
  {
    if log != [] {
      assert EventBounded(log[|log| - 1], h);
      NoHistoryYet(log[..|log| - 1], h);
    }
  }

  /** Counting in the whole log is counting in the task's own history. */
  lemma {:induction false} CountInTaskLog(log: seq<Event>, h: nat, k: Kind)
    ensures Count(log, h, k) == Count(TaskLog(log, h), h, k)
  {
    if log != [] {
      var init := log[..|log| - 1];
      var e := log[|log| - 1];
      CountInTaskLog(init, h, k);
      if Concerns(e, h) {
        CountAppend1(TaskLog(init, h), e, h, k);
      }
    }
  }

  lemma TaskLogAppend(log: seq<Event>, es: seq<Event>, h: nat)
    requires |es| <= 2
    requires |es| == 2 ==> Concerns(es[0], h) == Concerns(es[1], h)
    ensures es == [] ==> TaskLog(log + es, h) == TaskLog(log, h)
    ensures es != [] && !Concerns(es[0], h) ==> TaskLog(log + es, h) == TaskLog(log, h)
    ensures |es| == 1 && Concerns(es[0], h) ==> TaskLog(log + es, h) == TaskLog(log, h) + [es[0]]
    ensures |es| == 2 && Concerns(es[0], h) ==> TaskLog(log + es, h) == TaskLog(log, h) + [es[0]] + [es[1]]
  {
    if es == [] {
      assert log + es == log;
    } else if |es| == 1 {
      assert es == [es[0]];
      TaskLogAppend1(log, es[0], h);
    } else {
      assert es == [es[0], es[1]];
      TaskLogAppend2(log, es[0], es[1], h);
    }
  }

  lemma SettleLifeLog(l: Life, e: Env, i: nat, t: TaskState, o: Dispatch.Outcome, v: Verdict)
    requires i in l.mine
    ensures
      var applied := l.log + [AppliedEvent(l, e, t, o, v)];
      SettleLife(l, e, i, t, o, v).log ==
      match v
      case Retry(_) => applied
      case Complete => applied + [Removed(l.h, t.name, Completed, EffectiveTombstoneTTL(e.q, e.eng), e.now)]
      case Exhaust => applied + [Removed(l.h, t.name, Exhausted, EffectiveTombstoneTTL(e.q, e.eng), e.now)]
  {
  }

  /** The events of a result extend the history of its own task as its life does. */
  lemma ResultLog(s: QState, log: seq<Event>, l: Life, h: nat, i: nat, t: TaskState, o: Dispatch.Outcome, v: Verdict)
    requires h < |s.arena| && h == l.h && i in l.mine && l.log == TaskLog(log, h) && t.name == s.arena[h].name
    ensures TaskLog(log + ResultEvents(s, h, t, o, v), h) == SettleLife(l, EnvOf(s), i, t, o, v).log
  {
    TaskLogAppend(log, ResultEvents(s, h, t, o, v), l.h);
    SettleLifeLog(l, EnvOf(s), i, t, o, v);
  }

  /** A result for another task. */
  lemma ResultElsewhere(s: QState, log: seq<Event>, h: nat, other: nat, t: TaskState, o: Dispatch.Outcome, v: Verdict)
    requires h < |s.arena| && h != other
    ensures TaskLog(log + ResultEvents(s, h, t, o, v), other) == TaskLog(log, other)
  {
    var es := ResultEvents(s, h, t, o, v);
    if v.Retry? {
      assert es == [es[0]];
      TaskLogAppend1(log, es[0], other);
    } else {
      assert es == [es[0], es[1]];
      TaskLogAppend2(log, es[0], es[1], other);
    }
  }

  lemma SettleLog(sys: System, l: Life, i: nat, o: Dispatch.Outcome, dispatchTime: int)
    requires WellFormed(sys.st) && Shows(sys.st, l) && l.log == TaskLog(sys.log, l.h)
    requires i in sys.st.conts && sys.st.conts[i].phase.InFlight?
    requires sys.st.conts[i].phase.began <= dispatchTime <= sys.st.now
    ensures TaskLog(sys.log + ApplyEvents(sys.st, i, o, dispatchTime), l.h) ==
            if sys.st.conts[i].task == l.h then Act(l, EnvOf(sys.st), Settle(i, o, dispatchTime)).log else l.log
  {
    var s := sys.st;
    var h := s.conts[i].task;
    if s.arena[h].removed {
      assert sys.log + ApplyEvents(s, i, o, dispatchTime) == sys.log;
    } else {
      var t := Record(s.arena[h], o, dispatchTime);
      var v := Judge(s.q.retryConfig, s.now, t, o);
      assert ApplyEvents(s, i, o, dispatchTime) == ResultEvents(s, h, t, o, v);
      if h == l.h {
        assert i in l.mine;
        ResultLog(s, sys.log, l, h, i, t, o, v);
      } else {
        ResultElsewhere(s, sys.log, h, l.h, t, o, v);
      }
    }
  }

  /** What an action other than a result adds to the history of its task. */
  function OwnEvent(l: Life, e: Env, a: Action): Option<Event>
    requires Allowed(l, e, a)
  {
    match a
    case Begin(i) =>
      if l.t.removed then None
      else Some(Started(l.h, i, l.mine[i].Admitted?, l.t.dispatchCount, l.t.scheduleTime, e.now))
    case Force => Some(RunRequested(l.h))
    case ExpireNow => if l.t.removed then None else Some(Gone(l, e, Expired))
    case Drop => Some(Gone(l, e, Deleted))
    case Sweep(ev) => Some(ev)
    case _ => None
  }

  function Gone(l: Life, e: Env, reason: Reason): Event {
    Removed(l.h, l.t.name, reason, EffectiveTombstoneTTL(e.q, e.eng), e.now)
  }

  function With(log: seq<Event>, e: Option<Event>): seq<Event> {
    if e.Some? then log + [e.value] else log
  }

  lemma ActLog(l: Life, e: Env, a: Action)
    requires Allowed(l, e, a) && !a.Settle?
    ensures Act(l, e, a).log == With(l.log, OwnEvent(l, e, a))
  {
  }

  lemma LiveIffHeld(s: QState, h: nat)
    requires Sound(s) && h < |s.arena|
    ensures h in LiveHandles(s) <==> !s.arena[h].removed
  {
    if !s.arena[h].removed {
      assert s.tasks[s.arena[h].name] == h;
    }
  }

  /** The events of a step are those its action adds to the life, and concern no other. */
  ghost predicate Tells(es: seq<Event>, h: nat, own: Option<Event>) {
    || (es == [] && own == None)
    || (|es| == 1 && own == if Concerns(es[0], h) then Some(es[0]) else None)
  }

  lemma SweepTells(s: QState, l: Life, step: Step)
    requires Sound(s) && Enabled(s, step) && Shows(s, l) && (step.PurgeStep? || step.StopStep?)
    requires Allowed(l, EnvOf(s), ActionOf(s, step, l.h))
    ensures Tells(Events(s, step), l.h, OwnEvent(l, EnvOf(s), ActionOf(s, step, l.h)))
  {
    LiveIffHeld(s, l.h);
  }

  predicate Silent(step: Step) {
    || step.Tick? || step.TimerStep? || step.FireStep? || step.LimiterStep? || step.TakeStep? || step.ReturnStep?
    || step.TtlStep? || step.CleanupStep? || step.UpdateStep? || step.SetStateStep?
  }

  lemma SilentTells(s: QState, l: Life, step: Step)
    requires Sound(s) && Enabled(s, step) && Shows(s, l) && Silent(step)
    requires Allowed(l, EnvOf(s), ActionOf(s, step, l.h))
    ensures Tells(Events(s, step), l.h, OwnEvent(l, EnvOf(s), ActionOf(s, step, l.h)))
  {
    assert Events(s, step) == [];
  }

  lemma CallTells(s: QState, l: Life, step: Step)
    requires Sound(s) && Enabled(s, step) && Shows(s, l)
    requires step.CreateStep? || step.RunStep? || step.DeleteStep? || step.ExpireStep? || step.SnapshotStep?
    requires Allowed(l, EnvOf(s), ActionOf(s, step, l.h))
    ensures Tells(Events(s, step), l.h, OwnEvent(l, EnvOf(s), ActionOf(s, step, l.h)))
  {
  }

  lemma StepTells(s: QState, l: Life, step: Step)
    requires Sound(s) && Enabled(s, step) && Shows(s, l) && !step.ApplyStep?
    requires Allowed(l, EnvOf(s), ActionOf(s, step, l.h))
    ensures Tells(Events(s, step), l.h, OwnEvent(l, EnvOf(s), ActionOf(s, step, l.h)))
  {
    if step.PurgeStep? || step.StopStep? {
      SweepTells(s, l, step);
    } else if Silent(step) {
      SilentTells(s, l, step);
    } else {
      CallTells(s, l, step);
    }
  }

  lemma ToldLog(log: seq<Event>, es: seq<Event>, h: nat, own: Option<Event>)
    requires Tells(es, h, own)
    ensures TaskLog(log + es, h) == With(TaskLog(log, h), own)
  {
    if es == [] {
      assert log + es == log;
    } else {
      assert es == [es[0]];
      TaskLogAppend1(log, es[0], h);
    }
  }

  lemma StepLog(sys: System, l: Life, step: Step)
    requires Sound(sys.st) && Enabled(sys.st, step) && Shows(sys.st, l) && l.log == TaskLog(sys.log, l.h)
    requires Allowed(l, EnvOf(sys.st), ActionOf(sys.st, step, l.h))
    ensures TaskLog(sys.log + Events(sys.st, step), l.h) == Act(l, EnvOf(sys.st), ActionOf(sys.st, step, l.h)).log
  {
    if step.ApplyStep? {
      SettleLog(sys, l, step.i, step.outcome, step.dispatchTime);
    } else {
      var a := ActionOf(sys.st, step, l.h);
      StepTells(sys.st, l, step);
      ToldLog(sys.log, Events(sys.st, step), l.h, OwnEvent(l, EnvOf(sys.st), a));
      ActLog(l, EnvOf(sys.st), a);
    }
  }

  // ---- the main theorems of the cut ----

  lemma ShownLife(sys: System, l: Life)
    requires Shows(sys.st, l) && l.log == TaskLog(sys.log, l.h)
    ensures LifeOf(sys, l.h) == l
  {
  }

  lemma ActKeepsHandle(l: Life, e: Env, a: Action)
    requires Allowed(l, e, a)
    ensures Act(l, e, a).h == l.h
  {
  }

  /** Each step of the queue is, for each of its tasks, one allowed action of the task's life. */
  lemma StepProjects(sys: System, step: Step, h: nat)
    requires Sound(sys.st) && Enabled(sys.st, step) && h < |sys.st.arena|
    ensures h < |Next(sys, step).st.arena|
    ensures Allowed(LifeOf(sys, h), EnvOf(sys.st), ActionOf(sys.st, step, h))
    ensures LifeOf(Next(sys, step), h) == Act(LifeOf(sys, h), EnvOf(sys.st), ActionOf(sys.st, step, h))
  {
    var l := LifeOf(sys, h);
    StepShows(sys.st, l, step);
    StepLog(sys, l, step);
    ActKeepsHandle(l, EnvOf(sys.st), ActionOf(sys.st, step, h));
    ShownLife(Next(sys, step), Act(l, EnvOf(sys.st), ActionOf(sys.st, step, h)));
  }

  lemma NewTaskShows(s: QState, t: TaskState)
    requires Sound(s)
    ensures Shows(Appended(s, t), Life(|s.arena|, t, map[], Some(Appended(s, t).ttls[|s.arena|]), [Created(|s.arena|, t.name, s.now)]))
  {
    assert Mine(s.conts, |s.arena|) == map[];
  }

  lemma BirthShows(s: QState, t: NewTask)
    requires Sound(s) && !NameTaken(s, t.name)
    ensures Shows(CreateTask(s, t), Born(|s.arena|, FreshTask(t), EnvOf(s)))
  {
    var h := |s.arena|;
    var added := Appended(s, FreshTask(t));
    NewTaskShows(s, FreshTask(t));
    OwnedAppend(s.arena, s.conts, s.nextId, FreshTask(t));
    ScheduleShows(added, h, Life(h, FreshTask(t), map[], Some(added.ttls[h]), [Created(h, t.name, s.now)]));
    assert EnvOf(added) == EnvOf(s);
  }

  lemma BornLog(h: nat, t: TaskState, e: Env)
    ensures Born(h, t, e).h == h && Born(h, t, e).log == [Created(h, t.name, e.now)]
  {
  }

  /** A task that a step adds begins its life as Born. */
  lemma BirthProjects(sys: System, t: NewTask)
    requires Sound(sys.st) && Enabled(sys.st, CreateStep(t)) && !NameTaken(sys.st, t.name)
    requires Bounded(sys.log, |sys.st.arena|)
    ensures
      var h := |sys.st.arena|;
      && |Next(sys, CreateStep(t)).st.arena| == h + 1
      && LifeOf(Next(sys, CreateStep(t)), h) == Born(h, FreshTask(t), EnvOf(sys.st))
  {
    var h := |sys.st.arena|;
    var created := Created(h, t.name, sys.st.now);
    NoHistoryYet(sys.log, h);
    TaskLogAppend1(sys.log, created, h);
    BirthShows(sys.st, t);
    assert Events(sys.st, CreateStep(t)) == [created];
    BornLog(h, FreshTask(t), EnvOf(sys.st));
    ShownLife(Next(sys, CreateStep(t)), Born(h, FreshTask(t), EnvOf(sys.st)));
  }
}
