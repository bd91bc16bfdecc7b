/** What every run of a queue guarantees for each of its tasks. */
module Guarantees {
  import opened Wrappers
  import opened FixedWidth
  import opened Types
  import opened Lifecycle
  import opened History
  import opened Registry
  import opened Life
  import opened Projection
  import opened Lives
  import opened Tracking
  import opened Counters
  import opened Timing
  import opened Bounds
  import opened Rulings
  import Dispatch
  import RetryPolicy

  // ---- configuration and clock ----

  lemma ConfigKept(s: QState, step: Step)
    requires WellFormed(s) && Enabled(s, step)
    ensures
      var s' := NextState(s, step);
      && s'.eng == s.eng && s'.q.name == s.q.name && s'.q.pull == s.q.pull
      && s'.q.taskTTL == s.q.taskTTL && s'.q.tombstoneTTL == s.q.tombstoneTTL
      && s.now <= s'.now && (!step.Tick? ==> s'.now == s.now)
  {
    if step.UpdateStep? {
      UpdateKeepsConfig(s, step.update, step.fields);
    }
  }

  lemma UpdateKeepsConfig(s: QState, update: Queue, fields: seq<QueueField>)
    ensures
      var s' := UpdateQueue(s, update, fields);
      && s'.eng == s.eng && s'.now == s.now && s'.q.name == s.q.name && s'.q.pull == s.q.pull
      && s'.q.taskTTL == s.q.taskTTL && s'.q.tombstoneTTL == s.q.tombstoneTTL
  {
    MergeKeeps(s.q, update, if fields == [] then ALL_FIELDS else fields);
  }

  lemma {:induction false} MergeKeeps(stored: Queue, update: Queue, fields: seq<QueueField>)
    ensures
      var q := SetFields(stored, update, fields);
      && q.name == stored.name && q.pull == stored.pull && q.state == stored.state
      && q.taskTTL == stored.taskTTL && q.tombstoneTTL == stored.tombstoneTTL && q.purgeTime == stored.purgeTime
    decreases |fields|
  {
    if fields != [] {
      MergeKeeps(SetField(stored, update, fields[0]), update, fields[1..]);
    }
  }

  // ---- the invariant of a life, along a run ----

  ghost predicate Kept(l: Life, e: Env) {
    && Tracked(l, e.q.pull)
    && Counted(l)
    && Numbered(l)
    && Timely(l, e.now)
    && Honest(l)
    && Aging(l, EffectiveTaskTTL(e.q, e.eng))
    && Underway(l, e.now)
    && Ruled(l)
  }

  lemma KeptAct(l: Life, e: Env, a: Action)
    requires Kept(l, e) && Allowed(l, e, a) && e.nextId !in l.mine
    ensures Kept(Act(l, e, a), e)
  {
    TrackedAct(l, e, a);
    CountedAct(l, e, a);
    NumberedAct(l, e, a);
    TimelyAct(l, e, a);
    HonestAct(l, e, a);
    AgingAct(l, e, a, EffectiveTaskTTL(e.q, e.eng));
    UnderwayAct(l, e, a);
    RuledAct(l, e, a);
  }

  lemma KeptEnv(l: Life, e: Env, e': Env)
    requires Kept(l, e) && e'.q.pull == e.q.pull && e.now <= e'.now
    requires EffectiveTaskTTL(e'.q, e'.eng) == EffectiveTaskTTL(e.q, e.eng)
    ensures Kept(l, e')
  {
    TimePasses(l, e.now, e'.now);
  }

  lemma KeptBorn(h: nat, t: NewTask, e: Env)
    ensures Kept(Born(h, FreshTask(t), e), e)
  {
    TrackedBorn(h, FreshTask(t), e);
    CountedBorn(h, t, e);
    TimelyBorn(h, FreshTask(t), e);
    RuledBorn(h, FreshTask(t), e);
  }

  lemma FreshForLife(sys: System, h: nat)
    requires Sound(sys.st) && h < |sys.st.arena|
    ensures sys.st.nextId !in LifeOf(sys, h).mine
  {
  }

  lemma KeptStep(sys: System, step: Step, h: nat)
    requires Sound(sys.st) && Enabled(sys.st, step) && h < |sys.st.arena|
    requires Kept(LifeOf(sys, h), EnvOf(sys.st))
    ensures h < |Next(sys, step).st.arena|
    ensures Kept(LifeOf(Next(sys, step), h), EnvOf(Next(sys, step).st))
  {
    StepProjects(sys, step, h);
    FreshForLife(sys, h);
    KeptAct(LifeOf(sys, h), EnvOf(sys.st), ActionOf(sys.st, step, h));
    ConfigKept(sys.st, step);
    KeptEnv(LifeOf(Next(sys, step), h), EnvOf(sys.st), EnvOf(Next(sys, step).st));
  }

  /** A task that appears in a step is the one the step creates. */
  lemma OnlyCreateAdds(sys: System, step: Step, h: nat)
    requires Sound(sys.st) && Enabled(sys.st, step) && Bounded(sys.log, |sys.st.arena|)
    requires |sys.st.arena| <= h < |Next(sys, step).st.arena|
    ensures step.CreateStep? && LifeOf(Next(sys, step), h) == Born(h, FreshTask(step.task), EnvOf(sys.st))
  {
    ArenaGrows(sys.st, step);
    BirthProjects(sys, step.task);
  }

  /** A step of a run, with what every state it starts from keeps. */
  lemma RunFollows(r: seq<System>, steps: seq<Step>, k: nat)
    requires Run(r, steps) && k < |steps|
    ensures Follows(r[k], steps[k], r[k + 1]) && Sound(r[k].st) && Bounded(r[k].log, |r[k].st.arena|)
  {
    assert StepAt(r, steps, k);
    RunSound(r, steps, k);
    RunBounded(r, steps, k);
  }

  lemma {:induction false} RunKept(r: seq<System>, steps: seq<Step>, k: nat, h: nat)
    requires Run(r, steps) && k < |r| && h < |r[k].st.arena|
    ensures Kept(LifeOf(r[k], h), EnvOf(r[k].st))
  {
    if k > 0 {
      var sys, step := r[k - 1], steps[k - 1];
      RunFollows(r, steps, k - 1);
      if h < |sys.st.arena| {
        RunKept(r, steps, k - 1, h);
        KeptStep(sys, step, h);
      } else {
        OnlyCreateAdds(sys, step, h);
        KeptBorn(h, step.task, EnvOf(sys.st));
        ConfigKept(sys.st, step);
        KeptEnv(LifeOf(r[k], h), EnvOf(sys.st), EnvOf(r[k].st));
      }
    }
  }

  // ---- the theorems ----

  /** The continuations of a task that are pending in the queue. */
  function PendingOf(s: QState, h: nat): set<nat> {
    set i | i in s.conts && s.conts[i].task == h && !s.conts[i].phase.Returning?
  }

  predicate IsPushTask(s: QState, h: nat)
    requires h < |s.arena|
  {
    !s.q.pull && !s.arena[h].pull
  }

  lemma PendingOfLife(sys: System, h: nat)
    requires h < |sys.st.arena|
    ensures PendingOf(sys.st, h) == Pending(LifeOf(sys, h).mine)
  {
  }

  /**
   No lost or runaway task: in every state of every run, a live push task has a pending
   continuation, no task has more than one plus the RunTask calls made on it, and so a live
   push task that was never run has exactly one.
   */
  lemma NoLostOrRunawayTask(r: seq<System>, steps: seq<Step>, k: nat, h: nat)
    requires Run(r, steps) && k < |r| && h < |r[k].st.arena|
    ensures |PendingOf(r[k].st, h)| <= 1 + Count(r[k].log, h, WasRun)
    ensures !r[k].st.arena[h].removed && IsPushTask(r[k].st, h) ==> PendingOf(r[k].st, h) != {}
    ensures !r[k].st.arena[h].removed && IsPushTask(r[k].st, h) && Count(r[k].log, h, WasRun) == 0
            ==> |PendingOf(r[k].st, h)| == 1
    ensures !IsPushTask(r[k].st, h) ==> PendingOf(r[k].st, h) == {}
  {
    RunKept(r, steps, k, h);
    PendingOfLife(r[k], h);
    CountInTaskLog(r[k].log, h, WasRun);
    assert Pending(map[]) == {};
  }

  /**
   Stale callbacks are inert, in every run: when a late fire, snapshot, apply or expire of a
   removed task h comes, whatever became of its name, every other task keeps its state, its
   timers and its history, and no map entry, reservation, limit or setting changes. In
   particular a task h' that was created under the name since stays the one in the map.
   */
  lemma StaleCallbackInert(r: seq<System>, steps: seq<Step>, k: nat, h: nat, h': nat)
    requires Run(r, steps) && k < |steps| && StepAt(r, steps, k)
    requires CallbackTask(r[k].st, steps[k]) == Some(h) && h < |r[k].st.arena| && r[k].st.arena[h].removed
    requires h' < |r[k].st.arena| && h' != h
    ensures r[k + 1].log == r[k].log
    ensures r[k + 1].st == r[k].st.(conts := r[k + 1].st.conts, ttls := r[k + 1].st.ttls)
    ensures h' < |r[k + 1].st.arena| && LifeOf(r[k + 1], h') == LifeOf(r[k], h')
    ensures !r[k].st.arena[h'].removed && r[k].st.arena[h'].name == r[k].st.arena[h].name ==>
              r[k].st.arena[h].name in r[k + 1].st.tasks && r[k + 1].st.tasks[r[k].st.arena[h].name] == h'
  {
    var sys, step := r[k], steps[k];
    RunSound(r, steps, k);
    RemovedCallback(sys.st, step);
    assert sys.log + [] == sys.log;
    StepProjects(sys, step, h');
    assert ActionOf(sys.st, step, h') == Rest;
  }

  /**
   Counters equal history: the counters of a task are the numbers of its recorded deliveries,
   of those with a response and of those with a response below 500, as 32-bit integers; the
   status it reports for the previous attempt is that of the last one.
   */
  lemma CountersEqualHistory(r: seq<System>, steps: seq<Step>, k: nat, h: nat)
    requires Run(r, steps) && k < |r| && h < |r[k].st.arena|
    ensures
      var t := r[k].st.arena[h];
      && t.dispatchCount == Wrap32(Count(r[k].log, h, WasApplied))
      && t.responseCount == Wrap32(Count(r[k].log, h, HadResponse))
      && t.executionCount == Wrap32(Count(r[k].log, h, HadNon5xx))
      && t.lastHTTPCode == LastCode(TaskLog(r[k].log, h))
    ensures Count(r[k].log, h, WasApplied) < TWO_31 ==>
              var t := r[k].st.arena[h];
              0 <= t.executionCount <= t.responseCount <= t.dispatchCount
  {
    RunKept(r, steps, k, h);
    CountInTaskLog(r[k].log, h, WasApplied);
    CountInTaskLog(r[k].log, h, HadResponse);
    CountInTaskLog(r[k].log, h, HadNon5xx);
    CountsOrdered(r[k].log, h);
  }

  /** Without RunTask, the j-th delivery of a task carries retry count j - 1. */
  lemma RetryCountIsDeliveryNumber(r: seq<System>, steps: seq<Step>, k: nat, h: nat, j: nat)
    requires Run(r, steps) && k < |r| && h < |r[k].st.arena| && Count(r[k].log, h, WasRun) == 0
    requires j < |TaskLog(r[k].log, h)| && TaskLog(r[k].log, h)[j].Started?
    ensures TaskLog(r[k].log, h)[j].retryCount == Wrap32(Count(TaskLog(r[k].log, h)[..j], h, WasStarted))
  {
    RunKept(r, steps, k, h);
    CountInTaskLog(r[k].log, h, WasRun);
  }

  /**
   Never early, properly spaced: without RunTask on a task, each of its deliveries starts at or
   after its schedule time, and no sooner after a recorded failure than the backoff that the
   retry configuration of that moment gives for that failure.
   */
  lemma NeverEarlyAndSpaced(r: seq<System>, steps: seq<Step>, k: nat, h: nat)
    requires Run(r, steps) && k < |r| && h < |r[k].st.arena| && Count(r[k].log, h, WasRun) == 0
    ensures
      var log := TaskLog(r[k].log, h);
      && (forall j | 0 <= j < |log| && log[j].Started? :: log[j].scheduled <= log[j].at)
      && (forall i, j | 0 <= i < j < |log| && IsRetry(log[i]) && log[j].Started? ::
            log[i].at + RetryPolicy.Backoff(log[i].rc, log[i].count) <= log[j].at)
  {
    RunKept(r, steps, k, h);
    CountInTaskLog(r[k].log, h, WasRun);
    var log := TaskLog(r[k].log, h);
    assert WellSpaced(log);
    forall i, j | 0 <= i < j < |log| && IsRetry(log[i]) && log[j].Started?
      ensures log[i].at + RetryPolicy.Backoff(log[i].rc, log[i].count) <= log[j].at
    {
      assert HonestEvent(log[i]);
    }
  }

  /** Every task was created once, and is live or was removed exactly once. */
  lemma LiveOrRemovedOnce(r: seq<System>, steps: seq<Step>, k: nat, h: nat)
    requires Run(r, steps) && k < |r| && h < |r[k].st.arena|
    ensures Count(r[k].log, h, WasCreated) == 1
    ensures Count(r[k].log, h, WasRemoved) == if r[k].st.arena[h].removed then 1 else 0
  {
    RunKept(r, steps, k, h);
    CountInTaskLog(r[k].log, h, WasCreated);
    CountInTaskLog(r[k].log, h, WasRemoved);
  }

  function Handles(tasks: map<string, nat>): set<nat> {
    set n | n in tasks :: tasks[n]
  }

  function LiveSet(arena: seq<TaskState>): set<nat> {
    set h | 0 <= h < |arena| && !arena[h].removed
  }

  function RemovedSet(arena: seq<TaskState>): set<nat> {
    set h | 0 <= h < |arena| && arena[h].removed
  }

  /** The handles of a map are those of the rest and that of one name more. */
  lemma HandlesSplit(tasks: map<string, nat>, x: string)
    requires x in tasks
    ensures Handles(tasks) == Handles(tasks - {x}) + {tasks[x]}
  {
    var rest := tasks - {x};
    forall h | h in Handles(tasks) ensures h in Handles(rest) + {tasks[x]} {
      var n :| n in tasks && tasks[n] == h;
      if n != x {
        assert n in rest && rest[n] == h;
      }
    }
  }

  lemma {:induction false} MapSize(tasks: map<string, nat>)
    requires forall m, n | m in tasks && n in tasks && m != n :: tasks[m] != tasks[n]
    ensures |Handles(tasks)| == |tasks|
  {
    if tasks.Keys == {} {
      assert Handles(tasks) == {};
    } else {
      var x :| x in tasks;
      var rest := tasks - {x};
      MapSize(rest);
      HandlesSplit(tasks, x);
      assert tasks[x] !in Handles(rest);
      assert tasks.Keys == rest.Keys + {x};
    }
  }

  lemma {:induction false} EitherLiveOrRemoved(arena: seq<TaskState>)
    ensures |LiveSet(arena)| + |RemovedSet(arena)| == |arena|
  {
    if arena != [] {
      var n := |arena| - 1;
      var init := arena[..n];
      EitherLiveOrRemoved(init);
      assert forall h | 0 <= h < n :: init[h] == arena[h];
      if arena[n].removed {
        assert LiveSet(arena) == LiveSet(init);
        assert RemovedSet(arena) == RemovedSet(init) + {n};
      } else {
        assert LiveSet(arena) == LiveSet(init) + {n};
        assert RemovedSet(arena) == RemovedSet(init);
      }
    } else {
      assert LiveSet(arena) == {} && RemovedSet(arena) == {};
    }
  }

  /** The size of the map is the number of tasks that are not removed. */
  lemma LiveCount(arena: seq<TaskState>, tasks: map<string, nat>)
    requires Registered(arena, tasks)
    ensures |tasks| == |LiveSet(arena)|
  {
    forall h | h in LiveSet(arena) ensures h in Handles(tasks) {
      assert tasks[arena[h].name] == h;
    }
    assert LiveSet(arena) == Handles(tasks);
    MapSize(tasks);
  }

  /** The task count of a snapshot is the number of live tasks: all ever created minus the removed ones. */
  lemma TasksConserved(r: seq<System>, steps: seq<Step>, k: nat)
    requires Run(r, steps) && k < |r|
    ensures |r[k].st.tasks| == |LiveSet(r[k].st.arena)|
    ensures |r[k].st.tasks| + |RemovedSet(r[k].st.arena)| == |r[k].st.arena|
  {
    RunRegistered(r, steps, k);
    LiveCount(r[k].st.arena, r[k].st.tasks);
    EitherLiveOrRemoved(r[k].st.arena);
  }

  /**
   Results decide, in every run: the event of a task that follows a recorded result is its
   completion iff the result was a success, and its being dropped iff the result was a failure
   and every limit configured at that moment was reached, counting the results and the time
   since the first delivery in the history itself. As long as nothing follows, it is live.
   */
  lemma ResultsDecide(r: seq<System>, steps: seq<Step>, k: nat, h: nat, j: nat)
    requires Run(r, steps) && k < |r| && h < |r[k].st.arena|
    requires j < |TaskLog(r[k].log, h)| && TaskLog(r[k].log, h)[j].Applied?
    ensures
      var log := TaskLog(r[k].log, h);
      && (log[j].success <==> j + 1 < |log| && Ends(log[j + 1], Completed))
      && (!log[j].success
          && LimitsReached(log[j].rc, Count(log[..j + 1], h, WasApplied), Elapsed(log[..j + 1], log[j].at))
          <==> j + 1 < |log| && Ends(log[j + 1], Exhausted))
      && (j + 1 == |log| ==> !r[k].st.arena[h].removed)
  {
    RunKept(r, steps, k, h);
    RuledDecides(TaskLog(r[k].log, h), h, r[k].st.arena[h].removed, j);
  }

  /** Nothing but a result completes a task or drops it as exhausted. */
  lemma OnlyResultsEnd(r: seq<System>, steps: seq<Step>, k: nat, h: nat, j: nat)
    requires Run(r, steps) && k < |r| && h < |r[k].st.arena|
    requires j < |TaskLog(r[k].log, h)| && EndsByResult(TaskLog(r[k].log, h)[j])
    ensures 0 < j && TaskLog(r[k].log, h)[j - 1].Applied?
  {
    RunKept(r, steps, k, h);
  }

  // ---- both limits ----

  lemma {:induction false} InWholeLog(log: seq<Event>, h: nat, e: Event)
    requires e in TaskLog(log, h)
    ensures e in log
  {
    if e != log[|log| - 1] {
      InWholeLog(log[..|log| - 1], h, e);
    }
  }

  lemma NewResultPolicy(s: QState, step: Step, e: Event)
    requires WellFormed(s) && Enabled(s, step) && e in Events(s, step) && e.Applied?
    ensures e.rc == s.q.retryConfig
  {
  }

  /** The policy a result met is that of some earlier state. */
  lemma {:induction false} PolicyOfResult(r: seq<System>, steps: seq<Step>, k: nat, e: Event) returns (i: nat)
    requires Run(r, steps) && k < |r| && e in r[k].log && e.Applied?
    ensures i < k && e.rc == r[i].st.q.retryConfig
  {
    assert k > 0;
    assert StepAt(r, steps, k - 1);
    if e in r[k - 1].log {
      i := PolicyOfResult(r, steps, k - 1, e);
    } else {
      NewResultPolicy(r[k - 1].st, steps[k - 1], e);
      i := k - 1;
    }
  }

  /** The retry configuration sets both limits throughout a run. */
  ghost predicate AlwaysBoth(r: seq<System>, m: int, duration: int) {
    && m != -1 && duration > 0
    && forall k | 0 <= k < |r| ::
         r[k].st.q.retryConfig.maxAttempts == m && r[k].st.q.retryConfig.maxRetryDuration == duration
  }

  /**
   With both limits set throughout, a task dropped as exhausted had at least m results and had
   been tried for at least the retry duration: either limit alone does not stop it.
   */
  lemma BothLimitsBind(r: seq<System>, steps: seq<Step>, k: nat, h: nat, j: nat, m: int, duration: int)
    requires Run(r, steps) && k < |r| && h < |r[k].st.arena| && AlwaysBoth(r, m, duration)
    requires j < |TaskLog(r[k].log, h)| && Ends(TaskLog(r[k].log, h)[j], Exhausted)
    ensures
      var log := TaskLog(r[k].log, h);
      && 0 < j && log[j - 1].Applied?
      && m <= Wrap32(Count(log[..j], h, WasApplied))
      && FirstDispatch(log[..j]).Some? && duration <= log[j - 1].at - FirstDispatch(log[..j]).value
  {
    OnlyResultsEnd(r, steps, k, h, j);
    ResultsDecide(r, steps, k, h, j - 1);
    var log := TaskLog(r[k].log, h);
    var e := log[j - 1];
    InWholeLog(r[k].log, h, e);
    var i := PolicyOfResult(r, steps, k, e);
    assert LimitsReached(e.rc, Count(log[..j], h, WasApplied), Elapsed(log[..j], e.at));
  }

  // ---- bounded delivery ----

  /** The retry configuration allows m attempts throughout a run. */
  ghost predicate AlwaysAllows(r: seq<System>, m: int) {
    forall k | 0 <= k < |r| :: Allows(r[k].st.q.retryConfig, m)
  }

  lemma LimitedStep(sys: System, step: Step, h: nat, m: int)
    requires Sound(sys.st) && Enabled(sys.st, step) && h < |sys.st.arena|
    requires Allows(sys.st.q.retryConfig, m) && Kept(LifeOf(sys, h), EnvOf(sys.st)) && Limited(LifeOf(sys, h), m)
    ensures h < |Next(sys, step).st.arena| && Limited(LifeOf(Next(sys, step), h), m)
  {
    StepProjects(sys, step, h);
    LimitedAct(LifeOf(sys, h), EnvOf(sys.st), ActionOf(sys.st, step, h), m);
  }

  lemma LimitedAtBirth(sys: System, step: Step, h: nat, m: int)
    requires Sound(sys.st) && Enabled(sys.st, step) && Bounded(sys.log, |sys.st.arena|) && m >= 1
    requires |sys.st.arena| <= h < |Next(sys, step).st.arena|
    ensures Limited(LifeOf(Next(sys, step), h), m)
  {
    OnlyCreateAdds(sys, step, h);
    LimitedBorn(h, FreshTask(step.task), EnvOf(sys.st), m);
  }

  lemma AllowsAt(r: seq<System>, m: int, k: nat)
    requires AlwaysAllows(r, m) && k < |r|
    ensures Allows(r[k].st.q.retryConfig, m)
  {
  }

  lemma {:induction false} RunLimited(r: seq<System>, steps: seq<Step>, k: nat, h: nat, m: int)
    requires Run(r, steps) && k < |r| && h < |r[k].st.arena| && AlwaysAllows(r, m)
    ensures Limited(LifeOf(r[k], h), m)
  {
    if k > 0 {
      var sys, step := r[k - 1], steps[k - 1];
      RunFollows(r, steps, k - 1);
      AllowsAt(r, m, k - 1);
      if h < |sys.st.arena| {
        RunLimited(r, steps, k - 1, h, m);
        RunKept(r, steps, k - 1, h);
        LimitedStep(sys, step, h, m);
      } else {
        LimitedAtBirth(sys, step, h, m);
      }
    }
  }

  /**
   Bounded delivery: when the configuration allows m attempts throughout, a live task has had
   fewer than m results recorded and any task at most m, deliveries started are at most m plus
   the RunTask calls, and a task dropped for exhausted retries had exactly m results recorded
   and, if it was never run, exactly m deliveries.
   */
  lemma BoundedDelivery(r: seq<System>, steps: seq<Step>, k: nat, h: nat, m: int)
    requires Run(r, steps) && k < |r| && h < |r[k].st.arena| && AlwaysAllows(r, m)
    ensures !r[k].st.arena[h].removed ==>
              r[k].st.arena[h].dispatchCount == Count(r[k].log, h, WasApplied) < m
    ensures Count(r[k].log, h, WasApplied) <= m
    ensures Count(r[k].log, h, WasStarted) <= m + Count(r[k].log, h, WasRun)
    ensures (exists j :: 0 <= j < |TaskLog(r[k].log, h)| && Ends(TaskLog(r[k].log, h)[j], Exhausted)) ==>
              && r[k].st.arena[h].removed && Count(r[k].log, h, WasApplied) == m
              && (Count(r[k].log, h, WasRun) == 0 ==> Count(r[k].log, h, WasStarted) == m)
  {
    RunLimited(r, steps, k, h, m);
    RunKept(r, steps, k, h);
    CountersEqualHistory(r, steps, k, h);
    CountInTaskLog(r[k].log, h, WasApplied);
    CountInTaskLog(r[k].log, h, WasStarted);
    CountInTaskLog(r[k].log, h, WasRun);
    assert Allows(r[k].st.q.retryConfig, m);
  }

  // ---- age ----

  /** The clock never passes a TTL timer that has not been handled. */
  ghost predicate Prompt(r: seq<System>, steps: seq<Step>)
    requires Path(r, steps)
  {
    forall k | 0 <= k < |steps| && steps[k].Tick? ::
      forall h | h in r[k].st.ttls :: steps[k].to <= r[k].st.ttls[h].due
  }

  lemma StepAge(s: QState, step: Step, h: nat)
    requires WellFormed(s) && Enabled(s, step) && h < |s.arena|
    ensures NextState(s, step).now == if step.Tick? then step.to else s.now
    ensures step.Tick? ==> ActionOf(s, step, h) == Rest
  {
    ConfigKept(s, step);
  }

  lemma YoungStep(sys: System, step: Step, h: nat)
    requires Sound(sys.st) && Enabled(sys.st, step) && h < |sys.st.arena|
    requires Kept(LifeOf(sys, h), EnvOf(sys.st))
    requires Young(LifeOf(sys, h), sys.st.now, EffectiveTaskTTL(sys.st.q, sys.st.eng))
    requires step.Tick? && h in sys.st.ttls ==> step.to <= sys.st.ttls[h].due
    ensures h < |Next(sys, step).st.arena|
    ensures Young(LifeOf(Next(sys, step), h), Next(sys, step).st.now, EffectiveTaskTTL(sys.st.q, sys.st.eng))
  {
    StepProjects(sys, step, h);
    StepAge(sys.st, step, h);
    YoungAct(LifeOf(sys, h), EnvOf(sys.st), ActionOf(sys.st, step, h), Next(sys, step).st.now,
             EffectiveTaskTTL(sys.st.q, sys.st.eng));
  }

  lemma YoungAtBirth(sys: System, step: Step, h: nat)
    requires Sound(sys.st) && Enabled(sys.st, step) && Bounded(sys.log, |sys.st.arena|)
    requires |sys.st.arena| <= h < |Next(sys, step).st.arena|
    ensures Young(LifeOf(Next(sys, step), h), sys.st.now, EffectiveTaskTTL(sys.st.q, sys.st.eng)) && !step.Tick?
  {
    OnlyCreateAdds(sys, step, h);
    YoungBorn(h, FreshTask(step.task), EnvOf(sys.st));
  }

  /** One step, whether the task is new or not. */
  lemma YoungFollows(sys: System, step: Step, next: System, h: nat)
    requires Follows(sys, step, next) && Sound(sys.st) && Bounded(sys.log, |sys.st.arena|) && h < |next.st.arena|
    requires h < |sys.st.arena| ==> Kept(LifeOf(sys, h), EnvOf(sys.st))
    requires h < |sys.st.arena| ==> Young(LifeOf(sys, h), sys.st.now, EffectiveTaskTTL(sys.st.q, sys.st.eng))
    requires step.Tick? && h in sys.st.ttls ==> step.to <= sys.st.ttls[h].due
    ensures Young(LifeOf(next, h), next.st.now, EffectiveTaskTTL(next.st.q, next.st.eng))
  {
    ConfigKept(sys.st, step);
    if h < |sys.st.arena| {
      YoungStep(sys, step, h);
    } else {
      YoungAtBirth(sys, step, h);
    }
  }

  lemma {:induction false} RunYoung(r: seq<System>, steps: seq<Step>, k: nat, h: nat)
    requires Run(r, steps) && Prompt(r, steps) && k < |r| && h < |r[k].st.arena|
    ensures Young(LifeOf(r[k], h), r[k].st.now, EffectiveTaskTTL(r[k].st.q, r[k].st.eng))
  {
    if k > 0 {
      var sys, step := r[k - 1], steps[k - 1];
      RunFollows(r, steps, k - 1);
      if h < |sys.st.arena| {
        RunYoung(r, steps, k - 1, h);
        RunKept(r, steps, k - 1, h);
      }
      assert step.Tick? && h in sys.st.ttls ==> step.to <= sys.st.ttls[h].due;
      YoungFollows(sys, step, r[k], h);
    }
  }

  /** In a prompt run no live task is older than the effective task TTL. */
  lemma NoLiveTaskOutlivesTTL(r: seq<System>, steps: seq<Step>, k: nat, h: nat)
    requires Run(r, steps) && Prompt(r, steps) && k < |r| && h < |r[k].st.arena|
    requires !r[k].st.arena[h].removed
    ensures
      var log := TaskLog(r[k].log, h);
      && log != [] && log[0].Created?
      && r[k].st.now <= log[0].at + (if r[k].st.q.taskTTL > 0 then r[k].st.q.taskTTL else Max(0, r[k].st.eng.taskTTL))
  {
    RunYoung(r, steps, k, h);
  }

  // ---- pause ----

  /** A timer-driven continuation that has captured the limits of the queue. */
  predicate PastGate(p: Phase) {
    p.AtLimiter? || p.AtSemaphore? || p.Admitted? || (p.InFlight? && p.slot.Some?)
  }

  predicate IsPastGate(conts: map<nat, Cont>, i: nat) {
    i in conts && PastGate(conts[i].phase)
  }

  lemma ClosedGateAct(l: Life, e: Env, a: Action, i: nat)
    requires Allowed(l, e, a) && e.q.state != Running
    requires i in Act(l, e, a).mine && PastGate(Act(l, e, a).mine[i])
    ensures i in l.mine && PastGate(l.mine[i])
  {
    if a.Settle? && !l.t.removed {
      var t := Record(l.t, a.o, a.dispatchTime);
      ClosedGateSettle(l, e, a.i, t, a.o, Judge(e.q.retryConfig, e.now, t, a.o), i);
    }
  }

  lemma ClosedGateSettle(l: Life, e: Env, j: nat, t: TaskState, o: Dispatch.Outcome, v: Verdict, i: nat)
    requires j in l.mine
    requires i in SettleLife(l, e, j, t, o, v).mine && PastGate(SettleLife(l, e, j, t, o, v).mine[i])
    ensures i in l.mine && PastGate(l.mine[i])
  {
  }

  lemma BornBeforeGate(h: nat, t: TaskState, e: Env, i: nat)
    requires i in Born(h, t, e).mine
    ensures !PastGate(Born(h, t, e).mine[i])
  {
  }

  /** While the queue does not run, no step brings a continuation past the gate. */
  lemma ClosedGate(sys: System, step: Step, i: nat)
    requires Sound(sys.st) && Bounded(sys.log, |sys.st.arena|) && Enabled(sys.st, step) && sys.st.q.state != Running
    requires IsPastGate(Next(sys, step).st.conts, i)
    ensures IsPastGate(sys.st.conts, i)
  {
    var next := Next(sys, step);
    var h := next.st.conts[i].task;
    var l' := LifeOf(next, h);
    assert i in l'.mine && PastGate(l'.mine[i]);
    if h < |sys.st.arena| {
      StepProjects(sys, step, h);
      ClosedGateAct(LifeOf(sys, h), EnvOf(sys.st), ActionOf(sys.st, step, h), i);
    } else {
      OnlyCreateAdds(sys, step, h);
      BornBeforeGate(h, FreshTask(step.task), EnvOf(sys.st), i);
    }
  }

  lemma TimerStartsPastGate(s: QState, step: Step, n: nat)
    requires WellFormed(s) && Enabled(s, step) && n < |Events(s, step)|
    requires Events(s, step)[n].Started? && Events(s, step)[n].byTimer
    ensures IsPastGate(s.conts, Events(s, step)[n].cont)
  {
  }

  /** Every continuation past the gate was so in some earlier state, and every timer-driven start after n too. */
  ghost predicate GatedSince(sys: System, conts: map<nat, Cont>, n: nat) {
    && n <= |sys.log|
    && (forall i | IsPastGate(sys.st.conts, i) :: IsPastGate(conts, i))
    && (forall j | n <= j < |sys.log| && sys.log[j].Started? && sys.log[j].byTimer :: IsPastGate(conts, sys.log[j].cont))
  }

  lemma GateStaysClosed(sys: System, step: Step, conts: map<nat, Cont>)
    requires Sound(sys.st) && Bounded(sys.log, |sys.st.arena|) && Enabled(sys.st, step) && sys.st.q.state != Running
    requires forall i | IsPastGate(sys.st.conts, i) :: IsPastGate(conts, i)
    ensures forall i | IsPastGate(Next(sys, step).st.conts, i) :: IsPastGate(conts, i)
  {
    forall i | IsPastGate(Next(sys, step).st.conts, i) ensures IsPastGate(conts, i) {
      ClosedGate(sys, step, i);
    }
  }

  lemma GatedStep(sys: System, step: Step, conts: map<nat, Cont>, n: nat)
    requires Sound(sys.st) && Bounded(sys.log, |sys.st.arena|) && Enabled(sys.st, step) && sys.st.q.state != Running
    requires GatedSince(sys, conts, n)
    ensures GatedSince(Next(sys, step), conts, n)
  {
    GateStaysClosed(sys, step, conts);
    var log := sys.log + Events(sys.st, step);
    forall j | n <= j < |log| && log[j].Started? && log[j].byTimer ensures IsPastGate(conts, log[j].cont) {
      if j >= |sys.log| {
        TimerStartsPastGate(sys.st, step, j - |sys.log|);
      }
    }
  }

  /**
   Pause safety: over a stretch from a to k of a run in which the queue stays paused or
   disabled, every delivery that starts comes from RunTask or from a continuation that was past
   the gate when the stretch began.
   */
  lemma {:induction false} PauseSafety(r: seq<System>, steps: seq<Step>, a: nat, k: nat)
    requires Run(r, steps) && a <= k < |r|
    requires forall j | a <= j <= k :: r[j].st.q.state != Running
    ensures GatedSince(r[k], r[a].st.conts, |r[a].log|)
    decreases k
  {
    if k > a {
      var sys, step := r[k - 1], steps[k - 1];
      PauseSafety(r, steps, a, k - 1);
      RunSound(r, steps, k - 1);
      RunBounded(r, steps, k - 1);
      assert StepAt(r, steps, k - 1);
      assert sys.st.q.state != Running;
      GatedStep(sys, step, r[a].st.conts, |r[a].log|);
    }
  }
}
