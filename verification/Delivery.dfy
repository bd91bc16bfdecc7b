/**
 Which tasks will still be delivered: exactly those that are not on their last attempt. Held
 tasks are dispatchable on resume, a failing target is tried to the end, and with both limits
 set a task is tried past either of them.
 */
module Delivery {
  import opened Wrappers
  import opened FixedWidth
  import opened Types
  import opened Lifecycle
  import opened History
  import opened Life
  import opened Projection
  import opened Lives
  import opened Tracking
  import opened Counters
  import opened Bounds
  import opened Guarantees
  import opened Progress
  import Dispatch
  import RetryPolicy

  ghost predicate IsLivePush(s: QState, h: nat) {
    h < |s.arena| && !s.arena[h].removed && IsPushTask(s, h)
  }

  /** A new delivery of h can come about without an API call. */
  ghost predicate CanStart(sys: System, h: nat) {
    exists next :: Unfolds(sys, next) && Count(next.log, h, WasStarted) > Count(sys.log, h, WasStarted)
  }

  lemma HereOn(sys: System)
    requires Reachable(sys) && sys.st.q.state == Running
    ensures On(sys, sys)
  {
    SoundHere(sys);
    UnfoldsSelf(sys);
  }

  lemma DeliversStarts(a: System, sys: System, next: System, h: nat)
    requires On(a, next) && h < |sys.st.arena| && Delivers(sys, next, h)
    requires Count(sys.log, h, WasStarted) >= Count(a.log, h, WasStarted)
    ensures CanStart(a, h)
  {
    CountInTaskLog(sys.log, h, WasStarted);
    CountInTaskLog(next.log, h, WasStarted);
  }

  // ---- a delivery under way ----

  /** The time a task has been tried for, once a result is recorded at this moment. */
  function TriedFor(t: TaskState, now: int): int {
    match t.firstAttemptTime
    case Some(first) => now - first
    case None => 0
  }

  /** A failure recorded now would be retried. */
  predicate HasNextAttempt(rc: RetryConfig, t: TaskState, now: int) {
    RetryPolicy.ShouldRetry(rc, Wrap32(t.dispatchCount + 1), TriedFor(t, now))
  }

  /** The delivery under way fails. */
  lemma FailNow(a: System, sys: System, h: nat, i: nat, p: Phase, o: Dispatch.Outcome) returns (next: System)
    requires On(a, sys) && Standing(sys.st, h, i, p) && p.InFlight?
    ensures On(a, next) && next.st.q == sys.st.q && h < |next.st.arena|
    ensures
      var l, e := LifeOf(sys, h), EnvOf(sys.st);
      Allowed(l, e, Settle(i, o, e.now)) && LifeOf(next, h) == Act(l, e, Settle(i, o, e.now))
  {
    KeptHere(sys, h);
    assert i in LifeOf(sys, h).mine;
    next := Go(a, sys, ApplyStep(i, o, sys.st.now));
    StepProjects(sys, ApplyStep(i, o, sys.st.now), h);
  }

  /** What a failure leaves of a task that was never run by RunTask. */
  ghost predicate Failed(l: Life, l': Life, again: bool) {
    && l'.t.removed == !again && l'.t.pull == l.t.pull
    && l'.t.dispatchCount == Wrap32(l.t.dispatchCount + 1)
    && (again ==> Flying(l'.mine) == {})
    && Count(l'.log, l.h, WasStarted) == Count(l.log, l.h, WasStarted)
    && Count(l'.log, l.h, WasApplied) == Count(l.log, l.h, WasApplied) + 1
    && Count(l'.log, l.h, WasRun) == Count(l.log, l.h, WasRun)
    && (!again ==> l'.log != [] && Ends(l'.log[|l'.log| - 1], Exhausted))
  }

  lemma FailedRetry(l: Life, e: Env, i: nat, t: TaskState, o: Dispatch.Outcome, delay: int)
    requires Pending(l.mine) == {i} && i in l.mine && e.nextId !in l.mine && !t.removed && t.pull == l.t.pull
    requires t.dispatchCount == Wrap32(l.t.dispatchCount + 1)
    ensures Failed(l, SettleLife(l, e, i, t, o, Retry(delay)), true)
  {
    CountsAppend(l.log, AppliedEvent(l, e, t, o, Retry(delay)), l.h);
    FinishedSets(l.mine, i);
    assert Flying(l.mine) <= Pending(l.mine);
    var f := Finished(l.mine, i);
    assert Flying(f) == {};
    FlyingKept(f, e.nextId, Armed(Max(e.now, e.now + delay)));
  }

  lemma FailedDrop(l: Life, e: Env, i: nat, t: TaskState, o: Dispatch.Outcome)
    requires i in l.mine && t.pull == l.t.pull && t.dispatchCount == Wrap32(l.t.dispatchCount + 1)
    ensures Failed(l, SettleLife(l, e, i, t, o, Exhaust), false)
  {
    var ev := AppliedEvent(l, e, t, o, Exhaust);
    CountsAppend(l.log, ev, l.h);
    CountsAppend(l.log + [ev], Removed(l.h, t.name, Exhausted, EffectiveTombstoneTTL(e.q, e.eng), e.now), l.h);
  }

  lemma FailedLife(l: Life, e: Env, i: nat, o: Dispatch.Outcome)
    requires Allowed(l, e, Settle(i, o, e.now)) && !l.t.removed && !Dispatch.IsSuccess(o)
    requires Pending(l.mine) == {i} && e.nextId !in l.mine
    ensures Failed(l, Act(l, e, Settle(i, o, e.now)), HasNextAttempt(e.q.retryConfig, l.t, e.now))
  {
    var t := Record(l.t, o, e.now);
    var v := Judge(e.q.retryConfig, e.now, t, o);
    assert v.Retry? <==> HasNextAttempt(e.q.retryConfig, l.t, e.now);
    if v.Retry? {
      FailedRetry(l, e, i, t, o, v.delay);
    } else {
      FailedDrop(l, e, i, t, o);
    }
  }

  /** The one continuation of a task that was never run by RunTask. */
  lemma OnlyPending(sys: System, h: nat) returns (i: nat, p: Phase)
    requires Reachable(sys) && IsLivePush(sys.st, h) && Count(sys.log, h, WasRun) == 0
    ensures Standing(sys.st, h, i, p) && !p.Returning? && Pending(LifeOf(sys, h).mine) == {i}
    ensures Idle(sys.st, h) <==> !p.InFlight?
  {
    KeptHere(sys, h);
    CountInTaskLog(sys.log, h, WasRun);
    i, p := SomePending(sys, h);
    var mine := LifeOf(sys, h).mine;
    assert i in Pending(mine) && |Pending(mine) - {i}| == 0;
    IdleLife(sys, h);
    assert Flying(mine) <= Pending(mine);
  }

  /** One failure of a task whose delivery is under way. */
  lemma FailOnce(a: System, sys: System, h: nat, o: Dispatch.Outcome) returns (next: System)
    requires On(a, sys) && IsLivePush(sys.st, h) && Count(sys.log, h, WasRun) == 0 && !Idle(sys.st, h)
    requires !Dispatch.IsSuccess(o)
    ensures On(a, next) && next.st.q == sys.st.q && h < |next.st.arena|
    ensures Failed(LifeOf(sys, h), LifeOf(next, h), HasNextAttempt(sys.st.q.retryConfig, sys.st.arena[h], sys.st.now))
  {
    var i, p := OnlyPending(sys, h);
    next := FailNow(a, sys, h, i, p, o);
    FreshForLife(sys, h);
    FailedLife(LifeOf(sys, h), EnvOf(sys.st), i, o);
  }

  lemma FailedAgain(sys: System, next: System, h: nat)
    requires IsLivePush(sys.st, h) && h < |next.st.arena| && next.st.q == sys.st.q
    requires Failed(LifeOf(sys, h), LifeOf(next, h), true) && Count(sys.log, h, WasRun) == 0
    ensures IsLivePush(next.st, h) && Idle(next.st, h) && Count(next.log, h, WasRun) == 0
    ensures Count(next.log, h, WasStarted) == Count(sys.log, h, WasStarted)
  {
    IdleLife(next, h);
    CountInTaskLog(sys.log, h, WasRun);
    CountInTaskLog(next.log, h, WasRun);
    CountInTaskLog(sys.log, h, WasStarted);
    CountInTaskLog(next.log, h, WasStarted);
  }

  // ---- the last attempt ----

  /** The task is gone, or its last attempt is under way. */
  ghost predicate Doomed(l: Life, rc: RetryConfig, now: int) {
    || l.t.removed
    || ((exists i :: Pending(l.mine) == {i} && i in l.mine && l.mine[i].InFlight?) && !HasNextAttempt(rc, l.t, now))
  }

  lemma DoomedLater(l: Life, rc: RetryConfig, now: int, later: int)
    requires Doomed(l, rc, now) && now <= later
    ensures Doomed(l, rc, later)
  {
  }

  lemma DoomedSettle(l: Life, e: Env, i: nat, o: Dispatch.Outcome, dispatchTime: int)
    requires Doomed(l, e.q.retryConfig, e.now) && !l.t.removed && Allowed(l, e, Settle(i, o, dispatchTime))
    ensures
      var l' := Act(l, e, Settle(i, o, dispatchTime));
      l'.t.removed && Count(l'.log, l.h, WasStarted) == Count(l.log, l.h, WasStarted)
  {
    var t := Record(l.t, o, dispatchTime);
    var v := Judge(e.q.retryConfig, e.now, t, o);
    assert !v.Retry?;
    DropStartsNothing(l, e, i, t, o, v);
  }

  lemma DropStartsNothing(l: Life, e: Env, i: nat, t: TaskState, o: Dispatch.Outcome, v: Verdict)
    requires i in l.mine && !v.Retry?
    ensures
      var l' := SettleLife(l, e, i, t, o, v);
      l'.t.removed && Count(l'.log, l.h, WasStarted) == Count(l.log, l.h, WasStarted)
  {
    var ev := AppliedEvent(l, e, t, o, v);
    CountsAppend(l.log, ev, l.h);
    var reason := if v.Complete? then Completed else Exhausted;
    CountsAppend(l.log + [ev], Removed(l.h, t.name, reason, EffectiveTombstoneTTL(e.q, e.eng), e.now), l.h);
  }

  /** Everything of a task on its last attempt is that attempt, or only returns a token. */
  lemma NothingElseWaits(l: Life, rc: RetryConfig, now: int)
    requires Doomed(l, rc, now) && !l.t.removed
    ensures forall i | i in l.mine :: l.mine[i].InFlight? || l.mine[i].Returning?
  {
    forall i | i in l.mine && !l.mine[i].Returning? ensures l.mine[i].InFlight? {
      assert i in Pending(l.mine);
    }
  }

  /** The action starts no delivery and the task stays without a next attempt. */
  lemma DoomedAct(l: Life, e: Env, a: Action)
    requires Doomed(l, e.q.retryConfig, e.now) && Allowed(l, e, a) && a != Force
    ensures Doomed(Act(l, e, a), e.q.retryConfig, e.now)
    ensures Count(Act(l, e, a).log, l.h, WasStarted) == Count(l.log, l.h, WasStarted)
  {
    var l' := Act(l, e, a);
    if !l.t.removed {
      NothingElseWaits(l, e.q.retryConfig, e.now);
    }
    if a.Settle? && !l.t.removed {
      DoomedSettle(l, e, a.i, a.o, a.dispatchTime);
    } else if a.GiveBack? && !l.t.removed {
      PendingRemove(l.mine, {a.i});
      assert Pending(l'.mine) == Pending(l.mine);
    } else if l'.log != l.log {
      CountsAppend(l.log, l'.log[|l.log|], l.h);
    }
  }

  lemma DoomedStep(sys: System, step: Step, h: nat)
    requires Sound(sys.st) && Enabled(sys.st, step) && Internal(step) && h < |sys.st.arena|
    requires Doomed(LifeOf(sys, h), sys.st.q.retryConfig, sys.st.now)
    ensures h < |Next(sys, step).st.arena|
    ensures Doomed(LifeOf(Next(sys, step), h), Next(sys, step).st.q.retryConfig, Next(sys, step).st.now)
    ensures Count(TaskLog(Next(sys, step).log, h), h, WasStarted) == Count(TaskLog(sys.log, h), h, WasStarted)
  {
    StepProjects(sys, step, h);
    InternalKeepsQueue(sys.st, step);
    NotForced(sys.st, step, h);
    DoomedAct(LifeOf(sys, h), EnvOf(sys.st), ActionOf(sys.st, step, h));
    DoomedLater(LifeOf(Next(sys, step), h), sys.st.q.retryConfig, sys.st.now, Next(sys, step).st.now);
  }

  lemma NotForced(s: QState, step: Step, h: nat)
    requires WellFormed(s) && Enabled(s, step) && Internal(step) && h < |s.arena|
    ensures ActionOf(s, step, h) != Force
  {
  }

  lemma {:induction false} DoomedPath(r: seq<System>, steps: seq<Step>, k: nat, h: nat)
    requires InternalPath(r, steps) && k < |r| && Sound(r[0].st) && h < |r[0].st.arena|
    requires Doomed(LifeOf(r[0], h), r[0].st.q.retryConfig, r[0].st.now)
    ensures Sound(r[k].st) && h < |r[k].st.arena|
    ensures Doomed(LifeOf(r[k], h), r[k].st.q.retryConfig, r[k].st.now)
    ensures Count(TaskLog(r[k].log, h), h, WasStarted) == Count(TaskLog(r[0].log, h), h, WasStarted)
  {
    if k > 0 {
      DoomedPath(r, steps, k - 1, h);
      assert StepAt(r, steps, k - 1);
      assert Internal(steps[k - 1]);
      SoundStep(r[k - 1].st, steps[k - 1]);
      DoomedStep(r[k - 1], steps[k - 1], h);
    }
  }

  lemma DoomedNeverStarts(sys: System, h: nat)
    requires Sound(sys.st) && h < |sys.st.arena|
    requires Doomed(LifeOf(sys, h), sys.st.q.retryConfig, sys.st.now)
    ensures !CanStart(sys, h)
  {
    forall next | Unfolds(sys, next) ensures Count(next.log, h, WasStarted) == Count(sys.log, h, WasStarted) {
      var r, steps :| InternalPath(r, steps) && r[0] == sys && r[|r| - 1] == next;
      DoomedPath(r, steps, |r| - 1, h);
      CountInTaskLog(sys.log, h, WasStarted);
      CountInTaskLog(next.log, h, WasStarted);
    }
  }

  /**
   From every reachable state of a running queue, a live push task that was never run by RunTask
   can be delivered anew without an API call if and only if it is not being delivered, or the
   policy would retry it if that delivery failed now.
   */
  lemma DeliverableIff(sys: System, h: nat)
    requires Reachable(sys) && sys.st.q.state == Running && IsLivePush(sys.st, h) && Count(sys.log, h, WasRun) == 0
    ensures CanStart(sys, h) <==> Idle(sys.st, h) || HasNextAttempt(sys.st.q.retryConfig, sys.st.arena[h], sys.st.now)
  {
    HereOn(sys);
    if Idle(sys.st, h) {
      var next := AlwaysDeliverable(sys, sys, h);
      DeliversStarts(sys, sys, next, h);
    } else if HasNextAttempt(sys.st.q.retryConfig, sys.st.arena[h], sys.st.now) {
      var mid := FailOnce(sys, sys, h, Dispatch.TransportFailed(""));
      FailedAgain(sys, mid, h);
      var next := AlwaysDeliverable(sys, mid, h);
      DeliversStarts(sys, mid, next, h);
    } else {
      var i, p := OnlyPending(sys, h);
      assert i in LifeOf(sys, h).mine && LifeOf(sys, h).mine[i] == p;
      DoomedNeverStarts(sys, h);
    }
  }

  // ---- resume ----

  lemma ResumeKeeps(sys: System, h: nat)
    requires Reachable(sys) && WellFormed(sys.st) && h < |sys.st.arena|
    ensures
      var resumed := Next(sys, SetStateStep(Running));
      && Reachable(resumed) && resumed.st == sys.st.(q := sys.st.q.(state := Running)) && resumed.log == sys.log
  {
    ReachableNext(sys, SetStateStep(Running));
    assert sys.log + [] == sys.log;
  }

  /**
   Held tasks remain dispatchable: from every state of every run, paused or disabled at will,
   resuming the queue lets every live push task that is not being delivered be delivered, from
   whatever phase its continuation is in and without any further call. A task that is being
   delivered, and that RunTask never ran, can be delivered once more exactly when the policy
   would retry it.
   */
  lemma ResumeDelivers(r: seq<System>, steps: seq<Step>, k: nat, h: nat)
    requires Run(r, steps) && k < |r| && IsLivePush(r[k].st, h)
    ensures WellFormed(r[k].st)
    ensures Idle(r[k].st, h) ==> CanStart(Next(r[k], SetStateStep(Running)), h)
    ensures Count(r[k].log, h, WasRun) == 0 ==>
              (CanStart(Next(r[k], SetStateStep(Running)), h)
               <==> Idle(r[k].st, h) || HasNextAttempt(r[k].st.q.retryConfig, r[k].st.arena[h], r[k].st.now))
  {
    StateReachable(r, steps, k);
    ReachableWellFormed(r[k]);
    ResumeKeeps(r[k], h);
    var resumed := Next(r[k], SetStateStep(Running));
    if Idle(r[k].st, h) {
      HereOn(resumed);
      var next := AlwaysDeliverable(resumed, resumed, h);
      DeliversStarts(resumed, resumed, next, h);
    }
    if Count(r[k].log, h, WasRun) == 0 {
      DeliverableIff(resumed, h);
    }
  }

  lemma StateReachable(r: seq<System>, steps: seq<Step>, k: nat)
    requires Run(r, steps) && k < |r|
    ensures Reachable(r[k])
  {
    var r', steps' := r[..k + 1], steps[..k];
    forall j | 0 <= j < k ensures StepAt(r', steps', j) {
      assert StepAt(r, steps, j);
    }
    assert Run(r', steps') && r'[|r'| - 1] == r[k];
  }

  // ---- a target that always fails ----

  /** Tries the task to its end, with a failing outcome at every attempt. */
  lemma {:induction false} TryOut(a: System, sys: System, h: nat, o: Dispatch.Outcome, m: int) returns (end: System)
    requires On(a, sys) && IsLivePush(sys.st, h) && Count(sys.log, h, WasRun) == 0 && !Dispatch.IsSuccess(o)
    requires Allows(sys.st.q.retryConfig, m) && 0 <= sys.st.arena[h].dispatchCount < m
    ensures On(a, end) && h < |end.st.arena| && end.st.arena[h].removed
    ensures TaskLog(end.log, h) != [] && Ends(TaskLog(end.log, h)[|TaskLog(end.log, h)| - 1], Exhausted)
    ensures Count(TaskLog(end.log, h), h, WasApplied) ==
            Count(TaskLog(sys.log, h), h, WasApplied) + m - sys.st.arena[h].dispatchCount
    ensures Count(TaskLog(end.log, h), h, WasStarted) == Count(TaskLog(end.log, h), h, WasApplied)
    decreases m - sys.st.arena[h].dispatchCount, if Idle(sys.st, h) then 1 else 0
  {
    if Idle(sys.st, h) {
      var next := AlwaysDeliverable(a, sys, h);
      CountInTaskLog(sys.log, h, WasRun);
      CountInTaskLog(next.log, h, WasRun);
      end := TryOut(a, next, h, o, m);
    } else {
      var next := FailOnce(a, sys, h, o);
      OneUnderWay(sys, h);
      if sys.st.arena[h].dispatchCount + 1 < m {
        FailedAgain(sys, next, h);
        end := TryOut(a, next, h, o, m);
      } else {
        end := next;
      }
    }
  }

  /** Of a task that was never run, the delivery under way is the only one without a result. */
  lemma OneUnderWay(sys: System, h: nat)
    requires Reachable(sys) && IsLivePush(sys.st, h) && Count(sys.log, h, WasRun) == 0 && !Idle(sys.st, h)
    ensures Count(TaskLog(sys.log, h), h, WasStarted) == Count(TaskLog(sys.log, h), h, WasApplied) + 1
  {
    var i, p := OnlyPending(sys, h);
    KeptHere(sys, h);
    var mine := LifeOf(sys, h).mine;
    IdleLife(sys, h);
    assert Flying(mine) <= {i};
    assert Flying(mine) == {i};
  }

  /**
   From every state of every run whose configuration allows m attempts, and whatever the failing
   outcome, a live push task that was never run can be tried to its end once the queue runs:
   exactly m deliveries and m results in all, and then it is dropped as exhausted.
   */
  lemma FailingTaskExhausts(r: seq<System>, steps: seq<Step>, k: nat, h: nat, o: Dispatch.Outcome, m: int)
    returns (end: System)
    requires Run(r, steps) && k < |r| && AlwaysAllows(r, m) && IsLivePush(r[k].st, h)
    requires Count(r[k].log, h, WasRun) == 0 && !Dispatch.IsSuccess(o)
    ensures WellFormed(r[k].st) && Unfolds(Next(r[k], SetStateStep(Running)), end)
    ensures h < |end.st.arena| && end.st.arena[h].removed
    ensures TaskLog(end.log, h) != [] && Ends(TaskLog(end.log, h)[|TaskLog(end.log, h)| - 1], Exhausted)
    ensures Count(end.log, h, WasStarted) == Count(end.log, h, WasApplied) == m
  {
    StateReachable(r, steps, k);
    ReachableWellFormed(r[k]);
    ResumeKeeps(r[k], h);
    BoundedDelivery(r, steps, k, h, m);
    assert Allows(r[k].st.q.retryConfig, m);
    var resumed := Next(r[k], SetStateStep(Running));
    HereOn(resumed);
    end := TryOut(resumed, resumed, h, o, m);
    CountInTaskLog(r[k].log, h, WasApplied);
    CountInTaskLog(end.log, h, WasApplied);
    CountInTaskLog(end.log, h, WasStarted);
  }

  // ---- two small runs ----

  /** A running push queue with this retry configuration. */
  function QueueWith(rc: RetryConfig): Queue {
    Queue("q", Running, RateLimits(0.0, 0, 0), rc, 0, 0, false, None, None, None)
  }

  /** A queue with one task, which nothing has happened to yet. */
  lemma FirstTask(q: Queue, t: NewTask) returns (sys: System)
    requires t.createTime <= 0 && !t.pull && !q.pull && q.state == Running
    ensures On(sys, sys) && IsLivePush(sys.st, 0) && Idle(sys.st, 0) && sys.st.q == ApplyQueueDefaults(q)
    ensures sys.st.arena[0].firstAttemptTime.None? && sys.st.arena[0].dispatchCount == 0
    ensures Count(sys.log, 0, WasStarted) == Count(sys.log, 0, WasRun) == 0
  {
    var empty := System(NewQueueState(ApplyQueueDefaults(q), EngineConfig(1, 1, false), 0), []);
    ReachableNew(q, EngineConfig(1, 1, false), 0);
    ReachableNext(empty, CreateStep(t));
    sys := Next(empty, CreateStep(t));
    var created := Created(0, t.name, 0);
    assert sys.log == [] + [created];
    CountsAppend([], created, 0);
    HereOn(sys);
  }

  lemma FirstDelivery(q: Queue) returns (first: System, sys: System)
    requires !q.pull && q.state == Running
    ensures On(first, sys) && IsLivePush(sys.st, 0) && !Idle(sys.st, 0) && sys.st.q == ApplyQueueDefaults(q)
    ensures sys.st.arena[0].firstAttemptTime.None? && sys.st.arena[0].dispatchCount == 0
    ensures Count(sys.log, 0, WasStarted) == 1 && Count(sys.log, 0, WasRun) == 0
  {
    first := FirstTask(q, NewTask("t", false, None, 0));
    sys := AlwaysDeliverable(first, first, 0);
    CountInTaskLog(first.log, 0, WasRun);
    CountInTaskLog(sys.log, 0, WasRun);
    CountInTaskLog(first.log, 0, WasStarted);
    CountInTaskLog(sys.log, 0, WasStarted);
  }

  /**
   The documented rule is false of the code: with both limits set, one attempt allowed and ten
   seconds not over, a task that nobody ran by RunTask is delivered a second time.
   */
  lemma TriedPastMaxAttempts() returns (end: System)
    ensures Reachable(end) && end.st.q.retryConfig.maxAttempts == 1 && end.st.q.retryConfig.maxRetryDuration == 10 * SECOND
    ensures |end.st.arena| >= 1 && Count(end.log, 0, WasStarted) == 2 && Count(end.log, 0, WasRun) == 0
  {
    var first, s1 := FirstDelivery(QueueWith(RetryConfig(1, 10 * SECOND, 0, 0, 0)));
    var s2 := FailOnce(first, s1, 0, Dispatch.TransportFailed(""));
    FailedAgain(s1, s2, 0);
    end := AlwaysDeliverable(first, s2, 0);
    CountInTaskLog(s2.log, 0, WasRun);
    CountInTaskLog(end.log, 0, WasRun);
    CountInTaskLog(s2.log, 0, WasStarted);
    CountInTaskLog(end.log, 0, WasStarted);
  }

  /** Not every live task can be delivered anew: one attempt allowed, and that one under way. */
  lemma LastAttemptUnderWay() returns (sys: System)
    ensures Reachable(sys) && sys.st.q.state == Running && IsLivePush(sys.st, 0) && !CanStart(sys, 0)
  {
    var first;
    first, sys := FirstDelivery(QueueWith(RetryConfig(1, 0, 0, 0, 0)));
    DeliverableIff(sys, 0);
  }
}
