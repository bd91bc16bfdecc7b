/** Bounded delivery and bounded age of a task. */
module Bounds {
  import opened Wrappers
  import opened FixedWidth
  import opened Types
  import opened Lifecycle
  import opened History
  import opened Life
  import opened Tracking
  import opened Counters
  import Dispatch

  // ---- age ----

  /** A live task has a TTL timer, due its TTL after the task was added. */
  ghost predicate Aging(l: Life, taskTTL: int) {
    && |l.log| >= 1 && l.log[0].Created?
    && (!l.t.removed ==> l.ttl.Some? && l.ttl.value.due == l.log[0].at + Max(0, taskTTL))
  }

  lemma AgingAct(l: Life, e: Env, a: Action, taskTTL: int)
    requires Aging(l, taskTTL) && Allowed(l, e, a)
    ensures Aging(Act(l, e, a), taskTTL)
  {
    if a.Settle? && !l.t.removed {
      var t := Record(l.t, a.o, a.dispatchTime);
      AgingSettle(l, e, a.i, t, a.o, Judge(e.q.retryConfig, e.now, t, a.o), taskTTL);
    }
  }

  lemma AgingSettle(l: Life, e: Env, i: nat, t: TaskState, o: Dispatch.Outcome, v: Verdict, taskTTL: int)
    requires Aging(l, taskTTL) && i in l.mine && !l.t.removed
    ensures Aging(SettleLife(l, e, i, t, o, v), taskTTL) && SettleLife(l, e, i, t, o, v).log[0] == l.log[0]
  {
  }

  /** A live task is no older than its TTL. */
  ghost predicate Young(l: Life, now: int, taskTTL: int) {
    !l.t.removed ==> l.log != [] && l.log[0].Created? && now <= l.log[0].at + Max(0, taskTTL)
  }

  /** Only the clock ages a task, and it stops at the TTL timer. */
  lemma YoungAct(l: Life, e: Env, a: Action, now: int, taskTTL: int)
    requires Young(l, e.now, taskTTL) && Aging(l, taskTTL) && Allowed(l, e, a)
    requires now == e.now || (a == Rest && (l.ttl.Some? ==> now <= l.ttl.value.due))
    ensures Young(Act(l, e, a), now, taskTTL)
  {
    if a.Settle? && !l.t.removed {
      var t := Record(l.t, a.o, a.dispatchTime);
      AgingSettle(l, e, a.i, t, a.o, Judge(e.q.retryConfig, e.now, t, a.o), taskTTL);
    }
  }

  lemma YoungBorn(h: nat, t: TaskState, e: Env)
    ensures Young(Born(h, t, e), e.now, EffectiveTaskTTL(e.q, e.eng))
  {
  }

  // ---- number of deliveries ----

  /** The retry limits allow exactly m attempts. */
  predicate Allows(rc: RetryConfig, m: int) {
    rc.maxAttempts == m && rc.maxRetryDuration <= 0 && 1 <= m < TWO_31
  }

  /** At most m results, fewer while live, exactly m once exhausted; RunTask may add deliveries. */
  ghost predicate Limited(l: Life, m: int) {
    && CountOf(l, WasApplied) <= m
    && (!l.t.removed ==> CountOf(l, WasApplied) < m)
    && CountOf(l, WasStarted) <= m + Runs(l)
    && (forall j | 0 <= j < |l.log| && Ends(l.log[j], Exhausted) :: l.t.removed && CountOf(l, WasApplied) == m)
  }

  /** A step that records no result and starts nothing. */
  lemma LimitedFrame(l: Life, l': Life, m: int)
    requires Limited(l, m) && l'.h == l.h && l'.log == l.log && l'.t.removed == l.t.removed
    ensures Limited(l', m)
  {
  }

  lemma LimitedAppend(l: Life, l': Life, e: Event, m: int)
    requires Limited(l, m) && l'.h == l.h && l'.log == l.log + [e] && (l.t.removed ==> l'.t.removed)
    requires !e.Applied? && !Ends(e, Exhausted)
    requires e.Started? ==> CountOf(l, WasStarted) < m + Runs(l)
    ensures Limited(l', m)
  {
    CountsAppend(l.log, e, l.h);
  }

  lemma LimitedBegin(l: Life, e: Env, i: nat, m: int)
    requires Limited(l, m) && Tracked(l, e.q.pull) && Counted(l) && Allowed(l, e, Begin(i)) && !l.t.removed
    ensures Limited(Act(l, e, Begin(i)), m)
  {
    assert Flying(l.mine) <= Pending(l.mine) - {i};
    SubsetSize(Flying(l.mine), Pending(l.mine) - {i});
    var l' := Act(l, e, Begin(i));
    LimitedAppend(l, l', l'.log[|l.log|], m);
  }

  lemma LimitedSettle(l: Life, e: Env, i: nat, o: Dispatch.Outcome, dispatchTime: int, m: int)
    requires Limited(l, m) && Counted(l) && Allowed(l, e, Settle(i, o, dispatchTime)) && !l.t.removed
    requires Allows(e.q.retryConfig, m)
    ensures Limited(Act(l, e, Settle(i, o, dispatchTime)), m)
  {
    var t := Record(l.t, o, dispatchTime);
    var v := Judge(e.q.retryConfig, e.now, t, o);
    assert t.dispatchCount == CountOf(l, WasApplied) + 1;
    assert v.Retry? ==> t.dispatchCount < m;
    assert v.Exhaust? ==> t.dispatchCount >= m;
    LimitedVerdict(l, e, i, t, o, v, m);
  }

  lemma LimitedRetry(l: Life, e: Env, i: nat, t: TaskState, o: Dispatch.Outcome, delay: int, m: int)
    requires Limited(l, m) && i in l.mine && !l.t.removed && !t.removed
    requires CountOf(l, WasApplied) + 1 < m
    ensures Limited(SettleLife(l, e, i, t, o, Retry(delay)), m)
  {
    CountsAppend(l.log, AppliedEvent(l, e, t, o, Retry(delay)), l.h);
  }

  lemma LimitedDiscard(l: Life, e: Env, i: nat, t: TaskState, applied: Event, reason: Reason, m: int)
    requires Limited(l, m) && i in l.mine && !l.t.removed && applied.Applied? && applied.h == l.h
    requires reason == Exhausted ==> CountOf(l, WasApplied) + 1 >= m
    ensures Limited(RemoveLife(FinishLife(l.(t := t, log := l.log + [applied]), i), e, reason), m)
  {
    CountsAppend(l.log, applied, l.h);
    CountsAppend(l.log + [applied], Removed(l.h, t.name, reason, EffectiveTombstoneTTL(e.q, e.eng), e.now), l.h);
  }

  lemma LimitedVerdict(l: Life, e: Env, i: nat, t: TaskState, o: Dispatch.Outcome, v: Verdict, m: int)
    requires Limited(l, m) && i in l.mine && !l.t.removed && !t.removed
    requires v.Retry? ==> CountOf(l, WasApplied) + 1 < m
    requires v.Exhaust? ==> CountOf(l, WasApplied) + 1 >= m
    ensures Limited(SettleLife(l, e, i, t, o, v), m)
  {
    match v
    case Retry(delay) => LimitedRetry(l, e, i, t, o, delay, m);
    case Complete => LimitedDiscard(l, e, i, t, AppliedEvent(l, e, t, o, v), Completed, m);
    case Exhaust => LimitedDiscard(l, e, i, t, AppliedEvent(l, e, t, o, v), Exhausted, m);
  }

  lemma LimitedAct(l: Life, e: Env, a: Action, m: int)
    requires Limited(l, m) && Tracked(l, e.q.pull) && Counted(l) && Allowed(l, e, a)
    requires Allows(e.q.retryConfig, m)
    ensures Limited(Act(l, e, a), m)
  {
    var l' := Act(l, e, a);
    if a.Settle? && !l.t.removed {
      LimitedSettle(l, e, a.i, a.o, a.dispatchTime, m);
    } else if a.Begin? && !l.t.removed {
      LimitedBegin(l, e, a.i, m);
    } else if l'.log == l.log {
      LimitedFrame(l, l', m);
    } else {
      LimitedAppend(l, l', l'.log[|l.log|], m);
    }
  }

  lemma LimitedBorn(h: nat, t: TaskState, e: Env, m: int)
    requires m >= 1 && !t.removed
    ensures Limited(Born(h, t, e), m)
  {
    CountsAppend([], Created(h, t.name, e.now), h);
    assert [] + [Created(h, t.name, e.now)] == [Created(h, t.name, e.now)];
  }
}
