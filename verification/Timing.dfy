/**
 No delivery is early and retries are spaced: for a task nobody forces with RunTask, every
 delivery starts at or after its schedule time, and no delivery starts within the backoff of
 any failure recorded before it, across pauses and configuration changes.
 */
module Timing {
  import opened Wrappers
  import opened Types
  import opened Lifecycle
  import opened History
  import opened Life
  import opened Tracking
  import Dispatch
  import RetryPolicy

  /** A timer is due no earlier than the schedule time; past the timer, that time has come. */
  predicate PhaseTimely(p: Phase, scheduleTime: int, now: int) {
    match p
    case Armed(due) => scheduleTime <= due
    case Returning(_) => true
    case _ => scheduleTime <= now
  }

  predicate IsRetry(e: Event) {
    e.Applied? && e.verdict.Retry?
  }

  /** When the backoff of a recorded failure is over. */
  function Earliest(e: Event): int
    requires IsRetry(e)
  {
    e.at + e.verdict.delay
  }

  ghost predicate DueInTime(l: Life, now: int) {
    && (forall i | i in l.mine :: PhaseTimely(l.mine[i], l.t.scheduleTime, now))
    && (forall j | 0 <= j < |l.log| && IsRetry(l.log[j]) :: Earliest(l.log[j]) <= Max(now, l.t.scheduleTime))
  }

  /** Deliveries start no earlier than they were scheduled, and after every earlier backoff. */
  ghost predicate WellSpaced(log: seq<Event>) {
    && (forall j | 0 <= j < |log| && log[j].Started? :: log[j].scheduled <= log[j].at)
    && (forall j, k | 0 <= j < k < |log| && IsRetry(log[j]) && log[k].Started? :: Earliest(log[j]) <= log[k].at)
  }

  ghost predicate Timely(l: Life, now: int) {
    Runs(l) == 0 ==> DueInTime(l, now) && WellSpaced(l.log)
  }

  lemma TimePasses(l: Life, now: int, now': int)
    requires Timely(l, now) && now <= now'
    ensures Timely(l, now')
  {
  }

  /** An event that is no delivery start keeps a history well spaced. */
  lemma SpacedAppend(log: seq<Event>, e: Event)
    requires WellSpaced(log) && !e.Started?
    ensures WellSpaced(log + [e])
  {
  }

  /** Continuations move or vanish; the schedule stays. */
  lemma TimelyMove(l: Life, l': Life, now: int)
    requires Timely(l, now)
    requires l'.h == l.h && l'.log == l.log && l'.t.scheduleTime == l.t.scheduleTime
    requires Runs(l) == 0 ==> forall i | i in l'.mine ::
               || (i in l.mine && l'.mine[i] == l.mine[i])
               || PhaseTimely(l'.mine[i], l.t.scheduleTime, now)
               || (i in l.mine && !l.mine[i].Armed? && !l.mine[i].Returning? && !l'.mine[i].Armed?)
    ensures Timely(l', now)
  {
  }

  /** Continuations vanish and an event that is neither a start nor a retry is logged. */
  lemma TimelyEnd(l: Life, l': Life, e: Event, now: int)
    requires Timely(l, now) && !e.Started? && !IsRetry(e)
    requires l'.h == l.h && l'.log == l.log + [e] && l'.t.scheduleTime == l.t.scheduleTime
    requires forall i | i in l'.mine :: i in l.mine && (l'.mine[i] == l.mine[i] || l'.mine[i].Returning?)
    ensures Timely(l', now)
  {
    CountAppend1(l.log, e, l.h, WasRun);
    if Runs(l') == 0 {
      SpacedAppend(l.log, e);
    }
  }

  /** A delivery that starts when its schedule time has come. */
  lemma StartSpaced(l: Life, ev: Event, now: int)
    requires DueInTime(l, now) && WellSpaced(l.log) && l.t.scheduleTime <= now
    requires ev.Started? && ev.scheduled == l.t.scheduleTime && ev.at == now
    ensures WellSpaced(l.log + [ev])
  {
    var log := l.log + [ev];
    forall j, k | 0 <= j < k < |log| && IsRetry(log[j]) && log[k].Started? ensures Earliest(log[j]) <= log[k].at {
      assert log[j] == l.log[j];
      if k < |l.log| {
        assert log[k] == l.log[k];
      }
    }
  }

  lemma StartDue(l: Life, l': Life, ev: Event, i: nat, now: int)
    requires DueInTime(l, now) && l.t.scheduleTime <= now && !IsRetry(ev)
    requires l'.log == l.log + [ev] && l'.t == l.t
    requires i in l'.mine && l'.mine[i].InFlight? && l'.mine == l.mine[i := l'.mine[i]]
    ensures DueInTime(l', now)
  {
    forall j | 0 <= j < |l'.log| && IsRetry(l'.log[j]) ensures Earliest(l'.log[j]) <= Max(now, l'.t.scheduleTime) {
      assert l'.log[j] == l.log[j];
    }
  }

  lemma TimelyBegin(l: Life, e: Env, i: nat)
    requires Timely(l, e.now) && Tracked(l, e.q.pull) && Allowed(l, e, Begin(i)) && !l.t.removed
    ensures Timely(Act(l, e, Begin(i)), e.now)
  {
    var l' := Act(l, e, Begin(i));
    var ev := Started(l.h, i, l.mine[i].Admitted?, l.t.dispatchCount, l.t.scheduleTime, e.now);
    assert l'.log == l.log + [ev] && l'.t == l.t;
    CountAppend1(l.log, ev, l.h, WasRun);
    if Runs(l') == 0 {
      assert PhaseTimely(l.mine[i], l.t.scheduleTime, e.now);
      StartSpaced(l, ev, e.now);
      StartDue(l, l', ev, i, e.now);
    }
  }

  /** Without RunTask, whatever remains beside the finished attempt only returns its token. */
  lemma OnlyReturning(l: Life, pullQueue: bool, i: nat)
    requires Tracked(l, pullQueue) && Runs(l) == 0 && i in Pending(l.mine)
    ensures forall j | j in Finished(l.mine, i) :: Finished(l.mine, i)[j].Returning?
  {
    FinishedSets(l.mine, i);
    var rest := Finished(l.mine, i);
    assert |Pending(l.mine) - {i}| == 0;
    assert forall j | j in rest && !rest[j].Returning? :: j in Pending(rest);
  }

  /** The new timer is due when the backoff is over. */
  lemma RetryDue(l: Life, l': Life, ev: Event, now: int, rest: map<nat, Phase>, id: nat)
    requires DueInTime(l, now) && l.t.scheduleTime <= now
    requires IsRetry(ev) && Earliest(ev) == l'.t.scheduleTime && l'.log == l.log + [ev]
    requires l'.mine == rest[id := Armed(Max(now, l'.t.scheduleTime))] && forall j | j in rest :: rest[j].Returning?
    ensures DueInTime(l', now)
  {
  }

  lemma TimelyRetry(l: Life, e: Env, i: nat, t: TaskState, o: Dispatch.Outcome, delay: int)
    requires Timely(l, e.now) && Tracked(l, e.q.pull) && i in l.mine && l.mine[i].InFlight?
    requires !t.removed && t.pull == l.t.pull
    ensures Timely(SettleLife(l, e, i, t, o, Retry(delay)), e.now)
  {
    var v := Retry(delay);
    var ev := AppliedEvent(l, e, t, o, v);
    var l' := SettleLife(l, e, i, t, o, v);
    assert l'.log == l.log + [ev];
    CountAppend1(l.log, ev, l.h, WasRun);
    if Runs(l') == 0 {
      assert PhaseTimely(l.mine[i], l.t.scheduleTime, e.now);
      OnlyReturning(l, e.q.pull, i);
      SpacedAppend(l.log, ev);
      assert IsPush(l, e.q.pull);
      RetryDue(l, l', ev, e.now, Finished(l.mine, i), e.nextId);
    }
  }

  lemma TimelyDiscard(l: Life, e: Env, i: nat, t: TaskState, o: Dispatch.Outcome, v: Verdict)
    requires Timely(l, e.now) && i in l.mine && !v.Retry? && t.scheduleTime == l.t.scheduleTime
    ensures Timely(SettleLife(l, e, i, t, o, v), e.now)
  {
    var ev := AppliedEvent(l, e, t, o, v);
    var f := FinishLife(l.(t := t, log := l.log + [ev]), i);
    TimelyEnd(l, f, ev, e.now);
    var l' := SettleLife(l, e, i, t, o, v);
    TimelyEnd(f, l', l'.log[|l'.log| - 1], e.now);
  }

  lemma TimelyDetach(l: Life, e: Event, now: int)
    requires Timely(l, now) && (e.Removed? || e.Purged? || e.Stopped?)
    ensures Timely(DetachLife(l).(log := l.log + [e]), now)
  {
    TimelyEnd(l, DetachLife(l).(log := l.log + [e]), e, now);
  }

  lemma TimelySettle(l: Life, e: Env, i: nat, o: Dispatch.Outcome, dispatchTime: int)
    requires Timely(l, e.now) && Tracked(l, e.q.pull) && Allowed(l, e, Settle(i, o, dispatchTime))
    ensures Timely(Act(l, e, Settle(i, o, dispatchTime)), e.now)
  {
    if l.t.removed {
      TimelyMove(l, FinishLife(l, i), e.now);
    } else {
      var t := Record(l.t, o, dispatchTime);
      var v := Judge(e.q.retryConfig, e.now, t, o);
      if v.Retry? {
        TimelyRetry(l, e, i, t, o, v.delay);
      } else {
        TimelyDiscard(l, e, i, t, o, v);
      }
    }
  }

  /** The continuations of the task move or vanish, and nothing is logged. */
  lemma TimelyQuiet(l: Life, e: Env, a: Action)
    requires Timely(l, e.now) && Allowed(l, e, a)
    requires a.Ring? || a.Gate? || a.Pass? || a.Take? || a.GiveBack? || a.RingTtl?
    ensures Timely(Act(l, e, a), e.now)
  {
    var l' := Act(l, e, a);
    if Runs(l) == 0 {
      QuietPhases(l, e, a);
    }
    TimelyMove(l, l', e.now);
  }

  lemma QuietPhases(l: Life, e: Env, a: Action)
    requires DueInTime(l, e.now) && Allowed(l, e, a)
    requires a.Ring? || a.Gate? || a.Pass? || a.Take? || a.GiveBack? || a.RingTtl?
    ensures
      var mine' := Act(l, e, a).mine;
      forall i | i in mine' ::
        || (i in l.mine && mine'[i] == l.mine[i])
        || PhaseTimely(mine'[i], l.t.scheduleTime, e.now)
        || (i in l.mine && !l.mine[i].Armed? && !l.mine[i].Returning? && !mine'[i].Armed?)
  {
    if a.Ring? || a.Gate? {
      assert PhaseTimely(l.mine[a.i], l.t.scheduleTime, e.now);
    }
  }

  lemma TimelyForced(l: Life, e: Env)
    requires Allowed(l, e, Force)
    ensures Timely(Act(l, e, Force), e.now)
  {
    CountAppend1(l.log, RunRequested(l.h), l.h, WasRun);
  }

  lemma TimelyExpired(l: Life, e: Env)
    requires Timely(l, e.now) && Allowed(l, e, ExpireNow)
    ensures Timely(Act(l, e, ExpireNow), e.now)
  {
    TimelyMove(l, l.(ttl := None), e.now);
    if !l.t.removed {
      TimelyDetach(l.(ttl := None), Removed(l.h, l.t.name, Expired, EffectiveTombstoneTTL(e.q, e.eng), e.now), e.now);
    }
  }

  lemma TimelyAct(l: Life, e: Env, a: Action)
    requires Timely(l, e.now) && Tracked(l, e.q.pull) && Allowed(l, e, a)
    ensures Timely(Act(l, e, a), e.now)
  {
    match a
    case Rest =>
    case Begin(i) => if l.t.removed { TimelyMove(l, FinishLife(l, i), e.now); } else { TimelyBegin(l, e, i); }
    case Settle(i, o, dispatchTime) => TimelySettle(l, e, i, o, dispatchTime);
    case Force => TimelyForced(l, e);
    case ExpireNow => TimelyExpired(l, e);
    case Drop => TimelyDetach(l, Removed(l.h, l.t.name, Deleted, EffectiveTombstoneTTL(e.q, e.eng), e.now), e.now);
    case Sweep(ev) => TimelyDetach(l, ev, e.now);
    case _ => TimelyQuiet(l, e, a);
  }

  lemma TimelyBorn(h: nat, t: TaskState, e: Env)
    ensures Timely(Born(h, t, e), e.now)
  {
  }

  // ---- what each verdict says ----

  /** The task is done exactly after a 2xx, and a retry waits for the policy's backoff. */
  ghost predicate Honest(l: Life) {
    forall j | 0 <= j < |l.log| && l.log[j].Applied? :: HonestEvent(l.log[j])
  }

  predicate HonestEvent(e: Event)
    requires e.Applied?
  {
    && (e.verdict.Complete? <==> e.success)
    && (e.verdict.Retry? ==> e.verdict.delay == RetryPolicy.Backoff(e.rc, e.count))
  }

  lemma JudgeHonest(l: Life, e: Env, t: TaskState, o: Dispatch.Outcome)
    requires t.firstAttemptTime.Some?
    ensures HonestEvent(AppliedEvent(l, e, t, o, Judge(e.q.retryConfig, e.now, t, o)))
  {
  }

  lemma HonestAppend(l: Life, l': Life, e: Event)
    requires Honest(l) && l'.log == l.log + [e] && (e.Applied? ==> HonestEvent(e))
    ensures Honest(l')
  {
  }

  lemma HonestAct(l: Life, e: Env, a: Action)
    requires Honest(l) && Allowed(l, e, a)
    ensures Honest(Act(l, e, a))
  {
    var l' := Act(l, e, a);
    if a.Settle? && !l.t.removed {
      HonestSettle(l, e, a.i, a.o, a.dispatchTime);
    } else if l'.log != l.log {
      HonestAppend(l, l', l'.log[|l.log|]);
    }
  }

  lemma HonestSettle(l: Life, e: Env, i: nat, o: Dispatch.Outcome, dispatchTime: int)
    requires Honest(l) && Allowed(l, e, Settle(i, o, dispatchTime)) && !l.t.removed
    ensures Honest(Act(l, e, Settle(i, o, dispatchTime)))
  {
    var t := Record(l.t, o, dispatchTime);
    var v := Judge(e.q.retryConfig, e.now, t, o);
    var l1 := l.(log := l.log + [AppliedEvent(l, e, t, o, v)]);
    JudgeHonest(l, e, t, o);
    HonestAppend(l, l1, AppliedEvent(l, e, t, o, v));
    var l' := SettleLife(l, e, i, t, o, v);
    if !v.Retry? {
      HonestAppend(l1, l', l'.log[|l1.log|]);
    }
  }

  // ---- deliveries under way ----

  /** A delivery under way began in the past. */
  ghost predicate Underway(l: Life, now: int) {
    forall i | i in l.mine && l.mine[i].InFlight? :: l.mine[i].began <= now
  }

  lemma UnderwaySettle(l: Life, e: Env, i: nat, t: TaskState, o: Dispatch.Outcome, v: Verdict)
    requires Underway(l, e.now) && i in l.mine
    ensures Underway(SettleLife(l, e, i, t, o, v), e.now)
  {
  }

  lemma UnderwayAct(l: Life, e: Env, a: Action)
    requires Underway(l, e.now) && Allowed(l, e, a)
    ensures Underway(Act(l, e, a), e.now)
  {
    if a.Settle? && !l.t.removed {
      var t := Record(l.t, a.o, a.dispatchTime);
      UnderwaySettle(l, e, a.i, t, a.o, Judge(e.q.retryConfig, e.now, t, a.o));
    }
  }
}
