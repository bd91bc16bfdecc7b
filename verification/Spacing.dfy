/**
 What the recorded results say: each carries its own number in the history, the configuration,
 status and time of the moment it was recorded, and so the wait before the next attempt is the
 backoff of that configuration for that many results.
 */
module Spacing {
  import opened Wrappers
  import opened FixedWidth
  import opened Types
  import opened Lifecycle
  import opened History
  import opened Life
  import opened Projection
  import opened Lives
  import opened Counters
  import opened Timing
  import opened Guarantees
  import Dispatch
  import RetryPolicy

  /** The number of results in the history up to and with the one at j, in 32 bits. */
  function ResultNumber(log: seq<Event>, h: nat, j: int): int
    requires 0 <= j < |log|
  {
    Wrap32(Count(log[..j + 1], h, WasApplied))
  }

  /** Every result carries its own number. */
  ghost predicate InOrder(log: seq<Event>, h: nat) {
    forall j | 0 <= j < |log| && log[j].Applied? :: log[j].count == ResultNumber(log, h, j)
  }

  lemma InOrderAppend(log: seq<Event>, h: nat, e: Event)
    requires InOrder(log, h) && (e.Applied? ==> e.count == Wrap32(Count(log + [e], h, WasApplied)))
    ensures InOrder(log + [e], h)
  {
    var n := |log|;
    assert (log + [e])[..n + 1] == log + [e];
    forall j | 0 <= j <= n && (log + [e])[j].Applied?
      ensures (log + [e])[j].count == ResultNumber(log + [e], h, j)
    {
      if j < n {
        assert (log + [e])[..j + 1] == log[..j + 1];
        assert (log + [e])[j] == log[j];
      }
    }
  }

  lemma InOrderSettle(l: Life, e: Env, i: nat, o: Dispatch.Outcome, dispatchTime: int)
    requires InOrder(l.log, l.h) && Counted(l) && i in l.mine && l.mine[i].InFlight?
    ensures
      var t := Record(l.t, o, dispatchTime);
      InOrder(SettleLife(l, e, i, t, o, Judge(e.q.retryConfig, e.now, t, o)).log, l.h)
  {
    var t := Record(l.t, o, dispatchTime);
    var v := Judge(e.q.retryConfig, e.now, t, o);
    var ev := AppliedEvent(l, e, t, o, v);
    RecordAgrees(l, e, o, dispatchTime, v);
    InOrderAppend(l.log, l.h, ev);
    SettleLifeLog(l, e, i, t, o, v);
    if !v.Retry? {
      var reason := if v.Complete? then Completed else Exhausted;
      InOrderAppend(l.log + [ev], l.h, Removed(l.h, t.name, reason, EffectiveTombstoneTTL(e.q, e.eng), e.now));
    }
  }

  lemma InOrderAct(l: Life, e: Env, a: Action)
    requires InOrder(l.log, l.h) && Counted(l) && Allowed(l, e, a)
    ensures InOrder(Act(l, e, a).log, l.h)
  {
    if a.Settle? && !l.t.removed {
      InOrderSettle(l, e, a.i, a.o, a.dispatchTime);
    } else if !a.Settle? {
      ActLog(l, e, a);
      var own := OwnEvent(l, e, a);
      if own.Some? {
        InOrderAppend(l.log, l.h, own.value);
      }
    }
  }

  ghost predicate InOrderAt(sys: System, h: nat) {
    InOrder(TaskLog(sys.log, h), h)
  }

  ghost predicate CountedAt(sys: System, h: nat)
    requires h < |sys.st.arena|
  {
    Counted(LifeOf(sys, h))
  }

  lemma InOrderFollows(sys: System, step: Step, next: System, h: nat)
    requires Follows(sys, step, next) && Sound(sys.st) && Bounded(sys.log, |sys.st.arena|) && h < |next.st.arena|
    requires h < |sys.st.arena| ==> InOrderAt(sys, h) && CountedAt(sys, h)
    ensures InOrderAt(next, h)
  {
    if h < |sys.st.arena| {
      StepProjects(sys, step, h);
      InOrderAct(LifeOf(sys, h), EnvOf(sys.st), ActionOf(sys.st, step, h));
      assert LifeOf(next, h).log == TaskLog(next.log, h);
    } else {
      OnlyCreateAdds(sys, step, h);
      BornLog(h, FreshTask(step.task), EnvOf(sys.st));
      assert LifeOf(next, h).log == TaskLog(next.log, h);
    }
  }

  lemma RunCounted(r: seq<System>, steps: seq<Step>, k: nat, h: nat)
    requires Run(r, steps) && k < |r| && h < |r[k].st.arena|
    ensures CountedAt(r[k], h)
  {
    RunKept(r, steps, k, h);
  }

  /** In every run, each result of a task carries its number in the task's history. */
  lemma {:induction false} ResultsNumbered(r: seq<System>, steps: seq<Step>, k: nat, h: nat)
    requires Run(r, steps) && k < |r| && h < |r[k].st.arena|
    ensures InOrderAt(r[k], h)
  {
    if k > 0 {
      RunFollows(r, steps, k - 1);
      if h < |r[k - 1].st.arena| {
        ResultsNumbered(r, steps, k - 1, h);
        RunCounted(r, steps, k - 1, h);
      }
      InOrderFollows(r[k - 1], steps[k - 1], r[k], h);
    }
  }

  /**
   Retries are spaced by the history alone, in every run: without RunTask on a task, a delivery
   that comes after a failed result starts no sooner than the backoff that the configuration of
   that moment gives for the number of results so far.
   */
  lemma RetriesSpaced(r: seq<System>, steps: seq<Step>, k: nat, h: nat, i: nat, j: nat)
    requires Run(r, steps) && k < |r| && h < |r[k].st.arena| && Count(r[k].log, h, WasRun) == 0
    requires i < j < |TaskLog(r[k].log, h)| && IsRetry(TaskLog(r[k].log, h)[i]) && TaskLog(r[k].log, h)[j].Started?
    ensures
      var log := TaskLog(r[k].log, h);
      log[i].at + RetryPolicy.Backoff(log[i].rc, ResultNumber(log, h, i)) <= log[j].at
  {
    NeverEarlyAndSpaced(r, steps, k, h);
    ResultsNumbered(r, steps, k, h);
  }

  /** The result that recording an outcome at this moment adds to a history. */
  predicate LoggedNow(before: seq<Event>, after: seq<Event>, rc: RetryConfig, now: int, o: Dispatch.Outcome, dispatchTime: int) {
    && |after| > |before| && after[..|before|] == before && after[|before|].Applied?
    && var e := after[|before|];
    && e.rc == rc && e.at == now && e.dispatched == dispatchTime
    && e.httpCode == (if o.Responded? then o.status else 0)
    && (e.success <==> o.Responded? && o.status / 100 == 2)
    && (forall j | |before| < j < |after| :: !after[j].Applied?)
  }

  lemma SettleLogs(l: Life, e: Env, i: nat, t: TaskState, o: Dispatch.Outcome, v: Verdict)
    requires i in l.mine
    ensures LoggedNow(l.log, SettleLife(l, e, i, t, o, v).log, e.q.retryConfig, e.now, o, t.lastDispatchTime)
  {
    SettleLifeLog(l, e, i, t, o, v);
  }

  /**
   Each result is recorded with the retry configuration and the time of the moment, the status of
   the response and whether it was 2xx, and the time the delivery was sent; once per delivery.
   */
  lemma ResultLogged(r: seq<System>, steps: seq<Step>, k: nat, i: nat, o: Dispatch.Outcome, dispatchTime: int)
    requires Run(r, steps) && k < |steps| && StepAt(r, steps, k) && steps[k] == ApplyStep(i, o, dispatchTime)
    requires r[k].st.conts[i].task < |r[k].st.arena| && !r[k].st.arena[r[k].st.conts[i].task].removed
    ensures
      var s, h := r[k].st, r[k].st.conts[i].task;
      LoggedNow(TaskLog(r[k].log, h), TaskLog(r[k + 1].log, h), s.q.retryConfig, s.now, o, dispatchTime)
  {
    RunFollows(r, steps, k);
    var h := r[k].st.conts[i].task;
    StepProjects(r[k], steps[k], h);
    var l, e := LifeOf(r[k], h), EnvOf(r[k].st);
    var t := Record(l.t, o, dispatchTime);
    SettleLogs(l, e, i, t, o, Judge(e.q.retryConfig, e.now, t, o));
    assert LifeOf(r[k + 1], h).log == TaskLog(r[k + 1].log, h);
  }
}
