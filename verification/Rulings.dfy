/**
 What becomes of a task after each recorded result, read off its history alone: a success is
 followed by its completion, a failure with every configured limit reached by its being
 dropped, and after any other failure the task stays.
 */
module Rulings {
  import opened Wrappers
  import opened FixedWidth
  import opened Types
  import opened Lifecycle
  import opened History
  import opened Life
  import opened Counters
  import Dispatch
  import RetryPolicy

  /** When the first recorded delivery was sent. */
  function FirstDispatch(log: seq<Event>): Option<int> {
    if log == [] then None
    else
      var before := FirstDispatch(log[..|log| - 1]);
      var e := log[|log| - 1];
      if before.None? && e.Applied? then Some(e.dispatched) else before
  }

  /** The time from the first delivery to a later moment. */
  function Elapsed(log: seq<Event>, at: int): int {
    match FirstDispatch(log)
    case Some(first) => at - first
    case None => 0
  }

  /** Some limit is configured, and every configured one is reached; results count in 32 bits. */
  predicate LimitsReached(rc: RetryConfig, results: int, elapsed: int) {
    && (rc.maxAttempts != -1 || rc.maxRetryDuration > 0)
    && (rc.maxAttempts != -1 ==> rc.maxAttempts <= Wrap32(results))
    && (rc.maxRetryDuration > 0 ==> rc.maxRetryDuration <= elapsed)
  }

  datatype Ruling = Done | Dropped | Stays

  /** What the history up to a recorded result decides for the task. */
  function RulingOf(log: seq<Event>, h: nat): Ruling
    requires log != [] && log[|log| - 1].Applied?
  {
    var e := log[|log| - 1];
    if e.success then Done
    else if LimitsReached(e.rc, Count(log, h, WasApplied), Elapsed(log, e.at)) then Dropped
    else Stays
  }

  predicate EndsByResult(e: Event) {
    Ends(e, Completed) || Ends(e, Exhausted)
  }

  /** The event after the result at j, or the lack of one, is what the ruling says. */
  predicate CarriedOut(log: seq<Event>, h: nat, removed: bool, j: int)
    requires 0 <= j < |log| && log[j].Applied?
  {
    match RulingOf(log[..j + 1], h)
    case Done => j + 1 < |log| && Ends(log[j + 1], Completed)
    case Dropped => j + 1 < |log| && Ends(log[j + 1], Exhausted)
    case Stays => if j + 1 < |log| then !EndsByResult(log[j + 1]) else !removed
  }

  ghost predicate Ruled(l: Life) {
    && l.t.firstAttemptTime == FirstDispatch(l.log)
    && (forall j | 0 <= j < |l.log| && l.log[j].Applied? :: CarriedOut(l.log, l.h, l.t.removed, j))
    && (forall j | 0 <= j < |l.log| && EndsByResult(l.log[j]) :: 0 < j && l.log[j - 1].Applied?)
  }

  lemma FirstDispatchAppend(log: seq<Event>, e: Event)
    ensures FirstDispatch(log + [e]) ==
            if FirstDispatch(log).None? && e.Applied? then Some(e.dispatched) else FirstDispatch(log)
  {
    assert (log + [e])[..|log|] == log;
  }

  /** A result that is not the last event was carried out already. */
  lemma CarriedOutStays(log: seq<Event>, h: nat, removed: bool, e: Event, removed': bool, j: int)
    requires 0 <= j < |log| && log[j].Applied? && CarriedOut(log, h, removed, j) && !EndsByResult(e)
    ensures CarriedOut(log + [e], h, removed', j)
  {
    assert (log + [e])[..j + 1] == log[..j + 1];
  }

  lemma RuledFrame(l: Life, l': Life)
    requires Ruled(l) && l'.h == l.h && l'.log == l.log
    requires l'.t.removed == l.t.removed && l'.t.firstAttemptTime == l.t.firstAttemptTime
    ensures Ruled(l')
  {
  }

  /** An event that is neither a result nor the end of one. */
  lemma RuledAppend(l: Life, l': Life, e: Event)
    requires Ruled(l) && l'.h == l.h && l'.log == l.log + [e] && !e.Applied? && !EndsByResult(e)
    requires l'.t.firstAttemptTime == l.t.firstAttemptTime
    ensures Ruled(l')
  {
    FirstDispatchAppend(l.log, e);
    forall j | 0 <= j < |l'.log| && l'.log[j].Applied? ensures CarriedOut(l'.log, l.h, l'.t.removed, j) {
      CarriedOutStays(l.log, l.h, l.t.removed, e, l'.t.removed, j);
    }
  }

  /** The verdict is the ruling of the history that ends with the result. */
  predicate Enacts(v: Verdict, ruling: Ruling) {
    (v.Complete? <==> ruling.Done?) && (v.Exhaust? <==> ruling.Dropped?)
  }

  /** A result, followed by the removal it calls for if any. */
  lemma RuledResult(l: Life, l': Life, e: Event, v: Verdict)
    requires Ruled(l) && !l.t.removed && l'.h == l.h && e.Applied?
    requires Enacts(v, RulingOf(l.log + [e], l.h))
    requires l'.t.firstAttemptTime == FirstDispatch(l.log + [e])
    requires v.Retry? ==> l'.log == l.log + [e] && !l'.t.removed
    requires !v.Retry? ==> |l'.log| == |l.log| + 2 && l'.log[..|l.log| + 1] == l.log + [e]
    requires v.Complete? ==> Ends(l'.log[|l.log| + 1], Completed)
    requires v.Exhaust? ==> Ends(l'.log[|l.log| + 1], Exhausted)
    ensures Ruled(l')
  {
    var n := |l.log|;
    var with := l.log + [e];
    assert with[..n + 1] == with;
    forall j | 0 <= j < |l'.log| && l'.log[j].Applied? ensures CarriedOut(l'.log, l.h, l'.t.removed, j) {
      assert l'.log[..n + 1] == with;
      assert l'.log[..j + 1] == with[..j + 1];
      if j < n {
        CarriedOutStays(l.log, l.h, l.t.removed, e, l'.t.removed, j);
        assert l'.log[j + 1] == with[j + 1];
      }
    }
    if !v.Retry? {
      FirstDispatchAppend(with, l'.log[n + 1]);
      assert l'.log == with + [l'.log[n + 1]];
    }
    forall j | 0 <= j < |l'.log| && EndsByResult(l'.log[j]) ensures 0 < j && l'.log[j - 1].Applied? {
      assert j <= n ==> l'.log[j] == with[j];
      assert j < n ==> l.log[j] == with[j];
      assert 0 < j <= n + 1 ==> l'.log[j - 1] == with[j - 1];
    }
  }

  /** The policy's test is the negation of the limits being reached. */
  lemma PolicyIsLimits(rc: RetryConfig, results: int, elapsed: int)
    ensures RetryPolicy.ShouldRetry(rc, Wrap32(results), elapsed) <==> !LimitsReached(rc, results, elapsed)
  {
  }

  lemma JudgeMatches(l: Life, e: Env, t: TaskState, o: Dispatch.Outcome)
    requires Ruled(l) && t.firstAttemptTime.Some?
    requires t.firstAttemptTime == if l.t.firstAttemptTime.None? then Some(t.lastDispatchTime) else l.t.firstAttemptTime
    requires Agrees(t, l.log + [AppliedEvent(l, e, t, o, Judge(e.q.retryConfig, e.now, t, o))], l.h)
    ensures
      var v := Judge(e.q.retryConfig, e.now, t, o);
      var log := l.log + [AppliedEvent(l, e, t, o, v)];
      Enacts(v, RulingOf(log, l.h)) && t.firstAttemptTime == FirstDispatch(log)
  {
    var v := Judge(e.q.retryConfig, e.now, t, o);
    var ev := AppliedEvent(l, e, t, o, v);
    FirstDispatchAppend(l.log, ev);
    PolicyIsLimits(e.q.retryConfig, Count(l.log + [ev], l.h, WasApplied), e.now - t.firstAttemptTime.value);
  }

  lemma SettleKeepsFirst(l: Life, e: Env, i: nat, t: TaskState, o: Dispatch.Outcome, v: Verdict)
    requires i in l.mine
    ensures
      var l' := SettleLife(l, e, i, t, o, v);
      && l'.h == l.h && l'.t.firstAttemptTime == t.firstAttemptTime
      && (v.Retry? ==> l'.log == l.log + [AppliedEvent(l, e, t, o, v)] && l'.t.removed == t.removed)
      && (!v.Retry? ==> |l'.log| == |l.log| + 2 && l'.log[..|l.log| + 1] == l.log + [AppliedEvent(l, e, t, o, v)])
      && (v.Complete? ==> Ends(l'.log[|l.log| + 1], Completed))
      && (v.Exhaust? ==> Ends(l'.log[|l.log| + 1], Exhausted))
  {
  }

  lemma RuledSettle(l: Life, e: Env, i: nat, o: Dispatch.Outcome, dispatchTime: int)
    requires Ruled(l) && Counted(l) && Allowed(l, e, Settle(i, o, dispatchTime)) && !l.t.removed
    ensures Ruled(Act(l, e, Settle(i, o, dispatchTime)))
  {
    var t := Record(l.t, o, dispatchTime);
    var v := Judge(e.q.retryConfig, e.now, t, o);
    RecordAgrees(l, e, o, dispatchTime, v);
    JudgeMatches(l, e, t, o);
    SettleKeepsFirst(l, e, i, t, o, v);
    RuledResult(l, SettleLife(l, e, i, t, o, v), AppliedEvent(l, e, t, o, v), v);
  }

  lemma RuledAct(l: Life, e: Env, a: Action)
    requires Ruled(l) && Counted(l) && Allowed(l, e, a)
    ensures Ruled(Act(l, e, a))
  {
    var l' := Act(l, e, a);
    if a.Settle? && !l.t.removed {
      RuledSettle(l, e, a.i, a.o, a.dispatchTime);
    } else if l'.log == l.log {
      RuledFrame(l, l');
    } else {
      RuledAppend(l, l', l'.log[|l.log|]);
    }
  }

  lemma RuledBorn(h: nat, t: TaskState, e: Env)
    requires t.firstAttemptTime.None?
    ensures Ruled(Born(h, t, e))
  {
    var ev := Created(h, t.name, e.now);
    var l := Born(h, t, e);
    assert l.log == [] + [ev] && l.t.firstAttemptTime == None;
    FirstDispatchAppend([], ev);
    assert FirstDispatch([]) == None;
    assert forall j | 0 <= j < |l.log| :: l.log[j] == ev;
  }

  /** What the rulings say of the event after each result. */
  lemma RuledDecides(log: seq<Event>, h: nat, removed: bool, j: int)
    requires 0 <= j < |log| && log[j].Applied? && CarriedOut(log, h, removed, j)
    ensures log[j].success <==> j + 1 < |log| && Ends(log[j + 1], Completed)
    ensures !log[j].success
            && LimitsReached(log[j].rc, Count(log[..j + 1], h, WasApplied), Elapsed(log[..j + 1], log[j].at))
            <==> j + 1 < |log| && Ends(log[j + 1], Exhausted)
    ensures j + 1 == |log| ==> !removed
  {
    assert log[..j + 1][j] == log[j];
  }
}
