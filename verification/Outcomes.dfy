/** What the outcome of a delivery does to the task it was made for. */
module Outcomes {
  import opened Wrappers
  import opened FixedWidth
  import opened Lifecycle
  import opened History
  import opened Life
  import opened Projection
  import opened Lives
  import opened Guarantees
  import Dispatch
  import Decimal

  // ---- classification ----

  /** The canonical rpc code of every HTTP response: each code and exactly the statuses that mean it. */
  lemma ResponseCodes(status: int)
    ensures
      var code := Dispatch.RpcCode(Dispatch.Responded(status));
      && (code == 0 <==> status / 100 == 2)
      && (code == 3 <==> status == 400)
      && (code == 16 <==> status == 401)
      && (code == 7 <==> status == 403)
      && (code == 5 <==> status == 404)
      && (code == 6 <==> status == 409)
      && (code == 8 <==> status == 429)
      && (code == 4 <==> status == 408 || status == 504)
      && (code == 14 <==> status == 503)
      && (code == 12 <==> status == 501)
      && (code == 13 <==> status >= 500 && status != 501 && status != 503 && status != 504)
      && code in {0, 2, 3, 4, 5, 6, 7, 8, 12, 13, 14, 16}
  {
  }

  /** A request that cannot be built is invalid, one that gets no answer is unavailable. */
  lemma FailureCodes(message: string)
    ensures Dispatch.RpcCode(Dispatch.BuildFailed(message)) == 3
    ensures Dispatch.RpcCode(Dispatch.TransportFailed(message)) == 14
  {
  }

  // ---- what is recorded ----

  /** The reason kept for the headers of the next attempt. */
  predicate ReasonFor(o: Dispatch.Outcome, before: string, reason: string) {
    match o
    case Responded(status) =>
      if status / 100 == 2 then reason == before
      else if status == 0 then reason == "CONNECTION_ERROR: HTTP status 0"
      else reason == "RETURNED_" + Decimal.FormatInt(status)
    case BuildFailed(m) => reason == if m == "" then "CONNECTION_ERROR" else "CONNECTION_ERROR: " + m
    case TransportFailed(m) => reason == if m == "" then "CONNECTION_ERROR" else "CONNECTION_ERROR: " + m
  }

  /** One more delivery; one more response if there was one; one more execution if it was below 500. */
  predicate Recorded(t: TaskState, o: Dispatch.Outcome, dispatchTime: int, t': TaskState) {
    && t'.dispatchCount == Wrap32(t.dispatchCount + 1)
    && t'.responseCount == (if o.Responded? && o.status != 0 then Wrap32(t.responseCount + 1) else t.responseCount)
    && t'.executionCount ==
       (if o.Responded? && o.status != 0 && o.status < 500 then Wrap32(t.executionCount + 1) else t.executionCount)
    && t'.lastHTTPCode == (if o.Responded? then o.status else 0)
    && t'.lastDispatchTime == dispatchTime
    && t'.firstAttemptTime == (if t.firstAttemptTime.Some? then t.firstAttemptTime else Some(dispatchTime))
    && ReasonFor(o, t.lastRetryReason, t'.lastRetryReason)
    && t'.name == t.name && t'.pull == t.pull && t'.createTime == t.createTime
  }

  lemma RecordIs(t: TaskState, o: Dispatch.Outcome, dispatchTime: int)
    ensures Recorded(t, o, dispatchTime, Record(t, o, dispatchTime))
    ensures Record(t, o, dispatchTime).removed == t.removed
  {
    ZeroStatus();
  }

  lemma ZeroStatus()
    ensures "HTTP status " + Decimal.FormatInt(0) == "HTTP status 0"
  {
    assert Decimal.FormatInt(0) == "0";
  }

  lemma SettledRecord(l: Life, e: Env, i: nat, t: TaskState, o: Dispatch.Outcome, v: Verdict)
    requires i in l.mine
    ensures
      var t' := SettleLife(l, e, i, t, o, v).t;
      t' == t.(scheduleTime := t'.scheduleTime, timer := t'.timer, removed := t'.removed)
  {
  }

  lemma RecordedLike(t: TaskState, o: Dispatch.Outcome, dispatchTime: int, a: TaskState, b: TaskState)
    requires Recorded(t, o, dispatchTime, a) && b == a.(scheduleTime := b.scheduleTime, timer := b.timer, removed := b.removed)
    ensures Recorded(t, o, dispatchTime, b)
  {
  }

  /**
   The result of a delivery, in every run: recording it on a live task changes its counters, its
   status, its times and the reason for the next attempt exactly as the outcome says.
   */
  lemma ResultRecorded(r: seq<System>, steps: seq<Step>, k: nat, i: nat, o: Dispatch.Outcome, dispatchTime: int)
    requires Run(r, steps) && k < |steps| && StepAt(r, steps, k) && steps[k] == ApplyStep(i, o, dispatchTime)
    requires r[k].st.conts[i].task < |r[k].st.arena| && !r[k].st.arena[r[k].st.conts[i].task].removed
    ensures
      var h := r[k].st.conts[i].task;
      h < |r[k + 1].st.arena| && Recorded(r[k].st.arena[h], o, dispatchTime, r[k + 1].st.arena[h])
  {
    RunFollows(r, steps, k);
    var h := r[k].st.conts[i].task;
    StepProjects(r[k], steps[k], h);
    RecordedOn(LifeOf(r[k], h), EnvOf(r[k].st), i, o, dispatchTime);
  }

  lemma RecordedOn(l: Life, e: Env, i: nat, o: Dispatch.Outcome, dispatchTime: int)
    requires Allowed(l, e, Settle(i, o, dispatchTime)) && !l.t.removed
    ensures Recorded(l.t, o, dispatchTime, Act(l, e, Settle(i, o, dispatchTime)).t)
  {
    var t := Record(l.t, o, dispatchTime);
    RecordIs(l.t, o, dispatchTime);
    var v := Judge(e.q.retryConfig, e.now, t, o);
    SettledRecord(l, e, i, t, o, v);
    RecordedLike(l.t, o, dispatchTime, t, SettleLife(l, e, i, t, o, v).t);
  }

  // ---- when a delivery was sent ----

  /** A delivery of the task that started by this moment. */
  ghost predicate StartedBy(log: seq<Event>, n: int, at: int) {
    exists j :: 0 <= j < n <= |log| && log[j].Started? && log[j].at <= at
  }

  /** Every delivery under way has its start in the history, and every result a start before its dispatch. */
  ghost predicate Sent(l: Life) {
    && (forall i | i in l.mine && l.mine[i].InFlight? :: StartedBy(l.log, |l.log|, l.mine[i].began))
    && (forall j | 0 <= j < |l.log| && l.log[j].Applied? ::
          StartedBy(l.log, j, l.log[j].dispatched) && l.log[j].dispatched <= l.log[j].at)
  }

  lemma StartedLater(log: seq<Event>, n: int, at: int, e: Event, m: int, later: int)
    requires StartedBy(log, n, at) && n <= m <= |log| + 1 && at <= later
    ensures StartedBy(log + [e], m, later)
  {
    var j :| 0 <= j < n <= |log| && log[j].Started? && log[j].at <= at;
    assert (log + [e])[j] == log[j];
  }

  lemma SentAppend(l: Life, l': Life, e: Event)
    requires Sent(l) && l'.log == l.log + [e]
    requires forall i | i in l'.mine && l'.mine[i].InFlight? ::
               (i in l.mine && l.mine[i] == l'.mine[i]) || (e.Started? && e.at == l'.mine[i].began)
    requires e.Applied? ==> StartedBy(l.log, |l.log|, e.dispatched) && e.dispatched <= e.at
    ensures Sent(l')
  {
    var n := |l.log|;
    forall i | i in l'.mine && l'.mine[i].InFlight? ensures StartedBy(l'.log, n + 1, l'.mine[i].began) {
      if i in l.mine && l.mine[i] == l'.mine[i] {
        StartedLater(l.log, n, l.mine[i].began, e, n + 1, l.mine[i].began);
      } else {
        assert l'.log[n] == e;
      }
    }
    forall j | 0 <= j <= n && l'.log[j].Applied?
      ensures StartedBy(l'.log, j, l'.log[j].dispatched) && l'.log[j].dispatched <= l'.log[j].at
    {
      if j < n {
        assert l'.log[j] == l.log[j];
        StartedLater(l.log, j, l.log[j].dispatched, e, j, l.log[j].dispatched);
      } else {
        StartedLater(l.log, n, e.dispatched, e, n, e.dispatched);
      }
    }
  }

  lemma FlightsAfterSettle(l: Life, e: Env, i: nat, t: TaskState, o: Dispatch.Outcome, v: Verdict)
    requires i in l.mine
    ensures
      var l' := SettleLife(l, e, i, t, o, v);
      forall j | j in l'.mine && l'.mine[j].InFlight? :: j in l.mine && l.mine[j] == l'.mine[j]
  {
  }

  lemma SentSettle(l: Life, e: Env, i: nat, t: TaskState, o: Dispatch.Outcome, v: Verdict)
    requires Sent(l) && i in l.mine && l.mine[i].InFlight? && l.mine[i].began <= t.lastDispatchTime <= e.now
    ensures Sent(SettleLife(l, e, i, t, o, v))
  {
    var ev := AppliedEvent(l, e, t, o, v);
    var l' := SettleLife(l, e, i, t, o, v);
    FlightsAfterSettle(l, e, i, t, o, v);
    SettleLifeLog(l, e, i, t, o, v);
    assert StartedBy(l.log, |l.log|, ev.dispatched);
    var l1 := l.(mine := l'.mine, log := l.log + [ev]);
    SentAppend(l, l1, ev);
    if !v.Retry? {
      var reason := if v.Complete? then Completed else Exhausted;
      SentAppend(l1, l', Removed(l.h, t.name, reason, EffectiveTombstoneTTL(e.q, e.eng), e.now));
    }
  }

  lemma SentAct(l: Life, e: Env, a: Action)
    requires Sent(l) && Allowed(l, e, a) && e.nextId !in l.mine
    ensures Sent(Act(l, e, a))
  {
    if a.Settle? && !l.t.removed {
      var t := Record(l.t, a.o, a.dispatchTime);
      SentSettle(l, e, a.i, t, a.o, Judge(e.q.retryConfig, e.now, t, a.o));
    } else if !a.Settle? {
      ActLog(l, e, a);
      var own := OwnEvent(l, e, a);
      if own.Some? {
        SentAppend(l, Act(l, e, a), own.value);
      }
    }
  }

  lemma SentBorn(h: nat, t: TaskState, e: Env)
    ensures Sent(Born(h, t, e))
  {
    BornLog(h, t, e);
  }

  lemma SentFollows(sys: System, step: Step, next: System, h: nat)
    requires Follows(sys, step, next) && Sound(sys.st) && Bounded(sys.log, |sys.st.arena|) && h < |next.st.arena|
    requires h < |sys.st.arena| ==> Sent(LifeOf(sys, h))
    ensures Sent(LifeOf(next, h))
  {
    if h < |sys.st.arena| {
      StepProjects(sys, step, h);
      FreshForLife(sys, h);
      SentAct(LifeOf(sys, h), EnvOf(sys.st), ActionOf(sys.st, step, h));
    } else {
      OnlyCreateAdds(sys, step, h);
      SentBorn(h, FreshTask(step.task), EnvOf(sys.st));
    }
  }

  lemma {:induction false} RunSent(r: seq<System>, steps: seq<Step>, k: nat, h: nat)
    requires Run(r, steps) && k < |r| && h < |r[k].st.arena|
    ensures Sent(LifeOf(r[k], h))
  {
    if k > 0 {
      RunFollows(r, steps, k - 1);
      if h < |r[k - 1].st.arena| {
        RunSent(r, steps, k - 1, h);
      }
      SentFollows(r[k - 1], steps[k - 1], r[k], h);
    }
  }

  /**
   The dispatch time of a result, by which the retry duration is measured, lies between the start
   of a delivery of the task and the moment the result was recorded, in every run.
   */
  lemma ResultsWereSent(r: seq<System>, steps: seq<Step>, k: nat, h: nat, j: nat) returns (i: nat)
    requires Run(r, steps) && k < |r| && h < |r[k].st.arena|
    requires j < |TaskLog(r[k].log, h)| && TaskLog(r[k].log, h)[j].Applied?
    ensures
      var log := TaskLog(r[k].log, h);
      i < j && log[i].Started? && log[i].at <= log[j].dispatched <= log[j].at
  {
    RunSent(r, steps, k, h);
    var log := TaskLog(r[k].log, h);
    assert LifeOf(r[k], h).log == log;
    i :| 0 <= i < j <= |log| && log[i].Started? && log[i].at <= log[j].dispatched;
  }
}
