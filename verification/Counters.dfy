/** The counters a task carries are counts of its own history. */
module Counters {
  import opened Wrappers
  import opened FixedWidth
  import opened Types
  import opened Lifecycle
  import opened History
  import opened Life
  import opened Tracking
  import Dispatch

  function CountOf(l: Life, k: Kind): nat {
    Count(l.log, l.h, k)
  }

  /** The status of the last recorded delivery, zero if there is none. */
  function LastCode(log: seq<Event>): int {
    if log == [] then 0
    else if log[|log| - 1].Applied? then log[|log| - 1].httpCode
    else LastCode(log[..|log| - 1])
  }

  ghost predicate Counted(l: Life) {
    && l.t.dispatchCount == Wrap32(CountOf(l, WasApplied))
    && l.t.responseCount == Wrap32(CountOf(l, HadResponse))
    && l.t.executionCount == Wrap32(CountOf(l, HadNon5xx))
    && l.t.lastHTTPCode == LastCode(l.log)
    && CountOf(l, WasCreated) == 1
    && CountOf(l, WasRemoved) == (if l.t.removed then 1 else 0)
    && CountOf(l, WasApplied) <= CountOf(l, WasStarted)
    && (!l.t.removed ==> CountOf(l, WasStarted) == CountOf(l, WasApplied) + |Flying(l.mine)|)
  }

  lemma LastCodeAppend(log: seq<Event>, e: Event)
    ensures LastCode(log + [e]) == if e.Applied? then e.httpCode else LastCode(log)
  {
    assert (log + [e])[..|log|] == log;
  }

  /** All counts after one more event. */
  lemma CountsAppend(log: seq<Event>, e: Event, h: nat)
    ensures forall k :: Count(log + [e], h, k) == Count(log, h, k) + if Matches(e, h, k) then 1 else 0
  {
    forall k ensures Count(log + [e], h, k) == Count(log, h, k) + if Matches(e, h, k) then 1 else 0 {
      CountAppend1(log, e, h, k);
    }
  }

  /** Same task, same history, same deliveries under way. */
  lemma CountedFrame(l: Life, l': Life)
    requires Counted(l)
    requires l'.h == l.h && l'.log == l.log && l'.t.removed == l.t.removed
    requires l'.t.dispatchCount == l.t.dispatchCount && l'.t.responseCount == l.t.responseCount
    requires l'.t.executionCount == l.t.executionCount && l'.t.lastHTTPCode == l.t.lastHTTPCode
    requires !l.t.removed ==> |Flying(l'.mine)| == |Flying(l.mine)|
    ensures Counted(l')
  {
  }

  /** A continuation that is not in flight, before or after, moves, appears or disappears. */
  lemma FlyingKept(mine: map<nat, Phase>, i: nat, p: Phase)
    requires i in mine ==> !mine[i].InFlight?
    requires !p.InFlight?
    ensures Flying(mine[i := p]) == Flying(mine)
    ensures Flying(mine - {i}) == Flying(mine)
  {
    FlyingUpdate(mine, i, p);
    FlyingRemove(mine, {i});
  }

  lemma CountedDetach(l: Life, e: Event)
    requires Counted(l) && !l.t.removed
    requires Matches(e, l.h, WasRemoved)
    ensures Counted(DetachLife(l).(log := l.log + [e]))
  {
    CountsAppend(l.log, e, l.h);
    LastCodeAppend(l.log, e);
  }

  lemma CountedBegin(l: Life, e: Env, i: nat)
    requires Counted(l) && Allowed(l, e, Begin(i))
    ensures Counted(Act(l, e, Begin(i)))
  {
    if l.t.removed {
      FinishedSets(l.mine, i);
      CountedFrame(l, FinishLife(l, i));
    } else {
      var l' := Act(l, e, Begin(i));
      assert l'.t == l.t;
      var ev := Started(l.h, i, l.mine[i].Admitted?, l.t.dispatchCount, l.t.scheduleTime, e.now);
      CountsAppend(l.log, ev, l.h);
      LastCodeAppend(l.log, ev);
      FlyingUpdate(l.mine, i, InFlight(Slot(l.mine[i]), e.now));
      assert i !in Flying(l.mine);
    }
  }

  /** The task's counters are the counts of a history. */
  ghost predicate Agrees(t: TaskState, log: seq<Event>, h: nat) {
    && t.dispatchCount == Wrap32(Count(log, h, WasApplied))
    && t.responseCount == Wrap32(Count(log, h, HadResponse))
    && t.executionCount == Wrap32(Count(log, h, HadNon5xx))
    && t.lastHTTPCode == LastCode(log)
  }

  /** Recording a result keeps the counters in step with the history. */
  lemma RecordAgrees(l: Life, e: Env, o: Dispatch.Outcome, dispatchTime: int, v: Verdict)
    requires Counted(l)
    ensures
      var t := Record(l.t, o, dispatchTime);
      Agrees(t, l.log + [AppliedEvent(l, e, t, o, v)], l.h)
  {
    var t := Record(l.t, o, dispatchTime);
    var ev := AppliedEvent(l, e, t, o, v);
    CountsAppend(l.log, ev, l.h);
    LastCodeAppend(l.log, ev);
    Wrap32Increment(CountOf(l, WasApplied));
    Wrap32Increment(CountOf(l, HadResponse));
    Wrap32Increment(CountOf(l, HadNon5xx));
  }

  /** The attempt is over and its result recorded, before the verdict is carried out. */
  function RecordedLife(l: Life, e: Env, i: nat, t: TaskState, o: Dispatch.Outcome, v: Verdict): Life
    requires i in l.mine
  {
    FinishLife(l.(t := if v.Retry? then t.(scheduleTime := e.now + v.delay) else t,
                  log := l.log + [AppliedEvent(l, e, t, o, v)]), i)
  }

  lemma CountedRecorded(l: Life, e: Env, i: nat, t: TaskState, o: Dispatch.Outcome, v: Verdict)
    requires Counted(l) && !l.t.removed && !t.removed && i in l.mine && l.mine[i].InFlight?
    requires Agrees(t, l.log + [AppliedEvent(l, e, t, o, v)], l.h)
    ensures Counted(RecordedLife(l, e, i, t, o, v))
  {
    CountsAppend(l.log, AppliedEvent(l, e, t, o, v), l.h);
    FinishedSets(l.mine, i);
    assert RecordedLife(l, e, i, t, o, v).mine == Finished(l.mine, i);
  }

  /** Carrying out a verdict is recording the result and then acting on it. */
  lemma SettleIsRecorded(l: Life, e: Env, i: nat, t: TaskState, o: Dispatch.Outcome, v: Verdict)
    requires i in l.mine
    ensures
      var f := RecordedLife(l, e, i, t, o, v);
      SettleLife(l, e, i, t, o, v) ==
      match v
      case Retry(_) => ScheduleLife(f, e)
      case Complete => RemoveLife(f, e, Completed)
      case Exhaust => RemoveLife(f, e, Exhausted)
  {
  }

  lemma RecordedIs(l: Life, e: Env, i: nat, t: TaskState, o: Dispatch.Outcome, v: Verdict)
    requires i in l.mine && e.nextId !in l.mine
    ensures RecordedLife(l, e, i, t, o, v).t.removed == t.removed && e.nextId !in RecordedLife(l, e, i, t, o, v).mine
  {
  }

  lemma CountedDiscard(l: Life, e: Env, reason: Reason)
    requires Counted(l) && !l.t.removed
    ensures Counted(RemoveLife(l, e, reason))
  {
    CountedDetach(l, Removed(l.h, l.t.name, reason, EffectiveTombstoneTTL(e.q, e.eng), e.now));
  }

  lemma CountedSchedule(l: Life, e: Env)
    requires Counted(l) && e.nextId !in l.mine
    ensures Counted(ScheduleLife(l, e))
  {
    FlyingKept(l.mine, e.nextId, Armed(Max(e.now, l.t.scheduleTime)));
    CountedFrame(l, ScheduleLife(l, e));
  }

  lemma CountedSettle(l: Life, e: Env, i: nat, t: TaskState, o: Dispatch.Outcome, v: Verdict)
    requires Counted(l) && !l.t.removed && !t.removed && i in l.mine && l.mine[i].InFlight? && e.nextId !in l.mine
    requires Agrees(t, l.log + [AppliedEvent(l, e, t, o, v)], l.h)
    ensures Counted(SettleLife(l, e, i, t, o, v))
  {
    var f := RecordedLife(l, e, i, t, o, v);
    SettleIsRecorded(l, e, i, t, o, v);
    CountedRecorded(l, e, i, t, o, v);
    RecordedIs(l, e, i, t, o, v);
    if v.Retry? {
      CountedSchedule(f, e);
    } else {
      CountedDiscard(f, e, if v.Complete? then Completed else Exhausted);
    }
  }

  lemma CountedGate(l: Life, e: Env, i: nat, gen: nat)
    requires Counted(l) && Allowed(l, e, Gate(i, gen)) && e.nextId !in l.mine
    ensures Counted(Act(l, e, Gate(i, gen)))
  {
    FlyingKept(l.mine, i, AtLimiter(gen));
    FlyingKept(l.mine - {i}, e.nextId, Armed(e.now + PAUSE_POLL_INTERVAL));
    CountedFrame(l, Act(l, e, Gate(i, gen)));
  }

  lemma CountedForce(l: Life, e: Env)
    requires Counted(l) && Allowed(l, e, Force) && e.nextId !in l.mine
    ensures Counted(Act(l, e, Force))
  {
    CountsAppend(l.log, RunRequested(l.h), l.h);
    LastCodeAppend(l.log, RunRequested(l.h));
    FlyingRemove(l.mine, Stoppable(l));
    assert Flying(l.mine) - Stoppable(l) == Flying(l.mine);
    FlyingKept(l.mine - Stoppable(l), e.nextId, Entered);
  }

  lemma CountedMove(l: Life, i: nat, p: Phase)
    requires Counted(l) && i in l.mine && !l.mine[i].InFlight? && !p.InFlight?
    ensures Counted(l.(mine := l.mine[i := p]))
    ensures Counted(l.(mine := l.mine - {i}))
  {
    FlyingKept(l.mine, i, p);
  }

  lemma CountedAct(l: Life, e: Env, a: Action)
    requires Counted(l) && Allowed(l, e, a) && e.nextId !in l.mine
    ensures Counted(Act(l, e, a))
  {
    match a
    case Ring(i) => CountedMove(l, i, Fired);
    case Gate(i, gen) => CountedGate(l, e, i, gen);
    case Pass(i) => CountedMove(l, i, AtSemaphore(l.mine[i].gen));
    case Take(i) => CountedMove(l, i, Admitted(l.mine[i].gen));
    case Begin(i) => CountedBegin(l, e, i);
    case Settle(i, o, dispatchTime) =>
      if l.t.removed {
        FinishedSets(l.mine, i);
        CountedFrame(l, FinishLife(l, i));
      } else {
        var t := Record(l.t, o, dispatchTime);
        var v := Judge(e.q.retryConfig, e.now, t, o);
        RecordAgrees(l, e, o, dispatchTime, v);
        CountedSettle(l, e, i, t, o, v);
      }
    case GiveBack(i) => CountedMove(l, i, Fired);
    case Force => CountedForce(l, e);
    case ExpireNow => if !l.t.removed {
      CountedDetach(l.(ttl := None), Removed(l.h, l.t.name, Expired, EffectiveTombstoneTTL(e.q, e.eng), e.now));
    }
    case Drop => CountedDetach(l, Removed(l.h, l.t.name, Deleted, EffectiveTombstoneTTL(e.q, e.eng), e.now));
    case Sweep(ev) => CountedDetach(l, ev);
    case _ =>
  }

  lemma CountedBorn(h: nat, t: NewTask, e: Env)
    ensures Counted(Born(h, FreshTask(t), e))
  {
    var ev := Created(h, t.name, e.now);
    var due := e.now + Max(0, EffectiveTaskTTL(e.q, e.eng));
    var l := Life(h, FreshTask(t), map[], Some(TtlArmed(due)), [ev]);
    assert Counted(l) by {
      CountsAppend([], ev, h);
      LastCodeAppend([], ev);
      assert [] + [ev] == [ev];
      assert Flying(map[]) == {};
    }
    FlyingKept(map[], e.nextId, Armed(Max(e.now, l.t.scheduleTime)));
    CountedFrame(l, ScheduleLife(l, e));
  }

  /** Responses below 500 are responses, and responses are results. */
  lemma {:induction false} CountsOrdered(log: seq<Event>, h: nat)
    ensures Count(log, h, HadNon5xx) <= Count(log, h, HadResponse) <= Count(log, h, WasApplied)
  {
    if log != [] {
      CountsOrdered(log[..|log| - 1], h);
    }
  }

  // ---- the retry count each delivery carries ----

  /** Every delivery of a task that was never run carries the number of deliveries before it. */
  ghost predicate Numbered(l: Life) {
    Runs(l) == 0 ==>
      forall j | 0 <= j < |l.log| && l.log[j].Started? ::
        l.log[j].retryCount == Wrap32(Count(l.log[..j], l.h, WasStarted))
  }

  lemma NumberedAppend(l: Life, l': Life, e: Event)
    requires Numbered(l) && l'.h == l.h && l'.log == l.log + [e]
    requires e.Started? && Runs(l') == 0 ==> e.retryCount == Wrap32(CountOf(l, WasStarted))
    ensures Numbered(l')
  {
    CountAppend1(l.log, e, l.h, WasRun);
    assert l'.log[..|l.log|] == l.log;
    assert forall j | 0 <= j < |l.log| :: l'.log[..j] == l.log[..j] && l'.log[j] == l.log[j];
  }

  /** Without RunTask, the delivery that begins is the only continuation pending. */
  lemma NothingElseFlies(l: Life, pullQueue: bool, i: nat)
    requires Tracked(l, pullQueue) && Runs(l) == 0 && i in Pending(l.mine) && !l.mine[i].InFlight?
    ensures Flying(l.mine) == {} && Pending(l.mine) == {i}
  {
    assert |Pending(l.mine) - {i}| == 0;
    assert Flying(l.mine) <= Pending(l.mine) - {i};
  }

  lemma NumberedSettle(l: Life, e: Env, i: nat, t: TaskState, o: Dispatch.Outcome, v: Verdict)
    requires Numbered(l) && i in l.mine
    ensures Numbered(SettleLife(l, e, i, t, o, v))
  {
    var ev := AppliedEvent(l, e, t, o, v);
    var l1 := l.(log := l.log + [ev]);
    NumberedAppend(l, l1, ev);
    var l' := SettleLife(l, e, i, t, o, v);
    if !v.Retry? {
      NumberedAppend(l1, l', l'.log[|l'.log| - 1]);
    }
  }

  lemma NumberedAct(l: Life, e: Env, a: Action)
    requires Numbered(l) && Counted(l) && Tracked(l, e.q.pull) && Allowed(l, e, a)
    ensures Numbered(Act(l, e, a))
  {
    var l' := Act(l, e, a);
    match a
    case Begin(i) =>
      if !l.t.removed {
        if Runs(l) == 0 {
          NothingElseFlies(l, e.q.pull, i);
        }
        RunsKept(l.log, l'.log[|l.log|], l.h);
        NumberedAppend(l, l', l'.log[|l.log|]);
      }
    case Settle(i, o, dispatchTime) =>
      if !l.t.removed {
        var t := Record(l.t, o, dispatchTime);
        NumberedSettle(l, e, i, t, o, Judge(e.q.retryConfig, e.now, t, o));
      }
    case Force => NumberedAppend(l, l', RunRequested(l.h));
    case ExpireNow => if !l.t.removed { NumberedAppend(l, l', l'.log[|l.log|]); }
    case Drop => NumberedAppend(l, l', l'.log[|l.log|]);
    case Sweep(ev) => NumberedAppend(l, l', ev);
    case _ =>
  }
}
