/** No task is lost and none runs away: what is pending of a task, throughout its life. */
module Tracking {
  import opened Wrappers
  import opened Types
  import opened Lifecycle
  import opened History
  import opened Life
  import Dispatch

  // ---- tracking: no task is lost, none runs away ----

  /** The continuations that will still try, or are trying, to deliver the task. */
  function Pending(mine: map<nat, Phase>): set<nat> {
    set i | i in mine && !mine[i].Returning?
  }

  /** The deliveries under way. */
  function Flying(mine: map<nat, Phase>): set<nat> {
    set i | i in mine && mine[i].InFlight?
  }

  function Runs(l: Life): nat {
    Count(l.log, l.h, WasRun)
  }

  predicate IsPush(l: Life, pullQueue: bool) {
    !pullQueue && !l.t.pull
  }

  predicate ByRun(p: Phase) {
    p.Entered? || (p.InFlight? && p.slot.None?)
  }

  /** A live push task is pending at least once, and any task at most once more than it was run. */
  ghost predicate Tracked(l: Life, pullQueue: bool) {
    && |Pending(l.mine)| <= 1 + Runs(l)
    && (!l.t.removed && IsPush(l, pullQueue) ==> Pending(l.mine) != {})
    && (!IsPush(l, pullQueue) ==> l.mine == map[])
    && (forall i | i in l.mine && ByRun(l.mine[i]) :: Runs(l) >= 1)
  }

  // ---- how the sets change ----

  lemma PendingUpdate(mine: map<nat, Phase>, i: nat, p: Phase)
    ensures Pending(mine[i := p]) == if p.Returning? then Pending(mine) - {i} else Pending(mine) + {i}
  {
  }

  lemma PendingRemove(mine: map<nat, Phase>, gone: set<nat>)
    ensures Pending(mine - gone) == Pending(mine) - gone
  {
  }

  lemma FlyingUpdate(mine: map<nat, Phase>, i: nat, p: Phase)
    ensures Flying(mine[i := p]) == if p.InFlight? then Flying(mine) + {i} else Flying(mine) - {i}
  {
  }

  lemma FlyingRemove(mine: map<nat, Phase>, gone: set<nat>)
    ensures Flying(mine - gone) == Flying(mine) - gone
  {
  }

  lemma {:induction false} SubsetSize<T>(a: set<T>, b: set<T>)
    requires a <= b
    ensures |a| <= |b|
  {
    if a != {} {
      var x :| x in a;
      SubsetSize(a - {x}, b - {x});
    }
  }

  /** The mine of a life in which one attempt is over. */
  function Finished(mine: map<nat, Phase>, i: nat): map<nat, Phase>
    requires i in mine
  {
    match Slot(mine[i])
    case Some(g) => mine[i := Returning(g)]
    case None => mine - {i}
  }

  lemma FinishedSets(mine: map<nat, Phase>, i: nat)
    requires i in mine
    ensures Pending(Finished(mine, i)) == Pending(mine) - {i}
    ensures Flying(Finished(mine, i)) == Flying(mine) - {i}
    ensures forall j | j in Finished(mine, i) && ByRun(Finished(mine, i)[j]) :: j in mine && ByRun(mine[j])
  {
    match Slot(mine[i])
    case Some(g) =>
      PendingUpdate(mine, i, Returning(g));
      FlyingUpdate(mine, i, Returning(g));
    case None =>
      PendingRemove(mine, {i});
      FlyingRemove(mine, {i});
  }

  /** Appending an event that is not a RunTask keeps the allowance. */
  lemma RunsKept(log: seq<Event>, e: Event, h: nat)
    ensures Count(log + [e], h, WasRun) == Count(log, h, WasRun) + if e.RunRequested? && e.h == h then 1 else 0
  {
    CountAppend1(log, e, h, WasRun);
  }

  // ---- tracking is kept ----

  /** Shrinking what is pending of a removed task keeps it tracked. */
  lemma TrackedShrink(l: Life, l': Life, pullQueue: bool)
    requires Tracked(l, pullQueue)
    requires l'.h == l.h && l'.t.pull == l.t.pull && Runs(l') == Runs(l)
    requires Pending(l'.mine) <= Pending(l.mine)
    requires forall j | j in l'.mine :: j in l.mine && (ByRun(l'.mine[j]) ==> ByRun(l.mine[j]))
    requires !l'.t.removed && IsPush(l', pullQueue) ==> Pending(l'.mine) != {}
    ensures Tracked(l', pullQueue)
  {
    SubsetSize(Pending(l'.mine), Pending(l.mine));
  }

  lemma TrackedMove(l: Life, pullQueue: bool, i: nat, p: Phase)
    requires Tracked(l, pullQueue) && i in l.mine
    requires p.Returning? == l.mine[i].Returning? && (ByRun(p) ==> ByRun(l.mine[i]))
    ensures Tracked(l.(mine := l.mine[i := p]), pullQueue)
  {
    PendingUpdate(l.mine, i, p);
    assert Pending(l.mine[i := p]) == Pending(l.mine);
  }

  /** One pending continuation replaced by a fresh timer. */
  lemma TrackedRearm(l: Life, l': Life, pullQueue: bool, i: nat, id: nat, due: int)
    requires Tracked(l, pullQueue) && i in Pending(l.mine) && id !in l.mine && IsPush(l, pullQueue)
    requires l'.h == l.h && l'.t.pull == l.t.pull && Runs(l') == Runs(l)
    requires l'.mine == (l.mine - {i})[id := Armed(due)] || l'.mine == Finished(l.mine, i)[id := Armed(due)]
    ensures Tracked(l', pullQueue)
  {
    PendingRemove(l.mine, {i});
    FinishedSets(l.mine, i);
    PendingUpdate(l.mine - {i}, id, Armed(due));
    PendingUpdate(Finished(l.mine, i), id, Armed(due));
    assert Pending(l'.mine) == Pending(l.mine) - {i} + {id};
  }

  lemma TrackedForce(l: Life, e: Env, pullQueue: bool)
    requires Tracked(l, pullQueue) && IsPush(l, pullQueue) && Allowed(l, e, Force) && e.nextId !in l.mine
    ensures Tracked(Act(l, e, Force), pullQueue)
  {
    RunsKept(l.log, RunRequested(l.h), l.h);
    PendingRemove(l.mine, Stoppable(l));
    PendingUpdate(l.mine - Stoppable(l), e.nextId, Entered);
    SubsetSize(Pending(l.mine) - Stoppable(l), Pending(l.mine));
  }

  lemma TrackedFinish(l: Life, pullQueue: bool, i: nat)
    requires Tracked(l, pullQueue) && i in l.mine && l.t.removed
    ensures Tracked(FinishLife(l, i), pullQueue)
  {
    FinishedSets(l.mine, i);
    TrackedShrink(l, FinishLife(l, i), pullQueue);
  }

  lemma TrackedGate(l: Life, e: Env, i: nat, gen: nat)
    requires Tracked(l, e.q.pull) && Allowed(l, e, Gate(i, gen)) && e.nextId !in l.mine
    ensures Tracked(Act(l, e, Gate(i, gen)), e.q.pull)
  {
    if l.t.removed {
      PendingRemove(l.mine, {i});
      TrackedShrink(l, l.(mine := l.mine - {i}), e.q.pull);
    } else if e.q.state != Running {
      TrackedRearm(l, Act(l, e, Gate(i, gen)), e.q.pull, i, e.nextId, e.now + PAUSE_POLL_INTERVAL);
    } else {
      TrackedMove(l, e.q.pull, i, AtLimiter(gen));
    }
  }

  lemma TrackedBegin(l: Life, e: Env, i: nat)
    requires Tracked(l, e.q.pull) && Allowed(l, e, Begin(i))
    ensures Tracked(Act(l, e, Begin(i)), e.q.pull)
  {
    if l.t.removed {
      TrackedFinish(l, e.q.pull, i);
    } else {
      var ev := Started(l.h, i, l.mine[i].Admitted?, l.t.dispatchCount, l.t.scheduleTime, e.now);
      RunsKept(l.log, ev, l.h);
      TrackedMove(l, e.q.pull, i, InFlight(Slot(l.mine[i]), e.now));
    }
  }

  lemma TrackedRetry(l: Life, e: Env, i: nat, t: TaskState, o: Dispatch.Outcome, delay: int)
    requires Tracked(l, e.q.pull) && i in Pending(l.mine) && e.nextId !in l.mine
    requires t.pull == l.t.pull && !t.removed
    ensures Tracked(SettleLife(l, e, i, t, o, Retry(delay)), e.q.pull)
  {
    RunsKept(l.log, AppliedEvent(l, e, t, o, Retry(delay)), l.h);
    assert IsPush(l, e.q.pull);
    TrackedRearm(l, SettleLife(l, e, i, t, o, Retry(delay)), e.q.pull, i, e.nextId, Max(e.now, e.now + delay));
  }

  lemma TrackedDiscard(l: Life, e: Env, i: nat, t: TaskState, applied: Event, reason: Reason)
    requires Tracked(l, e.q.pull) && i in Pending(l.mine) && !applied.RunRequested? && t.pull == l.t.pull
    ensures Tracked(RemoveLife(FinishLife(l.(t := t, log := l.log + [applied]), i), e, reason), e.q.pull)
  {
    var f := FinishLife(l.(t := t, log := l.log + [applied]), i);
    RunsKept(l.log, applied, l.h);
    RunsKept(l.log + [applied], Removed(l.h, t.name, reason, EffectiveTombstoneTTL(e.q, e.eng), e.now), l.h);
    FinishedSets(l.mine, i);
    PendingRemove(f.mine, Stoppable(f));
    TrackedShrink(l, RemoveLife(f, e, reason), e.q.pull);
  }

  lemma TrackedSettle(l: Life, e: Env, i: nat, t: TaskState, o: Dispatch.Outcome, v: Verdict)
    requires Tracked(l, e.q.pull) && i in Pending(l.mine) && e.nextId !in l.mine
    requires t.pull == l.t.pull && !t.removed
    ensures Tracked(SettleLife(l, e, i, t, o, v), e.q.pull)
  {
    match v
    case Retry(delay) => TrackedRetry(l, e, i, t, o, delay);
    case Complete => TrackedDiscard(l, e, i, t, AppliedEvent(l, e, t, o, v), Completed);
    case Exhaust => TrackedDiscard(l, e, i, t, AppliedEvent(l, e, t, o, v), Exhausted);
  }

  lemma TrackedDetach(l: Life, pullQueue: bool, ev: Event)
    requires Tracked(l, pullQueue) && !ev.RunRequested?
    ensures Tracked(DetachLife(l).(log := l.log + [ev]), pullQueue)
  {
    RunsKept(l.log, ev, l.h);
    PendingRemove(l.mine, Stoppable(l));
    TrackedShrink(l, DetachLife(l).(log := l.log + [ev]), pullQueue);
  }

  lemma TrackedAct(l: Life, e: Env, a: Action)
    requires Tracked(l, e.q.pull) && Allowed(l, e, a) && e.nextId !in l.mine
    ensures Tracked(Act(l, e, a), e.q.pull)
  {
    match a
    case Ring(i) => TrackedMove(l, e.q.pull, i, Fired);
    case Gate(i, gen) => TrackedGate(l, e, i, gen);
    case Pass(i) => TrackedMove(l, e.q.pull, i, AtSemaphore(l.mine[i].gen));
    case Take(i) => TrackedMove(l, e.q.pull, i, Admitted(l.mine[i].gen));
    case Begin(i) => TrackedBegin(l, e, i);
    case Settle(i, o, dispatchTime) =>
      if l.t.removed {
        TrackedFinish(l, e.q.pull, i);
      } else {
        var t := Record(l.t, o, dispatchTime);
        TrackedSettle(l, e, i, t, o, Judge(e.q.retryConfig, e.now, t, o));
      }
    case GiveBack(i) =>
      PendingRemove(l.mine, {i});
      assert Pending(l.mine) - {i} == Pending(l.mine);
      TrackedShrink(l, l.(mine := l.mine - {i}), e.q.pull);
    case Force => TrackedForce(l, e, e.q.pull);
    case ExpireNow => if !l.t.removed {
      TrackedDetach(l.(ttl := None), e.q.pull, Removed(l.h, l.t.name, Expired, EffectiveTombstoneTTL(e.q, e.eng), e.now));
    }
    case Drop => TrackedDetach(l, e.q.pull, Removed(l.h, l.t.name, Deleted, EffectiveTombstoneTTL(e.q, e.eng), e.now));
    case Sweep(ev) => TrackedDetach(l, e.q.pull, ev);
    case _ =>
  }

  lemma TrackedBorn(h: nat, t: TaskState, e: Env)
    requires !t.removed
    ensures Tracked(Born(h, t, e), e.q.pull)
  {
    var log := [Created(h, t.name, e.now)];
    assert log == [] + log;
    RunsKept([], log[0], h);
    PendingUpdate(map[], e.nextId, Armed(Max(e.now, t.scheduleTime)));
    assert Pending(map[]) == {};
  }
}
