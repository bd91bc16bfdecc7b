/**
 A task whose target always fails, over every run: the moves its one continuation still has
 before the task is dropped are known exactly, each move it makes on a running queue uses up
 one of them, and nothing else does.
 */
module Exhaustion {
  import opened Wrappers
  import opened Types
  import opened Lifecycle
  import opened History
  import opened Life
  import opened Projection
  import opened Lives
  import opened Tracking
  import opened Bounds
  import opened Guarantees
  import Dispatch

  /** The moves from a phase to the result of its attempt: timer, gate, limiter, token, snapshot, result. */
  function MovesToResult(p: Phase): nat {
    match p
    case Armed(_) => 6
    case Fired => 5
    case AtLimiter(_) => 4
    case AtSemaphore(_) => 3
    case Admitted(_) => 2
    case Entered => 2
    case InFlight(_, _) => 1
    case Returning(_) => 0
  }

  /** The continuation that is pending, when there is one. */
  ghost function Current(mine: map<nat, Phase>): nat
    requires Pending(mine) != {}
  {
    var i :| i in Pending(mine);
    i
  }

  /** The moves left: six for each further attempt and those of the present one. */
  ghost function MovesLeft(l: Life, m: int): int {
    if l.t.removed || Pending(l.mine) == {} then 0
    else 6 * (m - 1 - l.t.dispatchCount) + MovesToResult(l.mine[Current(l.mine)])
  }

  /** Neither run by RunTask, nor delivered with success, nor removed from outside. */
  predicate LeftAlone(e: Event) {
    match e
    case RunRequested(_) => false
    case Applied(_, _, success, _, _, _, _, _) => !success
    case Removed(_, _, reason, _, _) => reason == Exhausted
    case Purged(_, _, _, _, _) => false
    case Stopped(_, _) => false
    case _ => true
  }

  predicate OnlyFails(log: seq<Event>) {
    forall j | 0 <= j < |log| :: LeftAlone(log[j])
  }

  /** Live with one pending continuation and attempts left, or dropped as exhausted with nothing pending. */
  ghost predicate OnCourse(l: Life, m: int) {
    if l.t.removed then Pending(l.mine) == {} && l.log != [] && Ends(l.log[|l.log| - 1], Exhausted)
    else 0 <= l.t.dispatchCount < m && OnePending(l.mine)
  }

  ghost predicate OnePending(mine: map<nat, Phase>) {
    exists i :: Pending(mine) == {i}
  }

  lemma TheCurrent(mine: map<nat, Phase>, i: nat)
    requires Pending(mine) == {i}
    ensures Current(mine) == i && i in mine && !mine[i].Returning?
  {
    assert i in Pending(mine);
  }

  lemma LeftOf(l: Life, m: int, i: nat)
    requires !l.t.removed && Pending(l.mine) == {i}
    ensures i in l.mine && MovesLeft(l, m) == 6 * (m - 1 - l.t.dispatchCount) + MovesToResult(l.mine[i])
  {
    TheCurrent(l.mine, i);
  }

  /** What an action uses up: one for a move, except that a closed gate sends the task back to its timer. */
  function Cost(e: Env, a: Action): int {
    match a
    case Ring(_) => 1
    case Gate(_, _) => if e.q.state == Running then 1 else -1
    case Pass(_) => 1
    case Take(_) => 1
    case Begin(_) => 1
    case Settle(_, _, _) => 1
    case _ => 0
  }

  // ---- one action ----

  lemma MoveCosts(l: Life, m: int, i: nat, p: Phase)
    requires OnCourse(l, m) && !l.t.removed && i in Pending(l.mine) && !p.Returning?
    ensures
      var l' := l.(mine := l.mine[i := p]);
      OnCourse(l', m) && MovesLeft(l', m) == MovesLeft(l, m) - MovesToResult(l.mine[i]) + MovesToResult(p)
  {
    var j :| Pending(l.mine) == {j};
    assert i == j;
    PendingUpdate(l.mine, i, p);
    var l' := l.(mine := l.mine[i := p]);
    assert Pending(l'.mine) == {i};
    LeftOf(l, m, i);
    LeftOf(l', m, i);
  }

  lemma HeldCosts(l: Life, e: Env, m: int, i: nat, gen: nat)
    requires OnCourse(l, m) && !l.t.removed && Allowed(l, e, Gate(i, gen)) && e.nextId !in l.mine && e.q.state != Running
    ensures
      var l' := Act(l, e, Gate(i, gen));
      OnCourse(l', m) && MovesLeft(l', m) == MovesLeft(l, m) + 1
  {
    var j :| Pending(l.mine) == {j};
    assert i in Pending(l.mine);
    var l' := Act(l, e, Gate(i, gen));
    PendingRemove(l.mine, {i});
    PendingUpdate(l.mine - {i}, e.nextId, Armed(e.now + PAUSE_POLL_INTERVAL));
    assert Pending(l'.mine) == {e.nextId};
    LeftOf(l, m, i);
    LeftOf(l', m, e.nextId);
  }

  lemma RetryCosts(l: Life, e: Env, i: nat, t: TaskState, o: Dispatch.Outcome, delay: int, m: int)
    requires OnCourse(l, m) && !l.t.removed && IsPush(l, e.q.pull) && e.nextId !in l.mine
    requires i in l.mine && l.mine[i].InFlight?
    requires !t.removed && t.pull == l.t.pull && t.dispatchCount == l.t.dispatchCount + 1 < m
    ensures
      var l' := SettleLife(l, e, i, t, o, Retry(delay));
      OnCourse(l', m) && MovesLeft(l', m) == MovesLeft(l, m) - 1
  {
    var j :| Pending(l.mine) == {j};
    assert i in Pending(l.mine);
    var l' := SettleLife(l, e, i, t, o, Retry(delay));
    FinishedSets(l.mine, i);
    PendingUpdate(Finished(l.mine, i), e.nextId, Armed(Max(e.now, e.now + delay)));
    assert l'.mine == Finished(l.mine, i)[e.nextId := Armed(Max(e.now, e.now + delay))];
    assert Pending(l'.mine) == {e.nextId};
    LeftOf(l, m, i);
    LeftOf(l', m, e.nextId);
  }

  lemma DropCosts(l: Life, e: Env, i: nat, t: TaskState, o: Dispatch.Outcome, m: int)
    requires OnCourse(l, m) && !l.t.removed && i in l.mine && l.mine[i].InFlight?
    requires l.t.dispatchCount + 1 == m
    ensures
      var l' := SettleLife(l, e, i, t, o, Exhaust);
      OnCourse(l', m) && MovesLeft(l', m) == MovesLeft(l, m) - 1
  {
    var j :| Pending(l.mine) == {j};
    assert i in Pending(l.mine);
    var f := FinishLife(l.(t := t, log := l.log + [AppliedEvent(l, e, t, o, Exhaust)]), i);
    FinishedSets(l.mine, i);
    assert f.mine == Finished(l.mine, i);
    PendingRemove(f.mine, Stoppable(f));
    LeftOf(l, m, i);
  }

  lemma ResultCosts(l: Life, e: Env, i: nat, o: Dispatch.Outcome, dispatchTime: int, m: int)
    requires OnCourse(l, m) && IsPush(l, e.q.pull) && e.nextId !in l.mine && Allows(e.q.retryConfig, m)
    requires Allowed(l, e, Settle(i, o, dispatchTime)) && !Dispatch.IsSuccess(o)
    ensures
      var l' := Act(l, e, Settle(i, o, dispatchTime));
      OnCourse(l', m) && MovesLeft(l', m) == MovesLeft(l, m) - 1
  {
    assert i in Pending(l.mine);
    var t := Record(l.t, o, dispatchTime);
    var v := Judge(e.q.retryConfig, e.now, t, o);
    assert t.dispatchCount == l.t.dispatchCount + 1;
    if v.Retry? {
      RetryCosts(l, e, i, t, o, v.delay, m);
    } else {
      DropCosts(l, e, i, t, o, m);
    }
  }

  lemma RestCosts(l: Life, l': Life, m: int)
    requires OnCourse(l, m) && l'.t == l.t && l'.log == l.log
    requires l'.mine == l.mine || exists i :: i in l.mine && l.mine[i].Returning? && l'.mine == l.mine - {i}
    ensures OnCourse(l', m) && MovesLeft(l', m) == MovesLeft(l, m)
  {
    if l'.mine != l.mine {
      var i :| i in l.mine && l.mine[i].Returning? && l'.mine == l.mine - {i};
      PendingRemove(l.mine, {i});
      assert Pending(l'.mine) == Pending(l.mine);
    }
    if !l.t.removed {
      var j :| Pending(l.mine) == {j};
      LeftOf(l, m, j);
      LeftOf(l', m, j);
    }
  }

  /** The outcome that a settled life recorded is the one its history shows. */
  lemma SettledOutcome(l: Life, e: Env, i: nat, o: Dispatch.Outcome, dispatchTime: int)
    requires Allowed(l, e, Settle(i, o, dispatchTime)) && !l.t.removed
    requires OnlyFails(Act(l, e, Settle(i, o, dispatchTime)).log)
    ensures !Dispatch.IsSuccess(o)
  {
    var t := Record(l.t, o, dispatchTime);
    var v := Judge(e.q.retryConfig, e.now, t, o);
    SettleLifeLog(l, e, i, t, o, v);
    var log := Act(l, e, Settle(i, o, dispatchTime)).log;
    assert log[|l.log|] == AppliedEvent(l, e, t, o, v);
    assert LeftAlone(log[|l.log|]);
  }

  /** An action that runs or removes the task from outside. */
  predicate FromOutside(l: Life, a: Action) {
    a.Force? || a.Drop? || a.Sweep? || (a.ExpireNow? && !l.t.removed)
  }

  lemma OutsideShows(l: Life, e: Env, a: Action)
    requires Allowed(l, e, a) && FromOutside(l, a)
    ensures !OnlyFails(Act(l, e, a).log)
  {
    ActLog(l, e, a);
    var own := OwnEvent(l, e, a);
    assert own.Some? && !LeftAlone(own.value);
    assert Act(l, e, a).log[|l.log|] == own.value;
  }

  /** Every action keeps a failing task on course and uses up exactly what it costs. */
  lemma CourseAct(l: Life, e: Env, a: Action, m: int)
    requires OnCourse(l, m) && IsPush(l, e.q.pull) && e.nextId !in l.mine && Allows(e.q.retryConfig, m)
    requires Allowed(l, e, a) && OnlyFails(Act(l, e, a).log)
    ensures OnCourse(Act(l, e, a), m) && MovesLeft(Act(l, e, a), m) == MovesLeft(l, m) - Cost(e, a)
  {
    var l' := Act(l, e, a);
    if FromOutside(l, a) {
      OutsideShows(l, e, a);
    }
    match a
    case Rest => RestCosts(l, l', m);
    case Ring(i) => assert i in Pending(l.mine); MoveCosts(l, m, i, Fired);
    case Gate(i, gen) =>
      assert i in Pending(l.mine);
      if e.q.state == Running { MoveCosts(l, m, i, AtLimiter(gen)); } else { HeldCosts(l, e, m, i, gen); }
    case Pass(i) => assert i in Pending(l.mine); MoveCosts(l, m, i, AtSemaphore(l.mine[i].gen));
    case Take(i) => assert i in Pending(l.mine); MoveCosts(l, m, i, Admitted(l.mine[i].gen));
    case Begin(i) =>
      assert i in Pending(l.mine);
      MoveCosts(l, m, i, InFlight(Slot(l.mine[i]), e.now));
      CourseLog(l.(mine := l'.mine), l', m);
    case Settle(i, o, dispatchTime) =>
      assert i in Pending(l.mine);
      SettledOutcome(l, e, i, o, dispatchTime);
      ResultCosts(l, e, i, o, dispatchTime, m);
    case GiveBack(i) => RestCosts(l, l', m);
    case RingTtl => RestCosts(l, l', m);
    case ExpireNow => if l.t.removed { RestCosts(l, l', m); }
    case _ =>
  }

  /** Events do not matter to a live task's course. */
  lemma CourseLog(l: Life, l': Life, m: int)
    requires OnCourse(l, m) && !l.t.removed && l'.t == l.t && l'.mine == l.mine
    ensures OnCourse(l', m) && MovesLeft(l', m) == MovesLeft(l, m)
  {
  }

  lemma CourseBorn(h: nat, t: TaskState, e: Env, m: int)
    requires m >= 1 && !t.removed && t.dispatchCount == 0 && !e.q.pull && !t.pull
    ensures OnCourse(Born(h, t, e), m) && MovesLeft(Born(h, t, e), m) == 6 * m
  {
    var l := Born(h, t, e);
    PendingUpdate(map[], e.nextId, Armed(Max(e.now, t.scheduleTime)));
    assert Pending(map[]) == {};
    assert Pending(l.mine) == {e.nextId};
    LeftOf(l, m, e.nextId);
  }

  // ---- whole runs ----

  lemma {:induction false} TaskLogGrows(log: seq<Event>, es: seq<Event>, h: nat)
    ensures TaskLog(log, h) <= TaskLog(log + es, h)
  {
    if es == [] {
      assert log + es == log;
    } else {
      var init := es[..|es| - 1];
      TaskLogGrows(log, init, h);
      assert (log + es)[..|log + es| - 1] == log + init;
    }
  }

  lemma OnlyFailsPrefix(a: seq<Event>, b: seq<Event>)
    requires a <= b && OnlyFails(b)
    ensures OnlyFails(a)
  {
    assert forall j | 0 <= j < |a| :: a[j] == b[j];
  }

  lemma OnlyFailsBefore(r: seq<System>, steps: seq<Step>, k: nat, h: nat)
    requires Run(r, steps) && 0 < k < |r| && OnlyFails(TaskLog(r[k].log, h))
    ensures OnlyFails(TaskLog(r[k - 1].log, h))
  {
    assert StepAt(r, steps, k - 1);
    FailsFollows(r[k - 1], steps[k - 1], r[k], h);
  }

  lemma FailsFollows(sys: System, step: Step, next: System, h: nat)
    requires Follows(sys, step, next) && OnlyFails(TaskLog(next.log, h))
    ensures OnlyFails(TaskLog(sys.log, h))
  {
    TaskLogGrows(sys.log, Events(sys.st, step), h);
    OnlyFailsPrefix(TaskLog(sys.log, h), TaskLog(next.log, h));
  }

  /** The continuation of a task makes a move towards the result of its attempt. */
  predicate Moves(s: QState, step: Step, h: nat) {
    && (step.TimerStep? || step.FireStep? || step.LimiterStep? || step.TakeStep? || step.SnapshotStep? || step.ApplyStep?)
    && step.i in s.conts && s.conts[step.i].task == h
  }

  function StepCost(s: QState, step: Step, h: nat): int {
    if !Moves(s, step, h) then 0
    else if step.FireStep? && s.q.state != Running then -1
    else 1
  }

  lemma CostOfStep(s: QState, step: Step, h: nat)
    requires WellFormed(s) && Enabled(s, step) && h < |s.arena|
    ensures StepCost(s, step, h) == Cost(EnvOf(s), ActionOf(s, step, h))
  {
  }

  lemma CourseStep(sys: System, step: Step, h: nat, m: int)
    requires Sound(sys.st) && Enabled(sys.st, step) && h < |sys.st.arena| && IsPushTask(sys.st, h)
    requires Allows(sys.st.q.retryConfig, m) && OnCourse(LifeOf(sys, h), m)
    requires OnlyFails(TaskLog(Next(sys, step).log, h))
    ensures h < |Next(sys, step).st.arena| && OnCourse(LifeOf(Next(sys, step), h), m)
    ensures MovesLeft(LifeOf(Next(sys, step), h), m) == MovesLeft(LifeOf(sys, h), m) - StepCost(sys.st, step, h)
  {
    StepProjects(sys, step, h);
    FreshForLife(sys, h);
    CostOfStep(sys.st, step, h);
    CourseAct(LifeOf(sys, h), EnvOf(sys.st), ActionOf(sys.st, step, h), m);
  }

  lemma PushKept(sys: System, step: Step, h: nat)
    requires Sound(sys.st) && Enabled(sys.st, step) && h < |sys.st.arena|
    ensures h < |Next(sys, step).st.arena| && (IsPushTask(Next(sys, step).st, h) <==> IsPushTask(sys.st, h))
  {
    StepProjects(sys, step, h);
    ConfigKept(sys.st, step);
    ActKeepsPull(LifeOf(sys, h), EnvOf(sys.st), ActionOf(sys.st, step, h));
  }

  lemma ActKeepsPull(l: Life, e: Env, a: Action)
    requires Allowed(l, e, a)
    ensures Act(l, e, a).t.pull == l.t.pull
  {
    if a.Settle? && !l.t.removed {
      var t := Record(l.t, a.o, a.dispatchTime);
      SettleKeepsPull(l, e, a.i, t, a.o, Judge(e.q.retryConfig, e.now, t, a.o));
    }
  }

  lemma SettleKeepsPull(l: Life, e: Env, i: nat, t: TaskState, o: Dispatch.Outcome, v: Verdict)
    requires i in l.mine
    ensures SettleLife(l, e, i, t, o, v).t.pull == t.pull
  {
  }

  lemma PushBefore(sys: System, step: Step, next: System, h: nat)
    requires Follows(sys, step, next) && Sound(sys.st) && h < |sys.st.arena| && h < |next.st.arena|
    requires IsPushTask(next.st, h)
    ensures IsPushTask(sys.st, h)
  {
    PushKept(sys, step, h);
  }

  /** On course, if the task is push and its history shows only failures. */
  ghost predicate Courses(sys: System, h: nat, m: int)
    requires h < |sys.st.arena|
  {
    IsPushTask(sys.st, h) && OnlyFails(TaskLog(sys.log, h)) ==> OnCourse(LifeOf(sys, h), m)
  }

  lemma CoursesStep(sys: System, step: Step, next: System, h: nat, m: int)
    requires Follows(sys, step, next) && Sound(sys.st) && h < |sys.st.arena| && h < |next.st.arena|
    requires Allows(sys.st.q.retryConfig, m) && Courses(sys, h, m)
    ensures Courses(next, h, m)
  {
    if IsPushTask(next.st, h) && OnlyFails(TaskLog(next.log, h)) {
      PushBefore(sys, step, next, h);
      FailsFollows(sys, step, next, h);
      CourseStep(sys, step, h, m);
    }
  }

  lemma CourseAtBirth(sys: System, step: Step, next: System, h: nat, m: int)
    requires Follows(sys, step, next) && Sound(sys.st) && Bounded(sys.log, |sys.st.arena|)
    requires |sys.st.arena| <= h < |next.st.arena| && m >= 1 && IsPushTask(next.st, h)
    ensures OnCourse(LifeOf(next, h), m)
  {
    OnlyCreateAdds(sys, step, h);
    ConfigKept(sys.st, step);
    CourseBorn(h, FreshTask(step.task), EnvOf(sys.st), m);
  }

  lemma CoursesAtBirth(sys: System, step: Step, next: System, h: nat, m: int)
    requires Follows(sys, step, next) && Sound(sys.st) && Bounded(sys.log, |sys.st.arena|)
    requires |sys.st.arena| <= h < |next.st.arena| && m >= 1
    ensures Courses(next, h, m)
  {
    if IsPushTask(next.st, h) {
      CourseAtBirth(sys, step, next, h, m);
    }
  }

  lemma {:induction false} RunCourses(r: seq<System>, steps: seq<Step>, k: nat, h: nat, m: int)
    requires Run(r, steps) && k < |r| && h < |r[k].st.arena| && AlwaysAllows(r, m)
    ensures Courses(r[k], h, m)
  {
    if k > 0 {
      RunFollows(r, steps, k - 1);
      AllowsAt(r, m, k - 1);
      if h < |r[k - 1].st.arena| {
        RunCourses(r, steps, k - 1, h, m);
        CoursesStep(r[k - 1], steps[k - 1], r[k], h, m);
      } else {
        CoursesAtBirth(r[k - 1], steps[k - 1], r[k], h, m);
      }
    }
  }

  lemma RunOnCourse(r: seq<System>, steps: seq<Step>, k: nat, h: nat, m: int)
    requires Run(r, steps) && k < |r| && h < |r[k].st.arena| && AlwaysAllows(r, m)
    requires IsPushTask(r[k].st, h) && OnlyFails(TaskLog(r[k].log, h))
    ensures OnCourse(LifeOf(r[k], h), m)
  {
    RunCourses(r, steps, k, h, m);
  }

  /** The moves that the continuation of h made from state a to state k, a poll of a closed gate counting back. */
  ghost function Spent(r: seq<System>, steps: seq<Step>, h: nat, a: nat, k: nat): int
    requires |r| == |steps| + 1 && a <= k < |r|
    decreases k
  {
    if k == a then 0 else Spent(r, steps, h, a, k - 1) + StepCost(r[k - 1].st, steps[k - 1], h)
  }

  lemma BalanceStep(sys: System, step: Step, next: System, h: nat, m: int)
    requires Follows(sys, step, next) && Sound(sys.st) && h < |sys.st.arena| && IsPushTask(sys.st, h)
    requires Allows(sys.st.q.retryConfig, m) && OnCourse(LifeOf(sys, h), m) && OnlyFails(TaskLog(next.log, h))
    ensures h < |next.st.arena| && IsPushTask(next.st, h)
    ensures MovesLeft(LifeOf(next, h), m) == MovesLeft(LifeOf(sys, h), m) - StepCost(sys.st, step, h)
  {
    PushKept(sys, step, h);
    CourseStep(sys, step, h, m);
  }

  /** The moves left of a failing task go down by exactly the moves it makes. */
  lemma {:induction false} MovesBalance(r: seq<System>, steps: seq<Step>, a: nat, k: nat, h: nat, m: int)
    requires Run(r, steps) && a <= k < |r| && h < |r[a].st.arena| && AlwaysAllows(r, m)
    requires IsPushTask(r[a].st, h) && OnlyFails(TaskLog(r[k].log, h))
    ensures h < |r[k].st.arena| && IsPushTask(r[k].st, h)
    ensures MovesLeft(LifeOf(r[k], h), m) == MovesLeft(LifeOf(r[a], h), m) - Spent(r, steps, h, a, k)
    decreases k
  {
    if k > a {
      OnlyFailsBefore(r, steps, k, h);
      MovesBalance(r, steps, a, k - 1, h, m);
      RunSound(r, steps, k - 1);
      RunOnCourse(r, steps, k - 1, h, m);
      assert StepAt(r, steps, k - 1) && Allows(r[k - 1].st.q.retryConfig, m);
      BalanceStep(r[k - 1], steps[k - 1], r[k], h, m);
    }
  }

  lemma CourseBounds(l: Life, m: int)
    requires OnCourse(l, m)
    ensures 0 <= MovesLeft(l, m) <= 6 * m || l.t.removed
    ensures MovesLeft(l, m) == 0 <==> l.t.removed
  {
    if !l.t.removed {
      var i :| Pending(l.mine) == {i};
      LeftOf(l, m, i);
      TheCurrent(l.mine, i);
    }
  }

  /**
   An always-failing target, in every run whose configuration allows m attempts: a push task
   that nobody runs, that never succeeds and that nobody removes is, in every state, either
   live with exactly one pending continuation and fewer than m results, or dropped as exhausted
   with nothing pending after exactly m deliveries and m results.
   */
  lemma FailingTaskCourse(r: seq<System>, steps: seq<Step>, k: nat, h: nat, m: int)
    requires Run(r, steps) && k < |r| && h < |r[k].st.arena| && AlwaysAllows(r, m)
    requires IsPushTask(r[k].st, h) && OnlyFails(TaskLog(r[k].log, h))
    ensures !r[k].st.arena[h].removed ==>
              |PendingOf(r[k].st, h)| == 1 && Count(r[k].log, h, WasApplied) == r[k].st.arena[h].dispatchCount < m
    ensures r[k].st.arena[h].removed ==>
              && PendingOf(r[k].st, h) == {}
              && TaskLog(r[k].log, h) != [] && Ends(TaskLog(r[k].log, h)[|TaskLog(r[k].log, h)| - 1], Exhausted)
              && Count(r[k].log, h, WasApplied) == Count(r[k].log, h, WasStarted) == m
  {
    RunOnCourse(r, steps, k, h, m);
    PendingOfLife(r[k], h);
    BoundedDelivery(r, steps, k, h, m);
    CountInTaskLog(r[k].log, h, WasRun);
    NeverRun(TaskLog(r[k].log, h), h);
  }

  lemma {:induction false} NeverRun(log: seq<Event>, h: nat)
    requires OnlyFails(log)
    ensures Count(log, h, WasRun) == 0
  {
    if log != [] {
      assert LeftAlone(log[|log| - 1]);
      NeverRun(log[..|log| - 1], h);
    }
  }

  /**
   And it gets there, in every run: over any stretch in which the queue runs, each move of the
   task's continuation uses up one of the moves left, at most six for each attempt left, no
   other step uses up any, and the task has been dropped exactly when none is left.
   */
  lemma FailingTaskEnds(r: seq<System>, steps: seq<Step>, a: nat, k: nat, h: nat, m: int)
    requires Run(r, steps) && a <= k < |r| && h < |r[a].st.arena| && AlwaysAllows(r, m)
    requires IsPushTask(r[a].st, h) && OnlyFails(TaskLog(r[k].log, h))
    requires forall j | a <= j < k :: r[j].st.q.state == Running
    ensures h < |r[k].st.arena|
    ensures
      var left := MovesLeft(LifeOf(r[a], h), m);
      && 0 <= MadeBetween(r, steps, h, a, k) <= left
      && (!r[a].st.arena[h].removed ==> left <= 6 * (m - r[a].st.arena[h].dispatchCount))
      && (r[k].st.arena[h].removed <==> MadeBetween(r, steps, h, a, k) == left)
  {
    MovesBalance(r, steps, a, k, h, m);
    MadeIsSpent(r, steps, h, a, k);
    OnlyFailsAt(r, steps, a, k, h);
    RunOnCourse(r, steps, a, h, m);
    RunOnCourse(r, steps, k, h, m);
    CourseBounds(LifeOf(r[a], h), m);
    CourseBounds(LifeOf(r[k], h), m);
  }

  /** How many moves the continuation of h made from state a to state k. */
  ghost function MadeBetween(r: seq<System>, steps: seq<Step>, h: nat, a: nat, k: nat): nat
    requires |r| == |steps| + 1 && a <= k < |r|
    decreases k
  {
    if k == a then 0
    else MadeBetween(r, steps, h, a, k - 1) + if Moves(r[k - 1].st, steps[k - 1], h) then 1 else 0
  }

  lemma {:induction false} MadeIsSpent(r: seq<System>, steps: seq<Step>, h: nat, a: nat, k: nat)
    requires |r| == |steps| + 1 && a <= k < |r|
    requires forall j | a <= j < k :: r[j].st.q.state == Running
    ensures MadeBetween(r, steps, h, a, k) == Spent(r, steps, h, a, k)
    decreases k
  {
    if k > a {
      MadeIsSpent(r, steps, h, a, k - 1);
    }
  }

  lemma {:induction false} OnlyFailsAt(r: seq<System>, steps: seq<Step>, a: nat, k: nat, h: nat)
    requires Run(r, steps) && a <= k < |r| && OnlyFails(TaskLog(r[k].log, h))
    ensures OnlyFails(TaskLog(r[a].log, h))
    decreases k
  {
    if k > a {
      OnlyFailsBefore(r, steps, k, h);
      OnlyFailsAt(r, steps, a, k - 1, h);
    }
  }
}
