/**
 What can still happen from a reachable state when nobody calls the API: every live push task
 of a running queue can be delivered, whatever its continuation waits for, and a task whose
 target always fails can be brought to its end.
 */
module Progress {
  import opened Wrappers
  import opened Types
  import opened Lifecycle
  import opened History
  import opened Life
  import opened Projection
  import opened Lives
  import opened Tracking
  import opened Counters
  import opened Semaphores
  import opened Guarantees
  import Dispatch

  // ---- what the clock, the timers and the deliveries do by themselves ----

  /** A step that is no API call. */
  predicate Internal(step: Step) {
    || step.Tick? || step.TimerStep? || step.FireStep? || step.LimiterStep? || step.TakeStep? || step.SnapshotStep?
    || step.ApplyStep? || step.ReturnStep? || step.TtlStep? || step.ExpireStep? || step.CleanupStep?
  }

  ghost predicate InternalPath(r: seq<System>, steps: seq<Step>) {
    Path(r, steps) && forall k | 0 <= k < |steps| :: Internal(steps[k])
  }

  /** The first system can become the second without an API call. */
  ghost predicate Unfolds(a: System, b: System) {
    exists r, steps :: InternalPath(r, steps) && r[0] == a && r[|r| - 1] == b
  }

  lemma UnfoldsSelf(a: System)
    requires WellFormed(a.st)
    ensures Unfolds(a, a)
  {
    assert InternalPath([a], []);
    assert [a][|[a]| - 1] == a;
  }

  lemma InternalExtends(r: seq<System>, steps: seq<Step>, step: Step)
    requires InternalPath(r, steps) && WellFormed(r[|r| - 1].st) && Enabled(r[|r| - 1].st, step) && Internal(step)
    ensures InternalPath(r + [Next(r[|r| - 1], step)], steps + [step])
  {
    PathExtends(r, steps, step);
  }

  lemma UnfoldsNext(a: System, b: System, step: Step)
    requires Unfolds(a, b) && WellFormed(b.st) && Enabled(b.st, step) && Internal(step)
    ensures Unfolds(a, Next(b, step))
  {
    var r, steps :| InternalPath(r, steps) && r[0] == a && r[|r| - 1] == b;
    InternalExtends(r, steps, step);
    var r', steps' := r + [Next(b, step)], steps + [step];
    assert r'[0] == a && r'[|r'| - 1] == Next(b, step);
  }

  // ---- what holds of reachable systems ----

  lemma SoundHere(sys: System)
    requires Reachable(sys)
    ensures Sound(sys.st)
  {
    var r, steps :| Run(r, steps) && r[|r| - 1] == sys;
    RunSound(r, steps, |r| - 1);
  }

  lemma KeptHere(sys: System, h: nat)
    requires Reachable(sys) && h < |sys.st.arena|
    ensures Kept(LifeOf(sys, h), EnvOf(sys.st))
  {
    var r, steps :| Run(r, steps) && r[|r| - 1] == sys;
    RunKept(r, steps, |r| - 1, h);
  }

  lemma ConservedHere(sys: System, g: nat)
    requires Reachable(sys)
    ensures Conserved(sys.st.limits, sys.st.conts, g)
  {
    var r, steps :| Run(r, steps) && r[|r| - 1] == sys;
    TokensConserved(r, steps, |r| - 1, g);
  }

  lemma InternalKeepsQueue(s: QState, step: Step)
    requires WellFormed(s) && Enabled(s, step) && Internal(step)
    ensures NextState(s, step).q == s.q && s.now <= NextState(s, step).now
  {
  }

  /** A reachable running queue that the system a can become. */
  ghost predicate On(a: System, sys: System) {
    Reachable(sys) && Sound(sys.st) && sys.st.q.state == Running && Unfolds(a, sys)
  }

  lemma Go(a: System, sys: System, step: Step) returns (next: System)
    requires On(a, sys) && Enabled(sys.st, step) && Internal(step)
    ensures next == Next(sys, step) && On(a, next) && next.st.q == sys.st.q
  {
    next := Next(sys, step);
    ReachableNext(sys, step);
    SoundHere(next);
    UnfoldsNext(a, sys, step);
    InternalKeepsQueue(sys.st, step);
  }

  // ---- one task ----

  /** A live push task whose continuation i stands in the given phase. */
  ghost predicate Standing(s: QState, h: nat, i: nat, p: Phase) {
    && h < |s.arena|
    && !s.arena[h].removed
    && IsPushTask(s, h)
    && i in s.conts && s.conts[i] == Cont(h, p)
  }

  /** No delivery of the task is under way. */
  predicate Idle(s: QState, h: nat) {
    forall i | i in s.conts && s.conts[i].task == h :: !s.conts[i].phase.InFlight?
  }

  /** The task itself and its history are as before. */
  ghost predicate SameTask(a: System, b: System, h: nat)
    requires h < |a.st.arena|
  {
    && h < |b.st.arena|
    && b.st.arena[h] == a.st.arena[h]
    && TaskLog(b.log, h) == TaskLog(a.log, h)
  }

  /** A delivery of h has started that had not before. */
  ghost predicate Delivers(a: System, b: System, h: nat)
    requires h < |a.st.arena|
  {
    && h < |b.st.arena|
    && b.st.arena[h] == a.st.arena[h]
    && Count(TaskLog(b.log, h), h, WasStarted) == Count(TaskLog(a.log, h), h, WasStarted) + 1
    && Count(TaskLog(b.log, h), h, WasApplied) == Count(TaskLog(a.log, h), h, WasApplied)
    && Count(TaskLog(b.log, h), h, WasRun) == Count(TaskLog(a.log, h), h, WasRun)
    && !Idle(b.st, h)
  }

  /** The next phase on the way from an armed timer to a token. */
  function MovedTo(p: Phase, gens: nat): Phase
    requires gens >= 1
  {
    match p
    case Armed(_) => Fired
    case Fired => AtLimiter(gens - 1)
    case AtLimiter(g) => AtSemaphore(g)
    case AtSemaphore(g) => Admitted(g)
    case _ => p
  }

  lemma IdleLife(sys: System, h: nat)
    requires h < |sys.st.arena|
    ensures Idle(sys.st, h) <==> Flying(LifeOf(sys, h).mine) == {}
  {
    var mine := LifeOf(sys, h).mine;
    if Flying(mine) == {} {
      forall i | i in sys.st.conts && sys.st.conts[i].task == h ensures !sys.st.conts[i].phase.InFlight? {
        assert i !in Flying(mine);
      }
    }
  }

  /** The continuation of an idle task moves on; the task stays idle. */
  lemma MoveOn(a: System, sys: System, h: nat, i: nat, p: Phase, step: Step) returns (next: System)
    requires On(a, sys) && Standing(sys.st, h, i, p) && Idle(sys.st, h) && Enabled(sys.st, step)
    requires (step.TimerStep? || step.FireStep? || step.LimiterStep? || step.TakeStep?) && step.i == i
    ensures On(a, next) && next.st.q == sys.st.q
    ensures Standing(next.st, h, i, MovedTo(p, |sys.st.limits|)) && Idle(next.st, h) && SameTask(sys, next, h)
  {
    next := Go(a, sys, step);
    StepProjects(sys, step, h);
    var p' := MovedTo(p, |sys.st.limits|);
    assert LifeOf(next, h) == LifeOf(sys, h).(mine := LifeOf(sys, h).mine[i := p']);
    MovedLife(sys, next, h, i, p, p');
  }

  lemma MovedLife(sys: System, next: System, h: nat, i: nat, p: Phase, p': Phase)
    requires Standing(sys.st, h, i, p) && Idle(sys.st, h) && !p'.InFlight? && next.st.q == sys.st.q
    requires h < |next.st.arena| && LifeOf(next, h) == LifeOf(sys, h).(mine := LifeOf(sys, h).mine[i := p'])
    ensures Standing(next.st, h, i, p') && Idle(next.st, h) && SameTask(sys, next, h)
  {
    IdleLife(sys, h);
    assert i in LifeOf(sys, h).mine && i in LifeOf(next, h).mine;
    FlyingUpdate(LifeOf(sys, h).mine, i, p');
    IdleLife(next, h);
  }

  /** Lets the clock reach the timer. */
  lemma AwaitTimer(a: System, sys: System, h: nat, i: nat, due: int) returns (next: System)
    requires On(a, sys) && Standing(sys.st, h, i, Armed(due)) && Idle(sys.st, h)
    ensures On(a, next) && next.st.q == sys.st.q
    ensures Standing(next.st, h, i, Armed(due)) && due <= next.st.now && Idle(next.st, h) && SameTask(sys, next, h)
  {
    next := Go(a, sys, Tick(Max(sys.st.now, due)));
    assert next.log == sys.log + [] == sys.log;
  }

  /** The delivery starts. */
  lemma Start(a: System, sys: System, h: nat, i: nat, p: Phase) returns (next: System)
    requires On(a, sys) && Standing(sys.st, h, i, p) && (p.Admitted? || p.Entered?)
    ensures On(a, next) && next.st.q == sys.st.q && Delivers(sys, next, h)
  {
    var step := SnapshotStep(i);
    next := Go(a, sys, step);
    StepProjects(sys, step, h);
    assert ActionOf(sys.st, step, h) == Begin(i);
    LifeDelivers(sys, next, h, i);
  }

  lemma LifeDelivers(sys: System, next: System, h: nat, i: nat)
    requires h < |sys.st.arena| && h < |next.st.arena| && !sys.st.arena[h].removed
    requires Allowed(LifeOf(sys, h), EnvOf(sys.st), Begin(i))
    requires LifeOf(next, h) == Act(LifeOf(sys, h), EnvOf(sys.st), Begin(i))
    ensures Delivers(sys, next, h)
  {
    StartedLife(LifeOf(sys, h), EnvOf(sys.st), i);
    assert i in LifeOf(next, h).mine;
  }

  lemma StartedLife(l: Life, e: Env, i: nat)
    requires Allowed(l, e, Begin(i)) && !l.t.removed
    ensures
      var l' := Act(l, e, Begin(i));
      && l'.t == l.t && i in l'.mine && l'.mine[i].InFlight?
      && Count(l'.log, l.h, WasStarted) == Count(l.log, l.h, WasStarted) + 1
      && Count(l'.log, l.h, WasApplied) == Count(l.log, l.h, WasApplied)
      && Count(l'.log, l.h, WasRun) == Count(l.log, l.h, WasRun)
  {
    CountsAppend(l.log, Started(l.h, i, l.mine[i].Admitted?, l.t.dispatchCount, l.t.scheduleTime, e.now), l.h);
  }

  // ---- a full semaphore empties ----

  /** A step of another task's continuation leaves the task and its continuations alone. */
  lemma Elsewhere(a: System, sys: System, h: nat, step: Step) returns (next: System)
    requires On(a, sys) && h < |sys.st.arena| && Enabled(sys.st, step) && Internal(step)
    requires ActionOf(sys.st, step, h) == Rest
    ensures next == Next(sys, step) && On(a, next) && next.st.q == sys.st.q
    ensures h < |next.st.arena| && LifeOf(next, h) == LifeOf(sys, h)
  {
    next := Go(a, sys, step);
    StepProjects(sys, step, h);
  }

  lemma SameLife(sys: System, next: System, h: nat, i: nat, p: Phase)
    requires Standing(sys.st, h, i, p) && Idle(sys.st, h) && next.st.q == sys.st.q
    requires h < |next.st.arena| && LifeOf(next, h) == LifeOf(sys, h)
    ensures Standing(next.st, h, i, p) && Idle(next.st, h) && SameTask(sys, next, h)
  {
    assert i in LifeOf(next, h).mine;
    IdleLife(sys, h);
    IdleLife(next, h);
  }

  lemma SettledReturns(l: Life, e: Env, j: nat, g: nat, t: TaskState, o: Dispatch.Outcome, v: Verdict)
    requires j in l.mine && l.mine[j].InFlight? && l.mine[j].slot == Some(g) && e.nextId !in l.mine
    ensures j in SettleLife(l, e, j, t, o, v).mine && SettleLife(l, e, j, t, o, v).mine[j] == Returning(g)
  {
  }

  /** A holder whose delivery is under way gets its result. */
  lemma HolderSettles(sys: System, j: nat, g: nat, step: Step)
    requires Reachable(sys) && Sound(sys.st) && j in sys.st.conts
    requires sys.st.conts[j].phase.InFlight? && sys.st.conts[j].phase.slot == Some(g)
    requires step == ApplyStep(j, Dispatch.TransportFailed(""), sys.st.now)
    ensures Enabled(sys.st, step) && Next(sys, step).st.limits == sys.st.limits
    ensures j in Next(sys, step).st.conts && Next(sys, step).st.conts[j].phase == Returning(g)
  {
    var h := sys.st.conts[j].task;
    KeptHere(sys, h);
    var l, e := LifeOf(sys, h), EnvOf(sys.st);
    assert j in l.mine;
    StepProjects(sys, step, h);
    FreshForLife(sys, h);
    if !l.t.removed {
      var t := Record(l.t, step.outcome, step.dispatchTime);
      SettledReturns(l, e, j, g, t, step.outcome, Judge(e.q.retryConfig, e.now, t, step.outcome));
    }
    assert j in LifeOf(Next(sys, step), h).mine;
  }

  /** A holder that has not begun begins, or is over at once because its task is gone. */
  lemma HolderBegins(sys: System, j: nat, g: nat)
    requires Sound(sys.st) && j in sys.st.conts && sys.st.conts[j].phase == Admitted(g)
    ensures
      var next := Next(sys, SnapshotStep(j));
      && next.st.limits == sys.st.limits && j in next.st.conts && next.st.conts[j].task == sys.st.conts[j].task
      && (next.st.conts[j].phase == InFlight(Some(g), sys.st.now) || next.st.conts[j].phase == Returning(g))
  {
  }

  /** A holder gives its token back. */
  lemma HolderReturns(sys: System, j: nat, g: nat)
    requires Reachable(sys) && Sound(sys.st) && j in sys.st.conts && sys.st.conts[j].phase == Returning(g)
    ensures g < |sys.st.limits| && Enabled(sys.st, ReturnStep(j))
    ensures
      var limits := Next(sys, ReturnStep(j)).st.limits;
      |limits| == |sys.st.limits| && limits[g].held < limits[g].capacity
  {
    ConservedHere(sys, g);
    assert InRange(sys.st.conts[j], |sys.st.arena|, |sys.st.limits|);
    assert j in Holders(sys.st.conts, g);
  }

  lemma ReturnElsewhere(a: System, sys: System, h: nat, i: nat, p: Phase, j: nat, g: nat) returns (next: System)
    requires On(a, sys) && Standing(sys.st, h, i, p) && Idle(sys.st, h) && !p.Returning?
    requires j in sys.st.conts && sys.st.conts[j].phase == Returning(g)
    ensures On(a, next) && next.st.q == sys.st.q
    ensures Standing(next.st, h, i, p) && Idle(next.st, h) && SameTask(sys, next, h)
    ensures g < |next.st.limits| && next.st.limits[g].held < next.st.limits[g].capacity
  {
    HolderReturns(sys, j, g);
    next := Go(a, sys, ReturnStep(j));
    StepProjects(sys, ReturnStep(j), h);
    var l, l' := LifeOf(sys, h), LifeOf(next, h);
    assert i in l.mine;
    assert l'.mine == l.mine || l'.mine == l.mine - {j};
    assert i in l'.mine && l'.mine[i] == p;
    IdleLife(sys, h);
    FlyingRemove(l.mine, {j});
    IdleLife(next, h);
  }

  /** A token of a full semaphore comes free, unless its holder turns out to deliver the very task. */
  lemma {:induction false} FreeToken(a: System, sys: System, h: nat, i: nat, g: nat, j: nat)
    returns (next: System, delivered: bool)
    requires On(a, sys) && Standing(sys.st, h, i, AtSemaphore(g)) && Idle(sys.st, h)
    requires j in Holders(sys.st.conts, g)
    ensures On(a, next) && next.st.q == sys.st.q
    ensures delivered ==> Delivers(sys, next, h)
    ensures !delivered ==>
              && Standing(next.st, h, i, AtSemaphore(g)) && Idle(next.st, h) && SameTask(sys, next, h)
              && g < |next.st.limits| && next.st.limits[g].held < next.st.limits[g].capacity
    decreases if sys.st.conts[j].phase.Admitted? then 2 else if sys.st.conts[j].phase.InFlight? then 1 else 0
  {
    var p := sys.st.conts[j].phase;
    if p.Returning? {
      next := ReturnElsewhere(a, sys, h, i, AtSemaphore(g), j, g);
      delivered := false;
    } else if p.Admitted? && sys.st.conts[j].task == h {
      next := Start(a, sys, h, j, p);
      delivered := true;
    } else {
      var step := if p.Admitted? then SnapshotStep(j) else ApplyStep(j, Dispatch.TransportFailed(""), sys.st.now);
      if p.Admitted? {
        HolderBegins(sys, j, g);
      } else {
        HolderSettles(sys, j, g, step);
      }
      var mid := Elsewhere(a, sys, h, step);
      SameLife(sys, mid, h, i, AtSemaphore(g));
      next, delivered := FreeToken(a, mid, h, i, g, j);
    }
  }

  lemma SomeHolder(sys: System, g: nat) returns (j: nat)
    requires Reachable(sys) && Sound(sys.st) && g < |sys.st.limits|
    requires sys.st.limits[g].held >= sys.st.limits[g].capacity
    ensures j in Holders(sys.st.conts, g)
  {
    ConservedHere(sys, g);
    assert |Holders(sys.st.conts, g)| >= 1;
    j :| j in Holders(sys.st.conts, g);
  }

  /** From the semaphore to a delivery. */
  lemma FromSemaphore(a: System, sys: System, h: nat, i: nat, g: nat) returns (next: System)
    requires On(a, sys) && Standing(sys.st, h, i, AtSemaphore(g)) && Idle(sys.st, h)
    ensures On(a, next) && next.st.q == sys.st.q && Delivers(sys, next, h)
  {
    var mid, delivered := sys, false;
    assert InRange(sys.st.conts[i], |sys.st.arena|, |sys.st.limits|);
    if sys.st.limits[g].held >= sys.st.limits[g].capacity {
      var j := SomeHolder(sys, g);
      mid, delivered := FreeToken(a, sys, h, i, g, j);
    }
    if delivered {
      next := mid;
    } else {
      var s1 := MoveOn(a, mid, h, i, AtSemaphore(g), TakeStep(i));
      next := Start(a, s1, h, i, Admitted(g));
    }
  }

  /** From an armed timer or a fired one to the semaphore. */
  lemma ToSemaphore(a: System, sys: System, h: nat, i: nat, p: Phase) returns (next: System, g: nat)
    requires On(a, sys) && Standing(sys.st, h, i, p) && Idle(sys.st, h) && (p.Armed? || p.Fired? || p.AtLimiter?)
    ensures On(a, next) && next.st.q == sys.st.q
    ensures Standing(next.st, h, i, AtSemaphore(g)) && Idle(next.st, h) && SameTask(sys, next, h)
    decreases if p.Armed? then 2 else if p.Fired? then 1 else 0
  {
    match p
    case Armed(due) =>
      var s1 := AwaitTimer(a, sys, h, i, due);
      var s2 := MoveOn(a, s1, h, i, p, TimerStep(i));
      next, g := ToSemaphore(a, s2, h, i, Fired);
    case Fired =>
      var s1 := MoveOn(a, sys, h, i, p, FireStep(i));
      next, g := ToSemaphore(a, s1, h, i, AtLimiter(|sys.st.limits| - 1));
    case AtLimiter(gen) =>
      g := gen;
      next := MoveOn(a, sys, h, i, p, LimiterStep(i));
  }

  /** From whatever phase its continuation is in, an idle task gets to a delivery. */
  lemma DeliverFrom(a: System, sys: System, h: nat, i: nat, p: Phase) returns (next: System)
    requires On(a, sys) && Standing(sys.st, h, i, p) && Idle(sys.st, h) && !p.Returning?
    ensures On(a, next) && next.st.q == sys.st.q && Delivers(sys, next, h)
  {
    if p.Admitted? || p.Entered? {
      next := Start(a, sys, h, i, p);
    } else if p.AtSemaphore? {
      next := FromSemaphore(a, sys, h, i, p.gen);
    } else {
      var mid, g := ToSemaphore(a, sys, h, i, p);
      next := FromSemaphore(a, mid, h, i, g);
    }
  }

  // ---- every live push task can be delivered ----

  lemma SomePending(sys: System, h: nat) returns (i: nat, p: Phase)
    requires Reachable(sys) && h < |sys.st.arena| && !sys.st.arena[h].removed && IsPushTask(sys.st, h)
    ensures Standing(sys.st, h, i, p) && !p.Returning?
  {
    KeptHere(sys, h);
    i :| i in Pending(LifeOf(sys, h).mine);
    p := sys.st.conts[i].phase;
  }

  /**
   From every reachable state of a running queue, every live push task that is not being
   delivered can be, without any API call: whatever its continuation waits for comes about, a
   full semaphore included.
   */
  lemma AlwaysDeliverable(a: System, sys: System, h: nat) returns (next: System)
    requires On(a, sys) && h < |sys.st.arena| && !sys.st.arena[h].removed && IsPushTask(sys.st, h) && Idle(sys.st, h)
    ensures On(a, next) && next.st.q == sys.st.q && Delivers(sys, next, h)
  {
    var i, p := SomePending(sys, h);
    next := DeliverFrom(a, sys, h, i, p);
  }
}
