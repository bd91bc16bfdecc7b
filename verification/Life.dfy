/**
 The life of a single task, cut out of the queue: its state, its own continuations, its TTL
 timer and its own history. Every step of the queue acts on a task either not at all or as one
 action of this small automaton, so what holds of every life holds of every task of every run.
 */
module Life {
  import opened Wrappers
  import opened Types
  import opened Lifecycle
  import opened History
  import Dispatch

  datatype Life = Life(h: nat, t: TaskState, mine: map<nat, Phase>, ttl: Option<TtlPhase>, log: seq<Event>)

  /** What a life reads of the rest of the queue. */
  datatype Env = Env(q: Queue, eng: EngineConfig, now: int, nextId: nat)

  datatype Action =
    | Rest
    | Ring(i: nat)                       // its dispatch timer goes off
    | Gate(i: nat, gen: nat)             // the locked section of fire
    | Pass(i: nat)                       // the limiter admits it
    | Take(i: nat)                       // it gets a token
    | Begin(i: nat)                      // snapshotAttempt
    | Settle(i: nat, o: Dispatch.Outcome, dispatchTime: int)  // applyAttempt
    | GiveBack(i: nat)                   // its token is returned
    | Force                              // RunTask
    | RingTtl
    | ExpireNow
    | Drop                               // DeleteTask
    | Sweep(e: Event)                    // purge or stop

  // ---- the automaton ----

  function ArmLife(l: Life, id: nat, due: int): Life {
    l.(mine := l.mine[id := Armed(due)], t := l.t.(timer := Some(id)))
  }

  function ScheduleLife(l: Life, e: Env): Life {
    if l.t.removed || e.q.pull || l.t.pull then l else ArmLife(l, e.nextId, Max(e.now, l.t.scheduleTime))
  }

  function Stoppable(l: Life): set<nat> {
    match l.t.timer
    case None => {}
    case Some(i) => if i in l.mine && l.mine[i].Armed? then {i} else {}
  }

  function DetachLife(l: Life): Life {
    l.(t := l.t.(removed := true),
       mine := l.mine - Stoppable(l),
       ttl := if l.ttl.Some? && l.ttl.value.TtlArmed? then None else l.ttl)
  }

  function RemoveLife(l: Life, e: Env, reason: Reason): Life {
    DetachLife(l).(log := l.log + [Removed(l.h, l.t.name, reason, EffectiveTombstoneTTL(e.q, e.eng), e.now)])
  }

  function FinishLife(l: Life, i: nat): Life
    requires i in l.mine
  {
    match Slot(l.mine[i])
    case Some(g) => l.(mine := l.mine[i := Returning(g)])
    case None => l.(mine := l.mine - {i})
  }

  function AppliedEvent(l: Life, e: Env, t: TaskState, o: Dispatch.Outcome, v: Verdict): Event {
    Applied(l.h, Dispatch.HttpCode(o), Dispatch.IsSuccess(o), t.dispatchCount, e.q.retryConfig, v, t.lastDispatchTime, e.now)
  }

  /** The recorded task with the verdict carried out. */
  function SettleLife(l: Life, e: Env, i: nat, t: TaskState, o: Dispatch.Outcome, v: Verdict): Life
    requires i in l.mine
  {
    var applied := l.log + [AppliedEvent(l, e, t, o, v)];
    match v
    case Retry(delay) => ScheduleLife(FinishLife(l.(t := t.(scheduleTime := e.now + delay), log := applied), i), e)
    case Complete => RemoveLife(FinishLife(l.(t := t, log := applied), i), e, Completed)
    case Exhaust => RemoveLife(FinishLife(l.(t := t, log := applied), i), e, Exhausted)
  }

  predicate Allowed(l: Life, e: Env, a: Action) {
    match a
    case Rest => true
    case Ring(i) => i in l.mine && l.mine[i].Armed? && l.mine[i].due <= e.now
    case Gate(i, _) => i in l.mine && l.mine[i].Fired?
    case Pass(i) => i in l.mine && l.mine[i].AtLimiter?
    case Take(i) => i in l.mine && l.mine[i].AtSemaphore?
    case Begin(i) => i in l.mine && (l.mine[i].Admitted? || l.mine[i].Entered?)
    case Settle(i, _, dispatchTime) => i in l.mine && l.mine[i].InFlight? && l.mine[i].began <= dispatchTime <= e.now
    case GiveBack(i) => i in l.mine && l.mine[i].Returning?
    case Force => !l.t.removed && !e.q.pull && !l.t.pull
    case RingTtl => l.ttl.Some? && l.ttl.value.TtlArmed? && l.ttl.value.due <= e.now
    case ExpireNow => l.ttl.Some? && l.ttl.value.TtlFired?
    case Drop => !l.t.removed
    case Sweep(ev) => !l.t.removed && (ev.Purged? || ev.Stopped?) && l.h in ev.hs && ev.at == e.now
  }

  function Act(l: Life, e: Env, a: Action): Life
    requires Allowed(l, e, a)
  {
    match a
    case Rest => l
    case Ring(i) => l.(mine := l.mine[i := Fired])
    case Gate(i, gen) =>
      if l.t.removed then l.(mine := l.mine - {i})
      else if e.q.state != Running then ArmLife(l.(mine := l.mine - {i}), e.nextId, e.now + PAUSE_POLL_INTERVAL)
      else l.(mine := l.mine[i := AtLimiter(gen)])
    case Pass(i) => l.(mine := l.mine[i := AtSemaphore(l.mine[i].gen)])
    case Take(i) => l.(mine := l.mine[i := Admitted(l.mine[i].gen)])
    case Begin(i) =>
      if l.t.removed then FinishLife(l, i)
      else l.(mine := l.mine[i := InFlight(Slot(l.mine[i]), e.now)],
              log := l.log + [Started(l.h, i, l.mine[i].Admitted?, l.t.dispatchCount, l.t.scheduleTime, e.now)])
    case Settle(i, o, dispatchTime) =>
      if l.t.removed then FinishLife(l, i)
      else
        var t := Record(l.t, o, dispatchTime);
        SettleLife(l, e, i, t, o, Judge(e.q.retryConfig, e.now, t, o))
    case GiveBack(i) => l.(mine := l.mine - {i})
    case Force =>
      l.(mine := (l.mine - Stoppable(l))[e.nextId := Entered],
         t := l.t.(scheduleTime := e.now),
         log := l.log + [RunRequested(l.h)])
    case RingTtl => l.(ttl := Some(TtlFired(l.ttl.value.due)))
    case ExpireNow => if l.t.removed then l.(ttl := None) else RemoveLife(l.(ttl := None), e, Expired)
    case Drop => RemoveLife(l, e, Deleted)
    case Sweep(ev) => DetachLife(l).(log := l.log + [ev])
  }

  /** A task that has just been added. */
  function Born(h: nat, t: TaskState, e: Env): Life {
    var due := e.now + Max(0, EffectiveTaskTTL(e.q, e.eng));
    ScheduleLife(Life(h, t, map[], Some(TtlArmed(due)), [Created(h, t.name, e.now)]), e)
  }

  // ---- the cut ----

  function Mine(conts: map<nat, Cont>, h: nat): map<nat, Phase> {
    map i | i in conts && conts[i].task == h :: conts[i].phase
  }

  predicate Concerns(e: Event, h: nat) {
    if e.Purged? || e.Stopped? then h in e.hs else e.h == h
  }

  /** The events of a log that concern one task, in order. */
  function TaskLog(log: seq<Event>, h: nat): seq<Event> {
    if log == [] then []
    else
      var rest := TaskLog(log[..|log| - 1], h);
      if Concerns(log[|log| - 1], h) then rest + [log[|log| - 1]] else rest
  }

  function LifeOf(sys: System, h: nat): Life
    requires h < |sys.st.arena|
  {
    Life(h, sys.st.arena[h], Mine(sys.st.conts, h),
         if h in sys.st.ttls then Some(sys.st.ttls[h]) else None,
         TaskLog(sys.log, h))
  }

  function EnvOf(s: QState): Env {
    Env(s.q, s.eng, s.now, s.nextId)
  }

  /** The action a step of the queue is for one of its tasks. */
  function ActionOf(s: QState, step: Step, h: nat): Action
    requires WellFormed(s) && Enabled(s, step) && h < |s.arena|
  {
    match step
    case TimerStep(i) => if s.conts[i].task == h then Ring(i) else Rest
    case FireStep(i) => if s.conts[i].task == h then Gate(i, |s.limits| - 1) else Rest
    case LimiterStep(i) => if s.conts[i].task == h then Pass(i) else Rest
    case TakeStep(i) => if s.conts[i].task == h then Take(i) else Rest
    case SnapshotStep(i) => if s.conts[i].task == h then Begin(i) else Rest
    case ApplyStep(i, o, dispatchTime) => if s.conts[i].task == h then Settle(i, o, dispatchTime) else Rest
    case ReturnStep(i) => if s.conts[i].task == h then GiveBack(i) else Rest
    case DeleteStep(name) => if name in s.tasks && s.tasks[name] == h then Drop else Rest
    case RunStep(name) => if Runnable(s, name) && s.tasks[name] == h then Force else Rest
    case TtlStep(h') => if h' == h then RingTtl else Rest
    case ExpireStep(h') => if h' == h then ExpireNow else Rest
    case PurgeStep => if s.arena[h].removed then Rest else Sweep(Events(s, step)[0])
    case StopStep => if s.arena[h].removed then Rest else Sweep(Events(s, step)[0])
    case _ => Rest
  }

  // ---- cutting out commutes with updates ----

  lemma MineUpdate(conts: map<nat, Cont>, i: nat, c: Cont, h: nat)
    requires i in conts ==> conts[i].task == c.task
    ensures Mine(conts[i := c], h) == if c.task == h then Mine(conts, h)[i := c.phase] else Mine(conts, h)
  {
  }

  lemma MineRemove(conts: map<nat, Cont>, gone: set<nat>, h: nat)
    ensures Mine(conts - gone, h) == Mine(conts, h) - gone
  {
  }

  /** Dropping continuations of other tasks leaves a life alone. */
  lemma MineRemoveOther(conts: map<nat, Cont>, gone: set<nat>, h: nat)
    requires forall i | i in gone && i in conts :: conts[i].task != h
    ensures Mine(conts - gone, h) == Mine(conts, h)
  {
  }

  lemma TaskLogAppend1(log: seq<Event>, e: Event, h: nat)
    ensures TaskLog(log + [e], h) == if Concerns(e, h) then TaskLog(log, h) + [e] else TaskLog(log, h)
  {
    assert (log + [e])[..|log|] == log;
  }

  lemma TaskLogAppend2(log: seq<Event>, e1: Event, e2: Event, h: nat)
    requires Concerns(e1, h) == Concerns(e2, h)
    ensures TaskLog(log + [e1, e2], h) == if Concerns(e1, h) then TaskLog(log, h) + [e1] + [e2] else TaskLog(log, h)
  {
    TaskLogAppend1(log, e1, h);
    TaskLogAppend1(log + [e1], e2, h);
    assert log + [e1, e2] == (log + [e1]) + [e2];
  }
}
