/**
 The queue runtime of core/queue.go as an object. Every call or callback is a method that updates
 the fields in place; each is one step of the state machine, so an object is always at the end
 of a run and everything proved of runs holds of it.
 */
module Runtime {
  import opened Wrappers
  import opened FixedWidth
  import opened Types
  import opened Lifecycle
  import opened History
  import opened Registry
  import opened Sweep
  import opened Guarantees
  import opened Semaphores
  import opened Reservations
  import opened Progress
  import opened Capacities
  import opened Merging
  import Dispatch
  import RetryPolicy

  /** What an attempt carries away from the lock. */
  datatype AttemptSnapshot = AttemptSnapshot(
    queue: Queue,
    task: TaskState,
    scheduled: int,
    number: int,
    executionCount: int,
    prevHTTPCode: int,
    prevReason: string)

  class QueueState {
    var q: Queue
    var eng: EngineConfig
    var arena: seq<TaskState>
    var tasks: map<string, nat>
    var tombstones: map<string, int>
    var limits: seq<Limits>
    var conts: map<nat, Cont>
    var ttls: map<nat, TtlPhase>
    var cleanups: multiset<Cleanup>
    var nextId: nat
    var now: int
    ghost var log: seq<Event>

    /** The state of the machine this object is in. */
    ghost function State(): QState
      reads this
    {
      QState(q, eng, arena, tasks, tombstones, limits, conts, ttls, cleanups, nextId, now)
    }

    /** That state with the log of what has happened to the tasks. */
    ghost function Sys(): System
      reads this
    {
      System(State(), log)
    }

    /** The object has only ever done what a run of the state machine can do. */
    ghost predicate Valid()
      reads this
    {
      WellFormed(State()) && Reachable(Sys())
    }

    // ---- what every object promises ----

    /** No task is lost and none runs away. */
    lemma TasksPending(h: nat)
      requires Valid() && h < |arena|
      ensures |PendingOf(State(), h)| <= 1 + Count(log, h, WasRun)
      ensures !arena[h].removed && IsPushTask(State(), h) ==> PendingOf(State(), h) != {}
    {
      var r, steps :| Run(r, steps) && r[|r| - 1] == Sys();
      NoLostOrRunawayTask(r, steps, |r| - 1, h);
    }

    /** The counters of a task are those of its history, which begins once and ends at most once. */
    lemma TasksCounted(h: nat)
      requires Valid() && h < |arena|
      ensures arena[h].dispatchCount == Wrap32(Count(log, h, WasApplied))
      ensures arena[h].responseCount == Wrap32(Count(log, h, HadResponse))
      ensures arena[h].executionCount == Wrap32(Count(log, h, HadNon5xx))
      ensures Count(log, h, WasCreated) == 1 && Count(log, h, WasRemoved) == if arena[h].removed then 1 else 0
    {
      var r, steps :| Run(r, steps) && r[|r| - 1] == Sys();
      CountersEqualHistory(r, steps, |r| - 1, h);
      LiveOrRemovedOnce(r, steps, |r| - 1, h);
    }

    /** The tokens taken from every semaphore are those its holders have, within its capacity. */
    lemma TokensHeld(g: nat)
      requires Valid()
      ensures Conserved(limits, conts, g)
    {
      ConservedHere(Sys(), g);
    }

    /** A live task's name is not reserved. */
    lemma NamesApart(name: string)
      requires Valid() && name in tasks
      ensures !Tombstoned(State(), name)
    {
      var r, steps :| Run(r, steps) && r[|r| - 1] == Sys();
      RunNeverBoth(r, steps, |r| - 1);
    }

    /** The map holds exactly the tasks that are not removed. */
    lemma TasksRegistered()
      requires Valid()
      ensures Registered(arena, tasks)
    {
      SoundHere(Sys());
    }

    /** A queue as CreateQueue and UpdateQueue make it: defaults filled in, nothing in it, one pair of limits. */
    constructor (q: Queue, eng: EngineConfig, now: int)
      ensures Valid() && Sys() == System(NewQueueState(ApplyQueueDefaults(q), eng, now), [])
    {
      this.q, this.eng, this.now := ApplyQueueDefaults(q), eng, now;
      arena, tasks, tombstones, conts, ttls, cleanups, nextId := [], map[], map[], map[], map[], multiset{}, 0;
      limits := [];
      log := [];
      new;
      RebuildLimits();
      ReachableNew(q, eng, now);
    }

    /** A new limiter and semaphore; attempts that captured older ones keep them. */
    method RebuildLimits()
      modifies this`limits
      ensures State() == old(State()).(limits := old(limits) + [NewLimits(q.rateLimits)])
      ensures BuiltFor(limits[|limits| - 1], q.rateLimits) && limits[|limits| - 1].held == 0
    {
      var burst := q.rateLimits.maxBurstSize;
      if burst < 1 {
        burst := 1;
      }
      var maxConc := q.rateLimits.maxConcurrentDispatches;
      if maxConc < 1 {
        maxConc := 1;
      }
      limits := limits + [Limits(burst, maxConc, 0)];
    }

    // ---- timers ----

    /** time.AfterFunc for the dispatch timer of a task. */
    method StartTimer(h: nat, delay: int)
      requires h < |arena|
      modifies this`conts, this`arena, this`nextId
      ensures State() == Arm(old(State()), h, old(now) + delay)
    {
      conts := conts[nextId := Cont(h, Armed(now + delay))];
      arena := arena[h := arena[h].(timer := Some(nextId))];
      nextId := nextId + 1;
    }

    method StopDispatchTimer(h: nat)
      requires h < |arena|
      modifies this`conts
      ensures State() == old(State()).(conts := old(conts) - StoppableTimer(old(State()), h))
    {
      match arena[h].timer {
        case None =>
        case Some(i) =>
          if i in conts && conts[i].phase.Armed? {
            conts := conts - {i};
          }
      }
    }

    method StopTtlTimer(h: nat)
      modifies this`ttls
      ensures State() == old(State()).(ttls := old(ttls) - StoppableTtl(old(State()), h))
    {
      if h in ttls && ttls[h].TtlArmed? {
        ttls := ttls - {h};
      }
    }

    method Detach(h: nat)
      requires h < |arena|
      modifies this`arena, this`conts, this`ttls
      ensures State() == Sweep.Detach(old(State()), h)
    {
      arena := arena[h := arena[h].(removed := true)];
      StopDispatchTimer(h);
      StopTtlTimer(h);
    }

    method Schedule(h: nat)
      requires h < |arena|
      modifies this`conts, this`arena, this`nextId
      ensures State() == Lifecycle.Schedule(old(State()), h)
      ensures
        var t, id := old(arena)[h], old(nextId);
        if t.removed || q.pull || t.pull then conts == old(conts) && nextId == id
        else
          && conts == old(conts)[id := Cont(h, Armed(if t.scheduleTime > now then t.scheduleTime else now))]
          && arena == old(arena)[h := t.(timer := Some(id))] && nextId == id + 1
    {
      if arena[h].removed || q.pull || arena[h].pull {
        return;
      }
      var d := arena[h].scheduleTime - now;
      if d < 0 {
        d := 0;
      }
      StartTimer(h, d);
    }

    // ---- removal and reservation ----

    method TombstoneLocked(name: string)
      modifies this`tombstones, this`cleanups
      ensures State() == Lifecycle.TombstoneLocked(old(State()), name)
    {
      var ttl := EffectiveTombstoneTTL(q, eng);
      if ttl < 0 {
        return;
      }
      tombstones := tombstones[name := now + ttl];
      cleanups := cleanups + multiset{Cleanup(name, now + ttl)};
    }

    method RemoveLocked(h: nat)
      requires h < |arena|
      modifies this`arena, this`conts, this`ttls, this`tasks, this`tombstones, this`cleanups
      ensures State() == Lifecycle.RemoveLocked(old(State()), h)
    {
      Detach(h);
      tasks := tasks - {arena[h].name};
      TombstoneLocked(arena[h].name);
    }

    method EndReservation(c: Cleanup)
      modifies this`tombstones, this`cleanups
      ensures State() == RunCleanup(old(State()), c)
      ensures forall n :: Tombstoned(State(), n) <==> old(Tombstoned(State(), n))
    {
      cleanups := cleanups - multiset{c};
      if c.name in tombstones && tombstones[c.name] <= now {
        tombstones := tombstones - {c.name};
      }
    }

    /** The timer that ends a reservation: no name that is still reserved loses its reservation, old or new. */
    method CleanUp(c: Cleanup)
      requires Valid() && Enabled(State(), CleanupStep(c))
      modifies this
      ensures Valid() && Sys() == Next(old(Sys()), CleanupStep(c))
      ensures forall n :: Tombstoned(State(), n) <==> old(Tombstoned(State(), n))
    {
      ghost var before := Sys();
      EndReservation(c);
      ReachableNext(before, CleanupStep(c));
      log := log + Events(before.st, CleanupStep(c));
    }

    method ExpireTask(h: nat)
      requires Valid() && Enabled(State(), ExpireStep(h))
      modifies this
      ensures Valid() && Sys() == Next(old(Sys()), ExpireStep(h))
    {
      ghost var before := Sys();
      ReachableNext(before, ExpireStep(h));
      log := log + Events(before.st, ExpireStep(h));
      ttls := ttls - {h};
      if arena[h].removed {
        return;
      }
      RemoveLocked(h);
    }

    /** The loop of purge: detaches every task in the map, in whatever order it yields them, and reserves the names. */
    method PurgeTasks()
      requires Valid()
      modifies this`arena, this`conts, this`ttls, this`tombstones, this`cleanups
      ensures State() == Purging(old(State()), old(tasks).Keys)
    {
      ghost var before := State();
      TasksRegistered();
      PurgeNone(before);
      var todo := tasks.Keys;
      ghost var done: set<string> := {};
      while todo != {}
        invariant done + todo == before.tasks.Keys && done !! todo
        invariant State() == Purging(before, done)
        decreases todo
      {
        var n :| n in todo;
        PurgeOneMore(before, done, n);
        var h := tasks[n];
        Detach(h);
        TombstoneLocked(n);
        todo := todo - {n};
        done := done + {n};
      }
      assert done == before.tasks.Keys;
    }

    /** The whole locked section of purge. */
    method PurgeLocked()
      requires Valid()
      modifies this`arena, this`conts, this`ttls, this`tombstones, this`cleanups, this`tasks, this`q
      ensures State() == Lifecycle.Purge(old(State()))
    {
      ghost var before := State();
      PurgeTasks();
      PurgeEvery(before);
      tasks := map[];
      if eng.hardResetOnPurge {
        tombstones := map[];
      }
      q := q.(purgeTime := Some(now));
    }

    /** Removes every task currently in the queue. */
    method Purge()
      requires Valid()
      modifies this
      ensures Valid() && Sys() == Next(old(Sys()), PurgeStep)
      ensures tasks == map[] && q == old(q).(purgeTime := Some(now))
      ensures eng.hardResetOnPurge ==> tombstones == map[]
      ensures !eng.hardResetOnPurge && (q.tombstoneTTL > 0 || eng.tombstoneTTL > 0) ==>
                forall n | n in old(tasks) :: n !in tasks && Tombstoned(State(), n)
    {
      ghost var before := Sys();
      PurgeLocked();
      ReachableNext(before, PurgeStep);
      log := log + Events(before.st, PurgeStep);
      PurgedNames(before.st);
    }

    /** The loop of stop. */
    method StopTasks()
      requires Valid()
      modifies this`arena, this`conts, this`ttls
      ensures State() == DetachNames(old(State()), old(tasks).Keys)
    {
      ghost var before := State();
      DetachNone(before);
      var todo := tasks.Keys;
      ghost var done: set<string> := {};
      while todo != {}
        invariant done + todo == before.tasks.Keys
        invariant State() == DetachNames(before, done)
        decreases todo
      {
        var n :| n in todo;
        DetachOneMore(before, done, n);
        Detach(tasks[n]);
        todo := todo - {n};
        done := done + {n};
      }
      assert done == before.tasks.Keys;
    }

    /** Tears every task down when the queue is deleted. */
    method Stop()
      requires Valid()
      modifies this
      ensures Valid() && Sys() == Next(old(Sys()), StopStep)
      ensures tasks == map[] && tombstones == old(tombstones) && q == old(q)
    {
      ghost var before := Sys();
      StopTasks();
      DetachEvery(before.st);
      tasks := map[];
      ReachableNext(before, StopStep);
      log := log + Events(before.st, StopStep);
    }

    // ---- deliveries ----

    /** The locked section of fire. */
    method FireSection(i: nat)
      requires WellFormed(State()) && i in conts
      modifies this`conts, this`arena, this`nextId
      ensures State() == FireLocked(old(State()), i)
    {
      var h := conts[i].task;
      if arena[h].removed {
        conts := conts - {i};
      } else if q.state == Paused || q.state == Disabled {
        conts := conts - {i};
        StartTimer(h, PAUSE_POLL_INTERVAL);
      } else {
        conts := conts[i := Cont(h, AtLimiter(|limits| - 1))];
      }
    }

    /** fire: drops a removed task, holds it while the queue is paused or disabled, else lets it through. */
    method Fire(i: nat)
      requires Valid() && Enabled(State(), FireStep(i))
      modifies this
      ensures Valid() && Sys() == Next(old(Sys()), FireStep(i))
      ensures
        var h := old(conts)[i].task;
        if old(arena)[h].removed then conts == old(conts) - {i}
        else if q.state != Running then conts == (old(conts) - {i})[old(nextId) := Cont(h, Armed(now + 1_000_000_000))]
        else conts == old(conts)[i := Cont(h, AtLimiter(|limits| - 1))]
    {
      ghost var before := Sys();
      FireSection(i);
      ReachableNext(before, FireStep(i));
      log := log + Events(before.st, FireStep(i));
    }

    /** attempt returns: a timer-driven one still has its token to give back. */
    method Finish(i: nat)
      requires i in conts
      modifies this`conts
      ensures State() == Lifecycle.Finish(old(State()), i)
    {
      match Slot(conts[i].phase) {
        case Some(g) => conts := conts[i := conts[i].(phase := Returning(g))];
        case None => conts := conts - {i};
      }
    }

    /** The snapshot of an attempt; none if the task has been removed meanwhile. */
    method SnapshotAttempt(i: nat) returns (snap: Option<AttemptSnapshot>)
      requires Valid() && Enabled(State(), SnapshotStep(i))
      modifies this
      ensures Valid() && Sys() == Next(old(Sys()), SnapshotStep(i))
      ensures snap.Some? <==> Events(old(State()), SnapshotStep(i)) != []
      ensures snap.Some? ==>
                var t := old(arena[conts[i].task]);
                && snap.value.task == t && snap.value.queue == old(q)
                && Events(old(State()), SnapshotStep(i)) ==
                   [Started(old(conts[i].task), i, old(conts[i].phase.Admitted?), t.dispatchCount, snap.value.scheduled, old(now))]
                && snap.value.number == Wrap32(t.dispatchCount + 1)
                && snap.value.executionCount == t.executionCount
                && snap.value.prevHTTPCode == t.lastHTTPCode && snap.value.prevReason == t.lastRetryReason
    {
      ghost var before := Sys();
      ReachableNext(before, SnapshotStep(i));
      log := log + Events(before.st, SnapshotStep(i));
      var c := conts[i];
      var t := arena[c.task];
      if t.removed {
        Finish(i);
        return None;
      }
      conts := conts[i := c.(phase := InFlight(Slot(c.phase), now))];
      return Some(AttemptSnapshot(q, t, t.scheduleTime, Wrap32(t.dispatchCount + 1), t.executionCount,
                                  t.lastHTTPCode, t.lastRetryReason));
    }

    /** Whether a failed task has retries left. */
    method ShouldRetry(h: nat) returns (again: bool)
      requires h < |arena| && arena[h].firstAttemptTime.Some?
      ensures again == RetryPolicy.ShouldRetry(q.retryConfig, arena[h].dispatchCount, now - arena[h].firstAttemptTime.value)
    {
      var rc := q.retryConfig;
      var attemptsLimited := rc.maxAttempts != -1;
      var durationLimited := rc.maxRetryDuration > 0;
      if !attemptsLimited && !durationLimited {
        return true;
      }
      if attemptsLimited && arena[h].dispatchCount < rc.maxAttempts {
        return true;
      }
      if durationLimited && now - arena[h].firstAttemptTime.value < rc.maxRetryDuration {
        return true;
      }
      return false;
    }

    /** Records a delivery on the task, field by field. */
    method RecordResult(h: nat, o: Dispatch.Outcome, dispatchTime: int)
      requires h < |arena|
      modifies this`arena
      ensures State() == old(State()).(arena := old(arena)[h := Record(old(arena)[h], o, dispatchTime)])
    {
      var httpCode := Dispatch.HttpCode(o);
      var t := arena[h];
      t := t.(dispatchCount := Wrap32(t.dispatchCount + 1));
      if httpCode != 0 {
        t := t.(responseCount := Wrap32(t.responseCount + 1));
        if httpCode < 500 {
          t := t.(executionCount := Wrap32(t.executionCount + 1));
        }
      }
      if t.firstAttemptTime.None? {
        t := t.(firstAttemptTime := Some(dispatchTime));
      }
      t := t.(lastDispatchTime := dispatchTime, lastHTTPCode := httpCode);
      if Dispatch.RpcCode(o) != 0 {
        t := t.(lastRetryReason := Dispatch.RetryReason(httpCode, Dispatch.Message(o)));
      }
      arena := arena[h := t];
    }

    /** attempt ends and the task waits for its next one. */
    method RetryTask(i: nat, h: nat, delay: int)
      requires WellFormed(State()) && i in conts && conts[i].task == h
      modifies this`arena, this`conts, this`nextId
      ensures State() == Reschedule(old(State()), i, old(arena)[h], delay)
    {
      arena := arena[h := arena[h].(scheduleTime := now + delay)];
      Finish(i);
      Schedule(h);
    }

    /** attempt ends and the task is done with. */
    method DropTask(i: nat, h: nat)
      requires WellFormed(State()) && i in conts && conts[i].task == h
      modifies this`arena, this`conts, this`ttls, this`tasks, this`tombstones, this`cleanups
      ensures State() == Discard(old(State()), i, old(arena)[h])
    {
      assert arena[h := arena[h]] == arena;
      Finish(i);
      RemoveLocked(h);
    }

    /** The end of applyAttempt for a task whose latest result is stored, as the policy judges it. */
    method Settle(i: nat, h: nat, success: bool)
      requires WellFormed(State()) && i in conts && conts[i].task == h && arena[h].firstAttemptTime.Some?
      modifies this`arena, this`conts, this`nextId, this`ttls, this`tasks, this`tombstones, this`cleanups
      ensures State() == Settled(old(State()), i, success)
    {
      if success {
        DropTask(i, h);
        return;
      }
      var again := ShouldRetry(h);
      if !again {
        DropTask(i, h);
        return;
      }
      RetryTask(i, h, RetryPolicy.Backoff(q.retryConfig, arena[h].dispatchCount));
    }

    /** Records a result and completes, drops or reschedules the task. */
    method ApplyAttempt(i: nat, o: Dispatch.Outcome, dispatchTime: int)
      requires Valid() && Enabled(State(), ApplyStep(i, o, dispatchTime))
      modifies this
      ensures Valid() && Sys() == Next(old(Sys()), ApplyStep(i, o, dispatchTime))
    {
      ghost var before := Sys();
      ReachableNext(before, ApplyStep(i, o, dispatchTime));
      log := log + Events(before.st, ApplyStep(i, o, dispatchTime));
      var h := conts[i].task;
      if arena[h].removed {
        Finish(i);
      } else {
        RecordResult(h, o, dispatchTime);
        Settle(i, h, Dispatch.RpcCode(o) == 0);
        AppliedIsSettled(before.st, i, o, dispatchTime);
      }
    }

    // ---- calls ----

    method AddTask(t: TaskState)
      modifies this`arena, this`tasks, this`ttls, this`conts, this`nextId
      ensures State() == Lifecycle.AddTask(old(State()), t)
    {
      var h := |arena|;
      arena := arena + [t];
      tasks := tasks[t.name := h];
      ttls := ttls[h := TtlArmed(now + Max(0, EffectiveTaskTTL(q, eng)))];
      Schedule(h);
    }

    method IsTombstoned(name: string) returns (reserved: bool)
      ensures reserved == Tombstoned(State(), name)
    {
      reserved := false;
      if name in tombstones {
        reserved := now < tombstones[name];
      }
    }

    method CreateTask(t: NewTask) returns (r: Result<TaskState>)
      requires Valid() && Enabled(State(), CreateStep(t))
      modifies this
      ensures Valid() && Sys() == Next(old(Sys()), CreateStep(t))
      ensures r == if old(NameTaken(State(), t.name)) then Err(AlreadyExists) else Ok(FreshTask(t))
      ensures r.Ok? <==> Events(old(State()), CreateStep(t)) == [Created(|old(arena)|, t.name, old(now))]
      ensures r.Ok? ==> t.name in tasks && tasks[t.name] == |old(arena)|
    {
      ghost var before := Sys();
      ReachableNext(before, CreateStep(t));
      log := log + Events(before.st, CreateStep(t));
      if t.name in tasks {
        return Err(AlreadyExists);
      }
      var reserved := IsTombstoned(t.name);
      if reserved {
        return Err(AlreadyExists);
      }
      AddTask(FreshTask(t));
      return Ok(FreshTask(t));
    }

    method GetTask(name: string) returns (r: Result<TaskState>)
      requires Valid()
      ensures r.Err? ==> r.code == NotFound
      ensures r.Ok? <==> exists h :: 0 <= h < |arena| && arena[h].name == name && !arena[h].removed
      ensures r.Ok? ==> r.value.name == name && !r.value.removed && r.value in arena
    {
      TasksRegistered();
      if name !in tasks {
        return Err(NotFound);
      }
      assert arena[tasks[name]].name == name;
      return Ok(arena[tasks[name]]);
    }

    method DeleteTask(name: string) returns (r: Result<()>)
      requires Valid()
      modifies this
      ensures Valid() && Sys() == Next(old(Sys()), DeleteStep(name))
      ensures r == if name in old(tasks) then Ok(()) else Err(NotFound)
      ensures name !in tasks && (r.Ok? && (q.tombstoneTTL > 0 || eng.tombstoneTTL > 0) ==> Tombstoned(State(), name))
    {
      TasksRegistered();
      ghost var before := Sys();
      ReachableNext(before, DeleteStep(name));
      log := log + Events(before.st, DeleteStep(name));
      if name !in tasks {
        return Err(NotFound);
      }
      RemoveLocked(tasks[name]);
      return Ok(());
    }

    /** Stops the timer of a task, makes it due and begins an attempt. */
    method EnterAttempt(h: nat)
      requires h < |arena|
      modifies this`conts, this`arena, this`nextId
      ensures conts == (old(conts) - StoppableTimer(old(State()), h))[old(nextId) := Cont(h, Entered)]
      ensures arena == old(arena)[h := old(arena)[h].(scheduleTime := now)] && nextId == old(nextId) + 1
    {
      StopDispatchTimer(h);
      arena := arena[h := arena[h].(scheduleTime := now)];
      conts := conts[nextId := Cont(h, Entered)];
      nextId := nextId + 1;
    }

    /** The locked section with which RunTask begins; the attempt it starts is the new continuation. */
    method RunTask(name: string) returns (r: Result<nat>)
      requires Valid()
      modifies this
      ensures Valid() && Sys() == Next(old(Sys()), RunStep(name))
      ensures r.Ok? <==> old(Runnable(State(), name))
      ensures r == Err(NotFound) <==> !old(q.pull) && name !in old(tasks)
      ensures r.Err? ==> r.code == NotFound || r.code == FailedPrecondition
      ensures r.Ok? ==> r.value in conts && conts[r.value] == Cont(tasks[name], Entered)
    {
      ghost var before := Sys();
      ReachableNext(before, RunStep(name));
      log := log + Events(before.st, RunStep(name));
      if q.pull {
        return Err(FailedPrecondition);
      }
      if name !in tasks {
        return Err(NotFound);
      }
      var h := tasks[name];
      if arena[h].pull {
        return Err(FailedPrecondition);
      }
      r := Ok(nextId);
      EnterAttempt(h);
    }

    /** The loop over the mask. */
    method CopyFields(update: Queue, mask: seq<QueueField>)
      modifies this`q
      ensures q == SetFields(old(q), update, mask)
    {
      for k := 0 to |mask|
        invariant SetFields(q, update, mask[k..]) == SetFields(old(q), update, mask)
      {
        match mask[k] {
          case FieldRateLimits => q := q.(rateLimits := update.rateLimits);
          case FieldRetryConfig => q := q.(retryConfig := update.retryConfig);
          case FieldAppEngineRoutingOverride => q := q.(appEngineRoutingOverride := update.appEngineRoutingOverride);
          case FieldHTTPOverride => q := q.(httpOverride := update.httpOverride);
        }
        assert mask[k..][1..] == mask[k + 1..];
      }
    }

    /** Copies the masked fields, all of them for an empty mask, fills defaults and swaps the limits. */
    method MergeLocked(update: Queue, fields: seq<QueueField>)
      modifies this`q, this`limits
      ensures State() == UpdateQueue(old(State()), update, fields)
    {
      CopyFields(update, if fields == [] then ALL_FIELDS else fields);
      q := ApplyQueueDefaults(q);
      RebuildLimits();
    }

    method Update(update: Queue, fields: seq<QueueField>)
      requires Valid()
      modifies this
      ensures Valid() && Sys() == Next(old(Sys()), UpdateStep(update, fields))
      ensures Merged(old(q), update, fields, q)
    {
      MergeIsMasked(q, update, fields);
      ghost var before := Sys();
      MergeLocked(update, fields);
      ReachableNext(before, UpdateStep(update, fields));
      log := log + Events(before.st, UpdateStep(update, fields));
    }

    method SetState(st: State)
      requires Valid()
      modifies this
      ensures Valid() && Sys() == Next(old(Sys()), SetStateStep(st))
    {
      ghost var before := Sys();
      ReachableNext(before, SetStateStep(st));
      log := log + Events(before.st, SetStateStep(st));
      q := q.(state := st);
    }

    /** The queue resource and the number of live tasks. */
    method Snapshot() returns (queue: Queue, tasksCount: nat)
      requires Valid()
      ensures queue == q
      ensures tasksCount == |LiveSet(arena)|
    {
      TasksRegistered();
      queue, tasksCount := q, |tasks|;
      LiveCount(arena, tasks);
    }
  }

  /** Purged names are reserved, unless the reset is hard. */
  lemma PurgedNames(s: QState)
    requires WellFormed(s)
    ensures !s.eng.hardResetOnPurge && EffectiveTombstoneTTL(s.q, s.eng) > 0 ==>
              forall n | n in s.tasks :: n !in Purge(s).tasks && Tombstoned(Purge(s), n)
  {
    if !s.eng.hardResetOnPurge && EffectiveTombstoneTTL(s.q, s.eng) > 0 {
      forall n | n in s.tasks ensures Tombstoned(Purge(s), n) {
        PurgeReserves(s, n);
      }
    }
  }

  /** The state after the verdict on a stored result has been carried out. */
  function Settled(s: QState, i: nat, success: bool): QState
    requires WellFormed(s) && i in s.conts && s.arena[s.conts[i].task].firstAttemptTime.Some?
  {
    var t := s.arena[s.conts[i].task];
    if success || !RetryPolicy.ShouldRetry(s.q.retryConfig, t.dispatchCount, s.now - t.firstAttemptTime.value)
    then Discard(s, i, t)
    else Reschedule(s, i, t, RetryPolicy.Backoff(s.q.retryConfig, t.dispatchCount))
  }

  /** Storing a result first and settling it then is settling it while storing it. */
  lemma StoredFirst(s: QState, i: nat, t: TaskState, delay: int)
    requires WellFormed(s) && i in s.conts
    ensures
      var stored := s.(arena := s.arena[s.conts[i].task := t]);
      Discard(stored, i, t) == Discard(s, i, t) && Reschedule(stored, i, t, delay) == Reschedule(s, i, t, delay)
  {
    var h := s.conts[i].task;
    var stored := s.(arena := s.arena[h := t]);
    var t' := t.(scheduleTime := s.now + delay);
    assert stored.arena[h := t] == stored.arena;
    assert stored.arena[h := t'] == s.arena[h := t'];
  }

  lemma AppliedIsSettled(s: QState, i: nat, o: Dispatch.Outcome, dispatchTime: int)
    requires WellFormed(s) && i in s.conts && !s.arena[s.conts[i].task].removed
    ensures
      var h := s.conts[i].task;
      var stored := s.(arena := s.arena[h := Record(s.arena[h], o, dispatchTime)]);
      ApplyAttempt(s, i, o, dispatchTime) == Settled(stored, i, Dispatch.RpcCode(o) == 0)
  {
    var t := Record(s.arena[s.conts[i].task], o, dispatchTime);
    StoredFirst(s, i, t, RetryPolicy.Backoff(s.q.retryConfig, t.dispatchCount));
  }
}
