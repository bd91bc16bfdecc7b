/** When tasks expire and how long names stay reserved, in terms of the configured durations themselves. */
module Expiry {
  import opened Wrappers
  import opened Lifecycle
  import opened History
  import opened Life
  import opened Projection
  import opened Lives
  import opened Bounds
  import opened Guarantees
  import opened Reservations
  import opened Registry
  import Dispatch

  // ---- expiry ----

  /** A TTL timer that went off had come due, and no expiry in the history came before its time. */
  ghost predicate Punctual(l: Life, now: int, taskTTL: int) {
    && l.log != [] && l.log[0].Created?
    && (l.ttl.Some? && l.ttl.value.TtlFired? ==> l.ttl.value.due <= now)
    && (forall j | 0 <= j < |l.log| && Ends(l.log[j], Expired) :: l.log[j].at >= l.log[0].at + Max(0, taskTTL))
  }

  lemma PunctualAppend(l: Life, l': Life, e: Event, now: int, taskTTL: int)
    requires Punctual(l, now, taskTTL) && l'.log == l.log + [e]
    requires l'.ttl.Some? && l'.ttl.value.TtlFired? ==> l'.ttl.value.due <= now
    requires Ends(e, Expired) ==> e.at >= l.log[0].at + Max(0, taskTTL)
    ensures Punctual(l', now, taskTTL)
  {
    assert forall j | 0 <= j < |l.log| :: l'.log[j] == l.log[j];
  }

  lemma PunctualSettle(l: Life, e: Env, i: nat, t: TaskState, o: Dispatch.Outcome, v: Verdict, taskTTL: int)
    requires Punctual(l, e.now, taskTTL) && i in l.mine
    ensures Punctual(SettleLife(l, e, i, t, o, v), e.now, taskTTL)
  {
    var ev := AppliedEvent(l, e, t, o, v);
    var l1 := l.(log := l.log + [ev]);
    PunctualAppend(l, l1, ev, e.now, taskTTL);
    var l' := SettleLife(l, e, i, t, o, v);
    if !v.Retry? {
      var reason := if v.Complete? then Completed else Exhausted;
      PunctualAppend(l1, l', Removed(l.h, t.name, reason, EffectiveTombstoneTTL(e.q, e.eng), e.now), e.now, taskTTL);
    }
  }

  lemma PunctualAct(l: Life, e: Env, a: Action, taskTTL: int)
    requires Punctual(l, e.now, taskTTL) && Aging(l, taskTTL) && Allowed(l, e, a)
    ensures Punctual(Act(l, e, a), e.now, taskTTL)
  {
    if a.Settle? && !l.t.removed {
      var t := Record(l.t, a.o, a.dispatchTime);
      PunctualSettle(l, e, a.i, t, a.o, Judge(e.q.retryConfig, e.now, t, a.o), taskTTL);
    } else if !a.Settle? {
      ActLog(l, e, a);
      var own := OwnEvent(l, e, a);
      if own.Some? {
        PunctualAppend(l, Act(l, e, a), own.value, e.now, taskTTL);
      }
    }
  }

  lemma PunctualBorn(h: nat, t: TaskState, e: Env, taskTTL: int)
    ensures Punctual(Born(h, t, e), e.now, taskTTL)
  {
    BornLog(h, t, e);
  }

  lemma PunctualFollows(sys: System, step: Step, next: System, h: nat, taskTTL: int)
    requires Follows(sys, step, next) && Sound(sys.st) && Bounded(sys.log, |sys.st.arena|) && h < |next.st.arena|
    requires h < |sys.st.arena| ==> Aging(LifeOf(sys, h), taskTTL) && Punctual(LifeOf(sys, h), sys.st.now, taskTTL)
    ensures Punctual(LifeOf(next, h), next.st.now, taskTTL)
  {
    ConfigKept(sys.st, step);
    if h < |sys.st.arena| {
      StepProjects(sys, step, h);
      PunctualAct(LifeOf(sys, h), EnvOf(sys.st), ActionOf(sys.st, step, h), taskTTL);
    } else {
      OnlyCreateAdds(sys, step, h);
      PunctualBorn(h, FreshTask(step.task), EnvOf(sys.st), taskTTL);
    }
  }

  lemma {:induction false} RunPunctual(r: seq<System>, steps: seq<Step>, k: nat, h: nat)
    requires Run(r, steps) && k < |r| && h < |r[k].st.arena|
    ensures Punctual(LifeOf(r[k], h), r[k].st.now, EffectiveTaskTTL(r[k].st.q, r[k].st.eng))
  {
    if k > 0 {
      RunFollows(r, steps, k - 1);
      ConfigKept(r[k - 1].st, steps[k - 1]);
      if h < |r[k - 1].st.arena| {
        RunPunctual(r, steps, k - 1, h);
        RunKept(r, steps, k - 1, h);
      }
      PunctualFollows(r[k - 1], steps[k - 1], r[k], h, EffectiveTaskTTL(r[k].st.q, r[k].st.eng));
    }
  }

  /**
   No task expires early: in every run a task that expired had lived at least the queue's task
   TTL, or the engine's when the queue sets none.
   */
  lemma NeverExpiresEarly(r: seq<System>, steps: seq<Step>, k: nat, h: nat, j: nat)
    requires Run(r, steps) && k < |r| && h < |r[k].st.arena|
    requires j < |TaskLog(r[k].log, h)| && Ends(TaskLog(r[k].log, h)[j], Expired)
    ensures
      var log := TaskLog(r[k].log, h);
      && log[0].Created?
      && (r[k].st.q.taskTTL > 0 ==> log[j].at >= log[0].at + r[k].st.q.taskTTL)
      && (r[k].st.q.taskTTL <= 0 ==> log[j].at >= log[0].at + Max(0, r[k].st.eng.taskTTL))
  {
    RunKept(r, steps, k, h);
    RunPunctual(r, steps, k, h);
  }

  // ---- reservation ----

  /** How long the queue's names stay reserved: its own tombstone TTL when positive, else the engine's. */
  lemma TombstoneTTLIs(s: QState)
    ensures s.q.tombstoneTTL > 0 ==> EffectiveTombstoneTTL(s.q, s.eng) == s.q.tombstoneTTL
    ensures s.q.tombstoneTTL <= 0 ==> EffectiveTombstoneTTL(s.q, s.eng) == s.eng.tombstoneTTL
  {
  }

  /** The reservation of a name, if any, ends by the deadline. */
  predicate FreeBy(tombstones: map<string, int>, name: string, deadline: int) {
    name in tombstones ==> tombstones[name] <= deadline
  }

  lemma RemoveElsewhere(s: QState, h: nat, name: string)
    requires h < |s.arena| && s.arena[h].name != name
    ensures name in RemoveLocked(s, h).tombstones ==>
              name in s.tombstones && RemoveLocked(s, h).tombstones[name] == s.tombstones[name]
  {
  }

  lemma PurgeElsewhere(s: QState, name: string)
    requires WellFormed(s) && name !in s.tasks
    ensures name in Purge(s).tombstones ==> name in s.tombstones && Purge(s).tombstones[name] == s.tombstones[name]
  {
  }

  lemma ApplyElsewhere(s: QState, i: nat, o: Dispatch.Outcome, dispatchTime: int, name: string)
    requires WellFormed(s) && Registered(s.arena, s.tasks) && i in s.conts
    requires name in s.tasks ==> name in ApplyAttempt(s, i, o, dispatchTime).tasks
    ensures
      var after := ApplyAttempt(s, i, o, dispatchTime).tombstones;
      name in after ==> name in s.tombstones && after[name] == s.tombstones[name]
  {
    var h := s.conts[i].task;
    if !s.arena[h].removed {
      var t := Record(s.arena[h], o, dispatchTime);
      match Judge(s.q.retryConfig, s.now, t, o) {
        case Retry(delay) => assert Reschedule(s, i, t, delay).tombstones == s.tombstones;
        case _ =>
          var stored := Finish(s.(arena := s.arena[h := t]), i);
          assert ApplyAttempt(s, i, o, dispatchTime) == RemoveLocked(stored, h);
          assert s.arena[h].name in s.tasks;
          RemoveElsewhere(stored, h, name);
      }
    }
  }

  /** A step that does not release the name leaves its reservation or lets it go. */
  lemma UnreleasedStep(s: QState, step: Step, name: string, deadline: int)
    requires Sound(s) && Enabled(s, step) && !Releases(s, step, name) && FreeBy(s.tombstones, name, deadline)
    ensures FreeBy(NextState(s, step).tombstones, name, deadline)
  {
    if step.ApplyStep? {
      ApplyElsewhere(s, step.i, step.outcome, step.dispatchTime, name);
    } else if step.PurgeStep? {
      PurgeElsewhere(s, name);
    } else if step.DeleteStep? {
      if step.name in s.tasks {
        RemoveElsewhere(s, s.tasks[step.name], name);
      }
    } else if step.ExpireStep? {
      if !s.arena[step.h].removed {
        assert s.arena[step.h].name in s.tasks;
        RemoveElsewhere(s.(ttls := s.ttls - {step.h}), step.h, name);
      }
    } else {
      OtherTombstones(s, step, name);
    }
  }

  lemma OtherTombstones(s: QState, step: Step, name: string)
    requires Sound(s) && Enabled(s, step)
    requires !step.ApplyStep? && !step.PurgeStep? && !step.DeleteStep? && !step.ExpireStep?
    ensures name in NextState(s, step).tombstones ==>
              name in s.tombstones && NextState(s, step).tombstones[name] == s.tombstones[name]
  {
    if KeepsTasks(step) && !step.CleanupStep? {
      Untouched(s, step);
    }
  }

  ghost predicate KeepsReleased(r: seq<System>, steps: seq<Step>, j: nat, name: string)
    requires |r| == |steps| + 1 && j < |steps|
  {
    Follows(r[j], steps[j], r[j + 1]) && !Releases(r[j].st, steps[j], name)
  }

  lemma {:induction false} FreeByThen(r: seq<System>, steps: seq<Step>, a: nat, k: nat, name: string, deadline: int)
    requires Run(r, steps) && a <= k < |r| && FreeBy(r[a].st.tombstones, name, deadline)
    requires forall j | a <= j < k :: KeepsReleased(r, steps, j, name)
    ensures FreeBy(r[k].st.tombstones, name, deadline)
    decreases k
  {
    if k > a {
      FreeByThen(r, steps, a, k - 1, name, deadline);
      RunFollows(r, steps, k - 1);
      assert KeepsReleased(r, steps, k - 1, name);
      UnreleasedStep(r[k - 1].st, steps[k - 1], name, deadline);
    }
  }

  /** What a released name's reservation is right after the release. */
  lemma ReleasedUntil(s: QState, step: Step, name: string)
    requires Sound(s) && Enabled(s, step) && Releases(s, step, name) && EffectiveTombstoneTTL(s.q, s.eng) >= 0
    ensures FreeBy(NextState(s, step).tombstones, name, s.now + EffectiveTombstoneTTL(s.q, s.eng))
  {
    if step.ApplyStep? {
      ApplyReleases(s, step.i, step.outcome, step.dispatchTime, name);
    } else if step.PurgeStep? {
      PurgeReleases(s, name);
    } else if step.DeleteStep? {
      RemoveReleases(s, s.tasks[step.name]);
    } else if step.ExpireStep? {
      RemoveReleases(s.(ttls := s.ttls - {step.h}), step.h);
    } else {
      NothingElseReleases(s, step, name);
    }
  }

  lemma RemoveReleases(s: QState, h: nat)
    requires h < |s.arena| && EffectiveTombstoneTTL(s.q, s.eng) >= 0
    ensures FreeBy(RemoveLocked(s, h).tombstones, s.arena[h].name, s.now + EffectiveTombstoneTTL(s.q, s.eng))
  {
  }

  lemma PurgeReleases(s: QState, name: string)
    requires WellFormed(s) && name in s.tasks && EffectiveTombstoneTTL(s.q, s.eng) >= 0
    ensures FreeBy(Purge(s).tombstones, name, s.now + EffectiveTombstoneTTL(s.q, s.eng))
  {
  }

  lemma NothingElseReleases(s: QState, step: Step, name: string)
    requires Sound(s) && Enabled(s, step)
    requires !step.ApplyStep? && !step.PurgeStep? && !step.DeleteStep? && !step.ExpireStep?
    ensures !Releases(s, step, name)
  {
    if KeepsTasks(step) {
      KeepsIdentities(s, step);
    }
  }

  lemma ApplyReleases(s: QState, i: nat, o: Dispatch.Outcome, dispatchTime: int, name: string)
    requires WellFormed(s) && Registered(s.arena, s.tasks) && i in s.conts && EffectiveTombstoneTTL(s.q, s.eng) >= 0
    requires name in s.tasks && name !in ApplyAttempt(s, i, o, dispatchTime).tasks
    ensures FreeBy(ApplyAttempt(s, i, o, dispatchTime).tombstones, name, s.now + EffectiveTombstoneTTL(s.q, s.eng))
  {
    var h := s.conts[i].task;
    var t := Record(s.arena[h], o, dispatchTime);
    var stored := Finish(s.(arena := s.arena[h := t]), i);
    assert !Judge(s.q.retryConfig, s.now, t, o).Retry?;
    assert ApplyAttempt(s, i, o, dispatchTime) == RemoveLocked(stored, h);
  }

  /**
   Exactly the window: once step a of a run takes a name out of the map, and as long as no later
   step releases the name again, the name is rejected before the queue's tombstone TTL (the
   engine's when the queue sets none) is over, unless a hard-reset purge intervenes, and it is
   not reserved from that moment on.
   */
  lemma ReservedExactly(r: seq<System>, steps: seq<Step>, a: nat, k: nat, name: string, ttl: int)
    requires Run(r, steps) && a < k < |r|
    requires StepAt(r, steps, a) && Releases(r[a].st, steps[a], name)
    requires ttl == (if r[a].st.q.tombstoneTTL > 0 then r[a].st.q.tombstoneTTL else r[a].st.eng.tombstoneTTL) && ttl >= 0
    requires forall j | a < j < k :: KeepsReleased(r, steps, j, name)
    ensures r[k].st.now < r[a].st.now + ttl && NoHardReset(r, steps, a, k) ==>
              name !in r[k].st.tasks && Tombstoned(r[k].st, name)
    ensures r[k].st.now >= r[a].st.now + ttl ==> !Tombstoned(r[k].st, name)
  {
    TombstoneTTLIs(r[a].st);
    if r[k].st.now < r[a].st.now + ttl && NoHardReset(r, steps, a, k) {
      NameReservation(r, steps, a, k, name);
    }
    RunFollows(r, steps, a);
    ReleasedUntil(r[a].st, steps[a], name);
    FreeByThen(r, steps, a + 1, k, name, r[a].st.now + ttl);
  }

  /** A hard-reset purge frees every name: whatever was live or reserved can be created at once. */
  lemma HardResetFrees(sys: System, t: NewTask)
    requires WellFormed(sys.st) && sys.st.eng.hardResetOnPurge
    ensures
      var purged := Next(sys, PurgeStep).st;
      && purged.tasks == map[] && purged.tombstones == map[]
      && !NameTaken(purged, t.name) && t.name in CreateTask(purged, t).tasks
  {
  }
}
