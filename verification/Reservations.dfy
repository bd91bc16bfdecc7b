/** Removed task names stay reserved for the tombstone window, and are never live in it. */
module Reservations {
  import opened Types
  import opened Lifecycle
  import opened History
  import opened Registry
  import opened Projection
  import opened Lives
  import opened Guarantees
  import Dispatch

  /** No name is both live and currently reserved. */
  ghost predicate NeverBoth(tasks: map<string, nat>, tombstones: map<string, int>, now: int) {
    forall n | n in tasks && n in tombstones :: tombstones[n] <= now
  }

  /** Until the deadline the name has a tombstone that lasts at least as long. */
  predicate ReservedUntil(tombstones: map<string, int>, now: int, name: string, deadline: int) {
    now < deadline ==> name in tombstones && deadline <= tombstones[name]
  }

  // ---- removal ----

  lemma RemoveReserves(s: QState, h: nat)
    requires h < |s.arena| && EffectiveTombstoneTTL(s.q, s.eng) >= 0
    ensures
      var s' := RemoveLocked(s, h);
      ReservedUntil(s'.tombstones, s'.now, s.arena[h].name, s.now + EffectiveTombstoneTTL(s.q, s.eng))
  {
  }

  lemma RemoveKeeps(s: QState, h: nat, name: string, deadline: int)
    requires Registered(s.arena, s.tasks) && h < |s.arena| && !s.arena[h].removed
    requires NeverBoth(s.tasks, s.tombstones, s.now)
    requires ReservedUntil(s.tombstones, s.now, name, deadline)
    ensures
      var s' := RemoveLocked(s, h);
      && NeverBoth(s'.tasks, s'.tombstones, s'.now)
      && ReservedUntil(s'.tombstones, s'.now, name, deadline)
  {
    assert s.arena[h].name in s.tasks;
  }

  lemma PurgeReserves(s: QState, name: string)
    requires WellFormed(s) && name in s.tasks && EffectiveTombstoneTTL(s.q, s.eng) >= 0 && !s.eng.hardResetOnPurge
    ensures ReservedUntil(Purge(s).tombstones, s.now, name, s.now + EffectiveTombstoneTTL(s.q, s.eng))
  {
  }

  lemma PurgeKeeps(s: QState, name: string, deadline: int)
    requires WellFormed(s) && NeverBoth(s.tasks, s.tombstones, s.now)
    requires ReservedUntil(s.tombstones, s.now, name, deadline)
    ensures !s.eng.hardResetOnPurge ==> ReservedUntil(Purge(s).tombstones, s.now, name, deadline)
  {
  }

  // ---- the other steps ----

  /** Steps that touch neither the task map nor the tombstones. */
  lemma Untouched(s: QState, step: Step)
    requires WellFormed(s) && Enabled(s, step) && KeepsTasks(step) && !step.CleanupStep?
    ensures NextState(s, step).tasks == s.tasks && NextState(s, step).tombstones == s.tombstones
  {
    match step
    case SnapshotStep(i) => assert SnapshotAttempt(s, i) == s.(conts := SnapshotAttempt(s, i).conts);
    case _ =>
  }

  lemma ApplyKeeps(s: QState, i: nat, o: Dispatch.Outcome, dispatchTime: int, name: string, deadline: int)
    requires WellFormed(s) && Registered(s.arena, s.tasks) && i in s.conts
    requires NeverBoth(s.tasks, s.tombstones, s.now) && ReservedUntil(s.tombstones, s.now, name, deadline)
    ensures
      var s' := ApplyAttempt(s, i, o, dispatchTime);
      && NeverBoth(s'.tasks, s'.tombstones, s'.now)
      && ReservedUntil(s'.tombstones, s'.now, name, deadline)
  {
    var h := s.conts[i].task;
    if !s.arena[h].removed {
      var t := Record(s.arena[h], o, dispatchTime);
      match Judge(s.q.retryConfig, s.now, t, o) {
        case Retry(delay) =>
        case _ => DiscardKeeps(s, i, t, name, deadline);
      }
    }
  }

  lemma DiscardKeeps(s: QState, i: nat, t: TaskState, name: string, deadline: int)
    requires WellFormed(s) && Registered(s.arena, s.tasks) && i in s.conts
    requires !t.removed && SameIdentity(s.arena[s.conts[i].task], t)
    requires NeverBoth(s.tasks, s.tombstones, s.now) && ReservedUntil(s.tombstones, s.now, name, deadline)
    ensures
      var s' := Discard(s, i, t);
      && NeverBoth(s'.tasks, s'.tombstones, s'.now)
      && ReservedUntil(s'.tombstones, s'.now, name, deadline)
  {
    var h := s.conts[i].task;
    StoreRegistered(s, h, t);
    RemoveKeeps(Finish(s.(arena := s.arena[h := t]), i), h, name, deadline);
  }

  lemma ExpireKeeps(s: QState, h: nat, name: string, deadline: int)
    requires WellFormed(s) && Registered(s.arena, s.tasks) && h in s.ttls
    requires NeverBoth(s.tasks, s.tombstones, s.now) && ReservedUntil(s.tombstones, s.now, name, deadline)
    ensures
      var s' := Expire(s, h);
      && NeverBoth(s'.tasks, s'.tombstones, s'.now)
      && ReservedUntil(s'.tombstones, s'.now, name, deadline)
  {
    if !s.arena[h].removed {
      RemoveKeeps(s.(ttls := s.ttls - {h}), h, name, deadline);
    }
  }

  lemma CreateKeeps(s: QState, t: NewTask)
    requires NeverBoth(s.tasks, s.tombstones, s.now)
    ensures NeverBoth(CreateTask(s, t).tasks, s.tombstones, s.now) && CreateTask(s, t).tombstones == s.tombstones
  {
  }

  ghost predicate HardReset(s: QState, step: Step) {
    step.PurgeStep? && s.eng.hardResetOnPurge
  }

  /** Every step keeps live and reserved names apart, and every step but a hard reset keeps reservations. */
  lemma ReservationStep(s: QState, step: Step, name: string, deadline: int)
    requires Sound(s) && Enabled(s, step)
    requires NeverBoth(s.tasks, s.tombstones, s.now) && ReservedUntil(s.tombstones, s.now, name, deadline)
    ensures
      var s' := NextState(s, step);
      && NeverBoth(s'.tasks, s'.tombstones, s'.now)
      && (!HardReset(s, step) ==> ReservedUntil(s'.tombstones, s'.now, name, deadline))
  {
    if KeepsTasks(step) && !step.CleanupStep? {
      ConfigKept(s, step);
      Untouched(s, step);
    } else {
      match step
      case CleanupStep(c) =>
      case CreateStep(t) => CreateKeeps(s, t);
      case DeleteStep(n) => if n in s.tasks { RemoveKeeps(s, s.tasks[n], name, deadline); }
      case ExpireStep(h) => ExpireKeeps(s, h, name, deadline);
      case ApplyStep(i, o, dispatchTime) => ApplyKeeps(s, i, o, dispatchTime, name, deadline);
      case PurgeStep => PurgeKeeps(s, name, deadline);
      case StopStep => assert Stop(s).tombstones == s.tombstones;
    }
  }

  // ---- whole runs ----

  lemma {:induction false} RunNeverBoth(r: seq<System>, steps: seq<Step>, k: nat)
    requires Run(r, steps) && k < |r|
    ensures NeverBoth(r[k].st.tasks, r[k].st.tombstones, r[k].st.now)
  {
    if k > 0 {
      var s := r[k - 1].st;
      RunNeverBoth(r, steps, k - 1);
      RunSound(r, steps, k - 1);
      assert StepAt(r, steps, k - 1);
      ReservationStep(s, steps[k - 1], "", s.now);
    }
  }

  /** The names a step takes out of the map and reserves. */
  ghost predicate Releases(s: QState, step: Step, name: string)
    requires WellFormed(s) && Enabled(s, step)
  {
    !step.StopStep? && name in s.tasks && name !in NextState(s, step).tasks
  }

  lemma ApplyReserves(s: QState, i: nat, o: Dispatch.Outcome, dispatchTime: int, name: string)
    requires WellFormed(s) && Registered(s.arena, s.tasks) && i in s.conts && EffectiveTombstoneTTL(s.q, s.eng) >= 0
    requires name in s.tasks && name !in ApplyAttempt(s, i, o, dispatchTime).tasks
    ensures ReservedUntil(ApplyAttempt(s, i, o, dispatchTime).tombstones, s.now, name, s.now + EffectiveTombstoneTTL(s.q, s.eng))
  {
    var h := s.conts[i].task;
    var t := Record(s.arena[h], o, dispatchTime);
    var stored := Finish(s.(arena := s.arena[h := t]), i);
    RemoveReserves(stored, h);
    assert !Judge(s.q.retryConfig, s.now, t, o).Retry?;
    assert ApplyAttempt(s, i, o, dispatchTime) == RemoveLocked(stored, h);
  }

  /** A step that takes a name out of the map, other than deleting the queue, reserves it. */
  lemma ReleaseReserves(s: QState, step: Step, name: string)
    requires Sound(s) && Enabled(s, step) && Releases(s, step, name) && !HardReset(s, step)
    requires EffectiveTombstoneTTL(s.q, s.eng) >= 0
    ensures ReservedUntil(NextState(s, step).tombstones, s.now, name, s.now + EffectiveTombstoneTTL(s.q, s.eng))
  {
    if KeepsTasks(step) {
      KeepsIdentities(s, step);
      assert false;
    } else if step.ApplyStep? {
      ApplyReserves(s, step.i, step.outcome, step.dispatchTime, name);
    } else if step.PurgeStep? {
      PurgeReserves(s, name);
    } else {
      match step
      case CreateStep(t) =>
      case DeleteStep(n) => RemoveReserves(s, s.tasks[n]);
      case ExpireStep(h) => RemoveReserves(s.(ttls := s.ttls - {h}), h);
    }
  }

  ghost predicate SoftAt(r: seq<System>, steps: seq<Step>, j: nat)
    requires |r| == |steps| + 1 && j < |steps|
  {
    !HardReset(r[j].st, steps[j])
  }

  /** No hard-reset purge from step a up to step k. */
  ghost predicate NoHardReset(r: seq<System>, steps: seq<Step>, a: nat, k: nat)
    requires |r| == |steps| + 1 && k <= |steps|
  {
    forall j | a <= j < k :: SoftAt(r, steps, j)
  }

  lemma {:induction false} StaysReserved(r: seq<System>, steps: seq<Step>, a: nat, k: nat, name: string, deadline: int)
    requires Run(r, steps) && a <= k < |r|
    requires ReservedUntil(r[a].st.tombstones, r[a].st.now, name, deadline)
    requires NoHardReset(r, steps, a, k)
    ensures ReservedUntil(r[k].st.tombstones, r[k].st.now, name, deadline)
    decreases k
  {
    if k > a {
      var sys, step := r[k - 1], steps[k - 1];
      StaysReserved(r, steps, a, k - 1, name, deadline);
      RunSound(r, steps, k - 1);
      RunNeverBoth(r, steps, k - 1);
      assert StepAt(r, steps, k - 1);
      assert SoftAt(r, steps, k - 1);
      ReservationStep(sys.st, step, name, deadline);
    }
  }

  /**
   Name reservation: once step a of a run takes a name out of the map, then as long as the clock
   is within the tombstone TTL of the queue (of the engine when the queue sets none) and no
   hard-reset purge intervenes, the name is not live and
   CreateTask rejects it, whatever cleanup timers run meanwhile.
   */
  lemma NameReservation(r: seq<System>, steps: seq<Step>, a: nat, k: nat, name: string)
    requires Run(r, steps) && a < k < |r|
    requires StepAt(r, steps, a) && Releases(r[a].st, steps[a], name)
    requires NoHardReset(r, steps, a, k)
    requires
      var s := r[a].st;
      var ttl := if s.q.tombstoneTTL > 0 then s.q.tombstoneTTL else s.eng.tombstoneTTL;
      ttl >= 0 && r[k].st.now < s.now + ttl
    ensures name !in r[k].st.tasks && Tombstoned(r[k].st, name)
    ensures forall t: NewTask | t.name == name :: CreateTask(r[k].st, t) == r[k].st
  {
    var deadline := r[a].st.now + EffectiveTombstoneTTL(r[a].st.q, r[a].st.eng);
    RunSound(r, steps, a);
    assert SoftAt(r, steps, a);
    assert StepAt(r, steps, a);
    ReleaseReserves(r[a].st, steps[a], name);
    ConfigKept(r[a].st, steps[a]);
    StaysReserved(r, steps, a + 1, k, name, deadline);
    RunNeverBoth(r, steps, k);
  }
}
