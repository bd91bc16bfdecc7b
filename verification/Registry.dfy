/**
 The task map and the removed flags agree in every reachable state, so a callback that arrives
 for a removed task does nothing, whatever has happened to its name since.
 */
module Registry {
  import opened Wrappers
  import opened Types
  import opened Lifecycle
  import opened History

  /** The map holds exactly the tasks that are not removed, each under its own name. */
  ghost predicate Registered(arena: seq<TaskState>, tasks: map<string, nat>) {
    && (forall n | n in tasks :: tasks[n] < |arena| && arena[tasks[n]].name == n && !arena[tasks[n]].removed)
    && (forall h | 0 <= h < |arena| && !arena[h].removed :: arena[h].name in tasks && tasks[arena[h].name] == h)
  }

  /** Two arenas hold the same tasks, up to fields that do not identify them. */
  ghost predicate SameIdentities(a: seq<TaskState>, b: seq<TaskState>) {
    && |a| == |b|
    && (forall h | 0 <= h < |a| :: SameIdentity(a[h], b[h]))
  }

  predicate SameIdentity(a: TaskState, b: TaskState) {
    a.name == b.name && a.removed == b.removed && a.pull == b.pull
  }

  lemma RegisteredFrame(a: seq<TaskState>, b: seq<TaskState>, tasks: map<string, nat>)
    requires Registered(a, tasks) && SameIdentities(a, b)
    ensures Registered(b, tasks)
  {
    assert forall h | 0 <= h < |b| && !b[h].removed :: !a[h].removed;
  }

  lemma SameIdentitiesReflexive(a: seq<TaskState>)
    ensures SameIdentities(a, a)
  {
  }

  lemma UpdateIdentities(a: seq<TaskState>, h: nat, t: TaskState)
    requires h < |a| && SameIdentity(a[h], t)
    ensures SameIdentities(a, a[h := t])
  {
  }

  lemma ScheduleIdentities(s: QState, h: nat)
    requires h < |s.arena|
    ensures SameIdentities(s.arena, Schedule(s, h).arena) && Schedule(s, h).tasks == s.tasks
  {
    UpdateIdentities(s.arena, h, s.arena[h].(timer := Some(s.nextId)));
  }

  /** Removing a live task takes exactly its own entry out of the map. */
  lemma RemoveRegistered(s: QState, h: nat)
    requires Registered(s.arena, s.tasks) && h < |s.arena| && !s.arena[h].removed
    ensures
      var s' := RemoveLocked(s, h);
      && Registered(s'.arena, s'.tasks)
      && s'.arena == s.arena[h := s.arena[h].(removed := true)]
      && s'.tasks == s.tasks - {s.arena[h].name}
  {
  }

  lemma DetachRegistered(s: QState)
    requires WellFormed(s) && Registered(s.arena, s.tasks)
    ensures
      var s' := DetachAll(s);
      && Registered(s'.arena, s'.tasks)
      && |s'.arena| == |s.arena|
      && (forall h | 0 <= h < |s.arena| :: s'.arena[h] == s.arena[h].(removed := true))
  {
    var s' := DetachAll(s);
    forall h | 0 <= h < |s.arena|
      ensures s'.arena[h] == s.arena[h].(removed := true)
    {
      if !s.arena[h].removed {
        assert s.tasks[s.arena[h].name] == h;
      }
    }
  }

  lemma StoreRegistered(s: QState, h: nat, t: TaskState)
    requires h < |s.arena| && Registered(s.arena, s.tasks) && SameIdentity(s.arena[h], t)
    ensures Registered(s.arena[h := t], s.tasks)
  {
    UpdateIdentities(s.arena, h, t);
    RegisteredFrame(s.arena, s.arena[h := t], s.tasks);
  }

  lemma RescheduleRegistered(s: QState, i: nat, t: TaskState, delay: int)
    requires WellFormed(s) && i in s.conts && Registered(s.arena, s.tasks)
    requires SameIdentity(s.arena[s.conts[i].task], t)
    ensures Registered(Reschedule(s, i, t, delay).arena, Reschedule(s, i, t, delay).tasks)
  {
    var h := s.conts[i].task;
    var t' := t.(scheduleTime := s.now + delay);
    var stored := Finish(s.(arena := s.arena[h := t']), i);
    StoreRegistered(s, h, t');
    ScheduleIdentities(stored, h);
    RegisteredFrame(stored.arena, Schedule(stored, h).arena, s.tasks);
  }

  lemma DiscardRegistered(s: QState, i: nat, t: TaskState)
    requires WellFormed(s) && i in s.conts && Registered(s.arena, s.tasks)
    requires !t.removed && SameIdentity(s.arena[s.conts[i].task], t)
    ensures Registered(Discard(s, i, t).arena, Discard(s, i, t).tasks)
  {
    var h := s.conts[i].task;
    StoreRegistered(s, h, t);
    RemoveRegistered(Finish(s.(arena := s.arena[h := t]), i), h);
  }

  /** Steps that neither add nor remove a task. */
  predicate KeepsTasks(step: Step) {
    !step.CreateStep? && !step.DeleteStep? && !step.ExpireStep? && !step.ApplyStep? && !step.PurgeStep? && !step.StopStep?
  }

  lemma KeepsIdentities(s: QState, step: Step)
    requires WellFormed(s) && Enabled(s, step) && KeepsTasks(step)
    ensures SameIdentities(s.arena, NextState(s, step).arena)
    ensures NextState(s, step).tasks == s.tasks
  {
    SameIdentitiesReflexive(s.arena);
    match step
    case FireStep(i) =>
      var h := s.conts[i].task;
      UpdateIdentities(s.arena, h, s.arena[h].(timer := Some(s.nextId)));
    case RunStep(name) =>
      if Runnable(s, name) {
        var h := s.tasks[name];
        UpdateIdentities(s.arena, h, s.arena[h].(scheduleTime := s.now));
      }
    case SnapshotStep(i) => assert SnapshotAttempt(s, i).arena == s.arena;
    case _ =>
  }

  lemma AppendRegistered(s: QState, t: TaskState)
    requires Registered(s.arena, s.tasks) && !t.removed && t.name !in s.tasks
    ensures Registered(s.arena + [t], s.tasks[t.name := |s.arena|])
  {
  }

  lemma CreateRegistered(s: QState, t: NewTask)
    requires WellFormed(s) && Registered(s.arena, s.tasks)
    ensures Registered(CreateTask(s, t).arena, CreateTask(s, t).tasks)
  {
    if !NameTaken(s, t.name) {
      var s' := Appended(s, FreshTask(t));
      AppendRegistered(s, FreshTask(t));
      ScheduleIdentities(s', |s.arena|);
      RegisteredFrame(s'.arena, Schedule(s', |s.arena|).arena, s'.tasks);
    }
  }

  lemma RegisteredStep(s: QState, step: Step)
    requires WellFormed(s) && Enabled(s, step) && Registered(s.arena, s.tasks)
    ensures Registered(NextState(s, step).arena, NextState(s, step).tasks)
  {
    if KeepsTasks(step) {
      KeepsIdentities(s, step);
      RegisteredFrame(s.arena, NextState(s, step).arena, s.tasks);
    } else {
      match step
      case CreateStep(t) => CreateRegistered(s, t);
      case DeleteStep(name) => if name in s.tasks { RemoveRegistered(s, s.tasks[name]); }
      case ExpireStep(h) => if !s.arena[h].removed { RemoveRegistered(s.(ttls := s.ttls - {h}), h); }
      case ApplyStep(i, o, dispatchTime) =>
        var h := s.conts[i].task;
        if !s.arena[h].removed {
          var t := Record(s.arena[h], o, dispatchTime);
          match Judge(s.q.retryConfig, s.now, t, o) {
            case Retry(delay) => RescheduleRegistered(s, i, t, delay);
            case _ => DiscardRegistered(s, i, t);
          }
        }
      case PurgeStep => DetachRegistered(s);
      case StopStep => DetachRegistered(s);
    }
  }

  /** In every state of every run, a task is un-removed iff the map holds that very object under its name. */
  lemma {:induction false} RunRegistered(r: seq<System>, steps: seq<Step>, k: nat)
    requires Run(r, steps) && k < |r|
    ensures Registered(r[k].st.arena, r[k].st.tasks)
    ensures forall h | 0 <= h < |r[k].st.arena| ::
              var t := r[k].st.arena[h];
              !t.removed <==> t.name in r[k].st.tasks && r[k].st.tasks[t.name] == h
  {
    if k > 0 {
      RunRegistered(r, steps, k - 1);
      assert StepAt(r, steps, k - 1);
      RegisteredStep(r[k - 1].st, steps[k - 1]);
    }
  }

  /** The task whose callback a step is. */
  function CallbackTask(s: QState, step: Step): Option<nat>
    requires WellFormed(s) && Enabled(s, step)
  {
    match step
    case FireStep(i) => Some(s.conts[i].task)
    case SnapshotStep(i) => Some(s.conts[i].task)
    case ApplyStep(i, _, _) => Some(s.conts[i].task)
    case ExpireStep(h) => Some(h)
    case _ => None
  }

  /** A callback of a removed task changes at most its own continuation and its own TTL timer. */
  lemma RemovedCallback(s: QState, step: Step)
    requires WellFormed(s) && Enabled(s, step)
    requires CallbackTask(s, step).Some? && s.arena[CallbackTask(s, step).value].removed
    ensures Events(s, step) == []
    ensures NextState(s, step) == s.(conts := NextState(s, step).conts, ttls := NextState(s, step).ttls)
  {
  }
}
