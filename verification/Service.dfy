/**
 The engine of core/engine.go as an object that owns the queue objects. Each method is one API
 call made without interference; Engine.dfy covers the interleavings.
 */
module Service {
  import opened Wrappers
  import opened Types
  import opened Lifecycle
  import opened History
  import opened Naming
  import opened Runtime
  import opened Guarantees
  import opened Merging
  import Engine
  import Pagination
  import Listing

  ghost predicate SoundQueue(sys: System, name: string, eng: EngineConfig, now: int) {
    WellFormed(sys.st) && Reachable(sys) && sys.st.q.name == name && sys.st.eng == eng && sys.st.now == now
  }

  ghost predicate AllSound(view: map<string, System>, eng: EngineConfig, now: int) {
    forall n | n in view :: SoundQueue(view[n], n, eng, now)
  }

  lemma AllSoundUpdate(view: map<string, System>, name: string, sys: System, eng: EngineConfig, now: int)
    requires AllSound(view, eng, now) && SoundQueue(sys, name, eng, now)
    ensures AllSound(view[name := sys], eng, now)
  {
  }

  lemma WithoutIt(view: map<string, System>, name: string, sys: System)
    ensures view[name := sys] - {name} == view - {name}
  {
  }

  lemma ExtendedBy(view: map<string, System>, after: map<string, System>, name: string, sys: System)
    requires after.Keys == view.Keys + {name} && after[name] == sys
    requires forall n | n in view && n != name :: after[n] == view[n]
    ensures after == view[name := sys]
  {
  }

  lemma ReducedBy(view: map<string, System>, after: map<string, System>, name: string, eng: EngineConfig, now: int)
    requires after.Keys == view.Keys - {name} && AllSound(view, eng, now)
    requires forall n | n in after :: after[n] == view[n]
    ensures after == view - {name} && AllSound(after, eng, now)
  {
  }

  /** A task whose name is taken leaves everything as it was. */
  lemma RefusedIsSame(view: map<string, System>, parent: string, t: NewTask)
    requires parent in view && WellFormed(view[parent].st) && Enabled(view[parent].st, CreateStep(t))
    ensures NameTaken(view[parent].st, t.name) ==> view[parent := Next(view[parent], CreateStep(t))] == view
  {
    if NameTaken(view[parent].st, t.name) {
      assert view[parent].log + [] == view[parent].log;
      assert Next(view[parent], CreateStep(t)) == view[parent];
    }
  }

  /** A queue that has just been created. */
  function NewQueue(q: Queue, eng: EngineConfig, now: int): System {
    System(NewQueueState(ApplyQueueDefaults(q), eng, now), [])
  }

  const DEFAULT_TASK_TTL: int := 31 * 24 * 3600 * SECOND
  const DEFAULT_TOMBSTONE_TTL: int := 24 * 3600 * SECOND

  class TaskService {
    const eng: EngineConfig
    var now: int
    var queues: map<string, QueueState>

    /** Every queue object is at the end of a run, bears the name it is filed under, and shares settings and clock. */
    ghost predicate Valid()
      reads this, queues.Values
    {
      AllSound(View(), eng, now)
    }

    /** The state and the history of every queue, by name. */
    ghost function View(): map<string, System>
      reads this, queues.Values
    {
      map n | n in queues :: queues[n].Sys()
    }

    /** When a call has touched one queue only, the view changes in that place only. */
    twostate lemma OnlyThisQueue(name: string)
      requires old(Valid()) && queues == old(queues) && now == old(now) && name in queues
      requires SoundQueue(queues[name].Sys(), name, eng, now)
      requires forall n | n in queues && n != name :: queues[n].Sys() == old(queues[n].Sys())
      ensures Valid() && View() == old(View())[name := queues[name].Sys()]
    {
      var view, after := old(View()), View();
      forall n | n in view && n != name ensures after[n] == view[n] {
        assert after[n] == queues[n].Sys() && view[n] == old(queues[n].Sys());
      }
      ExtendedBy(view, after, name, queues[name].Sys());
      AllSoundUpdate(old(View()), name, queues[name].Sys(), eng, now);
    }

    /** A queue is sound and no other name leads to its object. */
    lemma Filed(name: string)
      requires Valid() && name in queues
      ensures SoundQueue(queues[name].Sys(), name, eng, now) && queues[name].Valid()
      ensures forall n | n in queues && n != name :: queues[n] != queues[name]
    {
      assert SoundQueue(View()[name], name, eng, now);
      forall n | n in queues && n != name ensures queues[n] != queues[name] {
        assert SoundQueue(View()[n], n, eng, now);
      }
    }

    /** NewEngine: a task TTL of zero means 31 days, a tombstone TTL of zero 24 hours. */
    constructor (taskTTL: int, tombstoneTTL: int, hardResetOnPurge: bool, now: int)
      ensures Valid() && View() == map[] && this.now == now && eng.hardResetOnPurge == hardResetOnPurge
      ensures eng.taskTTL == if taskTTL == 0 then 31 * 24 * 3600 * 1_000_000_000 else taskTTL
      ensures eng.tombstoneTTL == if tombstoneTTL == 0 then 24 * 3600 * 1_000_000_000 else tombstoneTTL
    {
      this.eng := EngineConfig(if taskTTL == 0 then DEFAULT_TASK_TTL else taskTTL,
                               if tombstoneTTL == 0 then DEFAULT_TOMBSTONE_TTL else tombstoneTTL, hardResetOnPurge);
      this.now, queues := now, map[];
    }

    /** Enters a queue object in the map. */
    method File(name: string, qs: QueueState)
      requires Valid() && SoundQueue(qs.Sys(), name, eng, now)
      modifies this
      ensures Valid() && now == old(now) && View() == old(View())[name := qs.Sys()]
    {
      ghost var view, added := View(), qs.Sys();
      AllSoundUpdate(view, name, added, eng, now);
      queues := queues[name := qs];
      ghost var after := View();
      forall n | n in view && n != name ensures n in after && after[n] == view[n] {
        assert after[n] == queues[n].Sys() && view[n] == old(queues[n].Sys());
      }
      ExtendedBy(view, after, name, added);
    }

    /** Makes a queue object with defaults filled in and enters it in the map. */
    method AddQueue(q: Queue) returns (stored: Queue)
      requires Valid()
      modifies this
      ensures Valid() && now == old(now)
      ensures View() == old(View())[q.name := NewQueue(q, eng, now)]
      ensures stored == ApplyQueueDefaults(q)
    {
      var qs := new QueueState(q, eng, now);
      stored := qs.q;
      File(q.name, qs);
    }

    method CreateQueue(parent: string, q: Queue) returns (r: Result<Queue>)
      requires Valid()
      modifies this
      ensures Valid()
      ensures match Engine.CreateQueueError(old(View()).Keys, parent, q.name)
              case Some(code) => r == Err(code) && View() == old(View())
              case None =>
                && r == Ok(ApplyQueueDefaults(q))
                && View() == old(View())[q.name := NewQueue(q, eng, now)]
    {
      if ParseLocationName(parent).None? {
        return Err(InvalidArgument);
      }
      if q.name == "" || ParseQueueName(q.name).None? || !IsQueueID(QueueID(q.name)) {
        return Err(InvalidArgument);
      }
      if QueueParent(q.name) != parent {
        return Err(InvalidArgument);
      }
      if q.name in queues {
        return Err(AlreadyExists);
      }
      var stored := AddQueue(q);
      return Ok(stored);
    }

    /** Creates the queue if it is missing, else merges the masked fields into it. */
    method UpdateQueue(update: Queue, fields: seq<QueueField>) returns (r: Result<Queue>)
      requires Valid()
      modifies this, queues.Values
      ensures Valid()
      ensures !Engine.ValidQueueName(update.name) ==> r == Err(InvalidArgument) && View() == old(View())
      ensures Engine.ValidQueueName(update.name) ==>
                && r.Ok? && update.name in View() && r.value == View()[update.name].st.q
                && (update.name !in old(View()) ==> View() == old(View())[update.name := NewQueue(update, eng, now)])
                && (update.name in old(View()) ==>
                      && WellFormed(old(View())[update.name].st)
                      && View() == old(View())[update.name := Next(old(View())[update.name], UpdateStep(update, fields))]
                      && Merged(old(View())[update.name].st.q, update, fields, r.value))
                && (update.name !in old(View()) ==>
                      && RateLimitsFilled(update.rateLimits, r.value.rateLimits)
                      && RetryConfigFilled(update.retryConfig, r.value.retryConfig) && SameUnmaskable(update, r.value))
    {
      if update.name == "" || ParseQueueName(update.name).None? || !IsQueueID(QueueID(update.name)) {
        return Err(InvalidArgument);
      }
      if update.name !in queues {
        DefaultsFilled(update);
        var stored := AddQueue(update);
        return Ok(stored);
      }
      Filed(update.name);
      var qs := queues[update.name];
      UpdateKeepsConfig(qs.State(), update, fields);
      qs.Update(update, fields);
      OnlyThisQueue(update.name);
      return Ok(qs.q);
    }

    /** Takes a queue out of the map; the object lives on for whoever holds it. */
    method Forget(name: string)
      requires Valid()
      modifies this
      ensures Valid() && View() == old(View()) - {name} && queues == old(queues) - {name}
    {
      ghost var view := View();
      queues := queues - {name};
      ghost var after := View();
      forall n | n in after ensures n in view && after[n] == view[n] {
        assert after[n] == queues[n].Sys() && view[n] == old(queues[n].Sys());
      }
      ReducedBy(view, after, name, eng, now);
    }

    method StopQueue(name: string)
      requires Valid() && name in queues
      modifies queues.Values
      ensures Valid() && WellFormed(old(View())[name].st)
      ensures queues[name].Sys() == Next(old(View())[name], StopStep)
      ensures View() == old(View())[name := queues[name].Sys()]
    {
      Filed(name);
      queues[name].Stop();
      OnlyThisQueue(name);
    }

    method DeleteQueue(name: string) returns (r: Result<()>)
      requires Valid()
      modifies this, queues.Values
      ensures Valid()
      ensures r == if name in old(View()) then Ok(()) else Err(NotFound)
      ensures View() == old(View()) - {name}
      ensures name in old(View()) ==>
                WellFormed(old(View())[name].st) && old(queues)[name].Sys() == Next(old(View())[name], StopStep)
    {
      if name !in queues {
        return Err(NotFound);
      }
      StopQueue(name);
      WithoutIt(old(View()), name, queues[name].Sys());
      Forget(name);
      return Ok(());
    }

    method PurgeQueue(name: string) returns (r: Result<Queue>)
      requires Valid()
      modifies queues.Values
      ensures Valid()
      ensures name !in old(View()) ==> r == Err(NotFound) && View() == old(View())
      ensures name in old(View()) ==>
                && WellFormed(old(View())[name].st)
                && View() == old(View())[name := Next(old(View())[name], PurgeStep)]
                && r == Ok(View()[name].st.q)
    {
      if name !in queues {
        return Err(NotFound);
      }
      Filed(name);
      queues[name].Purge();
      OnlyThisQueue(name);
      return Ok(queues[name].q);
    }

    method SetQueueState(name: string, st: State) returns (r: Result<Queue>)
      requires Valid()
      modifies queues.Values
      ensures Valid()
      ensures name !in old(View()) ==> r == Err(NotFound) && View() == old(View())
      ensures name in old(View()) ==>
                && WellFormed(old(View())[name].st)
                && View() == old(View())[name := Next(old(View())[name], SetStateStep(st))]
                && r == Ok(View()[name].st.q) && r.value.state == st
    {
      if name !in queues {
        return Err(NotFound);
      }
      Filed(name);
      queues[name].SetState(st);
      OnlyThisQueue(name);
      return Ok(queues[name].q);
    }

    method CreateIn(parent: string, t: NewTask) returns (r: Result<TaskState>)
      requires Valid() && parent in queues && t.createTime <= now
      modifies queues.Values
      ensures Valid()
      ensures r == if NameTaken(old(View())[parent].st, t.name) then Err(AlreadyExists) else Ok(FreshTask(t))
      ensures WellFormed(old(View())[parent].st) && Enabled(old(View())[parent].st, CreateStep(t))
      ensures View() == old(View())[parent := Next(old(View())[parent], CreateStep(t))]
      ensures r.Err? ==> View() == old(View())
    {
      Filed(parent);
      RefusedIsSame(View(), parent, t);
      r := queues[parent].CreateTask(t);
      OnlyThisQueue(parent);
    }

    /** Resolves the name against the parent queue, then adds the task to that queue and no other. */
    method CreateTask(parent: string, provided: string, generated: string, pull: bool, scheduleTime: Option<int>)
      returns (r: Result<TaskState>)
      requires Valid()
      modifies queues.Values
      ensures Valid()
      ensures r.Err? ==> View() == old(View())
      ensures ParseQueueName(parent).None? ==> r == Err(InvalidArgument)
      ensures ParseQueueName(parent).Some? && parent !in old(View()) ==> r == Err(NotFound)
      ensures ParseQueueName(parent).Some? && parent in old(View()) ==>
                match ResolveTaskName(parent, provided, generated)
                case Err(code) => r == Err(code)
                case Ok(name) =>
                  var t := NewTask(name, pull, scheduleTime, now);
                  && r == (if NameTaken(old(View())[parent].st, name) then Err(AlreadyExists) else Ok(FreshTask(t)))
                  && WellFormed(old(View())[parent].st) && Enabled(old(View())[parent].st, CreateStep(t))
                  && View() == old(View())[parent := Next(old(View())[parent], CreateStep(t))]
    {
      if ParseQueueName(parent).None? {
        return Err(InvalidArgument);
      }
      if parent !in queues {
        return Err(NotFound);
      }
      var resolved := ResolveTaskName(parent, provided, generated);
      if resolved.Err? {
        return Err(resolved.code);
      }
      r := CreateIn(parent, NewTask(resolved.value, pull, scheduleTime, now));
    }

    method DeleteTask(name: string) returns (r: Result<()>)
      requires Valid()
      modifies queues.Values
      ensures Valid()
      ensures match Engine.TaskQueue(old(View()), name)
              case Err(code) => r == Err(code) && View() == old(View())
              case Ok(sys) =>
                && WellFormed(sys.st) && r == (if name in sys.st.tasks then Ok(()) else Err(NotFound))
                && View() == old(View())[TaskQueueOf(name) := Next(sys, DeleteStep(name))]
    {
      var found := Engine.TaskQueue(queues, name);
      if found.Err? {
        return Err(found.code);
      }
      Filed(TaskQueueOf(name));
      r := found.value.DeleteTask(name);
      OnlyThisQueue(TaskQueueOf(name));
    }

    method GetTask(name: string) returns (r: Result<TaskState>)
      requires Valid()
      ensures Engine.TaskQueue(View(), name).Err? ==> r == Err(Engine.TaskQueue(View(), name).code)
      ensures Engine.TaskQueue(View(), name).Ok? ==>
                var s := Engine.TaskQueue(View(), name).value.st;
                && (r.Err? ==> r.code == NotFound)
                && (r.Ok? <==> name in s.tasks)
                && (r.Ok? ==> r.value.name == name && !r.value.removed && r.value in s.arena)
    {
      var found := Engine.TaskQueue(queues, name);
      if found.Err? {
        return Err(found.code);
      }
      Filed(TaskQueueOf(name));
      found.value.TasksRegistered();
      r := found.value.GetTask(name);
    }

    /** The first locked section of RunTask. */
    method RunTask(name: string) returns (r: Result<nat>)
      requires Valid()
      modifies queues.Values
      ensures Valid()
      ensures match Engine.TaskQueue(old(View()), name)
              case Err(code) => r == Err(code) && View() == old(View())
              case Ok(sys) =>
                && WellFormed(sys.st) && (r.Ok? <==> Runnable(sys.st, name))
                && (r.Err? ==> r.code == if !sys.st.q.pull && name !in sys.st.tasks then NotFound else FailedPrecondition)
                && View() == old(View())[TaskQueueOf(name) := Next(sys, RunStep(name))]
    {
      var found := Engine.TaskQueue(queues, name);
      if found.Err? {
        return Err(found.code);
      }
      Filed(TaskQueueOf(name));
      r := found.value.RunTask(name);
      OnlyThisQueue(TaskQueueOf(name));
    }

    /** One page of the live tasks of a queue, in the order of their names. */
    method ListTasks(parent: string, pageSize: int, pageToken: string)
      returns (r: Result<(seq<TaskState>, string)>, ghost names: seq<string>)
      requires Valid()
      ensures parent !in View() ==> r == Err(NotFound)
      ensures parent in View() ==>
                && Pagination.SortedKeys(names, View()[parent].st.tasks.Keys)
                && match Pagination.Paginate(names, pageSize, pageToken, 1000)
                   case Err(code) => r == Err(code)
                   case Ok(page) =>
                     && r.Ok? && r.value.1 == page.1 && |r.value.0| == |page.0|
                     && forall i | 0 <= i < |page.0| ::
                       r.value.0[i].name == page.0[i] && !r.value.0[i].removed && r.value.0[i] in View()[parent].st.arena
    {
      names := [];
      if parent !in queues {
        return Err(NotFound), [];
      }
      Filed(parent);
      var qs := queues[parent];
      qs.TasksRegistered();
      var sorted := Listing.SortedNames(qs.tasks.Keys);
      names := sorted;
      var page := Pagination.Paginate(sorted, pageSize, pageToken, Pagination.MAX_LIST_TASKS_PAGE_SIZE);
      if page.Err? {
        return Err(page.code), names;
      }
      var shown := page.value.0;
      Pagination.PageOfNames(sorted, pageSize, pageToken, Pagination.MAX_LIST_TASKS_PAGE_SIZE);
      var out: seq<TaskState> := [];
      for i := 0 to |shown|
        invariant |out| == i
        invariant forall j | 0 <= j < i :: out[j].name == shown[j] && !out[j].removed && out[j] in qs.arena
      {
        assert shown[i] in sorted;
        out := out + [qs.arena[qs.tasks[shown[i]]]];
      }
      return Ok((out, page.value.1)), names;
    }

    /** The resources of these queues, in order. */
    method QueuesNamed(names: seq<string>) returns (out: seq<Queue>)
      requires forall n | n in names :: n in queues
      ensures |out| == |names| && forall i | 0 <= i < |names| :: out[i] == queues[names[i]].q
    {
      out := [];
      for i := 0 to |names|
        invariant |out| == i && forall j | 0 <= j < i :: out[j] == queues[names[j]].q
      {
        out := out + [queues[names[i]].q];
      }
    }

    /** One page of the queues of a location, in the order of their names. */
    method ListQueues(parent: string, pageSize: int, pageToken: string)
      returns (r: Result<(seq<Queue>, string)>, ghost names: seq<string>)
      requires Valid()
      ensures ParseLocationName(parent).None? ==> r == Err(InvalidArgument)
      ensures ParseLocationName(parent).Some? ==>
                && Pagination.SortedKeys(names, set n | n in View() && QueueParent(n) == parent)
                && match Pagination.Paginate(names, pageSize, pageToken, 9800)
                   case Err(code) => r == Err(code)
                   case Ok(page) =>
                     && r.Ok? && r.value.1 == page.1 && |r.value.0| == |page.0|
                     && forall i | 0 <= i < |page.0| :: page.0[i] in View() && r.value.0[i] == View()[page.0[i]].st.q
    {
      names := [];
      if ParseLocationName(parent).None? {
        return Err(InvalidArgument), [];
      }
      var here := set n | n in queues && QueueParent(n) == parent;
      var sorted := Listing.SortedNames(here);
      names := sorted;
      var page := Pagination.Paginate(sorted, pageSize, pageToken, Pagination.MAX_LIST_QUEUES_PAGE_SIZE);
      if page.Err? {
        return Err(page.code), names;
      }
      var shown := page.value.0;
      Pagination.PageOfNames(sorted, pageSize, pageToken, Pagination.MAX_LIST_QUEUES_PAGE_SIZE);
      forall n | n in shown ensures n in queues {
        assert n in here;
      }
      var out := QueuesNamed(shown);
      return Ok((out, page.value.1)), names;
    }
  }
}
