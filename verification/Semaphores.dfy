/**
 Concurrency tokens are conserved across configuration swaps: for each semaphore ever built,
 the tokens taken are exactly the continuations that captured it and hold one.
 */
module Semaphores {
  import opened Wrappers
  import opened Types
  import opened Lifecycle
  import opened History
  import opened Projection
  import opened Lives
  import opened Tracking
  import Dispatch

  predicate HoldsToken(p: Phase, g: nat) {
    || (p.Admitted? && p.gen == g)
    || (p.InFlight? && p.slot == Some(g))
    || (p.Returning? && p.gen == g)
  }

  /** The continuations that hold a token of one semaphore. */
  function Holders(conts: map<nat, Cont>, g: nat): set<nat> {
    set i | i in conts && HoldsToken(conts[i].phase, g)
  }

  /** One semaphore's count is the number of its holders, within its capacity. */
  ghost predicate Conserved(limits: seq<Limits>, conts: map<nat, Cont>, g: nat) {
    g < |limits| ==> limits[g].held == |Holders(conts, g)| <= limits[g].capacity
  }

  lemma HoldersUpdate(conts: map<nat, Cont>, i: nat, c: Cont, g: nat)
    ensures Holders(conts[i := c], g) == if HoldsToken(c.phase, g) then Holders(conts, g) + {i} else Holders(conts, g) - {i}
  {
  }

  /** Dropping continuations that hold nothing. */
  lemma HoldersDrop(conts: map<nat, Cont>, gone: set<nat>, g: nat)
    requires forall i | i in gone && i in conts :: !HoldsToken(conts[i].phase, g)
    ensures Holders(conts - gone, g) == Holders(conts, g)
  {
  }

  /** A continuation that holds nothing before or after. */
  lemma HoldersKept(conts: map<nat, Cont>, i: nat, c: Cont, g: nat)
    requires i in conts ==> !HoldsToken(conts[i].phase, g)
    requires !HoldsToken(c.phase, g)
    ensures Holders(conts[i := c], g) == Holders(conts, g)
  {
    HoldersUpdate(conts, i, c, g);
  }

  lemma FinishHolders(s: QState, i: nat, g: nat)
    requires i in s.conts && (s.conts[i].phase.Admitted? || s.conts[i].phase.Entered? || s.conts[i].phase.InFlight?)
    ensures Holders(Finish(s, i).conts, g) == Holders(s.conts, g)
  {
    match Slot(s.conts[i].phase)
    case Some(g') => HoldersUpdate(s.conts, i, s.conts[i].(phase := Returning(g')), g);
      assert HoldsToken(s.conts[i].phase, g) == HoldsToken(Returning(g'), g);
    case None => HoldersDrop(s.conts, {i}, g);
  }

  lemma ScheduleHolders(s: QState, h: nat, g: nat)
    requires h < |s.arena| && s.nextId !in s.conts
    ensures Holders(Schedule(s, h).conts, g) == Holders(s.conts, g)
  {
    HoldersKept(s.conts, s.nextId, Cont(h, Armed(Max(s.now, s.arena[h].scheduleTime))), g);
  }

  lemma RemoveHolders(s: QState, h: nat, g: nat)
    requires h < |s.arena|
    ensures Holders(RemoveLocked(s, h).conts, g) == Holders(s.conts, g)
  {
    HoldersDrop(s.conts, StoppableTimer(s, h), g);
  }

  lemma DetachHolders(s: QState, g: nat)
    requires WellFormed(s)
    ensures Holders(DetachAll(s).conts, g) == Holders(s.conts, g)
  {
    HoldersDrop(s.conts, StoppableTimers(s), g);
  }

  lemma SnapshotHolders(s: QState, i: nat, g: nat)
    requires WellFormed(s) && i in s.conts && (s.conts[i].phase.Admitted? || s.conts[i].phase.Entered?)
    ensures Holders(SnapshotAttempt(s, i).conts, g) == Holders(s.conts, g)
  {
    if s.arena[s.conts[i].task].removed {
      FinishHolders(s, i, g);
    } else {
      var c := s.conts[i].(phase := InFlight(Slot(s.conts[i].phase), s.now));
      HoldersUpdate(s.conts, i, c, g);
      assert HoldsToken(c.phase, g) == HoldsToken(s.conts[i].phase, g);
    }
  }

  lemma FireHolders(s: QState, i: nat, g: nat)
    requires WellFormed(s) && i in s.conts && s.conts[i].phase.Fired? && s.nextId !in s.conts
    ensures Holders(FireLocked(s, i).conts, g) == Holders(s.conts, g)
  {
    var h := s.conts[i].task;
    HoldersDrop(s.conts, {i}, g);
    HoldersKept(s.conts, i, Cont(h, AtLimiter(|s.limits| - 1)), g);
    HoldersKept(s.conts - {i}, s.nextId, Cont(h, Armed(s.now + PAUSE_POLL_INTERVAL)), g);
  }

  lemma ApplyHolders(s: QState, i: nat, o: Dispatch.Outcome, dispatchTime: int, g: nat)
    requires WellFormed(s) && i in s.conts && s.conts[i].phase.InFlight? && s.nextId !in s.conts
    ensures Holders(ApplyAttempt(s, i, o, dispatchTime).conts, g) == Holders(s.conts, g)
  {
    var h := s.conts[i].task;
    if s.arena[h].removed {
      FinishHolders(s, i, g);
    } else {
      var t := Record(s.arena[h], o, dispatchTime);
      match Judge(s.q.retryConfig, s.now, t, o) {
        case Retry(delay) => RescheduleHolders(s, i, t, delay, g);
        case _ => DiscardHolders(s, i, t, g);
      }
    }
  }

  lemma RescheduleHolders(s: QState, i: nat, t: TaskState, delay: int, g: nat)
    requires WellFormed(s) && i in s.conts && s.conts[i].phase.InFlight? && s.nextId !in s.conts
    ensures Holders(Reschedule(s, i, t, delay).conts, g) == Holders(s.conts, g)
  {
    var h := s.conts[i].task;
    var stored := s.(arena := s.arena[h := t.(scheduleTime := s.now + delay)]);
    FinishHolders(stored, i, g);
    ScheduleHolders(Finish(stored, i), h, g);
  }

  lemma DiscardHolders(s: QState, i: nat, t: TaskState, g: nat)
    requires WellFormed(s) && i in s.conts && s.conts[i].phase.InFlight?
    ensures Holders(Discard(s, i, t).conts, g) == Holders(s.conts, g)
  {
    var stored := s.(arena := s.arena[s.conts[i].task := t]);
    FinishHolders(stored, i, g);
    RemoveHolders(Finish(stored, i), s.conts[i].task, g);
  }

  lemma RunHolders(s: QState, name: string, g: nat)
    requires WellFormed(s) && s.nextId !in s.conts
    ensures Holders(RunTask(s, name).conts, g) == Holders(s.conts, g)
  {
    if Runnable(s, name) {
      var h := s.tasks[name];
      HoldersDrop(s.conts, StoppableTimer(s, h), g);
      HoldersKept(s.conts - StoppableTimer(s, h), s.nextId, Cont(h, Entered), g);
    }
  }

  lemma CreateHolders(s: QState, t: NewTask, g: nat)
    requires s.nextId !in s.conts
    ensures Holders(CreateTask(s, t).conts, g) == Holders(s.conts, g)
  {
    if !NameTaken(s, t.name) {
      ScheduleHolders(Appended(s, FreshTask(t)), |s.arena|, g);
    }
  }

  /** Taking a token adds exactly one holder to exactly one semaphore; returning it undoes that. */
  lemma TokenMoves(s: QState, step: Step, g: nat)
    requires WellFormed(s) && Enabled(s, step) && Conserved(s.limits, s.conts, g)
    requires step.TakeStep? || step.ReturnStep?
    ensures Conserved(NextState(s, step).limits, NextState(s, step).conts, g)
  {
    var i := step.i;
    var c := s.conts[i];
    if step.TakeStep? {
      HoldersUpdate(s.conts, i, c.(phase := Admitted(c.phase.gen)), g);
    } else {
      assert Holders(s.conts - {i}, g) == Holders(s.conts, g) - {i};
    }
  }

  lemma OtherHolders(s: QState, step: Step, g: nat)
    requires WellFormed(s) && Enabled(s, step) && s.nextId !in s.conts
    requires !step.TakeStep? && !step.ReturnStep?
    ensures Holders(NextState(s, step).conts, g) == Holders(s.conts, g)
  {
    match step
    case TimerStep(i) => HoldersKept(s.conts, i, s.conts[i].(phase := Fired), g);
    case FireStep(i) => FireHolders(s, i, g);
    case LimiterStep(i) =>
      HoldersDrop(s.conts, {i}, g);
      HoldersKept(s.conts, i, s.conts[i].(phase := AtSemaphore(s.conts[i].phase.gen)), g);
    case SnapshotStep(i) => SnapshotHolders(s, i, g);
    case ApplyStep(i, o, dispatchTime) => ApplyHolders(s, i, o, dispatchTime, g);
    case CreateStep(t) => CreateHolders(s, t, g);
    case DeleteStep(name) => if name in s.tasks { RemoveHolders(s, s.tasks[name], g); }
    case RunStep(name) => RunHolders(s, name, g);
    case ExpireStep(h) => if !s.arena[h].removed { RemoveHolders(s.(ttls := s.ttls - {h}), h, g); }
    case PurgeStep => DetachHolders(s, g);
    case StopStep => DetachHolders(s, g);
    case _ =>
  }

  /** A semaphore that does not exist yet has no holders. */
  lemma NoHolders(s: QState, g: nat)
    requires WellFormed(s) && g >= |s.limits|
    ensures Holders(s.conts, g) == {}
  {
    forall i | i in s.conts ensures !HoldsToken(s.conts[i].phase, g) {
      assert InRange(s.conts[i], |s.arena|, |s.limits|);
    }
  }

  lemma ConservedStep(s: QState, step: Step, g: nat)
    requires Sound(s) && Enabled(s, step) && Conserved(s.limits, s.conts, g)
    ensures Conserved(NextState(s, step).limits, NextState(s, step).conts, g)
  {
    if step.TakeStep? || step.ReturnStep? {
      TokenMoves(s, step, g);
    } else {
      OtherHolders(s, step, g);
      if g >= |s.limits| {
        NoHolders(s, g);
      }
    }
  }

  lemma NoneHeldAtFirst(sys: System, g: nat)
    requires Initial(sys)
    ensures Conserved(sys.st.limits, sys.st.conts, g)
  {
    assert Holders(sys.st.conts, g) == {};
  }

  /**
   Semaphore conservation: in every state of every run, for every semaphore ever built, the
   tokens taken equal the timer-driven attempts that captured it, and never exceed its capacity.
   */
  lemma {:induction false} TokensConserved(r: seq<System>, steps: seq<Step>, k: nat, g: nat)
    requires Run(r, steps) && k < |r|
    ensures Conserved(r[k].st.limits, r[k].st.conts, g)
  {
    if k == 0 {
      NoneHeldAtFirst(r[0], g);
    } else {
      TokensConserved(r, steps, k - 1, g);
      RunSound(r, steps, k - 1);
      assert StepAt(r, steps, k - 1);
      ConservedStep(r[k - 1].st, steps[k - 1], g);
    }
  }

  /** Giving a token back never blocks: the semaphore a finished attempt captured holds its token. */
  lemma ReturnNeverBlocks(r: seq<System>, steps: seq<Step>, k: nat, i: nat)
    requires Run(r, steps) && k < |r|
    requires i in r[k].st.conts && r[k].st.conts[i].phase.Returning?
    ensures WellFormed(r[k].st) && Enabled(r[k].st, ReturnStep(i))
  {
    var s := r[k].st;
    PathWellFormed(r, steps, k);
    var g := s.conts[i].phase.gen;
    assert InRange(s.conts[i], |s.arena|, |s.limits|);
    TokensConserved(r, steps, k, g);
    assert i in Holders(s.conts, g);
  }

  // ---- the bound on concurrency ----

  /** The timer-driven attempts under way whose semaphore is among the first n. */
  function TimerDriven(conts: map<nat, Cont>, n: nat): set<nat> {
    set i | i in conts && conts[i].phase.InFlight? && conts[i].phase.slot.Some? && conts[i].phase.slot.value < n
  }

  /** The capacities of those of the first n semaphores that still have a holder. */
  function HeldCapacity(limits: seq<Limits>, n: nat): int
    requires n <= |limits|
  {
    if n == 0 then 0
    else HeldCapacity(limits, n - 1) + if limits[n - 1].held > 0 then limits[n - 1].capacity else 0
  }

  lemma {:induction false} TimerDrivenBound(limits: seq<Limits>, conts: map<nat, Cont>, n: nat)
    requires n <= |limits| && forall g | 0 <= g < n :: Conserved(limits, conts, g)
    ensures |TimerDriven(conts, n)| <= HeldCapacity(limits, n)
  {
    if n == 0 {
      assert TimerDriven(conts, 0) == {};
    } else {
      var g := n - 1;
      TimerDrivenBound(limits, conts, g);
      assert Conserved(limits, conts, g);
      var added := TimerDriven(conts, n) - TimerDriven(conts, g);
      assert added <= Holders(conts, g);
      SubsetSize(added, Holders(conts, g));
      assert TimerDriven(conts, n) == TimerDriven(conts, g) + added;
    }
  }

  /** Timer-driven concurrency is bounded by the capacities of the semaphores still held. */
  lemma ConcurrencyBounded(r: seq<System>, steps: seq<Step>, k: nat)
    requires Run(r, steps) && k < |r|
    ensures |TimerDriven(r[k].st.conts, |r[k].st.limits|)| <= HeldCapacity(r[k].st.limits, |r[k].st.limits|)
  {
    var s := r[k].st;
    forall g | 0 <= g < |s.limits| ensures Conserved(s.limits, s.conts, g) {
      TokensConserved(r, steps, k, g);
    }
    TimerDrivenBound(s.limits, s.conts, |s.limits|);
  }
}
