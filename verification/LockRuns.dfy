/**
 The lock programs over runs: in whatever order a run takes its steps, what one continuation
 does to the locks and tokens is, so far, the beginning of the program of its call, and the
 whole of it once the continuation is over.
 */
module LockRuns {
  import opened Wrappers
  import opened Types
  import opened Lifecycle
  import opened History
  import opened Projection
  import opened Lives
  import opened Ownership
  import opened Locks
  import opened LockSteps
  import Dispatch

  /** A step that the continuation i makes. */
  predicate IsStepOf(step: Step, i: nat) {
    && (step.TimerStep? || step.FireStep? || step.LimiterStep? || step.TakeStep? || step.SnapshotStep? || step.ApplyStep?
        || step.ReturnStep?)
    && step.i == i
  }

  /** The semaphore a continuation has captured, if any. */
  function SemOf(s: QState, i: nat): nat {
    if i in s.conts && CapturedGen(s.conts[i].phase).Some? then CapturedGen(s.conts[i].phase).value else 0
  }

  /** What the continuation i did to the locks in the first k steps of a run, in their order. */
  function OpsOf(queue: nat, r: seq<System>, steps: seq<Step>, i: nat, k: nat): seq<Op>
    requires |r| == |steps| + 1 && k < |r|
  {
    if k == 0 then []
    else OpsOf(queue, r, steps, i, k - 1) +
         if IsStepOf(steps[k - 1], i) then StepOps(queue, SemOf(r[k - 1].st, i), steps[k - 1]) else []
  }

  /** A fire that holds a token and is about to attempt. */
  function Entry(queue: nat, g: nat): seq<Op> {
    Section(queue) + [AwaitLimiter, Acquire(Token(g))]
  }

  /** The operations behind a continuation in a phase. */
  ghost predicate Behind(queue: nat, p: Phase, ops: seq<Op>) {
    match p
    case AtLimiter(_) => ops == Section(queue)
    case AtSemaphore(_) => ops == Section(queue) + [AwaitLimiter]
    case Admitted(g) => ops == Entry(queue, g)
    case InFlight(slot, _) => ops == if slot.Some? then Entry(queue, slot.value) + Section(queue) else Section(queue)
    case Returning(g) => exists delivers :: ops == Entry(queue, g) + Attempt(queue, delivers)
    case _ => ops == []
  }

  /** A continuation that is over: stopped in time, dropped or held, a whole fire, or the attempt of RunTask. */
  ghost predicate Over(queue: nat, ops: seq<Op>) {
    || ops == []
    || ops == Program(Callback(queue))
    || (exists g, delivers :: ops == Program(Fire(queue, g, delivers)))
    || (exists delivers :: ops == Attempt(queue, delivers))
  }

  ghost predicate Stands(queue: nat, conts: map<nat, Cont>, nextId: nat, i: nat, ops: seq<Op>) {
    if i in conts then Behind(queue, conts[i].phase, ops)
    else if i < nextId then Over(queue, ops)
    else ops == []
  }

  // ---- one step ----

  function PhaseAt(s: QState, i: nat): Option<Phase> {
    if i in s.conts then Some(s.conts[i].phase) else None
  }

  /** The phase after a step of the continuation's own, if it is not over then. */
  ghost predicate MovesTo(p: Phase, step: Step, now: int, p': Option<Phase>) {
    match step
    case TimerStep(_) => p' == Some(Fired)
    case FireStep(_) => p.Fired? && (p' == None || (p'.Some? && p'.value.AtLimiter?))
    case LimiterStep(_) => p.AtLimiter? && p' == Some(AtSemaphore(p.gen))
    case TakeStep(_) => p.AtSemaphore? && p' == Some(Admitted(p.gen))
    case SnapshotStep(_) => (p.Admitted? || p.Entered?) && (p' == Some(InFlight(Slot(p), now)) || p' == AfterAttempt(p))
    case ApplyStep(_, _, _) => p.InFlight? && p' == AfterAttempt(p)
    case ReturnStep(_) => p.Returning? && p' == None
    case _ => false
  }

  function AfterAttempt(p: Phase): Option<Phase> {
    if Slot(p).Some? then Some(Returning(Slot(p).value)) else None
  }

  /** A continuation that a step is not about stays as it is, is stopped while armed, or is new. */
  predicate LeftOrNew(before: Option<Phase>, after: Option<Phase>, i: nat, nextId: nat) {
    || after == before
    || (before.Some? && before.value.Armed? && after == None)
    || (before == None && i == nextId && after.Some? && (after.value.Armed? || after.value.Entered?))
  }

  lemma RemoveLeaves(s: QState, h: nat, i: nat)
    requires h < |s.arena|
    ensures LeftOrNew(PhaseAt(s, i), PhaseAt(RemoveLocked(s, h), i), i, s.nextId) && RemoveLocked(s, h).nextId == s.nextId
    ensures PhaseAt(s, i) == None ==> PhaseAt(RemoveLocked(s, h), i) == None
  {
  }

  lemma DetachLeaves(s: QState, i: nat)
    requires WellFormed(s)
    ensures LeftOrNew(PhaseAt(s, i), PhaseAt(DetachAll(s), i), i, s.nextId)
  {
  }

  lemma ScheduleLeaves(s: QState, h: nat, i: nat)
    requires h < |s.arena| && (i in s.conts ==> i != s.nextId)
    ensures LeftOrNew(PhaseAt(s, i), PhaseAt(Schedule(s, h), i), i, s.nextId)
    ensures i != s.nextId ==> PhaseAt(Schedule(s, h), i) == PhaseAt(s, i)
  {
  }

  lemma FinishMoves(s: QState, j: nat, i: nat)
    requires j in s.conts
    ensures PhaseAt(Finish(s, j), i) == if i == j then AfterAttempt(s.conts[j].phase) else PhaseAt(s, i)
    ensures Finish(s, j).nextId == s.nextId
  {
  }

  lemma RetryMoves(s: QState, j: nat, t: TaskState, delay: int, i: nat)
    requires WellFormed(s) && j in s.conts && s.nextId !in s.conts
    ensures
      var p' := PhaseAt(Reschedule(s, j, t, delay), i);
      if i == j then p' == AfterAttempt(s.conts[j].phase) else LeftOrNew(PhaseAt(s, i), p', i, s.nextId)
  {
    var h := s.conts[j].task;
    var stored := s.(arena := s.arena[h := t.(scheduleTime := s.now + delay)]);
    FinishMoves(stored, j, i);
    FinishMoves(stored, j, s.nextId);
    ScheduleLeaves(Finish(stored, j), h, i);
  }

  lemma DropMoves(s: QState, j: nat, t: TaskState, i: nat)
    requires WellFormed(s) && j in s.conts && !s.conts[j].phase.Armed?
    ensures
      var p' := PhaseAt(Discard(s, j, t), i);
      if i == j then p' == AfterAttempt(s.conts[j].phase) else LeftOrNew(PhaseAt(s, i), p', i, s.nextId)
  {
    var h := s.conts[j].task;
    var stored := s.(arena := s.arena[h := t]);
    FinishMoves(stored, j, i);
    RemoveLeaves(Finish(stored, j), h, i);
  }

  lemma ResultMoves(s: QState, j: nat, o: Dispatch.Outcome, dispatchTime: int, i: nat)
    requires WellFormed(s) && j in s.conts && s.conts[j].phase.InFlight? && s.nextId !in s.conts
    ensures
      var p' := PhaseAt(ApplyAttempt(s, j, o, dispatchTime), i);
      if i == j then p' == AfterAttempt(s.conts[j].phase) else LeftOrNew(PhaseAt(s, i), p', i, s.nextId)
  {
    if s.arena[s.conts[j].task].removed {
      FinishMoves(s, j, i);
    } else {
      var t := Record(s.arena[s.conts[j].task], o, dispatchTime);
      match Judge(s.q.retryConfig, s.now, t, o) {
        case Retry(delay) => RetryMoves(s, j, t, delay, i);
        case _ => DropMoves(s, j, t, i);
      }
    }
  }

  lemma FireMoves(s: QState, j: nat, i: nat)
    requires WellFormed(s) && j in s.conts && s.nextId !in s.conts
    ensures
      var p' := PhaseAt(FireLocked(s, j), i);
      if i == j then p' == None || (p'.Some? && p'.value.AtLimiter?) else LeftOrNew(PhaseAt(s, i), p', i, s.nextId)
  {
  }

  lemma SnapshotMoves(s: QState, j: nat, i: nat)
    requires WellFormed(s) && j in s.conts
    ensures
      var p := s.conts[j].phase;
      var p' := PhaseAt(SnapshotAttempt(s, j), i);
      if i == j then p' == Some(InFlight(Slot(p), s.now)) || p' == AfterAttempt(p) else p' == PhaseAt(s, i)
  {
    FinishMoves(s, j, i);
  }

  lemma RunMoves(s: QState, name: string, i: nat)
    requires WellFormed(s) && s.nextId !in s.conts
    ensures LeftOrNew(PhaseAt(s, i), PhaseAt(Lifecycle.RunTask(s, name), i), i, s.nextId)
  {
  }

  lemma CreateMoves(s: QState, t: NewTask, i: nat)
    requires s.nextId !in s.conts
    ensures LeftOrNew(PhaseAt(s, i), PhaseAt(CreateTask(s, t), i), i, s.nextId)
  {
    if !NameTaken(s, t.name) {
      ScheduleLeaves(Appended(s, FreshTask(t)), |s.arena|, i);
    }
  }

  lemma ExpireMoves(s: QState, h: nat, i: nat)
    requires WellFormed(s) && h in s.ttls
    ensures LeftOrNew(PhaseAt(s, i), PhaseAt(Expire(s, h), i), i, s.nextId)
  {
    RemoveLeaves(s.(ttls := s.ttls - {h}), h, i);
  }

  lemma UnusedId(s: QState)
    requires Sound(s)
    ensures s.nextId !in s.conts
  {
  }

  lemma OwnMove(s: QState, step: Step, i: nat)
    requires Sound(s) && Enabled(s, step) && IsStepOf(step, i)
    ensures i in s.conts && MovesTo(s.conts[i].phase, step, s.now, PhaseAt(NextState(s, step), i))
  {
    UnusedId(s);
    match step
    case FireStep(_) => FireMoves(s, i, i);
    case SnapshotStep(_) => SnapshotMoves(s, i, i);
    case ApplyStep(_, o, dispatchTime) => ResultMoves(s, i, o, dispatchTime, i);
    case LimiterStep(_) => assert InRange(s.conts[i], |s.arena|, |s.limits|);
    case _ =>
  }

  lemma OtherMove(s: QState, step: Step, i: nat)
    requires Sound(s) && Enabled(s, step) && !IsStepOf(step, i)
    ensures LeftOrNew(PhaseAt(s, i), PhaseAt(NextState(s, step), i), i, s.nextId)
  {
    UnusedId(s);
    match step
    case FireStep(j) => FireMoves(s, j, i);
    case SnapshotStep(j) => SnapshotMoves(s, j, i);
    case ApplyStep(j, o, dispatchTime) => ResultMoves(s, j, o, dispatchTime, i);
    case CreateStep(t) => CreateMoves(s, t, i);
    case RunStep(name) => RunMoves(s, name, i);
    case DeleteStep(name) => if name in s.tasks { RemoveLeaves(s, s.tasks[name], i); }
    case ExpireStep(h) => ExpireMoves(s, h, i);
    case PurgeStep => DetachLeaves(s, i);
    case StopStep => DetachLeaves(s, i);
    case _ =>
  }

  // ---- what the operations make up ----

  lemma AttemptOver(queue: nat, p: Phase, before: seq<Op>, op: seq<Op>, delivers: bool)
    requires p.Admitted? || p.Entered? || p.InFlight?
    requires before + op == (if Slot(p).Some? then Entry(queue, Slot(p).value) else []) + Attempt(queue, delivers)
    ensures AfterAttempt(p).Some? ==> Behind(queue, AfterAttempt(p).value, before + op)
    ensures AfterAttempt(p).None? ==> Over(queue, before + op)
  {
    if AfterAttempt(p).None? {
      assert [] + Attempt(queue, delivers) == Attempt(queue, delivers);
    }
  }

  /** Operations of an attempt, put together. */
  lemma AttemptPieces(queue: nat, base: seq<Op>)
    ensures base + Section(queue) == base + Attempt(queue, false)
    ensures base + Section(queue) + ([Deliver] + Section(queue)) == base + Attempt(queue, true)
  {
    assert Section(queue) + [] == Section(queue);
    assert base + Section(queue) + ([Deliver] + Section(queue)) == base + (Section(queue) + ([Deliver] + Section(queue)));
  }

  lemma SnapshotBehind(queue: nat, p: Phase, now: int, ops: seq<Op>, p': Option<Phase>)
    requires (p.Admitted? || p.Entered?) && Behind(queue, p, ops)
    requires p' == Some(InFlight(Slot(p), now)) || p' == AfterAttempt(p)
    ensures if p'.Some? then Behind(queue, p'.value, ops + Section(queue)) else Over(queue, ops + Section(queue))
  {
    AttemptPieces(queue, ops);
    assert [] + Section(queue) == Section(queue);
    AttemptOver(queue, p, ops, Section(queue), false);
  }

  lemma ApplyBehind(queue: nat, p: Phase, ops: seq<Op>)
    requires p.InFlight? && Behind(queue, p, ops)
    ensures
      var all := ops + ([Deliver] + Section(queue));
      if AfterAttempt(p).Some? then Behind(queue, AfterAttempt(p).value, all) else Over(queue, all)
  {
    var base := if Slot(p).Some? then Entry(queue, Slot(p).value) else [];
    assert [] + Section(queue) == Section(queue);
    AttemptPieces(queue, base);
    AttemptOver(queue, p, ops, [Deliver] + Section(queue), true);
  }

  lemma ReturnOver(queue: nat, g: nat, ops: seq<Op>)
    requires Behind(queue, Returning(g), ops)
    ensures Over(queue, ops + [Release(Token(g))])
  {
    var delivers :| ops == Entry(queue, g) + Attempt(queue, delivers);
    assert ops + [Release(Token(g))] == Program(Fire(queue, g, delivers));
  }

  /** A step of its own takes a continuation on in its program. */
  lemma OwnBehind(queue: nat, s: QState, step: Step, i: nat, ops: seq<Op>, p': Option<Phase>)
    requires IsStepOf(step, i) && i in s.conts && Behind(queue, s.conts[i].phase, ops)
    requires MovesTo(s.conts[i].phase, step, s.now, p')
    requires step.TimerStep? ==> s.conts[i].phase.Armed?
    ensures
      var all := ops + StepOps(queue, SemOf(s, i), step);
      if p'.Some? then Behind(queue, p'.value, all) else Over(queue, all)
  {
    var p := s.conts[i].phase;
    match step
    case TimerStep(_) => assert ops + [] == ops;
    case FireStep(_) => assert [] + Section(queue) == Section(queue);
    case LimiterStep(_) =>
    case TakeStep(_) =>
      assert Section(queue) + [AwaitLimiter] + [Acquire(Token(p.gen))] == Entry(queue, p.gen);
    case SnapshotStep(_) => SnapshotBehind(queue, p, s.now, ops, p');
    case ApplyStep(_, _, _) => ApplyBehind(queue, p, ops);
    case ReturnStep(_) => ReturnOver(queue, p.gen, ops);
  }

  lemma LeftBehind(queue: nat, before: Option<Phase>, after: Option<Phase>, i: nat, nextId: nat, ops: seq<Op>)
    requires LeftOrNew(before, after, i, nextId)
    requires if before.Some? then Behind(queue, before.value, ops) else if i < nextId then Over(queue, ops) else ops == []
    ensures if after.Some? then Behind(queue, after.value, ops)
            else if i < nextId || before.Some? then Over(queue, ops) else ops == []
  {
  }

  lemma IdsGrow(s: QState, step: Step)
    requires Sound(s) && Enabled(s, step)
    ensures s.nextId <= NextState(s, step).nextId <= s.nextId + 1
    ensures forall i | i in NextState(s, step).conts :: i < NextState(s, step).nextId
    ensures NextState(s, step).nextId > s.nextId ==> s.nextId in NextState(s, step).conts
  {
    OwnedStep(s, step);
    NextIdStep(s, step);
  }

  lemma ApplyIds(s: QState, j: nat, o: Dispatch.Outcome, dispatchTime: int)
    requires WellFormed(s) && j in s.conts && s.nextId !in s.conts
    ensures
      var s' := ApplyAttempt(s, j, o, dispatchTime);
      s'.nextId == s.nextId || (s'.nextId == s.nextId + 1 && s.nextId in s'.conts)
  {
    if !s.arena[s.conts[j].task].removed {
      var t := Record(s.arena[s.conts[j].task], o, dispatchTime);
      match Judge(s.q.retryConfig, s.now, t, o) {
        case Retry(delay) => assert ApplyAttempt(s, j, o, dispatchTime) == Reschedule(s, j, t, delay);
        case _ => assert ApplyAttempt(s, j, o, dispatchTime) == Discard(s, j, t);
      }
    }
  }

  lemma NextIdStep(s: QState, step: Step)
    requires Sound(s) && Enabled(s, step)
    ensures
      var s' := NextState(s, step);
      s'.nextId == s.nextId || (s'.nextId == s.nextId + 1 && s.nextId in s'.conts)
  {
    UnusedId(s);
    if step.ApplyStep? {
      ApplyIds(s, step.i, step.outcome, step.dispatchTime);
    }
  }

  lemma StandsStep(queue: nat, s: QState, step: Step, i: nat, ops: seq<Op>)
    requires Sound(s) && Enabled(s, step) && Stands(queue, s.conts, s.nextId, i, ops)
    ensures
      var s' := NextState(s, step);
      Stands(queue, s'.conts, s'.nextId, i,
             ops + if IsStepOf(step, i) then StepOps(queue, SemOf(s, i), step) else [])
  {
    IdsGrow(s, step);
    if IsStepOf(step, i) {
      OwnMove(s, step, i);
      OwnBehind(queue, s, step, i, ops, PhaseAt(NextState(s, step), i));
    } else {
      assert ops + [] == ops;
      OtherMove(s, step, i);
      LeftBehind(queue, PhaseAt(s, i), PhaseAt(NextState(s, step), i), i, s.nextId, ops);
    }
  }

  // ---- whole runs ----

  lemma {:induction false} RunStands(queue: nat, r: seq<System>, steps: seq<Step>, i: nat, k: nat)
    requires Run(r, steps) && k < |r|
    ensures Stands(queue, r[k].st.conts, r[k].st.nextId, i, OpsOf(queue, r, steps, i, k))
  {
    if k > 0 {
      RunStands(queue, r, steps, i, k - 1);
      RunSound(r, steps, k - 1);
      assert StepAt(r, steps, k - 1);
      StandsStep(queue, r[k - 1].st, steps[k - 1], i, OpsOf(queue, r, steps, i, k - 1));
    }
  }

  /** The operations are a stretch of the program of some call, from its start unless the call is RunTask. */
  ghost predicate PartOf(c: Call, ops: seq<Op>) {
    exists before, after :: Program(c) == before + ops + after && (before == [] || c.RunTask?)
  }

  lemma PartIs(c: Call, before: seq<Op>, ops: seq<Op>, after: seq<Op>)
    requires Program(c) == before + ops + after && (before == [] || c.RunTask?)
    ensures PartOf(c, ops)
  {
  }

  lemma NothingIsPart(queue: nat)
    ensures PartOf(Callback(queue), [])
  {
    PartIs(Callback(queue), [], [], Section(queue));
  }

  /** The pieces of a fire are the beginnings of its program. */
  lemma FireParts(queue: nat, g: nat, delivers: bool)
    ensures
      var c := Fire(queue, g, delivers);
      && PartOf(c, Section(queue))
      && PartOf(c, Section(queue) + [AwaitLimiter])
      && PartOf(c, Entry(queue, g))
      && PartOf(c, Entry(queue, g) + Section(queue))
      && PartOf(c, Entry(queue, g) + Attempt(queue, delivers))
      && PartOf(c, Program(c))
  {
    var c := Fire(queue, g, delivers);
    var attempt, release := Attempt(queue, delivers), [Release(Token(g))];
    var rest := if delivers then [Deliver] + Section(queue) else [];
    assert attempt == Section(queue) + rest;
    PartIs(c, [], Section(queue), [AwaitLimiter, Acquire(Token(g))] + attempt + release);
    PartIs(c, [], Section(queue) + [AwaitLimiter], [Acquire(Token(g))] + attempt + release);
    PartIs(c, [], Entry(queue, g), attempt + release);
    PartIs(c, [], Entry(queue, g) + Section(queue), rest + release);
    PartIs(c, [], Entry(queue, g) + attempt, release);
    PartIs(c, [], Program(c), []);
  }

  /** The attempt of RunTask is a stretch of its program. */
  lemma RunTaskParts(queue: nat, delivers: bool)
    ensures PartOf(Call.RunTask(queue, delivers), Attempt(queue, delivers))
    ensures PartOf(Call.RunTask(queue, delivers), Section(queue))
  {
    var c := Call.RunTask(queue, delivers);
    PartIs(c, Lookup() + Section(queue), Attempt(queue, delivers), Section(queue));
    PartIs(c, Lookup(), Section(queue), Attempt(queue, delivers) + Section(queue));
  }

  lemma BehindIsPart(queue: nat, p: Phase, ops: seq<Op>)
    requires Behind(queue, p, ops)
    ensures exists c :: PartOf(c, ops)
  {
    match p
    case AtLimiter(g) => FireParts(queue, g, true);
    case AtSemaphore(g) => FireParts(queue, g, true);
    case Admitted(g) => FireParts(queue, g, true);
    case InFlight(slot, _) => if slot.Some? { FireParts(queue, slot.value, true); } else { RunTaskParts(queue, true); }
    case Returning(g) =>
      var delivers :| ops == Entry(queue, g) + Attempt(queue, delivers);
      FireParts(queue, g, delivers);
    case _ => NothingIsPart(queue);
  }

  lemma OverIsPart(queue: nat, ops: seq<Op>)
    requires Over(queue, ops)
    ensures exists c :: PartOf(c, ops)
  {
    NothingIsPart(queue);
    if ops == Program(Callback(queue)) {
      PartIs(Callback(queue), [], ops, []);
    } else if g, delivers :| ops == Program(Fire(queue, g, delivers)) {
      FireParts(queue, g, delivers);
    } else if delivers :| ops == Attempt(queue, delivers) {
      RunTaskParts(queue, delivers);
    }
  }

  /**
   In every run, what a continuation has done to the locks and tokens, in the order the run took
   its steps, is so far a stretch of the lock program of one call: the beginning of a fire or of
   a callback, or of the attempt within RunTask. Once the continuation is over it is nothing (the
   timer was stopped), a whole callback, a whole fire, or the whole attempt.
   */
  lemma ProgramsOverRuns(queue: nat, r: seq<System>, steps: seq<Step>, i: nat, k: nat)
    requires Run(r, steps) && k < |r|
    ensures exists c :: PartOf(c, OpsOf(queue, r, steps, i, k))
    ensures i !in r[k].st.conts ==> Over(queue, OpsOf(queue, r, steps, i, k))
  {
    var ops := OpsOf(queue, r, steps, i, k);
    RunStands(queue, r, steps, i, k);
    if i in r[k].st.conts {
      BehindIsPart(queue, r[k].st.conts[i].phase, ops);
    } else {
      OverIsPart(queue, ops);
    }
  }
}
