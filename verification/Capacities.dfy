/**
 The limits a queue enforces are the configured ones: the limiter and the semaphore that
 deliveries go through are always those of the queue's own rate limits, older ones those of an
 earlier configuration, so a configured concurrency bounds the deliveries under way.
 */
module Capacities {
  import opened Wrappers
  import opened Types
  import opened Lifecycle
  import opened History
  import opened Projection
  import opened Lives
  import opened Semaphores
  import opened Guarantees
  import opened Life
  import Dispatch

  /** A pair of limits is the one that these rate limits ask for: at least one of each. */
  predicate BuiltFor(l: Limits, rl: RateLimits) {
    && l.capacity == (if rl.maxConcurrentDispatches >= 1 then rl.maxConcurrentDispatches else 1)
    && l.burst == (if rl.maxBurstSize >= 1 then rl.maxBurstSize else 1)
  }

  /** Two lists of limits that differ in nothing but the tokens taken. */
  predicate SameSizes(a: seq<Limits>, b: seq<Limits>) {
    |a| == |b| && forall g | 0 <= g < |a| :: a[g].capacity == b[g].capacity && a[g].burst == b[g].burst
  }

  lemma LimitsStay(s: QState, step: Step)
    requires WellFormed(s) && Enabled(s, step) && !step.UpdateStep?
    ensures SameSizes(s.limits, NextState(s, step).limits) && NextState(s, step).q.rateLimits == s.q.rateLimits
  {
    if step.TakeStep? || step.ReturnStep? {
      TokenKeepsSizes(s, step);
    } else {
      LimitsUntouched(s, step);
    }
  }

  lemma TokenKeepsSizes(s: QState, step: Step)
    requires WellFormed(s) && Enabled(s, step) && (step.TakeStep? || step.ReturnStep?)
    ensures SameSizes(s.limits, NextState(s, step).limits) && NextState(s, step).q == s.q
  {
  }

  lemma LimitsUntouched(s: QState, step: Step)
    requires WellFormed(s) && Enabled(s, step) && !step.UpdateStep? && !step.TakeStep? && !step.ReturnStep?
    ensures NextState(s, step).limits == s.limits && NextState(s, step).q.rateLimits == s.q.rateLimits
  {
  }

  lemma LimitsRebuilt(s: QState, update: Queue, fields: seq<QueueField>)
    ensures
      var s' := UpdateQueue(s, update, fields);
      && |s'.limits| == |s.limits| + 1 && s'.limits[..|s.limits|] == s.limits
      && BuiltFor(s'.limits[|s.limits|], s'.q.rateLimits)
  {
  }

  ghost predicate NewestBuilt(s: QState) {
    s.limits != [] && BuiltFor(s.limits[|s.limits| - 1], s.q.rateLimits)
  }

  lemma NewestStep(s: QState, step: Step)
    requires WellFormed(s) && Enabled(s, step) && NewestBuilt(s)
    ensures NewestBuilt(NextState(s, step))
  {
    if step.UpdateStep? {
      LimitsRebuilt(s, step.update, step.fields);
    } else {
      LimitsStay(s, step);
    }
  }

  /**
   In every state of every run, the limiter and semaphore that fire captures are those of the
   queue's rate limits: capacity maxConcurrentDispatches and burst maxBurstSize, each at least 1.
   */
  lemma {:induction false} CurrentLimits(r: seq<System>, steps: seq<Step>, k: nat)
    requires Run(r, steps) && k < |r|
    ensures NewestBuilt(r[k].st)
  {
    if k > 0 {
      CurrentLimits(r, steps, k - 1);
      RunFollows(r, steps, k - 1);
      NewestStep(r[k - 1].st, steps[k - 1]);
    }
  }

  /** Every older pair was built for the rate limits of some earlier state. */
  lemma {:induction false} EarlierLimits(r: seq<System>, steps: seq<Step>, k: nat, g: nat) returns (j: nat)
    requires Run(r, steps) && k < |r| && g < |r[k].st.limits|
    ensures j <= k && BuiltFor(r[k].st.limits[g], r[j].st.q.rateLimits)
  {
    CurrentLimits(r, steps, k);
    if g == |r[k].st.limits| - 1 {
      j := k;
    } else {
      assert k > 0;
      RunFollows(r, steps, k - 1);
      KeptPair(r[k - 1].st, steps[k - 1], g);
      j := EarlierLimits(r, steps, k - 1, g);
    }
  }

  lemma KeptPair(s: QState, step: Step, g: nat)
    requires WellFormed(s) && Enabled(s, step) && g < |NextState(s, step).limits| - 1
    ensures g < |s.limits|
    ensures s.limits[g].capacity == NextState(s, step).limits[g].capacity && s.limits[g].burst == NextState(s, step).limits[g].burst
  {
    if step.UpdateStep? {
      LimitsRebuilt(s, step.update, step.fields);
    } else {
      LimitsStay(s, step);
    }
  }

  /**
   A task that passes the pause gate waits for the limiter and the semaphore of the moment, those of
   the queue's current rate limits, and not for an older pair.
   */
  lemma GateCapturesCurrent(r: seq<System>, steps: seq<Step>, k: nat, i: nat)
    requires Run(r, steps) && k < |steps| && StepAt(r, steps, k) && steps[k] == FireStep(i)
    requires r[k].st.q.state == Running && r[k].st.conts[i].task < |r[k].st.arena|
    requires !r[k].st.arena[r[k].st.conts[i].task].removed
    ensures
      var s, s' := r[k].st, r[k + 1].st;
      && |s'.limits| >= 1 && BuiltFor(s'.limits[|s'.limits| - 1], s.q.rateLimits)
      && i in s'.conts && s'.conts[i] == Cont(s.conts[i].task, AtLimiter(|s'.limits| - 1))
  {
    RunFollows(r, steps, k);
    CurrentLimits(r, steps, k);
  }

  lemma SettleKeepsGeneration(l: Life, e: Env, i: nat, t: TaskState, o: Dispatch.Outcome, v: Verdict, j: nat)
    requires i in l.mine && l.mine[i].InFlight? && j in l.mine && e.nextId !in l.mine && CapturedGen(l.mine[j]).Some?
    ensures
      var after := SettleLife(l, e, i, t, o, v).mine;
      j in after ==> CapturedGen(after[j]) == CapturedGen(l.mine[j])
  {
  }

  lemma ActKeepsGeneration(l: Life, e: Env, a: Action, j: nat)
    requires Allowed(l, e, a) && j in l.mine && e.nextId !in l.mine && CapturedGen(l.mine[j]).Some?
    ensures j in Act(l, e, a).mine ==> CapturedGen(Act(l, e, a).mine[j]) == CapturedGen(l.mine[j])
  {
    if a.Settle? && !l.t.removed {
      var t := Record(l.t, a.o, a.dispatchTime);
      SettleKeepsGeneration(l, e, a.i, t, a.o, Judge(e.q.retryConfig, e.now, t, a.o), j);
    }
  }

  /** Whatever pair a continuation has captured, it waits for, takes from and gives back to that pair and no other. */
  lemma GenerationKept(r: seq<System>, steps: seq<Step>, k: nat, i: nat)
    requires Run(r, steps) && k < |steps| && i in r[k].st.conts && CapturedGen(r[k].st.conts[i].phase).Some?
    requires r[k].st.conts[i].task < |r[k].st.arena|
    ensures i in r[k + 1].st.conts && r[k + 1].st.conts[i].task == r[k].st.conts[i].task ==>
              CapturedGen(r[k + 1].st.conts[i].phase) == CapturedGen(r[k].st.conts[i].phase)
  {
    RunFollows(r, steps, k);
    var h := r[k].st.conts[i].task;
    StepProjects(r[k], steps[k], h);
    FreshForLife(r[k], h);
    assert i in LifeOf(r[k], h).mine;
    ActKeepsGeneration(LifeOf(r[k], h), EnvOf(r[k].st), ActionOf(r[k].st, steps[k], h), i);
    if i in r[k + 1].st.conts && r[k + 1].st.conts[i].task == h {
      assert i in LifeOf(r[k + 1], h).mine;
    }
  }

  /** The configured concurrency is c in every state. */
  ghost predicate AlwaysConcurrent(r: seq<System>, c: int) {
    forall k | 0 <= k < |r| :: r[k].st.q.rateLimits.maxConcurrentDispatches == c
  }

  /** In a run whose configured concurrency stays c, no semaphore ever has more than c holders. */
  lemma HoldersWithinConfigured(r: seq<System>, steps: seq<Step>, k: nat, g: nat, c: int)
    requires Run(r, steps) && k < |r| && g < |r[k].st.limits| && c >= 1 && AlwaysConcurrent(r, c)
    ensures |Holders(r[k].st.conts, g)| <= c
  {
    var j := EarlierLimits(r, steps, k, g);
    TokensConserved(r, steps, k, g);
  }

  lemma {:induction false} OnlyOnePair(r: seq<System>, steps: seq<Step>, k: nat)
    requires Run(r, steps) && k < |r| && forall j | 0 <= j < |steps| :: !steps[j].UpdateStep?
    ensures |r[k].st.limits| == 1
    ensures r[k].st.q.rateLimits == r[0].st.q.rateLimits
  {
    if k > 0 {
      OnlyOnePair(r, steps, k - 1);
      RunFollows(r, steps, k - 1);
      LimitsStay(r[k - 1].st, steps[k - 1]);
    }
  }

  /** Without UpdateQueue, the timer-driven deliveries under way never exceed the configured concurrency. */
  lemma ConfiguredConcurrency(r: seq<System>, steps: seq<Step>, k: nat, c: int)
    requires Run(r, steps) && k < |r| && forall j | 0 <= j < |steps| :: !steps[j].UpdateStep?
    requires c >= 1 && r[0].st.q.rateLimits.maxConcurrentDispatches == c
    ensures |TimerDriven(r[k].st.conts, |r[k].st.limits|)| <= c
  {
    ConcurrencyBounded(r, steps, k);
    OnlyOnePair(r, steps, k);
    CurrentLimits(r, steps, k);
    TokensConserved(r, steps, k, 0);
    var limits := r[k].st.limits;
    assert HeldCapacity(limits, 0) == 0;
    assert HeldCapacity(limits, 1) <= limits[0].capacity;
  }
}
