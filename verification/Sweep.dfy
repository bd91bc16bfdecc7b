/** Detaching and reserving the tasks of a queue one after the other, in any order (core/queue.go). */
module Sweep {
  import opened Wrappers
  import opened Types
  import opened Lifecycle

  /** Marks one task removed and stops its timers. */
  function Detach(s: QState, h: nat): QState
    requires h < |s.arena|
  {
    s.(arena := s.arena[h := s.arena[h].(removed := true)],
       conts := s.conts - StoppableTimer(s, h),
       ttls := s.ttls - StoppableTtl(s, h))
  }

  function HandlesOf(s: QState, names: set<string>): set<nat> {
    set n | n in names && n in s.tasks :: s.tasks[n]
  }

  function TimersOf(s: QState, names: set<string>): set<nat>
    requires WellFormed(s)
  {
    set n, i | n in names && n in s.tasks && i in StoppableTimer(s, s.tasks[n]) :: i
  }

  function TtlsOf(s: QState, names: set<string>): set<nat> {
    set n | n in names && n in s.tasks && StoppableTtl(s, s.tasks[n]) != {} :: s.tasks[n]
  }

  /** The state in which the tasks of these names are detached, still in the map. */
  function DetachNames(s: QState, names: set<string>): (r: QState)
    requires WellFormed(s)
    ensures r == s.(arena := r.arena, conts := r.conts, ttls := r.ttls) && |r.arena| == |s.arena|
  {
    s.(arena := seq(|s.arena|, h requires 0 <= h < |s.arena| =>
                  if h in HandlesOf(s, names) then s.arena[h].(removed := true) else s.arena[h]),
       conts := s.conts - TimersOf(s, names),
       ttls := s.ttls - TtlsOf(s, names))
  }

  lemma DetachNone(s: QState)
    requires WellFormed(s)
    ensures DetachNames(s, {}) == s
  {
    assert DetachNames(s, {}).arena == s.arena;
    assert s.conts - TimersOf(s, {}) == s.conts;
    assert s.ttls - TtlsOf(s, {}) == s.ttls;
  }

  lemma DetachArena(s: QState, done: set<string>, n: string)
    requires WellFormed(s) && n in s.tasks
    ensures
      var d := DetachNames(s, done);
      DetachNames(s, done + {n}).arena == d.arena[s.tasks[n] := d.arena[s.tasks[n]].(removed := true)]
  {
    assert HandlesOf(s, done + {n}) == HandlesOf(s, done) + {s.tasks[n]};
  }

  lemma DetachTimers(s: QState, done: set<string>, n: string)
    requires WellFormed(s) && n in s.tasks
    ensures s.conts - TimersOf(s, done + {n}) == (s.conts - TimersOf(s, done)) - StoppableTimer(DetachNames(s, done), s.tasks[n])
  {
    assert TimersOf(s, done + {n}) == TimersOf(s, done) + StoppableTimer(s, s.tasks[n]);
    assert DetachNames(s, done).arena[s.tasks[n]].timer == s.arena[s.tasks[n]].timer;
  }

  lemma DetachTtls(s: QState, done: set<string>, n: string)
    requires WellFormed(s) && n in s.tasks
    ensures s.ttls - TtlsOf(s, done + {n}) == (s.ttls - TtlsOf(s, done)) - StoppableTtl(DetachNames(s, done), s.tasks[n])
  {
    assert TtlsOf(s, done + {n}) == TtlsOf(s, done) + StoppableTtl(s, s.tasks[n]);
  }

  /** Detaching one more task after the others. */
  lemma DetachOneMore(s: QState, done: set<string>, n: string)
    requires WellFormed(s) && n in s.tasks
    ensures Detach(DetachNames(s, done), s.tasks[n]) == DetachNames(s, done + {n})
  {
    DetachArena(s, done, n);
    DetachTimers(s, done, n);
    DetachTtls(s, done, n);
  }

  /** Once every name has had its turn, in whatever order, the queue is as DetachAll says. */
  lemma DetachEvery(s: QState)
    requires WellFormed(s)
    ensures DetachNames(s, s.tasks.Keys).(tasks := map[]) == DetachAll(s)
  {
    assert HandlesOf(s, s.tasks.Keys) == LiveHandles(s);
    assert TimersOf(s, s.tasks.Keys) == StoppableTimers(s);
    assert TtlsOf(s, s.tasks.Keys) == StoppableTtls(s);
    assert DetachNames(s, s.tasks.Keys).arena == DetachAll(s).arena;
  }

  // ---- reservations ----

  function ReservedNames(s: QState, names: set<string>): map<string, int> {
    var ttl := EffectiveTombstoneTTL(s.q, s.eng);
    if ttl < 0 then s.tombstones
    else (map n | n in s.tombstones.Keys + names :: if n in names then s.now + ttl else s.tombstones[n])
  }

  function CleanupsAfter(s: QState, names: set<string>): multiset<Cleanup> {
    var ttl := EffectiveTombstoneTTL(s.q, s.eng);
    s.cleanups + (if ttl < 0 then multiset{} else CleanupsFor(names, s.now + ttl))
  }

  /** The state of a purge that has dealt with these names. */
  function Purging(s: QState, names: set<string>): (r: QState)
    requires WellFormed(s)
    ensures r == s.(arena := r.arena, conts := r.conts, ttls := r.ttls, tombstones := r.tombstones, cleanups := r.cleanups)
    ensures |r.arena| == |s.arena|
  {
    DetachNames(s, names).(tombstones := ReservedNames(s, names), cleanups := CleanupsAfter(s, names))
  }

  lemma ReserveNone(s: QState)
    ensures ReservedNames(s, {}) == s.tombstones && CleanupsAfter(s, {}) == s.cleanups
  {
    var names: set<string> := {};
    assert (set n | n in names :: Cleanup(n, s.now + EffectiveTombstoneTTL(s.q, s.eng))) == {};
  }

  lemma PurgeNone(s: QState)
    requires WellFormed(s)
    ensures Purging(s, {}) == s
  {
    DetachNone(s);
    ReserveNone(s);
  }

  lemma CleanupOneMore(names: set<string>, n: string, due: int)
    requires n !in names
    ensures CleanupsFor(names + {n}, due) == CleanupsFor(names, due) + multiset{Cleanup(n, due)}
  {
    var was := set m | m in names :: Cleanup(m, due);
    assert (set m | m in names + {n} :: Cleanup(m, due)) == was + {Cleanup(n, due)};
    assert Cleanup(n, due) !in was;
  }

  lemma ReserveOneMore(s: QState, done: set<string>, n: string)
    requires WellFormed(s) && n !in done
    ensures
      var d := DetachNames(s, done + {n}).(tombstones := ReservedNames(s, done), cleanups := CleanupsAfter(s, done));
      TombstoneLocked(d, n) == Purging(s, done + {n})
  {
    var due := s.now + EffectiveTombstoneTTL(s.q, s.eng);
    CleanupOneMore(done, n, due);
    if EffectiveTombstoneTTL(s.q, s.eng) >= 0 {
      assert ReservedNames(s, done + {n}) == ReservedNames(s, done)[n := due];
    }
  }

  /** Purging one more task after the others. */
  lemma PurgeOneMore(s: QState, done: set<string>, n: string)
    requires WellFormed(s) && n in s.tasks && n !in done
    ensures TombstoneLocked(Detach(Purging(s, done), s.tasks[n]), n) == Purging(s, done + {n})
  {
    DetachOneMore(s, done, n);
    ReserveOneMore(s, done, n);
    var d := DetachNames(s, done);
    assert Detach(Purging(s, done), s.tasks[n]) ==
           Detach(d, s.tasks[n]).(tombstones := ReservedNames(s, done), cleanups := CleanupsAfter(s, done));
  }

  /** Once every name has had its turn, what is left of purge is to empty the map and stamp the queue. */
  lemma PurgeEvery(s: QState)
    requires WellFormed(s)
    ensures
      var d := Purging(s, s.tasks.Keys).(tasks := map[]);
      Purge(s) == d.(tombstones := if s.eng.hardResetOnPurge then map[] else d.tombstones,
                     q := s.q.(purgeTime := Some(s.now)))
  {
    DetachEvery(s);
    assert EffectiveTombstoneTTL(s.q, s.eng) >= 0 ==> ReservedNames(s, s.tasks.Keys) == ReserveAll(s);
  }
}
