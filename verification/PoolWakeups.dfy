/** No lost wake-ups: whenever a task waits, every free slot is already promised to a
    notified task. The promise is broken by exactly two kinds of step, and in every
    run the number of unpromised free slots is at most the number of such steps. */
module PoolWakeups {
  import opened Collections
  import opened PoolModel
  import opened PoolSafety

  /** Slots a task could use right now: unreserved room plus idle connections. */
  ghost function Free(s: System): int
    requires s.pool.max.Some?
  {
    s.pool.max.value - |s.pool.all| - s.pool.creating + |s.pool.idle|
  }

  ghost predicate SomePending(s: System) {
    exists t :: Pending(s, t)
  }

  /** All but `k` of the free slots are promised while somebody waits. */
  ghost predicate Promised(s: System, k: nat) {
    s.pool.max.Some? && SomePending(s) ==> Free(s) <= |s.notified| + k
  }

  /** The steps that free a slot, or forget a promise, without waking anyone: a
      connect that fails or is cancelled, and a cancelled task that had been notified. */
  predicate Silent(step: Step) {
    step.Abort? || step.DropNotified?
  }

  function SilentCount(steps: seq<Step>): nat {
    if steps == [] then 0 else (if Silent(steps[0]) then 1 else 0) + SilentCount(steps[1..])
  }

  /** A seeking task takes a free slot, or finds none. */
  lemma SeekTakesSlot(s: System, t: Task, usable: set<Conn>)
    requires Inv(s) && Unknown(s, t) && s.pool.max.Some?
    ensures Seek(s, t, usable).pool.max == s.pool.max && Seek(s, t, usable).notified == s.notified
    ensures Seek(s, t, usable).pool.waiters == s.pool.waiters ==> Free(Seek(s, t, usable)) == Free(s) - 1
    ensures Seek(s, t, usable).pool.waiters != s.pool.waiters ==> Free(Seek(s, t, usable)) <= 0
  {
    SearchSizes(s.pool, usable);
  }

  /** A seeking task that does not queue leaves the queue as it is. */
  lemma SeekKeepsPending(s: System, t: Task, usable: set<Conn>)
    ensures Seek(s, t, usable).pool.waiters == s.pool.waiters ==> (SomePending(Seek(s, t, usable)) ==> SomePending(s))
  {
    var s' := Seek(s, t, usable);
    if s'.pool.waiters == s.pool.waiters && SomePending(s') {
      var u :| Pending(s', u);
      assert Pending(s, u);
    }
  }

  lemma SeekKeepsPromise(s: System, t: Task, usable: set<Conn>, k: nat)
    requires Inv(s) && Unknown(s, t) && s.pool.max.Some?
    requires SomePending(s) ==> Free(s) <= |s.notified| + 1 + k
    ensures Seek(s, t, usable).pool.max == s.pool.max && Promised(Seek(s, t, usable), k)
  {
    SeekTakesSlot(s, t, usable);
    SeekKeepsPending(s, t, usable);
  }

  lemma ReleaseKeepsPromise(s: System, c: Conn, healthy: bool, k: nat)
    requires InvBut(s, c) && (healthy && c in s.pool.inUse ==> c in s.pool.all)
    requires s.pool.max.Some? && Promised(s, k)
    ensures Promised(ReleaseOnce(s, c, healthy), k)
  {
    var s' := ReleaseOnce(s, c, healthy);
    if c in s.pool.inUse && SomePending(s') {
      var r := Returned(s, c, healthy);
      ReturnedKeeps(s, c, healthy);
      NotifyKeeps(r);
      var t :| Pending(s', t);
      assert t in Elements(r.pool.waiters);
      assert Pending(s, t);
      assert |s'.notified| == |s.notified| + 1;
    }
  }

  lemma FinishKeepsPromise(s: System, t: Task, healthy: bool, twice: bool, k: nat)
    requires Inv(s) && Enabled(s, Finish(t, healthy, twice))
    requires s.pool.max.Some? && Promised(s, k)
    ensures Promised(Next(s, Finish(t, healthy, twice)), k)
  {
    var c := s.holding[t];
    var s1 := s.(holding := s.holding - {t});
    ValuesOfRemoval(s.holding, t);
    assert InvBut(s1, c);
    assert forall u :: Pending(s1, u) ==> Pending(s, u);
    assert Promised(s1, k);
    ReleaseKeepsInv(s1, c, healthy);
    ReleaseKeepsPromise(s1, c, healthy, k);
    if twice { ReleaseKeepsPromise(ReleaseOnce(s1, c, healthy), c, healthy, k); }
  }

  /** The steps that move no slot at all. */
  lemma QuietKeepsPromise(s: System, step: Step, k: nat)
    requires Inv(s) && Enabled(s, step) && s.pool.max.Some? && Promised(s, k)
    requires step.Connected? || step.Cancel? || step.Unwind? || step.Shutdown?
    ensures Promised(Next(s, step), k)
  {
    var s' := Next(s, step);
    if step.Unwind? { WithoutElements(s.pool.waiters, step.task); }
    forall u | Pending(s', u) ensures Pending(s, u) {
      if step.Unwind? { assert u in Elements(s'.pool.waiters); }
    }
  }

  lemma GrantKeepsPromise(s: System, t: Task, usable: set<Conn>, k: nat)
    requires Inv(s) && Enabled(s, Grant(t, usable)) && s.pool.max.Some? && Promised(s, k)
    ensures Promised(Next(s, Grant(t, usable)), k)
  {
    var s' := Next(s, Grant(t, usable));
    SearchSizes(s.pool, usable);
    forall u | Pending(s', u) ensures Pending(s, u) {}
  }

  lemma LoudKeepsPromise(s: System, step: Step, k: nat)
    requires Inv(s) && Enabled(s, step) && s.pool.max.Some? && Promised(s, k) && !Silent(step)
    ensures Next(s, step).pool.max == s.pool.max
    ensures Promised(Next(s, step), k)
  {
    match step
    case Start(t, usable) => SeekKeepsPromise(s, t, usable, k);
    case Resume(t, usable) =>
      var s1 := s.(notified := s.notified - {t});
      assert forall u :: Pending(s1, u) ==> Pending(s, u);
      SeekKeepsPromise(s1, t, usable, k);
    case Grant(t, usable) => GrantKeepsPromise(s, t, usable, k);
    case Finish(t, healthy, twice) => FinishKeepsPromise(s, t, healthy, twice, k);
    case _ => QuietKeepsPromise(s, step, k);
  }

  /** Exactly when a step breaks the promise: it is a silent one, somebody waits, and
      no free slot is unpromised beyond the `k` already allowed for. */
  lemma StepBreaksPromiseExactlyWhen(s: System, step: Step, k: nat)
    requires Inv(s) && Enabled(s, step) && s.pool.max.Some? && Promised(s, k)
    ensures Next(s, step).pool.max == s.pool.max
    ensures Promised(Next(s, step), k)
            <==> !(Silent(step) && SomePending(s) && Free(s) == |s.notified| + k)
  {
    if Silent(step) {
      var s' := Next(s, step);
      assert forall u :: Pending(s', u) <==> Pending(s, u);
      assert SomePending(s') <==> SomePending(s);
      assert Free(s') - |s'.notified| == Free(s) - |s.notified| + 1;
    } else {
      LoudKeepsPromise(s, step, k);
    }
  }

  lemma {:induction false} RunsKeepPromise(s: System, steps: seq<Step>, k: nat)
    requires Inv(s) && Runs(s, steps) && s.pool.max.Some? && Promised(s, k)
    ensures After(s, steps).pool.max == s.pool.max
    ensures Promised(After(s, steps), k + SilentCount(steps))
    decreases |steps|
  {
    if steps != [] {
      var step := steps[0];
      StepKeepsInv(s, step);
      var k' := if Silent(step) then k + 1 else k;
      StepBreaksPromiseExactlyWhen(s, step, k');
      RunsKeepPromise(Next(s, step), steps[1..], k');
    }
  }

  /** In every run a queued waiter implies that the free slots exceed the promised ones
      by no more than the silent steps taken. */
  lemma UnpromisedSlotsAreBounded(max: nat, limit: nat, steps: seq<Step>)
    requires Runs(Fresh(Some(max), limit), steps)
    ensures var s := After(Fresh(Some(max), limit), steps);
      && s.pool.max == Some(max)
      && (SomePending(s) ==> Free(s) <= |s.notified| + SilentCount(steps))
  {
    RunsKeepPromise(Fresh(Some(max), limit), steps, 0);
  }

  /** Quiescence: with no silent step and nobody left to resume, a waiter implies that
      every slot is taken, by a request in flight or by a handshake under way. */
  lemma WaitingMeansFull(max: nat, limit: nat, steps: seq<Step>)
    requires Runs(Fresh(Some(max), limit), steps) && SilentCount(steps) == 0
    requires var s := After(Fresh(Some(max), limit), steps); SomePending(s) && s.notified == {}
    ensures var s := After(Fresh(Some(max), limit), steps);
      && s.pool.idle == []
      && s.pool.all <= s.holding.Values
      && |s.pool.all| + |s.queued| + |s.connecting| == max
  {
    UnpromisedSlotsAreBounded(max, limit, steps);
    PoolIsSafe(Some(max), limit, steps);
  }
}
