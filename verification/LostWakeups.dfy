/** Runs in which a wake-up is lost, one for each kind of step that can lose it, and a
    run in which one connection wakes two tasks. */
module LostWakeups {
  import opened Collections
  import opened PoolModel
  import opened PoolWakeups

  /** Extending a run by one more step. */
  lemma {:induction false} RunOneMore(s: System, steps: seq<Step>, step: Step)
    requires Runs(s, steps) && Enabled(After(s, steps), step)
    ensures Runs(s, steps + [step]) && After(s, steps + [step]) == Next(After(s, steps), step)
    decreases |steps|
  {
    if steps == [] {
      assert [step][1..] == [];
      assert steps + [step] == [step];
    } else {
      RunOneMore(Next(s, steps[0]), steps[1..], step);
      assert (steps + [step])[1..] == steps[1..] + [step];
    }
  }

  lemma StepTo(s0: System, steps: seq<Step>, step: Step, s: System, s': System)
    requires Runs(s0, steps) && After(s0, steps) == s && Enabled(s, step) && Next(s, step) == s'
    ensures Runs(s0, steps + [step]) && After(s0, steps + [step]) == s'
  {
    RunOneMore(s0, steps, step);
  }

  /** A connect that fails strands the task waiting behind it: one free slot, one
      pending waiter, and no other task left to wake it. */
  lemma FailedConnectStrandsWaiter()
    ensures var steps := [Start(1, {})] + [Grant(1, {})] + [Start(2, {})] + [Abort(1)];
      && Runs(Fresh(Some(1), 1), steps)
      && var s := After(Fresh(Some(1), 1), steps);
         s.pool.max == Some(1) && Pending(s, 2) && Free(s) == 1 && forall t :: t != 2 ==> Unknown(s, t)
  {
    var s0 := Fresh(Some(1), 1);
    var s1 := s0.(pool := s0.pool.(creating := 1), queued := {1});
    assert Next(s0, Start(1, {})) == s1;
    var s2 := s1.(queued := {}, connecting := {1}, permits := 0);
    assert Next(s1, Grant(1, {})) == s2;
    var s3 := s2.(pool := s2.pool.(waiters := [2]));
    assert Next(s2, Start(2, {})) == s3;
    var s4 := s0.(pool := s0.pool.(waiters := [2]));
    assert Next(s3, Abort(1)) == s4;
    var asked := [] + [Start(1, {})];
    assert asked == [Start(1, {})];
    StepTo(s0, [], Start(1, {}), s0, s1);
    StepTo(s0, asked, Grant(1, {}), s1, s2);
    StepTo(s0, asked + [Grant(1, {})], Start(2, {}), s2, s3);
    StepTo(s0, asked + [Grant(1, {})] + [Start(2, {})], Abort(1), s3, s4);
  }

  /** One request in flight, with two tasks waiting behind it. */
  function Served(): seq<Step> {
    var asked: seq<Step> := [Start(1, {})];
    asked + [Grant(1, {})] + [Connected(1, 0)]
  }

  function TwoWaiting(): seq<Step> {
    Served() + [Start(2, {})] + [Start(3, {})]
  }

  lemma ServedRuns()
    ensures Runs(Fresh(Some(1), 1), Served())
    ensures After(Fresh(Some(1), 1), Served())
            == System(Pool(Some(1), [], {0}, 0, [], {}, {0}, {}), 1, 1, {}, {}, {}, map[1 := 0], {0})
  {
    var s0 := Fresh(Some(1), 1);
    var s1 := s0.(pool := s0.pool.(creating := 1), queued := {1});
    assert Next(s0, Start(1, {})) == s1;
    var s2 := s1.(queued := {}, connecting := {1}, permits := 0);
    assert Next(s1, Grant(1, {})) == s2;
    RunOneMore(s0, [], Start(1, {}));
    assert [] + [Start(1, {})] == [Start(1, {})];
    RunOneMore(s0, [Start(1, {})], Grant(1, {}));
    RunOneMore(s0, [Start(1, {})] + [Grant(1, {})], Connected(1, 0));
    assert Next(s2, Connected(1, 0))
        == s0.(pool := s0.pool.(all := {0}, inUse := {0}), holding := map[1 := 0], born := {0});
  }

  function BothWaiting(): System {
    System(Pool(Some(1), [], {0}, 0, [2, 3], {}, {0}, {}), 1, 1, {}, {}, {}, map[1 := 0], {0})
  }

  lemma TwoWaitingRuns()
    ensures Runs(Fresh(Some(1), 1), TwoWaiting())
    ensures After(Fresh(Some(1), 1), TwoWaiting()) == BothWaiting()
  {
    var s0 := Fresh(Some(1), 1);
    ServedRuns();
    var s3 := System(Pool(Some(1), [], {0}, 0, [], {}, {0}, {}), 1, 1, {}, {}, {}, map[1 := 0], {0});
    var s4 := s3.(pool := s3.pool.(waiters := [2]));
    StepTo(s0, Served(), Start(2, {}), s3, s4);
    StepTo(s0, Served() + [Start(2, {})], Start(3, {}), s4, s4.(pool := s4.pool.(waiters := [2, 3])));
  }

  /** The request is done, its connection idle, and the first waiter woken for it. */
  function WaiterNotified(): System {
    System(Pool(Some(1), [0], {0}, 0, [3], {}, {}, {}), 1, 1, {}, {}, {2}, map[], {0})
  }

  lemma FinishNotifies()
    ensures Enabled(BothWaiting(), Finish(1, true, true))
    ensures Next(BothWaiting(), Finish(1, true, true)) == WaiterNotified()
  {
    assert BothWaiting().holding - {1} == map[];
  }

  /** Cancelling a notified waiter strands the next one: the idle connection it was
      woken for stays unclaimed, and no task is left to wake the one still queued. */
  lemma DroppedNotificationStrandsWaiter()
    ensures var steps := TwoWaiting() + [Finish(1, true, true)] + [DropNotified(2)];
      && Runs(Fresh(Some(1), 1), steps)
      && var s := After(Fresh(Some(1), 1), steps);
         s.pool.max == Some(1) && Pending(s, 3) && Free(s) == 1 && s.pool.idle == [0]
         && forall t :: t != 3 ==> Unknown(s, t)
  {
    TwoWaitingRuns();
    var s0 := Fresh(Some(1), 1);
    var s6 := WaiterNotified();
    FinishNotifies();
    StepTo(s0, TwoWaiting(), Finish(1, true, true), BothWaiting(), s6);
    StepTo(s0, TwoWaiting() + [Finish(1, true, true)], DropNotified(2), s6, s6.(notified := {}));
  }

  lemma FinishNotifiesBoth()
    ensures Enabled(BothWaiting(), Finish(1, false, true))
    ensures var s := BothWaiting();
      Next(s, Finish(1, false, true))
      == s.(pool := s.pool.(all := {}, closed := {0}, waiters := []), notified := {2, 3}, holding := map[])
  {
    var s := BothWaiting().(holding := map[]);
    assert BothWaiting().holding - {1} == map[];
    var once := ReleaseOnce(s, 0, false);
    assert once == s.(pool := s.pool.(all := {}, closed := {0}, waiters := [3]), notified := {2});
  }

  /** A dead connection released twice in one stretch wakes both waiters for the one
      slot it frees. */
  lemma SecondReleaseWakesSecondWaiter()
    ensures var steps := TwoWaiting() + [Finish(1, false, true)];
      && Runs(Fresh(Some(1), 1), steps)
      && var s := After(Fresh(Some(1), 1), steps);
         s.pool.max == Some(1) && s.notified == {2, 3} && Free(s) == 1 && !SomePending(s)
  {
    TwoWaitingRuns();
    var s0 := Fresh(Some(1), 1);
    var s5 := BothWaiting();
    var s6 := s5.(pool := s5.pool.(all := {}, closed := {0}, waiters := []), notified := {2, 3}, holding := map[]);
    FinishNotifiesBoth();
    StepTo(s0, TwoWaiting(), Finish(1, false, true), s5, s6);
    assert forall t :: !Pending(s6, t);
  }
}
