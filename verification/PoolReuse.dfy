/** Which connection a request gets: the idle stack is in the order in which its connections
    were last released, and the one released last is taken first. No connection is ever
    forgotten without being closed. */
module PoolReuse {
  import opened Collections
  import opened PoolModel
  import opened PoolSafety

  /** A connection given back healthy is the next one found, with the stack below it as it
      was and nothing discarded. */
  lemma ReleasedIsFoundFirst(p: Pool, c: Conn, usable: set<Conn>)
    requires c in p.inUse && c in usable
    ensures Search(Release(p, c, true).1.idle, usable) == Found(Some(c), p.idle, {})
  {
    var idle := Release(p, c, true).1.idle;
    assert idle[|idle| - 1] == c && idle[..|idle| - 1] == p.idle;
  }

  predicate GivesBack(s: System, step: Step, c: Conn) {
    step.Finish? && step.healthy && step.task in s.holding && s.holding[step.task] == c
  }

  lemma SeekStacks(s: System, t: Task, usable: set<Conn>)
    ensures Seek(s, t, usable).pool.idle <= s.pool.idle
  {
    SearchOrder(s.pool.idle, usable);
  }

  lemma ReleaseStacks(p: Pool, c: Conn, healthy: bool)
    ensures var q := Release(p, c, healthy).1;
      && q.idle == (if c in p.inUse && healthy then p.idle + [c] else p.idle)
      && q.inUse == (if healthy then p.inUse - {c} else p.inUse)
      && q.all == (if c in p.inUse && !healthy then p.all - {c} else p.all)
      && q.closed == (if c in p.inUse && !healthy then p.closed + {c} else p.closed)
  {
  }

  function Finished(p: Pool, c: Conn, healthy: bool, twice: bool): Pool {
    var once := Release(p, c, healthy).1;
    if twice then Release(once, c, healthy).1 else once
  }

  lemma FinishedPool(p: Pool, c: Conn, healthy: bool, twice: bool)
    requires c in p.inUse
    ensures var q := Finished(p, c, healthy, twice);
      && q.idle == (if healthy then p.idle + [c] else p.idle)
      && q.all + q.closed == p.all + p.closed + if healthy then {} else {c}
  {
    ReleaseStacks(p, c, healthy);
    ReleaseStacks(Release(p, c, healthy).1, c, healthy);
  }

  lemma FinishStacks(s: System, t: Task, healthy: bool, twice: bool)
    requires Inv(s) && Enabled(s, Finish(t, healthy, twice))
    ensures var p := Next(s, Finish(t, healthy, twice)).pool;
      && p.idle == (if healthy then s.pool.idle + [s.holding[t]] else s.pool.idle)
      && p.all + p.closed == s.pool.all + s.pool.closed + if healthy then {} else {s.holding[t]}
  {
    assert s.holding[t] in s.holding.Values;
    FinishedPool(s.pool, s.holding[t], healthy, twice);
    assert Next(s, Finish(t, healthy, twice)).pool == Finished(s.pool, s.holding[t], healthy, twice);
  }

  /** A step takes connections off the top of the stack, or puts back on top the one that a
      request has finished with. */
  lemma StepStacks(s: System, step: Step)
    requires Inv(s) && Enabled(s, step)
    ensures var idle := Next(s, step).pool.idle;
      if step.Finish? && step.healthy then idle == s.pool.idle + [s.holding[step.task]] else idle <= s.pool.idle
  {
    match step
    case Start(t, usable) => SeekStacks(s, t, usable);
    case Grant(_, usable) => SearchOrder(s.pool.idle, usable);
    case Resume(t, usable) => SeekStacks(s.(notified := s.notified - {t}), t, usable);
    case Finish(t, healthy, twice) => FinishStacks(s, t, healthy, twice);
    case Shutdown => assert [] <= s.pool.idle;
    case _ =>
  }

  lemma SplitRun(steps: seq<Step>)
    requires steps != []
    ensures var n := |steps| - 1;
      if n == 0 then steps[..n] == [] && steps[1..] == []
      else steps[..n] != [] && steps[..n][0] == steps[0] && steps[..n][1..] == steps[1..][..n - 1]
           && steps[1..][n - 1] == steps[n] && |steps[1..]| == n
  {
  }

  lemma FrontRuns(s: System, next: System, steps: seq<Step>)
    requires steps != [] && Enabled(s, steps[0]) && Next(s, steps[0]) == next && Runs(next, steps[1..])
    ensures Runs(s, steps) && After(s, steps) == After(next, steps[1..])
  {
  }

  /** Past the limiter a connection released meanwhile is taken and the reservation given
      back; only without one is a permit used. */
  lemma GrantPrefersIdle(s: System, t: Task, usable: set<Conn>)
    requires Enabled(s, Grant(t, usable))
    ensures var s' := Next(s, Grant(t, usable));
      if exists c :: c in s.pool.idle && c in usable then
        && t in s'.holding && s'.holding[t] in usable && s'.pool.idle + [s'.holding[t]] <= s.pool.idle
        && s'.pool.creating == s.pool.creating - 1 && s'.permits == s.permits && t !in s'.queued
      else
        && t in s'.connecting && s'.permits == s.permits - 1
        && s'.pool.creating == s.pool.creating && s'.pool.idle == []
  {
    SearchOrder(s.pool.idle, usable);
    if c :| c in s.pool.idle && c in usable {
      var k :| 0 <= k < |s.pool.idle| && s.pool.idle[k] == c;
      NoneAboveUsable(s.pool.idle, usable, k);
    }
  }

  /** A handshake that succeeds hands its new connection to the task that asked for it. */
  lemma ConnectedIsHeld(s: System, t: Task, c: Conn)
    requires Enabled(s, Connected(t, c))
    ensures var s' := Next(s, Connected(t, c));
      && s'.holding == s.holding[t := c] && c in s'.pool.all && c in s'.pool.inUse && s'.pool.idle == s.pool.idle
      && s'.permits == s.permits + 1 && t !in s'.connecting
  {
  }

  // ---- the queue of waiters ----

  /** Who waits goes on waiting until it is notified, cancelled or the pool is shut down. */
  lemma NoWaiterForgotten(s: System, step: Step, u: Task)
    requires Inv(s) && Enabled(s, step) && Pending(s, u)
    ensures var s' := Next(s, step);
      Pending(s', u) || u in s'.notified || step == Cancel(u) || step.Shutdown?
  {
    match step
    case Start(_, _) => SearchingQueues(s, step);
    case Resume(_, _) => SearchingQueues(s, step);
    case Finish(t, healthy, twice) => FinishKeepsWaiter(s, t, healthy, twice, u);
    case Unwind(t) => WithoutKeeps(s.pool.waiters, t, u);
    case _ => OthersQueue(s, step);
  }

  /** Asking for a connection adds the task to the end of the queue, or changes nothing there. */
  lemma SearchingQueues(s: System, step: Step)
    requires Enabled(s, step) && (step.Start? || step.Resume?)
    ensures var s' := Next(s, step);
      && (s'.pool.waiters == s.pool.waiters || s'.pool.waiters == s.pool.waiters + [step.task])
      && s'.pool.cancelled == s.pool.cancelled && s'.notified <= s.notified
  {
    match step
    case Start(t, usable) => SeekQueues(s, t, usable);
    case Resume(t, usable) => SeekQueues(s.(notified := s.notified - {t}), t, usable);
  }

  lemma SeekQueues(s: System, t: Task, usable: set<Conn>)
    ensures var s' := Seek(s, t, usable);
      && (s'.pool.waiters == s.pool.waiters || s'.pool.waiters == s.pool.waiters + [t])
      && s'.pool.cancelled == s.pool.cancelled && s'.notified == s.notified
  {
  }

  /** The steps that neither queue anyone nor take anyone out of the queue. */
  lemma OthersQueue(s: System, step: Step)
    requires Enabled(s, step) && !step.Start? && !step.Resume? && !step.Finish? && !step.Unwind?
    ensures var s' := Next(s, step);
      && (step.Shutdown? ==> s'.pool.waiters == [])
      && (!step.Shutdown? ==> s'.pool.waiters == s.pool.waiters) && s'.notified <= s.notified
      && (!step.Cancel? && !step.Shutdown? ==> s'.pool.cancelled == s.pool.cancelled)
      && (step.Cancel? ==> s'.pool.cancelled == s.pool.cancelled + {step.task})
  {
  }

  lemma {:induction false} WithoutKeeps(ws: seq<Task>, t: Task, u: Task)
    requires u in ws && u != t
    ensures u in Without(ws, t)
  {
    assert ws == [ws[0]] + ws[1..];
    if ws[0] != u { WithoutKeeps(ws[1..], t, u); }
  }

  lemma ReleaseKeepsWaiter(s: System, c: Conn, healthy: bool, u: Task)
    requires Pending(s, u)
    ensures var s' := ReleaseOnce(s, c, healthy); Pending(s', u) || u in s'.notified
    ensures s.notified <= ReleaseOnce(s, c, healthy).notified
  {
    WakeSplits(s.pool.waiters, s.pool.cancelled);
  }

  lemma FinishKeepsWaiter(s: System, t: Task, healthy: bool, twice: bool, u: Task)
    requires Enabled(s, Finish(t, healthy, twice)) && Pending(s, u)
    ensures var s' := Next(s, Finish(t, healthy, twice)); Pending(s', u) || u in s'.notified
  {
    var c, gone := s.holding[t], s.(holding := s.holding - {t});
    ReleaseKeepsWaiter(gone, c, healthy, u);
    var once := ReleaseOnce(gone, c, healthy);
    if twice && Pending(once, u) { ReleaseKeepsWaiter(once, c, healthy, u); }
    if twice && u in once.notified { assert once.notified <= ReleaseOnce(once, c, healthy).notified; }
  }

  /** `u` stands before `v` in the queue. */
  ghost predicate Ahead(ws: seq<Task>, u: Task, v: Task) {
    exists i, j :: 0 <= i < j < |ws| && ws[i] == u && ws[j] == v
  }

  lemma AheadOfRest(ws: seq<Task>, u: Task, v: Task)
    requires Distinct(ws) && ws != []
    ensures ws[0] != u ==> (Ahead(ws, u, v) <==> Ahead(ws[1..], u, v))
    ensures Ahead(ws, u, v) ==> ws[0] != v
    ensures ws[0] == u ==> (Ahead(ws, u, v) <==> v in ws[1..])
  {
    var rest := ws[1..];
    if Ahead(ws, u, v) {
      var i, j :| 0 <= i < j < |ws| && ws[i] == u && ws[j] == v;
      assert rest[j - 1] == v;
      if i > 0 { assert rest[i - 1] == u; }
    }
    if i, j :| 0 <= i < j < |rest| && rest[i] == u && rest[j] == v { assert ws[i + 1] == u && ws[j + 1] == v; }
    if j :| 0 <= j < |rest| && rest[j] == v { assert ws[j + 1] == v; }
  }

  lemma RestDistinct(ws: seq<Task>)
    requires Distinct(ws) && ws != []
    ensures Distinct(ws[1..])
  {
  }

  lemma {:induction false} WakeInOrder(ws: seq<Task>, cancelled: set<Task>, u: Task, v: Task)
    requires Distinct(ws) && Ahead(ws, u, v) && u !in cancelled
    ensures var (woken, rest) := Wake(ws, cancelled);
      v !in woken && Distinct(rest) && (u in rest ==> Ahead(rest, u, v))
  {
    AheadOfRest(ws, u, v);
    RestDistinct(ws);
    if ws[0] in cancelled { WakeInOrder(ws[1..], cancelled, u, v); }
  }

  lemma {:induction false} WithoutInOrder(ws: seq<Task>, t: Task, u: Task, v: Task)
    requires Distinct(ws) && Ahead(ws, u, v) && u != t && v != t
    ensures Ahead(Without(ws, t), u, v)
  {
    AheadOfRest(ws, u, v);
    RestDistinct(ws);
    var rest := Without(ws[1..], t);
    if ws[0] == u {
      WithoutKeeps(ws[1..], t, v);
      var j :| 0 <= j < |rest| && rest[j] == v;
      assert ([u] + rest)[0] == u && ([u] + rest)[j + 1] == v;
    } else {
      WithoutInOrder(ws[1..], t, u, v);
      if ws[0] != t { AheadBehind(ws[0], rest, u, v); }
    }
  }

  lemma AheadBehind(w: Task, ws: seq<Task>, u: Task, v: Task)
    requires Ahead(ws, u, v)
    ensures Ahead([w] + ws, u, v)
  {
    var i, j :| 0 <= i < j < |ws| && ws[i] == u && ws[j] == v;
    assert ([w] + ws)[i + 1] == u && ([w] + ws)[j + 1] == v;
  }

  /** What a release leaves of two waiters, the first of whom was not cancelled. */
  lemma ReleaseInOrder(s: System, c: Conn, healthy: bool, u: Task, v: Task)
    requires Distinct(s.pool.waiters) && Pending(s, u) && Ahead(s.pool.waiters, u, v)
    ensures var s' := ReleaseOnce(s, c, healthy);
      && Distinct(s'.pool.waiters) && (v in s'.notified ==> v in s.notified)
      && (Pending(s', u) ==> Ahead(s'.pool.waiters, u, v)) && s'.pool.cancelled == s.pool.cancelled
  {
    WakeInOrder(s.pool.waiters, s.pool.cancelled, u, v);
  }

  lemma ReleaseWakesQueued(s: System, c: Conn, healthy: bool, u: Task)
    requires !Pending(s, u)
    ensures !Pending(ReleaseOnce(s, c, healthy), u)
  {
    WakeFromQueue(s.pool.waiters, s.pool.cancelled, u);
  }

  lemma {:induction false} WakeFromQueue(ws: seq<Task>, cancelled: set<Task>, u: Task)
    ensures u in Wake(ws, cancelled).1 ==> u in ws
  {
    if ws != [] && ws[0] in cancelled { WakeFromQueue(ws[1..], cancelled, u); }
  }

  lemma FinishInOrder(s: System, t: Task, healthy: bool, twice: bool, u: Task, v: Task)
    requires Enabled(s, Finish(t, healthy, twice)) && Distinct(s.pool.waiters)
    requires Pending(s, u) && Ahead(s.pool.waiters, u, v)
    ensures var s' := Next(s, Finish(t, healthy, twice));
      Pending(s', u) ==> Ahead(s'.pool.waiters, u, v) && (v in s'.notified ==> v in s.notified)
  {
    var c, gone := s.holding[t], s.(holding := s.holding - {t});
    ReleaseInOrder(gone, c, healthy, u, v);
    var once := ReleaseOnce(gone, c, healthy);
    if twice {
      if Pending(once, u) { ReleaseInOrder(once, c, healthy, u, v); } else { ReleaseWakesQueued(once, c, healthy, u); }
    }
  }

  /** First come, first served: as long as a waiter goes on waiting nobody behind it is
      notified, and those who wait keep their order. */
  lemma FirstComeFirstServed(s: System, step: Step, u: Task, v: Task)
    requires Inv(s) && Enabled(s, step) && Pending(s, u) && Ahead(s.pool.waiters, u, v)
    requires Pending(Next(s, step), u)
    ensures v in Next(s, step).notified ==> v in s.notified
    ensures v in Next(s, step).pool.waiters ==> Ahead(Next(s, step).pool.waiters, u, v)
  {
    match step
    case Start(t, _) =>
      SearchingQueues(s, step);
      AheadOfMore(s.pool.waiters, t, u, v);
    case Resume(t, _) =>
      SearchingQueues(s, step);
      AheadOfMore(s.pool.waiters, t, u, v);
    case Finish(t, healthy, twice) => FinishInOrder(s, t, healthy, twice, u, v);
    case Unwind(t) => UnwindInOrder(s, t, u, v);
    case _ => OthersQueue(s, step);
  }

  lemma AheadOfMore(ws: seq<Task>, t: Task, u: Task, v: Task)
    requires Ahead(ws, u, v)
    ensures Ahead(ws + [t], u, v)
  {
    var i, j :| 0 <= i < j < |ws| && ws[i] == u && ws[j] == v;
    assert (ws + [t])[i] == u && (ws + [t])[j] == v;
  }

  lemma UnwindInOrder(s: System, t: Task, u: Task, v: Task)
    requires Inv(s) && Enabled(s, Unwind(t)) && Pending(s, u) && Ahead(s.pool.waiters, u, v)
    ensures v in Without(s.pool.waiters, t) ==> Ahead(Without(s.pool.waiters, t), u, v)
  {
    if v == t {
      WithoutRemoves(s.pool.waiters, t);
    } else {
      WithoutInOrder(s.pool.waiters, t, u, v);
    }
  }

  lemma {:induction false} WithoutRemoves(ws: seq<Task>, t: Task)
    requires Distinct(ws)
    ensures t !in Without(ws, t)
  {
    if ws != [] {
      RestDistinct(ws);
      WithoutRemoves(ws[1..], t);
    }
  }

  /** The last step of a run, and the run before it. */
  lemma {:induction false} RunFront(s: System, steps: seq<Step>)
    requires steps != [] && Runs(s, steps)
    ensures var n := |steps| - 1;
      && Runs(s, steps[..n]) && Enabled(After(s, steps[..n]), steps[n])
      && After(s, steps) == Next(After(s, steps[..n]), steps[n])
    decreases |steps|
  {
    SplitRun(steps);
    if |steps| > 1 {
      RunFront(Next(s, steps[0]), steps[1..]);
      FrontRuns(s, Next(s, steps[0]), steps[..|steps| - 1]);
    }
  }

  /** When in a run a connection was last given back, or -1. */
  function LastRelease(s: System, steps: seq<Step>, c: Conn): (at: int)
    requires Runs(s, steps)
    ensures -1 <= at < |steps|
  {
    if steps == [] then -1
    else
      RunFront(s, steps);
      var n := |steps| - 1;
      if GivesBack(After(s, steps[..n]), steps[n], c) then n else LastRelease(s, steps[..n], c)
  }

  /** From bottom to top, the connections of a stack were last given back one after another. */
  ghost predicate ByLastRelease(s: System, steps: seq<Step>, idle: seq<Conn>)
    requires Runs(s, steps)
  {
    && (forall c :: c in idle ==> LastRelease(s, steps, c) >= 0)
    && (forall i, j :: 0 <= i < j < |idle| ==> LastRelease(s, steps, idle[i]) < LastRelease(s, steps, idle[j]))
  }

  lemma StampsOfStep(s: System, steps: seq<Step>, c: Conn)
    requires steps != [] && Runs(s, steps)
    ensures var n := |steps| - 1;
      && Runs(s, steps[..n])
      && LastRelease(s, steps, c)
         == if GivesBack(After(s, steps[..n]), steps[n], c) then n else LastRelease(s, steps[..n], c)
  {
    RunFront(s, steps);
  }

  lemma OrderKept(s: System, steps: seq<Step>, before: seq<Conn>, idle: seq<Conn>)
    requires steps != [] && Runs(s, steps) && Runs(s, steps[..|steps| - 1])
    requires ByLastRelease(s, steps[..|steps| - 1], before) && Distinct(idle)
    requires var x, step := After(s, steps[..|steps| - 1]), steps[|steps| - 1];
      if step.Finish? && step.healthy then step.task in x.holding && idle == before + [x.holding[step.task]]
      else idle <= before
    ensures ByLastRelease(s, steps, idle)
  {
    var n := |steps| - 1;
    var x, step := After(s, steps[..n]), steps[n];
    forall i | 0 <= i < |idle|
      ensures LastRelease(s, steps, idle[i])
        == if i == |before| then n else LastRelease(s, steps[..n], before[i])
      ensures i < |before| ==> idle[i] == before[i]
    {
      StampsOfStep(s, steps, idle[i]);
      if step.Finish? && step.healthy && i < |before| { assert idle[i] != idle[|before|]; }
    }
    forall i, j | 0 <= i < j < |idle| ensures LastRelease(s, steps, idle[i]) < LastRelease(s, steps, idle[j]) {
      assert LastRelease(s, steps[..n], before[i]) < n;
    }
  }

  /** In every run from an empty pool the idle stack is in the order of the last releases. */
  lemma {:induction false} IdleByLastRelease(max: Option<nat>, limit: nat, steps: seq<Step>)
    requires Runs(Fresh(max, limit), steps)
    ensures ByLastRelease(Fresh(max, limit), steps, After(Fresh(max, limit), steps).pool.idle)
    decreases |steps|
  {
    if steps != [] {
      var s0, n := Fresh(max, limit), |steps| - 1;
      RunFront(s0, steps);
      IdleByLastRelease(max, limit, steps[..n]);
      RunsKeepInv(s0, steps[..n]);
      RunsKeepInv(s0, steps);
      var x := After(s0, steps[..n]);
      StepStacks(x, steps[n]);
      OrderKept(s0, steps, x.pool.idle, After(s0, steps).pool.idle);
    }
  }

  lemma {:induction false} NoneAboveUsable(idle: seq<Conn>, usable: set<Conn>, k: nat)
    requires k < |idle| && idle[k] in usable
    ensures Search(idle, usable).got.Some? && k <= |Search(idle, usable).rest|
  {
    var n := |idle| - 1;
    if idle[n] !in usable { NoneAboveUsable(idle[..n], usable, k); }
  }

  lemma FoundIsLatest(s: System, steps: seq<Step>, idle: seq<Conn>, usable: set<Conn>)
    requires Runs(s, steps) && ByLastRelease(s, steps, idle)
    ensures var got := Search(idle, usable).got;
      if got.None? then forall d :: d in idle ==> d !in usable
      else got.value in usable && got.value in idle
           && forall d :: d in idle && d in usable && d != got.value
                ==> LastRelease(s, steps, d) < LastRelease(s, steps, got.value)
  {
    SearchOrder(idle, usable);
    var f := Search(idle, usable);
    forall d | d in idle && d in usable
      ensures f.got.Some? && (d != f.got.value ==> LastRelease(s, steps, d) < LastRelease(s, steps, f.got.value))
    {
      var k :| 0 <= k < |idle| && idle[k] == d;
      NoneAboveUsable(idle, usable, k);
    }
  }

  /** The hottest connection first: of the usable idle connections a request gets the one
      given back last, and it gets one if there is any. */
  lemma HottestFirst(max: Option<nat>, limit: nat, steps: seq<Step>, t: Task, usable: set<Conn>)
    requires Runs(Fresh(max, limit), steps)
    requires Enabled(After(Fresh(max, limit), steps), Start(t, usable))
    ensures var s0, s := Fresh(max, limit), After(Fresh(max, limit), steps);
      var s' := Next(s, Start(t, usable));
      if t in s'.holding then
        var c := s'.holding[t];
        && c in usable && c in s.pool.idle
        && forall d :: d in s.pool.idle && d in usable && d != c
             ==> LastRelease(s0, steps, d) < LastRelease(s0, steps, c)
      else forall d :: d in s.pool.idle ==> d !in usable
  {
    var s0, s := Fresh(max, limit), After(Fresh(max, limit), steps);
    IdleByLastRelease(max, limit, steps);
    FoundIsLatest(s0, steps, s.pool.idle, usable);
  }

  /** Every connection ever opened is tracked or has been closed. */
  ghost predicate NoneForgotten(s: System) {
    s.born == s.pool.all + s.pool.closed
  }

  lemma ClaimForgetsNone(p: Pool, usable: set<Conn>)
    requires StackOk(p)
    ensures var q := Claim(p, Search(p.idle, usable)); q.all + q.closed == p.all + p.closed
  {
    SearchEffect(p.idle, usable);
  }

  lemma SeekForgetsNone(s: System, t: Task, usable: set<Conn>)
    requires StackOk(s.pool)
    ensures var q := Seek(s, t, usable); q.pool.all + q.pool.closed == s.pool.all + s.pool.closed && q.born == s.born
  {
    ClaimForgetsNone(s.pool, usable);
  }

  lemma GrantForgetsNone(s: System, t: Task, usable: set<Conn>)
    requires StackOk(s.pool) && Enabled(s, Grant(t, usable))
    ensures var q := Next(s, Grant(t, usable));
      q.pool.all + q.pool.closed == s.pool.all + s.pool.closed && q.born == s.born
  {
    ClaimForgetsNone(s.pool, usable);
  }

  lemma FinishForgetsNone(s: System, t: Task, healthy: bool, twice: bool)
    requires Inv(s) && NoneForgotten(s) && Enabled(s, Finish(t, healthy, twice))
    ensures NoneForgotten(Next(s, Finish(t, healthy, twice)))
  {
    FinishStacks(s, t, healthy, twice);
    assert s.holding[t] in s.holding.Values;
    assert Next(s, Finish(t, healthy, twice)).born == s.born;
  }

  /** The steps that neither search the stack nor give anything back. */
  lemma OthersForgetNone(s: System, step: Step)
    requires NoneForgotten(s) && Enabled(s, step)
    requires !step.Start? && !step.Resume? && !step.Grant? && !step.Finish?
    ensures NoneForgotten(Next(s, step))
  {
  }

  lemma StepForgetsNone(s: System, step: Step)
    requires Inv(s) && NoneForgotten(s) && Enabled(s, step)
    ensures NoneForgotten(Next(s, step))
  {
    match step
    case Start(t, usable) => SeekForgetsNone(s, t, usable);
    case Grant(t, usable) => GrantForgetsNone(s, t, usable);
    case Resume(t, usable) => SeekForgetsNone(s.(notified := s.notified - {t}), t, usable);
    case Finish(t, healthy, twice) => FinishForgetsNone(s, t, healthy, twice);
    case _ => OthersForgetNone(s, step);
  }

  lemma {:induction false} NoConnectionLeaks(max: Option<nat>, limit: nat, steps: seq<Step>)
    requires Runs(Fresh(max, limit), steps)
    ensures NoneForgotten(After(Fresh(max, limit), steps))
    decreases |steps|
  {
    if steps != [] {
      var s0, n := Fresh(max, limit), |steps| - 1;
      RunFront(s0, steps);
      NoConnectionLeaks(max, limit, steps[..n]);
      RunsKeepInv(s0, steps[..n]);
      StepForgetsNone(After(s0, steps[..n]), steps[n]);
    }
  }
}
