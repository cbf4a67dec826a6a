/** What every interleaving of the pool's steps keeps. */
module PoolSafety {
  import opened Collections
  import opened PoolModel

  /** Tracked connections and reservations together respect the cap. */
  ghost predicate CapOk(p: Pool) {
    p.max.Some? ==> |p.all| + p.creating <= p.max.value
  }

  /** The idle stack: no duplicates, only tracked connections, none in use or closed. */
  ghost predicate StackOk(p: Pool) {
    && Distinct(p.idle)
    && Elements(p.idle) <= p.all
    && Elements(p.idle) !! p.inUse
    && p.all !! p.closed
  }

  /** Slots: the cap is respected, and the reservation counter and the limiter agree
      with the tasks that are creating. */
  ghost predicate SlotsOk(s: System) {
    && CapOk(s.pool)
    && s.queued !! s.connecting
    && s.pool.creating == |s.queued| + |s.connecting|
    && s.permits + |s.connecting| == s.limit
  }

  /** Connections: the stack is in order, and nothing is known that was never opened. */
  ghost predicate IdleOk(s: System) {
    && StackOk(s.pool)
    && s.pool.all <= s.born && s.pool.closed <= s.born && s.pool.inUse <= s.born
  }

  /** In-flight requests: each holds a connection marked in use, no two the same one,
      and every tracked connection is idle or held. */
  ghost predicate HoldersOk(s: System) {
    && Exclusive(s.holding)
    && s.holding.Values <= s.pool.inUse
    && s.holding.Values <= s.pool.all + s.pool.closed
    && s.pool.all <= Elements(s.pool.idle) + s.holding.Values
  }

  ghost predicate Exclusive(holding: map<Task, Conn>) {
    forall t, u :: t in holding && u in holding && holding[t] == holding[u] ==> t == u
  }

  /** Tasks: one phase each. */
  ghost predicate TasksOk(s: System) {
    && Distinct(s.pool.waiters)
    && (forall t :: t in s.queued || t in s.connecting ==> t !in s.notified)
    && (forall t :: t in s.holding ==> t !in s.queued && t !in s.connecting && t !in s.notified)
    && (forall t :: t in Elements(s.pool.waiters) || t in s.pool.cancelled ==>
                      t !in s.queued && t !in s.connecting && t !in s.notified && t !in s.holding)
  }

  ghost predicate Inv(s: System) {
    SlotsOk(s) && IdleOk(s) && HoldersOk(s) && TasksOk(s)
  }

  /** A search answers with the topmost usable connection: what lies below it stays in
      order, and nothing above it was usable. */
  lemma SearchOrder(idle: seq<Conn>, usable: set<Conn>)
    ensures var f := Search(idle, usable);
      && f.dropped !! usable
      && match f.got
         case None => f.rest == [] && f.dropped == Elements(idle)
         case Some(c) => (|f.rest| < |idle| && c == idle[|f.rest|] && c in usable
                          && f.rest == idle[..|f.rest|] && f.dropped == Elements(idle[|f.rest| + 1..]))
  {
    SearchStops(idle, usable);
    SearchDrops(idle, usable);
    assert idle[0..] == idle;
  }

  /** Where the dropped part of the stack begins. */
  function DropStart(f: Found): nat {
    if f.got.Some? then |f.rest| + 1 else 0
  }

  lemma {:induction false} SearchDrops(idle: seq<Conn>, usable: set<Conn>)
    ensures var f := Search(idle, usable);
      && DropStart(f) <= |idle|
      && f.dropped !! usable && f.dropped == Elements(idle[DropStart(f)..])
  {
    if idle != [] {
      var top, below := idle[|idle| - 1], idle[..|idle| - 1];
      if top in usable {
        assert idle[|idle|..] == [];
      } else {
        SearchDrops(below, usable);
        var n := DropStart(Search(below, usable));
        assert idle[n..] == below[n..] + [top];
        ElementsAppend(below[n..], top);
      }
    }
  }

  lemma {:induction false} SearchStops(idle: seq<Conn>, usable: set<Conn>)
    ensures var f := Search(idle, usable);
      match f.got
      case None => f.rest == []
      case Some(c) => |f.rest| < |idle| && c == idle[|f.rest|] && c in usable && f.rest == idle[..|f.rest|]
  {
    if idle != [] {
      var below := idle[..|idle| - 1];
      SearchStops(below, usable);
      var f := Search(below, usable);
      if f.got.Some? { assert idle[..|f.rest|] == below[..|f.rest|]; }
    }
  }

  /** The same, on sets: every idle connection is dropped, found or kept. */
  lemma SearchEffect(idle: seq<Conn>, usable: set<Conn>)
    requires Distinct(idle)
    ensures var f := Search(idle, usable);
      && Distinct(f.rest) && f.dropped <= Elements(idle)
      && match f.got
         case None => f.dropped == Elements(idle) && |f.dropped| == |idle| && f.rest == []
         case Some(c) => c in Elements(idle) && c !in f.dropped
                         && Elements(f.rest) == Elements(idle) - f.dropped - {c}
                         && |f.rest| == |idle| - |f.dropped| - 1
  {
    SearchOrder(idle, usable);
    var f := Search(idle, usable);
    if f.got.Some? { SplitStack(idle, |f.rest|); } else { DistinctSize(idle); }
  }

  lemma SplitStack(idle: seq<Conn>, n: nat)
    requires Distinct(idle) && n < |idle|
    ensures var below, above := Elements(idle[..n]), Elements(idle[n + 1..]);
      && below == Elements(idle) - above - {idle[n]}
      && above <= Elements(idle) && idle[n] !in above && |above| == |idle| - n - 1
  {
    var below, above := Elements(idle[..n]), Elements(idle[n + 1..]);
    DistinctSize(idle[n + 1..]);
    forall c | c in Elements(idle) ensures c in below || c == idle[n] || c in above {
      var k :| 0 <= k < |idle| && idle[k] == c;
      if k > n { assert idle[n + 1..][k - n - 1] == c; } else if k < n { assert idle[..n][k] == c; }
    }
  }

  /** A search discards tracked and idle connections in equal numbers. */
  lemma SearchSizes(p: Pool, usable: set<Conn>)
    requires Distinct(p.idle) && Elements(p.idle) <= p.all
    ensures var f := Search(p.idle, usable);
      && |p.all - f.dropped| <= |p.all|
      && |p.all - f.dropped| - |f.rest| - |p.all| + |p.idle| == (if f.got.Some? then 1 else 0)
      && (f.got.None? ==> f.rest == [])
  {
    SearchEffect(p.idle, usable);
    SubsetSize(Search(p.idle, usable).dropped, p.all);
  }

  lemma ValuesOfUpdate(h: map<Task, Conn>, t: Task, c: Conn)
    requires t !in h
    ensures h[t := c].Keys == h.Keys + {t} && h[t := c].Values == h.Values + {c}
    ensures Exclusive(h) && c !in h.Values ==> Exclusive(h[t := c])
  {
    var h' := h[t := c];
    forall d | d in h.Values ensures d in h'.Values {
      var u :| u in h && h[u] == d;
      assert h'[u] == d;
    }
  }

  lemma ValuesOfRemoval(h: map<Task, Conn>, t: Task)
    requires t in h && Exclusive(h)
    ensures (h - {t}).Values == h.Values - {h[t]} && Exclusive(h - {t})
  {
    var h' := h - {t};
    forall d | d in h.Values && d != h[t] ensures d in h'.Values {
      var u :| u in h && h[u] == d;
      assert h'[u] == d;
    }
  }

  lemma {:induction false} WithoutElements(s: seq<Task>, t: Task)
    requires Distinct(s)
    ensures Distinct(Without(s, t)) && Elements(Without(s, t)) == Elements(s) - {t}
  {
    if s != [] {
      WithoutElements(s[1..], t);
      var rest := Without(s[1..], t);
      assert Elements(s) == {s[0]} + Elements(s[1..]);
      assert s[0] !in Elements(s[1..]);
      assert forall k :: 0 <= k < |rest| ==> rest[k] in Elements(rest);
      assert Elements([s[0]] + rest) == {s[0]} + Elements(rest);
    }
  }

  lemma {:induction false} WakeEffect(waiters: seq<Task>, cancelled: set<Task>)
    requires Distinct(waiters)
    ensures var (woken, rest) := Wake(waiters, cancelled);
      && Distinct(rest) && Elements(rest) <= Elements(waiters) && woken <= Elements(waiters)
      && woken !! Elements(rest) && woken !! cancelled
      && (rest != [] ==> |woken| == 1)
  {
    if waiters != [] {
      assert Elements(waiters) == {waiters[0]} + Elements(waiters[1..]);
      assert waiters[0] !in Elements(waiters[1..]);
      WakeEffect(waiters[1..], cancelled);
    }
  }

  /** The connection part of every step that searches the idle stack. */
  lemma SearchKeeps(s: System, s': System, t: Task, usable: set<Conn>)
    requires IdleOk(s) && HoldersOk(s) && t !in s.holding
    requires var f := Search(s.pool.idle, usable);
      && s'.pool == Claim(s.pool, f).(creating := s'.pool.creating, waiters := s'.pool.waiters)
      && s'.born == s.born
      && s'.holding == if f.got.Some? then s.holding[t := f.got.value] else s.holding
    ensures IdleOk(s') && HoldersOk(s')
  {
    SearchEffect(s.pool.idle, usable);
    var f := Search(s.pool.idle, usable);
    if f.got.Some? { ValuesOfUpdate(s.holding, t, f.got.value); }
  }

  lemma EnqueueKeepsTasks(s: System, t: Task)
    requires TasksOk(s) && Unknown(s, t)
    ensures TasksOk(s.(pool := s.pool.(waiters := s.pool.waiters + [t])))
  {
    assert Elements(s.pool.waiters + [t]) == Elements(s.pool.waiters) + {t};
  }

  lemma SeekKeepsTasks(s: System, t: Task, usable: set<Conn>)
    requires TasksOk(s) && Unknown(s, t)
    ensures TasksOk(Seek(s, t, usable))
  {
    var s' := Seek(s, t, usable);
    if s'.pool.waiters != s.pool.waiters { EnqueueKeepsTasks(s, t); }
  }

  lemma SeekKeepsSlots(s: System, t: Task, usable: set<Conn>)
    requires SlotsOk(s) && Unknown(s, t) && Distinct(s.pool.idle) && Elements(s.pool.idle) <= s.pool.all
    ensures SlotsOk(Seek(s, t, usable))
  {
    SearchSizes(s.pool, usable);
    assert |s.queued + {t}| == |s.queued| + 1;
  }

  /** What seeking does to the connections: a search, and its result held. */
  lemma SeekShape(s: System, t: Task, usable: set<Conn>)
    ensures var s', f := Seek(s, t, usable), Search(s.pool.idle, usable);
      && s'.pool == Claim(s.pool, f).(creating := s'.pool.creating, waiters := s'.pool.waiters)
      && s'.born == s.born
      && s'.holding == if f.got.Some? then s.holding[t := f.got.value] else s.holding
  {
  }

  lemma SeekKeepsConnections(s: System, t: Task, usable: set<Conn>)
    requires IdleOk(s) && HoldersOk(s) && t !in s.holding
    ensures IdleOk(Seek(s, t, usable)) && HoldersOk(Seek(s, t, usable))
  {
    SeekShape(s, t, usable);
    SearchKeeps(s, Seek(s, t, usable), t, usable);
  }

  lemma SeekKeepsInv(s: System, t: Task, usable: set<Conn>)
    requires Inv(s) && Unknown(s, t)
    ensures Inv(Seek(s, t, usable))
  {
    SeekKeepsConnections(s, t, usable);
    SeekKeepsSlots(s, t, usable);
    SeekKeepsTasks(s, t, usable);
  }

  lemma GrantKeepsConnections(s: System, t: Task, usable: set<Conn>)
    requires IdleOk(s) && HoldersOk(s) && t !in s.holding && Enabled(s, Grant(t, usable))
    ensures IdleOk(Next(s, Grant(t, usable))) && HoldersOk(Next(s, Grant(t, usable)))
  {
    SearchKeeps(s, Next(s, Grant(t, usable)), t, usable);
  }

  lemma GrantKeepsSlots(s: System, t: Task, usable: set<Conn>)
    requires SlotsOk(s) && StackOk(s.pool) && Enabled(s, Grant(t, usable))
    ensures SlotsOk(Next(s, Grant(t, usable)))
  {
    SearchSizes(s.pool, usable);
    assert |s.queued - {t}| == |s.queued| - 1;
  }

  lemma GrantKeepsTasks(s: System, t: Task, usable: set<Conn>)
    requires SlotsOk(s) && TasksOk(s) && Enabled(s, Grant(t, usable))
    ensures TasksOk(Next(s, Grant(t, usable)))
  {
  }

  lemma GrantKeepsInv(s: System, t: Task, usable: set<Conn>)
    requires Inv(s) && Enabled(s, Grant(t, usable))
    ensures Inv(Next(s, Grant(t, usable)))
  {
    GrantKeepsConnections(s, t, usable);
    GrantKeepsSlots(s, t, usable);
    GrantKeepsTasks(s, t, usable);
  }

  lemma ConnectedKeepsConnections(s: System, t: Task, c: Conn)
    requires IdleOk(s) && HoldersOk(s) && t !in s.holding && Enabled(s, Connected(t, c))
    ensures IdleOk(Next(s, Connected(t, c))) && HoldersOk(Next(s, Connected(t, c)))
  {
    ValuesOfUpdate(s.holding, t, c);
  }

  lemma ConnectedKeepsInv(s: System, t: Task, c: Conn)
    requires Inv(s) && Enabled(s, Connected(t, c))
    ensures Inv(Next(s, Connected(t, c)))
  {
    ConnectedKeepsConnections(s, t, c);
  }

  /** The invariant while a finishing request still owns its connection `c` without
      being listed as a holder. */
  ghost predicate InvBut(s: System, c: Conn) {
    && SlotsOk(s) && IdleOk(s) && TasksOk(s)
    && Exclusive(s.holding) && c in s.born && c !in s.holding.Values
    && s.holding.Values <= s.pool.inUse
    && s.holding.Values <= s.pool.all + s.pool.closed
    && s.pool.all <= Elements(s.pool.idle) + s.holding.Values + {c}
    && (c in s.pool.inUse ==> c in s.pool.all + s.pool.closed)
    && (c in s.pool.all ==> c in s.pool.inUse || c in Elements(s.pool.idle))
  }

  /** Waking a task moves it from the queue to the notified ones, and nothing else. */
  lemma NotifyKeeps(s: System)
    requires TasksOk(s)
    ensures var (woken, p) := Notify(s.pool);
      && TasksOk(s.(pool := p, notified := s.notified + woken))
      && woken !! s.notified && woken !! s.pool.cancelled
      && (p.waiters != [] ==> |woken| == 1) && Elements(p.waiters) <= Elements(s.pool.waiters)
  {
    WakeEffect(s.pool.waiters, s.pool.cancelled);
  }

  /** The pool right before a release of `c` wakes a waiter. */
  function Returned(s: System, c: Conn, healthy: bool): System {
    s.(pool := if healthy then s.pool.(inUse := s.pool.inUse - {c}, idle := s.pool.idle + [c])
               else s.pool.(all := s.pool.all - {c}, closed := s.pool.closed + {c}))
  }

  /** A connection in use goes on top of the stack. */
  lemma PushKeepsStack(p: Pool, c: Conn)
    requires StackOk(p) && c in p.inUse && c in p.all
    ensures StackOk(p.(inUse := p.inUse - {c}, idle := p.idle + [c]))
    ensures Elements(p.idle + [c]) == Elements(p.idle) + {c}
  {
    assert c !in Elements(p.idle);
    ElementsAppend(p.idle, c);
    DistinctConcat(p.idle, [c]);
  }

  /** A dead connection is tracked no more. */
  lemma DropKeepsStack(p: Pool, c: Conn)
    requires StackOk(p) && c in p.inUse
    ensures StackOk(p.(all := p.all - {c}, closed := p.closed + {c})) && |p.all - {c}| <= |p.all|
  {
    assert c !in Elements(p.idle);
    SubsetSize(p.all * {c}, p.all);
    assert p.all - {c} == p.all - p.all * {c};
  }

  lemma ReturnedKeeps(s: System, c: Conn, healthy: bool)
    requires InvBut(s, c) && c in s.pool.inUse && (healthy ==> c in s.pool.all)
    ensures InvBut(Returned(s, c, healthy), c) && HoldersOk(Returned(s, c, healthy))
  {
    if healthy { PushKeepsStack(s.pool, c); } else { DropKeepsStack(s.pool, c); }
  }

  lemma ReleaseKeepsInv(s: System, c: Conn, healthy: bool)
    requires InvBut(s, c) && (healthy && c in s.pool.inUse ==> c in s.pool.all)
    ensures InvBut(ReleaseOnce(s, c, healthy), c)
    ensures Inv(ReleaseOnce(s, c, healthy))
    ensures healthy ==> c !in ReleaseOnce(s, c, healthy).pool.inUse
  {
    if c in s.pool.inUse {
      ReturnedKeeps(s, c, healthy);
      NotifyKeeps(Returned(s, c, healthy));
    }
  }

  lemma FinishKeepsInv(s: System, t: Task, healthy: bool, twice: bool)
    requires Inv(s) && Enabled(s, Finish(t, healthy, twice))
    ensures Inv(Next(s, Finish(t, healthy, twice)))
  {
    var c := s.holding[t];
    var s1 := s.(holding := s.holding - {t});
    ValuesOfRemoval(s.holding, t);
    assert InvBut(s1, c);
    ReleaseKeepsInv(s1, c, healthy);
    if twice { ReleaseKeepsInv(ReleaseOnce(s1, c, healthy), c, healthy); }
  }

  predicate Cancels(step: Step) {
    step.Abort? || step.Cancel? || step.Unwind? || step.DropNotified? || step.Shutdown?
  }

  lemma CancelKeepsConnections(s: System, step: Step)
    requires IdleOk(s) && HoldersOk(s) && Enabled(s, step) && Cancels(step)
    ensures IdleOk(Next(s, step)) && HoldersOk(Next(s, step))
  {
  }

  lemma CancelKeepsSlots(s: System, step: Step)
    requires SlotsOk(s) && Enabled(s, step) && Cancels(step)
    ensures SlotsOk(Next(s, step))
  {
    if step.Abort? {
      if step.task in s.queued { assert |s.queued - {step.task}| == |s.queued| - 1; }
      else { assert |s.connecting - {step.task}| == |s.connecting| - 1; }
    }
  }

  lemma CancelKeepsTasks(s: System, step: Step)
    requires TasksOk(s) && Enabled(s, step) && Cancels(step)
    ensures TasksOk(Next(s, step))
  {
    if step.Unwind? { WithoutElements(s.pool.waiters, step.task); }
  }

  lemma CancelKeepsInv(s: System, step: Step)
    requires Inv(s) && Enabled(s, step) && Cancels(step)
    ensures Inv(Next(s, step))
  {
    CancelKeepsConnections(s, step);
    CancelKeepsSlots(s, step);
    CancelKeepsTasks(s, step);
  }

  /** Every step keeps the invariant. */
  lemma StepKeepsInv(s: System, step: Step)
    requires Inv(s) && Enabled(s, step)
    ensures Inv(Next(s, step))
  {
    match step
    case Start(t, usable) => SeekKeepsInv(s, t, usable);
    case Resume(t, usable) => SeekKeepsInv(s.(notified := s.notified - {t}), t, usable);
    case Grant(t, usable) => GrantKeepsInv(s, t, usable);
    case Connected(t, c) => ConnectedKeepsInv(s, t, c);
    case Finish(t, healthy, twice) => FinishKeepsInv(s, t, healthy, twice);
    case _ => CancelKeepsInv(s, step);
  }

  lemma {:induction false} RunsKeepInv(s: System, steps: seq<Step>)
    requires Inv(s) && Runs(s, steps)
    ensures Inv(After(s, steps))
    decreases |steps|
  {
    if steps != [] {
      StepKeepsInv(s, steps[0]);
      RunsKeepInv(Next(s, steps[0]), steps[1..]);
    }
  }

  /** Safety of every interleaving, from an empty pool. */
  lemma PoolIsSafe(max: Option<nat>, limit: nat, steps: seq<Step>)
    requires Runs(Fresh(max, limit), steps)
    ensures var s := After(Fresh(max, limit), steps);
      && Inv(s)
      && (forall t, u :: t in s.holding && u in s.holding && t != u ==> s.holding[t] != s.holding[u])
      && (forall t :: t in s.holding ==> s.holding[t] !in s.pool.idle)
  {
    RunsKeepInv(Fresh(max, limit), steps);
    var s := After(Fresh(max, limit), steps);
    assert forall t :: t in s.holding ==> s.holding[t] !in Elements(s.pool.idle);
  }

  /** Why the worker must not suspend between its early and its final release: a
      release of a connection some request now holds puts it back on the stack. */
  lemma StaleReleaseSharesConnection(s: System, t: Task)
    requires Inv(s) && t in s.holding && s.holding[t] in s.pool.all
    ensures var s' := ReleaseOnce(s, s.holding[t], true);
      t in s'.holding && s'.holding[t] in s'.pool.idle && !Inv(s')
  {
    var c := s.holding[t];
    var s' := ReleaseOnce(s, c, true);
    assert s'.pool.idle[|s.pool.idle|] == c;
    assert c in s'.holding.Values && c !in s'.pool.inUse;
  }

  lemma {:induction false} WakesSomeoneExactlyWhen(waiters: seq<Task>, cancelled: set<Task>)
    ensures Wake(waiters, cancelled).0 == {} <==> forall t :: t in waiters ==> t in cancelled
  {
    if waiters != [] {
      if waiters[0] in cancelled { WakesSomeoneExactlyWhen(waiters[1..], cancelled); }
      assert waiters == [waiters[0]] + waiters[1..];
    }
  }

  /** Releasing twice is releasing once exactly when the connection went back healthy
      or nobody is left to wake; the second release never changes anything else. */
  lemma SecondReleaseSilentExactlyWhen(p: Pool, c: Conn, healthy: bool)
    requires c in p.inUse
    ensures var p1 := Release(p, c, healthy).1;
      var (woken, p2) := Release(p1, c, healthy);
      && p2 == p1.(waiters := p2.waiters)
      && (woken == {} <==> healthy || forall t :: t in p1.waiters ==> t in p1.cancelled)
  {
    var p1 := Release(p, c, healthy).1;
    WakesSomeoneExactlyWhen(p1.waiters, p1.cancelled);
  }

  /** One task at most is woken, and every other pending task stays in the queue. */
  lemma {:induction false} WakeSplits(waiters: seq<Task>, cancelled: set<Task>)
    ensures var (woken, rest) := Wake(waiters, cancelled);
      && (woken == {} ==> rest == [])
      && (forall t, u :: t in woken && u in woken ==> t == u)
      && forall t :: t in waiters && t !in cancelled ==> t in woken || t in rest
  {
    if waiters != [] {
      WakeSplits(waiters[1..], cancelled);
      assert waiters == [waiters[0]] + waiters[1..];
    }
  }

  predicate TwoPending(s: System) {
    exists t, u :: t in s.pool.waiters && u in s.pool.waiters && t != u && Pending(s, t) && Pending(s, u)
  }

  lemma AtMostOne(tasks: set<Task>)
    requires forall t, u :: t in tasks && u in tasks ==> t == u
    ensures |tasks| <= 1
  {
    if tasks != {} {
      var t :| t in tasks;
      assert tasks == {t};
    }
  }

  lemma TwoWakesExactlyWhen(s: System)
    requires TasksOk(s)
    ensures var (first, rest) := Wake(s.pool.waiters, s.pool.cancelled);
      var second := Wake(rest, s.pool.cancelled).0;
      && first !! second && first !! s.notified && second !! s.notified
      && |first| <= 1 && |second| <= 1 && (first == {} ==> second == {})
      && (second != {} <==> TwoPending(s))
  {
    var (first, rest) := Wake(s.pool.waiters, s.pool.cancelled);
    var second := Wake(rest, s.pool.cancelled).0;
    WakeEffect(s.pool.waiters, s.pool.cancelled);
    WakeEffect(rest, s.pool.cancelled);
    WakeSplits(s.pool.waiters, s.pool.cancelled);
    WakeSplits(rest, s.pool.cancelled);
    WakesSomeoneExactlyWhen(rest, s.pool.cancelled);
    AtMostOne(first);
    AtMostOne(second);
    if second != {} {
      var t :| t in first;
      var u :| u in second;
      assert Pending(s, t) && Pending(s, u);
    }
    if TwoPending(s) {
      var t, u :| t in s.pool.waiters && u in s.pool.waiters && t != u && Pending(s, t) && Pending(s, u);
      assert t in rest || u in rest;
    }
  }

  /** Over the steps: finishing wakes two tasks for one connection exactly when a dead
      connection is released twice while at least two tasks are pending. */
  lemma FinishWakesTwoExactlyWhen(s: System, t: Task, healthy: bool, twice: bool)
    requires Inv(s) && Enabled(s, Finish(t, healthy, twice))
    ensures |Next(s, Finish(t, healthy, twice)).notified - s.notified| == 2 <==> twice && !healthy && TwoPending(s)
  {
    var s' := Next(s, Finish(t, healthy, twice));
    assert s.holding[t] in s.holding.Values;
    TwoWakesExactlyWhen(s);
    var (first, rest) := Wake(s.pool.waiters, s.pool.cancelled);
    var second := Wake(rest, s.pool.cancelled).0;
    if twice && !healthy {
      assert s'.notified - s.notified == first + second;
    } else {
      assert s'.notified - s.notified == first;
    }
  }
}
