/** The pool object: its methods update the fields in place, each one stretch of code
    between two suspension points, and each is tied to the step function of the model
    whose runs are proved safe. */
module ConnectionPool {
  import opened Collections
  import opened PoolModel
  import opened PoolSafety

  lemma TopmostUsable(idle: seq<Conn>, f: Found)
    requires match f.got
      case None => f.rest == [] && f.dropped == Elements(idle)
      case Some(c) => (|f.rest| < |idle| && c == idle[|f.rest|]
                       && f.rest == idle[..|f.rest|] && f.dropped == Elements(idle[|f.rest| + 1..]))
    ensures forall k :: |f.rest| < k < |idle| ==> idle[k] in f.dropped
    ensures f.got.Some? ==> f.rest + [f.got.value] <= idle
  {
    forall k | |f.rest| < k < |idle| ensures idle[k] in f.dropped {
      if f.got.Some? { assert idle[k] == idle[|f.rest| + 1..][k - |f.rest| - 1]; }
    }
  }

  /** The part of the proved invariant that speaks of the pool alone. */
  ghost predicate PoolOk(p: Pool) {
    CapOk(p) && StackOk(p)
  }

  lemma ClaimKeeps(p: Pool, usable: set<Conn>)
    requires PoolOk(p)
    ensures PoolOk(Claim(p, Search(p.idle, usable)))
  {
    SearchEffect(p.idle, usable);
    SearchSizes(p, usable);
  }

  lemma SeekKeeps(p: Pool, t: Task, usable: set<Conn>)
    requires PoolOk(p)
    ensures PoolOk(SeekPool(p, t, usable))
  {
    ClaimKeeps(p, usable);
  }

  class Connections {
    const max: Option<nat>
    var idle: seq<Conn>
    var all: set<Conn>
    var creating: nat
    var waiters: seq<Task>
    var cancelled: set<Task>
    var inUse: set<Conn>
    var closed: set<Conn>

    ghost function State(): Pool
      reads this
    {
      Pool(max, idle, all, creating, waiters, cancelled, inUse, closed)
    }

    /** The methods keep the pool's part of the invariant whenever the caller keeps its
        side, said method by method. */
    ghost predicate Valid()
      reads this
    {
      PoolOk(State())
    }

    constructor (max: Option<nat>)
      ensures State() == Fresh(max, 0).pool && Valid()
    {
      this.max := max;
      idle, all, creating, waiters, cancelled, inUse, closed := [], {}, 0, [], {}, {}, {};
    }

    /** Closing a connection also stops tracking it. */
    method CloseConnection(conn: Conn)
      modifies this
      ensures State() == old(State()).(all := old(all) - {conn}, closed := old(closed) + {conn})
    {
      closed := closed + {conn};
      all := all - {conn};
    }

    /** Pops the stack until a usable connection turns up. The answer is the topmost
        usable one; the connections above it, and only they, are closed. */
    method TryGetIdle(usable: set<Conn>) returns (conn: Option<Conn>)
      modifies this
      ensures State() == Claim(old(State()), Search(old(idle), usable))
      ensures conn == Search(old(idle), usable).got
      ensures conn.None? ==> idle == [] && forall c :: c in old(idle) ==> c !in usable && c in closed
      ensures conn.Some? ==> conn.value in usable && idle + [conn.value] <= old(idle)
      ensures forall k :: |idle| < k < |old(idle)| ==> old(idle)[k] in closed && old(idle)[k] !in usable
    {
      ghost var start := State();
      ghost var goal := Search(idle, usable);
      ghost var dropped: set<Conn> := {};
      conn := None;
      while idle != []
        invariant State() == start.(idle := idle, all := start.all - dropped, closed := start.closed + dropped)
        invariant idle <= start.idle
        invariant goal == Search(idle, usable).(dropped := Search(idle, usable).dropped + dropped)
      {
        var top := idle[|idle| - 1];
        idle := idle[..|idle| - 1];
        if top in usable {
          inUse := inUse + {top};
          conn := Some(top);
          break;
        }
        dropped := dropped + {top};
        CloseConnection(top);
      }
      assert State() == Claim(start, goal);
      SearchOrder(start.idle, usable);
      TopmostUsable(start.idle, goal);
    }

    method CanCreateConnection() returns (can: bool)
      ensures can == CanCreate(State())
    {
      can := max == None || |all| + creating < max.value;
    }

    /** Wakes the first waiter that is still pending, in arrival order. */
    method NotifyWaiter() returns (woken: set<Task>)
      modifies this
      ensures (woken, State()) == Notify(old(State()))
      ensures woken == {} ==> forall t :: t in old(waiters) ==> t in cancelled
      ensures woken != {} ==>
        (exists n :: 0 <= n < |old(waiters)| && woken == {old(waiters)[n]}
                     && old(waiters)[n] !in cancelled && waiters == old(waiters)[n + 1..]
                     && (forall k :: 0 <= k < n ==> old(waiters)[k] in cancelled))
    {
      ghost var n := 0;
      while waiters != []
        invariant n <= |old(waiters)| && waiters == old(waiters)[n..]
        invariant State() == old(State()).(waiters := waiters)
        invariant Wake(waiters, cancelled) == Wake(old(waiters), cancelled)
        invariant forall k :: 0 <= k < n ==> old(waiters)[k] in cancelled
        decreases |waiters|
      {
        var waiter := waiters[0];
        waiters := waiters[1..];
        if waiter !in cancelled {
          assert waiter == old(waiters)[n];
          return {waiter};
        }
        n := n + 1;
      }
      return {};
    }

    /** Gives a connection back: reuse it if it is healthy, close it if not, and wake a
        waiter either way. A connection no longer in use is left alone. */
    method Release(conn: Conn, healthy: bool) returns (woken: set<Task>)
      modifies this
      ensures (woken, State()) == PoolModel.Release(old(State()), conn, healthy)
      ensures old(Valid()) && (healthy ==> conn in old(all)) ==> Valid()
      ensures healthy && conn in old(inUse) ==>
        forall usable :: conn in usable ==> Search(idle, usable) == Found(Some(conn), old(idle), {})
    {
      if conn !in inUse { return {}; }
      if !healthy {
        CloseConnection(conn);
        woken := NotifyWaiter();
        return;
      }
      inUse := inUse - {conn};
      ElementsAppend(idle, conn);
      idle := idle + [conn];
      woken := NotifyWaiter();
    }

    /** `acquire`, and a resumed waiter, up to their next suspension: an idle connection,
        else a reserved slot, else a place at the end of the queue. */
    method Acquire(task: Task, usable: set<Conn>) returns (conn: Option<Conn>, reserved: bool)
      modifies this
      ensures State() == SeekPool(old(State()), task, usable)
      ensures conn == Search(old(idle), usable).got
      ensures reserved <==> creating == old(creating) + 1
      ensures conn.None? && !reserved <==> waiters == old(waiters) + [task]
      ensures old(Valid()) ==> Valid()
    {
      reserved := false;
      if PoolOk(State()) { SeekKeeps(State(), task, usable); }
      conn := TryGetIdle(usable);
      if conn.Some? { return; }
      reserved := CanCreateConnection();
      if reserved {
        creating := creating + 1;
      } else {
        waiters := waiters + [task];
      }
    }

    /** A creating task gets past the limiter. */
    method LimiterGranted(usable: set<Conn>) returns (conn: Option<Conn>)
      requires creating > 0
      modifies this
      ensures State() == GrantPool(old(State()), usable)
      ensures conn == Search(old(idle), usable).got
      ensures old(Valid()) ==> Valid()
    {
      if PoolOk(State()) { ClaimKeeps(State(), usable); }
      conn := TryGetIdle(usable);
      if conn.Some? { creating := creating - 1; }
    }

    /** The handshake is done: the reservation turns into a tracked connection, so the
        cap holds without a second look, and nobody else can claim it from the stack. */
    method ConnectionMade(conn: Conn)
      requires creating > 0
      modifies this
      ensures State() == Opened(old(State()), conn)
      ensures conn !in old(all) ==> |all| + creating == |old(all)| + old(creating)
      ensures old(Valid()) && conn !in old(all) + old(closed) ==> Valid() && conn !in idle
    {
      assert StackOk(State()) && conn in idle ==> conn in Elements(idle);
      all := all + {conn};
      inUse := inUse + {conn};
      creating := creating - 1;
    }

    /** After closing, no search finds a connection, every connection that was tracked is
        closed, and whoever waited is cancelled, so that no release wakes anyone. */
    method Close()
      modifies this
      ensures State() == CloseAll(old(State()))
      ensures old(Valid()) ==> Valid()
      ensures all == {} && forall c :: c in old(all) ==> c in closed
      ensures forall usable :: Search(idle, usable) == Found(None, [], {})
      ensures forall t :: t in old(waiters) ==> t in cancelled
      ensures forall c, healthy :: PoolModel.Release(State(), c, healthy).0 == {}
    {
      cancelled := cancelled + (set t | t in waiters);
      waiters := [];
      closed := closed + all;
      all, idle := {}, [];
    }
  }
}
