/** The connection pool as a state machine whose steps are the stretches of code
    between two suspension points. A run is any interleaving of those steps, so the
    theorems below hold whatever order the event loop resumes the tasks in.

    Connections and tasks are identities. What the sockets and clocks decide (is a
    connection still usable, did the handshake succeed) is an input of the step. */
module PoolModel {
  import opened Collections

  type Conn = nat
  type Task = nat

  /** The fields of the pool object, with the per-connection `in_use` flag and the
      closing state of the transports kept as sets. A task has at most one waiter
      future at a time, so the future is named by its task. */
  datatype Pool = Pool(
    max: Option<nat>,
    idle: seq<Conn>,        // a stack, its top last
    all: set<Conn>,
    creating: nat,
    waiters: seq<Task>,     // FIFO, head first
    cancelled: set<Task>,   // waiter futures already done by cancellation
    inUse: set<Conn>,
    closed: set<Conn>)

  /** Outcome of a search of the idle stack: what was found, what stays below it, and
      which unusable connections were met on the way down. */
  datatype Found = Found(got: Option<Conn>, rest: seq<Conn>, dropped: set<Conn>)

  function Search(idle: seq<Conn>, usable: set<Conn>): Found {
    if idle == [] then Found(None, [], {})
    else
      var top, below := idle[|idle| - 1], idle[..|idle| - 1];
      if top in usable then Found(Some(top), below, {})
      else var f := Search(below, usable); f.(dropped := f.dropped + {top})
  }

  function Claim(p: Pool, f: Found): Pool {
    p.(idle := f.rest, all := p.all - f.dropped, closed := p.closed + f.dropped,
       inUse := p.inUse + if f.got.Some? then {f.got.value} else {})
  }

  predicate CanCreate(p: Pool) {
    p.max == None || |p.all| + p.creating < p.max.value
  }

  /** The first pending waiter, if any, and the queue behind it: the futures ahead of
      it are done already and are discarded. */
  function Wake(waiters: seq<Task>, cancelled: set<Task>): (set<Task>, seq<Task>) {
    if waiters == [] then ({}, [])
    else if waiters[0] in cancelled then Wake(waiters[1..], cancelled)
    else ({waiters[0]}, waiters[1..])
  }

  function Notify(p: Pool): (set<Task>, Pool) {
    var (woken, rest) := Wake(p.waiters, p.cancelled);
    (woken, p.(waiters := rest))
  }

  function Release(p: Pool, c: Conn, healthy: bool): (set<Task>, Pool) {
    if c !in p.inUse then ({}, p)
    else if !healthy then Notify(p.(all := p.all - {c}, closed := p.closed + {c}))
    else Notify(p.(inUse := p.inUse - {c}, idle := p.idle + [c]))
  }

  function CloseAll(p: Pool): Pool {
    p.(all := {}, idle := [], waiters := [], closed := p.closed + p.all,
       cancelled := p.cancelled + set t | t in p.waiters)
  }

  /** The pool together with what every task is doing at a suspension point. */
  datatype System = System(
    pool: Pool,
    limit: nat,                   // permits of the connect limiter
    permits: nat,                 // permits not taken
    queued: set<Task>,            // slot reserved, waiting for a permit
    connecting: set<Task>,        // handshake under way
    notified: set<Task>,          // woken, not resumed yet
    holding: map<Task, Conn>,
    born: set<Conn>)              // every connection ever opened

  datatype Step =
    | Start(task: Task, usable: set<Conn>)
    | Grant(task: Task, usable: set<Conn>)
    | Connected(task: Task, conn: Conn)
    | Abort(task: Task)           // handshake failed, or a creating task was cancelled
    | Resume(task: Task, usable: set<Conn>)
    | Cancel(task: Task)          // a pending waiter's task is cancelled
    | Unwind(task: Task)          // a cancelled waiter leaves the queue
    | DropNotified(task: Task)    // cancelled after it was notified
    | Finish(task: Task, healthy: bool, twice: bool)
    | Shutdown

  predicate Pending(s: System, t: Task) {
    t in s.pool.waiters && t !in s.pool.cancelled
  }

  /** The task is in no phase: it has not called `acquire`, or it is done. */
  predicate Unknown(s: System, t: Task) {
    && t !in s.queued && t !in s.connecting && t !in s.notified
    && t !in s.pool.waiters && t !in s.pool.cancelled && t !in s.holding
  }

  predicate Enabled(s: System, step: Step) {
    match step
    case Start(t, usable) => Unknown(s, t) && usable !! s.pool.closed
    case Grant(t, usable) => t in s.queued && s.permits > 0 && usable !! s.pool.closed && s.pool.creating > 0
    case Connected(t, c) => t in s.connecting && c !in s.born && s.pool.creating > 0
    case Abort(t) => t in s.queued + s.connecting && s.pool.creating > 0
    case Resume(t, usable) => t in s.notified && usable !! s.pool.closed
    case Cancel(t) => Pending(s, t)
    case Unwind(t) => t in s.pool.cancelled
    case DropNotified(t) => t in s.notified
    case Finish(t, healthy, twice) => t in s.holding && (healthy ==> s.holding[t] !in s.pool.closed)
    case Shutdown => true
  }

  function Without(s: seq<Task>, t: Task): seq<Task> {
    if s == [] then [] else if s[0] == t then Without(s[1..], t) else [s[0]] + Without(s[1..], t)
  }

  /** From "no connection yet" to the next suspension: take an idle connection, or
      reserve a slot, or queue as a waiter. */
  function SeekPool(p: Pool, t: Task, usable: set<Conn>): Pool {
    var f := Search(p.idle, usable);
    var q := Claim(p, f);
    if f.got.Some? then q
    else if CanCreate(q) then q.(creating := q.creating + 1)
    else q.(waiters := q.waiters + [t])
  }

  function Seek(s: System, t: Task, usable: set<Conn>): System {
    var f := Search(s.pool.idle, usable);
    var p := SeekPool(s.pool, t, usable);
    if f.got.Some? then s.(pool := p, holding := s.holding[t := f.got.value])
    else if CanCreate(Claim(s.pool, f)) then s.(pool := p, queued := s.queued + {t})
    else s.(pool := p)
  }

  /** Past the limiter: a connection released meanwhile is preferred, and gives the
      reservation back. */
  function GrantPool(p: Pool, usable: set<Conn>): Pool
    requires p.creating > 0
  {
    var f := Search(p.idle, usable);
    if f.got.Some? then Claim(p, f).(creating := p.creating - 1) else Claim(p, f)
  }

  function Opened(p: Pool, c: Conn): Pool
    requires p.creating > 0
  {
    p.(all := p.all + {c}, inUse := p.inUse + {c}, creating := p.creating - 1)
  }

  function ReleaseOnce(s: System, c: Conn, healthy: bool): System {
    var (woken, p) := Release(s.pool, c, healthy);
    s.(pool := p, notified := s.notified + woken)
  }

  function Next(s: System, step: Step): System
    requires Enabled(s, step)
  {
    match step
    case Start(t, usable) => Seek(s, t, usable)
    case Resume(t, usable) => Seek(s.(notified := s.notified - {t}), t, usable)
    case Grant(t, usable) =>
      var f := Search(s.pool.idle, usable);
      if f.got.Some? then
        s.(pool := GrantPool(s.pool, usable), queued := s.queued - {t}, holding := s.holding[t := f.got.value])
      else
        s.(pool := GrantPool(s.pool, usable), queued := s.queued - {t}, connecting := s.connecting + {t},
           permits := s.permits - 1)
    case Connected(t, c) =>
      s.(pool := Opened(s.pool, c),
         connecting := s.connecting - {t}, permits := s.permits + 1,
         holding := s.holding[t := c], born := s.born + {c})
    case Abort(t) =>
      var p := s.pool.(creating := s.pool.creating - 1);
      if t in s.queued then s.(pool := p, queued := s.queued - {t})
      else s.(pool := p, connecting := s.connecting - {t}, permits := s.permits + 1)
    case Cancel(t) => s.(pool := s.pool.(cancelled := s.pool.cancelled + {t}))
    case Unwind(t) =>
      s.(pool := s.pool.(cancelled := s.pool.cancelled - {t}, waiters := Without(s.pool.waiters, t)))
    case DropNotified(t) => s.(notified := s.notified - {t})
    case Finish(t, healthy, twice) =>
      var c := s.holding[t];
      var once := ReleaseOnce(s.(holding := s.holding - {t}), c, healthy);
      if twice then ReleaseOnce(once, c, healthy) else once
    case Shutdown => s.(pool := CloseAll(s.pool))
  }

  function Fresh(max: Option<nat>, limit: nat): System {
    System(Pool(max, [], {}, 0, [], {}, {}, {}), limit, limit, {}, {}, {}, map[], {})
  }

  /** `steps` can be taken one after the other from `s`. */
  predicate Runs(s: System, steps: seq<Step>)
    decreases |steps|
  {
    steps == [] || (Enabled(s, steps[0]) && Runs(Next(s, steps[0]), steps[1..]))
  }

  function After(s: System, steps: seq<Step>): System
    requires Runs(s, steps)
    decreases |steps|
  {
    if steps == [] then s else After(Next(s, steps[0]), steps[1..])
  }
}
