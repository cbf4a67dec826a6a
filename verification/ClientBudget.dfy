/** Dividing queries, connections and ports between workers and endpoints. Every worker is
    pinned to one endpoint URL; a port range is a budget per destination. */
module ClientBudget {
  import opened Collections

  /** `destinations` holds the host and port of each endpoint URL; -1 asks for defaults. */
  datatype Config = Config(
    workers: nat,
    destinations: seq<string>,
    ports: nat,
    maxConnections: int,
    warmup: int,
    fraction: real)

  /** What the fields' own bounds and a runtime configuration guarantee. */
  ghost predicate Bounded(c: Config) {
    && c.workers >= 1 && c.destinations != [] && c.ports >= 1
    && c.maxConnections >= -1 && c.warmup >= -1 && 0.0 < c.fraction <= 1.0
  }

  datatype Resolved = ZeroConnections | UnevenWorkers | OverBudget | Resolved(maxConnections: nat, warmup: int)

  function DistinctDestinations(c: Config): nat {
    |set d | d in c.destinations|
  }

  function Budget(c: Config): nat {
    c.ports * if DistinctDestinations(c) > 1 then DistinctDestinations(c) else 1
  }

  function Resolve(c: Config): Resolved
    requires Bounded(c)
  {
    if c.maxConnections == 0 then ZeroConnections
    else if c.workers % |c.destinations| != 0 then UnevenWorkers
    else if c.maxConnections == -1 then
      Resolved(Budget(c), if c.warmup == -1 then AtLeastOne((Budget(c) as real * c.fraction).Floor) else c.warmup)
    else if c.maxConnections > Budget(c) then OverBudget
    else Resolved(c.maxConnections, c.warmup)
  }

  function PerWorker(r: Resolved, workers: nat): nat
    requires r.Resolved? && workers >= 1
  {
    AtLeastOne(r.maxConnections / workers)
  }

  /** How many connections a worker's pool is asked to warm; the pool refuses more than its
      cap. */
  function WarmupCount(r: Resolved, workers: nat): nat
    requires r.Resolved? && workers >= 1 && r.warmup >= -1
  {
    if r.warmup == 0 then 0
    else if r.warmup == -1 then AtLeastOne(PerWorker(r, workers) / 2)
    else AtLeastOne(r.warmup / workers)
  }

  lemma DivMonotone(a: nat, b: nat, d: nat)
    requires a <= b && d >= 1
    ensures a / d <= b / d
  {
    var x := a / d - b / d;
    assert d * x == d * (a / d) - d * (b / d) < d;
    if x >= 1 { ScaleUp(d, 1, x); }
  }

  lemma ScaleUp(d: nat, x: int, y: int)
    requires x <= y
    ensures d * x <= d * y
  {
  }

  lemma DistinctPositive(c: Config)
    requires c.destinations != []
    ensures DistinctDestinations(c) >= 1
  {
    SubsetSize({c.destinations[0]}, set d | d in c.destinations);
  }

  /** Automatic warm-up never asks a pool for more than its cap; an explicit number does not
      either as long as it is within the connection limit. */
  lemma WarmupFits(c: Config)
    requires Bounded(c) && Resolve(c).Resolved?
    requires c.warmup <= Resolve(c).maxConnections
    ensures WarmupCount(Resolve(c), c.workers) <= PerWorker(Resolve(c), c.workers)
  {
    if c.maxConnections == -1 && c.warmup == -1 {
      FractionBounded(Budget(c), c.fraction);
      BudgetPositive(c);
    }
    ResolvedWarmupFits(Resolve(c), c.workers);
  }

  lemma ResolvedWarmupFits(r: Resolved, workers: nat)
    requires r.Resolved? && workers >= 1 && -1 <= r.warmup <= r.maxConnections
    ensures WarmupCount(r, workers) <= PerWorker(r, workers)
  {
    if r.warmup > 0 { DivMonotone(r.warmup, r.maxConnections, workers); }
  }

  lemma BudgetPositive(c: Config)
    requires Bounded(c)
    ensures Budget(c) >= 1
  {
    ScaleUp(c.ports, 1, if DistinctDestinations(c) > 1 then DistinctDestinations(c) else 1);
  }

  lemma FractionBounded(budget: nat, fraction: real)
    requires 0.0 < fraction <= 1.0
    ensures 0 <= (budget as real * fraction).Floor <= budget
  {
    var x := budget as real * fraction;
    assert x <= budget as real * 1.0;
  }

  /** Which configurations are refused and why, and what the others resolve to: the port
      budget is the range once for every distinct destination. */
  lemma ResolvedExactlyWhen(c: Config)
    requires Bounded(c)
    ensures var r, budget := Resolve(c), c.ports * |Elements(c.destinations)|;
      && (r.ZeroConnections? <==> c.maxConnections == 0)
      && (r.UnevenWorkers? <==> c.maxConnections != 0 && c.workers % |c.destinations| != 0)
      && (r.OverBudget? <==> c.workers % |c.destinations| == 0 && c.maxConnections > budget)
      && (r.Resolved? ==> r.maxConnections == (if c.maxConnections == -1 then budget else c.maxConnections))
      && (r.Resolved? && (c.maxConnections != -1 || c.warmup != -1) ==> r.warmup == c.warmup)
      && (r.Resolved? && c.maxConnections == -1 && c.warmup == -1 ==>
            r.warmup >= 1 && (budget as real * c.fraction >= 1.0 ==> r.warmup == (budget as real * c.fraction).Floor))
  {
    assert (set d | d in c.destinations) == Elements(c.destinations);
    DistinctPositive(c);
    BudgetPositive(c);
    assert Budget(c) == c.ports * |Elements(c.destinations)|;
  }

  /** A pool's cap is the workers' equal share of the limit rounded down, but at least one. */
  lemma PerWorkerExactly(r: Resolved, workers: nat)
    requires r.Resolved? && workers >= 1
    ensures var per := PerWorker(r, workers);
      if r.maxConnections < workers then per == 1 else workers * per <= r.maxConnections < workers * per + workers
  {
    var q := r.maxConnections / workers;
    assert workers * q <= r.maxConnections < workers * q + workers;
    if r.maxConnections >= workers && q < 1 { ScaleUp(workers, q, 0); }
  }

  /** Warm-up is off at zero, half of the cap when automatic, and otherwise the worker's
      share of the number given; each at least one. */
  lemma WarmupExactly(r: Resolved, workers: nat)
    requires r.Resolved? && workers >= 1 && r.warmup >= -1
    ensures var count, per := WarmupCount(r, workers), PerWorker(r, workers);
      && (r.warmup == 0 <==> count == 0)
      && (r.warmup == -1 ==> if per < 2 then count == 1 else 2 * count <= per <= 2 * count + 1)
      && (r.warmup > 0 ==> if r.warmup < workers then count == 1
                           else workers * count <= r.warmup < workers * count + workers)
  {
    if r.warmup > 0 { PerWorkerExactly(Resolved(r.warmup, 0), workers); }
  }

  /** The pools together stay within the connection limit exactly when it is at least one
      connection per worker. */
  lemma PoolsWithinLimitExactlyWhen(r: Resolved, workers: nat)
    requires r.Resolved? && workers >= 1
    ensures workers * PerWorker(r, workers) <= r.maxConnections <==> r.maxConnections >= workers
  {
    var q := r.maxConnections / workers;
    assert workers * q <= r.maxConnections < workers * q + workers;
    if r.maxConnections >= workers {
      assert q >= 1;
    } else {
      assert q == 0 && PerWorker(r, workers) == 1;
    }
  }

  // ---- Destinations

  /** Number of the first `n` workers whose URL has destination `d`. */
  function Pinned(destinations: seq<string>, d: string, n: nat): nat
    requires destinations != []
  {
    if n == 0 then 0
    else Pinned(destinations, d, n - 1) + if destinations[(n - 1) % |destinations|] == d then 1 else 0
  }

  /** How many of the URLs have destination `d`. */
  function Multiplicity(destinations: seq<string>, d: string): nat
    requires destinations != []
  {
    Pinned(destinations, d, |destinations|)
  }

  lemma {:induction false} PinnedRound(destinations: seq<string>, d: string, rounds: nat, k: nat)
    requires destinations != [] && k <= |destinations|
    ensures Pinned(destinations, d, rounds * |destinations| + k)
      == Pinned(destinations, d, rounds * |destinations|) + Pinned(destinations, d, k)
  {
    if k > 0 {
      var n := |destinations|;
      PinnedRound(destinations, d, rounds, k - 1);
      ModOfRound(rounds, n, k - 1);
    }
  }

  /** Quotient and remainder are the only ones. */
  lemma DivUnique(m: nat, n: nat, q: nat, r: nat, p: int)
    requires p == n * q && m == p + r && r < n
    ensures m / n == q && m % n == r
  {
    var x := m / n - q;
    assert n * x == n * (m / n) - p;
    if x >= 1 { ScaleUp(n, 1, x); }
    if x <= -1 { ScaleUp(n, x, -1); }
  }

  lemma ModOfRound(rounds: nat, n: nat, k: nat)
    requires k < n
    ensures (rounds * n + k) % n == k == k % n && (rounds * n + k) / n == rounds
  {
    DivUnique(rounds * n + k, n, rounds, k, rounds * n);
    DivUnique(k, n, 0, k, 0);
  }

  /** An even split pins the same number of workers to every URL. */
  lemma {:induction false} PinnedEvenly(destinations: seq<string>, d: string, rounds: nat)
    requires destinations != []
    ensures Pinned(destinations, d, rounds * |destinations|) == rounds * Multiplicity(destinations, d)
  {
    if rounds > 0 {
      var n, before := |destinations|, (rounds - 1) * |destinations|;
      PinnedEvenly(destinations, d, rounds - 1);
      PinnedRound(destinations, d, rounds - 1, n);
      OneMore(rounds, n);
      OneMore(rounds, Multiplicity(destinations, d));
    }
  }

  lemma OneMore(rounds: nat, n: nat)
    requires rounds > 0
    ensures (rounds - 1) * n + n == rounds * n
  {
  }

  /** Connections all pools together may open to a destination. */
  function LoadOn(c: Config, d: string): nat
    requires Bounded(c) && Resolve(c).Resolved?
  {
    Pinned(c.destinations, d, c.workers) * PerWorker(Resolve(c), c.workers)
  }

  /** For every resolved configuration, a destination gets its share of the workers, each
      with its pool's cap; it fits exactly when that is no more than the port range. */
  lemma LoadFitsExactlyWhen(c: Config, d: string)
    requires Bounded(c) && Resolve(c).Resolved?
    ensures var load := (c.workers / |c.destinations|) * Multiplicity(c.destinations, d)
                        * PerWorker(Resolve(c), c.workers);
      LoadOn(c, d) == load && (LoadOn(c, d) <= c.ports <==> load <= c.ports)
  {
    var n := |c.destinations|;
    assert c.workers == (c.workers / n) * n;
    PinnedEvenly(c.destinations, d, c.workers / n);
  }

  lemma {:induction false} MultiplicityOfDistinct(destinations: seq<string>, d: string, n: nat)
    requires destinations != [] && Distinct(destinations) && n <= |destinations|
    ensures Pinned(destinations, d, n) <= 1
    ensures Pinned(destinations, d, n) == 0 <==> d !in destinations[..n]
  {
    if n > 0 {
      MultiplicityOfDistinct(destinations, d, n - 1);
      ModOfRound(0, |destinations|, n - 1);
      if destinations[n - 1] == d { assert d !in destinations[..n - 1]; }
      assert destinations[..n] == destinations[..n - 1] + [destinations[n - 1]];
    }
  }

  lemma DistinctCount(c: Config)
    requires Distinct(c.destinations) && c.destinations != []
    ensures DistinctDestinations(c) == |c.destinations|
  {
    DistinctSize(c.destinations);
    assert (set d | d in c.destinations) == Elements(c.destinations);
  }

  /** With pairwise distinct destinations a destination fits exactly when it is none of
      them, or the limit allows every worker a connection, or at least its own workers
      are no more than the ports. */
  lemma DistinctDestinationsFitExactlyWhen(c: Config, d: string)
    requires Bounded(c) && Resolve(c).Resolved? && Distinct(c.destinations)
    ensures LoadOn(c, d) <= c.ports
            <==> d !in c.destinations || Resolve(c).maxConnections >= c.workers
                 || c.workers / |c.destinations| <= c.ports
  {
    var n, per := |c.destinations|, PerWorker(Resolve(c), c.workers);
    MultiplicityOfDistinct(c.destinations, d, n);
    assert c.destinations[..n] == c.destinations;
    DistinctCount(c);
    LoadFitsExactlyWhen(c, d);
    if Resolve(c).maxConnections >= c.workers {
      LoadFits(c, d);
    } else {
      SmallLimitMeansOne(Resolve(c), c.workers);
    }
  }

  lemma SmallLimitMeansOne(r: Resolved, workers: nat)
    requires r.Resolved? && r.maxConnections < workers
    ensures PerWorker(r, workers) == 1
  {
  }

  /** More generally the range suffices whenever no destination holds more than its share of
      the URLs. */
  lemma LoadFits(c: Config, d: string)
    requires Bounded(c) && Resolve(c).Resolved? && Resolve(c).maxConnections >= c.workers
    requires Multiplicity(c.destinations, d) * DistinctDestinations(c) <= |c.destinations|
    ensures LoadOn(c, d) <= c.ports
  {
    var n, m, k := |c.destinations|, Multiplicity(c.destinations, d), DistinctDestinations(c);
    var rounds, per := c.workers / n, PerWorker(Resolve(c), c.workers);
    DistinctPositive(c);
    assert c.workers == rounds * n;
    LoadFitsExactlyWhen(c, d);
    PoolsWithinLimitExactlyWhen(Resolve(c), c.workers);
    assert (rounds * n) * per <= c.ports * k;
    Shares(rounds, n, per, m, k, c.ports);
  }

  lemma Shares(rounds: nat, n: nat, per: nat, m: nat, k: nat, ports: nat)
    requires (rounds * n) * per <= ports * k && m * k <= n && k >= 1
    ensures (rounds * m) * per <= ports
  {
    var load := (rounds * m) * per;
    Regroup(rounds, m, per, k);
    ScaleUp(rounds * per, m * k, n);
    SwapFactors(rounds, n, per);
    assert load * k <= ports * k;
    if load > ports { ScaleUp(k, ports + 1, load); }
  }

  lemma SwapFactors(a: nat, b: nat, c: nat)
    ensures (a * c) * b == (a * b) * c
  {
  }

  lemma Regroup(a: nat, b: nat, c: nat, d: nat)
    ensures ((a * b) * c) * d == (a * c) * (b * d)
  {
    SwapFactors(a, b, c);
    var p := a * c;
    assert (p * b) * d == p * (b * d);
  }

  /** Where the budget is the limit and divides evenly, that is the share of the URLs: a
      destination repeated beyond it gets more connections than the range has ports. */
  lemma EvenBudgetFitsExactlyWhen(c: Config, d: string)
    requires Bounded(c) && Resolve(c).Resolved?
    requires Resolve(c).maxConnections == Budget(c) && Budget(c) % c.workers == 0
    ensures LoadOn(c, d) <= c.ports <==> Multiplicity(c.destinations, d) * DistinctDestinations(c) <= |c.destinations|
  {
    var n, m, k := |c.destinations|, Multiplicity(c.destinations, d), DistinctDestinations(c);
    var rounds, q := c.workers / n, Budget(c) / c.workers;
    BudgetPositive(c);
    DistinctPositive(c);
    LoadFitsExactlyWhen(c, d);
    EvenShares(c.workers, n, rounds, Budget(c), q);
    assert Budget(c) == c.ports * k;
    if m * k <= n {
      Shares(rounds, n, q, m, k, c.ports);
    } else {
      Overflows(rounds, n, q, m, k, c.ports);
    }
  }

  lemma EvenShares(workers: nat, n: nat, rounds: nat, budget: nat, q: nat)
    requires workers >= 1 && n >= 1 && budget >= 1 && workers % n == 0 && rounds == workers / n
    requires budget % workers == 0 && q == budget / workers
    ensures workers == rounds * n && budget == (rounds * n) * q && rounds >= 1 && q >= 1
  {
    assert workers == n * rounds && budget == workers * q;
  }

  lemma Overflows(rounds: nat, n: nat, q: nat, m: nat, k: nat, ports: nat)
    requires (rounds * n) * q == ports * k && m * k > n && rounds >= 1 && q >= 1
    ensures (rounds * m) * q > ports
  {
    var load, unit := (rounds * m) * q, rounds * q;
    assert unit >= 1;
    Regroup(rounds, m, q, k);
    ScaleUp(unit, n + 1, m * k);
    SwapFactors(rounds, n, q);
    assert load * k > ports * k;
    if load <= ports { ScaleUp(k, load, ports); }
  }

  /** Four URLs of two destinations on the usual port range, everything automatic but the
      warm-up. */
  function Crowded(): Config {
    Config(4, ["a", "a", "a", "b"], 28232, -1, 0, 0.1)
  }

  /** The check passes, and three workers may open half as many connections again as the
      range has ports. */
  lemma CrowdedOverflows()
    ensures Bounded(Crowded()) && Resolve(Crowded()) == Resolved(56464, 0)
    ensures LoadOn(Crowded(), "a") == 42348 > Crowded().ports
  {
    var c := Crowded();
    assert (set d | d in c.destinations) == {"a", "b"};
    assert Pinned(c.destinations, "a", 1) == 1;
    assert Pinned(c.destinations, "a", 2) == 2;
    assert Pinned(c.destinations, "a", 3) == 3;
  }

  // ---- Issuing queries

  /** Endpoint of the `i`-th query: its worker's URL. */
  function EndpointOf(workers: nat, endpoints: nat, i: nat): nat
    requires workers >= 1 && endpoints >= 1
  {
    (i % workers) % endpoints
  }

  /** Going through the workers in turn goes through the endpoints in turn. */
  lemma EndpointsInTurn(workers: nat, endpoints: nat, i: nat)
    requires workers >= 1 && endpoints >= 1 && workers % endpoints == 0
    ensures EndpointOf(workers, endpoints, i) == i % endpoints
  {
    var rounds, r, e := workers / endpoints, i % workers, (i % workers) % endpoints;
    var turns := (i / workers) * rounds + r / endpoints;
    assert i == workers * (i / workers) + r && workers == rounds * endpoints && r == endpoints * (r / endpoints) + e;
    assert workers * (i / workers) == ((i / workers) * rounds) * endpoints;
    assert i == turns * endpoints + e;
    ModOfRound(turns, endpoints, e);
  }

  function Received(workers: nat, endpoints: nat, e: nat, queries: nat): nat
    requires workers >= 1 && endpoints >= 1
  {
    if queries == 0 then 0
    else
      Received(workers, endpoints, e, queries - 1)
      + if EndpointOf(workers, endpoints, queries - 1) == e then 1 else 0
  }

  /** After any number of queries each endpoint has its exact share, up to one. */
  lemma {:induction false} EveryPrefixBalanced(workers: nat, endpoints: nat, e: nat, queries: nat)
    requires workers >= 1 && endpoints >= 1 && workers % endpoints == 0 && e < endpoints
    ensures Received(workers, endpoints, e, queries) == queries / endpoints + if e < queries % endpoints then 1 else 0
  {
    if queries == 0 {
      ModOfRound(0, endpoints, 0);
    } else {
      var last := queries - 1;
      EveryPrefixBalanced(workers, endpoints, e, last);
      EndpointsInTurn(workers, endpoints, last);
      NextInCycle(last, endpoints);
    }
  }

  /** The client: a cycle over the workers, and a count of queries dropped at shutdown. */
  class Client {
    const workers: nat
    var next: nat
    var shutdown: bool
    var dropped: nat
    var sent: seq<nat>     // the worker of each query handed over

    ghost predicate Valid()
      reads this
    {
      workers >= 1 && next == |sent| % workers && forall i :: 0 <= i < |sent| ==> sent[i] == i % workers
    }

    constructor (workers: nat)
      requires workers >= 1
      ensures Valid() && this.workers == workers && sent == [] && dropped == 0 && !shutdown
    {
      this.workers, next, shutdown, dropped, sent := workers, 0, false, 0, [];
    }

    /** A query goes to the next worker in turn, or is dropped and disturbs nothing. */
    method Issue()
      requires Valid()
      modifies this
      ensures Valid() && shutdown == old(shutdown)
      ensures if old(shutdown) then sent == old(sent) && dropped == old(dropped) + 1
        else sent == old(sent) + [|old(sent)| % workers] && dropped == old(dropped)
    {
      if shutdown {
        dropped := dropped + 1;
      } else {
        NextInCycle(|sent|, workers);
        sent := sent + [next];
        next := if next + 1 == workers then 0 else next + 1;
      }
    }
  }

  lemma NextInCycle(n: nat, workers: nat)
    requires workers >= 1
    ensures (n + 1) % workers == if n % workers + 1 == workers then 0 else n % workers + 1
    ensures (n + 1) / workers == n / workers + if n % workers + 1 == workers then 1 else 0
  {
    var q, r := n / workers, n % workers;
    var p := workers * q;
    if r + 1 < workers {
      DivUnique(n + 1, workers, q, r + 1, p);
    } else {
      DivUnique(n + 1, workers, q + 1, 0, p + workers);
    }
  }
}
