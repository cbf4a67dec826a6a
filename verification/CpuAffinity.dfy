/** Partitioning the online CPUs between the load generator and the workers, whole physical
    cores at a time. What the system reports about CPUs is given. */
module CpuAffinity {
  import opened Collections
  import opened Sorting

  /** The online CPUs, what is known of each, and their ranking (fastest first). */
  datatype Topology = Topology(
    online: seq<int>,
    physical: int -> Option<int>,
    numa: int -> Option<int>,
    ranked: seq<int>)

  /** CPUs are listed once, and the ranking lists the same ones. */
  ghost predicate Ranks(t: Topology) {
    Distinct(t.online) && Distinct(t.ranked) && Elements(t.ranked) == Elements(t.online)
  }

  datatype Core = Core(numa: int, physical: int)

  /** An unknown core id is the CPU's own number; an unknown node is node 0. */
  function CoreOf(t: Topology, cpu: int): Core {
    Core(if t.numa(cpu).Some? then t.numa(cpu).value else 0,
         if t.physical(cpu).Some? then t.physical(cpu).value else cpu)
  }

  /** Two CPUs are taken for one core exactly when their nodes agree, an unknown one being
      node 0, and so do their core ids; the number of a CPU stands in for an unknown id,
      so it can meet the known id of another. */
  lemma SameCoreExactlyWhen(t: Topology, c: int, d: int)
    ensures CoreOf(t, c) == CoreOf(t, d) <==>
      && (t.numa(c) == t.numa(d)
          || (t.numa(c) == None && t.numa(d) == Some(0)) || (t.numa(c) == Some(0) && t.numa(d) == None))
      && match (t.physical(c), t.physical(d))
         case (Some(a), Some(b)) => a == b
         case (None, None) => c == d
         case (Some(a), None) => a == d
         case (None, Some(b)) => b == c
  {
  }

  // ---- Cores

  function CoresOf(t: Topology, cpus: seq<int>): seq<Core> {
    if cpus == [] then []
    else
      var before, core := CoresOf(t, cpus[..|cpus| - 1]), CoreOf(t, cpus[|cpus| - 1]);
      if core in before then before else before + [core]
  }

  function Members(t: Topology, cpus: seq<int>, core: Core): seq<int> {
    if cpus == [] then []
    else Members(t, cpus[..|cpus| - 1], core) + if CoreOf(t, cpus[|cpus| - 1]) == core then [cpus[|cpus| - 1]] else []
  }

  lemma {:induction false} CoresOfOk(t: Topology, cpus: seq<int>)
    ensures Distinct(CoresOf(t, cpus))
    ensures forall core :: core in CoresOf(t, cpus) <==> exists c :: c in cpus && CoreOf(t, c) == core
  {
    if cpus != [] {
      var n := |cpus| - 1;
      CoresOfOk(t, cpus[..n]);
      assert cpus == cpus[..n] + [cpus[n]];
      assert forall c :: c in cpus <==> c in cpus[..n] || c == cpus[n];
    }
  }

  lemma {:induction false} MembersOk(t: Topology, cpus: seq<int>, core: Core)
    ensures forall c :: c in Members(t, cpus, core) <==> c in cpus && CoreOf(t, c) == core
    ensures Distinct(cpus) ==> Distinct(Members(t, cpus, core))
  {
    if cpus != [] {
      var n := |cpus| - 1;
      MembersOk(t, cpus[..n], core);
      LastElement(cpus);
      assert forall c :: c in Elements(cpus) <==> c in Elements(cpus[..n]) || c == cpus[n];
    }
  }

  /** Position in the ranking, or its length. */
  function RankOf(ranked: seq<int>, cpu: int): (r: nat)
    ensures r <= |ranked|
  {
    if ranked == [] || ranked[0] == cpu then 0 else 1 + RankOf(ranked[1..], cpu)
  }

  /** A core ranks as its best CPU. */
  function BestRank(ranked: seq<int>, cpus: seq<int>): (r: nat)
    ensures r <= |ranked|
  {
    if cpus == [] then |ranked|
    else
      var rest, own := BestRank(ranked, cpus[1..]), RankOf(ranked, cpus[0]);
      if own < rest then own else rest
  }

  lemma {:induction false} BestRankOk(ranked: seq<int>, cpus: seq<int>)
    ensures BestRank(ranked, cpus) < |ranked| ==> ranked[BestRank(ranked, cpus)] in cpus
    ensures forall c :: c in cpus ==> BestRank(ranked, cpus) <= RankOf(ranked, c)
  {
    if cpus != [] {
      BestRankOk(ranked, cpus[1..]);
      assert cpus == [cpus[0]] + cpus[1..];
      if RankOf(ranked, cpus[0]) < |ranked| { RankFinds(ranked, cpus[0]); }
    }
  }

  function CoreRank(t: Topology): Core -> int {
    core => BestRank(t.ranked, Members(t, t.online, core))
  }

  function InNode(cores: seq<Core>, numa: int): seq<Core> {
    if cores == [] then []
    else InNode(cores[..|cores| - 1], numa) + if cores[|cores| - 1].numa == numa then [cores[|cores| - 1]] else []
  }

  lemma {:induction false} InNodeOk(cores: seq<Core>, numa: int)
    ensures forall c :: c in InNode(cores, numa) <==> c in cores && c.numa == numa
    ensures Distinct(cores) ==> Distinct(InNode(cores, numa))
  {
    if cores != [] {
      var n := |cores| - 1;
      InNodeOk(cores[..n], numa);
      LastElement(cores);
      assert forall c :: c in Elements(cores) <==> c in Elements(cores[..n]) || c == cores[n];
    }
  }

  /** The other nodes, in order of discovery. */
  function OtherNodes(cores: seq<Core>, primary: int): seq<int> {
    if cores == [] then []
    else
      var before, numa := OtherNodes(cores[..|cores| - 1], primary), cores[|cores| - 1].numa;
      if numa == primary || numa in before then before else before + [numa]
  }

  lemma {:induction false} OtherNodesOk(cores: seq<Core>, primary: int)
    ensures Distinct(OtherNodes(cores, primary))
    ensures forall n :: n in OtherNodes(cores, primary) <==> n != primary && exists c :: c in cores && c.numa == n
  {
    if cores != [] {
      var n := |cores| - 1;
      OtherNodesOk(cores[..n], primary);
      assert cores == cores[..n] + [cores[n]];
      assert forall c :: c in cores <==> c in cores[..n] || c == cores[n];
    }
  }

  function MinRank(t: Topology, cores: seq<Core>): int {
    if cores == [] then |t.ranked|
    else
      var rest, own := MinRank(t, cores[1..]), CoreRank(t)(cores[0]);
      if own < rest then own else rest
  }

  /** A node ranks as its best core. */
  function NodeRank(t: Topology, cores: seq<Core>): int -> int {
    numa => MinRank(t, InNode(cores, numa))
  }

  function NodeCores(t: Topology, cores: seq<Core>, numa: int): seq<Core> {
    SortBy(CoreRank(t), InNode(cores, numa))
  }

  function CoresOfNodes(t: Topology, cores: seq<Core>, nodes: seq<int>): seq<Core> {
    if nodes == [] then []
    else CoresOfNodes(t, cores, nodes[..|nodes| - 1]) + NodeCores(t, cores, nodes[|nodes| - 1])
  }

  lemma {:induction false} CoresOfNodesOk(t: Topology, cores: seq<Core>, nodes: seq<int>)
    requires Distinct(cores) && Distinct(nodes)
    ensures Distinct(CoresOfNodes(t, cores, nodes))
    ensures forall c :: c in CoresOfNodes(t, cores, nodes) <==> c in cores && c.numa in nodes
  {
    if nodes != [] {
      var n := |nodes| - 1;
      CoresOfNodesOk(t, cores, nodes[..n]);
      NodeCoresOk(t, cores, nodes[n]);
      assert nodes == nodes[..n] + [nodes[n]];
      DistinctConcat(CoresOfNodes(t, cores, nodes[..n]), NodeCores(t, cores, nodes[n]));
    }
  }

  lemma NodeCoresOk(t: Topology, cores: seq<Core>, numa: int)
    ensures Distinct(cores) ==> Distinct(NodeCores(t, cores, numa))
    ensures forall c :: c in NodeCores(t, cores, numa) <==> c in cores && c.numa == numa
    ensures Ordered(CoreRank(t), NodeCores(t, cores, numa))
  {
    InNodeOk(cores, numa);
    SortByOk(CoreRank(t), InNode(cores, numa));
    forall c ensures c in NodeCores(t, cores, numa) <==> c in cores && c.numa == numa {
      assert c in Elements(NodeCores(t, cores, numa)) <==> c in Elements(InNode(cores, numa));
    }
  }

  // ---- The plan

  /** Where Python cuts a list of `n` at `k`, which may be negative. */
  function Cut(k: int, n: nat): (c: nat)
    ensures c <= n
  {
    var actual := if k < n then k else n;
    if actual >= 0 then actual else if n + actual > 0 then n + actual else 0
  }

  /** The cores of the other nodes, best node first. */
  function OtherCores(t: Topology, cores: seq<Core>, primary: int): seq<Core> {
    CoresOfNodes(t, cores, SortBy(NodeRank(t, cores), OtherNodes(cores, primary)))
  }

  lemma OtherCoresOk(t: Topology, cores: seq<Core>, primary: int)
    requires Distinct(cores)
    ensures Distinct(OtherCores(t, cores, primary))
    ensures forall c :: c in OtherCores(t, cores, primary) <==> c in cores && c.numa != primary
  {
    var others, nodes := OtherNodes(cores, primary), SortBy(NodeRank(t, cores), OtherNodes(cores, primary));
    OtherNodesOk(cores, primary);
    SortByOk(NodeRank(t, cores), others);
    CoresOfNodesOk(t, cores, nodes);
    forall n ensures n in nodes <==> n in others {
      assert n in Elements(nodes) <==> n in Elements(others);
    }
  }

  datatype Split = Split(primary: int, loadgen: seq<Core>, workers: seq<Core>)

  function SplitCores(t: Topology, k: int): Split
    requires t.ranked != []
  {
    var cores, primary := CoresOf(t, t.online), CoreOf(t, t.ranked[0]).numa;
    var own := NodeCores(t, cores, primary);
    var cut := Cut(k, |own|);
    Split(primary, own[..cut], own[cut..] + OtherCores(t, cores, primary))
  }

  lemma CutAndRejoin<T>(own: seq<T>, others: seq<T>, cut: nat)
    requires cut <= |own| && Distinct(own) && Distinct(others) && forall x :: x in others ==> x !in own
    ensures Distinct(own[..cut] + (own[cut..] + others))
    ensures forall x :: x in own[..cut] + (own[cut..] + others) <==> x in own || x in others
    ensures forall x :: x in own[..cut] ==> x in own
    ensures forall x :: x in own[cut..] + others ==> x in own[cut..] || x in others
  {
    assert own[..cut] + (own[cut..] + others) == own + others;
    DistinctConcat(own, others);
  }

  /** Every core is given out once. */
  lemma CoresGivenOnce(t: Topology, k: int)
    requires t.ranked != []
    ensures var s := SplitCores(t, k);
      Distinct(s.loadgen + s.workers)
      && (forall c :: c in s.loadgen + s.workers <==> c in CoresOf(t, t.online))
      && (forall c :: c in s.loadgen ==> c.numa == s.primary)
  {
    var cores, primary := CoresOf(t, t.online), CoreOf(t, t.ranked[0]).numa;
    var own, others := NodeCores(t, cores, primary), OtherCores(t, cores, primary);
    CoresOfOk(t, t.online);
    OtherCoresOk(t, cores, primary);
    NodeCoresOk(t, cores, primary);
    CutAndRejoin(own, others, Cut(k, |own|));
  }

  /** A core's rank is the position of its best CPU, so ranks tell cores apart. */
  lemma RankOfCore(t: Topology, core: Core)
    requires Ranks(t) && core in CoresOf(t, t.online)
    ensures var r := CoreRank(t)(core);
      0 <= r < |t.ranked| && CoreOf(t, t.ranked[r]) == core
      && forall j :: 0 <= j < r ==> CoreOf(t, t.ranked[j]) != core
  {
    var members, r := Members(t, t.online, core), CoreRank(t)(core);
    MembersOk(t, t.online, core);
    CoresOfOk(t, t.online);
    BestRankOk(t.ranked, members);
    var c :| c in t.online && CoreOf(t, c) == core;
    assert c in Elements(t.ranked);
    RankFinds(t.ranked, c);
    assert r <= RankOf(t.ranked, c);
    forall j | 0 <= j < r ensures CoreOf(t, t.ranked[j]) != core {
      assert t.ranked[j] in Elements(t.ranked) && t.ranked[j] in Elements(t.online);
      RankFinds(t.ranked, t.ranked[j]);
    }
  }

  lemma {:induction false} RankFinds(ranked: seq<int>, cpu: int)
    ensures cpu in ranked <==> RankOf(ranked, cpu) < |ranked|
    ensures RankOf(ranked, cpu) < |ranked| ==> ranked[RankOf(ranked, cpu)] == cpu
    ensures forall k :: 0 <= k < |ranked| && ranked[k] == cpu ==> RankOf(ranked, cpu) <= k
  {
    if ranked != [] && ranked[0] != cpu {
      RankFinds(ranked[1..], cpu);
      assert forall k :: 0 < k < |ranked| ==> ranked[k] == ranked[1..][k - 1];
    }
  }

  /** With at least one core asked for, the load generator gets the fastest CPU's core. */
  lemma FastestInLoadgen(t: Topology, k: int)
    requires Ranks(t) && t.ranked != [] && k >= 1
    ensures CoreOf(t, t.ranked[0]) in SplitCores(t, k).loadgen
  {
    var cores, fastest := CoresOf(t, t.online), CoreOf(t, t.ranked[0]);
    var own := NodeCores(t, cores, fastest.numa);
    assert t.ranked[0] in Elements(t.online);
    CoresOfOk(t, t.online);
    NodeCoresOk(t, cores, fastest.numa);
    assert fastest in own;
    RankOfCore(t, fastest);
    RankOfCore(t, own[0]);
    var i :| 0 <= i < |own| && own[i] == fastest;
    assert CoreRank(t)(own[0]) <= CoreRank(t)(own[i]);
    assert own[0] == fastest;
  }

  lemma SortedRanksIncrease(t: Topology, own: seq<Core>, i: nat, j: nat)
    requires Ranks(t) && Distinct(own) && Ordered(CoreRank(t), own) && i < j < |own|
    requires own[i] in CoresOf(t, t.online) && own[j] in CoresOf(t, t.online)
    ensures CoreRank(t)(own[i]) < CoreRank(t)(own[j])
  {
    RankOfCore(t, own[i]);
    RankOfCore(t, own[j]);
    assert CoreRank(t)(own[i]) <= CoreRank(t)(own[j]) && own[i] != own[j];
  }

  /** On the primary node every core of the load generator is faster than every core left to
      the workers. */
  lemma LoadgenFasterOnPrimary(t: Topology, k: int, a: Core, b: Core)
    requires Ranks(t) && t.ranked != []
    requires a in SplitCores(t, k).loadgen && b in SplitCores(t, k).workers && b.numa == SplitCores(t, k).primary
    ensures CoreRank(t)(a) < CoreRank(t)(b)
  {
    var cores, primary := CoresOf(t, t.online), CoreOf(t, t.ranked[0]).numa;
    var own, others := NodeCores(t, cores, primary), OtherCores(t, cores, primary);
    CoresOfOk(t, t.online);
    NodeCoresOk(t, cores, primary);
    OtherCoresOk(t, cores, primary);
    var i, j := CutPositions(own, others, Cut(k, |own|), a, b);
    SortedRanksIncrease(t, own, i, j);
  }

  lemma CutPositions<T>(own: seq<T>, others: seq<T>, cut: nat, a: T, b: T) returns (i: nat, j: nat)
    requires cut <= |own| && a in own[..cut] && b in own[cut..] + others && b !in others
    ensures i < cut <= j < |own| && own[i] == a && own[j] == b
  {
    i :| 0 <= i < cut && own[i] == a;
    j :| cut <= j < |own| && own[j] == b;
  }

  /** The load generator gets as many cores as asked for, or all of the fastest CPU's node;
      a negative number leaves that many of them out. */
  lemma LoadgenSize(t: Topology, k: int)
    requires t.ranked != []
    ensures SplitCores(t, k).primary == CoreOf(t, t.ranked[0]).numa
    ensures var own := |InNode(CoresOf(t, t.online), CoreOf(t, t.ranked[0]).numa)|;
      |SplitCores(t, k).loadgen| == if k >= own then own else if k >= 0 then k else if own + k > 0 then own + k else 0
  {
    var cores, primary := CoresOf(t, t.online), CoreOf(t, t.ranked[0]).numa;
    SortByPermutes(CoreRank(t), InNode(cores, primary));
  }

  /** A node's rank is that of its best core. */
  lemma {:induction false} MinRankAt(t: Topology, cores: seq<Core>) returns (best: Core)
    requires cores != []
    ensures best in cores && MinRank(t, cores) == CoreRank(t)(best)
    ensures forall c :: c in cores ==> MinRank(t, cores) <= CoreRank(t)(c)
  {
    best := cores[0];
    assert cores == [cores[0]] + cores[1..];
    if |cores| > 1 {
      var other := MinRankAt(t, cores[1..]);
      if !(CoreRank(t)(best) < CoreRank(t)(other)) { best := other; }
    }
  }

  lemma RankOfNode(t: Topology, numa: int)
    requires Ranks(t) && exists c :: c in CoresOf(t, t.online) && c.numa == numa
    ensures var r := NodeRank(t, CoresOf(t, t.online))(numa);
      0 <= r < |t.ranked| && CoreOf(t, t.ranked[r]).numa == numa
      && forall j :: 0 <= j < r ==> CoreOf(t, t.ranked[j]).numa != numa
  {
    var cores := CoresOf(t, t.online);
    var own := InNode(cores, numa);
    InNodeOk(cores, numa);
    var some :| some in cores && some.numa == numa;
    assert some in own;
    var best := MinRankAt(t, own);
    var r := NodeRank(t, cores)(numa);
    RankOfCore(t, best);
    forall j | 0 <= j < r ensures CoreOf(t, t.ranked[j]).numa != numa {
      var core := CoreOf(t, t.ranked[j]);
      RankedCpuHasCore(t, j);
      if core.numa == numa {
        assert core in own;
        RankOfCore(t, core);
      }
    }
  }

  lemma RankedCpuHasCore(t: Topology, j: nat)
    requires Ranks(t) && j < |t.ranked|
    ensures CoreOf(t, t.ranked[j]) in CoresOf(t, t.online)
  {
    assert t.ranked[j] in Elements(t.online);
    CoresOfOk(t, t.online);
  }

  /** Some CPU of the core or node comes before all of the other. */
  ghost predicate CoreBefore(t: Topology, a: Core, b: Core) {
    exists p :: 0 <= p < |t.ranked| && CoreOf(t, t.ranked[p]) == a
                && forall q :: 0 <= q <= p ==> CoreOf(t, t.ranked[q]) != b
  }

  ghost predicate NodeBefore(t: Topology, a: int, b: int) {
    exists p :: 0 <= p < |t.ranked| && CoreOf(t, t.ranked[p]).numa == a
                && forall q :: 0 <= q <= p ==> CoreOf(t, t.ranked[q]).numa != b
  }

  lemma BetterCoreBefore(t: Topology, a: Core, b: Core)
    requires Ranks(t) && a in CoresOf(t, t.online) && b in CoresOf(t, t.online) && a != b
    requires CoreRank(t)(a) <= CoreRank(t)(b)
    ensures CoreBefore(t, a, b)
  {
    RankOfCore(t, a);
    RankOfCore(t, b);
  }

  lemma BetterNodeBefore(t: Topology, a: Core, b: Core)
    requires Ranks(t) && a in CoresOf(t, t.online) && b in CoresOf(t, t.online) && a.numa != b.numa
    requires NodeRank(t, CoresOf(t, t.online))(a.numa) <= NodeRank(t, CoresOf(t, t.online))(b.numa)
    ensures NodeBefore(t, a.numa, b.numa)
  {
    RankOfNode(t, a.numa);
    RankOfNode(t, b.numa);
  }

  /** The better core of a node first, the primary node first, then the better node. */
  ghost predicate WorksBefore(t: Topology, primary: int, a: Core, b: Core) {
    if a.numa == b.numa then CoreBefore(t, a, b)
    else a.numa == primary || (b.numa != primary && NodeBefore(t, a.numa, b.numa))
  }

  ghost predicate InRow<T>(before: (T, T) -> bool, s: seq<T>) {
    forall i, j :: 0 <= i < j < |s| ==> before(s[i], s[j])
  }

  lemma InRowConcat<T>(before: (T, T) -> bool, a: seq<T>, b: seq<T>)
    requires InRow(before, a) && InRow(before, b) && forall x, y :: x in a && y in b ==> before(x, y)
    ensures InRow(before, a + b)
  {
  }

  lemma InRowFrom<T>(before: (T, T) -> bool, s: seq<T>, n: nat)
    requires n <= |s| && InRow(before, s)
    ensures InRow(before, s[n..])
  {
  }

  ghost function Works(t: Topology, primary: int): (Core, Core) -> bool {
    (a: Core, b: Core) => WorksBefore(t, primary, a, b)
  }

  lemma NodePairWorks(t: Topology, numa: int, primary: int, i: nat, j: nat)
    requires Ranks(t) && i < j < |NodeCores(t, CoresOf(t, t.online), numa)|
    ensures var own := NodeCores(t, CoresOf(t, t.online), numa); WorksBefore(t, primary, own[i], own[j])
  {
    var cores := CoresOf(t, t.online);
    var own := NodeCores(t, cores, numa);
    CoresOfOk(t, t.online);
    NodeCoresOk(t, cores, numa);
    assert own[i] in own && own[j] in own;
    BetterCoreBefore(t, own[i], own[j]);
  }

  lemma NodeInRow(t: Topology, numa: int, primary: int)
    requires Ranks(t)
    ensures InRow(Works(t, primary), NodeCores(t, CoresOf(t, t.online), numa))
  {
    var own := NodeCores(t, CoresOf(t, t.online), numa);
    forall i, j | 0 <= i < j < |own| ensures WorksBefore(t, primary, own[i], own[j]) {
      NodePairWorks(t, numa, primary, i, j);
    }
  }

  lemma TwoNodesWork(t: Topology, nodes: seq<int>, primary: int, a: Core, b: Core)
    requires Ranks(t) && nodes != [] && Distinct(nodes) && primary !in nodes
    requires Ordered(NodeRank(t, CoresOf(t, t.online)), nodes)
    requires a in CoresOfNodes(t, CoresOf(t, t.online), nodes[..|nodes| - 1])
    requires b in NodeCores(t, CoresOf(t, t.online), nodes[|nodes| - 1])
    ensures WorksBefore(t, primary, a, b)
  {
    var cores, n := CoresOf(t, t.online), |nodes| - 1;
    CoresOfOk(t, t.online);
    CoresOfNodesOk(t, cores, nodes[..n]);
    NodeCoresOk(t, cores, nodes[n]);
    var m :| 0 <= m < n && nodes[m] == a.numa;
    assert NodeRank(t, cores)(nodes[m]) <= NodeRank(t, cores)(nodes[n]);
    BetterNodeBefore(t, a, b);
  }

  lemma FrontNodes(nodes: seq<int>, rank: int -> int)
    requires nodes != [] && Distinct(nodes) && Ordered(rank, nodes)
    ensures Distinct(nodes[..|nodes| - 1]) && Ordered(rank, nodes[..|nodes| - 1])
  {
  }

  lemma {:induction false} NodesInRow(t: Topology, nodes: seq<int>, primary: int)
    requires Ranks(t) && Distinct(nodes) && primary !in nodes && Ordered(NodeRank(t, CoresOf(t, t.online)), nodes)
    ensures InRow(Works(t, primary), CoresOfNodes(t, CoresOf(t, t.online), nodes))
  {
    if nodes != [] {
      var cores, n := CoresOf(t, t.online), |nodes| - 1;
      var front, last := CoresOfNodes(t, cores, nodes[..n]), NodeCores(t, cores, nodes[n]);
      FrontNodes(nodes, NodeRank(t, cores));
      NodesInRow(t, nodes[..n], primary);
      NodeInRow(t, nodes[n], primary);
      forall a, b | a in front && b in last ensures WorksBefore(t, primary, a, b) {
        TwoNodesWork(t, nodes, primary, a, b);
      }
      InRowConcat(Works(t, primary), front, last);
    }
  }

  lemma OthersInRow(t: Topology, primary: int)
    requires Ranks(t)
    ensures InRow(Works(t, primary), OtherCores(t, CoresOf(t, t.online), primary))
  {
    var cores := CoresOf(t, t.online);
    var others, nodes := OtherNodes(cores, primary), SortBy(NodeRank(t, cores), OtherNodes(cores, primary));
    OtherNodesOk(cores, primary);
    SortByOk(NodeRank(t, cores), others);
    assert primary !in nodes by { NotIn(primary, nodes, others); }
    NodesInRow(t, nodes, primary);
  }

  lemma OwnAndOther(t: Topology, primary: int, a: Core, b: Core)
    requires a in NodeCores(t, CoresOf(t, t.online), primary) && b in OtherCores(t, CoresOf(t, t.online), primary)
    ensures WorksBefore(t, primary, a, b)
  {
    CoresOfOk(t, t.online);
    NodeCoresOk(t, CoresOf(t, t.online), primary);
    OtherCoresOk(t, CoresOf(t, t.online), primary);
  }

  /** The workers get the rest of the primary node first and then the other nodes, the node
      with the fastest CPU first, and within a node the faster cores first. */
  lemma WorkersInOrder(t: Topology, k: int, i: nat, j: nat)
    requires Ranks(t) && t.ranked != [] && i < j < |SplitCores(t, k).workers|
    ensures WorksBefore(t, CoreOf(t, t.ranked[0]).numa, SplitCores(t, k).workers[i], SplitCores(t, k).workers[j])
  {
    var cores, primary := CoresOf(t, t.online), CoreOf(t, t.ranked[0]).numa;
    var own, others := NodeCores(t, cores, primary), OtherCores(t, cores, primary);
    var cut := Cut(k, |own|);
    NodeInRow(t, primary, primary);
    InRowFrom(Works(t, primary), own, cut);
    OthersInRow(t, primary);
    forall a, b | a in own[cut..] && b in others ensures WorksBefore(t, primary, a, b) {
      assert a in own;
      OwnAndOther(t, primary, a, b);
    }
    InRowConcat(Works(t, primary), own[cut..], others);
    assert Works(t, primary)(SplitCores(t, k).workers[i], SplitCores(t, k).workers[j]);
  }

  // ---- CPUs

  datatype Plan = Plan(loadgenCpus: seq<int>, workerCpuSets: seq<seq<int>>, loadgenPhysicalCores: nat, primaryNuma: int)

  function Itself(): int -> int {
    cpu => cpu
  }

  function CpusOf(t: Topology, cores: seq<Core>): seq<int> {
    if cores == [] then [] else CpusOf(t, cores[..|cores| - 1]) + Members(t, t.online, cores[|cores| - 1])
  }

  function WorkerSets(t: Topology, cores: seq<Core>): (sets: seq<seq<int>>)
    ensures |sets| == |cores|
    ensures forall k :: 0 <= k < |cores| ==> sets[k] == SortBy(Itself(), Members(t, t.online, cores[k]))
  {
    if cores == [] then []
    else WorkerSets(t, cores[..|cores| - 1]) + [SortBy(Itself(), Members(t, t.online, cores[|cores| - 1]))]
  }

  function PlanFor(t: Topology, k: int): Plan
    requires t.online != [] ==> t.ranked != []
  {
    if t.online == [] then Plan([], [], 0, 0)
    else
      var s := SplitCores(t, k);
      Plan(SortBy(Itself(), CpusOf(t, s.loadgen)), WorkerSets(t, s.workers), |s.loadgen|, s.primary)
  }

  lemma {:induction false} CpusOfOk(t: Topology, cores: seq<Core>)
    requires Distinct(t.online) && Distinct(cores)
    ensures Distinct(CpusOf(t, cores))
    ensures forall c :: c in CpusOf(t, cores) <==> c in t.online && CoreOf(t, c) in cores
  {
    if cores != [] {
      var n := |cores| - 1;
      CpusOfOk(t, cores[..n]);
      MembersOk(t, t.online, cores[n]);
      assert cores == cores[..n] + [cores[n]];
      forall x | x in Members(t, t.online, cores[n]) ensures x !in CpusOf(t, cores[..n]) {
        assert CoreOf(t, x) == cores[n] && cores[n] !in cores[..n];
      }
      DistinctConcat(CpusOf(t, cores[..n]), Members(t, t.online, cores[n]));
    }
  }

  lemma CpuSetOk(t: Topology, core: Core)
    requires Distinct(t.online)
    ensures var cpus := SortBy(Itself(), Members(t, t.online, core));
      Distinct(cpus) && Ordered(Itself(), cpus) && forall c :: c in cpus <==> c in t.online && CoreOf(t, c) == core
  {
    var members := Members(t, t.online, core);
    MembersOk(t, t.online, core);
    SortByOk(Itself(), members);
    forall c ensures c in SortBy(Itself(), members) <==> c in members {
      assert c in Elements(SortBy(Itself(), members)) <==> c in Elements(members);
    }
  }

  /** The plan hands out whole cores: the load generator's CPUs are those of its cores, and
      each worker set is all CPUs of one core, the cores being distinct and together all. */
  lemma PlanPartitionsCpus(t: Topology, k: int)
    requires Ranks(t) && t.online != []
    ensures t.ranked != []
    ensures var p, s := PlanFor(t, k), SplitCores(t, k);
      Distinct(p.loadgenCpus) && |p.workerCpuSets| == |s.workers| && Distinct(s.loadgen + s.workers)
      && (forall c :: c in p.loadgenCpus <==> c in t.online && CoreOf(t, c) in s.loadgen)
      && (forall i :: 0 <= i < |s.workers| ==> WholeCore(t, p.workerCpuSets[i], s.workers[i]))
      && (forall c :: c in t.online ==> CoreOf(t, c) in s.loadgen + s.workers)
  {
    assert t.online[0] in Elements(t.ranked);
    var s := SplitCores(t, k);
    CoresGivenOnce(t, k);
    CoresOfOk(t, t.online);
    DistinctPrefix(s.loadgen, s.workers);
    CpusOfOk(t, s.loadgen);
    SortByOk(Itself(), CpusOf(t, s.loadgen));
    var p := PlanFor(t, k);
    forall c ensures c in p.loadgenCpus <==> c in t.online && CoreOf(t, c) in s.loadgen {
      assert c in Elements(p.loadgenCpus) <==> c in Elements(CpusOf(t, s.loadgen));
    }
    forall i | 0 <= i < |s.workers| ensures WholeCore(t, p.workerCpuSets[i], s.workers[i]) {
      CpuSetOk(t, s.workers[i]);
    }
  }

  ghost predicate WholeCore(t: Topology, cpus: seq<int>, core: Core) {
    Distinct(cpus) && forall c :: c in cpus <==> c in t.online && CoreOf(t, c) == core
  }

  lemma DistinctPrefix<T>(a: seq<T>, b: seq<T>)
    requires Distinct(a + b)
    ensures Distinct(a) && Distinct(b)
  {
    assert forall i :: 0 <= i < |a| ==> (a + b)[i] == a[i];
    assert forall i :: 0 <= i < |b| ==> (a + b)[|a| + i] == b[i];
  }

  /** Every list of CPUs is ascending, and the plan says how many cores and which node the
      load generator has; without CPUs the plan is empty. */
  lemma PlanIsSorted(t: Topology, k: int)
    requires t.online != [] ==> t.ranked != []
    ensures var p := PlanFor(t, k);
      && (forall i, j :: 0 <= i < j < |p.loadgenCpus| ==> p.loadgenCpus[i] <= p.loadgenCpus[j])
      && (forall n :: 0 <= n < |p.workerCpuSets| ==> Ordered(Itself(), p.workerCpuSets[n]))
      && (t.online == [] ==> p.loadgenCpus == [] && p.workerCpuSets == [])
      && (t.online != [] ==>
            p.loadgenPhysicalCores == |SplitCores(t, k).loadgen| && p.primaryNuma == CoreOf(t, t.ranked[0]).numa)
  {
    if t.online != [] {
      var s, p := SplitCores(t, k), PlanFor(t, k);
      SortByOrders(Itself(), CpusOf(t, s.loadgen));
      forall i, j | 0 <= i < j < |p.loadgenCpus| ensures p.loadgenCpus[i] <= p.loadgenCpus[j] {
        assert Itself()(p.loadgenCpus[i]) <= Itself()(p.loadgenCpus[j]);
      }
      forall n | 0 <= n < |p.workerCpuSets| ensures Ordered(Itself(), p.workerCpuSets[n]) {
        SortByOrders(Itself(), Members(t, t.online, s.workers[n]));
      }
    }
  }

  ghost predicate InSet(p: Plan, i: nat, cpu: int) {
    i < |p.workerCpuSets| && cpu in p.workerCpuSets[i]
  }

  lemma SetsAreCores(t: Topology, k: int, i: nat, c: int)
    requires Ranks(t) && t.ranked != []
    ensures InSet(PlanFor(t, k), i, c) <==>
      c in t.online && i < |SplitCores(t, k).workers| && CoreOf(t, c) == SplitCores(t, k).workers[i]
    ensures c in PlanFor(t, k).loadgenCpus <==> c in t.online && CoreOf(t, c) in SplitCores(t, k).loadgen
  {
    assert t.ranked[0] in Elements(t.online);
    PlanPartitionsCpus(t, k);
    if i < |SplitCores(t, k).workers| {
      assert WholeCore(t, PlanFor(t, k).workerCpuSets[i], SplitCores(t, k).workers[i]);
    }
  }

  /** Every online CPU goes to exactly one place: the load generator, or one worker set. */
  lemma CpuHasOnePlace(t: Topology, k: int, c: int)
    requires Ranks(t) && t.ranked != [] && c in t.online
    ensures var p := PlanFor(t, k);
      (c in p.loadgenCpus <==> !exists i :: InSet(p, i, c))
      && forall i, j :: InSet(p, i, c) && InSet(p, j, c) ==> i == j
  {
    var p, s := PlanFor(t, k), SplitCores(t, k);
    CoresGivenOnce(t, k);
    CoresOfOk(t, t.online);
    forall i: nat ensures InSet(p, i, c) <==> i < |s.workers| && CoreOf(t, c) == s.workers[i] {
      SetsAreCores(t, k, i, c);
    }
    SetsAreCores(t, k, 0, c);
    OnePlace(s.loadgen, s.workers, CoreOf(t, c));
    if c !in p.loadgenCpus {
      var i :| 0 <= i < |s.workers| && s.workers[i] == CoreOf(t, c);
      assert InSet(p, i, c);
    }
  }

  lemma OnePlace<T>(a: seq<T>, b: seq<T>, x: T)
    requires Distinct(a + b) && x in a + b
    ensures x in a <==> x !in b
    ensures forall i, j :: 0 <= i < |b| && 0 <= j < |b| && b[i] == x == b[j] ==> i == j
  {
    DistinctPrefix(a, b);
    forall i, j | 0 <= i < |a| && 0 <= j < |b| ensures a[i] != b[j] {
      assert (a + b)[i] == a[i] && (a + b)[|a| + j] == b[j];
    }
  }

  /** No physical core is split between places. */
  lemma CoresStayWhole(t: Topology, k: int, c: int, d: int, i: nat)
    requires Ranks(t) && t.ranked != [] && c in t.online && d in t.online && CoreOf(t, c) == CoreOf(t, d)
    ensures c in PlanFor(t, k).loadgenCpus <==> d in PlanFor(t, k).loadgenCpus
    ensures InSet(PlanFor(t, k), i, c) <==> InSet(PlanFor(t, k), i, d)
  {
    SetsAreCores(t, k, i, c);
    SetsAreCores(t, k, i, d);
  }

  // ---- Computing the plan

  /** The first CPUs grouped by core. */
  ghost predicate Grouped(t: Topology, online: seq<int>, cores: seq<Core>, cpus: map<Core, seq<int>>) {
    && cores == CoresOf(t, online) && cpus.Keys == Elements(cores)
    && forall core :: GroupOf(cpus, core) == Members(t, online, core)
  }

  function GroupOf(cpus: map<Core, seq<int>>, core: Core): seq<int> {
    if core in cpus then cpus[core] else []
  }

  lemma GroupsAreMembers(t: Topology, online: seq<int>, cores: seq<Core>, cpus: map<Core, seq<int>>)
    requires Grouped(t, online, cores, cpus)
    ensures forall core :: core in cpus ==> cpus[core] == Members(t, online, core)
  {
    forall core | core in cpus ensures cpus[core] == Members(t, online, core) {
      assert GroupOf(cpus, core) == cpus[core];
    }
  }

  lemma MembersAppend(t: Topology, online: seq<int>, cpu: int, core: Core)
    ensures Members(t, online + [cpu], core) == Members(t, online, core) + if CoreOf(t, cpu) == core then [cpu] else []
  {
    assert (online + [cpu])[..|online|] == online;
  }

  lemma GroupedNext(t: Topology, online: seq<int>, cpu: int, cores: seq<Core>, cpus: map<Core, seq<int>>)
    requires Grouped(t, online, cores, cpus)
    ensures var own := CoreOf(t, cpu);
      Grouped(t, online + [cpu], if own in cpus then cores else cores + [own], cpus[own := GroupOf(cpus, own) + [cpu]])
  {
    var own := CoreOf(t, cpu);
    var next := cpus[own := GroupOf(cpus, own) + [cpu]];
    assert (online + [cpu])[..|online|] == online;
    ElementsAppend(cores, own);
    assert own in cpus <==> own in Elements(cores);
    forall core ensures GroupOf(next, core) == Members(t, online + [cpu], core) {
      MembersAppend(t, online, cpu, core);
      assert GroupOf(cpus, core) == Members(t, online, core);
    }
  }

  method AddCpu(t: Topology, ghost online: seq<int>, cpu: int, cores: seq<Core>, cpus: map<Core, seq<int>>)
    returns (cores': seq<Core>, cpus': map<Core, seq<int>>)
    requires Grouped(t, online, cores, cpus)
    ensures Grouped(t, online + [cpu], cores', cpus')
  {
    var core := CoreOf(t, cpu);
    GroupedNext(t, online, cpu, cores, cpus);
    cores', cpus' := cores, cpus;
    if core !in cpus' { cores', cpus' := cores + [core], cpus[core := []]; }
    cpus' := cpus'[core := cpus'[core] + [cpu]];
    assert cpus' == cpus[core := GroupOf(cpus, core) + [cpu]];
  }

  /** Groups the CPUs by core. */
  method Discover(t: Topology) returns (cores: seq<Core>, cpus: map<Core, seq<int>>)
    ensures cores == CoresOf(t, t.online)
    ensures cpus.Keys == Elements(cores) && forall core :: core in cpus ==> cpus[core] == Members(t, t.online, core)
  {
    cores, cpus := [], map[];
    for i := 0 to |t.online|
      invariant Grouped(t, t.online[..i], cores, cpus)
    {
      assert t.online[..i + 1] == t.online[..i] + [t.online[i]];
      cores, cpus := AddCpu(t, t.online[..i], t.online[i], cores, cpus);
    }
    assert t.online[..|t.online|] == t.online;
    GroupsAreMembers(t, t.online, cores, cpus);
  }

  method CollectCpus(t: Topology, cores: seq<Core>, cpus: map<Core, seq<int>>) returns (all: seq<int>)
    requires forall core :: core in cores ==> core in cpus && cpus[core] == Members(t, t.online, core)
    ensures all == CpusOf(t, cores)
  {
    all := [];
    for i := 0 to |cores|
      invariant all == CpusOf(t, cores[..i])
    {
      assert cores[..i + 1][..i] == cores[..i];
      all := all + cpus[cores[i]];
    }
    assert cores[..|cores|] == cores;
  }

  method CollectSets(t: Topology, cores: seq<Core>, cpus: map<Core, seq<int>>) returns (sets: seq<seq<int>>)
    requires forall core :: core in cores ==> core in cpus && cpus[core] == Members(t, t.online, core)
    ensures sets == WorkerSets(t, cores)
  {
    sets := [];
    for i := 0 to |cores|
      invariant sets == WorkerSets(t, cores[..i])
    {
      assert cores[..i + 1][..i] == cores[..i];
      sets := sets + [SortBy(Itself(), cpus[cores[i]])];
    }
    assert cores[..|cores|] == cores;
  }

  lemma CoresOfNodesNext(t: Topology, cores: seq<Core>, nodes: seq<int>, i: nat)
    requires i < |nodes|
    ensures CoresOfNodes(t, cores, nodes[..i + 1]) == CoresOfNodes(t, cores, nodes[..i]) + NodeCores(t, cores, nodes[i])
  {
    assert nodes[..i + 1][..i] == nodes[..i];
  }

  method SpillOver(t: Topology, cores: seq<Core>, primary: int) returns (workers: seq<Core>)
    ensures workers == OtherCores(t, cores, primary)
  {
    workers := [];
    var nodes := SortBy(NodeRank(t, cores), OtherNodes(cores, primary));
    for i := 0 to |nodes|
      invariant workers == CoresOfNodes(t, cores, nodes[..i])
    {
      CoresOfNodesNext(t, cores, nodes, i);
      workers := workers + NodeCores(t, cores, nodes[i]);
    }
    assert nodes[..|nodes|] == nodes;
  }

  method ComputeAffinityPlan(t: Topology, k: int) returns (plan: Plan)
    requires Ranks(t)
    ensures t.online != [] ==> t.ranked != []
    ensures plan == PlanFor(t, k)
  {
    if t.online == [] { return Plan([], [], 0, 0); }
    assert t.online[0] in Elements(t.ranked);
    var cores, cpus := Discover(t);
    var primary := CoreOf(t, t.ranked[0]).numa;
    var own := NodeCores(t, cores, primary);
    var cut := Cut(k, |own|);
    var others := SpillOver(t, cores, primary);
    CoresGivenOnce(t, k);
    var loadgen, workers := own[..cut], own[cut..] + others;
    assert loadgen == SplitCores(t, k).loadgen && workers == SplitCores(t, k).workers;
    assert forall core :: core in loadgen + workers ==> core in Elements(cores);
    var loadgenCpus := CollectCpus(t, loadgen, cpus);
    var sets := CollectSets(t, workers, cpus);
    plan := Plan(SortBy(Itself(), loadgenCpus), sets, |loadgen|, primary);
  }
}
