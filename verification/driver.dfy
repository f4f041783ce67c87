/**
 * The drivers above the gate generator: `qsp` (ordering selection),
 * `qsp_tt_general` (canonical-form cache and aggregate counters) and
 * `state_preparation` (`operator()`, `synthesize_network`, `create_gates`).
 *
 * The collaborators the drivers call but whose code is not part of the
 * model are function values: dependency analysis, the extraction of
 * constant lines (`extract_independent_vars`), the gate statistics
 * (`gates_statistics`) and the two canonizations. The variable orderings
 * arrive as the already reordered truth tables, one per ordering, in the
 * order the reordering strategy produces them.
 */
module Driver {
  import opened Wrappers
  import opened TruthTables
  import opened Gates
  import opened Dependencies
  import opened Generation
  import opened GenerationProperties
  import opened Selection

  /** The per-function counters of `qsp_1bench_stats` that the drivers read. */
  datatype BenchStats = BenchStats(totalCnots: nat, totalRys: nat, totalNots: nat, gatesCount: (nat, nat))

  /** A value-initialised `qsp_1bench_stats`. */
  const EmptyStats := BenchStats(0, 0, 0, (0, 0))

  datatype Analysis = Analysis(
    dependencies: seq<bool> -> Dependencies,
    independentVars: seq<bool> -> (seq<nat>, seq<nat>),
    statistics: (GateMap, map<nat, bool>, nat) -> BenchStats)

  datatype Canonizers = Canonizers(exact: seq<bool> -> seq<bool>, sifting: seq<bool> -> seq<bool>)

  /** Every table has `n` variables. */
  predicate TablesOf(tables: seq<seq<bool>>, n: nat) {
    forall x :: 0 <= x < |tables| ==> |tables[x]| == Pow2(n)
  }

  /**
   * The gates generated for a table over `n` variables from the top line
   * `n - 1` with an empty control context; an empty dependency map selects
   * the overload without dependencies.
   */
  function GatesFor(t: seq<bool>, n: nat, deps: Dependencies, analysis: Analysis): (r: GateMap)
    requires n >= 1 && |t| == Pow2(n)
    ensures LinesBelow(r, n)
    ensures WellFormedDependencies(deps) ==> WellFormed(r)
  {
    var (zeroLines, oneLines) := analysis.independentVars(t);
    var effective := if IsEmpty(deps) then NoDependencies else deps;
    var ctx := Context(n, effective, zeroLines, oneLines);
    var r := Generate(map[], t, n - 1, [], ctx);
    if WellFormedDependencies(deps) then
      GenerateWellFormed(map[], t, n - 1, [], ctx);
      r
    else
      r
  }

  /** One iteration of the ordering loop of `qsp` on the reordered table `t`. */
  function SynthesizeOrdering(t: seq<bool>, n: nat, analysis: Analysis): (r: (GateMap, BenchStats))
    requires n >= 1 && |t| == Pow2(n)
    ensures LinesBelow(r.0, n)
    ensures WellFormedDependencies(analysis.dependencies(t)) ==> WellFormed(r.0)
  {
    var deps := analysis.dependencies(t);
    var haveDeps := map i | 0 <= i < n && HasDependency(deps, i) :: true;
    var gates := GatesFor(t, n, deps, analysis);
    (gates, analysis.statistics(gates, haveDeps, n))
  }

  ghost function QspCosts(tables: seq<seq<bool>>, n: nat, analysis: Analysis): (r: seq<nat>)
    requires n >= 1 && TablesOf(tables, n)
    ensures |r| == |tables|
  {
    seq(|tables|, x requires 0 <= x < |tables| => SynthesizeOrdering(tables[x], n, analysis).1.totalCnots)
  }

  /** The first ordering is always evaluated; a later one only if it changes the table. */
  function QspEvaluated(tt: seq<bool>, tables: seq<seq<bool>>): (r: seq<bool>)
    ensures |r| == |tables|
    ensures forall x :: 0 <= x < |tables| ==> (r[x] <==> x == 0 || tables[x] != tt)
  {
    seq(|tables|, x requires 0 <= x < |tables| => x == 0 || tables[x] != tt)
  }

  /**
   * What `qsp` returns for a choice of ordering: that ordering's gates and
   * statistics, or an empty gate map and value-initialised statistics when
   * no ordering was kept.
   */
  function Kept(tables: seq<seq<bool>>, n: nat, analysis: Analysis, chosen: Option<nat>): (GateMap, BenchStats)
    requires n >= 1 && TablesOf(tables, n)
    requires chosen.Some? ==> chosen.value < |tables|
  {
    match chosen
    case None => (map[], EmptyStats)
    case Some(k) => SynthesizeOrdering(tables[k], n, analysis)
  }

  /**
   * `qsp`: synthesizes every evaluated ordering and keeps the first whose
   * CNOT count is strictly below the best so far, starting from the bound
   * `2^(n+1)`. `chosen` is the index of the kept ordering.
   */
  method Qsp(tt: seq<bool>, n: nat, tables: seq<seq<bool>>, analysis: Analysis)
    returns (gates: GateMap, stats: BenchStats, ghost chosen: Option<nat>)
    requires n >= 1 && |tt| == Pow2(n) && TablesOf(tables, n)
    ensures FirstBest(QspCosts(tables, n, analysis), QspEvaluated(tt, tables), Pow2(n + 1), chosen)
    ensures (gates, stats) == Kept(tables, n, analysis, chosen)
    ensures LinesBelow(gates, n)
  {
    ghost var costs := QspCosts(tables, n, analysis);
    ghost var evaluated := QspEvaluated(tt, tables);
    var maxCnots := Pow2(n + 1);
    ghost var bound := maxCnots;
    var best := (map[], EmptyStats);
    chosen := None;
    var computedOnce := false;
    var i := 0;
    while i < |tables|
      invariant 0 <= i <= |tables|
      invariant computedOnce <==> i > 0
      invariant FirstBest(costs[..i], evaluated[..i], bound, chosen)
      invariant chosen.Some? ==> chosen.value < i
      invariant maxCnots == BestCost(costs, bound, chosen)
      invariant best == Kept(tables, n, analysis, chosen)
    {
      FirstBestStep(costs, evaluated, bound, chosen, i);
      var t := tables[i];
      if !(t == tt && computedOnce) {
        computedOnce := true;
        var candidate := SynthesizeOrdering(t, n, analysis);
        assert evaluated[i] && costs[i] == candidate.1.totalCnots;
        if candidate.1.totalCnots < maxCnots {
          best, chosen := candidate, Some(i);
          maxCnots := candidate.1.totalCnots;
        }
      }
      i := i + 1;
    }
    assert costs[..i] == costs && evaluated[..i] == evaluated;
    gates, stats := best.0, best.1;
  }

  /** The aggregate statistics of `qsp_general_stats`, with its cache. */
  datatype GeneralStats = GeneralStats(
    cache: map<seq<bool>, BenchStats>,
    totalBench: nat,
    totalCnots: nat,
    totalRys: nat,
    totalNots: nat,
    gatesCount: seq<(nat, nat)>)

  /** The cache key of `qsp_tt_general`: exact canonization below 7 variables. */
  function GeneralKey(tt: seq<bool>, n: nat, canon: Canonizers): seq<bool> {
    if n < 7 then canon.exact(tt) else canon.sifting(tt)
  }

  /** Adds one function's counters to the aggregate. */
  function Accumulate(s: GeneralStats, b: BenchStats): (r: GeneralStats)
    ensures r.cache == s.cache && r.totalBench == s.totalBench
    ensures r.totalCnots - s.totalCnots == b.totalCnots
    ensures r.totalRys - s.totalRys == b.totalRys
    ensures r.totalNots - s.totalNots == b.totalNots
    ensures r.gatesCount == s.gatesCount + [b.gatesCount]
  {
    s.(totalCnots := s.totalCnots + b.totalCnots,
       totalRys := s.totalRys + b.totalRys,
       totalNots := s.totalNots + b.totalNots,
       gatesCount := s.gatesCount + [b.gatesCount])
  }

  /**
   * `qsp_tt_general`. Counts the function, returns at once on the constant
   * zero function, and otherwise adds `n` qubits and looks the canonical
   * form up in the cache: on a hit it adds the cached counters and leaves
   * the cache alone; on a miss it runs `qsp`, adds its counters and stores
   * them under the key. Entries are never removed.
   */
  method QspTtGeneral(s: GeneralStats, tt: seq<bool>, n: nat, tables: seq<seq<bool>>,
                      analysis: Analysis, canon: Canonizers)
    returns (s': GeneralStats, qubits: nat, ghost chosen: Option<nat>)
    requires |tt| == Pow2(n) && TablesOf(tables, n)
    requires n >= 1 || IsConst0(tt)
    ensures s'.totalBench == s.totalBench + 1
    ensures s.cache.Keys <= s'.cache.Keys
    ensures IsConst0(tt) ==> s' == s.(totalBench := s.totalBench + 1) && qubits == 0
    ensures !IsConst0(tt) ==>
      var key := GeneralKey(tt, n, canon);
      && qubits == n
      && key in s'.cache
      && s'.cache == s.cache[key := s'.cache[key]]
      && s' == Accumulate(s, s'.cache[key]).(totalBench := s.totalBench + 1, cache := s'.cache)
      && (key in s.cache ==> s'.cache == s.cache)
      && (key !in s.cache ==>
            && FirstBest(QspCosts(tables, n, analysis), QspEvaluated(tt, tables), Pow2(n + 1), chosen)
            && s'.cache[key] == Kept(tables, n, analysis, chosen).1)
  {
    chosen := None;
    if IsConst0(tt) {
      s' := s.(totalBench := s.totalBench + 1);
      qubits := 0;
      return;
    }
    qubits := n;
    var counted := s.(totalBench := s.totalBench + 1);
    var key := GeneralKey(tt, n, canon);
    if key in counted.cache {
      s' := Accumulate(counted, counted.cache[key]);
      return;
    }
    var gates, stats;
    gates, stats, chosen := Qsp(tt, n, tables, analysis);
    s' := Accumulate(counted, stats).(cache := counted.cache[key := stats]);
  }

  /**
   * Synthesizing the same function twice in one session: the second call
   * is a cache hit, leaves the cache as the first call left it, and adds
   * exactly the counters the first call added.
   */
  method CacheReplay(s: GeneralStats, tt: seq<bool>, n: nat, tables: seq<seq<bool>>,
                     analysis: Analysis, canon: Canonizers)
    returns (s1: GeneralStats, s2: GeneralStats)
    requires n >= 1 && |tt| == Pow2(n) && TablesOf(tables, n)
    requires !IsConst0(tt)
    ensures s2.cache == s1.cache
    ensures s1.totalCnots - s.totalCnots == s2.totalCnots - s1.totalCnots
    ensures s1.totalRys - s.totalRys == s2.totalRys - s1.totalRys
    ensures s1.totalNots - s.totalNots == s2.totalNots - s1.totalNots
    ensures s2.totalBench == s.totalBench + 2
  {
    var q1, q2;
    ghost var c1, c2;
    s1, q1, c1 := QspTtGeneral(s, tt, n, tables, analysis, canon);
    s2, q2, c2 := QspTtGeneral(s1, tt, n, tables, analysis, canon);
  }
}

/**
 * `state_preparation`: the functor form of the driver, with its own cache
 * of networks and counters.
 */
module StatePreparation {
  import opened Wrappers
  import opened TruthTables
  import opened Gates
  import opened Dependencies
  import opened Selection
  import opened Driver

  datatype Network = Network(gates: GateMap, numCnots: nat)

  datatype PrepStatistics = PrepStatistics(numFunctions: nat, numUniqueFunctions: nat, numCnots: nat)

  datatype Preparer = Preparer(cache: map<seq<bool>, Network>, stats: PrepStatistics)

  /** `std::numeric_limits<uint64_t>::max()`, the cost of the initial best network. */
  const MaxUint64: nat := 0xFFFF_FFFF_FFFF_FFFF

  /** The cache key of `operator()`: exact canonization up to and including 7 variables. */
  function PrepKey(tt: seq<bool>, n: nat, canon: Canonizers): (r: seq<bool>)
    ensures n != 7 ==> r == GeneralKey(tt, n, canon)
    ensures n == 7 ==> r == canon.exact(tt) && GeneralKey(tt, n, canon) == canon.sifting(tt)
  {
    if n <= 7 then canon.exact(tt) else canon.sifting(tt)
  }

  /**
   * `create_gates`: generates from the top line and prices the result with
   * `gates_statistics`, telling it for every line whether it has a dependency.
   */
  function CreateGates(tt: seq<bool>, n: nat, deps: Dependencies, analysis: Analysis): (r: Network)
    requires n >= 1 && |tt| == Pow2(n)
    ensures LinesBelow(r.gates, n)
    ensures WellFormedDependencies(deps) ==> WellFormed(r.gates)
  {
    var gates := GatesFor(tt, n, deps, analysis);
    var haveDeps := map i | 0 <= i < n :: HasDependency(deps, i);
    Network(gates, analysis.statistics(gates, haveDeps, n).totalCnots)
  }

  /**
   * The tables can be synthesized: with zero variables only the constant
   * zero function is, since it returns before the top line `n - 1` is formed.
   */
  predicate Synthesizable(tables: seq<seq<bool>>, n: nat) {
    n >= 1 || forall x :: 0 <= x < |tables| ==> IsConst0(tables[x])
  }

  /** `synthesize_network`: the constant zero function costs nothing and has no gates. */
  function SynthesizeNetwork(tt: seq<bool>, n: nat, analysis: Analysis): (r: Network)
    requires |tt| == Pow2(n)
    requires n >= 1 || IsConst0(tt)
    ensures IsConst0(tt) ==> r == Network(map[], 0)
    ensures LinesBelow(r.gates, n)
    ensures WellFormedDependencies(analysis.dependencies(tt)) ==> WellFormed(r.gates)
  {
    if IsConst0(tt) then Network(map[], 0)
    else CreateGates(tt, n, analysis.dependencies(tt), analysis)
  }

  ghost function PrepCosts(tables: seq<seq<bool>>, n: nat, analysis: Analysis): (r: seq<nat>)
    requires TablesOf(tables, n) && Synthesizable(tables, n)
    ensures |r| == |tables|
  {
    seq(|tables|, x requires 0 <= x < |tables| => SynthesizeNetwork(tables[x], n, analysis).numCnots)
  }

  /** The network kept for a choice of reordering, or the initial sentinel. */
  function BestNetwork(tables: seq<seq<bool>>, n: nat, analysis: Analysis, chosen: Option<nat>): Network
    requires TablesOf(tables, n) && Synthesizable(tables, n)
    requires chosen.Some? ==> chosen.value < |tables|
  {
    match chosen
    case None => Network(map[], MaxUint64)
    case Some(k) => SynthesizeNetwork(tables[k], n, analysis)
  }

  /**
   * `state_preparation::operator()`. Counts the function; on a cache hit
   * returns the cached network and adds its cost; on a miss synthesizes
   * every reordering the strategy yields, keeps the first strictly cheaper
   * network (starting from the sentinel cost `MaxUint64`), caches it and
   * counts a unique function.
   */
  method Prepare(p: Preparer, tt: seq<bool>, n: nat, tables: seq<seq<bool>>,
                 analysis: Analysis, canon: Canonizers)
    returns (p': Preparer, ntk: Network, ghost chosen: Option<nat>)
    requires |tt| == Pow2(n) && TablesOf(tables, n) && Synthesizable(tables, n)
    ensures p'.stats.numFunctions == p.stats.numFunctions + 1
    ensures p'.stats.numCnots == p.stats.numCnots + ntk.numCnots
    ensures var key := PrepKey(tt, n, canon);
      && key in p'.cache && p'.cache[key] == ntk
      && (key in p.cache ==> p'.cache == p.cache && ntk == p.cache[key]
                             && p'.stats.numUniqueFunctions == p.stats.numUniqueFunctions)
      && (key !in p.cache ==>
            && p'.cache == p.cache[key := ntk]
            && p'.stats.numUniqueFunctions == p.stats.numUniqueFunctions + 1
            && FirstBest(PrepCosts(tables, n, analysis), seq(|tables|, _ => true), MaxUint64, chosen)
            && ntk == BestNetwork(tables, n, analysis, chosen))
  {
    var stats := p.stats.(numFunctions := p.stats.numFunctions + 1);
    var key := PrepKey(tt, n, canon);
    chosen := None;
    if key in p.cache {
      ntk := p.cache[key];
      p' := Preparer(p.cache, stats.(numCnots := stats.numCnots + ntk.numCnots));
      return;
    }
    ghost var costs := PrepCosts(tables, n, analysis);
    ghost var all := seq(|tables|, _ => true);
    var best := Network(map[], MaxUint64);
    var i := 0;
    while i < |tables|
      invariant 0 <= i <= |tables|
      invariant FirstBest(costs[..i], all[..i], MaxUint64, chosen)
      invariant chosen.Some? ==> chosen.value < i
      invariant best.numCnots == BestCost(costs, MaxUint64, chosen)
      invariant best == BestNetwork(tables, n, analysis, chosen)
    {
      FirstBestStep(costs, all, MaxUint64, chosen, i);
      assert n >= 1 || IsConst0(tables[i]);
      var candidate := SynthesizeNetwork(tables[i], n, analysis);
      assert all[i] && costs[i] == candidate.numCnots;
      if candidate.numCnots < best.numCnots {
        best, chosen := candidate, Some(i);
      }
      i := i + 1;
    }
    assert costs[..i] == costs && all[..i] == all;
    ntk := best;
    p' := Preparer(p.cache[key := best],
                   stats.(numUniqueFunctions := stats.numUniqueFunctions + 1, numCnots := stats.numCnots + best.numCnots));
  }
}
