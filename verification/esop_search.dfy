/**
 * The exact ESOP search (`compute_esop_cover_from_divisors_impl::run`):
 * the special cases, then budgets `k = K, K-1, ..., 1`, enumerating every
 * model of the encoding at each budget and keeping the first cover of
 * strictly smallest CNOT cost; the first unsatisfiable budget ends the
 * search.
 *
 * The SAT solver is an oracle: `solve(k)` is the sequence of models the
 * solver enumerates at budget `k`, each one blocked before the next is
 * asked for; the empty sequence means the encoding is unsatisfiable.
 */
module EsopSearch {
  import opened Wrappers
  import opened TruthTables
  import opened Seqs
  import opened Cubes
  import opened EsopCost
  import opened EsopEncoding
  import opened EsopDecode
  import opened Selection

  /** `std::numeric_limits<uint32_t>::max()`, the initial best cost. */
  const MaxUint32: nat := 0xFFFF_FFFF

  /** The largest budget tried: `max_num_cubes`, where 0 means the number of divisors. */
  function Budget(maxNumCubes: nat, n: nat): (r: nat)
    ensures r == 0 <==> maxNumCubes == 0 && n == 0
    ensures maxNumCubes <= r
  {
    if maxNumCubes != 0 then maxNumCubes else n
  }

  /** The cover computes the target at every row of the divisors. */
  ghost predicate Realises(cover: seq<Cube>, target: seq<bool>, divisors: seq<seq<bool>>) {
    forall l :: 0 <= l < |target| ==> CoverValue(cover, Column(divisors, l)) == target[l]
  }

  /**
   * What the solver promises: every enumerated model satisfies the row
   * constraints of its budget and the blocking clause of every model
   * enumerated before it.
   */
  ghost predicate SoundOracle(solve: nat -> seq<Assignment>, target: seq<bool>, divisors: seq<seq<bool>>) {
    forall k: nat, x :: 0 <= x < |solve(k)| ==>
      && SatisfiesRows(solve(k)[x], target, divisors, k)
      && forall y :: 0 <= y < x ==> Holds(solve(k)[x], Blocking(solve(k)[y], |divisors|, k))
  }

  /** The models of one budget, tagged with the budget. */
  function Tagged(k: nat, models: seq<Assignment>): (r: seq<(nat, Assignment)>)
    ensures |r| == |models|
    ensures forall x :: 0 <= x < |r| ==> r[x] == (k, models[x])
  {
    seq(|models|, x requires 0 <= x < |models| => (k, models[x]))
  }

  /** Every (budget, model) pair the search visits from budget `k` down, in order. */
  ghost function Explored(solve: nat -> seq<Assignment>, k: nat): seq<(nat, Assignment)> {
    if k == 0 || |solve(k)| == 0 then []
    else Tagged(k, solve(k)) + Explored(solve, k - 1)
  }

  /** The decoded cover of a visited model, as `cnot_cost` prices and reorders it. */
  function Priced(v: (nat, Assignment), n: nat): (nat, seq<Cube>) {
    CnotCost(EsopCoverFromModel(v.1, n, v.0))
  }

  /**
   * A pricing of visited models. The selection loop is stated for any
   * pricing, so its proof does not depend on how covers are decoded.
   */
  type Pricing = ((nat, Assignment)) -> (nat, seq<Cube>)

  function PriceOf(n: nat): Pricing {
    v => Priced(v, n)
  }

  /** The costs of the visited models' covers, in visit order. */
  function Costs(visited: seq<(nat, Assignment)>, price: Pricing): (r: seq<nat>)
    ensures |r| == |visited|
  {
    if |visited| == 0 then []
    else Costs(visited[..|visited| - 1], price) + [price(visited[|visited| - 1]).0]
  }

  /** The reordered covers of the visited models, in visit order. */
  function Covers(visited: seq<(nat, Assignment)>, price: Pricing): (r: seq<seq<Cube>>)
    ensures |r| == |visited|
  {
    if |visited| == 0 then []
    else Covers(visited[..|visited| - 1], price) + [price(visited[|visited| - 1]).1]
  }

  lemma {:induction false} PriceIndex(visited: seq<(nat, Assignment)>, price: Pricing, x: nat)
    requires x < |visited|
    ensures (Costs(visited, price)[x], Covers(visited, price)[x]) == price(visited[x])
    decreases |visited|
  {
    if x < |visited| - 1 {
      var init := visited[..|visited| - 1];
      PriceIndex(init, price, x);
      assert init[x] == visited[x];
    }
  }

  function AllEligible(m: nat): (r: seq<bool>)
    ensures |r| == m && forall x :: 0 <= x < m ==> r[x]
  {
    seq(m, _ => true)
  }

  /** The cover the search holds after keeping `choice`. */
  function Kept(visited: seq<(nat, Assignment)>, price: Pricing, choice: Option<nat>): Option<seq<Cube>>
    requires choice.Some? ==> choice.value < |visited|
  {
    match choice
    case None => None
    case Some(x) => Some(price(visited[x]).1)
  }

  /** None of the special cases applies, so the SAT search runs. */
  predicate General(target: seq<bool>, divisors: seq<seq<bool>>) {
    && !IsConst1(target)
    && !IsConst0(target)
    && !(|divisors| == 1 && (target == divisors[0] || target == Complement(divisors[0])))
  }

  /** Every visited pair is a model of the row constraints of a budget between 1 and `k`. */
  lemma {:induction false} ExploredSound(solve: nat -> seq<Assignment>, target: seq<bool>, divisors: seq<seq<bool>>, k: nat)
    requires SoundOracle(solve, target, divisors)
    ensures forall x :: 0 <= x < |Explored(solve, k)| ==>
      1 <= Explored(solve, k)[x].0 <= k && SatisfiesRows(Explored(solve, k)[x].1, target, divisors, Explored(solve, k)[x].0)
    decreases k
  {
    if k > 0 && |solve(k)| > 0 {
      ExploredSound(solve, target, divisors, k - 1);
      var head := Tagged(k, solve(k));
      var tail := Explored(solve, k - 1);
      var all: seq<(nat, Assignment)> := head + tail;
      forall x | 0 <= x < |all|
        ensures 1 <= all[x].0 <= k && SatisfiesRows(all[x].1, target, divisors, all[x].0)
      {
        if x < |head| {
          assert all[x] == (k, solve(k)[x]);
        } else {
          assert all[x] == tail[x - |head|];
        }
      }
    }
  }

  /** A kept cover computes the target and has at most as many cubes as its budget. */
  lemma PricedRealises(v: (nat, Assignment), target: seq<bool>, divisors: seq<seq<bool>>)
    requires SatisfiesRows(v.1, target, divisors, v.0)
    ensures Realises(Priced(v, |divisors|).1, target, divisors)
    ensures |Priced(v, |divisors|).1| <= v.0
  {
    var decoded := EsopCoverFromModel(v.1, |divisors|, v.0);
    RoundTrip(v.1, target, divisors, v.0);
    if |decoded| > 0 {
      forall l | 0 <= l < |target|
        ensures CoverValue(Priced(v, |divisors|).1, Column(divisors, l)) == target[l]
      {
        CoverValueSwap(decoded, FirstCube(decoded), Column(divisors, l));
      }
    }
  }

  /** The models enumerated at one budget have pairwise different selectors, so decode independently. */
  lemma EnumeratedModelsDistinct(solve: nat -> seq<Assignment>, target: seq<bool>, divisors: seq<seq<bool>>, k: nat, x: nat, y: nat)
    requires SoundOracle(solve, target, divisors)
    requires y < x < |solve(k)|
    ensures !SameSelectors(solve(k)[y], solve(k)[x], |divisors|, k)
  {
    BlockingMeaning(solve(k)[y], solve(k)[x], |divisors|, k);
  }

  /** A one-cube, one-literal cover is that literal. */
  lemma SingleLiteralValue(j: nat, positive: bool, row: seq<bool>)
    ensures CoverValue([Cube([Literal(j, positive)])], row) == (At(row, j) == positive)
  {
    var c := Cube([Literal(j, positive)]);
    assert [c][..0] == [];
    assert c.literals[0] == Literal(j, positive);
  }

  /**
   * The special cases of `run`, in the order the code tests them: a
   * constant-one target gives the constant-true cube, a constant-zero
   * target the empty cover, and a target equal to the only divisor or to
   * its complement the one-literal cover.
   */
  function SpecialCase(target: seq<bool>, divisors: seq<seq<bool>>): (r: Option<seq<Cube>>)
    ensures r.None? <==> General(target, divisors)
    ensures r.Some? ==> Realises(r.value, target, divisors)
    ensures IsConst1(target) ==> r == Some([EmptyCube])
    ensures IsConst1(target) ==> r.Some? && CnotCost(r.value).0 == 0
    ensures !IsConst1(target) && IsConst0(target) ==> r == Some([])
    ensures !IsConst1(target) && !IsConst0(target) && |divisors| == 1 && target == divisors[0] ==>
      r == Some([Cube([Literal(0, true)])])
    ensures !IsConst1(target) && !IsConst0(target) && |divisors| == 1 && target == Complement(divisors[0]) ==>
      r == Some([Cube([Literal(0, false)])])
  {
    if IsConst1(target) then
      assert [EmptyCube][..0] == [];
      Some([EmptyCube])
    else if IsConst0(target) then Some([])
    else if |divisors| == 1 && target == divisors[0] then
      assert forall l :: 0 <= l < |target| ==> Column(divisors, l)[0] == target[l];
      assert forall l :: 0 <= l < |target| ==> CoverValue([Cube([Literal(0, true)])], Column(divisors, l)) == target[l] by {
        forall l | 0 <= l < |target| { SingleLiteralValue(0, true, Column(divisors, l)); }
      }
      Some([Cube([Literal(0, true)])])
    else if |divisors| == 1 && target == Complement(divisors[0]) then
      assert forall l :: 0 <= l < |target| ==> Column(divisors, l)[0] == !target[l];
      assert forall l :: 0 <= l < |target| ==> CoverValue([Cube([Literal(0, false)])], Column(divisors, l)) == target[l] by {
        forall l | 0 <= l < |target| { SingleLiteralValue(0, false, Column(divisors, l)); }
      }
      Some([Cube([Literal(0, false)])])
    else None
  }

  /**
   * The search state after visiting the first `idx` of the candidates with
   * the given costs and covers.
   */
  ghost predicate SearchState(costs: seq<nat>, covers: seq<seq<Cube>>, idx: nat,
                              bestCost: nat, cover: Option<seq<Cube>>, choice: Option<nat>)
  {
    && |covers| == |costs| && idx <= |costs|
    && FirstBest(costs[..idx], AllEligible(|costs|)[..idx], MaxUint32, choice)
    && (choice.Some? ==> choice.value < idx)
    && bestCost == BestCost(costs, MaxUint32, choice)
    && cover == (if choice.Some? then Some(covers[choice.value]) else None)
  }

  /** Before any candidate is visited nothing is kept and the bound is the best cost. */
  lemma SearchStart(costs: seq<nat>, covers: seq<seq<Cube>>)
    requires |covers| == |costs|
    ensures SearchState(costs, covers, 0, MaxUint32, None, None)
  {
    assert costs[..0] == [];
  }

  /** Visiting one more candidate keeps the search state. */
  lemma SearchStep(costs: seq<nat>, covers: seq<seq<Cube>>, idx: nat,
                   bestCost: nat, cover: Option<seq<Cube>>, choice: Option<nat>)
    requires idx < |costs| && SearchState(costs, covers, idx, bestCost, cover, choice)
    ensures costs[idx] < bestCost ==> SearchState(costs, covers, idx + 1, costs[idx], Some(covers[idx]), Some(idx))
    ensures costs[idx] >= bestCost ==> SearchState(costs, covers, idx + 1, bestCost, cover, choice)
  {
    FirstBestStep(costs, AllEligible(|costs|), MaxUint32, choice, idx);
  }

  /**
   * The enumeration loop at one budget: visits `models`, whose priced
   * covers sit at positions `start ..` of `costs` and `covers`, keeping a
   * cover only when its cost is strictly below the best so far.
   */
  method ScanModels(models: seq<Assignment>, k: nat, price: Pricing,
                    ghost costs: seq<nat>, ghost covers: seq<seq<Cube>>, start: nat,
                    bestCost0: nat, cover0: Option<seq<Cube>>, choice0: Option<nat>)
    returns (bestCost: nat, cover: Option<seq<Cube>>, choice: Option<nat>)
    requires start + |models| <= |costs| == |covers|
    requires forall y :: 0 <= y < |models| ==> (costs[start + y], covers[start + y]) == price((k, models[y]))
    requires SearchState(costs, covers, start, bestCost0, cover0, choice0)
    ensures SearchState(costs, covers, start + |models|, bestCost, cover, choice)
  {
    bestCost, cover, choice := bestCost0, cover0, choice0;
    var x := 0;
    while x < |models|
      invariant 0 <= x <= |models|
      invariant SearchState(costs, covers, start + x, bestCost, cover, choice)
    {
      var idx := start + x;
      SearchStep(costs, covers, idx, bestCost, cover, choice);
      var priced := price((k, models[x]));
      if priced.0 < bestCost {
        bestCost := priced.0;
        cover := Some(priced.1);
        choice := Some(idx);
      }
      x := x + 1;
    }
  }

  /** The visit order from budget `k`: the models of `k` first, then the lower budgets. */
  lemma ExploredSplit(solve: nat -> seq<Assignment>, k: nat, rest: seq<(nat, Assignment)>)
    requires k > 0 && |solve(k)| > 0 && rest == Explored(solve, k)
    ensures |solve(k)| <= |rest|
    ensures forall y :: 0 <= y < |solve(k)| ==> rest[y] == (k, solve(k)[y])
    ensures rest[|solve(k)|..] == Explored(solve, k - 1)
  {
    assert rest == Tagged(k, solve(k)) + Explored(solve, k - 1);
  }

  /** The prices at positions `start ..` of the visit order are those of the models of budget `k`. */
  lemma PricesAt(solve: nat -> seq<Assignment>, visited: seq<(nat, Assignment)>, price: Pricing, k: nat, start: nat)
    requires start <= |visited| && k > 0 && |solve(k)| > 0 && visited[start..] == Explored(solve, k)
    ensures start + |solve(k)| <= |visited|
    ensures forall y :: 0 <= y < |solve(k)| ==>
      (Costs(visited, price)[start + y], Covers(visited, price)[start + y]) == price((k, solve(k)[y]))
    ensures visited[start + |solve(k)|..] == Explored(solve, k - 1)
  {
    ExploredSplit(solve, k, visited[start..]);
    forall y | 0 <= y < |solve(k)|
      ensures (Costs(visited, price)[start + y], Covers(visited, price)[start + y]) == price((k, solve(k)[y]))
    {
      assert visited[start + y] == visited[start..][y];
      PriceIndex(visited, price, start + y);
    }
    assert visited[start + |solve(k)|..] == visited[start..][|solve(k)|..];
  }

  /** At the end of the visit order the search state is the selection over all of it. */
  lemma SearchDone(visited: seq<(nat, Assignment)>, price: Pricing, bestCost: nat, cover: Option<seq<Cube>>, choice: Option<nat>)
    requires SearchState(Costs(visited, price), Covers(visited, price), |visited|, bestCost, cover, choice)
    ensures var costs := Costs(visited, price);
      && FirstBest(costs, AllEligible(|costs|), MaxUint32, choice)
      && cover == Kept(visited, price, choice)
  {
    var costs := Costs(visited, price);
    assert costs[..|visited|] == costs && AllEligible(|costs|)[..|visited|] == AllEligible(|costs|);
    if choice.Some? {
      PriceIndex(visited, price, choice.value);
    }
  }

  /** Whatever model the search keeps, its cover computes the target within the budget. */
  lemma KeptRealises(solve: nat -> seq<Assignment>, target: seq<bool>, divisors: seq<seq<bool>>, budget: nat, choice: Option<nat>)
    requires SoundOracle(solve, target, divisors)
    requires choice.Some? ==> choice.value < |Explored(solve, budget)|
    ensures var kept := Kept(Explored(solve, budget), PriceOf(|divisors|), choice);
      kept.Some? ==> Realises(kept.value, target, divisors) && |kept.value| <= budget
  {
    if choice.Some? {
      ExploredSound(solve, target, divisors, budget);
      PricedRealises(Explored(solve, budget)[choice.value], target, divisors);
    }
  }

  /**
   * One budget of the search: asks the solver for the models at budget `k`
   * and visits them; with none, the search stops and has visited everything.
   */
  method VisitBudget(solve: nat -> seq<Assignment>, k: nat, price: Pricing, ghost visited: seq<(nat, Assignment)>, idx: nat,
                     bestCost0: nat, cover0: Option<seq<Cube>>, choice0: Option<nat>)
    returns (stop: bool, bestCost: nat, cover: Option<seq<Cube>>, choice: Option<nat>, next: nat)
    requires k > 0 && idx <= |visited| && visited[idx..] == Explored(solve, k)
    requires SearchState(Costs(visited, price), Covers(visited, price), idx, bestCost0, cover0, choice0)
    ensures next <= |visited|
    ensures SearchState(Costs(visited, price), Covers(visited, price), next, bestCost, cover, choice)
    ensures stop ==> next == |visited|
    ensures !stop ==> visited[next..] == Explored(solve, k - 1)
  {
    var models := solve(k);
    if |models| == 0 {
      assert visited[idx..] == [];
      return true, bestCost0, cover0, choice0, idx;
    }
    PricesAt(solve, visited, price, k, idx);
    bestCost, cover, choice := ScanModels(models, k, price, Costs(visited, price), Covers(visited, price), idx, bestCost0, cover0, choice0);
    stop, next := false, idx + |models|;
  }

  /**
   * The SAT search of `run` from budget `budget` down: the first model
   * whose priced cover is strictly cheapest among all visited models (none
   * when no model beats the initial bound), and that cover.
   */
  method Search(budget: nat, solve: nat -> seq<Assignment>, price: Pricing)
    returns (cover: Option<seq<Cube>>, choice: Option<nat>)
    ensures var visited := Explored(solve, budget);
      var costs := Costs(visited, price);
      && FirstBest(costs, AllEligible(|costs|), MaxUint32, choice)
      && cover == Kept(visited, price, choice)
  {
    ghost var visited := Explored(solve, budget);
    var bestCost := MaxUint32;
    cover, choice := None, None;
    SearchStart(Costs(visited, price), Covers(visited, price));
    var idx: nat := 0;
    var k := budget;
    while k > 0
      invariant idx <= |visited| && visited[idx..] == Explored(solve, k)
      invariant SearchState(Costs(visited, price), Covers(visited, price), idx, bestCost, cover, choice)
    {
      var stop;
      stop, bestCost, cover, choice, idx := VisitBudget(solve, k, price, visited, idx, bestCost, cover, choice);
      if stop {
        break;
      }
      k := k - 1;
    }
    if k == 0 {
      assert visited[idx..] == [];
    }
    SearchDone(visited, price, bestCost, cover, choice);
  }

  /**
   * `run`: the special-case cover when one applies, and otherwise the
   * result of the SAT search from `max_num_cubes` (or the number of
   * divisors) down. Every returned cover computes the target.
   */
  method Run(target: seq<bool>, divisors: seq<seq<bool>>, maxNumCubes: nat, solve: nat -> seq<Assignment>)
    returns (cover: Option<seq<Cube>>, ghost choice: Option<nat>)
    requires SoundOracle(solve, target, divisors)
    ensures cover.Some? ==> Realises(cover.value, target, divisors)
    ensures !General(target, divisors) ==> cover == SpecialCase(target, divisors)
    ensures General(target, divisors) ==>
      var visited := Explored(solve, Budget(maxNumCubes, |divisors|));
      var costs := Costs(visited, PriceOf(|divisors|));
      && FirstBest(costs, AllEligible(|costs|), MaxUint32, choice)
      && cover == Kept(visited, PriceOf(|divisors|), choice)
    ensures General(target, divisors) && cover.Some? ==> |cover.value| <= Budget(maxNumCubes, |divisors|)
  {
    var special := SpecialCase(target, divisors);
    if special.Some? {
      return special, None;
    }
    cover, choice := Search(Budget(maxNumCubes, |divisors|), solve, PriceOf(|divisors|));
    KeptRealises(solve, target, divisors, Budget(maxNumCubes, |divisors|), choice);
  }
}
