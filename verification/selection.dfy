/**
 * The selection rule shared by the drivers and the ESOP search: walk the
 * candidates in order and keep one only when its cost is strictly below the
 * best so far, starting from an exclusive bound. The result is the earliest
 * candidate of minimum cost among the eligible ones, or none when no
 * eligible candidate beats the bound.
 */
module Selection {
  import opened Wrappers

  /** `choice` is what strict-improvement selection over `costs` keeps. */
  predicate FirstBest(costs: seq<nat>, eligible: seq<bool>, bound: nat, choice: Option<nat>)
    requires |eligible| == |costs|
  {
    match choice
    case None => forall i :: 0 <= i < |costs| && eligible[i] ==> costs[i] >= bound
    case Some(k) =>
      && k < |costs| && eligible[k] && costs[k] < bound
      && (forall i :: 0 <= i < |costs| && eligible[i] ==> costs[k] <= costs[i])
      && (forall i :: 0 <= i < k && eligible[i] ==> costs[k] < costs[i])
  }

  /** The running best cost: the bound until something is kept. */
  function BestCost(costs: seq<nat>, bound: nat, choice: Option<nat>): nat
    requires choice.Some? ==> choice.value < |costs|
  {
    match choice
    case None => bound
    case Some(k) => costs[k]
  }

  /** One step of the selection loop keeps `FirstBest` on the next prefix. */
  lemma FirstBestStep(costs: seq<nat>, eligible: seq<bool>, bound: nat, choice: Option<nat>, i: nat)
    requires |eligible| == |costs| && i < |costs|
    requires FirstBest(costs[..i], eligible[..i], bound, choice)
    ensures choice.Some? ==> choice.value < i
    ensures var next := if eligible[i] && costs[i] < BestCost(costs, bound, choice) then Some(i) else choice;
      FirstBest(costs[..i + 1], eligible[..i + 1], bound, next)
  {
    assert forall x :: 0 <= x < i ==> costs[..i + 1][x] == costs[..i][x] && eligible[..i + 1][x] == eligible[..i][x];
    if choice.Some? {
      assert costs[..i][choice.value] == costs[choice.value];
    }
  }

  /** The selection rule determines its result. */
  lemma FirstBestUnique(costs: seq<nat>, eligible: seq<bool>, bound: nat, a: Option<nat>, b: Option<nat>)
    requires |eligible| == |costs|
    requires FirstBest(costs, eligible, bound, a) && FirstBest(costs, eligible, bound, b)
    ensures a == b
  {
  }
}
