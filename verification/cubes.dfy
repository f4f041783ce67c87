/**
 * Cubes and ESOP covers over divisor functions.
 *
 * A cube is a conjunction of literals over divisor indices; the cube with
 * no literal is the constant-true cube. A cover is the exclusive or of its
 * cubes; the empty cover is the constant-false function.
 */
module Cubes {
  import opened Seqs

  datatype Literal = Literal(variable: nat, positive: bool)

  datatype Cube = Cube(literals: seq<Literal>)

  const EmptyCube := Cube([])

  /** Bit `j` of `s`, reading positions past the end as zero. */
  function At(s: seq<bool>, j: nat): bool {
    j < |s| && s[j]
  }

  /** The divisor values at row `l`, one bit per divisor. */
  function Column(divisors: seq<seq<bool>>, l: nat): (r: seq<bool>)
    ensures |r| == |divisors|
    ensures forall j :: 0 <= j < |divisors| ==> r[j] == At(divisors[j], l)
  {
    seq(|divisors|, j requires 0 <= j < |divisors| => At(divisors[j], l))
  }

  /** The cube is true at a row when every literal agrees with the row. */
  predicate CubeValue(c: Cube, row: seq<bool>) {
    forall x :: 0 <= x < |c.literals| ==> At(row, c.literals[x].variable) == c.literals[x].positive
  }

  /** The exclusive or of the cubes at a row. */
  function CoverValue(cover: seq<Cube>, row: seq<bool>): bool {
    if |cover| == 0 then false
    else CoverValue(cover[..|cover| - 1], row) != CubeValue(cover[|cover| - 1], row)
  }

  lemma {:induction false} CoverValueAppend(a: seq<Cube>, b: seq<Cube>, row: seq<bool>)
    ensures CoverValue(a + b, row) == (CoverValue(a, row) != CoverValue(b, row))
    decreases |b|
  {
    if |b| == 0 {
      assert a + b == a;
    } else {
      assert (a + b)[..|a + b| - 1] == a + b[..|b| - 1];
      CoverValueAppend(a, b[..|b| - 1], row);
    }
  }

  /** Reordering the cubes of a cover does not change the function it denotes. */
  lemma CoverValueSwap(s: seq<Cube>, f: nat, row: seq<bool>)
    requires f < |s|
    ensures CoverValue(Swap(s, 0, f), row) == CoverValue(s, row)
  {
    if f == 0 {
      assert Swap(s, 0, f) == s;
    } else {
      SwapHeadSplit(s, f);
      var a, b, c, d := [s[0]], s[1..f], [s[f]], s[f + 1..];
      CoverValueAppend(c + b + a, d, row);
      CoverValueAppend(c + b, a, row);
      CoverValueAppend(c, b, row);
      CoverValueAppend(a + b + c, d, row);
      CoverValueAppend(a + b, c, row);
      CoverValueAppend(a, b, row);
    }
  }
}

/** The CNOT cost model of an ESOP cover (`cnot_cost`). */
module EsopCost {
  import opened TruthTables
  import opened Seqs
  import opened Cubes

  /**
   * The CNOT cost of a cube with `m` literals: none for the constant cube,
   * one for a single literal, and otherwise `2^m` for the cube placed first
   * and `2^(m+1) - 2` for any other.
   */
  function LiteralCost(m: nat, isFirst: bool): (r: nat)
    ensures r == 0 <==> m == 0
    ensures m <= r
  {
    if m == 0 then 0
    else if m == 1 then 1
    else if isFirst then Pow2(m)
    else Pow2(m + 1) - 2
  }

  function CubeCost(c: Cube, isFirst: bool): (r: nat)
    ensures r == 0 <==> c == EmptyCube
    ensures |c.literals| <= r
  {
    LiteralCost(|c.literals|, isFirst)
  }

  /** Pricing a cube first never costs more than pricing it elsewhere. */
  lemma FirstNoCostlier(m: nat)
    ensures LiteralCost(m, true) <= LiteralCost(m, false)
    ensures m <= 1 ==> LiteralCost(m, true) == LiteralCost(m, false) == m
    ensures m >= 2 ==> LiteralCost(m, false) - LiteralCost(m, true) == Pow2(m) - 2
  {
  }

  /** The non-first cost grows with the number of literals. */
  lemma {:induction false} NonFirstMonotone(m: nat, m': nat)
    requires m <= m'
    ensures LiteralCost(m, false) <= LiteralCost(m', false)
    decreases m' - m
  {
    if m < m' {
      NonFirstMonotone(m + 1, m');
      if m >= 1 {
        assert Pow2(m + 2) == 2 * Pow2(m + 1);
      }
    }
  }

  /**
   * `cost_savings` of the code: the distance between the two prices of a
   * cube, computed without underflow.
   */
  function Savings(c: Cube): (r: nat)
    ensures r == CubeCost(c, false) - CubeCost(c, true)
  {
    var a := CubeCost(c, false);
    var b := CubeCost(c, true);
    FirstNoCostlier(|c.literals|);
    if a > b then a - b else b - a
  }

  /**
   * The selection loop of `cnot_cost` over the first `i` cubes: the index
   * of the earliest cube with the largest positive savings (0 if none saves
   * anything), and that largest savings.
   */
  function ScanFirst(esop: seq<Cube>, i: nat): (r: (nat, nat))
    requires i <= |esop|
    ensures r.0 < |esop| || (r.0 == 0 && |esop| == 0)
    ensures r.0 <= i
    ensures forall x :: 0 <= x < i ==> Savings(esop[x]) <= r.1
    ensures r.1 > 0 ==> r.0 < i && Savings(esop[r.0]) == r.1
    ensures r.1 > 0 ==> forall x :: 0 <= x < r.0 ==> Savings(esop[x]) < r.1
    ensures r.1 == 0 ==> r.0 == 0
  {
    if i == 0 then (0, 0)
    else
      var (first, best) := ScanFirst(esop, i - 1);
      var s := Savings(esop[i - 1]);
      if s > best then (i - 1, s) else (first, best)
  }

  /** The cube `cnot_cost` prices first: the earliest one of maximum savings. */
  function FirstCube(esop: seq<Cube>): (f: nat)
    requires |esop| > 0
    ensures f < |esop|
    ensures forall x :: 0 <= x < |esop| ==> Savings(esop[x]) <= Savings(esop[f])
    ensures forall x :: 0 <= x < f ==> Savings(esop[x]) < Savings(esop[f])
  {
    ScanFirst(esop, |esop|).0
  }

  /** Sum of the non-first prices. */
  function RestCost(s: seq<Cube>): nat {
    if |s| == 0 then 0 else RestCost(s[..|s| - 1]) + CubeCost(s[|s| - 1], false)
  }

  lemma {:induction false} RestCostAppend(a: seq<Cube>, b: seq<Cube>)
    ensures RestCost(a + b) == RestCost(a) + RestCost(b)
    decreases |b|
  {
    if |b| == 0 {
      assert a + b == a;
    } else {
      assert (a + b)[..|a + b| - 1] == a + b[..|b| - 1];
      RestCostAppend(a, b[..|b| - 1]);
    }
  }

  /**
   * Reference definition: the cost of the cover when cube `j` is the one
   * priced first and every other cube is priced as a non-first cube.
   */
  function CostWithFirst(esop: seq<Cube>, j: nat): nat
    requires j < |esop|
  {
    CubeCost(esop[j], true) + RestCost(esop[..j]) + RestCost(esop[j + 1..])
  }

  /**
   * `cnot_cost(esop)`: returns the cost and the cover as the code leaves it,
   * with the chosen first cube swapped to the front.
   */
  function CnotCost(esop: seq<Cube>): (r: (nat, seq<Cube>))
    ensures |esop| == 0 ==> r == (0, esop)
    ensures |esop| > 0 ==> r.1 == Swap(esop, 0, FirstCube(esop))
    ensures |esop| > 0 ==> r.0 == CubeCost(r.1[0], true) + RestCost(r.1[1..])
  {
    if |esop| == 0 then (0, esop)
    else
      var reordered := Swap(esop, 0, FirstCube(esop));
      (CubeCost(reordered[0], true) + RestCost(reordered[1..]), reordered)
  }

  lemma RestCostSingle(c: Cube)
    ensures RestCost([c]) == CubeCost(c, false)
  {
    assert [c][..0] == [];
  }

  /** The non-first total split around position `j`. */
  lemma RestCostSplit(esop: seq<Cube>, j: nat)
    requires j < |esop|
    ensures RestCost(esop) == RestCost(esop[..j]) + CubeCost(esop[j], false) + RestCost(esop[j + 1..])
  {
    var before, c, after := esop[..j], esop[j], esop[j + 1..];
    assert esop == before + [c] + after;
    RestCostAppend(before + [c], after);
    RestCostAppend(before, [c]);
    RestCostSingle(c);
  }

  /** Pricing cube `j` first saves exactly its savings on the all-non-first total. */
  lemma CostWithFirstSavings(esop: seq<Cube>, j: nat)
    requires j < |esop|
    ensures CostWithFirst(esop, j) + Savings(esop[j]) == RestCost(esop)
  {
    RestCostSplit(esop, j);
  }

  /**
   * The cost `cnot_cost` reports is the cost of pricing its chosen cube
   * first, and no other choice of first cube is cheaper.
   */
  lemma {:induction false} CnotCostOptimal(esop: seq<Cube>)
    requires |esop| > 0
    ensures CnotCost(esop).0 == CostWithFirst(esop, FirstCube(esop))
    ensures forall j :: 0 <= j < |esop| ==> CnotCost(esop).0 <= CostWithFirst(esop, j)
  {
    var f := FirstCube(esop);
    var r := Swap(esop, 0, f);
    if f == 0 {
      assert r == esop;
      assert esop[..0] == [];
    } else {
      SwapHeadSplit(esop, f);
      assert r[1..] == esop[1..f] + [esop[0]] + esop[f + 1..];
      RestCostAppend(esop[1..f] + [esop[0]], esop[f + 1..]);
      RestCostAppend(esop[1..f], [esop[0]]);
      assert esop[..f] == [esop[0]] + esop[1..f];
      RestCostAppend([esop[0]], esop[1..f]);
      RestCostSingle(esop[0]);
    }
    CostWithFirstSavings(esop, f);
    forall j | 0 <= j < |esop|
      ensures CnotCost(esop).0 <= CostWithFirst(esop, j)
    {
      CostWithFirstSavings(esop, j);
    }
  }
}
