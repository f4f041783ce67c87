/**
 * The SAT encoding of bounded ESOP synthesis from divisors.
 *
 * For a cube budget `k` over `n` divisors and `numBits` rows there are
 * `2*n*k` selector variables `p(i,j)` / `q(i,j)` (cube `i` contains the
 * positive / negative literal of divisor `j`) followed by `k*numBits`
 * auxiliary variables `z(l,i)` (cube `i` is true at row `l`).
 */
module EsopEncoding {
  import opened Seqs
  import opened Cubes

  /** A solver model: the value of each variable, unassigned reading as false. */
  type Assignment = seq<bool>

  function Value(a: Assignment, v: nat): bool {
    At(a, v)
  }

  function P(n: nat, i: nat, j: nat): nat {
    2 * n * i + 2 * j
  }

  function Q(n: nat, i: nat, j: nat): nat {
    2 * n * i + 2 * j + 1
  }

  function Z(n: nat, k: nat, l: nat, i: nat): nat {
    2 * n * k + k * l + i
  }

  /** `solver.add_variables(2*n*k + k*num_bits)`. */
  function NumVariables(n: nat, k: nat, numBits: nat): nat {
    2 * n * k + k * numBits
  }

  lemma MulMonotone(x: nat, y: nat, c: nat)
    requires x <= y
    ensures x * c <= y * c
  {
    assert y * c == x * c + (y - x) * c;
  }

  /** Row-major indexing is injective and bounded. */
  lemma MixedRadix(a: nat, b: nat, c: nat, d: nat, base: nat, bound: nat)
    requires b < base && d < base && a < bound && c < bound
    ensures a * base + b < bound * base
    ensures a * base + b == c * base + d ==> a == c && b == d
  {
    MulMonotone(a + 1, bound, base);
    assert (a + 1) * base == a * base + base;
    if a < c {
      MulMonotone(a + 1, c, base);
    } else if c < a {
      MulMonotone(c + 1, a, base);
      assert (c + 1) * base == c * base + base;
    }
  }

  /**
   * The variable layout: every `p(i,j)` and `q(i,j)` lies below `2*n*k`,
   * every `z(l,i)` between `2*n*k` and the number of allocated variables,
   * and no two of them share an index.
   */
  lemma LayoutSelectors(n: nat, k: nat, i: nat, j: nat, i': nat, j': nat)
    requires i < k && i' < k && j < n && j' < n
    ensures Q(n, i, j) < 2 * n * k
    ensures P(n, i, j) != Q(n, i', j')
    ensures P(n, i, j) == P(n, i', j') ==> i == i' && j == j'
    ensures Q(n, i, j) == Q(n, i', j') ==> i == i' && j == j'
  {
    MixedRadix(i, j, i', j', n, k);
    assert P(n, i, j) == 2 * (i * n + j);
    assert P(n, i', j') == 2 * (i' * n + j');
    assert 2 * n * k == 2 * (k * n);
  }

  lemma LayoutAuxiliary(n: nat, k: nat, numBits: nat, l: nat, i: nat, l': nat, i': nat)
    requires l < numBits && l' < numBits && i < k && i' < k
    ensures 2 * n * k <= Z(n, k, l, i) < NumVariables(n, k, numBits)
    ensures Z(n, k, l, i) == Z(n, k, l', i') ==> l == l' && i == i'
  {
    MixedRadix(l, i, l', i', k, numBits);
    assert k * l == l * k && k * l' == l' * k && k * numBits == numBits * k;
  }

  datatype Lit = Lit(variable: nat, positive: bool)

  /** A CNF clause, or an XOR constraint whose literals must have the given parity. */
  datatype Constraint = Clause(lits: seq<Lit>) | XorClause(lits: seq<Lit>, parity: bool)

  predicate LitHolds(a: Assignment, x: Lit) {
    Value(a, x.variable) == x.positive
  }

  function Parity(a: Assignment, lits: seq<Lit>): bool {
    if |lits| == 0 then false else Parity(a, lits[..|lits| - 1]) != LitHolds(a, lits[|lits| - 1])
  }

  predicate Holds(a: Assignment, c: Constraint) {
    match c
    case Clause(lits) => exists x :: x in lits && LitHolds(a, x)
    case XorClause(lits, parity) => Parity(a, lits) == parity
  }

  predicate AllHold(a: Assignment, cs: seq<Constraint>) {
    forall c :: c in cs ==> Holds(a, c)
  }

  /**
   * The selector that row `l` rules out for cube `i` and divisor `j`: `q`
   * (the negative literal) when the divisor is 1 there, `p` otherwise.
   */
  function Violated(n: nat, i: nat, j: nat, bit: bool): Lit {
    if bit then Lit(Q(n, i, j), true) else Lit(P(n, i, j), true)
  }

  function Negate(x: Lit): Lit {
    Lit(x.variable, !x.positive)
  }

  /** `z(l,i) -> not violated(i,j)`. */
  function PositiveClause(n: nat, k: nat, l: nat, row: seq<bool>, i: nat, j: nat): Constraint {
    Clause([Lit(Z(n, k, l, i), false), Negate(Violated(n, i, j, At(row, j)))])
  }

  /** One positive clause per cube and divisor. */
  function PositiveClauses(n: nat, k: nat, l: nat, row: seq<bool>): (r: seq<Constraint>)
    ensures forall c :: c in r <==> exists i, j :: 0 <= i < k && 0 <= j < n && c == PositiveClause(n, k, l, row, i, j)
  {
    var xss := seq(k, i requires 0 <= i < k => seq(n, j requires 0 <= j < n => PositiveClause(n, k, l, row, i, j)));
    assert forall i, j :: 0 <= i < k && 0 <= j < n ==> xss[i][j] == PositiveClause(n, k, l, row, i, j);
    Flatten(xss)
  }

  /** `(no selector of cube i violated) -> z(l,i)`. */
  function NegativeClause(n: nat, k: nat, l: nat, row: seq<bool>, i: nat): Constraint {
    Clause([Lit(Z(n, k, l, i), true)] + seq(n, j requires 0 <= j < n => Violated(n, i, j, At(row, j))))
  }

  /** One negative clause per cube. */
  function NegativeClauses(n: nat, k: nat, l: nat, row: seq<bool>): (r: seq<Constraint>)
    ensures forall c :: c in r <==> exists i :: 0 <= i < k && c == NegativeClause(n, k, l, row, i)
  {
    var r := seq(k, i requires 0 <= i < k => NegativeClause(n, k, l, row, i));
    assert forall i :: 0 <= i < k ==> r[i] == NegativeClause(n, k, l, row, i);
    r
  }

  function ZLits(n: nat, k: nat, l: nat): seq<Lit> {
    seq(k, i requires 0 <= i < k => Lit(Z(n, k, l, i), true))
  }

  /**
   * All constraints the encoding adds for row `l`: plain clauses, followed
   * by a single XOR constraint over `z(l,0) .. z(l,k-1)` whose parity is the
   * target bit.
   */
  function RowConstraints(target: seq<bool>, divisors: seq<seq<bool>>, k: nat, l: nat): (r: seq<Constraint>)
    ensures |r| >= 1 && r[|r| - 1] == XorClause(ZLits(|divisors|, k, l), At(target, l))
    ensures forall x :: 0 <= x < |r| - 1 ==> r[x].Clause?
  {
    var n := |divisors|;
    var row := Column(divisors, l);
    assert forall c :: c in PositiveClauses(n, k, l, row) ==> c.Clause?;
    assert forall c :: c in NegativeClauses(n, k, l, row) ==> c.Clause?;
    PositiveClauses(n, k, l, row) + NegativeClauses(n, k, l, row) + [XorClause(ZLits(n, k, l), At(target, l))]
  }

  /** The model satisfies the constraints of every row. */
  predicate SatisfiesRows(a: Assignment, target: seq<bool>, divisors: seq<seq<bool>>, k: nat) {
    forall l :: 0 <= l < |target| ==> AllHold(a, RowConstraints(target, divisors, k, l))
  }

  /** Cube `i` is true at a row: none of its selected literals is violated by the row. */
  predicate CubeHolds(a: Assignment, n: nat, i: nat, row: seq<bool>) {
    forall j :: 0 <= j < n ==> !LitHolds(a, Violated(n, i, j, At(row, j)))
  }

  /** The exclusive or of `z(l,0) .. z(l,c-1)`. */
  function XorZ(a: Assignment, n: nat, k: nat, l: nat, c: nat): bool {
    if c == 0 then false else XorZ(a, n, k, l, c - 1) != Value(a, Z(n, k, l, c - 1))
  }

  lemma {:induction false} ParityOfZ(a: Assignment, n: nat, k: nat, l: nat, c: nat)
    requires c <= k
    ensures Parity(a, ZLits(n, k, l)[..c]) == XorZ(a, n, k, l, c)
    decreases c
  {
    if c > 0 {
      assert ZLits(n, k, l)[..c][..c - 1] == ZLits(n, k, l)[..c - 1];
      ParityOfZ(a, n, k, l, c - 1);
    }
  }

  lemma AllHoldAppend(a: Assignment, xs: seq<Constraint>, ys: seq<Constraint>)
    ensures AllHold(a, xs + ys) <==> AllHold(a, xs) && AllHold(a, ys)
  {
    if AllHold(a, xs) && AllHold(a, ys) {
      forall c | c in xs + ys
        ensures Holds(a, c)
      {
        assert c in xs || c in ys;
      }
    }
  }

  /** A positive clause holds exactly when `z(l,i)` being set rules out the violated selector. */
  lemma PositiveClauseMeaning(a: Assignment, n: nat, k: nat, l: nat, row: seq<bool>, i: nat, j: nat)
    ensures Holds(a, PositiveClause(n, k, l, row, i, j)) <==>
      (Value(a, Z(n, k, l, i)) ==> !LitHolds(a, Violated(n, i, j, At(row, j))))
  {
    var c := PositiveClause(n, k, l, row, i, j);
    assert c.lits[0] in c.lits && c.lits[1] in c.lits;
  }

  /** A negative clause holds exactly when cube `i` being true at the row forces `z(l,i)`. */
  lemma NegativeClauseMeaning(a: Assignment, n: nat, k: nat, l: nat, row: seq<bool>, i: nat)
    ensures Holds(a, NegativeClause(n, k, l, row, i)) <==>
      (CubeHolds(a, n, i, row) ==> Value(a, Z(n, k, l, i)))
  {
    var c := NegativeClause(n, k, l, row, i);
    var t := seq(n, j requires 0 <= j < n => Violated(n, i, j, At(row, j)));
    assert c.lits == [Lit(Z(n, k, l, i), true)] + t;
    assert c.lits[0] in c.lits;
    if Holds(a, c) && CubeHolds(a, n, i, row) {
      var x :| x in c.lits && LitHolds(a, x);
    }
    if !CubeHolds(a, n, i, row) {
      var j :| 0 <= j < n && LitHolds(a, Violated(n, i, j, At(row, j)));
      assert t[j] in c.lits;
    }
  }

  /** The positive clauses of a row say: if `z(l,i)` is set then cube `i` is true. */
  lemma PositiveMeaning(a: Assignment, n: nat, k: nat, l: nat, row: seq<bool>)
    ensures AllHold(a, PositiveClauses(n, k, l, row)) <==>
      forall i :: 0 <= i < k && Value(a, Z(n, k, l, i)) ==> CubeHolds(a, n, i, row)
  {
    var pos := PositiveClauses(n, k, l, row);
    if AllHold(a, pos) {
      forall i, j | 0 <= i < k && Value(a, Z(n, k, l, i)) && 0 <= j < n
        ensures !LitHolds(a, Violated(n, i, j, At(row, j)))
      {
        var c := PositiveClause(n, k, l, row, i, j);
        assert c in pos;
        assert Holds(a, c);
        var x :| x in c.lits && LitHolds(a, x);
      }
    } else {
      var c :| c in pos && !Holds(a, c);
      var i, j :| 0 <= i < k && 0 <= j < n && c == PositiveClause(n, k, l, row, i, j);
      assert c.lits[0] in c.lits && c.lits[1] in c.lits;
    }
  }

  /** The negative clauses of a row say: if cube `i` is true then `z(l,i)` is set. */
  lemma NegativeMeaning(a: Assignment, n: nat, k: nat, l: nat, row: seq<bool>)
    ensures AllHold(a, NegativeClauses(n, k, l, row)) <==>
      forall i :: 0 <= i < k && CubeHolds(a, n, i, row) ==> Value(a, Z(n, k, l, i))
  {
    var neg := NegativeClauses(n, k, l, row);
    if AllHold(a, neg) {
      forall i | 0 <= i < k && CubeHolds(a, n, i, row)
        ensures Value(a, Z(n, k, l, i))
      {
        var c := NegativeClause(n, k, l, row, i);
        assert c == neg[i];
        assert Holds(a, c);
        var x :| x in c.lits && LitHolds(a, x);
        var t := seq(n, j requires 0 <= j < n => Violated(n, i, j, At(row, j)));
        assert c.lits == [Lit(Z(n, k, l, i), true)] + t;
      }
    } else {
      var c :| c in neg && !Holds(a, c);
      var i :| 0 <= i < k && c == neg[i];
      var t := seq(n, j requires 0 <= j < n => Violated(n, i, j, At(row, j)));
      assert c.lits == [Lit(Z(n, k, l, i), true)] + t;
      assert c.lits[0] in c.lits;
      forall j | 0 <= j < n
        ensures !LitHolds(a, Violated(n, i, j, At(row, j)))
      {
        assert t[j] in c.lits;
      }
    }
  }

  /**
   * The meaning of the row constraints: they hold exactly when every
   * `z(l,i)` says whether cube `i` is true at row `l`, and the exclusive or
   * of the `z(l,i)` is the target bit.
   */
  lemma RowMeaning(a: Assignment, target: seq<bool>, divisors: seq<seq<bool>>, k: nat, l: nat)
    ensures var n := |divisors|;
      AllHold(a, RowConstraints(target, divisors, k, l)) <==>
        && (forall i :: 0 <= i < k ==> (Value(a, Z(n, k, l, i)) <==> CubeHolds(a, n, i, Column(divisors, l))))
        && XorZ(a, n, k, l, k) == At(target, l)
  {
    var n := |divisors|;
    var row := Column(divisors, l);
    var pos := PositiveClauses(n, k, l, row);
    var neg := NegativeClauses(n, k, l, row);
    var xor := XorClause(ZLits(n, k, l), At(target, l));
    AllHoldAppend(a, pos, neg);
    AllHoldAppend(a, pos + neg, [xor]);
    PositiveMeaning(a, n, k, l, row);
    NegativeMeaning(a, n, k, l, row);
    ParityOfZ(a, n, k, l, k);
    assert ZLits(n, k, l)[..k] == ZLits(n, k, l);
    assert AllHold(a, [xor]) <==> Holds(a, xor);
  }

  /** The two literals that block the selectors of cube `i` and divisor `j` of model `a`. */
  function BlockingPair(a: Assignment, n: nat, i: nat, j: nat): seq<Lit> {
    [Lit(P(n, i, j), !Value(a, P(n, i, j))), Lit(Q(n, i, j), !Value(a, Q(n, i, j)))]
  }

  function BlockingCube(a: Assignment, n: nat, i: nat): (r: seq<Lit>)
    ensures forall x :: x in r <==> exists j :: 0 <= j < n && x in BlockingPair(a, n, i, j)
  {
    var xss := seq(n, j requires 0 <= j < n => BlockingPair(a, n, i, j));
    assert forall j :: 0 <= j < n ==> xss[j] == BlockingPair(a, n, i, j);
    Flatten(xss)
  }

  /**
   * The clause that blocks a found model: for every selector it holds the
   * literal that the model falsifies.
   */
  function Blocking(a: Assignment, n: nat, k: nat): (r: Constraint)
    ensures r.Clause?
    ensures forall x :: x in r.lits <==> exists i :: 0 <= i < k && x in BlockingCube(a, n, i)
  {
    var xss := seq(k, i requires 0 <= i < k => BlockingCube(a, n, i));
    assert forall i :: 0 <= i < k ==> xss[i] == BlockingCube(a, n, i);
    Clause(Flatten(xss))
  }

  /** Models `a` and `b` agree on both selectors of cube `i` and divisor `j`. */
  predicate SameSelector(a: Assignment, b: Assignment, n: nat, i: nat, j: nat) {
    Value(a, P(n, i, j)) == Value(b, P(n, i, j)) && Value(a, Q(n, i, j)) == Value(b, Q(n, i, j))
  }

  /** Two models agree on every selector variable of budget `k`. */
  predicate SameSelectors(a: Assignment, b: Assignment, n: nat, k: nat) {
    forall i, j :: 0 <= i < k && 0 <= j < n ==> SameSelector(a, b, n, i, j)
  }

  lemma BlockingHoldsWhenDifferent(a: Assignment, b: Assignment, n: nat, i: nat, j: nat, k: nat)
    requires 0 <= i < k && 0 <= j < n && !SameSelector(a, b, n, i, j)
    ensures Holds(b, Blocking(a, n, k))
  {
    var pair := BlockingPair(a, n, i, j);
    assert pair[0] in pair && pair[1] in pair;
    var x := if LitHolds(b, pair[0]) then pair[0] else pair[1];
    assert LitHolds(b, x);
    assert x in BlockingCube(a, n, i);
    assert x in Blocking(a, n, k).lits;
  }

  lemma BlockingFailsWhenSame(a: Assignment, b: Assignment, n: nat, k: nat)
    requires SameSelectors(a, b, n, k)
    ensures !Holds(b, Blocking(a, n, k))
  {
    var r := Blocking(a, n, k);
    forall x | x in r.lits
      ensures !LitHolds(b, x)
    {
      var i :| 0 <= i < k && x in BlockingCube(a, n, i);
      var j :| 0 <= j < n && x in BlockingPair(a, n, i, j);
      assert SameSelector(a, b, n, i, j);
    }
  }

  /** The blocking clause is falsified by exactly the models with the blocked selectors. */
  lemma BlockingMeaning(a: Assignment, b: Assignment, n: nat, k: nat)
    ensures Holds(b, Blocking(a, n, k)) <==> !SameSelectors(a, b, n, k)
  {
    if !SameSelectors(a, b, n, k) {
      var i, j :| 0 <= i < k && 0 <= j < n && !SameSelector(a, b, n, i, j);
      BlockingHoldsWhenDifferent(a, b, n, i, j, k);
    } else {
      BlockingFailsWhenSame(a, b, n, k);
    }
  }
}
