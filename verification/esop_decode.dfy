/**
 * Reading an ESOP cover back from a model of the encoding
 * (`esop_cover_from_model`), and the proof that every model of the row
 * constraints decodes to a cover that realises the target.
 */
module EsopDecode {
  import opened Cubes
  import opened EsopEncoding

  /** The selectors of cube `i` and divisor `j` in model `a`. */
  function PBit(a: Assignment, n: nat, i: nat, j: nat): bool {
    Value(a, P(n, i, j))
  }

  function QBit(a: Assignment, n: nat, i: nat, j: nat): bool {
    Value(a, Q(n, i, j))
  }

  /**
   * The literals of cube `i` contributed by divisors `0 .. m-1`: `p` alone
   * gives the positive literal, `q` alone the negative one, neither or both
   * give none.
   */
  function DecodeLiterals(a: Assignment, n: nat, i: nat, m: nat): seq<Literal> {
    if m == 0 then []
    else
      var j := m - 1;
      var init := DecodeLiterals(a, n, i, j);
      var p, q := PBit(a, n, i, j), QBit(a, n, i, j);
      if p && q then init
      else if p then init + [Literal(j, true)]
      else if q then init + [Literal(j, false)]
      else init
  }

  /**
   * The decoded literals are ordered by divisor, and a divisor appears
   * positively exactly when only `p` is set and negatively exactly when only
   * `q` is set.
   */
  lemma {:induction false} DecodeLiteralsShape(a: Assignment, n: nat, i: nat, m: nat)
    ensures var r := DecodeLiterals(a, n, i, m);
      && (forall x :: 0 <= x < |r| ==> r[x].variable < m)
      && (forall x, y :: 0 <= x < y < |r| ==> r[x].variable < r[y].variable)
      && (forall j: nat :: Literal(j, true) in r <==> j < m && PBit(a, n, i, j) && !QBit(a, n, i, j))
      && (forall j: nat :: Literal(j, false) in r <==> j < m && QBit(a, n, i, j) && !PBit(a, n, i, j))
    decreases m
  {
    if m > 0 {
      DecodeLiteralsShape(a, n, i, m - 1);
    }
  }

  /** Some divisor has both selectors set: the cube contradicts itself and is dropped. */
  predicate Cancelled(a: Assignment, n: nat, i: nat) {
    exists j :: 0 <= j < n && PBit(a, n, i, j) && QBit(a, n, i, j)
  }

  /** Cube `i` of the model: the literals its selectors choose, in divisor order. */
  function DecodeCube(a: Assignment, n: nat, i: nat): Cube {
    Cube(DecodeLiterals(a, n, i, n))
  }

  /**
   * Every literal of cube `i` names a divisor `< n`, positively exactly when
   * only `p(i,j)` is set and negatively exactly when only `q(i,j)` is set;
   * so the cube is the constant-true cube exactly when `p` and `q` agree on
   * every divisor.
   */
  lemma DecodeCubeShape(a: Assignment, n: nat, i: nat)
    ensures forall x :: 0 <= x < |DecodeCube(a, n, i).literals| ==> DecodeCube(a, n, i).literals[x].variable < n
    ensures forall j: nat :: Literal(j, true) in DecodeCube(a, n, i).literals <==> j < n && PBit(a, n, i, j) && !QBit(a, n, i, j)
    ensures forall j: nat :: Literal(j, false) in DecodeCube(a, n, i).literals <==> j < n && QBit(a, n, i, j) && !PBit(a, n, i, j)
    ensures DecodeCube(a, n, i) == EmptyCube <==> forall j :: 0 <= j < n ==> PBit(a, n, i, j) == QBit(a, n, i, j)
  {
    DecodeLiteralsShape(a, n, i, n);
    var lits := DecodeLiterals(a, n, i, n);
    if |lits| > 0 {
      assert Literal(lits[0].variable, lits[0].positive) in lits;
    }
  }

  /**
   * The decoding loop over cubes `0 .. c-1`: the non-empty, non-cancelled
   * cubes in order, and how many cubes decoded to the constant-true cube.
   */
  function DecodePrefix(a: Assignment, n: nat, c: nat): (r: (seq<Cube>, nat))
    ensures |r.0| + r.1 <= c
    ensures forall x :: 0 <= x < |r.0| ==> r.0[x] != EmptyCube
  {
    if c == 0 then ([], 0)
    else
      var (cover, empties) := DecodePrefix(a, n, c - 1);
      var cube := DecodeCube(a, n, c - 1);
      if Cancelled(a, n, c - 1) then (cover, empties)
      else if cube == EmptyCube then (cover, empties + 1)
      else (cover + [cube], empties)
  }

  /** Cube `i` survives decoding: it is neither cancelled nor the constant-true cube. */
  predicate KeptCube(a: Assignment, n: nat, i: nat) {
    !Cancelled(a, n, i) && DecodeCube(a, n, i) != EmptyCube
  }

  /** Cube `i` is not cancelled and decodes to the constant-true cube. */
  predicate EmptyDecoded(a: Assignment, n: nat, i: nat) {
    !Cancelled(a, n, i) && DecodeCube(a, n, i) == EmptyCube
  }

  /** The cubes among `0 .. c-1` that decode to the constant-true cube. */
  ghost function EmptyIndices(a: Assignment, n: nat, c: nat): set<nat> {
    set i: nat | i < c && EmptyDecoded(a, n, i)
  }

  /**
   * `cover` lists the kept cubes among `0 .. c-1` in increasing cube order,
   * `idx` naming the cube each entry was decoded from.
   */
  ghost predicate Selects(a: Assignment, n: nat, c: nat, idx: seq<nat>, cover: seq<Cube>) {
    && |idx| == |cover|
    && (forall x :: 0 <= x < |idx| ==> idx[x] < c && KeptCube(a, n, idx[x]) && cover[x] == DecodeCube(a, n, idx[x]))
    && (forall x, y :: 0 <= x < y < |idx| ==> idx[x] < idx[y])
    && (forall i :: 0 <= i < c && KeptCube(a, n, i) ==> i in idx)
  }

  lemma SelectsKeep(a: Assignment, n: nat, c: nat, idx: seq<nat>, cover: seq<Cube>)
    requires Selects(a, n, c, idx, cover) && KeptCube(a, n, c)
    ensures Selects(a, n, c + 1, idx + [c], cover + [DecodeCube(a, n, c)])
  {
    var idx', cover' := idx + [c], cover + [DecodeCube(a, n, c)];
    assert forall x :: 0 <= x < |idx| ==> idx'[x] == idx[x] && cover'[x] == cover[x];
    assert idx'[|idx|] == c;
    assert forall i :: 0 <= i < c + 1 && KeptCube(a, n, i) ==> i in idx' by {
      forall i | 0 <= i < c + 1 && KeptCube(a, n, i)
        ensures i in idx'
      {
        if i < c {
          var x :| 0 <= x < |idx| && idx[x] == i;
          assert idx'[x] == i;
        }
      }
    }
  }

  lemma SelectsSkip(a: Assignment, n: nat, c: nat, idx: seq<nat>, cover: seq<Cube>)
    requires Selects(a, n, c, idx, cover) && !KeptCube(a, n, c)
    ensures Selects(a, n, c + 1, idx, cover)
  {
  }

  /** Adding one index above every element of a set grows it by exactly one. */
  lemma CardinalityStep(s: set<nat>, s': set<nat>, c: nat, b: bool)
    requires forall i :: i in s ==> i < c
    requires forall i :: i in s' <==> i in s || (b && i == c)
    ensures |s'| == |s| + if b then 1 else 0
  {
    if b {
      assert s' == s + {c};
    } else {
      assert s' == s;
    }
  }

  lemma EmptyIndicesStep(a: Assignment, n: nat, c: nat)
    ensures |EmptyIndices(a, n, c + 1)| == |EmptyIndices(a, n, c)| + if EmptyDecoded(a, n, c) then 1 else 0
  {
    var s, s' := EmptyIndices(a, n, c), EmptyIndices(a, n, c + 1);
    var b := EmptyDecoded(a, n, c);
    forall i | i in s' ensures i in s || (b && i == c) {
    }
    forall i | i in s || (b && i == c) ensures i in s' {
    }
    CardinalityStep(s, s', c, b);
  }

  /** One step of the decoding loop, in terms of the kept and empty cubes. */
  lemma DecodePrefixStep(a: Assignment, n: nat, c: nat)
    requires c > 0
    ensures DecodePrefix(a, n, c).0 ==
      if KeptCube(a, n, c - 1) then DecodePrefix(a, n, c - 1).0 + [DecodeCube(a, n, c - 1)] else DecodePrefix(a, n, c - 1).0
    ensures DecodePrefix(a, n, c).1 ==
      if EmptyDecoded(a, n, c - 1) then DecodePrefix(a, n, c - 1).1 + 1 else DecodePrefix(a, n, c - 1).1
  {
    DecodePrefixCoverStep(a, n, c);
    DecodePrefixCountStep(a, n, c);
  }

  lemma DecodePrefixCoverStep(a: Assignment, n: nat, c: nat)
    requires c > 0
    ensures DecodePrefix(a, n, c).0 ==
      if KeptCube(a, n, c - 1) then DecodePrefix(a, n, c - 1).0 + [DecodeCube(a, n, c - 1)] else DecodePrefix(a, n, c - 1).0
  {
  }

  lemma DecodePrefixCountStep(a: Assignment, n: nat, c: nat)
    requires c > 0
    ensures DecodePrefix(a, n, c).1 ==
      if EmptyDecoded(a, n, c - 1) then DecodePrefix(a, n, c - 1).1 + 1 else DecodePrefix(a, n, c - 1).1
  {
  }

  /** The kept cubes among `0 .. c-1`, in increasing order. */
  ghost function KeptIndices(a: Assignment, n: nat, c: nat): seq<nat> {
    if c == 0 then []
    else KeptIndices(a, n, c - 1) + if KeptCube(a, n, c - 1) then [c - 1] else []
  }

  lemma {:induction false} DecodePrefixSelects(a: Assignment, n: nat, c: nat)
    ensures Selects(a, n, c, KeptIndices(a, n, c), DecodePrefix(a, n, c).0)
    decreases c
  {
    if c > 0 {
      DecodePrefixSelects(a, n, c - 1);
      DecodePrefixCoverStep(a, n, c);
      var prev := DecodePrefix(a, n, c - 1).0;
      var idx := KeptIndices(a, n, c - 1);
      if KeptCube(a, n, c - 1) {
        SelectsKeep(a, n, c - 1, idx, prev);
        assert KeptIndices(a, n, c) == idx + [c - 1];
        assert DecodePrefix(a, n, c).0 == prev + [DecodeCube(a, n, c - 1)];
      } else {
        SelectsSkip(a, n, c - 1, idx, prev);
        assert KeptIndices(a, n, c) == idx;
        assert DecodePrefix(a, n, c).0 == prev;
      }
    }
  }

  lemma {:induction false} DecodePrefixEmpties(a: Assignment, n: nat, c: nat)
    ensures DecodePrefix(a, n, c).1 == |EmptyIndices(a, n, c)|
    decreases c
  {
    if c == 0 {
      assert EmptyIndices(a, n, 0) == {};
    } else {
      DecodePrefixEmpties(a, n, c - 1);
      DecodePrefixCountStep(a, n, c);
      EmptyIndicesStep(a, n, c - 1);
    }
  }

  /**
   * The decoding loop keeps exactly the non-cancelled, non-empty cubes, in
   * order, and counts exactly the non-cancelled cubes that decode to the
   * constant-true cube.
   */
  lemma DecodePrefixKeeps(a: Assignment, n: nat, c: nat)
    ensures exists idx :: Selects(a, n, c, idx, DecodePrefix(a, n, c).0)
    ensures DecodePrefix(a, n, c).1 == |EmptyIndices(a, n, c)|
  {
    DecodePrefixSelects(a, n, c);
    DecodePrefixEmpties(a, n, c);
    assert Selects(a, n, c, KeptIndices(a, n, c), DecodePrefix(a, n, c).0);
  }

  /**
   * `esop_cover_from_model`: the decoded cubes, followed by one constant-true
   * cube when an odd number of cubes decoded to it (an even number cancels).
   */
  function EsopCoverFromModel(a: Assignment, n: nat, k: nat): (r: seq<Cube>)
    ensures |r| <= k
    ensures forall x :: 0 <= x < |r| && r[x] == EmptyCube ==> x == |r| - 1
    ensures forall x, y :: 0 <= x < |r| && 0 <= y < |r[x].literals| ==> r[x].literals[y].variable < n
  {
    var (cover, empties) := DecodePrefix(a, n, k);
    DecodedVariables(a, n, k);
    if empties % 2 == 1 then cover + [EmptyCube] else cover
  }

  /** Every literal of every cube of `cover` names a divisor `< n`. */
  predicate VariablesBelow(cover: seq<Cube>, n: nat) {
    forall x, y :: 0 <= x < |cover| && 0 <= y < |cover[x].literals| ==> cover[x].literals[y].variable < n
  }

  lemma DecodeCubeBelow(a: Assignment, n: nat, i: nat)
    ensures forall y :: 0 <= y < |DecodeCube(a, n, i).literals| ==> DecodeCube(a, n, i).literals[y].variable < n
  {
    DecodeLiteralsShape(a, n, i, n);
  }

  lemma VariablesBelowSnoc(cover: seq<Cube>, cube: Cube, n: nat)
    requires VariablesBelow(cover, n)
    requires forall y :: 0 <= y < |cube.literals| ==> cube.literals[y].variable < n
    ensures VariablesBelow(cover + [cube], n)
  {
    var cover' := cover + [cube];
    assert forall x :: 0 <= x < |cover| ==> cover'[x] == cover[x];
    assert cover'[|cover|] == cube;
  }

  lemma {:induction false} DecodedVariables(a: Assignment, n: nat, c: nat)
    ensures VariablesBelow(DecodePrefix(a, n, c).0, n)
    decreases c
  {
    if c > 0 {
      DecodedVariables(a, n, c - 1);
      DecodePrefixCoverStep(a, n, c);
      if KeptCube(a, n, c - 1) {
        DecodeCubeBelow(a, n, c - 1);
        VariablesBelowSnoc(DecodePrefix(a, n, c - 1).0, DecodeCube(a, n, c - 1), n);
      }
    }
  }

  lemma CubeValueSnoc(lits: seq<Literal>, x: Literal, row: seq<bool>)
    ensures CubeValue(Cube(lits + [x]), row) <==> CubeValue(Cube(lits), row) && At(row, x.variable) == x.positive
  {
    var r := lits + [x];
    assert r[|lits|] == x;
    assert forall y :: 0 <= y < |lits| ==> r[y] == lits[y];
  }

  /**
   * On divisors `0 .. m-1` without a cancelling pair, the decoded literals
   * are all satisfied by a row exactly when no selector the row violates is
   * set.
   */
  lemma {:induction false} DecodeLiteralsValue(a: Assignment, n: nat, i: nat, m: nat, row: seq<bool>)
    requires forall j :: 0 <= j < m ==> !(PBit(a, n, i, j) && QBit(a, n, i, j))
    ensures CubeValue(Cube(DecodeLiterals(a, n, i, m)), row) <==>
      forall j :: 0 <= j < m ==> !LitHolds(a, Violated(n, i, j, At(row, j)))
    decreases m
  {
    if m > 0 {
      var j := m - 1;
      var init := DecodeLiterals(a, n, i, j);
      DecodeLiteralsValue(a, n, i, j, row);
      var p, q := PBit(a, n, i, j), QBit(a, n, i, j);
      if p {
        assert DecodeLiterals(a, n, i, m) == init + [Literal(j, true)];
        CubeValueSnoc(init, Literal(j, true), row);
      } else if q {
        assert DecodeLiterals(a, n, i, m) == init + [Literal(j, false)];
        CubeValueSnoc(init, Literal(j, false), row);
      } else {
        assert DecodeLiterals(a, n, i, m) == init;
      }
    }
  }

  /** A cancelled cube is false at every row. */
  lemma CancelledIsFalse(a: Assignment, n: nat, i: nat, row: seq<bool>)
    requires Cancelled(a, n, i)
    ensures !CubeHolds(a, n, i, row)
  {
    var j :| 0 <= j < n && PBit(a, n, i, j) && QBit(a, n, i, j);
    assert LitHolds(a, Violated(n, i, j, At(row, j)));
  }

  /** A cube that is not cancelled denotes exactly the cube the encoding describes. */
  lemma DecodeCubeValue(a: Assignment, n: nat, i: nat, row: seq<bool>)
    requires !Cancelled(a, n, i)
    ensures CubeValue(DecodeCube(a, n, i), row) <==> CubeHolds(a, n, i, row)
  {
    DecodeLiteralsValue(a, n, i, n, row);
  }

  /** The exclusive or of what the encoding says cubes `0 .. c-1` are at a row. */
  function XorCubes(a: Assignment, n: nat, row: seq<bool>, c: nat): bool {
    if c == 0 then false else XorCubes(a, n, row, c - 1) != CubeHolds(a, n, c - 1, row)
  }

  /** The value the decoded prefix denotes: its cover, negated once per odd count of constant-true cubes. */
  function PrefixValue(a: Assignment, n: nat, c: nat, row: seq<bool>): bool {
    CoverValue(DecodePrefix(a, n, c).0, row) != (DecodePrefix(a, n, c).1 % 2 == 1)
  }

  lemma OddSuccessor(x: nat)
    ensures ((x + 1) % 2 == 1) == !(x % 2 == 1)
  {
  }

  lemma PrefixValueCancelled(a: Assignment, n: nat, c: nat, row: seq<bool>)
    requires c > 0 && Cancelled(a, n, c - 1)
    ensures PrefixValue(a, n, c, row) == PrefixValue(a, n, c - 1, row)
    ensures !CubeHolds(a, n, c - 1, row)
  {
    DecodePrefixStep(a, n, c);
    CancelledIsFalse(a, n, c - 1, row);
  }

  lemma PrefixValueEmpty(a: Assignment, n: nat, c: nat, row: seq<bool>)
    requires c > 0 && EmptyDecoded(a, n, c - 1)
    ensures PrefixValue(a, n, c, row) == !PrefixValue(a, n, c - 1, row)
    ensures CubeHolds(a, n, c - 1, row)
  {
    DecodePrefixStep(a, n, c);
    OddSuccessor(DecodePrefix(a, n, c - 1).1);
    DecodeCubeValue(a, n, c - 1, row);
    assert CubeValue(EmptyCube, row);
  }

  lemma PrefixValueKept(a: Assignment, n: nat, c: nat, row: seq<bool>)
    requires c > 0 && KeptCube(a, n, c - 1)
    ensures PrefixValue(a, n, c, row) == (PrefixValue(a, n, c - 1, row) != CubeHolds(a, n, c - 1, row))
  {
    DecodePrefixStep(a, n, c);
    var prev := DecodePrefix(a, n, c - 1).0;
    var cube := DecodeCube(a, n, c - 1);
    CoverValueAppend(prev, [cube], row);
    assert [cube][..0] == [];
    DecodeCubeValue(a, n, c - 1, row);
  }

  /** One decoding step flips the prefix's value exactly when the encoded cube holds. */
  lemma PrefixValueStep(a: Assignment, n: nat, c: nat, row: seq<bool>)
    requires c > 0
    ensures PrefixValue(a, n, c, row) == (PrefixValue(a, n, c - 1, row) != CubeHolds(a, n, c - 1, row))
  {
    if Cancelled(a, n, c - 1) {
      PrefixValueCancelled(a, n, c, row);
    } else if DecodeCube(a, n, c - 1) == EmptyCube {
      PrefixValueEmpty(a, n, c, row);
    } else {
      PrefixValueKept(a, n, c, row);
    }
  }

  /**
   * The decoded prefix, with its constant-true cubes counted by parity,
   * denotes the exclusive or of the encoded cubes.
   */
  lemma {:induction false} DecodePrefixValue(a: Assignment, n: nat, c: nat, row: seq<bool>)
    ensures PrefixValue(a, n, c, row) == XorCubes(a, n, row, c)
    decreases c
  {
    if c > 0 {
      DecodePrefixValue(a, n, c - 1, row);
      PrefixValueStep(a, n, c, row);
    }
  }

  /** When the `z` variables of a row are correct, their exclusive or is that of the cubes. */
  lemma {:induction false} XorZMatches(a: Assignment, n: nat, k: nat, l: nat, c: nat, row: seq<bool>)
    requires c <= k
    requires forall i :: 0 <= i < k ==> (Value(a, Z(n, k, l, i)) <==> CubeHolds(a, n, i, row))
    ensures XorZ(a, n, k, l, c) == XorCubes(a, n, row, c)
    decreases c
  {
    if c > 0 {
      XorZMatches(a, n, k, l, c - 1, row);
    }
  }

  /**
   * Soundness of the encoding: every model of the row constraints for budget
   * `k` decodes to a cover of at most `k` cubes whose value at every row of
   * the divisors is the target bit.
   */
  lemma RoundTrip(a: Assignment, target: seq<bool>, divisors: seq<seq<bool>>, k: nat)
    requires SatisfiesRows(a, target, divisors, k)
    ensures forall l :: 0 <= l < |target| ==>
      CoverValue(EsopCoverFromModel(a, |divisors|, k), Column(divisors, l)) == target[l]
  {
    var n := |divisors|;
    forall l | 0 <= l < |target|
      ensures CoverValue(EsopCoverFromModel(a, n, k), Column(divisors, l)) == target[l]
    {
      var row := Column(divisors, l);
      RowMeaning(a, target, divisors, k, l);
      XorZMatches(a, n, k, l, k, row);
      DecodePrefixValue(a, n, k, row);
      assert PrefixValue(a, n, k, row) == XorCubes(a, n, row, k);
      var cover := DecodePrefix(a, n, k).0;
      if DecodePrefix(a, n, k).1 % 2 == 1 {
        CoverValueAppend(cover, [EmptyCube], row);
        assert CoverValue([EmptyCube], row) == (CoverValue([], row) != CubeValue(EmptyCube, row));
      }
    }
  }
}
