/**
 * Truth tables as bit sequences.
 *
 * A truth table over the variables `0..v` is a `seq<bool>` of length
 * `Pow2(v + 1)`; bit `b` is the function value at the assignment whose
 * binary digits are the bits of `b`, variable 0 being the least significant.
 * Cofactoring on the top variable `v` and shrinking the result to `v`
 * variables therefore gives the lower half (variable `v` = 0) and the upper
 * half (variable `v` = 1) of the table.
 */
module TruthTables {

  /** Integer power of two (the model's replacement for `pow(2, n)` and `1 << n`). */
  function Pow2(n: nat): (r: nat)
    ensures r >= 1
    ensures n >= 1 ==> r >= 2
    ensures r > n
  {
    if n == 0 then 1 else 2 * Pow2(n - 1)
  }

  /** Number of one bits (`kitty::count_ones`). */
  function CountOnes(t: seq<bool>): (r: nat)
    ensures r <= |t|
  {
    if |t| == 0 then 0 else CountOnes(t[..|t| - 1]) + (if t[|t| - 1] then 1 else 0)
  }

  /**
   * The count of ones is zero exactly for the constant-zero table and the
   * table's size exactly for the constant-one table.
   */
  lemma {:induction false} CountOnesConstant(t: seq<bool>)
    ensures CountOnes(t) == 0 <==> IsConst0(t)
    ensures CountOnes(t) == |t| <==> IsConst1(t)
    decreases |t|
  {
    if |t| > 0 {
      var init := t[..|t| - 1];
      CountOnesConstant(init);
      assert forall b :: 0 <= b < |init| ==> init[b] == t[b];
    }
  }

  lemma {:induction false} CountOnesAppend(a: seq<bool>, b: seq<bool>)
    ensures CountOnes(a + b) == CountOnes(a) + CountOnes(b)
    decreases |b|
  {
    if |b| == 0 {
      assert a + b == a;
    } else {
      assert (a + b)[..|a + b| - 1] == a + b[..|b| - 1];
      CountOnesAppend(a, b[..|b| - 1]);
    }
  }

  predicate IsConst0(t: seq<bool>) {
    forall b :: 0 <= b < |t| ==> !t[b]
  }

  predicate IsConst1(t: seq<bool>) {
    forall b :: 0 <= b < |t| ==> t[b]
  }

  /** Bitwise complement (`~t`). */
  function Complement(t: seq<bool>): (r: seq<bool>)
    ensures |r| == |t|
    ensures forall b :: 0 <= b < |t| ==> r[b] == !t[b]
  {
    seq(|t|, b requires 0 <= b < |t| => !t[b])
  }

  /** Cofactor with the top variable set to 0, shrunk by one variable. */
  function Cofactor0(t: seq<bool>): (r: seq<bool>)
    ensures |r| == |t| / 2
    ensures forall b :: 0 <= b < |r| ==> r[b] == t[b]
  {
    t[..|t| / 2]
  }

  /** Cofactor with the top variable set to 1, shrunk by one variable. */
  function Cofactor1(t: seq<bool>): (r: seq<bool>)
    ensures |r| == |t| - |t| / 2
    ensures forall b :: 0 <= b < |r| ==> r[b] == t[|t| / 2 + b]
  {
    t[|t| / 2..]
  }

  /** The two cofactors partition the table, so their one counts add up. */
  lemma CofactorsSplitOnes(t: seq<bool>)
    ensures Cofactor0(t) + Cofactor1(t) == t
    ensures CountOnes(Cofactor0(t)) + CountOnes(Cofactor1(t)) == CountOnes(t)
  {
    assert Cofactor0(t) + Cofactor1(t) == t;
    CountOnesAppend(Cofactor0(t), Cofactor1(t));
  }

  /**
   * The three-way classification the recursion uses for a cofactor:
   * all-one (`count_ones == 2^num_vars`), all-zero (`count_ones == 0`), mixed.
   * All-one is checked first, as in the code; the two constant shapes cannot
   * both hold of a table with at least one bit.
   */
  datatype Shape = AllOne | AllZero | Mixed

  function ShapeOf(t: seq<bool>): (s: Shape)
    ensures s == AllOne <==> CountOnes(t) == |t|
    ensures s == AllZero <==> CountOnes(t) == 0 && |t| > 0
    ensures s == Mixed <==> 0 < CountOnes(t) < |t|
    ensures s == AllOne <==> IsConst1(t)
    ensures s == AllZero <==> IsConst0(t) && |t| > 0
  {
    CountOnesConstant(t);
    var ones := CountOnes(t);
    if ones == |t| then AllOne else if ones == 0 then AllZero else Mixed
  }

  /** A table of a single bit is never mixed: the recursion bottoms out at variable 0. */
  lemma SingleBitIsConstant(t: seq<bool>)
    requires |t| == 1
    ensures ShapeOf(t) != Mixed
  {
  }
}
