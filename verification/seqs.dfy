/** Small sequence utilities used by the SAT encoding. */
module Seqs {

  /** Concatenation of a sequence of sequences, in order. */
  function Flatten<T(!new)>(xss: seq<seq<T>>): (r: seq<T>)
    ensures forall x :: x in r <==> exists i :: 0 <= i < |xss| && x in xss[i]
  {
    if |xss| == 0 then []
    else
      var init := xss[..|xss| - 1];
      assert forall i :: 0 <= i < |init| ==> init[i] == xss[i];
      Flatten(init) + xss[|xss| - 1]
  }

  /** `s` with the elements at `i` and `j` exchanged (`std::swap(s[i], s[j])`). */
  function Swap<T>(s: seq<T>, i: nat, j: nat): (r: seq<T>)
    requires i < |s| && j < |s|
    ensures |r| == |s|
    ensures r[i] == s[j] && r[j] == s[i]
    ensures forall x :: 0 <= x < |s| && x != i && x != j ==> r[x] == s[x]
    ensures multiset(r) == multiset(s)
  {
    s[i := s[j]][j := s[i]]
  }

  /** Swapping the head with position `f` as a concatenation of the untouched parts. */
  lemma SwapHeadSplit<T>(s: seq<T>, f: nat)
    requires 0 < f < |s|
    ensures Swap(s, 0, f) == [s[f]] + s[1..f] + [s[0]] + s[f + 1..]
    ensures s == [s[0]] + s[1..f] + [s[f]] + s[f + 1..]
  {
  }
}
