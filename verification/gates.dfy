/**
 * The gate list that state preparation builds: a map from target line to the
 * ordered gates placed on that line (`gates_t`).
 *
 * Rotation angles are kept symbolic. `Not` stands for the angle pi (an X
 * gate), `Hadamard` for pi/2, and `Ry(c0Ones, ttOnes)` for the Y rotation by
 * `2 * acos(sqrt(c0Ones / ttOnes))`.
 *
 * A control literal `c` names line `c / 2`; an even literal is a positive
 * (active-high) control and an odd literal a negative (active-low) one.
 */
module Gates {

  datatype Angle = Not | Hadamard | Ry(c0Ones: nat, ttOnes: nat)

  datatype Gate = Gate(angle: Angle, controls: seq<nat>)

  /**
   * Key presence and emptiness are distinct: `gates[line]` in the code
   * creates an empty entry, and the code later tests key presence.
   */
  type GateMap = map<nat, seq<Gate>>

  function LineOf(literal: nat): nat {
    literal / 2
  }

  function PositiveControl(line: nat): (c: nat)
    ensures LineOf(c) == line && c % 2 == 0
  {
    2 * line
  }

  function NegativeControl(line: nat): (c: nat)
    ensures LineOf(c) == line && c % 2 == 1
  {
    2 * line + 1
  }

  /** The gates on `line`, empty when the line has no entry. */
  function Lookup(m: GateMap, line: nat): seq<Gate> {
    if line in m then m[line] else []
  }

  /** `gates[line]` used for reading only: creates an empty entry if absent. */
  function Touch(m: GateMap, line: nat): (r: GateMap)
    ensures r.Keys == m.Keys + {line}
    ensures forall k :: k in r ==> r[k] == Lookup(m, k)
  {
    if line in m then m else m[line := []]
  }

  /** `gates[line].emplace_back(g)`. */
  function Append(m: GateMap, line: nat, g: Gate): (r: GateMap)
    ensures r.Keys == m.Keys + {line}
    ensures r[line] == Lookup(m, line) + [g]
    ensures forall k :: k in r && k != line ==> r[k] == m[k]
  {
    m[line := Lookup(m, line) + [g]]
  }

  /** Appends `gs`, in order, to `line`. */
  function AppendAll(m: GateMap, line: nat, gs: seq<Gate>): (r: GateMap)
    ensures r.Keys == m.Keys + {line}
    ensures r[line] == Lookup(m, line) + gs
    ensures forall k :: k in r && k != line ==> r[k] == m[k]
  {
    m[line := Lookup(m, line) + gs]
  }

  /**
   * One Hadamard with the given controls on each line `0..count-1`
   * (the uniform-superposition shortcut for an all-one cofactor).
   */
  function AddHadamards(m: GateMap, count: nat, controls: seq<nat>): (r: GateMap)
    ensures forall k: nat :: k in r <==> k in m || k < count
    ensures forall i :: 0 <= i < count ==> r[i] == Lookup(m, i) + [Gate(Hadamard, controls)]
    ensures forall k :: k in r && k >= count ==> k in m && r[k] == m[k]
  {
    if count == 0 then m
    else Append(AddHadamards(m, count - 1, controls), count - 1, Gate(Hadamard, controls))
  }

  /**
   * `r` is `m` with gates appended: no entry disappears and every existing
   * gate list is a prefix of the new one.
   */
  ghost predicate Extends(m: GateMap, r: GateMap) {
    forall k :: k in m ==> k in r && m[k] <= r[k]
  }

  /** No line above `v` gained an entry or a gate. */
  ghost predicate UnchangedAbove(m: GateMap, r: GateMap, v: nat) {
    forall k :: k in r && k > v ==> k in m && r[k] == m[k]
  }

  lemma ExtendsTransitive(a: GateMap, b: GateMap, c: GateMap)
    requires Extends(a, b) && Extends(b, c)
    ensures Extends(a, c)
  {
    forall k | k in a
      ensures k in c && a[k] <= c[k]
    {
      assert a[k] == b[k][..|a[k]|];
      assert b[k] == c[k][..|b[k]|];
    }
  }

  /** Every literal of `controls` names a line strictly above `line`. */
  predicate ControlsAbove(controls: seq<nat>, line: nat) {
    forall x :: 0 <= x < |controls| ==> LineOf(controls[x]) > line
  }

  /** No two literals of `controls` name the same line. */
  predicate DistinctLines(controls: seq<nat>) {
    forall x, y :: 0 <= x < y < |controls| ==> LineOf(controls[x]) != LineOf(controls[y])
  }

  /**
   * A gate placed on `line` is well formed when its controls refer to
   * distinct higher lines and, for a rotation, the ratio `c0Ones / ttOnes`
   * is defined and below one (so the angle's square root and division are
   * meaningful and the rotation is not the identity).
   */
  predicate GateOk(g: Gate, line: nat) {
    && ControlsAbove(g.controls, line)
    && DistinctLines(g.controls)
    && (g.angle.Ry? ==> g.angle.c0Ones < g.angle.ttOnes)
  }

  predicate WellFormed(m: GateMap) {
    forall line, x :: line in m && 0 <= x < |m[line]| ==> GateOk(m[line][x], line)
  }

  /** All lines of the map are below `bound`. */
  predicate LinesBelow(m: GateMap, bound: nat) {
    forall k :: k in m ==> k < bound
  }
}
