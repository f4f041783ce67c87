/**
 * Functional dependencies that let a line be computed from higher lines
 * instead of being prepared by a generic multi-controlled rotation.
 *
 * Both kinds store control literals in the gate encoding (`2*line` positive,
 * `2*line+1` negative). The ESOP kind maps a line to a list of cubes, each a
 * list of literals; the pattern kind maps a line to a tagged pattern with an
 * operand list.
 */
module Dependencies {
  import opened Gates

  /**
   * The pattern kinds the substitution distinguishes. `Other` stands for any
   * further kind of the dependency-analysis enumeration, which the
   * substitution leaves without gates.
   */
  datatype PatternKind = Equal | Xor | Xnor | And | Nand | Other

  datatype Pattern = Pattern(kind: PatternKind, operands: seq<nat>)

  /**
   * The dependency map handed to the gate generator, as one sum type.
   * For the ESOP kind, `esopCost` is `esop_cnot_cost` and `upperBound` is
   * `compute_upperbound_cost(zero_lines, one_lines, num_vars, var_index)`;
   * both are uninterpreted.
   */
  datatype Dependencies =
    | NoDependencies
    | EsopDependencies(
        cubes: map<nat, seq<seq<nat>>>,
        esopCost: seq<seq<nat>> -> nat,
        upperBound: (seq<nat>, seq<nat>, nat, nat) -> nat)
    | PatternDependencies(patterns: map<nat, Pattern>)

  /** `dependencies.find(line) != dependencies.end()`. */
  predicate HasDependency(deps: Dependencies, line: nat) {
    match deps
    case NoDependencies => false
    case EsopDependencies(cubes, _, _) => line in cubes
    case PatternDependencies(patterns) => line in patterns
  }

  /** `dependencies.empty()`. */
  predicate IsEmpty(deps: Dependencies)
    ensures IsEmpty(deps) ==> forall line :: !HasDependency(deps, line)
  {
    match deps
    case NoDependencies => true
    case EsopDependencies(cubes, _, _) => |cubes| == 0
    case PatternDependencies(patterns) => |patterns| == 0
  }

  /** The kinds whose substitution ends with an uncontrolled NOT. */
  predicate Negates(p: Pattern) {
    || p.kind == Xnor
    || p.kind == Nand
    || (p.kind == Equal && |p.operands| > 0 && p.operands[0] % 2 == 1)
  }

  /**
   * The gates that replace the rotation on a line with a pattern dependency.
   * EQUAL copies the operands (and negates when the first operand is an odd,
   * i.e. negative, literal), XOR chains one CNOT per operand, XNOR adds a
   * final NOT, AND is one multi-controlled NOT and NAND adds a final NOT.
   * An EQUAL pattern without operands reads `second[0]` out of range in the
   * code; the model treats it as even.
   */
  function PatternGates(p: Pattern): (r: seq<Gate>)
    ensures forall x :: 0 <= x < |r| ==> r[x].angle == Not
    ensures p.kind == Equal ==> |r| == (if |p.operands| > 0 && p.operands[0] % 2 == 1 then 2 else 1)
    ensures p.kind == Xor ==> |r| == |p.operands|
    ensures p.kind == Xnor ==> |r| == |p.operands| + 1
    ensures p.kind == And ==> |r| == 1
    ensures p.kind == Nand ==> |r| == 2
    ensures p.kind == Other ==> |r| == 0
    ensures p.kind in {Xor, Xnor} ==> forall x :: 0 <= x < |p.operands| ==> r[x].controls == [p.operands[x]]
    ensures p.kind in {Equal, And, Nand} ==> r[0].controls == p.operands
    ensures Negates(p) ==> |r| >= 1 && r[|r| - 1] == Gate(Not, [])
  {
    var copy := Gate(Not, p.operands);
    var negate := Gate(Not, []);
    var chain := seq(|p.operands|, x requires 0 <= x < |p.operands| => Gate(Not, [p.operands[x]]));
    match p.kind
    case Equal => if |p.operands| > 0 && p.operands[0] % 2 == 1 then [copy, negate] else [copy]
    case Xor => chain
    case Xnor => chain + [negate]
    case And => [copy]
    case Nand => [copy, negate]
    case Other => []
  }

  /** One NOT per cube of an ESOP dependency, controlled by the cube's literals. */
  function EsopGates(cubes: seq<seq<nat>>): (r: seq<Gate>)
    ensures |r| == |cubes|
    ensures forall x :: 0 <= x < |r| ==> r[x] == Gate(Not, cubes[x])
  {
    seq(|cubes|, x requires 0 <= x < |cubes| => Gate(Not, cubes[x]))
  }

  /**
   * Every literal list a dependency of `line` contributes names distinct
   * lines above `line`: a line is only ever derived from lines prepared
   * before it.
   */
  predicate WellFormedDependencies(deps: Dependencies) {
    match deps
    case NoDependencies => true
    case EsopDependencies(cubes, _, _) =>
      forall line, x :: line in cubes && 0 <= x < |cubes[line]| ==>
        ControlsAbove(cubes[line][x], line) && DistinctLines(cubes[line][x])
    case PatternDependencies(patterns) =>
      forall line :: line in patterns ==>
        ControlsAbove(patterns[line].operands, line) && DistinctLines(patterns[line].operands)
  }

  /** Substituted gates inherit well-formedness from a well-formed pattern. */
  lemma PatternGatesOk(p: Pattern, line: nat)
    requires ControlsAbove(p.operands, line) && DistinctLines(p.operands)
    ensures forall x :: 0 <= x < |PatternGates(p)| ==> GateOk(PatternGates(p)[x], line)
  {
  }
}
