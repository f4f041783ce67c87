/**
 * The recursive gate generator `MC_qg_generation`.
 *
 * A call at `v` receives a truth table over the variables `0..v`, the control
 * context accumulated by its callers and the gate map built so far. It may
 * place one gate (or a dependency substitution) on line `v`, extends the
 * control context for the two cofactors, and then follows a 3x3 case table
 * on the shapes of the cofactors: an all-one cofactor puts a Hadamard on
 * every lower line, an all-zero cofactor is pruned, a mixed cofactor is
 * handled by a recursive call at `v - 1`.
 *
 * The three overloads of the code (no dependencies, ESOP dependencies,
 * pattern dependencies) are one function here, dispatching on
 * `Dependencies`; on a line without a dependency they behave identically.
 */
module Generation {
  import opened TruthTables
  import opened Gates
  import opened Dependencies

  /** The arguments that stay fixed through the recursion. */
  datatype Context = Context(
    numVars: nat,
    deps: Dependencies,
    zeroLines: seq<nat>,
    oneLines: seq<nat>)

  /** The ESOP dependency of `v` exists and is no costlier than a generic rotation. */
  predicate EsopUseful(ctx: Context, v: nat)
    requires ctx.deps.EsopDependencies?
  {
    v in ctx.deps.cubes
    && ctx.deps.esopCost(ctx.deps.cubes[v]) <= ctx.deps.upperBound(ctx.zeroLines, ctx.oneLines, ctx.numVars, v)
  }

  /** Line `v` is a constant line (it appears in `one_lines` or `zero_lines`). */
  predicate IsConstLine(ctx: Context, v: nat) {
    v in ctx.oneLines || v in ctx.zeroLines
  }

  /**
   * The rotation step on line `v` when the line is not constant and the
   * cofactor-0 weight differs from the table's weight: either the generic
   * rotation `Ry(c0Ones, ttOnes)` under `controls`, or the dependency's gates.
   */
  function RotationStep(m: GateMap, v: nat, controls: seq<nat>, rotation: Gate, ctx: Context): (r: GateMap)
    ensures forall k :: k in r <==> k in m || k == v
    ensures forall k :: k in r && k != v ==> r[k] == m[k]
    ensures Lookup(m, v) <= r[v]
    ensures !HasDependency(ctx.deps, v) ==> r[v] == Lookup(m, v) + [rotation]
    ensures ctx.deps.PatternDependencies? && HasDependency(ctx.deps, v) ==>
      r[v] == Lookup(m, v) + (if |Lookup(m, v)| == 0 then PatternGates(ctx.deps.patterns[v]) else [])
    ensures ctx.deps.EsopDependencies? && EsopUseful(ctx, v) ==>
      r[v] == Lookup(m, v) + (if |Lookup(m, v)| == 0 then EsopGates(ctx.deps.cubes[v]) else [])
    ensures ctx.deps.EsopDependencies? && HasDependency(ctx.deps, v) && !EsopUseful(ctx, v) ==>
      r[v] == Lookup(m, v) + [rotation]
  {
    match ctx.deps
    case NoDependencies => Append(m, v, rotation)
    case EsopDependencies(cubes, _, _) =>
      var touched := Touch(m, v);
      if |touched[v]| == 0 && EsopUseful(ctx, v) then AppendAll(touched, v, EsopGates(cubes[v]))
      else if !EsopUseful(ctx, v) then Append(touched, v, rotation)
      else touched
    case PatternDependencies(patterns) =>
      if v in patterns then
        var touched := Touch(m, v);
        if |touched[v]| == 0 then AppendAll(touched, v, PatternGates(patterns[v])) else touched
      else Append(m, v, rotation)
  }

  /**
   * The gate placed on line `v` itself (lines 104-152, 247-388, 483-507 of the
   * three overloads), together with the `is_const` flag.
   */
  function LineGate(m: GateMap, tt: seq<bool>, v: nat, controls: seq<nat>, ctx: Context): (r: (GateMap, bool))
    ensures r.1 <==> IsConstLine(ctx, v)
    ensures forall k :: k in r.0 && k != v ==> k in m && r.0[k] == m[k]
    ensures forall k :: k in m ==> k in r.0
    ensures v in r.0 ==> Lookup(m, v) <= r.0[v]
    ensures v in ctx.oneLines ==> r.0 == if v in m then m else m[v := [Gate(Not, [])]]
    ensures !HasDependency(ctx.deps, v) ==>
      (Lookup(r.0, v) == Lookup(m, v) + [Gate(Ry(CountOnes(Cofactor0(tt)), CountOnes(tt)), controls)]
       <==> !IsConstLine(ctx, v) && CountOnes(Cofactor0(tt)) != CountOnes(tt))
    ensures !HasDependency(ctx.deps, v) && !(v in ctx.oneLines) ==>
      (!IsConstLine(ctx, v) && CountOnes(Cofactor0(tt)) != CountOnes(tt)) || r.0 == m
    ensures v !in ctx.oneLines && (v in ctx.zeroLines || CountOnes(Cofactor0(tt)) == CountOnes(tt)) ==> r.0 == m
    ensures !IsConstLine(ctx, v) && CountOnes(Cofactor0(tt)) != CountOnes(tt) ==>
      r.0 == RotationStep(m, v, controls, Gate(Ry(CountOnes(Cofactor0(tt)), CountOnes(tt)), controls), ctx)
  {
    var c0Ones := CountOnes(Cofactor0(tt));
    var ttOnes := CountOnes(tt);
    if v in ctx.oneLines then
      var r := if v in m then m else m[v := [Gate(Not, [])]];
      assert Lookup(r, v) != Lookup(m, v) + [Gate(Ry(c0Ones, ttOnes), controls)] by {
        if v !in m {
          assert Lookup(r, v)[0].angle == Not;
        }
      }
      (r, true)
    else if v in ctx.zeroLines then
      (m, true)
    else if c0Ones != ttOnes then
      (RotationStep(m, v, controls, Gate(Ry(c0Ones, ttOnes), controls), ctx), false)
    else
      (m, false)
  }

  /**
   * The control contexts of the two cofactors: the cofactor-0 branch gets a
   * negative and the cofactor-1 branch a positive literal on line `v`, unless
   * the line is constant or has a dependency.
   */
  function ChildControls(controls: seq<nat>, v: nat, isConst: bool, ctx: Context): (r: (seq<nat>, seq<nat>))
    ensures !isConst && !HasDependency(ctx.deps, v) ==>
      r.0 == controls + [NegativeControl(v)] && r.1 == controls + [PositiveControl(v)]
    ensures isConst || HasDependency(ctx.deps, v) ==> r.0 == controls && r.1 == controls
  {
    if !HasDependency(ctx.deps, v) && !isConst then
      (controls + [NegativeControl(v)], controls + [PositiveControl(v)])
    else
      (controls, controls)
  }

  /** A mixed cofactor has at least two bits, so a recursive call never reaches below variable 0. */
  lemma MixedHasVariable(t: seq<bool>, v: nat)
    requires |t| == Pow2(v)
    requires ShapeOf(t) == Mixed
    ensures v >= 1
  {
    if v == 0 {
      SingleBitIsConstant(t);
    }
  }

  /**
   * `MC_qg_generation(gates, num_vars, tt, v, controls, deps, zero_lines, one_lines)`.
   * Every gate it adds goes to line `v` or to a line below it, and it only
   * ever appends.
   *
   * The 3x3 case table of the code (all-one / all-zero / mixed for each
   * cofactor) is the cofactor-0 decision followed by the cofactor-1
   * decision: in every one of the nine cases the code does exactly what
   * `Branch` prescribes for `tt0`, then what it prescribes for `tt1`.
   */
  function Generate(m: GateMap, tt: seq<bool>, v: nat, controls: seq<nat>, ctx: Context): (r: GateMap)
    requires |tt| == Pow2(v + 1)
    ensures Extends(m, r)
    ensures UnchangedAbove(m, r, v)
    decreases v, 1
  {
    var (m1, isConst) := LineGate(m, tt, v, controls, ctx);
    var (controls0, controls1) := ChildControls(controls, v, isConst, ctx);
    var m2 := Branch(m1, Cofactor0(tt), v, controls0, ctx);
    var r := Branch(m2, Cofactor1(tt), v, controls1, ctx);
    ExtendsTransitive(m1, m2, r);
    ExtendsTransitive(m, m1, r);
    r
  }

  /**
   * What a call at `v` does with one cofactor `t` under that cofactor's
   * control context: a Hadamard on every line below `v` when `t` is all one,
   * nothing when it is all zero, a recursive call at `v - 1` when it is mixed.
   */
  function Branch(m: GateMap, t: seq<bool>, v: nat, controls: seq<nat>, ctx: Context): (r: GateMap)
    requires |t| == Pow2(v)
    ensures Extends(m, r)
    ensures forall k :: k in r && k >= v ==> k in m && r[k] == m[k]
    ensures ShapeOf(t) == AllZero ==> r == m
    ensures ShapeOf(t) == AllOne ==> forall i :: 0 <= i < v ==> i in r && r[i] == Lookup(m, i) + [Gate(Hadamard, controls)]
    ensures ShapeOf(t) == Mixed ==> v >= 1
    decreases v, 0
  {
    match ShapeOf(t)
    case AllOne => AddHadamards(m, v, controls)
    case AllZero => m
    case Mixed =>
      MixedHasVariable(t, v);
      Generate(m, t, v - 1, controls, ctx)
  }
}

/** Invariants of the gate generator. */
module GenerationProperties {
  import opened TruthTables
  import opened Gates
  import opened Dependencies
  import opened Generation

  /** Every literal names line `v` or a line above it. */
  predicate ControlsFrom(controls: seq<nat>, v: nat) {
    forall x :: 0 <= x < |controls| ==> LineOf(controls[x]) >= v
  }

  lemma AppendOk(m: GateMap, line: nat, gs: seq<Gate>)
    requires WellFormed(m)
    requires forall x :: 0 <= x < |gs| ==> GateOk(gs[x], line)
    ensures WellFormed(AppendAll(m, line, gs))
  {
    var r := AppendAll(m, line, gs);
    forall k, x | k in r && 0 <= x < |r[k]|
      ensures GateOk(r[k][x], k)
    {
      if k == line && x >= |Lookup(m, line)| {
        assert r[k][x] == gs[x - |Lookup(m, line)|];
      }
    }
  }

  lemma HadamardsOk(m: GateMap, v: nat, controls: seq<nat>)
    requires WellFormed(m)
    requires ControlsFrom(controls, v) && DistinctLines(controls)
    ensures WellFormed(AddHadamards(m, v, controls))
  {
    var r := AddHadamards(m, v, controls);
    forall k, x | k in r && 0 <= x < |r[k]|
      ensures GateOk(r[k][x], k)
    {
      if k < v && x >= |Lookup(m, k)| {
        assert r[k][x] == Gate(Hadamard, controls);
      }
    }
  }

  lemma AppendOneOk(m: GateMap, line: nat, g: Gate)
    requires WellFormed(m)
    requires GateOk(g, line)
    ensures WellFormed(Append(m, line, g))
  {
    AppendOk(m, line, [g]);
    assert Append(m, line, g) == AppendAll(m, line, [g]);
  }

  lemma TouchOk(m: GateMap, line: nat)
    requires WellFormed(m)
    ensures WellFormed(Touch(m, line))
  {
  }

  lemma RotationStepOk(m: GateMap, v: nat, controls: seq<nat>, rotation: Gate, ctx: Context)
    requires WellFormed(m)
    requires GateOk(rotation, v)
    requires WellFormedDependencies(ctx.deps)
    ensures WellFormed(RotationStep(m, v, controls, rotation, ctx))
  {
    var touched := Touch(m, v);
    TouchOk(m, v);
    match ctx.deps
    case NoDependencies =>
      AppendOneOk(m, v, rotation);
    case EsopDependencies(cubes, _, _) =>
      if |touched[v]| == 0 && EsopUseful(ctx, v) {
        AppendOk(touched, v, EsopGates(cubes[v]));
      } else if !EsopUseful(ctx, v) {
        AppendOneOk(touched, v, rotation);
      }
    case PatternDependencies(patterns) =>
      if v in patterns {
        if |touched[v]| == 0 {
          PatternGatesOk(patterns[v], v);
          AppendOk(touched, v, PatternGates(patterns[v]));
        }
      } else {
        AppendOneOk(m, v, rotation);
      }
  }

  /** The gate `LineGate` places on line `v` is well formed. */
  lemma LineGateOk(m: GateMap, tt: seq<bool>, v: nat, controls: seq<nat>, ctx: Context)
    requires WellFormed(m)
    requires ControlsAbove(controls, v) && DistinctLines(controls)
    requires WellFormedDependencies(ctx.deps)
    ensures WellFormed(LineGate(m, tt, v, controls, ctx).0)
  {
    var c0Ones := CountOnes(Cofactor0(tt));
    var ttOnes := CountOnes(tt);
    CofactorsSplitOnes(tt);
    if v in ctx.oneLines {
      if v !in m {
        AppendOneOk(m, v, Gate(Not, []));
        assert Lookup(m, v) + [Gate(Not, [])] == [Gate(Not, [])];
        assert m[v := [Gate(Not, [])]] == Append(m, v, Gate(Not, []));
      }
    } else if v !in ctx.zeroLines && c0Ones != ttOnes {
      assert c0Ones < ttOnes;
      RotationStepOk(m, v, controls, Gate(Ry(c0Ones, ttOnes), controls), ctx);
      assert LineGate(m, tt, v, controls, ctx).0 == RotationStep(m, v, controls, Gate(Ry(c0Ones, ttOnes), controls), ctx);
    }
  }

  /**
   * The control-context invariant: a call at `v` whose context names
   * distinct lines above `v` keeps the map well formed. Every control
   * literal of every gate refers to a higher line than the gate's target,
   * no control list names a line twice, and every rotation has
   * `c0Ones < ttOnes`.
   */
  /** The children's controls add at most the literal of line `v` itself. */
  lemma ChildControlsOk(controls: seq<nat>, v: nat, isConst: bool, ctx: Context)
    requires ControlsAbove(controls, v) && DistinctLines(controls)
    ensures ControlsFrom(ChildControls(controls, v, isConst, ctx).0, v) && DistinctLines(ChildControls(controls, v, isConst, ctx).0)
    ensures ControlsFrom(ChildControls(controls, v, isConst, ctx).1, v) && DistinctLines(ChildControls(controls, v, isConst, ctx).1)
  {
    if !HasDependency(ctx.deps, v) && !isConst {
      ControlSnocOk(controls, v, NegativeControl(v));
      ControlSnocOk(controls, v, PositiveControl(v));
    }
  }

  lemma ControlSnocOk(controls: seq<nat>, v: nat, literal: nat)
    requires ControlsAbove(controls, v) && DistinctLines(controls)
    requires LineOf(literal) == v
    ensures ControlsFrom(controls + [literal], v) && DistinctLines(controls + [literal])
  {
    var c := controls + [literal];
    assert forall x :: 0 <= x < |controls| ==> c[x] == controls[x];
    assert c[|controls|] == literal;
  }

  lemma {:induction false} GenerateWellFormed(m: GateMap, tt: seq<bool>, v: nat, controls: seq<nat>, ctx: Context)
    requires |tt| == Pow2(v + 1)
    requires WellFormed(m)
    requires ControlsAbove(controls, v) && DistinctLines(controls)
    requires WellFormedDependencies(ctx.deps)
    ensures WellFormed(Generate(m, tt, v, controls, ctx))
    decreases v, 2
  {
    var (m1, isConst) := LineGate(m, tt, v, controls, ctx);
    LineGateOk(m, tt, v, controls, ctx);
    var (controls0, controls1) := ChildControls(controls, v, isConst, ctx);
    ChildControlsOk(controls, v, isConst, ctx);
    BothBranchesWellFormed(m1, tt, v, controls0, controls1, ctx);
  }

  lemma {:induction false} BothBranchesWellFormed(m: GateMap, tt: seq<bool>, v: nat, controls0: seq<nat>, controls1: seq<nat>, ctx: Context)
    requires |tt| == Pow2(v + 1)
    requires WellFormed(m)
    requires ControlsFrom(controls0, v) && DistinctLines(controls0)
    requires ControlsFrom(controls1, v) && DistinctLines(controls1)
    requires WellFormedDependencies(ctx.deps)
    ensures WellFormed(Branch(Branch(m, Cofactor0(tt), v, controls0, ctx), Cofactor1(tt), v, controls1, ctx))
    decreases v, 1
  {
    BranchWellFormed(m, Cofactor0(tt), v, controls0, ctx);
    BranchWellFormed(Branch(m, Cofactor0(tt), v, controls0, ctx), Cofactor1(tt), v, controls1, ctx);
  }

  lemma {:induction false} BranchWellFormed(m: GateMap, t: seq<bool>, v: nat, controls: seq<nat>, ctx: Context)
    requires |t| == Pow2(v)
    requires WellFormed(m)
    requires ControlsFrom(controls, v) && DistinctLines(controls)
    requires WellFormedDependencies(ctx.deps)
    ensures WellFormed(Branch(m, t, v, controls, ctx))
    decreases v, 0
  {
    match ShapeOf(t)
    case AllOne => HadamardsOk(m, v, controls);
    case AllZero =>
    case Mixed =>
      MixedHasVariable(t, v);
      GenerateWellFormed(m, t, v - 1, controls, ctx);
  }

  /**
   * An all-zero table is pruned entirely: the only gate a call can add is
   * the NOT of a constant-one line `v` that has no entry yet.
   */
  lemma ZeroTableAddsNoGates(m: GateMap, tt: seq<bool>, v: nat, controls: seq<nat>, ctx: Context)
    requires |tt| == Pow2(v + 1)
    requires IsConst0(tt)
    ensures Generate(m, tt, v, controls, ctx) ==
      if v in ctx.oneLines && v !in m then m[v := [Gate(Not, [])]] else m
  {
    CountOnesConstant(tt);
    CofactorsSplitOnes(tt);
  }
}
