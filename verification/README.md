# Quantum state preparation from truth tables, and exact ESOP covers

A Dafny model of two kernels of the angel library.

The first kernel prepares the uniform superposition over the ones of a
Boolean function. `MC_qg_generation` walks the variables from the top line
down. On each line it places a NOT, a dependency substitution or a Y
rotation. It then splits the table into its two cofactors and follows a
3×3 case table: Hadamards on all lower lines, pruning, or recursion. Three
drivers sit above it:

- `qsp` picks the cheapest variable ordering.
- `qsp_tt_general` and `state_preparation::operator()` each keep a cache
  keyed by the canonical form of the function, plus counters.

The second kernel is `exact_esop_cover_from_divisors`. It finds the cheapest
exclusive-or-of-products cover of a target function over divisor functions:

- A few special cases are answered directly.
- Otherwise it encodes a bounded cover as SAT and enumerates every model at
  each budget, blocking each model before asking for the next.
- It decodes every model into a cover and prices the cover with the CNOT
  cost model.

How the code is modelled:

- A truth table over variables `0..v` is a `seq<bool>` of length `2^(v+1)`.
  The cofactors on the top variable are its lower and upper halves.
- Gate angles are symbolic: `Not` (π), `Hadamard` (π/2) and
  `Ry(c0Ones, ttOnes)` (the rotation by `2·acos(√(c0Ones/ttOnes))`).
- The gate list `gates_t` is a `map<nat, seq<Gate>>`. Key presence is kept
  apart from emptiness, because `operator[]` creates keys and the code tests
  for them.
- The three overloads of the generator are one function that dispatches on
  the kind of dependency map.
- The SAT solver is an oracle `solve(k)`: the sequence of models it
  enumerates at budget `k`. The empty sequence means unsatisfiable.
- Collaborators whose code is not part of this model are function-valued
  parameters:
  - dependency analysis;
  - `extract_independent_vars`;
  - `gates_statistics`;
  - the exact and sifting canonizations;
  - `esop_cnot_cost` and `compute_upperbound_cost`.

Files, in dependency order:

- `wrappers.dfy` (`Option`).
- `truth_tables.dfy`: cofactors, counting ones, and the shape of a table.
- `gates.dfy`: gates, the gate map, and the control-literal encoding.
- `dependencies.dfy`: pattern and ESOP dependencies and their substitution
  gates.
- `generation.dfy`: the generator and its invariants.
- `selection.dfy`: the strict-improvement selection rule shared by all the
  search loops.
- `driver.dfy`: the drivers.
- `seqs.dfy` and `cubes.dfy`: cubes, covers and the CNOT cost.
- `esop_encoding.dfy`, `esop_decode.dfy` and `esop_search.dfy`: the SAT
  encoding, the model decoder, and `run`.

## Model

| member | source | states |
|---|---|---|
| TruthTables.Cofactor0 | include/angel/quantum_state_preparation/qsp_tt_general.hpp:101 | The cofactor with the top variable at 0 has half the bits, and its bit `b` is bit `b` of the table. |
| TruthTables.Cofactor1 | include/angel/quantum_state_preparation/qsp_tt_general.hpp:102 | The cofactor with the top variable at 1 has the other half, and its bit `b` is bit `|t|/2 + b` of the table. |
| TruthTables.CountOnes | include/angel/quantum_state_preparation/qsp_tt_general.hpp:105-107 | The count of ones never exceeds the table's size. |
| TruthTables.CountOnesConstant | include/angel/quantum_state_preparation/qsp_tt_general.hpp:105-107 | The count of ones is zero exactly for the constant-zero table, and equals the table's size exactly for the constant-one table. |
| TruthTables.CofactorsSplitOnes | include/angel/quantum_state_preparation/qsp_tt_general.hpp:480-486 | The cofactor-0 half followed by the cofactor-1 half is the table itself, and their one-counts add up to the table's count. |
| TruthTables.ShapeOf | include/angel/quantum_state_preparation/qsp_tt_general.hpp:511-514 | A cofactor is all-one exactly when every bit is set. It is all-zero exactly when it has bits and none is set. It is mixed exactly when its count lies strictly between. |
| TruthTables.SingleBitIsConstant | include/angel/quantum_state_preparation/qsp_tt_general.hpp:511-514 | A one-bit cofactor, which is what a call at line 0 splits into, is never mixed. |
| TruthTables.Complement | libs/easy/easy/exact_esop_cover_from_divisors.hpp:105 | `~divisor` negates every bit and keeps the length. |
| Gates.PositiveControl | include/angel/quantum_state_preparation/qsp_tt_general.hpp:527 | The positive control literal of a line is even and names that line. |
| Gates.NegativeControl | include/angel/quantum_state_preparation/qsp_tt_general.hpp:520 | The negative control literal of a line is odd and names that line. |
| Gates.Touch | include/angel/quantum_state_preparation/qsp_tt_general.hpp:140 | Reading `gates[line]` adds that key with an empty list and changes no existing list. |
| Gates.Append | include/angel/quantum_state_preparation/qsp_tt_general.hpp:506 | `emplace_back` adds the key if needed, puts the gate at the end of that line's list, and leaves every other line alone. |
| Gates.AddHadamards | include/angel/quantum_state_preparation/qsp_tt_general.hpp:531-535 | Exactly one Hadamard with the given controls is appended to each line below the bound. No other line gains a key or a gate. |
| Dependencies.IsEmpty | include/angel/quantum_state_preparation/qsp_tt_general.hpp:906-913 | An empty dependency map registers no line, so the overload without dependencies applies. |
| Dependencies.PatternGates | include/angel/quantum_state_preparation/qsp_tt_general.hpp:278-383 | Every substituted gate is a NOT. EQUAL gives 1 gate, or 2 when its operand is odd. XOR gives one CNOT per operand and XNOR one more. AND gives 1 and NAND 2. Any other kind gives none. The controls are the operands, and the negating kinds end with an uncontrolled NOT. |
| Dependencies.PatternGatesOk | include/angel/quantum_state_preparation/qsp_tt_general.hpp:278-383 | If a pattern's operands name distinct higher lines, every gate it substitutes is well formed on its line. |
| Dependencies.EsopGates | include/angel/quantum_state_preparation/qsp_tt_general.hpp:140-146 | One NOT per cube, in order, each controlled by that cube's literals. |
| Generation.EsopUseful | include/angel/quantum_state_preparation/qsp_tt_general.hpp:128-138 | An ESOP dependency of a line is used only when the line has cubes and their cost does not exceed the upper bound computed from the constant lines, the variable count and the line. |
| Generation.RotationStep | include/angel/quantum_state_preparation/qsp_tt_general.hpp:123-151 | Only line `v` changes, and only by appending. Without a dependency the generic rotation is appended. With a pattern dependency, or a useful ESOP one, the substitution is appended only when the line has no gates yet. An ESOP dependency that costs more than the upper bound appends the generic rotation. |
| Generation.LineGate | include/angel/quantum_state_preparation/qsp_tt_general.hpp:483-507 | `is_const` holds exactly for lines listed in `one_lines` or `zero_lines`. A one-line gets a single NOT only if the map had no key for it. Without a dependency, `Ry(c0Ones, ttOnes)` is appended exactly when the line is not constant and the two counts differ; otherwise the map is unchanged. No other line changes. For every line, with or without a dependency: a line that is not a one-line but is a zero-line, or whose cofactor weight equals its table weight, leaves the map unchanged; a non-constant line whose two counts differ changes the map exactly as `RotationStep` does with `Ry(c0Ones, ttOnes)` under the given controls, so a dependency takes over as stated there. |
| Generation.ChildControls | include/angel/quantum_state_preparation/qsp_tt_general.hpp:161-174 | On a line that is neither constant nor dependent, the cofactor-0 branch gets `controls ++ [2v+1]` and the cofactor-1 branch `controls ++ [2v]`. Otherwise both branches keep `controls`. |
| Generation.MixedHasVariable | include/angel/quantum_state_preparation/qsp_tt_general.hpp:565-587 | A mixed cofactor only occurs for `v >= 1`, so the recursive call at `v - 1` never wraps below zero. |
| Generation.Generate | include/angel/quantum_state_preparation/qsp_tt_general.hpp:473-589 | The generator only appends: every existing list is a prefix of its new value. No line above `v` gains a key or a gate. |
| Generation.Branch | include/angel/quantum_state_preparation/qsp_tt_general.hpp:531-588 | The case table per cofactor. All-zero adds nothing. All-one appends exactly one Hadamard with that branch's controls to each line `0..v-1`. Mixed happens only when `v >= 1`. Nothing at or above line `v` changes. |
| GenerationProperties.RotationStepOk | include/angel/quantum_state_preparation/qsp_tt_general.hpp:140-151 | With well-formed dependencies, the rotation or substitution placed on line `v` keeps the map well formed. |
| GenerationProperties.LineGateOk | include/angel/quantum_state_preparation/qsp_tt_general.hpp:488-507 | The gate placed on line `v` has distinct controls on higher lines, and its rotation ratio is below one. |
| GenerationProperties.HadamardsOk | include/angel/quantum_state_preparation/qsp_tt_general.hpp:531-535 | Hadamards placed below `v` under controls on lines `>= v` are well formed. |
| GenerationProperties.GenerateWellFormed | include/angel/quantum_state_preparation/qsp_tt_general.hpp:516-588 | Starting from controls on distinct lines above `v`, every gate ever placed on a line `t` has controls that name distinct lines above `t`, so `c/2 > t` holds for each control literal. |
| GenerationProperties.BranchWellFormed | include/angel/quantum_state_preparation/qsp_tt_general.hpp:531-588 | The same invariant for one cofactor whose controls may include line `v`. |
| GenerationProperties.ZeroTableAddsNoGates | include/angel/quantum_state_preparation/qsp_tt_general.hpp:552-564 | On the constant-zero table, both cofactors are pruned. The only possible change is the NOT of a constant-one line that had no entry. |
| Selection.FirstBestStep | include/angel/quantum_state_preparation/qsp_tt_general.hpp:647-654 | Replacing the kept candidate only on a strictly lower cost keeps "the earliest eligible candidate of minimum cost below the bound" true on the next prefix. |
| Selection.FirstBestUnique | include/angel/quantum_state_preparation/qsp_tt_general.hpp:647-654 | That selection rule determines its result. |
| Driver.GatesFor | include/angel/quantum_state_preparation/qsp_tt_general.hpp:628-645 | Generation from the top line with no controls puts gates only on lines `< n`. With well-formed dependencies, every control names a distinct higher line. |
| Driver.SynthesizeOrdering | include/angel/quantum_state_preparation/qsp_tt_general.hpp:614-645 | One ordering's gate map has only keys `< n` and is well formed when its dependencies are. |
| Driver.QspEvaluated | include/angel/quantum_state_preparation/qsp_tt_general.hpp:605-609 | The first ordering is always evaluated. A later one is evaluated exactly when its reordered table differs from the original. |
| Driver.Qsp | include/angel/quantum_state_preparation/qsp_tt_general.hpp:591-662 | The kept ordering is the earliest evaluated one whose CNOT count is minimal and below `2^(n+1)`. The result is that ordering's gates and statistics, or empty gates and zero statistics when none beats the bound. Every line of the result is `< n`. |
| Driver.Accumulate | include/angel/quantum_state_preparation/qsp_tt_general.hpp:756-759 | The totals grow by exactly one function's counters. The gate-count pair is appended, and the cache and `total_bench` are untouched. |
| Driver.GeneralKey | include/angel/quantum_state_preparation/qsp_tt_general.hpp:746 | The cache key of `qsp_tt_general`: exact P-canonization below 7 variables, sifting P-canonization from 7 variables on. |
| Driver.QspTtGeneral | include/angel/quantum_state_preparation/qsp_tt_general.hpp:722-782 | `total_bench` grows by exactly one per call. A constant-zero function, with any number of variables including none, returns at once and changes nothing else. Otherwise the call adds `n` qubits, and cache entries are never removed. On a hit the cache is unchanged and the cached counters are added. On a miss the counters of the ordering `qsp` selects are stored under the canonical key and added. |
| Driver.CacheReplay | include/angel/quantum_state_preparation/qsp_tt_general.hpp:746-761 | Synthesizing the same function twice leaves the cache as the first call left it, and the second call adds exactly the counters the first one added. |
| StatePreparation.PrepKey | include/angel/quantum_state_preparation/qsp_tt_general.hpp:836-838 | The cache key of `operator()` is the key of `qsp_tt_general` except at exactly 7 variables, where `operator()` canonizes exactly and `qsp_tt_general` sifts. |
| StatePreparation.CreateGates | include/angel/quantum_state_preparation/qsp_tt_general.hpp:896-925 | The network's gates lie on lines `< n` and are well formed when the dependencies are. |
| StatePreparation.SynthesizeNetwork | include/angel/quantum_state_preparation/qsp_tt_general.hpp:880-893 | The constant-zero function gets the empty network of cost 0, even with no variables. Otherwise the network is built from the function's own dependencies. |
| StatePreparation.Prepare | include/angel/quantum_state_preparation/qsp_tt_general.hpp:828-878 | Every call counts one function and adds the returned network's cost. On a hit it returns the cached network, leaves the cache alone and counts no unique function. On a miss it returns the earliest cheapest network below the sentinel cost, caches it under the canonical key and counts one unique function. |
| Seqs.Swap | libs/easy/easy/exact_esop_cover_from_divisors.hpp:388-389 | `std::swap` of two positions exchanges them, leaves the rest in place, and is a permutation. |
| Cubes.Column | libs/easy/easy/exact_esop_cover_from_divisors.hpp:213 | The row of divisor bits that the encoding reads with `get_bit(divisor_functions[j], l)`. |
| Cubes.CoverValueSwap | libs/easy/easy/exact_esop_cover_from_divisors.hpp:387-389 | Moving the chosen cube to the front does not change the function the cover computes. |
| EsopCost.LiteralCost | libs/easy/easy/exact_esop_cover_from_divisors.hpp:348-363 | A cube costs nothing exactly when it has no literal, and never costs less than its number of literals, first or not. |
| EsopCost.CubeCost | libs/easy/easy/exact_esop_cover_from_divisors.hpp:348-363 | Only the constant-true cube is free, and a cube never costs less than its number of literals. |
| EsopCost.FirstNoCostlier | libs/easy/easy/exact_esop_cover_from_divisors.hpp:348-363 | A cube with 0 or 1 literals costs 0 or 1 wherever it is placed. For `m >= 2`, placing it first saves exactly `2^m - 2`, so first is never costlier. |
| EsopCost.NonFirstMonotone | libs/easy/easy/exact_esop_cover_from_divisors.hpp:357-361 | The non-first cost never decreases as literals are added. |
| EsopCost.Savings | libs/easy/easy/exact_esop_cover_from_divisors.hpp:377-379 | The unsigned absolute difference of the two prices is the non-first price minus the first price. |
| EsopCost.ScanFirst | libs/easy/easy/exact_esop_cover_from_divisors.hpp:373-385 | After scanning a prefix, the recorded savings bound every scanned cube's savings. When positive, they are attained first at the recorded index. When zero, the index is 0. |
| EsopCost.FirstCube | libs/easy/easy/exact_esop_cover_from_divisors.hpp:373-385 | The cube priced first is the earliest one of maximum savings. |
| EsopCost.CnotCost | libs/easy/easy/exact_esop_cover_from_divisors.hpp:365-398 | The empty cover costs 0 and is left alone. Otherwise the cover is left with index 0 swapped with the chosen cube, and the cost is the head priced first plus the tail priced non-first. |
| EsopCost.CostWithFirstSavings | libs/easy/easy/exact_esop_cover_from_divisors.hpp:391-395 | Pricing cube `j` first lowers the all-non-first total by exactly that cube's savings. |
| EsopCost.CnotCostOptimal | libs/easy/easy/exact_esop_cover_from_divisors.hpp:365-398 | The reported cost equals the cost of pricing the chosen cube first, and no other choice of first cube is cheaper. |
| EsopEncoding.LayoutSelectors | libs/easy/easy/exact_esop_cover_from_divisors.hpp:161-171 | Every `p(i,j)` and `q(i,j)` lies below `2nk`. No `p` equals a `q`, and both `p` and `q` are injective in `(i,j)`. |
| EsopEncoding.LayoutAuxiliary | libs/easy/easy/exact_esop_cover_from_divisors.hpp:173-177 | Every `z(l,i)` lies in `[2nk, 2nk + k·num_bits)`, the variables allocated at line 131, and `z` is injective in `(l,i)`. |
| EsopEncoding.PositiveClauses | libs/easy/easy/exact_esop_cover_from_divisors.hpp:207-216 | The positive clauses of a row are exactly one clause per cube and divisor. |
| EsopEncoding.PositiveClause | libs/easy/easy/exact_esop_cover_from_divisors.hpp:212-214 | The clause `¬z(l,i) ∨ ¬s`, where `s` is `q(i,j)` when divisor `j` is 1 at row `l` and `p(i,j)` otherwise. |
| EsopEncoding.PositiveClauseMeaning | libs/easy/easy/exact_esop_cover_from_divisors.hpp:212-214 | That clause holds exactly when a set `z(l,i)` rules out the selector the row violates. |
| EsopEncoding.PositiveMeaning | libs/easy/easy/exact_esop_cover_from_divisors.hpp:207-216 | They hold exactly when every set `z(l,i)` has no selector violated by the row. |
| EsopEncoding.NegativeClause | libs/easy/easy/exact_esop_cover_from_divisors.hpp:221-226 | The clause `z(l,i) ∨ s(i,0) ∨ … ∨ s(i,n-1)` over the violated selectors of cube `i`. |
| EsopEncoding.NegativeClauseMeaning | libs/easy/easy/exact_esop_cover_from_divisors.hpp:221-226 | That clause holds exactly when cube `i` being true at the row forces `z(l,i)`. |
| EsopEncoding.NegativeClauses | libs/easy/easy/exact_esop_cover_from_divisors.hpp:218-227 | A constraint is among the negative clauses exactly when it is the negative clause of some cube `i < k`. |
| EsopEncoding.NegativeMeaning | libs/easy/easy/exact_esop_cover_from_divisors.hpp:218-227 | They hold exactly when every cube without a violated selector has `z(l,i)` set. |
| EsopEncoding.ParityOfZ | libs/easy/easy/exact_esop_cover_from_divisors.hpp:229-235 | The parity of the XOR clause's literals is the exclusive or of the `z(l,i)`. |
| EsopEncoding.RowConstraints | libs/easy/easy/exact_esop_cover_from_divisors.hpp:205-236 | Row `l` adds plain clauses and then exactly one XOR constraint, the last, over `z(l,0) .. z(l,k-1)` with the target bit as its parity. |
| EsopEncoding.RowMeaning | libs/easy/easy/exact_esop_cover_from_divisors.hpp:205-236 | A model satisfies row `l`'s constraints if and only if, for each cube `i`, `z(l,i)` holds exactly when no chosen literal is violated, and the XOR of the `z(l,i)` equals `target[l]`. |
| EsopEncoding.BlockingCube | libs/easy/easy/exact_esop_cover_from_divisors.hpp:258-280 | The literals blocking cube `i` are exactly the blocking pairs of its divisors `j < n`. |
| EsopEncoding.Blocking | libs/easy/easy/exact_esop_cover_from_divisors.hpp:254-282 | The blocking clause is a plain clause holding, for every selector of every cube, the literal the model falsifies. |
| EsopEncoding.BlockingMeaning | libs/easy/easy/exact_esop_cover_from_divisors.hpp:254-282 | A model violates the blocking clause if and only if it agrees with the blocked model on every `p` and `q` variable. |
| EsopDecode.DecodeLiterals | libs/easy/easy/exact_esop_cover_from_divisors.hpp:308-325 | The literals cube `i` takes from divisors `0 .. m-1`, in divisor order. DecodeLiteralsShape states which ones. |
| EsopDecode.DecodeLiteralsShape | libs/easy/easy/exact_esop_cover_from_divisors.hpp:308-325 | Decoded literals are ordered by divisor. Divisor `j` appears positively exactly when only `p` is set and negatively exactly when only `q` is set. |
| EsopDecode.Cancelled | libs/easy/easy/exact_esop_cover_from_divisors.hpp:313-316 | A cube is cancelled when `p` and `q` are both set for some divisor; CancelledIsFalse states that such a cube is false everywhere. |
| EsopDecode.DecodeCube | libs/easy/easy/exact_esop_cover_from_divisors.hpp:305-325 | Cube `i` of a model: the literals of all `n` divisors. DecodeCubeShape states what they are. |
| EsopDecode.DecodeCubeShape | libs/easy/easy/exact_esop_cover_from_divisors.hpp:305-325 | Every literal of a decoded cube names a divisor `< n`. Divisor `j` appears positively exactly when only `p(i,j)` is set, and negatively exactly when only `q(i,j)` is set. The cube is the constant-true cube exactly when `p` and `q` agree on every divisor. |
| EsopDecode.CancelledIsFalse | libs/easy/easy/exact_esop_cover_from_divisors.hpp:313-330 | A cube with both selectors set on some divisor is false at every row, so dropping it is sound. |
| EsopDecode.DecodeCubeValue | libs/easy/easy/exact_esop_cover_from_divisors.hpp:305-336 | A decoded cube is true at a row exactly when the encoding's cube is true there. |
| EsopDecode.DecodePrefix | libs/easy/easy/exact_esop_cover_from_divisors.hpp:302-337 | The kept cubes plus the counted empty cubes number at most the cubes scanned, and no kept cube is empty. |
| EsopDecode.DecodePrefixKeeps | libs/easy/easy/exact_esop_cover_from_divisors.hpp:302-337 | The kept cubes are exactly the cubes `i < c` that are neither cancelled nor empty, in increasing `i`, each decoded from its own selectors. The counter is exactly the number of cubes that are not cancelled and decode to the constant-true cube. |
| EsopDecode.DecodePrefixValue | libs/easy/easy/exact_esop_cover_from_divisors.hpp:302-343 | The kept cubes, XORed with the parity of the empty-cube counter, compute the XOR of the encoding's cubes. |
| EsopDecode.EsopCoverFromModel | libs/easy/easy/exact_esop_cover_from_divisors.hpp:298-346 | The decoded cover has at most `k` cubes. The empty cube occurs only last. Every literal names a divisor `< n`. |
| EsopDecode.XorZMatches | libs/easy/easy/exact_esop_cover_from_divisors.hpp:229-235 | When every `z(l,i)` tells whether cube `i` holds at row `l`, their XOR is the XOR of the cubes. |
| EsopDecode.RoundTrip | libs/easy/easy/exact_esop_cover_from_divisors.hpp:205-346 | Any model of all row constraints decodes to a cover whose XOR over the divisor bits equals `target` at every row. |
| EsopSearch.Budget | libs/easy/easy/exact_esop_cover_from_divisors.hpp:123 | The first budget is `max_num_cubes`, or the number of divisors when that is 0. It is 0 only when both are, and never below the cap. |
| EsopSearch.Explored | libs/easy/easy/exact_esop_cover_from_divisors.hpp:238-292 | The visit order: the models of each budget in enumeration order, budgets from the start down, ending before the first budget with no model. ExploredSound states what every visited pair satisfies. |
| EsopSearch.SpecialCase | libs/easy/easy/exact_esop_cover_from_divisors.hpp:78-113 | A special case applies exactly when the SAT search would otherwise not run, and each special cover computes the target. A constant-one target gives `[emptyCube]` with cost 0. A constant-zero target gives `[]`. Otherwise, a single divisor equal to the target gives `[+x0]`, and one equal to its complement gives `[¬x0]`. |
| EsopSearch.ExploredSound | libs/easy/easy/exact_esop_cover_from_divisors.hpp:238-289 | Every visited model belongs to a budget between 1 and the starting budget and satisfies that budget's row constraints. |
| EsopSearch.PricedRealises | libs/easy/easy/exact_esop_cover_from_divisors.hpp:244-251 | The cover priced for a model, after `cnot_cost` reorders it, still computes the target and has at most `k` cubes. |
| EsopSearch.EnumeratedModelsDistinct | libs/easy/easy/exact_esop_cover_from_divisors.hpp:254-283 | Models enumerated at one budget differ pairwise on some selector variable. |
| EsopSearch.KeptRealises | libs/easy/easy/exact_esop_cover_from_divisors.hpp:246-251 | Whatever model the search keeps, its cover computes the target within the budget. |
| EsopSearch.SearchStep | libs/easy/easy/exact_esop_cover_from_divisors.hpp:247-252 | Replacing the result only on strictly lower cost keeps the best cost equal to the kept cover's cost. |
| EsopSearch.ScanModels | libs/easy/easy/exact_esop_cover_from_divisors.hpp:242-283 | Enumerating the models of one budget keeps the earliest strictly cheapest cover seen so far. |
| EsopSearch.VisitBudget | libs/easy/easy/exact_esop_cover_from_divisors.hpp:238-292 | A satisfiable budget visits all of its models and continues with `k-1`. The first unsatisfiable budget ends the search with everything visited. |
| EsopSearch.Search | libs/easy/easy/exact_esop_cover_from_divisors.hpp:122-294 | For budgets `k` from the start down to 1, stopping at the first unsatisfiable one, the result is the reordered cover of the earliest visited model of minimum cost below `2^32-1`, or none. |
| EsopSearch.Run | libs/easy/easy/exact_esop_cover_from_divisors.hpp:72-295 | The result is the special-case cover when one applies. Otherwise it is the search from `max_num_cubes` (or the number of divisors when that is 0). Every returned cover computes the target, and a searched one has at most that many cubes. |

## Left out

- Floating-point angles (`2·acos(√(c0/tt))`, `M_PI`, `M_PI/2`) are symbolic tags. `pow(2, …)` comparisons are integer powers of two.
- `qsp_general_stats::report`, `stopwatch` timing, `fmt::print` and `std::cout` output are not modelled, and neither is the `verbose` flag.
- The SAT solver is an oracle. It is trusted to be sound: every model satisfies its budget's constraints and earlier blocking clauses. It is not assumed complete, so no minimality over all covers is claimed. The Tseytin encoding inside `add_xor_clause` is an XOR constraint here, and the `std::abort` path for an undecided solve is not modelled.
- Dependency analysis, `extract_independent_vars`, `gates_statistics`, the canonizations, `esop_cnot_cost` and `compute_upperbound_cost` are uninterpreted parameters. Their code is not part of this model.
- Variable reorderings arrive as the list of already reordered tables, in strategy order. `reordering_on_tt_inplace` and the `foreach_reordering` callback (including the cost it returns) are not modelled.
- `net.add_qubit()` is the returned qubit count.
- The commented-out "temporary line" handling in the pattern branches is not modelled, because it is not active code.
- The `assert` at line 863 of qsp_tt_general.hpp names a member that does not exist, and is left out.
- Dependencies.PatternGates: an EQUAL pattern without operands reads `second[0]` out of range in the code; the model treats that operand as even.
- StatePreparation.Prepare: with no reorderings at all, the sentinel network of cost `2^64-1` is cached and returned, as in the code; the model does not exclude it.
- StatePreparation.Prepare: `num_cnots` is a `uint64_t` in the code, so adding the sentinel cost `2^64-1` at line 875 (or at line 842 on a later hit) wraps it to one less than before. The model's counter is unbounded and grows by `2^64-1` instead.
- Driver.Qsp requires at least one variable: with zero variables the code computes `var_index = 0 - 1`, which wraps. Driver.QspTtGeneral and StatePreparation.SynthesizeNetwork accept zero variables for the constant-zero function, which returns before `var_index` is formed; StatePreparation.Prepare accepts zero variables when every reordered table is constant zero.
- `qsp_smallest_tt` and the unused `orders` and dependency strategies of the experiments are not part of this model.
- Driver.Accumulate: the `uint32_t` counters of `qsp_general_stats` are unbounded here, so their wrap-around is not modelled. `total_time` is not modelled either.
- EsopCost.LiteralCost: does not model the 32-bit overflow of `1 << num_literals` for 31 or more literals, nor the wrap-around of the `uint32_t` sums in `cnot_cost`. Costs are unbounded integers.
- EsopSearch.Run: the `uint32_t` truncation of `n`, `num_bits` and the variable indices is not modelled. Divisor rows past a divisor's length read as zero, so divisors need not have the target's length.
- EsopSearch.Search: `result.esop_cover` stays empty (none) when no model ever beats the initial bound `2^32-1`, as in the code.
