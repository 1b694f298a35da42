# Bytecode-analysis equation solver, modelled in Dafny

Bytecode analysis in IntelliJ infers facts about methods, such as purity and nullability contracts. A fact about one method can depend on facts about other methods, possibly in cycles. `Solver.java` settles such systems of equations. The project models its four parts:

- **`ELattice`** (`lattice.dfy`, module `Lattice`): the flat lattice over an enumeration. There is one bottom value, one top value, and middle values that are pairwise incomparable. `Join` and `Meet` are the source's two functions, and the lemmas prove the lattice laws.
- **The result algebra** (`result_algebra.dfy`, module `ResultAlgebra`): `Product`, `Result` (`Final` or `Pending`) and `Equation` as datatypes, plus `ResultUtil`.
  - `ResultUtil.Join` is the source's `join`, a method whose result is the value function `Combine`.
  - `CheckLimit` is the source's summing loop over a set of products.
  - The size error is a value (`Fallible`/`Outcome`), not an exception.
- **The solver's terms** (`hterms.dfy`, module `HTerms`): the H-types the solver works on, as values.
  - A pending term is a sequence of components. A component is a value met with the unknown values of a set of keys.
  - `Acc` is the accumulator of `normalize`, `Resolves` its decision, and `Subst` the effect of `substitute`.
  - The lemmas prove what these promise:
    - the accumulator is the flat join of the folded values, in any order;
    - substitution only lowers component values and removes exactly the substituted key;
    - a term that resolves keeps resolving after substitution.
- **The worklist solver** (`solver.dfy`, module `EquationSolver`): class `Solver`, with the source's fields `size`, `dependencies`, `pending`, `solved`, `moving` and `queued`.
  - The fields are updated in place by `AddEquation` and `Solve`, and `Valid()` is the invariant they keep:
    - every registration is counted;
    - every key on the stack has a value;
    - the reverse index covers every key a pending term mentions;
    - no pending term resolves;
    - the stack and the pending terms together never outnumber the registrations.
  - `Solve` is proved to:
    - empty the stack and the pending terms, returning the values;
    - add values only for keys whose term was pending, leaving the other values alone;
    - propagate every key that was on the stack or got a value;
    - stop after at most as many iterations as there were keys on the stack and pending terms. This is the termination measure: a term leaves `pending` before it is pushed, so it is pushed at most once.
  - The terms `Solve` drops at the end do not resolve. None of them mentions a propagated key, in either polarity, so no further propagation of the popped keys would change them.

`HKey` is abstract. The solver takes `negate: K -> K` (`HKey.negate()`) and `stable: K -> bool` (`HKey.stable`) as constants. `Analysis.EQUATION_SIZE_LIMIT` is the `sizeLimit` field of `ResultUtil`.

In these places the model follows the code as written:

- `addEquation` stores a copy of the right-hand side as given. It does not store the normalized term, and `normalize` keeps the folded components.
- A duplicate key is only reported, through a counter here. Its new right-hand side then overwrites the old value or term, or adds to it.
- `addEquation` never checks the size limit. Only `ResultUtil.join` does.
- A value in `solved` can be overwritten, but only for a key registered twice.
- `negate` is not assumed to be an involution.

Several pieces are split off into helper members so that each proof stays small:

- `Pop` and `Drain` are one iteration and the loop of `solve`.
- `PropagateKey` is the loop body, and `PropagateNth` is one pass of its loop over the two polarities. `Propagate` is the inner loop over dependents, and `Revisit` the step for one dependent.
- `Record` and `Enqueue` are the two endings of `addEquation`.
- `IndexDependents` and `IndexComponent` are its two registration loops.

## Model

| member | source | states |
|---|---|---|
| Lattice.ELattice.Join | java/java-analysis-impl/src/com/intellij/codeInspection/bytecodeAnalysis/Solver.java:32-37 | the join is one of the operands or top, and the join of equal operands is that operand (flatness) |
| Lattice.ELattice.Meet | java/java-analysis-impl/src/com/intellij/codeInspection/bytecodeAnalysis/Solver.java:39-44 | the meet is one of the operands or bottom, and the meet of equal operands is that operand |
| Lattice.JoinCommutative | java/java-analysis-impl/src/com/intellij/codeInspection/bytecodeAnalysis/Solver.java:32-37 | join is commutative |
| Lattice.MeetCommutative | java/java-analysis-impl/src/com/intellij/codeInspection/bytecodeAnalysis/Solver.java:39-44 | meet is commutative |
| Lattice.Units | java/java-analysis-impl/src/com/intellij/codeInspection/bytecodeAnalysis/Solver.java:32-44 | join(bot, x) = x and meet(top, x) = x, on both sides |
| Lattice.Absorbing | java/java-analysis-impl/src/com/intellij/codeInspection/bytecodeAnalysis/Solver.java:32-44 | with bot != top: join(x, top) = top and meet(x, bot) = bot, on both sides |
| Lattice.Idempotent | java/java-analysis-impl/src/com/intellij/codeInspection/bytecodeAnalysis/Solver.java:32-44 | join(x, x) = meet(x, x) = x |
| Lattice.JoinAssociative | java/java-analysis-impl/src/com/intellij/codeInspection/bytecodeAnalysis/Solver.java:32-37 | join is associative |
| Lattice.MeetAssociative | java/java-analysis-impl/src/com/intellij/codeInspection/bytecodeAnalysis/Solver.java:39-44 | meet is associative |
| Lattice.Absorption | java/java-analysis-impl/src/com/intellij/codeInspection/bytecodeAnalysis/Solver.java:32-44 | the absorption laws join(x, meet(x, y)) = x and meet(x, join(x, y)) = x |
| Lattice.LeqPartialOrder | java/java-analysis-impl/src/com/intellij/codeInspection/bytecodeAnalysis/Solver.java:32-37 | the order derived from join is reflexive, antisymmetric and transitive, with bot least and top greatest |
| Lattice.Bounds | java/java-analysis-impl/src/com/intellij/codeInspection/bytecodeAnalysis/Solver.java:32-44 | join is the least upper bound and meet the greatest lower bound |
| Lattice.Flat | java/java-analysis-impl/src/com/intellij/codeInspection/bytecodeAnalysis/Solver.java:32-44 | two different middle values are incomparable; their join is top and their meet is bottom |
| ResultAlgebra.TotalIdsRemove | java/java-analysis-impl/src/com/intellij/codeInspection/bytecodeAnalysis/Solver.java:90-93 | the id count of a set of products does not depend on the order in which the products are visited |
| ResultAlgebra.TotalIdsUnion | java/java-analysis-impl/src/com/intellij/codeInspection/bytecodeAnalysis/Solver.java:80-85 | the id count of a union counts the shared products once (inclusion–exclusion) |
| ResultAlgebra.ConstantAddsNoIds | java/java-analysis-impl/src/com/intellij/codeInspection/bytecodeAnalysis/Solver.java:66-78 | adding a product without ids leaves the id count unchanged |
| ResultAlgebra.ResultUtil.CheckLimit | java/java-analysis-impl/src/com/intellij/codeInspection/bytecodeAnalysis/Solver.java:89-97 | fails with the size error exactly when the total number of ids over the products exceeds the limit |
| ResultAlgebra.ResultUtil.Join | java/java-analysis-impl/src/com/intellij/codeInspection/bytecodeAnalysis/Solver.java:56-87 | the result is Combine of the operands, case by case, including the size error |
| ResultAlgebra.JoinTopAbsorbs | java/java-analysis-impl/src/com/intellij/codeInspection/bytecodeAnalysis/Solver.java:57-62 | a Final(top) operand is returned unchanged, whichever side it is on |
| ResultAlgebra.JoinFinals | java/java-analysis-impl/src/com/intellij/codeInspection/bytecodeAnalysis/Solver.java:63-65 | two Final operands give Final of their lattice join |
| ResultAlgebra.JoinFinalPending | java/java-analysis-impl/src/com/intellij/codeInspection/bytecodeAnalysis/Solver.java:66-78 | Final(v) with Pending(S), in either order, gives Pending(S plus Product(v, {})), and the id count is unchanged, so no limit applies |
| ResultAlgebra.JoinPendings | java/java-analysis-impl/src/com/intellij/codeInspection/bytecodeAnalysis/Solver.java:80-97 | two Pending operands give the union of their sums, or the size error exactly when the union's id count exceeds the limit (for disjoint sums: when their counts add up to more than the limit) |
| ResultAlgebra.JoinCommutes | java/java-analysis-impl/src/com/intellij/codeInspection/bytecodeAnalysis/Solver.java:56-87 | joining results is commutative |
| HTerms.AccIsFlatJoin | java/java-analysis-impl/src/com/intellij/codeInspection/bytecodeAnalysis/Solver.java:275-284 | normalize's accumulator is the flat join of the values of the folded components: bottom if none, the value if all agree, top otherwise |
| HTerms.AccOrderIndependent | java/java-analysis-impl/src/com/intellij/codeInspection/bytecodeAnalysis/Solver.java:275-286 | the accumulator, and whether a term resolves, do not depend on the order of the components |
| HTerms.FlatJoinMonotone | java/java-analysis-impl/src/com/intellij/codeInspection/bytecodeAnalysis/Solver.java:32-37 | the flat join grows with the set of values joined |
| HTerms.SubstLowers | java/java-analysis-impl/src/com/intellij/codeInspection/bytecodeAnalysis/Solver.java:265-272 | substitute removes the key from exactly the components that held it and meets their value with the key's value; no value increases, the other components are unchanged, and the term mentions exactly its old keys minus the substituted one |
| HTerms.AccGrowsUnderSubst | java/java-analysis-impl/src/com/intellij/codeInspection/bytecodeAnalysis/Solver.java:265-273 | substitution never lowers what normalize has folded, and a term that resolved still resolves |
| EquationSolver.SubstUnmentioned | java/java-analysis-impl/src/com/intellij/codeInspection/bytecodeAnalysis/Solver.java:265-272 | substituting a key the term does not mention changes nothing |
| EquationSolver.IndexDependents | java/java-analysis-impl/src/com/intellij/codeInspection/bytecodeAnalysis/Solver.java:215-225 | after the registration loop, the key is a dependent of exactly the keys the term mentions, added to the dependents already indexed |
| EquationSolver.IndexComponent | java/java-analysis-impl/src/com/intellij/codeInspection/bytecodeAnalysis/Solver.java:216-223 | the inner loop adds the key as a dependent of every key of one component |
| EquationSolver.RegisterIndexed | java/java-analysis-impl/src/com/intellij/codeInspection/bytecodeAnalysis/Solver.java:213-225 | storing a term and registering its keys keeps the reverse index complete |
| EquationSolver.ConsistentAddSolved | java/java-analysis-impl/src/com/intellij/codeInspection/bytecodeAnalysis/Solver.java:196-210 | registering a known value, with the key pushed, keeps the solver invariant |
| EquationSolver.ConsistentAddPending | java/java-analysis-impl/src/com/intellij/codeInspection/bytecodeAnalysis/Solver.java:196-225 | storing a term that does not resolve, indexed under its keys, keeps the solver invariant |
| EquationSolver.ProgressComplete | java/java-analysis-impl/src/com/intellij/codeInspection/bytecodeAnalysis/Solver.java:240-257 | after the loop over the dependents of a key, every term that was pending is settled with the key's value substituted |
| EquationSolver.SettledTwice | java/java-analysis-impl/src/com/intellij/codeInspection/bytecodeAnalysis/Solver.java:237-257 | two propagations in a row settle every term with the pair: a term that resolves after the first substitution keeps that value, any other is settled with both substitutions |
| EquationSolver.SolveStep | java/java-analysis-impl/src/com/intellij/codeInspection/bytecodeAnalysis/Solver.java:230-258 | one iteration of solve keeps its invariant: values only added, every key tracked, no pending term mentions a propagated key, and the measure strictly decreases |
| EquationSolver.SolveEnd | java/java-analysis-impl/src/com/intellij/codeInspection/bytecodeAnalysis/Solver.java:229-259 | with the stack empty, every key that was on the stack or got a value was popped, and the iterations are bounded by the initial stack plus pending terms |
| EquationSolver.Solver.constructor | java/java-analysis-impl/src/com/intellij/codeInspection/bytecodeAnalysis/Solver.java:179-194 | a new solver is empty and valid |
| EquationSolver.Solver.GetSize | java/java-analysis-impl/src/com/intellij/codeInspection/bytecodeAnalysis/Solver.java:186-188 | the size counts every registration, duplicates included, and bounds the stack plus the pending terms |
| EquationSolver.Solver.AddEquation | java/java-analysis-impl/src/com/intellij/codeInspection/bytecodeAnalysis/Solver.java:196-227 | size grows by one and a duplicate key is only counted. A Final right-hand side, or one that normalizes to Final, is recorded and pushed; otherwise the original term is stored and indexed under every key it mentions. The invariant is kept |
| EquationSolver.Solver.Record | java/java-analysis-impl/src/com/intellij/codeInspection/bytecodeAnalysis/Solver.java:203-211 | the value is recorded as solved, the key pushed, and nothing else changes |
| EquationSolver.Solver.Enqueue | java/java-analysis-impl/src/com/intellij/codeInspection/bytecodeAnalysis/Solver.java:213-225 | the term is stored as given and indexed, and nothing else changes |
| EquationSolver.Solver.Normalize | java/java-analysis-impl/src/com/intellij/codeInspection/bytecodeAnalysis/Solver.java:275-286 | Final(accumulator) exactly when the accumulator is top or every component is foldable (so the empty term gives Final(bot)); otherwise Pending over the same components, one of which is not foldable |
| EquationSolver.Solver.Substitute | java/java-analysis-impl/src/com/intellij/codeInspection/bytecodeAnalysis/Solver.java:265-273 | the result is normalize of the substituted term |
| EquationSolver.Solver.Propagations | java/java-analysis-impl/src/com/intellij/codeInspection/bytecodeAnalysis/Solver.java:234-235 | the polarity rule: both polarities receive something; the negation always gets the value; the key itself gets the value if stable and top otherwise, top coming last |
| EquationSolver.Solver.Revisit | java/java-analysis-impl/src/com/intellij/codeInspection/bytecodeAnalysis/Solver.java:244-256 | a pending dependent gets the value substituted; it is recorded as solved and pushed when it resolves, and put back as the substituted term otherwise; a key without a pending term changes nothing |
| EquationSolver.Solver.Propagate | java/java-analysis-impl/src/com/intellij/codeInspection/bytecodeAnalysis/Solver.java:237-257 | every pending term is settled with the value substituted; new values exactly for the terms that left pending, each of which is pushed; no pending term mentions the key any more |
| EquationSolver.Solver.PropagateKey | java/java-analysis-impl/src/com/intellij/codeInspection/bytecodeAnalysis/Solver.java:234-258 | the polarity rule applied to the state: with the two pairs of Propagations in order, a term that resolves after the first substitution is solved with that value, and every other term is settled after both substitutions; afterwards no pending term mentions the key or its negation, values are only added and the terms that resolved are pushed |
| EquationSolver.Solver.Pop | java/java-analysis-impl/src/com/intellij/codeInspection/bytecodeAnalysis/Solver.java:231-258 | the popped key is the top of the stack and has a value; that value is what is propagated, with the terms settled as PropagateKey states; afterwards no pending term mentions the key in either polarity |
| EquationSolver.Solver.Drain | java/java-analysis-impl/src/com/intellij/codeInspection/bytecodeAnalysis/Solver.java:230-259 | the loop ends with an empty stack and keeps the invariant of solve (key bookkeeping, values only added, no pending term mentions a popped key) |
| EquationSolver.Solver.Solve | java/java-analysis-impl/src/com/intellij/codeInspection/bytecodeAnalysis/Solver.java:229-262 | the stack and pending are empty and the values are returned; values are added only for pending keys; every key on the stack and every resolved term was propagated; the dropped terms do not resolve and mention no propagated key in either polarity; iterations ≤ initial stack + pending ≤ size |

## Left out

- ELattice is generic over an enum type in the source. Here it is a datatype over any type with equality, with `bot != top` as `WellFormed()` where a law needs it.
- `ProjectBytecodeAnalysis.LOG.error("duplicate")` is the `duplicates` counter.
- `AnalyzerException` is the `EquationTooBig` error value.
- The iteration order of `HashMap` and `HashSet` is not modelled. Every loop over a set takes an arbitrary remaining element, and no contract depends on the order.
- `HKey` is left abstract. Only `negate` and `stable` are modelled, as parameters.
- `HComponent`, `HPending`, `HFinal` and `HEquation` are datatypes, not objects:
  - a component has no identity;
  - `copy()` is the identity on values, because a copy shares nothing with its original;
  - `substitute` builds the substituted sequence rather than mutating the components in place, so aliasing between terms is not modelled.
- `EquationSolver.Solver.Revisit`: the source removes the dependent's term from `pending` before substituting and puts it back when it does not resolve. The model substitutes first and then removes or replaces the entry, which gives the same state.
- `EquationSolver.Solver.Enqueue`: the source puts the term into `pending` once per component, always the same term, inside the registration loop. The model stores it once, which gives the same state, because a term that does not resolve has a component.
- `ResultAlgebra.ResultUtil.CheckLimit`: the running sum is an unbounded integer. The Java `int` overflow of the sum is not modelled.
- `EquationSolver.Solver.Solve`: the returned map is a value. The source returns its own `solved` map object, so later changes would be seen by the caller.
- `EquationSolver.Solver.Solve`: the contract does not state that the values are the least fixed point of the equations. It states the worklist bookkeeping, the exit state and the iteration bound; the settling of the terms by one popped key is stated by `Pop`, not composed over the whole run.
- `EquationSolver.Solver.Drain`: the contract does not characterise the values given to the keys that resolve during the loop, nor the contents of the terms left. Each pass is characterised by `Pop`, but the passes are not composed into a statement over the whole run.
- `Solution` (Solver.java:152-160) is not used by the solver.
- `toString`, `Product.equals` and `Product.hashCode` are not modelled; datatype equality takes the place of `equals`.
- XDebuggerEvaluator.java, ExplicitTypeCanBeDiamondInspection.java and FocusCommand.java are not part of this model. They are IDE, debugger and UI code, unrelated to the solver.
