# A verified model of OpenMx's backend bookkeeping

OpenMx fits structural equation models. Its C++ backend wraps a numeric engine (Eigen, BLAS,
R) in a good deal of decision and bookkeeping code. This project models that code in Dafny and
proves what it promises:

- **Global state** (`src/omxState.cpp`):
  - free-variable groups: lookup, creation, deduplication and the name index;
  - unpacking of confidence-interval requests;
  - the capped error list and its rendering;
  - constraint redundancy masks and the stacked constraint vector with its inequality clamp;
  - checkpoint rows;
  - the encoding of matrix and algebra numbers;
  - the wanted compute stage;
  - optimizer names.
- **Algebra construction** (`src/omxAlgebra.cpp`), driven by the operator table
  (`src/omxSymbolTable.cpp`): argument allocation, arity checks, lookups by number,
  the re-entrancy guard of recomputation and dependency propagation.
- **The control logic of the CSOLNP optimizer** (`src/asubnp.cpp`), over ideal reals:
  - the two-pass infeasibility strategy and the bound table;
  - the objective/constraint vector;
  - the three-point line search, acceptance and the minor-loop cap;
  - the penalty update, the major loop and the inform code.
- **Numeric Hessian scheduling** (`src/omxHessianCalculation.cpp`): the work list, the step
  offsets and restore discipline of the estimators, symmetric writes, the merge of a supplied
  Hessian, settings validation and the gradient-disagreement downgrade.
- **Three fit functions**:
  - GREML's parameter map, conformance checks, thread ranges and Hessian block
    (`src/omxGREMLfitfunction.cpp`);
  - the multigroup fit's aggregation and initialisation rules (`src/fitMultigroup.cpp`);
  - FIML's row chunks, failure handling and serial sum (`src/omxFIMLFitFunction.cpp`).

## How the model is built

- **Layout.** Each source file maps to one or more Dafny modules:
  - `common.dfy` holds the shared vocabulary:
    - `Option` and `Result`;
    - `Outcome`, for an operation that can raise an error;
    - IEEE doubles as `Double = Fin(real) | PosInf | NegInf | NaN`;
    - sums and counts.
  - The rest is one module per concern: `var_groups`, `confidence_intervals`, `error_list`,
    `constraints`, `checkpoint`, `state_index`, `symbol_table`, `algebra`, `csolnp`,
    `numeric_hessian`, `greml`, `multigroup` and `fiml`.
- **State the source updates in place is a class.**
  - The group list, the interval list and the error list of `omxGlobal` are each a class
    (`VarGroupRegistry`, `IntervalRegistry`, `ErrorLog`).
  - So are `omxConstraint`, `ConstraintVec`, `omxCheckpoint`, `omxAlgebra`/`omxMatrix`,
    the numeric-derivative compute step (`NumericDeriv`), the GREML fit state and
    `HessianBlock`, the multigroup fit, and the FIML fit function.
  - Each method is proved against a specification function. Its `ensures` ties the new state
    to that function of the old state. Lemmas then prove what the source promises about the
    function.
- **Values stay values.** Pure code is functions and lemmas: `ciCmp`, `getMatrixFromIndex`,
  `nameToGradOptEngine`, `pullAugVal`, the symbol table and the bound table.
- **Numerics are parameters.** The numerics around the control logic are inputs:
  - the fit function and the finite-difference/Richardson quotients (`Kernels`);
  - the merit values the line search probes;
  - the per-chunk FIML likelihoods.
- **Loops are loops.** Loops of the source are `while`/`for` loops with invariants, over `seq`s
  or `array`s as the source uses vectors or buffers.

### Where the documentation and the code differ

- The documented CSOLNP behaviour reports ITERATION_LIMIT when the iteration cap is reached.
  The code reports it only when `solnp_iter == maxit_trace`, and `maxit_trace` is set only by
  the early-stop branch (`src/asubnp.cpp:424-427`). It starts at 0 (`src/asubnp.cpp:97`), so a
  first (or only) pass that uses up all its iterations ends with NOT_AT_OPTIMUM. A later pass
  re-reads the same cap (`src/asubnp.cpp:177`) while `maxit_trace` keeps the cap recorded by an
  early stop in an earlier pass; exhausting the cap there does give ITERATION_LIMIT
  (`src/asubnp.cpp:468-471`). The model follows the code: `maxitTrace0` is an input of
  `Csolnp.MajorIterations`, `Csolnp.ExhaustedFirstPassNotIterationLimit` proves the first-pass
  outcome and `Csolnp.ExhaustedLaterPassIterationLimit` the later-pass one.

## Model

| member | source | states |
|---|---|---|
| VarGroups.VarGroupRegistry.constructor | src/omxState.cpp:261-267 | The global state starts with exactly two empty groups: one answering to FREEVARGROUP_ALL (0), then one answering to FREEVARGROUP_NONE (-1). |
| VarGroups.VarGroupRegistry.FindVarGroup | src/omxState.cpp:37-47 | Returns the position of the first group whose id list contains `id`, or none; equals `FirstGroupWith`. |
| VarGroups.FirstGroupWith | src/omxState.cpp:37-47 | A found group contains `id` and no earlier group does; none is returned exactly when no group contains `id`. |
| VarGroups.VarGroupRegistry.FindOrCreateVarGroup | src/omxState.cpp:49-58 | An existing group leaves the list unchanged; otherwise exactly one group `[id]` with no variables is appended. Afterwards `findVarGroup(id)` finds the returned group, so a second call creates nothing. |
| VarGroups.FirstGroupWithAppend | src/omxState.cpp:49-58 | A group appended when no earlier group answers to `id` is the one `findVarGroup` finds. |
| VarGroups.FreeVarGroup.HasSameVars | src/omxState.cpp:60-68 | True exactly when both groups hold the same variables in the same order. |
| VarGroups.FreeVarGroup.LookupVar | src/omxState.cpp:70-81 | Returns the smallest variable index with a location (matrix, row, col), or -1 exactly when no variable has one. |
| VarGroups.FreeVarGroup.LookupMatrixVar | src/omxState.cpp:83-86 | Looks a matrix up by its encoded number `~matrixNumber`, with the same first-match/-1 meaning. |
| VarGroups.FreeVarGroup.LookupVarByName | src/omxState.cpp:88-93 | Gives the position recorded for `name` in the name index, or -1 when the name is not indexed. |
| VarGroups.FreeVarGroup.ReIndex | src/omxState.cpp:107-116 | Succeeds exactly when no two variables share a name. Then the index maps every name to its position and holds no other key; ids and variables are unchanged. |
| VarGroups.LookupByNameAfterReIndex | src/omxState.cpp:107-116 | After a successful reIndex, looking a name up gives the position of the variable with that name, and -1 for a name no variable has. |
| VarGroups.VarGroupRegistry.DeduplicateVarGroups | src/omxState.cpp:411-426 | The group list becomes `Dedup` of the old list (ids and variables). It succeeds exactly when every surviving group has unique names, and then every group's name index is rebuilt. |
| VarGroups.Absorb | src/omxState.cpp:415-419 | Absorbing g2 into g1 removes exactly one group. |
| VarGroups.MergeDown | src/omxState.cpp:413-421 | The inner loop never removes g1 or any group before it. |
| VarGroups.AbsorbKeepsClassIds | src/omxState.cpp:415-419 | Moving g2's ids onto g1 (same variables) loses and duplicates no id of any variable list. |
| VarGroups.AbsorbFirstOccurrences | src/omxState.cpp:415-419 | Erasing a later group with the same variables keeps the order in which variable lists first appear. |
| VarGroups.MergeDownShape | src/omxState.cpp:413-421 | The inner loop keeps the groups before g1 and g1's variables, and every later survivor comes from after g1. |
| VarGroups.AbsorbStepShape | src/omxState.cpp:415-419 | The absorbing step of the inner loop has the same shape guarantee. |
| VarGroups.MergeDownSeparates | src/omxState.cpp:413-421 | After the inner loop no later group has g1's variables. |
| VarGroups.MergeDownKeepsIds | src/omxState.cpp:413-421 | The inner loop keeps, for every variable list, the multiset of ids of groups with that list. |
| VarGroups.AbsorbStepKeepsIds | src/omxState.cpp:415-419 | The absorbing step keeps those multisets. |
| VarGroups.MergeDownKeepsOrder | src/omxState.cpp:413-421 | The inner loop keeps the first-appearance order of variable lists. |
| VarGroups.AbsorbStepKeepsOrder | src/omxState.cpp:415-419 | The absorbing step keeps that order. |
| VarGroups.MergeDownExtendsSeparation | src/omxState.cpp:412-421 | One pass of the inner loop extends the prefix of groups that differ from all later ones by g1. |
| VarGroups.DedupFromDistinct | src/omxState.cpp:412-421 | The outer loop ends with pairwise different variable lists. |
| VarGroups.DedupFromKeepsIds | src/omxState.cpp:412-421 | The outer loop loses no id. |
| VarGroups.DedupFromKeepsOrder | src/omxState.cpp:412-421 | The outer loop keeps the first-appearance order. |
| VarGroups.DedupDistinct | src/omxState.cpp:411-426 | After deduplication no two groups have equal variable lists. |
| VarGroups.DedupGathersIds | src/omxState.cpp:411-426 | Each surviving group holds, as a multiset, exactly the ids of all original groups with its variables: removed groups' ids end up in the survivor. |
| VarGroups.DedupKeepsOrder | src/omxState.cpp:411-426 | The survivors are the first group of every variable list, in their original order. |
| ConfidenceIntervals.CiCmpIsStrictOrder | src/omxState.cpp:350-361 | `ciCmp` is irreflexive and transitive, and two intervals are equivalent under it exactly when their (matrixNumber, row, col) keys are equal. |
| ConfidenceIntervals.Column | src/omxState.cpp:390-394 | The cells of one column are rows 0..rows-1, in order. |
| ConfidenceIntervals.CellsColumnMajor | src/omxState.cpp:387-404 | Whole-algebra expansion yields rows*cols requests; cell (r, c) is at position c*rows + r, named `name[r+1,c+1]` with that row and column. |
| ConfidenceIntervals.CellsLength | src/omxState.cpp:387-404 | The expansion has rows*cols requests. |
| ConfidenceIntervals.CellAt | src/omxState.cpp:387-404 | Cell (r, c) of the expansion sits at c*rows + r. |
| ConfidenceIntervals.StepByKey | src/omxState.cpp:376-381 | A request is kept exactly when its key is not yet in the set; the set gains its key either way. |
| ConfidenceIntervals.KeysOfMembers | src/omxState.cpp:370 | The key set holds exactly the keys of the requests seen. |
| ConfidenceIntervals.FirstByKeyProperties | src/omxState.cpp:370-404 | The kept requests have pairwise different cells, cover every requested cell, and are drawn from the requests. |
| ConfidenceIntervals.UnpackKeepsOnePerCell | src/omxState.cpp:363-409 | Unpacking keeps one request per cell, loses no requested cell, and adds nothing that was not requested. |
| ConfidenceIntervals.AddColumn | src/omxState.cpp:389-403 | The row loop over one column leaves the list and set as if first occurrences had been kept from the requests so far followed by the column. |
| ConfidenceIntervals.AddCells | src/omxState.cpp:388-404 | The column and row loops leave the list and set as if first occurrences had been kept from the requests so far followed by all cells. |
| ConfidenceIntervals.ColumnPrefixStep | src/omxState.cpp:389-392 | Each row iteration appends exactly cell (rx, cx). |
| ConfidenceIntervals.CellsStep | src/omxState.cpp:388 | Each column iteration appends exactly that column. |
| ConfidenceIntervals.ExpandAllStep | src/omxState.cpp:373 | Each outer iteration appends the expansion of request ix. |
| ConfidenceIntervals.IntervalRegistry.constructor | src/omxState.cpp:365-366 | The interval list starts empty and not unpacked. |
| ConfidenceIntervals.IntervalRegistry.UnpackConfidenceIntervals | src/omxState.cpp:363-409 | Acts once: when already unpacked the list is unchanged. Otherwise the list becomes `Unpack` of the old list (first request per cell, in order, whole algebras expanded), and the flag is set. |
| ErrorList.ErrorLog.constructor | src/omxState.cpp:888-913 | The error list starts empty. |
| ErrorList.ErrorLog.RaiseError | src/omxState.cpp:888-913 | A message is appended while at most 100 are held; otherwise the list is unchanged and overflow is reported. The list never exceeds 101 entries. |
| ErrorList.RaiseAllKeepsFirst | src/omxState.cpp:904-908 | Whatever sequence of messages is raised, the list holds exactly the first 101 of them (all of them when there are fewer). |
| ErrorList.ErrorLog.GetBads | src/omxState.cpp:915-932 | Returns `Rendered(bads)`: none for an empty list, otherwise the rendered text. |
| ErrorList.FirstOverflow | src/omxState.cpp:919-924 | Finds the first message whose appending makes the text longer than 1<<14 characters; every earlier one keeps it within the limit. |
| ErrorList.JoinedPrefix | src/omxState.cpp:919-924 | The text of fewer messages is a prefix of the text of more. |
| ErrorList.RenderedIsPrefix | src/omxState.cpp:915-932 | For a non-empty list the result is a prefix of the complete text, and it is cut short only when it is already longer than 16384 characters. |
| ErrorList.RenderedShortIsComplete | src/omxState.cpp:915-932 | A complete text within the limit is returned whole. |
| ErrorList.RenderedSingle | src/omxState.cpp:915-932 | A single message is returned as it is, with no number and no newline. |
| ErrorList.RenderedNumbered | src/omxState.cpp:915-932 | With several messages the text starts with "1:". |
| Constraints.Constraint.constructor | src/omxState.cpp:999-1008 | A new constraint has its name and operator, and before `prep` sizes it, zero rows, no redundancy or activity flags and an empty initial Jacobian. |
| Constraints.Constraint.SetInitialSize | src/omxState.cpp:956-970 | origSize and size become sz; `redundant` and `seenActive` become sz falses; the initial Jacobian is sz rows of maxVars NAs. |
| Constraints.AllFalseCount | src/omxState.cpp:956-961 | A fresh all-false mask of length sz has sz non-redundant entries, so size agrees with recalcSize. |
| Constraints.Constraint.RecalcSize | src/omxState.cpp:1080-1085 | size becomes the number of non-redundant entries; nothing else changes. |
| Constraints.Constraint.RefreshAndGrab | src/omxState.cpp:1034-1045 | out gets `Grabbed(...)` spliced in at offset: exactly the non-redundant values, in order, negated for GREATER_THAN. Every other cell of out is unchanged. |
| Constraints.Grabbed | src/omxState.cpp:1038-1044 | The grabbed values number exactly the non-redundant entries. |
| Constraints.GrabbedPositions | src/omxState.cpp:1038-1044 | Non-redundant entry k lands at position "non-redundant entries before k", with the orientation applied. |
| Constraints.GrabStep | src/omxState.cpp:1038-1044 | Each mask entry adds its oriented value exactly when it is not redundant. |
| Constraints.Put | src/omxState.cpp:1043 | Writing just after the values grabbed so far extends the splice by one value. |
| Constraints.SpliceWrite | src/omxState.cpp:1043 | Writing one value after a splice gives the splice extended by that value. |
| Constraints.CountFalsePrefix | src/omxState.cpp:1038 | A prefix of the mask has no more non-redundant entries than the mask. |
| Constraints.ConstraintVec.constructor | src/omxState.cpp:1087-1103 | The loop adds up the sizes of the constraints the classifier selects. Each constraint's size is its number of non-redundant rows, so the count is `Count`, the number of rows the stacked vector gives them. Inequalities are not always active. |
| Constraints.ConstraintVec.Eval | src/omxState.cpp:1181-1229 | With count > 0, constr becomes `EvalValues`: the selected constraints' grabbed values, stacked in order, with inequality rows clamped unless ineqAlwaysActive. Every clamped row equal to 0 has a zero Jacobian row. |
| Constraints.Stack | src/omxState.cpp:1192-1228 | The loop over all constraints produces `EvalValues` and zeroes the Jacobian rows of clamped zero rows. |
| Constraints.Advance | src/omxState.cpp:1193-1227 | One iteration extends the stacked prefix by constraint j. |
| Constraints.Step | src/omxState.cpp:1193-1227 | One iteration appends exactly the constraint's contribution and clamp flags, and advances cur by its size (0 when not selected or empty). |
| Constraints.Place | src/omxState.cpp:1196-1227 | A selected constraint's values are grabbed at cur and then clamped when it is an inequality. |
| Constraints.ClampInactive | src/omxState.cpp:1211-1227 | Rows cur..cur+n become max(0, value), other rows are unchanged, and each clamped row that holds 0 gets a zero Jacobian row; other Jacobian rows are unchanged. |
| Constraints.ZeroRow | src/omxState.cpp:1222 | Row cx of the Jacobian becomes zero; every other row is unchanged. |
| Constraints.ClampZero | src/omxState.cpp:1219 | `std::max(0.0, d)` is 0, positive, or +Inf; a NaN becomes 0. |
| Constraints.ClampAll | src/omxState.cpp:1218-1219 | Clamping a block clamps each entry. |
| Constraints.Contribution | src/omxState.cpp:1193-1227 | A constraint contributes exactly `Size` rows to the stacked vector. |
| Constraints.ClampedFlags | src/omxState.cpp:1213-1219 | The clamp flags cover exactly those rows. |
| Constraints.EvalValues | src/omxState.cpp:1181-1229 | The stacked vector has exactly `count` rows. |
| Constraints.ClampedRows | src/omxState.cpp:1211-1227 | Its clamp flags have the same length. |
| Constraints.StackNext | src/omxState.cpp:1192-1228 | Stacking constraint j after the first j appends its contribution and adds its size to the count. |
| Constraints.CountMonotone | src/omxState.cpp:1087-1103 | Adding constraints never shrinks the stacked vector. |
| Constraints.ClampedRowsNonNegative | src/omxState.cpp:1211-1227 | Unless inequalities are always active, every inequality row of the stacked vector is 0, positive or +Inf. |
| Constraints.Shapes | src/omxState.cpp:1192-1193 | The shapes read from the constraint list are the constraints' own, one per constraint. |
| Checkpoint.CheckpointFile.constructor | src/omxState.cpp:1296-1298 | The header is not yet written and the last-checkpoint counters are 0. The thresholds are parameters: the source constructor sets them to 0, and the code that reads the checkpoint options (not part of this model) assigns them after construction; the model takes those assigned values. |
| Checkpoint.CheckpointFile.WriteHeader | src/omxState.cpp:1308-1323 | The header naming every free parameter is written once: only when it was not yet written. |
| Checkpoint.CheckpointFile.PostFit | src/omxState.cpp:1330-1370 | Writes only when forced or a nonzero time, iteration or evaluation threshold is reached. Then it writes the header if needed and one row with numParam value columns, and records now, iterations and evaluations. Otherwise nothing changes. |
| Checkpoint.BuildValueColumns | src/omxState.cpp:1354-1363 | The merge loop produces `ValueColumns`. |
| Checkpoint.ValueColumns | src/omxState.cpp:1354-1363 | A row has exactly numParam value columns. |
| Checkpoint.MergeFrom | src/omxState.cpp:1354-1363 | The columns from px on number numParam - px. |
| Checkpoint.MergeFromSorted | src/omxState.cpp:1354-1363 | With increasing ids below numParam, column `ids[k]` holds `est[k]`. |
| Checkpoint.MergeFromUnused | src/omxState.cpp:1354-1363 | A column that is no variable's id is NA. |
| Checkpoint.IdsAbove | src/omxState.cpp:1356 | With increasing ids, skipping a column keeps every pending id above it. |
| StateIndex.Decode | src/omxState.cpp:314-317 | A number decodes to a matrix reference exactly when it is negative. |
| StateIndex.Encode | src/omxState.cpp:314-317 | A matrix reference encodes to a negative number, an algebra reference to a non-negative one. |
| StateIndex.DecodeEncode | src/omxState.cpp:314-317 | Decoding an encoded reference gives it back. |
| StateIndex.EncodeDecode | src/omxState.cpp:314-317 | Encoding a decoded number gives it back, so the encoding is a bijection. |
| StateIndex.GetMatrixFromIndex | src/omxState.cpp:314-317 | A negative number selects `matrixList[~matnum]`, any other `algebraList[matnum]`. |
| StateIndex.GetMatrixFromEncoded | src/omxState.cpp:314-317 | Looking up the number of the k-th matrix or algebra gives back that matrix or algebra. |
| StateIndex.StageState.constructor | src/omxState.cpp:338-343 | The stage starts as given. |
| StateIndex.StageState.SetWantStage | src/omxState.cpp:338-343 | Setting the stage already wanted is an error; the stage is the requested one afterwards. |
| StateIndex.NameToGradOptEngine | src/omxState.cpp:1440-1459 | Succeeds exactly for CSOLNP, SLSQP and SD, and for NPSOL when the build has it. |
| StateIndex.EngineNameRoundTrip | src/omxState.cpp:1440-1459 | Every available engine is found by its name, and a name is accepted only as the name of the engine it yields. |
| SymbolTable.Lookup | src/omxSymbolTable.cpp:3-100 | An entry exists exactly for opcodes 0..95, and the entry at position i has number i. |
| SymbolTable.ArityOf | src/omxSymbolTable.cpp:3-100 | An opcode's arity is -1 exactly when it is variadic, and is never below -1. |
| SymbolTable.VariadicExactly | src/omxSymbolTable.cpp:16-21 | Exactly the variadic operators have arity -1; every other entry has arity >= 0. |
| SymbolTable.VariadicNamed | src/omxSymbolTable.cpp:12-40 | The variadic operators are cbind, rbind, sum, prod, max, min and omxAllInt. |
| SymbolTable.SpecialEntry | src/omxSymbolTable.cpp:4 | Entry 0 is the no-op: arity 0, no check and no compute function. |
| SymbolTable.OperatorsComplete | src/omxSymbolTable.cpp:5-99 | Every entry 1..95 has both a check and a compute function. |
| SymbolTable.SubtractionOpcode | src/omxSymbolTable.cpp:14 | Opcode 10, which the constraint builder uses for lhs - rhs (src/omxState.cpp:1005), is binary subtraction. |
| Algebra.AlgebraNode.constructor | src/omxAlgebra.cpp:241-246 | A new algebra has no arguments, no operator, is not processing, and has the given fixed flag. |
| Algebra.AlgebraNode.AllocArgs | src/omxAlgebra.cpp:35-53 | n <= 0 leaves no arguments and no array. An existing array is kept, and the call fails when fewer than n arguments are held. Otherwise a fresh array of n null slots is made. Nothing else changes. |
| Algebra.AlgebraNode.FillFromTableEntry | src/omxAlgebra.cpp:260-268 | Records the entry, and allocates as `AllocArgs` does for the entry's arity, or for realNumArgs when the arity is -1. |
| Algebra.ArgsToAllocate | src/omxAlgebra.cpp:260-268 | The slot count is the table arity, or realNumArgs for a variadic entry. |
| Algebra.NewAlgebraFromOperatorAndArgs | src/omxAlgebra.cpp:376-401 | Fails exactly when the table arity is fixed (>= 0) and differs from numArgs. Otherwise a fresh algebra over a fresh matrix holds `args[..numArgs]`, or no array when numArgs <= 0. |
| Algebra.LookupByNumber | src/omxAlgebra.cpp:364-374 | NA maps to no matrix; any other number decodes as in getMatrixFromIndex. |
| Algebra.LookupByNumberEncoded | src/omxAlgebra.cpp:364-374 | Looking up the number of any stored matrix or algebra finds it. |
| Algebra.TruncateToInt | src/omxAlgebra.cpp:351-352 | C's `(int)` conversion of a double truncates toward zero. |
| Algebra.State1Number | src/omxAlgebra.cpp:342-362 | An empty value or integer NA means no matrix, and a string is an error. Errors arise only for non-empty strings and unknown types; an integer gives its first entry. |
| Algebra.LookupFromState1 | src/omxAlgebra.cpp:342-362 | Fails exactly when the value is unusable; a number selects as getMatrixFromIndex does; "no matrix" exactly when the value says so. |
| Algebra.Recompute | src/omxAlgebra.cpp:154-239 | While processing it returns at once and changes nothing. The guard restores `processing` on every exit. On an initial fit, the result becomes parameter- (definition-variable-) dependent iff it was or some argument is. The no-op needs exactly one argument and takes its shape. An operator gives its result's shape, and every discardable argument becomes 0x0 and dirty. |
| Algebra.PropagateDependencies | src/omxAlgebra.cpp:171-194 | The dependency flags become old flag OR "some argument depends"; nothing else changes. |
| Algebra.EvaluateInto | src/omxAlgebra.cpp:201-229 | The no-op fails unless it has exactly one argument, and takes that argument's shape. An operator gives its result's shape and releases exactly the discardable arguments. |
| Algebra.DiscardArgs | src/omxAlgebra.cpp:221-228 | Every discardable argument becomes 0x0 and dirty; the others are unchanged. |
| Algebra.FillNoOp | src/omxAlgebra.cpp:307-335 | The no-op's single argument is `matrixList[~value]` for a negative value and `algebraList[value]` otherwise; a fixed algebra's matrix is marked clean. |
| Algebra.FillOperator | src/omxAlgebra.cpp:290-335 | The operator's table entry is recorded and the parsed arguments fill the allocated slots in order; a fixed algebra's matrix is marked clean. |
| Csolnp.PassSchedule | src/asubnp.cpp:131-148 | There are two passes exactly when some negated initial inequality value is negative. The first of two passes has nineq = 0, the last pass uses the real count, and the flag is clear afterwards. |
| Csolnp.BoundTableLayout | src/asubnp.cpp:155-174 | The bound table has nineq + np rows: nineq rows of [0, INF], then [LB_i, UB_i]. With no inequalities it is just the parameter rows. |
| Csolnp.SlacksLayout | src/asubnp.cpp:155-158 | The slack part is nineq rows of [0, INF]. |
| Csolnp.ParamBoundsLayout | src/asubnp.cpp:159-163 | The parameter part is row i = [LB_i, UB_i]. |
| Csolnp.ObjConstrEval | src/asubnp.cpp:1374-1406 | The output is always finite. A non-finite objective gives all 1e24. The normal layout is [obj, eq..., ineq...]. A feasibility pass writes abs(sum of min(ineq, 0)) - 1e-4 first, then the eq values, and keeps the rest of the buffer. A vector with a non-finite entry becomes all 1e24. |
| Csolnp.InterpEnds | src/asubnp.cpp:1154 | The interpolated point is p at alp 0 and p0 at alp 1. |
| Csolnp.BracketConditionsPartition | src/asubnp.cpp:1220-1222 | For any three merit values exactly one of condif1, condif2 and condif3 holds. |
| Csolnp.HalfOfInverse | src/asubnp.cpp:1151-1255 | Halving 1/x gives 1/(2x): the bracket width 1/2^k becomes 1/2^(k+1) after one more round. |
| Csolnp.LineSearch | src/asubnp.cpp:1069-1255 | 0 <= alp[0] <= alp[1] <= alp[2] <= 1, and the bracket width is 1/2^rounds (it halves every round). The middle sample is one of the ends; every sample lies on the segment and was probed there or is the start. Stopping early means go <= tol. |
| Csolnp.Accept | src/asubnp.cpp:1291-1328 | The point, merit and vector come from the one sample selected by the matching acceptance condition. The accepted merit is at most the middle sample's, and the least of the three when it is the middle one. |
| Csolnp.NextMinorLimit | src/asubnp.cpp:1270-1289 | The minor loop is capped at the iterations done when j <= min(sob) or the relative reduction is below tol; otherwise the limit is unchanged. |
| Csolnp.StopMinorPositiveTol | src/asubnp.cpp:1270-1289 | With a positive tolerance, the cap happens exactly when the relative reduction is below tol. |
| Csolnp.MinorIterations | src/asubnp.cpp:905-1334 | With limit <= 0 nothing changes and minr_rec is 0. Otherwise 1 <= minr_rec <= limit, and stopping before the limit means the loop was capped. |
| Csolnp.InitialRho | src/asubnp.cpp:226-230 | rho is zeroed exactly when there are constraints, no inequalities, and a constraint norm within 10*tol; otherwise it is kept. |
| Csolnp.PenaltyUpdateProperties | src/asubnp.cpp:389-400 | The penalty update never increases mu: it becomes at most tol when tt2 < 10*tol and is unchanged otherwise. rho stays non-negative. When tt2 > 10*tt1, rho becomes at least 5*sqrt(tol), and at least five times its old value unless tt2 < 10*tol. rho becomes 0 when tt2 < 10*tol and tt2 <= 10*tt1. The /5 and *5 branches never both apply, and between them rho is kept. |
| Csolnp.VnormWithinSqrt | src/asubnp.cpp:419-424 | The square-root test norm(tt0, tt1) <= tol is equivalent to the root-free `VnormWithin`. |
| Csolnp.Classify | src/asubnp.cpp:450-476 | CONVERGED_OPTIMUM iff vnorm <= tol, minr_rec == 1 and the iterates converged; UNCONVERGED_OPTIMUM iff only the first two hold. Otherwise ITERATION_LIMIT iff solnp_iter == maxit_trace, else NOT_AT_OPTIMUM. |
| Csolnp.MajorIterations | src/asubnp.cpp:252-476 | maxit < 1 runs no iteration; an evaluation aborted before the loop (mode -1) ends after one with inform 0. Otherwise the loop runs 1..maxit iterations and ends in the state `MajorRun` reaches after them: it stops at the first iteration whose state halts (aborted, small step or no feasible point), and at no other before maxit. A stop records maxit_trace = maxit, otherwise the incoming maxit_trace is kept. The inform code is 0 when aborted and otherwise `Classify` of the final state. rho stays non-negative; without constraints rho and tt1 are unchanged; infeasibility once seen is kept. |
| Csolnp.MajorAdvance | src/asubnp.cpp:252-400 | One major iteration: minr_rec and the abort come from the minor loop and mu becomes its lambda. An aborted step keeps tt0, tt1 and rho. Otherwise j is the new objective, and with constraints tt1 is the new constraint norm and rho and mu follow `PenaltyUpdate`; without constraints tt1 and rho are kept. |
| Csolnp.MajorRunKeeps | src/asubnp.cpp:252-400 | Over any number of iterations rho stays non-negative, infeasibility once seen is kept, and without constraints rho and tt1 never change. |
| Csolnp.ExhaustedFirstPassNotIterationLimit | src/asubnp.cpp:424-475 | A first pass that uses all its iterations without a small step reports NOT_AT_OPTIMUM, not ITERATION_LIMIT. |
| Csolnp.ExhaustedLaterPassIterationLimit | src/asubnp.cpp:424-475 | A later pass whose maxit_trace is the cap recorded by an earlier early stop reports ITERATION_LIMIT when it uses up that cap without a small step. |
| NumericHessian.ValidateSettings | src/omxHessianCalculation.cpp:251-277 | Accepts exactly when there are no constraints, numIter >= 2 and stepSize > 0; numIter < 2 gives the source's message. |
| NumericHessian.BuildKhMap | src/omxHessianCalculation.cpp:290-302 | Each supplied row name maps to the position of the first free variable with that name, or -1 exactly when no variable has it. |
| NumericHessian.Idx | src/omxHessianCalculation.cpp:221 | Cell (row, col) lies within the n*n buffer. |
| NumericHessian.IdxInjective | src/omxHessianCalculation.cpp:221 | Different cells have different buffer positions. |
| NumericHessian.BuildTodo | src/omxHessianCalculation.cpp:218-225 | The work list is exactly the pairs (i, j), j < i, whose entry is not finite, ordered by i ascending, then j descending. |
| NumericHessian.OffsetProperties | src/omxHessianCalculation.cpp:103-127 | The offset starts at max(abs(stepSize*x), stepSize), halves at every level, and stays positive for a positive stepSize. |
| NumericHessian.DiagProbesShape | src/omxHessianCalculation.cpp:105-126 | A diagonal estimate probes 2*numIter points: level m probes x_i + offset, then x_i - offset, with every other parameter at the optimum. |
| NumericHessian.OffDiagProbesShape | src/omxHessianCalculation.cpp:161-192 | An off-diagonal estimate probes 2*numIter points: level m moves x_i and x_l together by their offsets, up then down. |
| NumericHessian.EvaluationsAppend | src/omxHessianCalculation.cpp:115-120 | Two more probes append their two fit values. |
| NumericHessian.UnknownDiagonal | src/omxHessianCalculation.cpp:241-244 | At most d of the first d diagonal entries are unknown. |
| NumericHessian.LastBelow | src/omxHessianCalculation.cpp:359-368 | Finds the last row mapped to v, which wins the merge; -1 exactly when none is. |
| NumericHessian.LastBelowIs | src/omxHessianCalculation.cpp:359-368 | The last mapped row is the one after which no other maps to v. |
| NumericHessian.KnownCellSource | src/omxHessianCalculation.cpp:349-368 | A cell that no supplied row or no supplied column maps to stays NA. A mapped cell takes the supplied entry at the last supplied row and the last supplied column that map to it. |
| NumericHessian.EstimatedGradient | src/omxHessianCalculation.cpp:229-244 | The gradient after the diagonal pass has one entry per parameter. |
| NumericHessian.CheckedGradient | src/omxHessianCalculation.cpp:389-406 | The checked gradient has one entry per parameter. |
| NumericHessian.CheckedGradientProperties | src/omxHessianCalculation.cpp:389-406 | A disagreement above 0.1 with a finite difference norm raises inform to at least NOT_AT_OPTIMUM and blanks exactly the disagreeing entries. inform never decreases, and otherwise the gradient is unchanged. Checking is idempotent and leaves no disagreement. |
| NumericHessian.NumericDeriv.constructor | src/omxHessianCalculation.cpp:316-317 | The parameters start as given, optima are a copy, and no probe has been made. |
| NumericHessian.NumericDeriv.Probe | src/omxHessianCalculation.cpp:113-116 | One fit evaluation at the current parameters, counted and recorded. |
| NumericHessian.NumericDeriv.ProbeShifted | src/omxHessianCalculation.cpp:107-122 | Evaluates the fit with x_i moved and puts x_i back: the parameters equal the optima afterwards. |
| NumericHessian.NumericDeriv.ProbeShiftedPair | src/omxHessianCalculation.cpp:162-189 | Evaluates the fit with x_i and x_l moved and puts both back. |
| NumericHessian.NumericDeriv.EstimateOnDiagonal | src/omxHessianCalculation.cpp:92-143 | Makes 2*numIter probes, exactly `DiagProbes`, and restores the parameters. It writes only the diagonal entry i and gradient entry i. |
| NumericHessian.NumericDeriv.EstimateOffDiagonal | src/omxHessianCalculation.cpp:149-208 | Makes 2*numIter probes, exactly `OffDiagProbes`, and restores the parameters. It writes hessian[i*n+l] and hessian[l*n+i] with the same value and nothing else. |
| NumericHessian.NumericDeriv.EstimateDiagonals | src/omxHessianCalculation.cpp:241-244 | Estimates exactly the diagonal entries that are not finite (supplied ones are kept), with 2*numIter probes each; off-diagonal entries are untouched. |
| NumericHessian.NumericDeriv.EstimateListed | src/omxHessianCalculation.cpp:245-247 | Estimates every listed pair symmetrically, with 2*numIter probes each; the diagonal is untouched. |
| NumericHessian.NumericDeriv.DoHessianCalculation | src/omxHessianCalculation.cpp:211-249 | The work list is the unknown lower-triangle pairs. Every unknown diagonal entry is estimated (with its gradient entry), and every other diagonal entry and gradient entry is kept. A pair whose lower entry is unknown gets the estimate in both cells, even when its upper entry was finite; a pair whose lower entry is known keeps both cells. The probe count grows by 2*numIter per estimate. |
| NumericHessian.NumericDeriv.MergeKnownHessian | src/omxHessianCalculation.cpp:359-368 | Every cell becomes `MergedCell`: the supplied entry at the last supplied row and column that map to it, or NA when the row or the column is not supplied. |
| NumericHessian.NumericDeriv.CheckGradient | src/omxHessianCalculation.cpp:389-406 | The gradient and inform become `CheckedGradient` and `CheckedInform` of the old gradient. |
| NumericHessian.NumericDeriv.ComputeImpl | src/omxHessianCalculation.cpp:309-413 | No free parameters is an error, and a non-finite reference fit skips the work. Otherwise supplied entries are kept and unknown ones estimated, off-diagonals symmetric. The gradient is estimated and checked against the old one. The parameters end at the optimum. |
| Greml.GremlFitState.constructor | src/omxGREMLfitfunction.cpp:103-120 | The state holds the derivatives and their names, with the per-derivative vectors resized to dVlength and zeroed (origdVdim 0, indyAlg false), and no parameter map yet. |
| Greml.GremlFitState.CheckDerivativeDims | src/omxGREMLfitfunction.cpp:128-138 | Succeeds exactly when every dV has V's dimensions or, when y is shorter than V, is square of y's length; then origdVdim[i] is dV[i]'s row count. |
| Greml.ThreadStartMonotone | src/omxGREMLfitfunction.cpp:310-312 | Thread starts never decrease and never pass len. |
| Greml.ThreadRangesTile | src/omxGREMLfitfunction.cpp:310-312 | The first range starts at 0, each ends where the next starts, and the last ends at len. |
| Greml.ThreadRangesDisjoint | src/omxGREMLfitfunction.cpp:310-312 | A thread's range ends no later than any later thread's starts. |
| Greml.ThreadOf | src/omxGREMLfitfunction.cpp:310-312 | Every derivative index is handled by exactly one thread. |
| Greml.FillAvgInfo | src/omxGREMLfitfunction.cpp:313-346 | Without a Hessian avgInfo is unchanged. With one, exactly the cells (t1, t2) and (t2, t1) of slot pairs whose first slot is in the thread's range are written, each with its value (the diagonal term for t1 == t2, the cross term otherwise); every other cell keeps its old value. A symmetric avgInfo stays symmetric, and the full range over the identity map makes any avgInfo symmetric. |
| Greml.FillRow | src/omxGREMLfitfunction.cpp:321-345 | The inner loop for slot i writes exactly the cells (t1, t2) and (t2, t1) for slots j >= i, each with its value, and keeps all others. |
| Greml.SlotOf | src/omxGREMLfitfunction.cpp:314-324 | The first slot carrying a parameter number, or -1 when no slot carries it. |
| Greml.SlotOfMapped | src/omxGREMLfitfunction.cpp:314-324 | With each parameter in at most one slot, the slot of gradMap[k] is k. |
| Greml.HessianBlock.constructor | src/omxGREMLfitfunction.cpp:294-298 | The block has dVlength parameter numbers and a dVlength x dVlength matrix. |
| Greml.CopyUpperTriangle | src/omxGREMLfitfunction.cpp:349-357 | With a Hessian wanted, mat(h2, h1) = avgInfo(h2, h1) for every h2 <= h1; other cells are unchanged. |
| Greml.UpperTriangleDetermines | src/omxGREMLfitfunction.cpp:345-357 | Because avgInfo is symmetric, the copied upper triangle determines all of it. |
| Greml.GremlFitState.BuildParamMap | src/omxGREMLfitfunction.cpp:400-444 | With no derivatives nothing changes. Otherwise the slots become `Placed(Matches(...))`. It succeeds exactly when every derivative and every variable is matched and the augmentation matrices conform, and then slot g holds variable g with a derivative named after it. |
| Greml.Matches | src/omxGREMLfitfunction.cpp:410-424 | The recorded (variable, derivative) pairs have increasing variable positions, in range. |
| Greml.MatchesNamed | src/omxGREMLfitfunction.cpp:412-414 | Each recorded derivative is the first one carrying its variable's name. |
| Greml.MatchesDistinct | src/omxGREMLfitfunction.cpp:410-424 | With distinct names, different slots take different derivatives, so at most dVlength slots are filled. |
| Greml.MatchesFull | src/omxGREMLfitfunction.cpp:410-424 | When every variable is matched, slot g belongs to variable g. |
| Greml.MatchesStep | src/omxGREMLfitfunction.cpp:410-424 | One more variable adds at most its one match. |
| Greml.BuildParamMapPermutation | src/omxGREMLfitfunction.cpp:410-426 | A successful map is a permutation: slot g is variable g, its derivative carries that name, and every derivative is used exactly once. |
| Greml.PlaceMatches | src/omxGREMLfitfunction.cpp:410-424 | The nested loop fills gx = number of matches slots, exactly as `Placed` describes. |
| Greml.PlaceMatchesStep | src/omxGREMLfitfunction.cpp:410-424 | One outer iteration: an unmatched variable leaves the matches as they were; a matched one writes slot gx < dVlength and moves the placed slots to those of one more variable. |
| Greml.Placed | src/omxGREMLfitfunction.cpp:415-420 | Placing matches keeps the slot layout sized. |
| Greml.PlacedSlots | src/omxGREMLfitfunction.cpp:415-420 | Slot g < gx holds derivative ml[g].1, maps to variable ml[g].0 and augmentation index ml[g].1; later slots keep their old contents. |
| Greml.PlacedStep | src/omxGREMLfitfunction.cpp:415-421 | Each match writes slot gx. |
| Greml.PlacedPermutation | src/omxGREMLfitfunction.cpp:410-426 | After a successful map, slot g holds variable g and a derivative named after it. |
| Greml.FindName | src/omxGREMLfitfunction.cpp:411-423 | The inner search finds the first derivative with the name, or -1. |
| Greml.FirstIndex | src/omxGREMLfitfunction.cpp:411-423 | -1 exactly when the name is absent; otherwise the first position holding it. |
| Greml.ParamMapCheck | src/omxGREMLfitfunction.cpp:425-441 | Succeeds exactly when gx == dVlength, gx >= number of variables, and augGrad/augHess conform, with the source's message for each failure in order. |
| Greml.PullAugVal | src/omxGREMLfitfunction.cpp:447-461 | An absent matrix or unknown selector gives 0; otherwise aug[0], augGrad[row+col] or augHess(row, col). |
| Greml.PullAugValSymmetric | src/omxGREMLfitfunction.cpp:447-461 | The gradient entry is found whichever index carries it, and a symmetric augHess gives the same value for (a1, a2) and (a2, a1). |
| Greml.Resized | src/omxGREMLfitfunction.cpp:408-409 | `resize` keeps the old entries and pads with zeros. |
| Greml.Selected | src/omxGREMLfitfunction.cpp:479-511 | The selected indices are exactly those that need an update and whose independence flag matches, each in range, in increasing order. |
| Greml.GremlFitState.DvUpdate | src/omxGREMLfitfunction.cpp:479-493 | Recomputes exactly the derivatives that need an update and are not parameter-independent algebras, in order. |
| Greml.GremlFitState.DvUpdateFinal | src/omxGREMLfitfunction.cpp:496-511 | Recomputes exactly the parameter-independent algebras that need an update, in order. |
| Multigroup.MultigroupFit.Compute | src/fitMultigroup.cpp:36-70 | With the fit wanted, the result is the in-order sum of the members' data[0], and one error per member that is not 1x1 is raised through the capped error list; otherwise the fit value is unchanged. With a compute context, fc->mac becomes the maximum of 0 and the members' mac when MAXABSCHANGE is wanted, else 0. |
| Multigroup.FitSumAppend | src/fitMultigroup.cpp:44-62 | Splitting the members splits the fit into the two parts' sums. |
| Multigroup.MaxMacBounds | src/fitMultigroup.cpp:40-50 | The change reported is never below 0, bounds every fit-function member's mac, and is 0 or one of them. |
| Multigroup.PrefixStep | src/fitMultigroup.cpp:44-62 | One more member adds its value to the fit and takes the max with its mac, as the loop does. |
| Multigroup.RealMax | src/fitMultigroup.cpp:49 | `std::max` is an upper bound equal to one of its arguments. |
| Multigroup.NotScalarMessage | src/fitMultigroup.cpp:54-58 | The message names the member's type, or MxAlgebra for a plain algebra, and equals the source's text for a fit-function member. |
| Multigroup.NotScalarMessagesCount | src/fitMultigroup.cpp:54-58 | One message per member that is not 1x1: none exactly when every member is 1x1. |
| Multigroup.RaiseEachStep | src/fitMultigroup.cpp:54-58 | Each member adds its message to the error list, in member order. |
| Multigroup.MultigroupFit.SetFreeVarGroup | src/fitMultigroup.cpp:72-91 | Before any member exists the group is queued. Afterwards it is set on every member in order, and becomes the multigroup's group. |
| Multigroup.MultigroupFit.AddGroup | src/fitMultigroup.cpp:133-162 | Adds group g as `Step` does: it refuses a negative index and the multigroup itself. Otherwise it appends the member and applies the queued groups. It combines the capability flags and adopts or checks units. |
| Multigroup.MultigroupFit.Init | src/fitMultigroup.cpp:104-164 | Without the front-end object, or once members exist, nothing happens. A pending error leaves the reset state. Otherwise the result is `InitFold` of the groups from the reset state (units uninitialised, both flags true), and the fit function is marked duplicable (canDuplicate). |
| Multigroup.WithGroups | src/fitMultigroup.cpp:143-147 | Applying the queued groups changes only a fit-function member's group, which ends as the last queued one. |
| Multigroup.Members | src/fitMultigroup.cpp:136-142 | The members are the matrices the groups name, in order. |
| Multigroup.InitFoldStep | src/fitMultigroup.cpp:131-162 | Each group is added by one loop iteration. |
| Multigroup.InitFoldErrSticky | src/fitMultigroup.cpp:131-162 | The first refusal is final: the whole initialisation fails with its message. |
| Multigroup.InitFoldAccepts | src/fitMultigroup.cpp:131-162 | Succeeds exactly when every group is a non-negative index other than the multigroup, and all fit-function members with known units agree. The resulting units are the first member's known units. |
| Multigroup.InitFoldValid | src/fitMultigroup.cpp:136-141 | A successful initialisation accepted every group index. |
| Multigroup.Added | src/fitMultigroup.cpp:142-147 | One member per group. |
| Multigroup.AddedSnoc | src/fitMultigroup.cpp:142-147 | The members grow by one per group. |
| Multigroup.InitFoldMembers | src/fitMultigroup.cpp:142-147 | After success the members are the named matrices, in order, with the queued groups applied. |
| Multigroup.InitFoldAvailable | src/fitMultigroup.cpp:149-161 | gradientAvailable and hessianAvailable hold exactly when every member is a fit function offering them; a plain-algebra member forces both false. |
| Multigroup.FirstUnits | src/fitMultigroup.cpp:151-154 | The units are those of the first fit-function member with known units, or uninitialised when there is none. |
| Multigroup.UnitsAgreeFirst | src/fitMultigroup.cpp:151-158 | When members agree, each known-units member has the first one's units. |
| Multigroup.UnitsAgreeExtend | src/fitMultigroup.cpp:151-158 | A new member agrees exactly when it is not a fit function, has unknown units, or matches the first known units. |
| Multigroup.NotScalarMessageNullCounterexample | src/fitMultigroup.cpp:55-58 | As written, the message for a 2x1 plain algebra reads the type of a fit function that is not there. |
| Multigroup.MultigroupFit.constructor | src/fitMultigroup.cpp:112-113 | A new multigroup has no members and no queued groups. |
| Fiml.CheckThresholds | src/omxFIMLFitFunction.cpp:113-134 | Succeeds exactly when every factor column has thresholds. Otherwise it fails at the first one without, naming the data column that model column reads. |
| Fiml.NamedColumnCounterexample | src/omxFIMLFitFunction.cpp:131-132 | As written, the message names data column j, not the data column model column j reads. |
| Fiml.Parallelism | src/omxFIMLFitFunction.cpp:159-163 | parallelism is numChildren, or 1 with no children, capped at rows; at least 1 when there are rows. |
| Fiml.StrideBound | src/omxFIMLFitFunction.cpp:168 | The stride rows / p is at least one row, and p strides fit in the rows. |
| Fiml.StartFits | src/omxFIMLFitFunction.cpp:168-180 | Every chunk before the last leaves room for a full stride. |
| Fiml.ChunkEnd | src/omxFIMLFitFunction.cpp:171-180 | Chunk i ends where chunk i+1 starts, or at rows when it is the last; the first starts at 0, and every chunk is non-empty. |
| Fiml.ChunksTile | src/omxFIMLFitFunction.cpp:167-184 | The chunks tile [0, rows): the first starts at 0, each starts where the previous ends, the last ends at rows, and none is empty. |
| Fiml.ChunkCallsPrefix | src/omxFIMLFitFunction.cpp:171-180 | The calls up to chunk i+1 are those up to chunk i and then chunk i. |
| Fiml.ChunkStep | src/omxFIMLFitFunction.cpp:171-180 | Chunk i starts where the previous chunks end, and the last ends at rows. |
| Fiml.ChunkOf | src/omxFIMLFitFunction.cpp:167-184 | Every row lies in exactly one chunk. |
| Fiml.StartsIncrease | src/omxFIMLFitFunction.cpp:167-184 | In a tiling, a chunk ends no later than any later chunk starts: no overlap. |
| Fiml.AnyFailsAppend | src/omxFIMLFitFunction.cpp:171-180 | `failed` after one more chunk is the old flag or that chunk's failure. |
| Fiml.FimlFit.constructor | src/omxFIMLFitFunction.cpp:262-264 | A new fit function keeps the returnRowLikelihoods flag and owns a fresh row-likelihood buffer of one entry per data row; its fit value starts at 0, a modelling choice (the source leaves the fit matrix to the first evaluation). |
| Fiml.FimlFit.SingleIter | src/omxFIMLFitFunction.cpp:177-183 | A chunk's call writes exactly its rows' log-likelihoods and reports its failure. |
| Fiml.FimlFit.EvaluateChunks | src/omxFIMLFitFunction.cpp:167-184 | The calls are exactly the chunks in order; every row ends with its likelihood, and failed is the OR over chunks. |
| Fiml.FimlFit.SumRows | src/omxFIMLFitFunction.cpp:190-201 | The sum is the row-order sum of the row log-likelihoods. |
| Fiml.FimlFit.Evaluate | src/omxFIMLFitFunction.cpp:157-201 | The rows are zeroed, then evaluated over the chunks of `Parallelism`. If any chunk fails the fit is NA; otherwise, without row likelihoods, it is the serial sum. |
| Fiml.FimlFit.Compute | src/omxFIMLFitFunction.cpp:111-201 | When cov and means are precomputed, a factor column without thresholds is an error before any evaluation; otherwise it evaluates as `Evaluate` does. |
| Fiml.InitBuffers | src/omxFIMLFitFunction.cpp:212-339 | Fails without an expectation, then without a covariance, with their messages, and succeeds otherwise. Weights and the correlation list are allocated exactly when there are ordinal columns; the small correlation buffer exactly when all columns are ordinal, the joint covariances exactly when continuous columns exist too. Weights hold covCols doubles, the correlation buffers covCols(covCols+1)/2. |
| Fiml.CorListCopyFits | src/omxFIMLFitFunction.cpp:149-150 | The child copy of n(n-1)/2 correlations fits the corList buffer that initialisation allocates, next to n weights. The buffer exists exactly for ordinal data. |

## Left out

- Numeric engines: the CSOLNP QP/BFGS updates, scaling, Cholesky and QR solves; likelihoods
  (GREML, FIML `singleIter`, ssML, Fellner); finite-difference and Richardson values. These
  are floating-point linear algebra. They are parameters of the model, not modelled.
- Floating point is ideal: finite doubles are `real`s, so rounding, overflow and the order of
  additions are not modelled. NaN and the infinities are kept where finiteness decides a branch.
- Concurrency: the OpenMP regions are modelled as serial loops:
  - the FIML chunks run in order;
  - the numeric Hessian uses the serial schedule, and the per-child work structures are left
    out;
  - for GREML, the thread ranges and one thread's share of the avgInfo writes.
  The `omp critical` sections are plain code.
- I/O and R glue: `mxLog`, `Rf_warning`, `fprintf`/`strftime` formatting of checkpoint rows,
  `R_do_slot` parsing, the protect stack and interrupts.
  - Checkpoint rows are modelled as values.
  - The duplicate-interval warning of `unpackConfidenceIntervals` (`cmpBoundAndType`) is not
    modelled.
- The operator implementations behind the symbol table are not part of this model. The table
  is data: names, arities and whether the check/compute functions exist. An operator's result
  shape is a parameter of `Algebra.Recompute`.
- `FreeVarGroup::lookupVar(int id)`, `cacheDependencies`, `isDisjoint`, `markDirty` and `log`:
  these are outside the bookkeeping modelled here.
- The redundancy rank test (FullPivHouseholderQR), the finite-difference Jacobian tool,
  `UserConstraint::prep/duplicate/analyticJac`, and the copy of `initialJac` into the Jacobian:
  numeric or foreign code.
- Constraints.ConstraintVec.Eval: specifies the constraint values and the zeroed Jacobian rows
  only. The other Jacobian entries are not stated, because their fill is left out. The
  classifier is a function of the operator only.
- Constraints.Constraint.RefreshAndGrab: the refreshed `pad` is a parameter, because
  recomputing the algebra is not modelled.
- Algebra.Recompute: the recursive recomputation of the arguments is not modelled, and
  whether it left an error pending is a parameter. The verbose logging and `omxCopyMatrix`
  versus `take` are not distinguished, and only the result's shape is stated.
- Algebra.FillOperator: parsing of the argument expressions (`omxAlgebraParseHelper`) is not
  modelled; the parsed arguments are a parameter.
- Algebra.Matrix.constructor: `omxInitMatrix` is not part of this model; the constructor only
  sets the fields the algebra code reads.
- Csolnp.MajorIterations: the minor loop, the merit values and the constraint norms come from
  parameters. The `llist` reset of lambda and the Hessian (lines 402-413) is left out,
  because it only touches numeric state.
- Csolnp.MinorIterations: states the iteration count and the cap. The points and merit values
  the line search finds are parameters.
- Csolnp.LineSearch: the merit values at probed points come from a parameter. The
  `whileIter < 1e6` guard is modelled as a cap on rounds.
- The early return of `subnp` when the problem is infeasible from the start is numeric and is
  not modelled.
- NumericHessian.NumericDeriv.ComputeImpl: the final `omxRecompute` of the fit at the optimum
  and the `wanted` flags are not modelled. Nor is the creation of child contexts.
- Multigroup.MultigroupFit.Init: `omxCompleteFitFunction` on each member is not part of this
  model. So the error check inside the loop is made once, before it: nothing in the modelled
  body raises an error through the list.
- Multigroup.MultigroupFit.SetFreeVarGroup: the lazy initialisation of line 74 and the other
  effects of `setFreeVarGroup` on a member are not modelled. A member records the group it was
  given.
- Multigroup.MultigroupFit.Compute: recomputing each member is not modelled; a member's value
  and mac are inputs. FIT_UNITS_UNINITIALIZED is taken as 0, the first value of the units
  enumeration.
- Fiml.FimlFit.Compute: the precomputation of cov and means, the threshold recompute and
  `checkIncreasing`, and the copies into children are not modelled. Each chunk's likelihoods
  and failure come from parameters.
- Greml.FillAvgInfo: the diagonal and cross terms (the traces and quadratic forms) are
  parameters. The per-thread `HessianBlock` parameter numbers (`hb->vars[i] = t1`, line 317)
  are not recorded inside the loop.
- Greml.FillAvgInfo: the threads run one after another, in any order; their write sets are
  disjoint, so this order does not change the result, but concurrency is not modelled.
- VarGroups.FreeVarGroup.HasSameVars: the source compares the variable pointers; the model
  compares the variables as values. Two distinct variable objects with equal fields would
  count as the same here.
- NumericHessian.NumericDeriv.ComputeImpl: the number of fit evaluations is stated on
  `DoHessianCalculation` (two per iteration for each estimated diagonal entry and each
  listed pair), not restated in terms of the supplied entries.
- Greml.GremlFitState.DvUpdate: `omxNeedsUpdate` is an input; the recomputation itself is
  represented by the returned indices.

## Findings

| source | as written | input that shows it | evidently intended | confidence | as-written member | corrected member |
|---|---|---|---|---|---|---|
| src/fitMultigroup.cpp:55-58 | The "does not evaluate to a 1x1 matrix" message reads `f1->fitFunction->fitType` for every member, including a plain algebra, whose `fitFunction` is null | A plain-algebra member of dimension 2x1 with the fit wanted | Report the member's type, with plain algebras named as such, without dereferencing a null fit function | medium, not executed | Multigroup.NotScalarMessageNullCounterexample | Multigroup.NotScalarMessage |
| src/omxFIMLFitFunction.cpp:118-133 | The "No threshold given for ordinal column" message names `omxDataColumnName(data, j)`, with the model column index j | dataColumns = [1], with data column 1 a factor without thresholds and data column 0 not a factor; the message names column 0 | Name the data column that model column j reads, `dataColumns[j]`, the one the check found | medium, not executed | Fiml.NamedColumnCounterexample | Fiml.CheckThresholds |
