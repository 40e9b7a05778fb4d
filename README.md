# MOSEK conic interface: a verified model

This project models cvxpy's interface to the MOSEK conic solver
(`cvxpy/reductions/solvers/conic_solvers/mosek_conif.py`). The interface has three stages:

1. **Encode** (`apply`, `block_format`). The standard-form constraints are grouped by
   cone kind and stacked into one system `G z <=_K h`, in the order NonPos, Zero, SOC,
   ExpCone, PSD. The `dims` record is written, and so are the (id, length) tables that
   later split the dual buffers.
2. **Bridge** (`solve_via_data`). The solver options are checked first, including the
   `mosek_params` dictionary (`_handle_mosek_params`). A problem with no variables is
   answered without the solver. Otherwise the MOSEK task is declared:
   - variables are extended by one slack per SOC and ExpCone row;
   - the slacks are grouped into quadratic and exponential cones;
   - integrality is declared;
   - the nonzeros of G are entered, then an identity block that ties every slack to
     its row;
   - every PSD row becomes one symmetric basis matrix on its matrix variable, with
     weight 1 on the diagonal and 1/2 off it;
   - the first `dims.leq` rows get upper bounds, the remaining rows are fixed;
   - the objective is entered.
3. **Decode** (`invert`, `parse_dual_vars`, `vectorized_lower_tri_to_mat`). The
   solution pool is chosen and MOSEK's status is mapped. When a solution is present,
   the objective, the primal vector and each table's dual slice are read, and every PSD
   dual is rebuilt from its half vector into the full symmetric matrix.

One module per file:

| file | module | models |
|---|---|---|
| common.dfy | `Common` | option and result types, canonical statuses, sums and concatenations |
| symmatrix.dfy | `SymMatrix` | `vectorized_lower_tri_to_mat` and its inverse, half-vectorisation |
| dualsplit.dfy | `DualSplit` | `parse_dual_vars` |
| encoder.dfy | `Encoder` | `block_format`, `apply` |
| params.dfy | `Params` | `_handle_mosek_params`, the keyword check of `solve_via_data` |
| bridge.dfy | `Bridge` | `solve_via_data`, with the MOSEK task as a record |
| decoder.dfy | `Decoder` | `invert` |

How the model represents the program:

- **The MOSEK task** is a `Task` record. It holds the declared variables, bounds,
  types, matrix variables and cones, the linear and matrix-variable coefficients, the
  constraint bounds and the objective. `SolveViaData` builds the task through small
  methods, one per group of API calls. Each method is proved equal to a specification
  function, and the layout lemmas are proved about that function.
- **Solver results** are parameters. `invert` reads from a `TaskResult`: per solution
  pool, the status, the primal objective and the buffers that `getxxslice`,
  `getsucslice`, `getyslice`, `getsnxslice` and `getbarsj` fill.
- **Infinite or missing objectives** use the `Objective` datatype, because floating
  point is not modelled.

## Model

All source paths are relative to the repository root.

| member | source | states |
|---|---|---|
| SymMatrix.LowerTriToMat | cvxpy/reductions/solvers/conic_solvers/mosek_conif.py:30-47 | Collecting the triples column by column, making them dense and adding the transpose less the diagonal yields exactly `LowerTriMat(v, dim)`. |
| SymMatrix.ColumnStep | cvxpy/reductions/solvers/conic_solvers/mosek_conif.py:39-43 | After column j's triples are added, the dense triples hold the lower triangle of columns 0..j and zero elsewhere. The running index moves to the start of column j + 1. |
| SymMatrix.CooAtAppend | cvxpy/reductions/solvers/conic_solvers/mosek_conif.py:44 | Making a concatenation of triple lists dense adds their dense values: duplicates are summed. |
| SymMatrix.CooAtColumn | cvxpy/reductions/solvers/conic_solvers/mosek_conif.py:40-42 | Column j's triples put `w[i - j]` at (i, j) for j <= i < j + \|w\| and nothing anywhere else. |
| SymMatrix.MirrorLowerTriangle | cvxpy/reductions/solvers/conic_solvers/mosek_conif.py:45-46 | `A + A.T - diag(A)` of the dense lower triangle is the full symmetric matrix. |
| SymMatrix.ColumnsFillTriangle | cvxpy/reductions/solvers/conic_solvers/mosek_conif.py:39-43 | The columns of lengths dim - j together hold dim * (dim + 1) / 2 entries, so the running index ends exactly at the end of v. |
| SymMatrix.LowerTriMatShape | cvxpy/reductions/solvers/conic_solvers/mosek_conif.py:30-47 | The result is dim x dim and symmetric. Entry (i, j) with i >= j is v's entry at the column-major lower-triangle position of (i, j). |
| SymMatrix.HalfVecThenDecode | cvxpy/reductions/solvers/conic_solvers/mosek_conif.py:30-47 | Decoding the half vector of any symmetric matrix gives the matrix back. |
| SymMatrix.DecodeThenHalfVec | cvxpy/reductions/solvers/conic_solvers/mosek_conif.py:30-47 | Half-vectorising the decoded matrix gives v back, so the decoder is a bijection. |
| DualSplit.ParseDualVars | cvxpy/reductions/solvers/conic_solvers/mosek_conif.py:515-535 | The result is the dictionary `DualMap` of the buffer and table, and its keys are exactly the table's ids. With distinct ids, entry k holds the slice that starts at the sum of the earlier dims; it is a scalar exactly when its dim is 1. |
| DualSplit.DualMapKeys | cvxpy/reductions/solvers/conic_solvers/mosek_conif.py:527-534 | Every id of the table, and no other key, is written. |
| DualSplit.DualMapAt | cvxpy/reductions/solvers/conic_solvers/mosek_conif.py:527-534 | With distinct ids, constraint k receives the slice at offset `Offset(refs, k)` of length `dim_k`, and that slice lies inside the buffer. |
| DualSplit.SliceValueFlat | cvxpy/reductions/solvers/conic_solvers/mosek_conif.py:529-532 | A slice is stored as a scalar exactly when its dim is 1, and its entries are the buffer's entries. |
| DualSplit.SlicesDisjoint | cvxpy/reductions/solvers/conic_solvers/mosek_conif.py:527-534 | Slice k ends at or before the start of every later slice, and no slice passes the total length. |
| DualSplit.JoinedIsPrefix | cvxpy/reductions/solvers/conic_solvers/mosek_conif.py:527-534 | The slices joined in table order are exactly the first TotalLen entries of the buffer, with no gap and no overlap. |
| DualSplit.TotalLenIsSum | cvxpy/reductions/solvers/conic_solvers/mosek_conif.py:527-534 | A table's total length is the sum of its dims column. |
| Encoder.BlockFormat | cvxpy/reductions/solvers/conic_solvers/mosek_conif.py:154-165 | The result is `None` exactly for an empty list. Otherwise it holds the stacked rows and offsets, one length and one id per constraint, and piece k of the stacked offset is constraint k's offset. |
| Encoder.OfKindMembers | cvxpy/reductions/solvers/conic_solvers/mosek_conif.py:196 | Filtering by type keeps exactly the constraints of that kind. |
| Encoder.OfKindAllEmpty | cvxpy/reductions/solvers/conic_solvers/mosek_conif.py:196-244 | All five groups are empty exactly when there are no constraints, which is when nothing is stacked. |
| Encoder.StackKind | cvxpy/reductions/solvers/conic_solvers/mosek_conif.py:196-232 | One kind's step records the (id, length) table of its constraints and their lengths, and appends one stacked block, or none when the kind is absent. |
| Encoder.StackPsd | cvxpy/reductions/solvers/conic_solvers/mosek_conif.py:234-242 | Each PSD constraint appends its (id, dim) entry, its dim and its own block. |
| Encoder.Apply | cvxpy/reductions/solvers/conic_solvers/mosek_conif.py:167-247 | `apply` fails exactly when there are no constraints. Otherwise the data and inverse data are `DataOf(p)` and `InverseOf(p)`: the kinds are stacked in order, and the tables are suc = NonPos, y = Zero, snx = SOC then ExpCone, psd. |
| Encoder.ApplyLayout | cvxpy/reductions/solvers/conic_solvers/mosek_conif.py:167-247 | From well-formed blocks, G has one row per entry of h and each row is as wide as c. The dims account for exactly the rows of h, the ExpCone rows come in triples, and the integrality positions lie within c. |
| Encoder.StackRows | cvxpy/reductions/solvers/conic_solvers/mosek_conif.py:244-245 | The stacked G and h have equally many rows, each as wide as c. |
| Encoder.StackDims | cvxpy/reductions/solvers/conic_solvers/mosek_conif.py:199-239 | leq + eq + the SOC sizes + the ExpCone lengths + the PSD squares equals \|h\|, and the ExpCone lengths sum to a multiple of 3. |
| Encoder.InverseMatchesDims | cvxpy/reductions/solvers/conic_solvers/mosek_conif.py:196-232 | The suc table's lengths add up to dims.leq and the y table's to dims.eq. The snx table's add up to the SOC sizes plus the ExpCone lengths. |
| Encoder.InequalitiesFirst | cvxpy/reductions/solvers/conic_solvers/mosek_conif.py:244-245 | h starts with the inequality offsets, and the equality offsets follow. |
| Params.Dispatch | cvxpy/reductions/solvers/conic_solvers/mosek_conif.py:544-552 | An accepted name carries its setter's prefix and the entry's value. A rejected name has none of the three prefixes. |
| Params.ClassifyExact | cvxpy/reductions/solvers/conic_solvers/mosek_conif.py:545-550 | A name goes to the double, integer or string setter exactly when it starts with `MSK_DPAR_`, `MSK_IPAR_` or `MSK_SPAR_` respectively. |
| Params.ClassifyRejects | cvxpy/reductions/solvers/conic_solvers/mosek_conif.py:551-552 | A name is rejected exactly when it has none of the three prefixes. |
| Params.StripShape | cvxpy/reductions/solvers/conic_solvers/mosek_conif.py:566 | The stripped key is a contiguous part of the key, and neither of its ends is whitespace. |
| Params.StripCutsSpace | cvxpy/reductions/solvers/conic_solvers/mosek_conif.py:566 | Every character removed by stripping is whitespace. |
| Params.StripIdempotent | cvxpy/reductions/solvers/conic_solvers/mosek_conif.py:566 | Stripping twice is stripping once. |
| Params.ParamsOutcomeSuccess | cvxpy/reductions/solvers/conic_solvers/mosek_conif.py:564-566 | The dictionary is accepted exactly when every entry is. It then yields one setter call per entry, in order. |
| Params.ParamsOutcomeFailure | cvxpy/reductions/solvers/conic_solvers/mosek_conif.py:552-566 | A rejection names the stripped key of the first rejected entry, and every earlier entry was accepted. |
| Params.SettingsWellNamed | cvxpy/reductions/solvers/conic_solvers/mosek_conif.py:544-566 | Every setter call uses a name with its setter's prefix and no surrounding whitespace, and passes the entry's value. |
| Params.HandleMosekParams | cvxpy/reductions/solvers/conic_solvers/mosek_conif.py:538-568 | Without a dictionary nothing is set. Otherwise the loop's result is `ParamsOutcome` of the entries: stop at the first rejected name. |
| Params.LexLessTransitive | cvxpy/reductions/solvers/conic_solvers/mosek_conif.py:253 | Python's string order is transitive. |
| Params.LexLessTotal | cvxpy/reductions/solvers/conic_solvers/mosek_conif.py:253 | Of two distinct strings, exactly one is smaller. |
| Params.Smallest | cvxpy/reductions/solvers/conic_solvers/mosek_conif.py:253-258 | The chosen keyword is in the set and is smaller than every other. |
| Params.LexMinUnique | cvxpy/reductions/solvers/conic_solvers/mosek_conif.py:253-258 | The first keyword in sorted order is unique. |
| Params.HandleSolverOpts | cvxpy/reductions/solvers/conic_solvers/mosek_conif.py:253-258 | `mosek_params` is handled first, and its rejection is reported. Otherwise the check succeeds exactly when no other keyword is given, and then returns the dictionary's setter calls. A leftover keyword is reported as the first in sorted order. |
| Bridge.SolveViaData | cvxpy/reductions/solvers/conic_solvers/mosek_conif.py:249-403 | Fails exactly when the options check fails, with its error. With zero variables the result is `OPTIMAL` with the objective offset and no task. Otherwise the result is the task `TaskOf(d, settings)`. |
| Bridge.ZeroVarAnswerRaises | cvxpy/reductions/solvers/conic_solvers/mosek_conif.py:275-277 | As written, the zero-variable answer looks up `OFFSET` in a dictionary where `apply` wrote only `OBJ_OFFSET`, and it raises a key error for every problem. |
| Bridge.ZeroVarAnswerReadsOffset | cvxpy/reductions/solvers/conic_solvers/mosek_conif.py:275-277 | Read under the key `apply` writes, the zero-variable answer is OPTIMAL with the recorded offset, as `SolveViaData` returns. |
| Bridge.BuildTask | cvxpy/reductions/solvers/conic_solvers/mosek_conif.py:297-398 | The declarations made in order build exactly `TaskOf(d, settings)`. |
| Bridge.PutVariables | cvxpy/reductions/solvers/conic_solvers/mosek_conif.py:301-342 | n = n0 + ΣSOC + ΣExpCone. The matrix variables are declared only when Σdim² > 0. The cones are `SlackCones(n0, soc, ΣExp / 3)`, and bounds and types follow the integrality lists. |
| Bridge.DeclareVars | cvxpy/reductions/solvers/conic_solvers/mosek_conif.py:321-342 | All n variables start free. Boolean variables end integer and ranged [0, 1], integer ones integer and free, and the rest continuous and free. |
| Bridge.SetAt | cvxpy/reductions/solvers/conic_solvers/mosek_conif.py:337-342 | A list update sets the listed positions and leaves every other position unchanged. |
| Bridge.AppendSlackCones | cvxpy/reductions/solvers/conic_solvers/mosek_conif.py:326-336 | The cone loops declare `SlackCones`: one quadratic cone per SOC size, then one exponential cone per triple, on consecutive variables from n0. |
| Bridge.SlackConeSpan | cvxpy/reductions/solvers/conic_solvers/mosek_conif.py:326-336 | Cone q covers the consecutive variables that start at n0 plus the sizes of the earlier cones. |
| Bridge.SlackConeMember | cvxpy/reductions/solvers/conic_solvers/mosek_conif.py:326-336 | A variable is in cone q exactly when it lies in that cone's range. |
| Bridge.SlackConeMembersInRange | cvxpy/reductions/solvers/conic_solvers/mosek_conif.py:301-336 | Every cone member is a slack variable: n0 <= v < n. |
| Bridge.SlackConesDisjoint | cvxpy/reductions/solvers/conic_solvers/mosek_conif.py:326-336 | No variable is in two cones. |
| Bridge.SlackConesCover | cvxpy/reductions/solvers/conic_solvers/mosek_conif.py:301-336 | Every slack variable is in some cone. |
| Bridge.SlackConeSizesSum | cvxpy/reductions/solvers/conic_solvers/mosek_conif.py:301-336 | The cones together have ΣSOC + 3 * (number of triples) members. |
| Bridge.PutConstraints | cvxpy/reductions/solvers/conic_solvers/mosek_conif.py:366-392 | Declares the linear coefficients, the PSD basis coefficients and the bound of every row. |
| Bridge.PutLinear | cvxpy/reductions/solvers/conic_solvers/mosek_conif.py:366-375 | The linear coefficients are G's nonzeros followed by the slack identity block. |
| Bridge.NonzerosMember | cvxpy/reductions/solvers/conic_solvers/mosek_conif.py:367-368 | A triple is entered exactly when it names a nonzero entry of G, with that entry's value. |
| Bridge.PutSlackIdentity | cvxpy/reductions/solvers/conic_solvers/mosek_conif.py:369-375 | Slack t gets coefficient 1 on row dims.leq + dims.eq + t, in column n0 + t. |
| Bridge.AppendPsdBasis | cvxpy/reductions/solvers/conic_solvers/mosek_conif.py:377-387 | The triple loop gives consecutive rows from its first row, one per basis term of the blocks in order. The row counter ends at the first row + Σdim². |
| Bridge.AppendBlockBasis | cvxpy/reductions/solvers/conic_solvers/mosek_conif.py:379-387 | One block's loop appends its dim * dim terms on consecutive rows. |
| Bridge.AppendRowBasis | cvxpy/reductions/solvers/conic_solvers/mosek_conif.py:380-387 | One row_idx iteration appends its dim terms on consecutive rows. |
| Bridge.BasisBlockAt | cvxpy/reductions/solvers/conic_solvers/mosek_conif.py:379-385 | Term r * dim + c of block j stores (max(r, c), min(r, c)) with weight 1 on the diagonal and 1/2 off it. |
| Bridge.BasisBlockTransposed | cvxpy/reductions/solvers/conic_solvers/mosek_conif.py:379-385 | Terms r * dim + c and c * dim + r of block j are the same basis matrix, so the block reads a symmetric matrix variable the same way whatever the order of the flattened offset. |
| Bridge.BasisLength | cvxpy/reductions/solvers/conic_solvers/mosek_conif.py:377-387 | The PSD part has Σdim² terms, one per stacked PSD row. |
| Bridge.BasisReadsEntry | cvxpy/reductions/solvers/conic_solvers/mosek_conif.py:381-385 | For a symmetric matrix variable, the basis matrix of entry (r, c) reads exactly X[r][c]: the weights 1 and 1/2 make the mirrored pair count once. |
| Bridge.PutConBounds | cvxpy/reductions/solvers/conic_solvers/mosek_conif.py:389-392 | Row i is bounded above by h[i] when i < dims.leq and fixed to h[i] otherwise. |
| Bridge.TaskLayout | cvxpy/reductions/solvers/conic_solvers/mosek_conif.py:297-398 | Every linear coefficient lies within the m rows and n variables. The PSD row counter ends exactly at m, and PSD term p sits on row leq + eq + slacks + p. Only the first dims.leq rows are inequalities. |
| Decoder.StatusOf | cvxpy/reductions/solvers/conic_solvers/mosek_conif.py:433-446 | The table maps the nine listed MOSEK statuses, and a status is unmapped exactly when it is not listed. |
| Decoder.NearIsInaccurate | cvxpy/reductions/solvers/conic_solvers/mosek_conif.py:433-441 | Each near status maps to the inaccurate form of what its exact certificate maps to. |
| Decoder.StatusMapOnto | cvxpy/reductions/solvers/conic_solvers/mosek_conif.py:433-441 | Every canonical status is reached. |
| Decoder.AbsentObjective | cvxpy/reductions/solvers/conic_solvers/mosek_conif.py:502-508 | Without a solution the objective is +inf exactly for INFEASIBLE and -inf exactly for UNBOUNDED. It is never finite. |
| Decoder.Invert | cvxpy/reductions/solvers/conic_solvers/mosek_conif.py:405-512 | Reading the chosen pool gives `InvertOf(res, inv)`. |
| Decoder.ReadSlackDuals | cvxpy/reductions/solvers/conic_solvers/mosek_conif.py:476-494 | The three dictionary updates give the suc, y and snx tables' duals, in that order. |
| Decoder.ReadTable | cvxpy/reductions/solvers/conic_solvers/mosek_conif.py:478-494 | One table's update is `parse_dual_vars` on the window it reads. |
| Decoder.ReadPsdDuals | cvxpy/reductions/solvers/conic_solvers/mosek_conif.py:496-500 | Each PSD constraint's entry is set to the decoded matrix of its half vector. |
| Decoder.InvertStatus | cvxpy/reductions/solvers/conic_solvers/mosek_conif.py:427-446 | The integer pool is used when there are integer variables. invert fails exactly on an unmapped status and otherwise reports the mapped status. |
| Decoder.InvertAbsent | cvxpy/reductions/solvers/conic_solvers/mosek_conif.py:502-510 | Without a solution there are no primal or dual values, and the objective follows `AbsentObjective`. |
| Decoder.InvertPresent | cvxpy/reductions/solvers/conic_solvers/mosek_conif.py:447-500 | The objective is the primal objective plus the offset. The primal dictionary holds x[0:n0] under the variable's id. The dual keys are exactly the ids of the four tables. |
| Decoder.InvertSucDual | cvxpy/reductions/solvers/conic_solvers/mosek_conif.py:478-482 | Inequality k receives the row duals starting at the sum of the earlier inequality lengths. |
| Decoder.InvertEqDual | cvxpy/reductions/solvers/conic_solvers/mosek_conif.py:484-488 | Equality k receives the row duals starting at suc_len plus the earlier equality lengths. |
| Decoder.InvertConeDual | cvxpy/reductions/solvers/conic_solvers/mosek_conif.py:490-494 | SOC or ExpCone constraint k receives the slack duals starting at variable n0 plus the earlier cone lengths. |
| Decoder.InvertPsdDual | cvxpy/reductions/solvers/conic_solvers/mosek_conif.py:496-500 | PSD constraint j receives the square, symmetric matrix decoded from matrix variable j. |
| Decoder.PsdDualsAt | cvxpy/reductions/solvers/conic_solvers/mosek_conif.py:496-500 | With distinct ids, the entry of PSD constraint j is the decoded matrix of half vector j. |
| Decoder.WindowsWithinTask | cvxpy/reductions/solvers/conic_solvers/mosek_conif.py:300-303 | For a well-formed problem, the inequality window is the first dims.leq rows. The equality window ends within the task's m rows. The slack window and the slack cones end exactly at the task's n variables. |
| Decoder.TaskBuffersReadable | cvxpy/reductions/solvers/conic_solvers/mosek_conif.py:300-325 | Buffers sized by the task built from the same problem satisfy `Readable` exactly when there is no PSD constraint or some PSD block is non-empty. |

## Left out

- The MOSEK API itself is not modelled: environment and task creation, `optimize`,
  `putobjsense` and `solutionsummary`. The task is a record of what is declared. The
  result buffers are parameters of `invert`. Their lengths are stated as the
  precondition `Readable`. `Decoder.TaskBuffersReadable` derives `Readable` from buffers
  sized by the task `TaskOf` builds from the same problem (n variables, m = len(h)
  rows, one half vector per matrix variable). `Decoder.WindowsWithinTask` places the
  windows `invert` reads inside that task.
- `task.getprosta(sol)`: its result is unused.
- Verbose printing and stream setup are left out (I/O).
- `import_solver`, `accepts`, `psd_coeff_offset` and `CoeffExtractor` are not part of
  this model. The coefficient rows and offsets of each constraint are inputs.
  `WellFormedProblem` states what the flattening guarantees: matching row counts,
  row width n0, SOC offsets as long as the cone sizes sum, ExpCone offsets in
  triples, and dim² rows per PSD constraint.
- `EXP_CONE_ORDER` is not modelled: it is passed to the flattening, which is outside
  this model.
- Enum-typed MOSEK parameters (`_handle_enum_param`) are not modelled, because they
  depend on MOSEK's own types. Every key is a string.
- Sparse storage is not modelled: matrices are dense row lists. `sp.sparse.find`
  becomes the row-major list of nonzero triples, and scipy's own order of those
  triples is not modelled.
- Floating point is not modelled: values are `real`, and infinities and `None` are
  `Objective` values.
- The `Solution` object's `attr` is not modelled.
- Bridge.SolveViaData: for zero variables it returns OPTIMAL with the offset `apply`
  recorded. As written, the source reads `data[s.OFFSET]` while `apply` writes only
  `s.OBJ_OFFSET`. These are different keys, so the source raises `KeyError` on this
  path instead (see "## Findings").
- A problem whose PSD constraints are all 0 x 0 gets no matrix variable
  (`psd_total_dims` is 0), so the `getbarsj` calls of `invert` have nothing to read.
  `Decoder.TaskBuffersReadable` states that `Readable` fails exactly in this case. The
  model does not say what MOSEK does then.
- `SOLUTION_PRESENT` comes from a settings module that is not part of this model. It
  is taken as {OPTIMAL, OPTIMAL_INACCURATE}.
- A MOSEK status outside the nine listed makes the dictionary lookup raise. The model
  returns that status as a `Failure`. It does not map it to SOLVER_ERROR.
- `apply` on a problem without constraints stacks an empty tuple, which raises. The
  model returns `Failure(NothingToStack)`.
- Solver options other than `mosek_params` have opaque values. The value of
  `mosek_params` is required to be a dictionary or `None`, as `_handle_mosek_params`
  expects.

## Findings

| source | as written | input that shows it | evidently intended | confidence | as-written member | corrected member |
|---|---|---|---|---|---|---|
| cvxpy/reductions/solvers/conic_solvers/mosek_conif.py:275-277 | The zero-variable answer reads `data[s.OFFSET]`, but `apply` (line 189) stores the offset only under `s.OBJ_OFFSET`. | Any problem whose standard form has no variables, so `len(data[s.C]) == 0`. | Return OPTIMAL with the offset `apply` recorded. | medium; not executed; the two key names come from cvxpy's settings module, which is not part of this model | Bridge.ZeroVarAnswerRaises | Bridge.ZeroVarAnswerReadsOffset |
