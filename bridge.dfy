/** The solver bridge (`MOSEK.solve_via_data`): the stacked system `G z <=_K h` becomes a
    MOSEK task. The variable vector x of the task is z followed by one slack variable
    per SOC row and per ExpCone row; the slacks are grouped into quadratic and
    exponential cones, every row of G becomes a linear constraint, each slack enters its
    own row with coefficient 1, and every PSD block becomes a matrix variable whose
    entries are read off by one basis matrix per row. The task is modelled as the
    record of everything handed to it; solving it is not part of this model. */
module Bridge {

  import opened Common
  import opened Encoder
  import opened Params
  import SymMatrix

  /** MOSEK's bound keys: free, ranged, upper-bounded and fixed. */
  datatype BoundKey = Free | Ranged | Upper | Fixed

  datatype Bound = Bound(key: BoundKey, lo: real, hi: real)

  datatype VarType = Continuous | Integer

  datatype ConeType = Quad | PExp

  /** A cone over the listed members of x. */
  datatype Cone = Cone(kind: ConeType, members: seq<nat>)

  /** One coefficient of the linear part: row `row` of the constraints, variable `col`. */
  datatype Coef = Coef(row: nat, col: nat, val: real)

  /** A symmetric basis matrix of size dim for matrix variable barVar, given by its one
      lower-triangle entry (row >= col) holding weight. */
  datatype BasisTerm = BasisTerm(barVar: nat, dim: nat, row: nat, col: nat, weight: real)

  /** A basis matrix attached (with factor 1) to constraint row con. */
  datatype BarCoef = BarCoef(con: nat, term: BasisTerm)

  /** Everything solve_via_data hands to the task: the parameter settings, the variables
      with their bounds and types, the matrix variables' sizes, the cones, the number of
      constraints, the linear coefficients, the matrix-variable coefficients, the
      constraint bounds and the objective coefficients of the first |c| variables (the
      sense is always minimise). */
  datatype Task = Task(settings: seq<Setting>, numVars: nat, varBounds: seq<Bound>, varTypes: seq<VarType>,
                       barVars: seq<nat>, cones: seq<Cone>, numCons: nat, aij: seq<Coef>,
                       barCoefs: seq<BarCoef>, conBounds: seq<Bound>, objective: seq<real>)

  /** Either the synthetic answer for a problem without variables (empty primal and duals,
      so only the status and the value are recorded) or the task to be optimised. */
  datatype SolveOutcome = Trivial(status: Status, value: real) | Built(task: Task)

  /** Number of SOC and ExpCone slack variables. */
  function NumSlacks(d: Data): nat
  {
    Sum(d.dims.soc) + Sum(d.dims.exp)
  }

  /** n: the original variables followed by the slacks. */
  function NumVars(d: Data): nat
  {
    |d.c| + NumSlacks(d)
  }

  // ---------------------------------------------------------------- slack cones

  /** The cone sizes in the order the cones are appended: the SOC sizes, then one triple
      per exponential cone. */
  function SlackConeSizes(soc: seq<nat>, numExp: nat): seq<nat>
  {
    soc + Repeat<nat>(3, numExp)
  }

  /** Cone q: a quadratic cone over the next soc[q] variables after z and the SOC cones
      before it, or an exponential cone over the next triple after all SOC slacks and the
      triples before it. */
  function SlackCone(n0: nat, soc: seq<nat>, numExp: nat, q: nat): Cone
    requires q < |soc| + numExp
  {
    if q < |soc| then Cone(Quad, Range(n0 + Sum(soc[..q]), soc[q]))
    else Cone(PExp, Range(n0 + Sum(soc) + 3 * (q - |soc|), 3))
  }

  function SlackCones(n0: nat, soc: seq<nat>, numExp: nat): (r: seq<Cone>)
    ensures |r| == |soc| + numExp
  {
    seq(|soc| + numExp, q requires 0 <= q < |soc| + numExp => SlackCone(n0, soc, numExp, q))
  }

  /** The cone loops of solve_via_data: one quadratic cone per SOC size over the next
      variables after z, then one exponential cone per triple of ExpCone rows. */
  method AppendSlackCones(n0: nat, soc: seq<nat>, expTotal: nat) returns (cones: seq<Cone>)
    ensures cones == SlackCones(n0, soc, expTotal / 3)
  {
    var numExp := expTotal / 3;
    cones := [];
    var runningIdx := n0;
    for k := 0 to |soc|
      invariant runningIdx == n0 + Sum(soc[..k])
      invariant cones == SlackCones(n0, soc, numExp)[..k]
    {
      SumPrefixStep(soc, k);
      cones := cones + [Cone(Quad, Range(runningIdx, soc[k]))];
      runningIdx := runningIdx + soc[k];
    }
    SumWhole(soc);
    for t := 0 to numExp
      invariant runningIdx == n0 + Sum(soc) + 3 * t
      invariant cones == SlackCones(n0, soc, numExp)[..|soc| + t]
    {
      cones := cones + [Cone(PExp, Range(runningIdx, 3))];
      runningIdx := runningIdx + 3;
    }
  }

  lemma {:induction false} SumRepeat(x: nat, k: nat)
    ensures Sum(Repeat<nat>(x, k)) == x * k
    decreases k
  {
    if k > 0 {
      assert Repeat<nat>(x, k)[..k - 1] == Repeat<nat>(x, k - 1);
      SumRepeat(x, k - 1);
    }
  }

  /** Cone q covers the variables n0 + Sum(sizes[..q]) onwards, sizes[q] of them. */
  lemma SlackConeSpan(n0: nat, soc: seq<nat>, numExp: nat, q: nat)
    requires q < |soc| + numExp
    ensures SlackCone(n0, soc, numExp, q).members == Range(n0 + Sum(SlackConeSizes(soc, numExp)[..q]), SlackConeSizes(soc, numExp)[q])
  {
    var sizes := SlackConeSizes(soc, numExp);
    if q < |soc| {
      assert sizes[..q] == soc[..q];
    } else {
      assert sizes[..q] == soc + Repeat<nat>(3, q - |soc|);
      SumAppend(soc, Repeat<nat>(3, q - |soc|));
      SumRepeat(3, q - |soc|);
    }
  }

  /** Some piece of a partition into consecutive intervals holds x. */
  lemma {:induction false} CoveringPiece(sizes: seq<nat>, x: nat)
    requires x < Sum(sizes)
    ensures exists q :: 0 <= q < |sizes| && Sum(sizes[..q]) <= x < Sum(sizes[..q]) + sizes[q]
    decreases |sizes|
  {
    var n := |sizes| - 1;
    assert sizes[..n] == sizes[..|sizes|][..n];
    SumWhole(sizes);
    SumPrefixStep(sizes, n);
    if x < Sum(sizes[..n]) {
      CoveringPiece(sizes[..n], x);
      var q :| 0 <= q < n && Sum(sizes[..n][..q]) <= x < Sum(sizes[..n][..q]) + sizes[..n][q];
      assert sizes[..n][..q] == sizes[..q];
    }
  }

  lemma RangeMember(start: nat, len: nat, v: nat)
    ensures v in Range(start, len) <==> start <= v < start + len
  {
    if start <= v < start + len {
      assert Range(start, len)[v - start] == v;
    }
  }

  lemma SlackConeSizesSum(soc: seq<nat>, numExp: nat)
    ensures Sum(SlackConeSizes(soc, numExp)) == Sum(soc) + 3 * numExp
  {
    SumAppend(soc, Repeat<nat>(3, numExp));
    SumRepeat(3, numExp);
  }

  /** Slack cone q holds exactly the variables of its stretch. */
  lemma SlackConeMember(n0: nat, soc: seq<nat>, numExp: nat, q: nat, v: nat)
    requires q < |soc| + numExp
    ensures v in SlackCones(n0, soc, numExp)[q].members <==>
      n0 + Sum(SlackConeSizes(soc, numExp)[..q]) <= v < n0 + Sum(SlackConeSizes(soc, numExp)[..q]) + SlackConeSizes(soc, numExp)[q]
  {
    SlackConeSpan(n0, soc, numExp, q);
    RangeMember(n0 + Sum(SlackConeSizes(soc, numExp)[..q]), SlackConeSizes(soc, numExp)[q], v);
  }

  /** A member of slack cone q is a slack variable: it lies in n0 .. n - 1. */
  lemma SlackConeMembersInRange(n0: nat, soc: seq<nat>, numExp: nat, q: nat, v: nat)
    requires q < |soc| + numExp && v in SlackCones(n0, soc, numExp)[q].members
    ensures n0 <= v < n0 + Sum(soc) + 3 * numExp
  {
    var sizes := SlackConeSizes(soc, numExp);
    SlackConeMember(n0, soc, numExp, q, v);
    SumPrefixStep(sizes, q);
    SumPrefixMono(sizes, q + 1, |sizes|);
    SumWhole(sizes);
    SlackConeSizesSum(soc, numExp);
  }

  /** Different slack cones share no variable. */
  lemma SlackConesDisjoint(n0: nat, soc: seq<nat>, numExp: nat, q: nat, l: nat, v: nat)
    requires q < l < |soc| + numExp && v in SlackCones(n0, soc, numExp)[q].members
    ensures v !in SlackCones(n0, soc, numExp)[l].members
  {
    var sizes := SlackConeSizes(soc, numExp);
    SlackConeMember(n0, soc, numExp, q, v);
    SlackConeMember(n0, soc, numExp, l, v);
    SumPrefixStep(sizes, q);
    SumPrefixMono(sizes, q + 1, l);
  }

  /** Every slack variable belongs to some slack cone. */
  lemma SlackConesCover(n0: nat, soc: seq<nat>, numExp: nat, v: nat)
    requires n0 <= v < n0 + Sum(soc) + 3 * numExp
    ensures exists q :: 0 <= q < |soc| + numExp && v in SlackCones(n0, soc, numExp)[q].members
  {
    var sizes := SlackConeSizes(soc, numExp);
    SlackConeSizesSum(soc, numExp);
    CoveringPiece(sizes, v - n0);
    var q :| 0 <= q < |sizes| && Sum(sizes[..q]) <= v - n0 < Sum(sizes[..q]) + sizes[q];
    SlackConeMember(n0, soc, numExp, q, v);
  }

  // ---------------------------------------------------------------- integrality

  /** A list setter (putvartypelist, putvarboundlist) with one value for all listed
      positions. */
  method SetAt<T>(s: seq<T>, idx: seq<nat>, x: T) returns (r: seq<T>)
    requires forall v :: v in idx ==> v < |s|
    ensures |r| == |s|
    ensures forall v :: 0 <= v < |s| ==> r[v] == if v in idx then x else s[v]
  {
    r := s;
    for k := 0 to |idx|
      invariant |r| == |s|
      invariant forall v :: 0 <= v < |s| ==> r[v] == if v in idx[..k] then x else s[v]
    {
      assert idx[k] in idx;
      r := r[idx[k] := x];
      assert forall v :: v in idx[..k + 1] <==> v in idx[..k] || v == idx[k];
    }
    assert idx[..|idx|] == idx;
  }

  /** Variable bounds once integrality is declared: boolean variables lie in [0, 1],
      every other variable is free. */
  function VarBounds(n: nat, boolIdx: seq<nat>): (r: seq<Bound>)
    ensures |r| == n
  {
    seq(n, v requires 0 <= v < n => if v in boolIdx then Bound(Ranged, 0.0, 1.0) else Bound(Free, 0.0, 0.0))
  }

  /** Variable types: boolean and integer variables are integer, the rest continuous. */
  function VarTypes(n: nat, boolIdx: seq<nat>, intIdx: seq<nat>): (r: seq<VarType>)
    ensures |r| == n
  {
    seq(n, v requires 0 <= v < n => if v in boolIdx || v in intIdx then Integer else Continuous)
  }

  // ---------------------------------------------------------------- linear part

  /** The nonzero entries of one row of G, by column. */
  function RowNonzeros(i: nat, row: seq<real>): seq<Coef>
  {
    if |row| == 0 then []
    else
      var n := |row| - 1;
      RowNonzeros(i, row[..n]) + (if row[n] != 0.0 then [Coef(i, n, row[n])] else [])
  }

  /** scipy's find on G: its nonzero entries as (row, column, value) triples. */
  function Nonzeros(g: Matrix): seq<Coef>
  {
    if |g| == 0 then []
    else
      var n := |g| - 1;
      Nonzeros(g[..n]) + RowNonzeros(n, g[n])
  }

  lemma {:induction false} RowNonzerosMember(i: nat, row: seq<real>, e: Coef)
    ensures e in RowNonzeros(i, row) <==> e.row == i && e.col < |row| && row[e.col] != 0.0 && e.val == row[e.col]
    decreases |row|
  {
    if |row| > 0 {
      var n := |row| - 1;
      RowNonzerosMember(i, row[..n], e);
      if e.col < n {
        assert row[..n][e.col] == row[e.col];
      }
    }
  }

  /** A triple is listed exactly when it names a nonzero entry of G with its value. */
  lemma {:induction false} NonzerosMember(g: Matrix, e: Coef)
    ensures e in Nonzeros(g) <==>
      e.row < |g| && e.col < |g[e.row]| && g[e.row][e.col] != 0.0 && e.val == g[e.row][e.col]
    decreases |g|
  {
    if |g| > 0 {
      var n := |g| - 1;
      NonzerosMember(g[..n], e);
      RowNonzerosMember(n, g[n], e);
      if e.row < n {
        assert g[..n][e.row] == g[e.row];
      }
    }
  }

  /** The identity block: slack t enters row firstRow + t with coefficient 1. */
  function SlackIdentity(firstRow: nat, n0: nat, total: nat): (r: seq<Coef>)
    ensures |r| == total && forall t :: 0 <= t < total ==> r[t] == Coef(firstRow + t, n0 + t, 1.0)
  {
    seq(total, t requires 0 <= t < total => Coef(firstRow + t, n0 + t, 1.0))
  }

  // ---------------------------------------------------------------- PSD basis

  /** The basis matrix for entry (r, c) of a dim x dim block: its lower-triangle position
      (max, min) holds 1 on the diagonal and 1/2 off it. */
  function BasisEntry(j: nat, dim: nat, r: nat, c: nat): BasisTerm
  {
    BasisTerm(j, dim, SymMatrix.Max(r, c), SymMatrix.Min(r, c), if r == c then 1.0 else 0.5)
  }

  /** The terms for row r of block j, one per column. */
  function BasisRow(j: nat, dim: nat, r: nat): (t: seq<BasisTerm>)
    ensures |t| == dim && forall c :: 0 <= c < dim ==> t[c] == BasisEntry(j, dim, r, c)
  {
    seq(dim, c requires 0 <= c < dim => BasisEntry(j, dim, r, c))
  }

  function BasisRows(j: nat, dim: nat): (t: seq<seq<BasisTerm>>)
    ensures |t| == dim && forall r :: 0 <= r < dim ==> t[r] == BasisRow(j, dim, r)
  {
    seq(dim, r requires 0 <= r < dim => BasisRow(j, dim, r))
  }

  /** One constraint row per entry of block j, in row-major order. */
  function BasisBlock(j: nat, dim: nat): seq<BasisTerm>
  {
    Concat(BasisRows(j, dim))
  }

  function BasisBlocks(psd: seq<nat>): (r: seq<seq<BasisTerm>>)
    ensures |r| == |psd| && forall j :: 0 <= j < |psd| ==> r[j] == BasisBlock(j, psd[j])
  {
    seq(|psd|, j requires 0 <= j < |psd| => BasisBlock(j, psd[j]))
  }

  /** Row-major positions of a dim x dim block stay below dim * dim. */
  lemma RowMajorBound(dim: nat, r: nat, c: nat)
    requires r < dim && c < dim
    ensures r * dim + c < dim * dim
  {
    assert r * dim + c < r * dim + dim;
    assert r * dim + dim == (r + 1) * dim;
    assert (r + 1) * dim <= dim * dim by {
      var k := dim - (r + 1);
      assert dim * dim == (r + 1) * dim + k * dim;
    }
  }

  /** Block j has dim * dim rows. */
  lemma BasisBlockLength(j: nat, dim: nat)
    ensures |BasisBlock(j, dim)| == dim * dim
  {
    var rows := BasisRows(j, dim);
    assert Lens(rows) == Repeat<nat>(dim, dim);
    ConcatLength(rows);
    SumRepeat(dim, dim);
  }

  /** Row r * dim + c of block j is the basis matrix of entry (r, c), read row-major.
      The basis of (r, c) equals that of (c, r) (see BasisBlockTransposed), so rows
      r * dim + c and c * dim + r carry the same matrix and the block reads a symmetric
      matrix variable the same way whether the PSD offset was flattened row-major or
      column-major. */
  lemma BasisBlockAt(j: nat, dim: nat, r: nat, c: nat)
    requires r < dim && c < dim
    ensures r * dim + c < |BasisBlock(j, dim)|
    ensures BasisBlock(j, dim)[r * dim + c] == BasisEntry(j, dim, r, c)
  {
    var rows := BasisRows(j, dim);
    BasisBlockLength(j, dim);
    RowMajorBound(dim, r, c);
    ConcatSlice(rows, r);
    assert Lens(rows)[..r] == Repeat<nat>(dim, r);
    SumRepeat(dim, r);
    assert Sum(Lens(rows)[..r]) == r * dim;
  }
  /** Entries (r, c) and (c, r) of block j have the same basis matrix. */
  lemma BasisBlockTransposed(j: nat, dim: nat, r: nat, c: nat)
    requires r < dim && c < dim
    ensures r * dim + c < |BasisBlock(j, dim)| && c * dim + r < |BasisBlock(j, dim)|
    ensures BasisBlock(j, dim)[r * dim + c] == BasisBlock(j, dim)[c * dim + r]
  {
    BasisBlockAt(j, dim, r, c);
    BasisBlockAt(j, dim, c, r);
  }


  /** The basis terms attached to consecutive rows from firstRow on. */
  function Stamp(firstRow: nat, terms: seq<BasisTerm>): (r: seq<BarCoef>)
    ensures |r| == |terms| && forall p :: 0 <= p < |terms| ==> r[p] == BarCoef(firstRow + p, terms[p])
  {
    seq(|terms|, p requires 0 <= p < |terms| => BarCoef(firstRow + p, terms[p]))
  }

  lemma StampSnoc(firstRow: nat, terms: seq<BasisTerm>, x: BasisTerm)
    ensures Stamp(firstRow, terms + [x]) == Stamp(firstRow, terms) + [BarCoef(firstRow + |terms|, x)]
  {
  }

  /** The innermost loop of solve_via_data's PSD loop, for row rowIdx of block j: for
      each column, the basis matrix of entry (rowIdx, colIdx) attached to the next
      constraint row. */
  method AppendRowBasis(firstRow: nat, j: nat, dim: nat, rowIdx: nat, bar0: seq<BarCoef>, ghost terms0: seq<BasisTerm>)
    returns (bar: seq<BarCoef>, ghost terms: seq<BasisTerm>)
    requires bar0 == Stamp(firstRow, terms0)
    ensures terms == terms0 + BasisRow(j, dim, rowIdx) && bar == Stamp(firstRow, terms)
  {
    bar, terms := bar0, terms0;
    var i := firstRow + |bar0|;
    ghost var row := BasisRow(j, dim, rowIdx);
    for colIdx := 0 to dim
      invariant terms == terms0 + row[..colIdx]
      invariant bar == Stamp(firstRow, terms) && i == firstRow + |terms|
    {
      var val := if rowIdx == colIdx then 1.0 else 0.5;
      var r := SymMatrix.Max(rowIdx, colIdx);
      var c := SymMatrix.Min(rowIdx, colIdx);
      var mat := BasisTerm(j, dim, r, c, val);
      assert row[..colIdx + 1] == row[..colIdx] + [mat];
      StampSnoc(firstRow, terms, mat);
      terms := terms + [mat];
      bar := bar + [BarCoef(i, mat)];
      i := i + 1;
    }
    assert row[..dim] == row;
  }

  /** The two inner loops of solve_via_data's PSD loop, for block j: row after row of
      the block, in row-major order. */
  method AppendBlockBasis(firstRow: nat, j: nat, dim: nat, bar0: seq<BarCoef>, ghost terms0: seq<BasisTerm>)
    returns (bar: seq<BarCoef>, ghost terms: seq<BasisTerm>)
    requires bar0 == Stamp(firstRow, terms0)
    ensures terms == terms0 + BasisBlock(j, dim) && bar == Stamp(firstRow, terms)
  {
    bar, terms := bar0, terms0;
    ghost var rows := BasisRows(j, dim);
    for rowIdx := 0 to dim
      invariant terms == terms0 + Concat(rows[..rowIdx])
      invariant bar == Stamp(firstRow, terms)
    {
      bar, terms := AppendRowBasis(firstRow, j, dim, rowIdx, bar, terms);
      assert rows[..rowIdx + 1] == rows[..rowIdx] + [rows[rowIdx]];
      ConcatSnoc(rows[..rowIdx], rows[rowIdx]);
    }
    assert rows[..dim] == rows;
  }

  /** The PSD loop of solve_via_data: block after block, one basis matrix per entry,
      attached to consecutive constraint rows from firstRow on. Returns the terms and the
      row counter after the last block. */
  method AppendPsdBasis(firstRow: nat, psd: seq<nat>) returns (bar: seq<BarCoef>, i: nat)
    ensures bar == Stamp(firstRow, Concat(BasisBlocks(psd)))
    ensures i == firstRow + Sum(Squares(psd))
  {
    bar := [];
    ghost var terms: seq<BasisTerm> := [];
    for j := 0 to |psd|
      invariant terms == Concat(BasisBlocks(psd)[..j])
      invariant bar == Stamp(firstRow, terms)
    {
      bar, terms := AppendBlockBasis(firstRow, j, psd[j], bar, terms);
      assert BasisBlocks(psd)[..j + 1] == BasisBlocks(psd)[..j] + [BasisBlocks(psd)[j]];
      ConcatSnoc(BasisBlocks(psd)[..j], BasisBlocks(psd)[j]);
    }
    assert BasisBlocks(psd)[..|psd|] == BasisBlocks(psd);
    BasisLength(psd);
    i := firstRow + |bar|;
  }

  lemma BasisLength(psd: seq<nat>)
    ensures |Concat(BasisBlocks(psd))| == Sum(Squares(psd))
  {
    ConcatLength(BasisBlocks(psd));
    forall j | 0 <= j < |psd|
      ensures |BasisBlocks(psd)[j]| == Squares(psd)[j]
    {
      BasisBlockLength(j, psd[j]);
    }
    assert Lens(BasisBlocks(psd)) == Squares(psd);
  }

  /** The inner product of a term's symmetric basis matrix with a matrix x: the weight
      at (row, col) and, off the diagonal, again at (col, row). */
  function BasisRead(t: BasisTerm, x: Matrix): real
    requires t.row < |x| && t.col < |x| && t.row < |x[t.col]| && t.col < |x[t.row]|
  {
    if t.row == t.col then t.weight * x[t.row][t.col]
    else t.weight * x[t.row][t.col] + t.weight * x[t.col][t.row]
  }

  /** The row of entry (r, c) reads exactly that entry of a symmetric matrix variable:
      the weights 1 and 1/2 make the mirrored off-diagonal pair count once. */
  lemma BasisReadsEntry(j: nat, dim: nat, r: nat, c: nat, x: Matrix)
    requires r < dim && c < dim && SymMatrix.IsSquare(x, dim) && SymMatrix.IsSymmetric(x, dim)
    ensures BasisRead(BasisEntry(j, dim, r, c), x) == x[r][c]
  {
    var t := BasisEntry(j, dim, r, c);
    if r != c {
      assert x[t.row][t.col] == x[r][c] && x[t.col][t.row] == x[r][c];
    }
  }

  // ---------------------------------------------------------------- bounds

  /** Constraint bounds: the first dims.leq rows are bounded above by h, every other row is
      fixed to h. */
  function ConBounds(h: seq<real>, leq: nat): (r: seq<Bound>)
    ensures |r| == |h|
  {
    seq(|h|, i requires 0 <= i < |h| => Bound(if i < leq then Upper else Fixed, h[i], h[i]))
  }

  /** putconboundlist with one key per row and h as both bounds. */
  method PutConBounds(h: seq<real>, leq: nat) returns (bounds: seq<Bound>)
    requires leq <= |h|
    ensures bounds == ConBounds(h, leq)
  {
    var numEq := |h| - leq;
    var keys := Repeat(Upper, leq) + Repeat(Fixed, numEq);
    bounds := seq(|h|, i requires 0 <= i < |h| => Bound(keys[i], h[i], h[i]));
  }

  // ---------------------------------------------------------------- the task

  /** The task solve_via_data builds from well-formed data and the applied settings. */
  function TaskOf(d: Data, settings: seq<Setting>): Task
  {
    var n0 := |d.c|;
    var firstSlackRow := d.dims.leq + d.dims.eq;
    Task(settings, NumVars(d), VarBounds(NumVars(d), d.boolIdx), VarTypes(NumVars(d), d.boolIdx, d.intIdx),
         if Sum(Squares(d.dims.psd)) > 0 then d.dims.psd else [],
         SlackCones(n0, d.dims.soc, Sum(d.dims.exp) / 3),
         |d.h|,
         Nonzeros(d.g) + SlackIdentity(firstSlackRow, n0, NumSlacks(d)),
         Stamp(firstSlackRow + NumSlacks(d), Concat(BasisBlocks(d.dims.psd))),
         ConBounds(d.h, d.dims.leq),
         d.c)
  }

  /** solve_via_data up to the call of the optimiser: options first, then the
      zero-variable short-circuit, then the task. */
  method SolveViaData(d: Data, opts: map<string, OptValue>) returns (r: Result<SolveOutcome, OptsError>)
    requires WellFormedData(d)
    requires MosekParamsKey in opts ==> opts[MosekParamsKey].MosekParams?
    ensures r.Failure? <==> OptsOutcome(opts).Failure?
    ensures r.Failure? ==> r.error == OptsOutcome(opts).error
    ensures r.Success? && |d.c| == 0 ==> r.value == Trivial(Optimal, d.objOffset)
    ensures r.Success? && |d.c| > 0 ==> r.value == Built(TaskOf(d, OptsOutcome(opts).value))
  {
    var checked := HandleSolverOpts(opts);
    if checked.Failure? {
      return Failure(checked.error);
    }
    if |d.c| == 0 {
      return Success(Trivial(Optimal, d.objOffset));
    }
    var task := BuildTask(d, checked.value);
    r := Success(Built(task));
  }

  // ---------------------------------------------------------------- the data dictionary

  /** The keys of the data dictionary: the seven apply writes, and OFFSET, which the
      zero-variable answer reads. They are distinct names of cvxpy's settings module. */
  datatype DataKey = BoolIdxKey | IntIdxKey | CKey | ObjOffsetKey | DimsKey | GKey | HKey | OffsetKey

  /** An entry of the data dictionary: the objective offset is a scalar; the contents of
      the other entries are the fields of Data. */
  datatype Entry = Scalar(x: real) | Stored

  /** The dictionary apply returns for d. */
  function DataDict(d: Data): map<DataKey, Entry>
  {
    map[BoolIdxKey := Stored, IntIdxKey := Stored, CKey := Stored, ObjOffsetKey := Scalar(d.objOffset),
        DimsKey := Stored, GKey := Stored, HKey := Stored]
  }

  /** The zero-variable answer as written: the value is looked up under OFFSET, and a
      missing key raises (the failure names the key). */
  function ZeroVarAnswerAsWritten(data: map<DataKey, Entry>): Result<SolveOutcome, DataKey>
  {
    if OffsetKey in data && data[OffsetKey].Scalar? then Success(Trivial(Optimal, data[OffsetKey].x))
    else Failure(OffsetKey)
  }

  /** The zero-variable answer reading the key apply writes. */
  function ZeroVarAnswer(data: map<DataKey, Entry>): Result<SolveOutcome, DataKey>
  {
    if ObjOffsetKey in data && data[ObjOffsetKey].Scalar? then Success(Trivial(Optimal, data[ObjOffsetKey].x))
    else Failure(ObjOffsetKey)
  }

  /** As written, the zero-variable answer raises a key error on every dictionary apply
      produces, instead of reporting OPTIMAL. */
  lemma ZeroVarAnswerRaises(d: Data)
    ensures OffsetKey !in DataDict(d)
    ensures ZeroVarAnswerAsWritten(DataDict(d)) == Failure(OffsetKey)
  {
  }

  /** Read under the key apply writes, the answer is OPTIMAL with the recorded offset,
      which is what SolveViaData returns for a problem without variables. */
  lemma ZeroVarAnswerReadsOffset(d: Data)
    ensures ZeroVarAnswer(DataDict(d)) == Success(Trivial(Optimal, d.objOffset))
  {
  }

  /** The task-building part of solve_via_data, for a problem with variables: the
      variables and cones, then the constraints, with the objective on the first |c|
      variables. */
  method BuildTask(d: Data, settings: seq<Setting>) returns (t: Task)
    requires WellFormedData(d)
    ensures t == TaskOf(d, settings)
  {
    var n, varBounds, varTypes, barVars, cones := PutVariables(d);
    var aij, barCoefs, conBounds := PutConstraints(d);
    t := Task(settings, n, varBounds, varTypes, barVars, cones, |d.h|, aij, barCoefs, conBounds, d.c);
    TaskOfFields(d, settings, t);
  }

  /** n variables, free and continuous until the integrality step, the matrix variables
      (only when some PSD block is non-empty) and the slack cones. */
  method PutVariables(d: Data) returns (n: nat, varBounds: seq<Bound>, varTypes: seq<VarType>, barVars: seq<nat>, cones: seq<Cone>)
    requires forall v :: v in d.boolIdx ==> v < |d.c|
    requires forall v :: v in d.intIdx ==> v < |d.c|
    ensures n == NumVars(d)
    ensures varBounds == VarBounds(NumVars(d), d.boolIdx) && varTypes == VarTypes(NumVars(d), d.boolIdx, d.intIdx)
    ensures barVars == if Sum(Squares(d.dims.psd)) > 0 then d.dims.psd else []
    ensures cones == SlackCones(|d.c|, d.dims.soc, Sum(d.dims.exp) / 3)
  {
    n := NumVars(d);
    varBounds, varTypes := DeclareVars(n, d.boolIdx, d.intIdx);
    barVars := [];
    if Sum(Squares(d.dims.psd)) > 0 {
      barVars := d.dims.psd;
    }
    cones := AppendSlackCones(|d.c|, d.dims.soc, Sum(d.dims.exp));
  }

  /** The linear coefficients, the matrix-variable coefficients (from the first row after
      the slack rows) and the constraint bounds. */
  method PutConstraints(d: Data) returns (aij: seq<Coef>, barCoefs: seq<BarCoef>, conBounds: seq<Bound>)
    requires d.dims.leq <= |d.h|
    ensures aij == Nonzeros(d.g) + SlackIdentity(d.dims.leq + d.dims.eq, |d.c|, NumSlacks(d))
    ensures barCoefs == Stamp(d.dims.leq + d.dims.eq + NumSlacks(d), Concat(BasisBlocks(d.dims.psd)))
    ensures conBounds == ConBounds(d.h, d.dims.leq)
  {
    aij := PutLinear(d);
    var lastRow;
    barCoefs, lastRow := AppendPsdBasis(d.dims.leq + d.dims.eq + NumSlacks(d), d.dims.psd);
    conBounds := PutConBounds(d.h, d.dims.leq);
  }

  /** The linear coefficients: the nonzeros of G on the first |c| columns, then (when
      there are slacks) the identity block putting slack t on row dims.leq + dims.eq + t. */
  method PutLinear(d: Data) returns (aij: seq<Coef>)
    ensures aij == Nonzeros(d.g) + SlackIdentity(d.dims.leq + d.dims.eq, |d.c|, NumSlacks(d))
  {
    aij := Nonzeros(d.g);
    var totalSocExpSlacks := Sum(d.dims.soc) + Sum(d.dims.exp);
    var identity := PutSlackIdentity(d.dims.leq + d.dims.eq, |d.c|, totalSocExpSlacks);
    aij := aij + identity;
  }

  /** A task whose every field is the one TaskOf prescribes is that task. */
  lemma TaskOfFields(d: Data, settings: seq<Setting>, t: Task)
    requires t.settings == settings && t.numVars == NumVars(d) && t.numCons == |d.h| && t.objective == d.c
    requires t.varBounds == VarBounds(NumVars(d), d.boolIdx) && t.varTypes == VarTypes(NumVars(d), d.boolIdx, d.intIdx)
    requires t.barVars == if Sum(Squares(d.dims.psd)) > 0 then d.dims.psd else []
    requires t.cones == SlackCones(|d.c|, d.dims.soc, Sum(d.dims.exp) / 3)
    requires t.aij == Nonzeros(d.g) + SlackIdentity(d.dims.leq + d.dims.eq, |d.c|, NumSlacks(d))
    requires t.barCoefs == Stamp(d.dims.leq + d.dims.eq + NumSlacks(d), Concat(BasisBlocks(d.dims.psd)))
    requires t.conBounds == ConBounds(d.h, d.dims.leq)
    ensures t == TaskOf(d, settings)
  {
  }

  /** The variable declarations of solve_via_data: n free continuous variables, then
      (only when the problem has integer variables) the boolean ones bounded to [0, 1]
      and both kinds marked integer. */
  method DeclareVars(n: nat, boolIdx: seq<nat>, intIdx: seq<nat>) returns (bounds: seq<Bound>, types: seq<VarType>)
    requires forall v :: v in boolIdx ==> v < n
    requires forall v :: v in intIdx ==> v < n
    ensures bounds == VarBounds(n, boolIdx) && types == VarTypes(n, boolIdx, intIdx)
  {
    bounds := Repeat(Bound(Free, 0.0, 0.0), n);
    types := Repeat(Continuous, n);
    if |boolIdx| + |intIdx| > 0 {
      types := SetAt(types, boolIdx, Integer);
      bounds := SetAt(bounds, boolIdx, Bound(Ranged, 0.0, 1.0));
      types := SetAt(types, intIdx, Integer);
    }
  }

  /** The slack identity block as solve_via_data writes it, from aranges of rows and
      columns (nothing when there are no slacks). */
  method PutSlackIdentity(firstRow: nat, n0: nat, total: nat) returns (coefs: seq<Coef>)
    ensures coefs == SlackIdentity(firstRow, n0, total)
  {
    coefs := [];
    if total > 0 {
      var rows := Range(firstRow, total);
      var cols := Range(n0, total);
      coefs := seq(total, t requires 0 <= t < total => Coef(rows[t], cols[t], 1.0));
    }
  }

  /** The layout of the task built from well-formed data: every linear coefficient and
      every matrix-variable coefficient lies on one of the m constraint rows and (for
      the linear part) one of the n variables; the row counter of the PSD loop ends at
      exactly m; the slack identity puts slack t on row dims.leq + dims.eq + t; only the
      first dims.leq rows are inequalities. */
  lemma TaskLayout(d: Data, settings: seq<Setting>, e: Coef, p: nat)
    requires WellFormedData(d)
    ensures var t := TaskOf(d, settings);
      e in t.aij ==> e.row < t.numCons && e.col < t.numVars
    ensures var t := TaskOf(d, settings);
      d.dims.leq + d.dims.eq + NumSlacks(d) + |t.barCoefs| == t.numCons
    ensures var t := TaskOf(d, settings);
      p < |t.barCoefs| ==> t.barCoefs[p].con == d.dims.leq + d.dims.eq + NumSlacks(d) + p < t.numCons
    ensures var t := TaskOf(d, settings);
      |t.conBounds| == t.numCons && (p < t.numCons ==> (t.conBounds[p].key == Upper <==> p < d.dims.leq))
  {
    var t := TaskOf(d, settings);
    BasisLength(d.dims.psd);
    NonzerosMember(d.g, e);
    if e in Nonzeros(d.g) {
      assert d.g[e.row] in d.g;
    }
  }
}
