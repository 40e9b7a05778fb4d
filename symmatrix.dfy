/** The half-vectorised symmetric matrix codec: a dim x dim symmetric matrix is stored
    as its lower triangle read column by column (column 0's dim entries, then column
    1's dim - 1 entries, and so on). `LowerTriToMat` is the decoder the interface runs
    on MOSEK's PSD duals; `HalfVec` is the matching encoder. */
module SymMatrix {

  import opened Common

  predicate IsSquare(m: Matrix, dim: nat)
  {
    |m| == dim && forall i :: 0 <= i < dim ==> |m[i]| == dim
  }

  predicate IsSymmetric(m: Matrix, dim: nat)
    requires IsSquare(m, dim)
  {
    forall i, j :: 0 <= i < dim && 0 <= j < dim ==> m[i][j] == m[j][i]
  }

  /** Number of entries in the half vector of a dim x dim matrix. */
  function TriSize(dim: nat): nat
  {
    dim * (dim + 1) / 2
  }

  /** Where column j starts in the half vector: the sum of the lengths dim - k of the
      columns k < j. */
  function ColumnStart(dim: nat, j: nat): nat
    requires j <= dim
  {
    if j == 0 then 0 else ColumnStart(dim, j - 1) + (dim - (j - 1))
  }

  lemma {:induction false} ColumnStartClosedForm(dim: nat, j: nat)
    requires j <= dim
    ensures 2 * ColumnStart(dim, j) == j * (2 * dim - j + 1)
  {
    if j > 0 {
      ColumnStartClosedForm(dim, j - 1);
      assert j * (2 * dim - j + 1) == (j - 1) * (2 * dim - (j - 1) + 1) + 2 * (dim - (j - 1));
    }
  }

  /** The columns together hold exactly dim * (dim + 1) / 2 entries. */
  lemma ColumnsFillTriangle(dim: nat)
    ensures ColumnStart(dim, dim) == TriSize(dim)
  {
    ColumnStartClosedForm(dim, dim);
    assert dim * (2 * dim - dim + 1) == dim * (dim + 1);
  }

  lemma {:induction false} ColumnStartMono(dim: nat, i: nat, j: nat)
    requires i <= j <= dim
    ensures ColumnStart(dim, i) <= ColumnStart(dim, j)
    decreases j - i
  {
    if i < j {
      ColumnStartMono(dim, i, j - 1);
    }
  }

  /** Position in the half vector of the lower-triangle entry (i, j), i >= j. */
  function TriIndex(dim: nat, i: nat, j: nat): (p: nat)
    requires j <= i < dim
    ensures ColumnStart(dim, j) <= p < ColumnStart(dim, j + 1) <= TriSize(dim)
  {
    ColumnStartMono(dim, j + 1, dim);
    ColumnsFillTriangle(dim);
    ColumnStart(dim, j) + (i - j)
  }

  function Max(a: nat, b: nat): nat { if a >= b then a else b }
  function Min(a: nat, b: nat): nat { if a >= b then b else a }

  /** The symmetric matrix a half vector stands for: entry (i, j) is read at the
      lower-triangle position of (max(i, j), min(i, j)). */
  function LowerTriMat(v: seq<real>, dim: nat): Matrix
    requires |v| == TriSize(dim)
  {
    seq(dim, i requires 0 <= i < dim =>
      seq(dim, j requires 0 <= j < dim => v[TriIndex(dim, Max(i, j), Min(i, j))]))
  }

  /** Shape, symmetry, and the lower triangle: entry (i, j) with i >= j is the half
      vector's entry at its triangle position, so the diagonal appears once, not twice. */
  lemma LowerTriMatShape(v: seq<real>, dim: nat)
    requires |v| == TriSize(dim)
    ensures IsSquare(LowerTriMat(v, dim), dim)
    ensures IsSymmetric(LowerTriMat(v, dim), dim)
    ensures forall i, j :: 0 <= j <= i < dim ==> LowerTriMat(v, dim)[i][j] == v[TriIndex(dim, i, j)]
  {
  }

  /** Column c of the lower triangle of m: entries (c, c) down to (dim - 1, c). */
  function Column(m: Matrix, dim: nat, c: nat): (r: seq<real>)
    requires IsSquare(m, dim) && c < dim
    ensures |r| == dim - c && forall k :: 0 <= k < dim - c ==> r[k] == m[c + k][c]
  {
    seq(dim - c, k requires 0 <= k < dim - c => m[c + k][c])
  }

  /** The half vector of the first j columns of the lower triangle of m. */
  function HalfVecUpTo(m: Matrix, dim: nat, j: nat): seq<real>
    requires IsSquare(m, dim) && j <= dim
  {
    if j == 0 then [] else HalfVecUpTo(m, dim, j - 1) + Column(m, dim, j - 1)
  }

  /** Half-vectorisation: the lower triangle of m, column-major. */
  function HalfVec(m: Matrix, dim: nat): seq<real>
    requires IsSquare(m, dim)
  {
    HalfVecUpTo(m, dim, dim)
  }

  lemma {:induction false} HalfVecUpToAt(m: Matrix, dim: nat, j: nat)
    requires IsSquare(m, dim) && j <= dim
    ensures |HalfVecUpTo(m, dim, j)| == ColumnStart(dim, j)
    ensures forall i, c :: 0 <= c < j && c <= i < dim ==> TriIndex(dim, i, c) < |HalfVecUpTo(m, dim, j)|
    ensures forall i, c :: 0 <= c < j && c <= i < dim ==> HalfVecUpTo(m, dim, j)[TriIndex(dim, i, c)] == m[i][c]
  {
    if j > 0 {
      HalfVecUpToAt(m, dim, j - 1);
      forall i, c | 0 <= c < j && c <= i < dim
        ensures TriIndex(dim, i, c) < |HalfVecUpTo(m, dim, j)|
      {
        ColumnStartMono(dim, c + 1, j);
      }
    }
  }

  /** Encoding, then decoding, gives back every symmetric matrix. */
  lemma HalfVecThenDecode(m: Matrix, dim: nat)
    requires IsSquare(m, dim) && IsSymmetric(m, dim)
    ensures |HalfVec(m, dim)| == TriSize(dim)
    ensures LowerTriMat(HalfVec(m, dim), dim) == m
  {
    HalfVecUpToAt(m, dim, dim);
    ColumnsFillTriangle(dim);
    var d := LowerTriMat(HalfVec(m, dim), dim);
    forall i | 0 <= i < dim
      ensures d[i] == m[i]
    {
      forall j | 0 <= j < dim
        ensures d[i][j] == m[i][j]
      {
        assert d[i][j] == m[Max(i, j)][Min(i, j)];
      }
    }
  }

  /** Column c of the decoded matrix is the stretch of the half vector where column c
      starts. */
  lemma DecodedColumn(v: seq<real>, dim: nat, c: nat)
    requires |v| == TriSize(dim) && c < dim
    ensures IsSquare(LowerTriMat(v, dim), dim)
    ensures ColumnStart(dim, c) <= ColumnStart(dim, c + 1) <= |v|
    ensures Column(LowerTriMat(v, dim), dim, c) == v[ColumnStart(dim, c) .. ColumnStart(dim, c + 1)]
  {
    ColumnStartMono(dim, c + 1, dim);
    ColumnsFillTriangle(dim);
    var col, part := Column(LowerTriMat(v, dim), dim, c), v[ColumnStart(dim, c) .. ColumnStart(dim, c + 1)];
    forall k | 0 <= k < dim - c
      ensures col[k] == part[k]
    {
      assert TriIndex(dim, c + k, c) == ColumnStart(dim, c) + k;
    }
  }

  lemma {:induction false} DecodeThenHalfVecUpTo(v: seq<real>, dim: nat, j: nat)
    requires |v| == TriSize(dim) && j <= dim
    ensures IsSquare(LowerTriMat(v, dim), dim)
    ensures ColumnStart(dim, j) <= |v|
    ensures HalfVecUpTo(LowerTriMat(v, dim), dim, j) == v[..ColumnStart(dim, j)]
  {
    ColumnStartMono(dim, j, dim);
    ColumnsFillTriangle(dim);
    if j > 0 {
      DecodeThenHalfVecUpTo(v, dim, j - 1);
      DecodedColumn(v, dim, j - 1);
      assert v[..ColumnStart(dim, j)] == v[..ColumnStart(dim, j - 1)] + v[ColumnStart(dim, j - 1)..ColumnStart(dim, j)];
    }
  }

  /** Decoding, then encoding, gives back every half vector: the codec is a bijection
      between half vectors of length dim * (dim + 1) / 2 and symmetric matrices. */
  lemma DecodeThenHalfVec(v: seq<real>, dim: nat)
    requires |v| == TriSize(dim)
    ensures IsSquare(LowerTriMat(v, dim), dim)
    ensures HalfVec(LowerTriMat(v, dim), dim) == v
  {
    DecodeThenHalfVecUpTo(v, dim, dim);
    ColumnsFillTriangle(dim);
    assert v[..|v|] == v;
  }

  /** Dense value at (i, c) of a coordinate-format matrix: the sum of the values of every
      triple at that position, as a COO matrix sums duplicates when made dense. */
  function CooAt(rows: seq<nat>, cols: seq<nat>, vals: seq<real>, i: nat, c: nat): real
    requires |rows| == |cols| == |vals|
  {
    if |rows| == 0 then 0.0
    else
      var n := |rows| - 1;
      CooAt(rows[..n], cols[..n], vals[..n], i, c) + (if rows[n] == i && cols[n] == c then vals[n] else 0.0)
  }

  lemma {:induction false} CooAtAppend(rows: seq<nat>, cols: seq<nat>, vals: seq<real>,
                                       rows': seq<nat>, cols': seq<nat>, vals': seq<real>, i: nat, c: nat)
    requires |rows| == |cols| == |vals| && |rows'| == |cols'| == |vals'|
    ensures CooAt(rows + rows', cols + cols', vals + vals', i, c)
         == CooAt(rows, cols, vals, i, c) + CooAt(rows', cols', vals', i, c)
    decreases |rows'|
  {
    if |rows'| == 0 {
      assert rows + rows' == rows && cols + cols' == cols && vals + vals' == vals;
    } else {
      var n := |rows'| - 1;
      assert (rows + rows')[..|rows| + n] == rows + rows'[..n];
      assert (cols + cols')[..|rows| + n] == cols + cols'[..n];
      assert (vals + vals')[..|rows| + n] == vals + vals'[..n];
      CooAtAppend(rows, cols, vals, rows'[..n], cols'[..n], vals'[..n], i, c);
    }
  }

  /** The triples of one column j of the lower triangle, rows j .. j + |w| - 1. */
  lemma {:induction false} CooAtColumn(j: nat, w: seq<real>, i: nat, c: nat)
    ensures CooAt(Range(j, |w|), Repeat<nat>(j, |w|), w, i, c)
         == if c == j && j <= i < j + |w| then w[i - j] else 0.0
    decreases |w|
  {
    if |w| > 0 {
      var n := |w| - 1;
      assert Range(j, |w|)[..n] == Range(j, n);
      assert Repeat<nat>(j, |w|)[..n] == Repeat<nat>(j, n);
      CooAtColumn(j, w[..n], i, c);
    }
  }

  /** The triples of columns 0 .. j - 1, made dense, hold the lower triangle of those
      columns and zero elsewhere. */
  ghost predicate DenseUpTo(rows: seq<nat>, cols: seq<nat>, vals: seq<real>, v: seq<real>, dim: nat, j: nat)
    requires |rows| == |cols| == |vals| && |v| == TriSize(dim)
  {
    forall i, c :: 0 <= i < dim && 0 <= c < dim ==>
      CooAt(rows, cols, vals, i, c) == if c < j && c <= i then v[TriIndex(dim, i, c)] else 0.0
  }

  lemma ColumnStep(rows: seq<nat>, cols: seq<nat>, vals: seq<real>, v: seq<real>, dim: nat, j: nat, start: nat)
    requires |rows| == |cols| == |vals| && |v| == TriSize(dim) && j < dim
    requires start == ColumnStart(dim, j)
    requires DenseUpTo(rows, cols, vals, v, dim, j)
    ensures start + (dim - j) == ColumnStart(dim, j + 1) <= |v|
    ensures DenseUpTo(rows + Range(j, dim - j),
                      cols + Repeat<nat>(j, dim - j),
                      vals + v[start..start + (dim - j)], v, dim, j + 1)
  {
    ColumnStartMono(dim, j + 1, dim);
    ColumnsFillTriangle(dim);
    var newRows := Range(j, dim - j);
    var newCols := Repeat<nat>(j, dim - j);
    var newVals := v[start..start + (dim - j)];
    forall i, c | 0 <= i < dim && 0 <= c < dim
      ensures CooAt(rows + newRows, cols + newCols, vals + newVals, i, c)
           == if c < j + 1 && c <= i then v[TriIndex(dim, i, c)] else 0.0
    {
      CooAtAppend(rows, cols, vals, newRows, newCols, newVals, i, c);
      CooAtColumn(j, newVals, i, c);
    }
  }

  /** The dense dim x dim matrix of a list of coordinate triples. */
  function Densify(rows: seq<nat>, cols: seq<nat>, vals: seq<real>, dim: nat): (low: Matrix)
    requires |rows| == |cols| == |vals|
    ensures IsSquare(low, dim)
    ensures forall i, c :: 0 <= i < dim && 0 <= c < dim ==> low[i][c] == CooAt(rows, cols, vals, i, c)
  {
    seq(dim, i requires 0 <= i < dim => seq(dim, c requires 0 <= c < dim => CooAt(rows, cols, vals, i, c)))
  }

  /** A + A^T - diag(A). */
  function Mirror(low: Matrix, dim: nat): Matrix
    requires IsSquare(low, dim)
  {
    seq(dim, i requires 0 <= i < dim =>
      seq(dim, c requires 0 <= c < dim => low[i][c] + low[c][i] - (if i == c then low[i][i] else 0.0)))
  }

  /** Adding the transpose of the dense lower triangle and subtracting its diagonal once
      gives the full symmetric matrix. */
  lemma MirrorLowerTriangle(low: Matrix, v: seq<real>, dim: nat)
    requires |v| == TriSize(dim) && IsSquare(low, dim)
    requires forall i, c :: 0 <= i < dim && 0 <= c < dim ==>
      low[i][c] == if c <= i then v[TriIndex(dim, i, c)] else 0.0
    ensures Mirror(low, dim) == LowerTriMat(v, dim)
  {
    var a := Mirror(low, dim);
    forall i | 0 <= i < dim
      ensures a[i] == LowerTriMat(v, dim)[i]
    {
    }
  }

  /** vectorized_lower_tri_to_mat: collect (row, col, value) triples column by column,
      make them dense, then add the transpose and subtract the diagonal once. */
  method LowerTriToMat(v: seq<real>, dim: nat) returns (a: Matrix)
    requires |v| == TriSize(dim)
    ensures a == LowerTriMat(v, dim)
  {
    var rows: seq<nat>, cols: seq<nat>, vals: seq<real> := [], [], [];
    var runningIdx: nat := 0;
    for j := 0 to dim
      invariant runningIdx == ColumnStart(dim, j)
      invariant |rows| == |cols| == |vals|
      invariant DenseUpTo(rows, cols, vals, v, dim, j)
    {
      ColumnStep(rows, cols, vals, v, dim, j, runningIdx);
      rows := rows + Range(j, dim - j);
      cols := cols + Repeat<nat>(j, dim - j);
      vals := vals + v[runningIdx..runningIdx + (dim - j)];
      runningIdx := runningIdx + (dim - j);
    }
    var low := Densify(rows, cols, vals, dim);
    MirrorLowerTriangle(low, v, dim);
    a := Mirror(low, dim);
  }
}
