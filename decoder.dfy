/** Decoding MOSEK's answer (`MOSEK.invert`): pick the solution pool, map MOSEK's
    solution status to a canonical status, and, when a solution is present, read the
    objective, the first n0 entries of x and the dual buffers back into per-constraint
    dual values. The task is modelled by the buffers it would fill; the buffers are read
    at the offsets invert asks for. */
module Decoder {

  import opened Common
  import opened DualSplit
  import opened Encoder
  import SymMatrix
  import Bridge
  import Params

  /** MOSEK's solution statuses: the nine the status table lists, and any other. */
  datatype SolSta =
    | SolOptimal
    | IntegerOptimal
    | PrimInfeasCer
    | DualInfeasCer
    | NearOptimal
    | NearIntegerOptimal
    | NearPrimInfeasCer
    | NearDualInfeasCer
    | SolUnknown
    | OtherSolSta(code: int)

  /** The two solution pools: interior point and integer. */
  datatype SolType = Itr | Itg

  /** What the task reports for one pool: the solution status, the primal objective,
      and the buffers read by getxxslice, getsucslice, getyslice, getsnxslice (indexed by
      row or variable of the whole task) and getbarsj (one half vector per matrix
      variable). */
  datatype SolBuffers = SolBuffers(solsta: SolSta, primalObj: real, xx: seq<real>, suc: seq<real>,
                                   y: seq<real>, snx: seq<real>, barsj: seq<seq<real>>)

  datatype TaskResult = TaskResult(itr: SolBuffers, itg: SolBuffers)

  /** The objective value handed back: a finite value, plus or minus infinity, or none. */
  datatype Objective = Finite(value: real) | PlusInf | MinusInf | NoValue

  datatype Solution = Solution(status: Status, optVal: Objective, primal: Option<map<Id, seq<real>>>,
                               duals: Option<map<Id, DualValue>>)

  // ---------------------------------------------------------------- status

  /** The status table. A status it does not list has no entry (a lookup error). */
  function StatusOf(s: SolSta): (r: Option<Status>)
    ensures r.None? <==> s.OtherSolSta?
  {
    match s
    case SolOptimal => Some(Optimal)
    case IntegerOptimal => Some(Optimal)
    case PrimInfeasCer => Some(Infeasible)
    case DualInfeasCer => Some(Unbounded)
    case NearOptimal => Some(OptimalInaccurate)
    case NearIntegerOptimal => Some(OptimalInaccurate)
    case NearPrimInfeasCer => Some(InfeasibleInaccurate)
    case NearDualInfeasCer => Some(UnboundedInaccurate)
    case SolUnknown => Some(SolverError)
    case OtherSolSta(_) => None
  }

  predicate IsNear(s: SolSta)
  {
    s.NearOptimal? || s.NearIntegerOptimal? || s.NearPrimInfeasCer? || s.NearDualInfeasCer?
  }

  /** The certificate a "near" status approximates. */
  function Exact(s: SolSta): SolSta
    requires IsNear(s)
  {
    match s
    case NearOptimal => SolOptimal
    case NearIntegerOptimal => IntegerOptimal
    case NearPrimInfeasCer => PrimInfeasCer
    case NearDualInfeasCer => DualInfeasCer
  }

  /** The inaccurate counterpart of an exact canonical status. */
  function Inaccurate(st: Status): Status
  {
    match st
    case Optimal => OptimalInaccurate
    case Infeasible => InfeasibleInaccurate
    case Unbounded => UnboundedInaccurate
    case _ => st
  }

  /** Every "near" status maps to the inaccurate version of what its exact certificate
      maps to, and an exact certificate never maps to an inaccurate status. */
  lemma NearIsInaccurate(s: SolSta)
    requires IsNear(s)
    ensures StatusOf(Exact(s)).Some? && StatusOf(s) == Some(Inaccurate(StatusOf(Exact(s)).value))
    ensures StatusOf(Exact(s)).value in {Optimal, Infeasible, Unbounded}
  {
  }

  /** Every canonical status is reached from some MOSEK status. */
  lemma StatusMapOnto(st: Status)
    ensures exists s :: StatusOf(s) == Some(st)
  {
    var s := match st
      case Optimal => SolOptimal
      case Infeasible => PrimInfeasCer
      case Unbounded => DualInfeasCer
      case OptimalInaccurate => NearOptimal
      case InfeasibleInaccurate => NearPrimInfeasCer
      case UnboundedInaccurate => NearDualInfeasCer
      case SolverError => SolUnknown;
    assert StatusOf(s) == Some(st);
  }

  /** The two statuses for which a solution is read. */
  predicate SolutionPresent(st: Status)
  {
    st == Optimal || st == OptimalInaccurate
  }

  /** The objective reported when no solution is present. */
  function AbsentObjective(st: Status): (r: Objective)
    ensures r == PlusInf <==> st == Infeasible
    ensures r == MinusInf <==> st == Unbounded
    ensures r.Finite? == false
  {
    if st == Infeasible then PlusInf
    else if st == Unbounded then MinusInf
    else NoValue
  }

  // ---------------------------------------------------------------- buffers

  /** The integer pool when the problem has integer variables, the interior-point pool
      otherwise. */
  function SolTypeOf(inv: InverseData): SolType
  {
    if inv.integerVariables then Itg else Itr
  }

  function Pool(res: TaskResult, t: SolType): SolBuffers
  {
    match t
    case Itr => res.itr
    case Itg => res.itg
  }

  /** The buffers are long enough for every slice invert reads: x up to n0, the row
      duals up to the end of the equality rows, the slack duals up to n0 + the slack
      count, and one half vector of the right size per PSD constraint.
      TaskBuffersReadable derives this from the sizes of the task the same problem
      builds. */
  predicate Readable(b: SolBuffers, inv: InverseData)
  {
    |b.xx| >= inv.n0 &&
    |b.suc| >= TotalLen(inv.sucSlacks) &&
    |b.y| >= TotalLen(inv.sucSlacks) + TotalLen(inv.ySlacks) &&
    |b.snx| >= inv.n0 + TotalLen(inv.snxSlacks) &&
    BarsReadable(b.barsj, inv.psdDims)
  }

  predicate BarsReadable(barsj: seq<seq<real>>, psd: seq<Ref>)
  {
    |barsj| >= |psd| && forall j :: 0 <= j < |psd| ==> |barsj[j]| == SymMatrix.TriSize(psd[j].dim)
  }

  /** The slices invert reads: the inequality duals at rows [0, sucLen), the equality
      duals at rows [sucLen, sucLen + yLen), the cone duals at variables [n0, n0 + snxLen). */
  function SucSlice(b: SolBuffers, inv: InverseData): seq<real>
    requires Readable(b, inv)
  {
    b.suc[0 .. TotalLen(inv.sucSlacks)]
  }

  function YSlice(b: SolBuffers, inv: InverseData): seq<real>
    requires Readable(b, inv)
  {
    b.y[TotalLen(inv.sucSlacks) .. TotalLen(inv.sucSlacks) + TotalLen(inv.ySlacks)]
  }

  function SnxSlice(b: SolBuffers, inv: InverseData): seq<real>
    requires Readable(b, inv)
  {
    b.snx[inv.n0 .. inv.n0 + TotalLen(inv.snxSlacks)]
  }

  /** The PSD duals: matrix variable j decoded into the full symmetric matrix of its
      constraint, later entries winning. */
  function PsdDuals(barsj: seq<seq<real>>, psd: seq<Ref>): map<Id, DualValue>
    requires BarsReadable(barsj, psd)
  {
    if |psd| == 0 then map[]
    else
      var n := |psd| - 1;
      PsdDuals(barsj, psd[..n])[psd[n].id := Mat(SymMatrix.LowerTriMat(barsj[n], psd[n].dim))]
  }

  /** All duals, in the order invert collects them: inequalities, equalities, cone
      slacks, then PSD matrices, a later table overriding an earlier one on a shared id. */
  function AllDuals(b: SolBuffers, inv: InverseData): map<Id, DualValue>
    requires Readable(b, inv)
  {
    DualMap(SucSlice(b, inv), inv.sucSlacks) + DualMap(YSlice(b, inv), inv.ySlacks)
      + DualMap(SnxSlice(b, inv), inv.snxSlacks) + PsdDuals(b.barsj, inv.psdDims)
  }

  /** What invert returns: a lookup error for a status outside the table; otherwise the
      mapped status, and either the objective plus the recorded offset with the primal
      and dual values, or the objective for a missing solution with neither. */
  function InvertOf(res: TaskResult, inv: InverseData): Result<Solution, SolSta>
    requires Readable(Pool(res, SolTypeOf(inv)), inv)
  {
    var b := Pool(res, SolTypeOf(inv));
    match StatusOf(b.solsta)
    case None => Failure(b.solsta)
    case Some(st) =>
      if SolutionPresent(st) then
        Success(Solution(st, Finite(b.primalObj + inv.objOffset), Some(map[inv.varId := b.xx[..inv.n0]]),
                         Some(AllDuals(b, inv))))
      else Success(Solution(st, AbsentObjective(st), None, None))
  }

  // ---------------------------------------------------------------- invert

  /** invert: choose the pool, look the status up, and read the buffers when a solution
      is present. */
  method Invert(res: TaskResult, inv: InverseData) returns (r: Result<Solution, SolSta>)
    requires Readable(Pool(res, SolTypeOf(inv)), inv)
    ensures r == InvertOf(res, inv)
  {
    var b := Pool(res, SolTypeOf(inv));
    var mapped := StatusOf(b.solsta);
    if mapped.None? {
      return Failure(b.solsta);
    }
    var status := mapped.value;
    if !SolutionPresent(status) {
      return Success(Solution(status, AbsentObjective(status), None, None));
    }
    var optVal := b.primalObj + inv.objOffset;
    var x := b.xx[..inv.n0];
    var primalVars := map[inv.varId := x];
    var dualVars := ReadSlackDuals(b, inv);
    dualVars := ReadPsdDuals(b.barsj, inv.psdDims, dualVars);
    r := Success(Solution(status, Finite(optVal), Some(primalVars), Some(dualVars)));
  }

  /** The PSD loop of invert: for constraint j, its half vector from getbarsj decoded
      into the full symmetric matrix and stored under its id. */
  method ReadPsdDuals(barsj: seq<seq<real>>, psd: seq<Ref>, base: map<Id, DualValue>) returns (duals: map<Id, DualValue>)
    requires BarsReadable(barsj, psd)
    ensures duals == base + PsdDuals(barsj, psd)
  {
    duals := base;
    for j := 0 to |psd|
      invariant duals == base + PsdDuals(barsj, psd[..j])
    {
      var id, dim := psd[j].id, psd[j].dim;
      var sj := barsj[j];
      var m := SymMatrix.LowerTriToMat(sj, dim);
      assert psd[..j + 1][..j] == psd[..j];
      duals := duals[id := Mat(m)];
    }
    assert psd[..|psd|] == psd;
  }

  /** The three parse_dual_vars calls of invert, each on the slice its table covers,
      merged into the dictionary in order. */
  method ReadSlackDuals(b: SolBuffers, inv: InverseData) returns (duals: map<Id, DualValue>)
    requires Readable(b, inv)
    ensures duals == DualMap(SucSlice(b, inv), inv.sucSlacks) + DualMap(YSlice(b, inv), inv.ySlacks)
                     + DualMap(SnxSlice(b, inv), inv.snxSlacks)
  {
    var sucLen := TotalLen(inv.sucSlacks);
    var sucDuals := ReadTable(b.suc, 0, inv.sucSlacks);
    var eqDuals := ReadTable(b.y, sucLen, inv.ySlacks);
    var coneDuals := ReadTable(b.snx, inv.n0, inv.snxSlacks);
    duals := sucDuals + eqDuals + coneDuals;
  }

  /** One get*slice call followed by parse_dual_vars: the buffer entries from start on,
      as many as the table claims, split by the table. */
  method ReadTable(buf: seq<real>, start: nat, refs: seq<Ref>) returns (duals: map<Id, DualValue>)
    requires start + TotalLen(refs) <= |buf|
    ensures duals == DualMap(buf[start .. start + TotalLen(refs)], refs)
  {
    var len := TotalLen(refs);
    var slice := buf[start .. start + len];
    duals := ParseDualVars(slice, refs);
  }

  // ---------------------------------------------------------------- properties of invert

  /** Every constraint of the inverse data, in the order invert reads the tables. */
  function AllRefs(inv: InverseData): seq<Ref>
  {
    inv.sucSlacks + inv.ySlacks + inv.snxSlacks + inv.psdDims
  }

  /** invert fails exactly on a status outside the table; otherwise it reports the
      table's status for the pool the integrality of the problem selects. */
  lemma InvertStatus(res: TaskResult, inv: InverseData)
    requires Readable(Pool(res, SolTypeOf(inv)), inv)
    ensures var b := if inv.integerVariables then res.itg else res.itr;
      && (InvertOf(res, inv).Failure? <==> b.solsta.OtherSolSta?)
      && (InvertOf(res, inv).Failure? ==> InvertOf(res, inv).error == b.solsta)
      && (InvertOf(res, inv).Success? ==> Some(InvertOf(res, inv).value.status) == StatusOf(b.solsta))
  {
  }

  /** Without a solution, the objective is +infinity for an infeasible problem,
      -infinity for an unbounded one and absent otherwise, and there are neither primal
      nor dual values. */
  lemma InvertAbsent(res: TaskResult, inv: InverseData)
    requires Readable(Pool(res, SolTypeOf(inv)), inv)
    requires InvertOf(res, inv).Success? && !SolutionPresent(InvertOf(res, inv).value.status)
    ensures var sol := InvertOf(res, inv).value;
      && (sol.optVal == PlusInf <==> sol.status == Infeasible)
      && (sol.optVal == MinusInf <==> sol.status == Unbounded)
      && (sol.optVal == NoValue <==> sol.status !in {Infeasible, Unbounded})
      && sol.primal.None? && sol.duals.None?
  {
  }

  /** With a solution, the objective is the primal objective plus the recorded offset,
      the primal dictionary holds the first n0 entries of x under the variable's id, and
      every constraint of the four tables has a dual value. */
  lemma InvertPresent(res: TaskResult, inv: InverseData)
    requires Readable(Pool(res, SolTypeOf(inv)), inv)
    requires InvertOf(res, inv).Success? && SolutionPresent(InvertOf(res, inv).value.status)
    ensures var b := Pool(res, SolTypeOf(inv));
      var sol := InvertOf(res, inv).value;
      && sol.optVal == Finite(b.primalObj + inv.objOffset)
      && sol.primal.Some? && sol.primal.value.Keys == {inv.varId}
      && |sol.primal.value[inv.varId]| == inv.n0 && sol.primal.value[inv.varId] == b.xx[..inv.n0]
      && sol.duals.Some? && sol.duals.value.Keys == Ids(AllRefs(inv))
  {
    var b := Pool(res, SolTypeOf(inv));
    DualMapKeys(SucSlice(b, inv), inv.sucSlacks);
    DualMapKeys(YSlice(b, inv), inv.ySlacks);
    DualMapKeys(SnxSlice(b, inv), inv.snxSlacks);
    PsdDualsKeys(b.barsj, inv.psdDims);
    IdsAppend(inv.sucSlacks, inv.ySlacks);
    IdsAppend(inv.sucSlacks + inv.ySlacks, inv.snxSlacks);
    IdsAppend(inv.sucSlacks + inv.ySlacks + inv.snxSlacks, inv.psdDims);
  }

  lemma IdsAppend(a: seq<Ref>, b: seq<Ref>)
    ensures Ids(a + b) == Ids(a) + Ids(b)
  {
    forall x | x in Ids(a + b) ensures x in Ids(a) + Ids(b)
    {
      var k :| 0 <= k < |a + b| && (a + b)[k].id == x;
      if k >= |a| {
        assert b[k - |a|].id == x;
      }
    }
    forall x | x in Ids(b) ensures x in Ids(a + b)
    {
      var k :| 0 <= k < |b| && b[k].id == x;
      assert (a + b)[|a| + k].id == x;
    }
    forall x | x in Ids(a) ensures x in Ids(a + b)
    {
      var k :| 0 <= k < |a| && a[k].id == x;
      assert (a + b)[k].id == x;
    }
  }

  /** Distinct ids across two tables: each table has distinct ids and they share none. */
  lemma UniqueSplit(a: seq<Ref>, b: seq<Ref>)
    requires UniqueIds(a + b)
    ensures UniqueIds(a) && UniqueIds(b) && Ids(a) !! Ids(b)
  {
    forall k, l | 0 <= k < l < |a|
      ensures a[k].id != a[l].id
    {
      assert (a + b)[k] == a[k] && (a + b)[l] == a[l];
    }
    forall k, l | 0 <= k < l < |b|
      ensures b[k].id != b[l].id
    {
      assert (a + b)[|a| + k] == b[k] && (a + b)[|a| + l] == b[l];
    }
    forall k, l | 0 <= k < |a| && 0 <= l < |b|
      ensures a[k].id != b[l].id
    {
      assert (a + b)[k] == a[k] && (a + b)[|a| + l] == b[l];
    }
  }

  lemma {:induction false} PsdDualsKeys(barsj: seq<seq<real>>, psd: seq<Ref>)
    requires BarsReadable(barsj, psd)
    ensures PsdDuals(barsj, psd).Keys == Ids(psd)
    decreases |psd|
  {
    if |psd| > 0 {
      var n := |psd| - 1;
      PsdDualsKeys(barsj, psd[..n]);
      assert Ids(psd) == Ids(psd[..n]) + {psd[n].id};
    }
  }

  /** With distinct ids, PSD constraint j receives the full symmetric matrix decoded from
      matrix variable j. */
  lemma {:induction false} PsdDualsAt(barsj: seq<seq<real>>, psd: seq<Ref>, j: nat)
    requires BarsReadable(barsj, psd) && UniqueIds(psd) && j < |psd|
    ensures psd[j].id in PsdDuals(barsj, psd)
    ensures PsdDuals(barsj, psd)[psd[j].id] == Mat(SymMatrix.LowerTriMat(barsj[j], psd[j].dim))
    decreases |psd|
  {
    var n := |psd| - 1;
    if j < n {
      PsdDualsAt(barsj, psd[..n], j);
    }
  }

  /** A slice of a slice is a slice of the buffer, shifted by the outer start. */
  lemma SliceValueShift(buf: seq<real>, start: nat, len: nat, off: nat, dim: nat)
    requires start + len <= |buf| && off + dim <= len
    ensures SliceValue(buf[start .. start + len], off, dim) == SliceValue(buf, start + off, dim)
  {
    var inner := buf[start .. start + len];
    if dim == 1 {
      assert inner[off] == buf[start + off];
    } else {
      var lhs, rhs := inner[off .. off + dim], buf[start + off .. start + off + dim];
      forall i | 0 <= i < dim
        ensures lhs[i] == rhs[i]
      {
        assert inner[off + i] == buf[start + off + i];
      }
      assert lhs == rhs;
    }
  }

  /** With distinct ids, entry k of a table read from a window of a buffer receives the
      window's slice for it, which is the buffer's slice shifted by the window's start. */
  lemma TableDual(buf: seq<real>, start: nat, window: seq<real>, refs: seq<Ref>, k: nat)
    requires start + TotalLen(refs) <= |buf| && window == buf[start .. start + TotalLen(refs)]
    requires UniqueIds(refs) && k < |refs|
    ensures start + Offset(refs, k) + refs[k].dim <= |buf|
    ensures refs[k].id in DualMap(window, refs)
    ensures DualMap(window, refs)[refs[k].id] == SliceValue(buf, start + Offset(refs, k), refs[k].dim)
  {
    DualMapAt(window, refs, k);
    SliceValueShift(buf, start, TotalLen(refs), Offset(refs, k), refs[k].dim);
  }

  /** Distinct ids across all four tables: the later tables cannot override a dual value
      written by an earlier one. */
  lemma AllRefsSplit(inv: InverseData)
    requires UniqueIds(AllRefs(inv))
    ensures UniqueIds(inv.sucSlacks) && UniqueIds(inv.ySlacks) && UniqueIds(inv.snxSlacks) && UniqueIds(inv.psdDims)
    ensures Ids(inv.sucSlacks) !! Ids(inv.ySlacks) + Ids(inv.snxSlacks) + Ids(inv.psdDims)
    ensures Ids(inv.ySlacks) !! Ids(inv.snxSlacks) + Ids(inv.psdDims)
    ensures Ids(inv.snxSlacks) !! Ids(inv.psdDims)
  {
    var s, y, x, p := inv.sucSlacks, inv.ySlacks, inv.snxSlacks, inv.psdDims;
    assert AllRefs(inv) == s + (y + (x + p));
    UniqueSplit(s, y + (x + p));
    UniqueSplit(y, x + p);
    UniqueSplit(x, p);
    IdsAppend(y, x + p);
    IdsAppend(x, p);
  }

  /** With a solution, the dual dictionary is the union of the four tables' duals. */
  lemma PresentDuals(res: TaskResult, inv: InverseData)
    requires Readable(Pool(res, SolTypeOf(inv)), inv)
    requires InvertOf(res, inv).Success? && SolutionPresent(InvertOf(res, inv).value.status)
    ensures InvertOf(res, inv).value.duals == Some(AllDuals(Pool(res, SolTypeOf(inv)), inv))
  {
  }

  /** A key held by exactly one of four maps keeps that map's value in their union. */
  lemma LookupInUnion<K, V>(s: map<K, V>, y: map<K, V>, x: map<K, V>, p: map<K, V>, key: K)
    ensures key in s && key !in y && key !in x && key !in p ==> key in s + y + x + p && (s + y + x + p)[key] == s[key]
    ensures key in y && key !in x && key !in p ==> key in s + y + x + p && (s + y + x + p)[key] == y[key]
    ensures key in x && key !in p ==> key in s + y + x + p && (s + y + x + p)[key] == x[key]
  {
  }

  /** The inequality table's entries in the union of all duals. */
  lemma AllDualsSuc(b: SolBuffers, inv: InverseData, k: nat)
    requires Readable(b, inv)
    requires UniqueIds(inv.sucSlacks) && Ids(inv.sucSlacks) !! Ids(inv.ySlacks) + Ids(inv.snxSlacks) + Ids(inv.psdDims)
    requires k < |inv.sucSlacks|
    ensures var r := inv.sucSlacks[k];
      && Offset(inv.sucSlacks, k) + r.dim <= |b.suc|
      && r.id in AllDuals(b, inv)
      && AllDuals(b, inv)[r.id] == SliceValue(b.suc, Offset(inv.sucSlacks, k), r.dim)
  {
    var r := inv.sucSlacks[k];
    var s, y, x, p := DualMap(SucSlice(b, inv), inv.sucSlacks), DualMap(YSlice(b, inv), inv.ySlacks),
      DualMap(SnxSlice(b, inv), inv.snxSlacks), PsdDuals(b.barsj, inv.psdDims);
    assert r.id !in y && r.id !in x && r.id !in p by {
      DualMapKeys(YSlice(b, inv), inv.ySlacks);
      DualMapKeys(SnxSlice(b, inv), inv.snxSlacks);
      PsdDualsKeys(b.barsj, inv.psdDims);
      assert r.id in Ids(inv.sucSlacks);
    }
    assert r.id in s && s[r.id] == SliceValue(b.suc, Offset(inv.sucSlacks, k), r.dim) by {
      TableDual(b.suc, 0, SucSlice(b, inv), inv.sucSlacks, k);
    }
    LookupInUnion(s, y, x, p, r.id);
  }

  /** Inequality constraint k receives the slice of the row duals that starts at the sum
      of the earlier inequality lengths. */
  lemma InvertSucDual(res: TaskResult, inv: InverseData, k: nat)
    requires Readable(Pool(res, SolTypeOf(inv)), inv) && UniqueIds(AllRefs(inv))
    requires InvertOf(res, inv).Success? && SolutionPresent(InvertOf(res, inv).value.status)
    requires k < |inv.sucSlacks|
    ensures var b := Pool(res, SolTypeOf(inv));
      var r := inv.sucSlacks[k];
      && Offset(inv.sucSlacks, k) + r.dim <= |b.suc|
      && r.id in InvertOf(res, inv).value.duals.value
      && InvertOf(res, inv).value.duals.value[r.id] == SliceValue(b.suc, Offset(inv.sucSlacks, k), r.dim)
  {
    PresentDuals(res, inv);
    AllRefsSplit(inv);
    AllDualsSuc(Pool(res, SolTypeOf(inv)), inv, k);
  }

  /** The equality table's entries in the union of all duals. */
  lemma AllDualsEq(b: SolBuffers, inv: InverseData, k: nat)
    requires Readable(b, inv)
    requires UniqueIds(inv.ySlacks) && Ids(inv.ySlacks) !! Ids(inv.snxSlacks) + Ids(inv.psdDims)
    requires k < |inv.ySlacks|
    ensures var r := inv.ySlacks[k];
      && TotalLen(inv.sucSlacks) + Offset(inv.ySlacks, k) + r.dim <= |b.y|
      && r.id in AllDuals(b, inv)
      && AllDuals(b, inv)[r.id]
         == SliceValue(b.y, TotalLen(inv.sucSlacks) + Offset(inv.ySlacks, k), r.dim)
  {
    var r := inv.ySlacks[k];
    var s, y, x, p := DualMap(SucSlice(b, inv), inv.sucSlacks), DualMap(YSlice(b, inv), inv.ySlacks),
      DualMap(SnxSlice(b, inv), inv.snxSlacks), PsdDuals(b.barsj, inv.psdDims);
    assert r.id !in x && r.id !in p by {
      DualMapKeys(SnxSlice(b, inv), inv.snxSlacks);
      PsdDualsKeys(b.barsj, inv.psdDims);
      assert r.id in Ids(inv.ySlacks);
    }
    assert r.id in y && y[r.id] == SliceValue(b.y, TotalLen(inv.sucSlacks) + Offset(inv.ySlacks, k), r.dim) by {
      TableDual(b.y, TotalLen(inv.sucSlacks), YSlice(b, inv), inv.ySlacks, k);
    }
    LookupInUnion(s, y, x, p, r.id);
  }

  /** Equality constraint k receives the slice of the row duals that starts after all
      inequality rows, at the sum of the earlier equality lengths. */
  lemma InvertEqDual(res: TaskResult, inv: InverseData, k: nat)
    requires Readable(Pool(res, SolTypeOf(inv)), inv) && UniqueIds(AllRefs(inv))
    requires InvertOf(res, inv).Success? && SolutionPresent(InvertOf(res, inv).value.status)
    requires k < |inv.ySlacks|
    ensures var b := Pool(res, SolTypeOf(inv));
      var r := inv.ySlacks[k];
      && TotalLen(inv.sucSlacks) + Offset(inv.ySlacks, k) + r.dim <= |b.y|
      && r.id in InvertOf(res, inv).value.duals.value
      && InvertOf(res, inv).value.duals.value[r.id]
         == SliceValue(b.y, TotalLen(inv.sucSlacks) + Offset(inv.ySlacks, k), r.dim)
  {
    PresentDuals(res, inv);
    AllRefsSplit(inv);
    AllDualsEq(Pool(res, SolTypeOf(inv)), inv, k);
  }

  /** The slack table's entries in the union of all duals. */
  lemma AllDualsCone(b: SolBuffers, inv: InverseData, k: nat)
    requires Readable(b, inv)
    requires UniqueIds(inv.snxSlacks) && Ids(inv.snxSlacks) !! Ids(inv.psdDims)
    requires k < |inv.snxSlacks|
    ensures var r := inv.snxSlacks[k];
      && inv.n0 + Offset(inv.snxSlacks, k) + r.dim <= |b.snx|
      && r.id in AllDuals(b, inv)
      && AllDuals(b, inv)[r.id] == SliceValue(b.snx, inv.n0 + Offset(inv.snxSlacks, k), r.dim)
  {
    var r := inv.snxSlacks[k];
    var s, y, x, p := DualMap(SucSlice(b, inv), inv.sucSlacks), DualMap(YSlice(b, inv), inv.ySlacks),
      DualMap(SnxSlice(b, inv), inv.snxSlacks), PsdDuals(b.barsj, inv.psdDims);
    assert r.id !in p by {
      PsdDualsKeys(b.barsj, inv.psdDims);
      assert r.id in Ids(inv.snxSlacks);
    }
    assert r.id in x && x[r.id] == SliceValue(b.snx, inv.n0 + Offset(inv.snxSlacks, k), r.dim) by {
      TableDual(b.snx, inv.n0, SnxSlice(b, inv), inv.snxSlacks, k);
    }
    LookupInUnion(s, y, x, p, r.id);
  }

  /** SOC or ExpCone constraint k receives the slice of the slack duals that starts at
      variable n0 plus the sum of the earlier cone lengths. */
  lemma InvertConeDual(res: TaskResult, inv: InverseData, k: nat)
    requires Readable(Pool(res, SolTypeOf(inv)), inv) && UniqueIds(AllRefs(inv))
    requires InvertOf(res, inv).Success? && SolutionPresent(InvertOf(res, inv).value.status)
    requires k < |inv.snxSlacks|
    ensures var b := Pool(res, SolTypeOf(inv));
      var r := inv.snxSlacks[k];
      && inv.n0 + Offset(inv.snxSlacks, k) + r.dim <= |b.snx|
      && r.id in InvertOf(res, inv).value.duals.value
      && InvertOf(res, inv).value.duals.value[r.id] == SliceValue(b.snx, inv.n0 + Offset(inv.snxSlacks, k), r.dim)
  {
    PresentDuals(res, inv);
    AllRefsSplit(inv);
    AllDualsCone(Pool(res, SolTypeOf(inv)), inv, k);
  }

  /** PSD constraint j receives the symmetric dim x dim matrix decoded from matrix
      variable j. */
  lemma InvertPsdDual(res: TaskResult, inv: InverseData, j: nat)
    requires Readable(Pool(res, SolTypeOf(inv)), inv) && UniqueIds(AllRefs(inv))
    requires InvertOf(res, inv).Success? && SolutionPresent(InvertOf(res, inv).value.status)
    requires j < |inv.psdDims|
    ensures var b := Pool(res, SolTypeOf(inv));
      var r := inv.psdDims[j];
      && |b.barsj[j]| == SymMatrix.TriSize(r.dim)
      && r.id in InvertOf(res, inv).value.duals.value
      && InvertOf(res, inv).value.duals.value[r.id] == Mat(SymMatrix.LowerTriMat(b.barsj[j], r.dim))
      && SymMatrix.IsSquare(SymMatrix.LowerTriMat(b.barsj[j], r.dim), r.dim)
      && SymMatrix.IsSymmetric(SymMatrix.LowerTriMat(b.barsj[j], r.dim), r.dim)
  {
    var b := Pool(res, SolTypeOf(inv));
    AllRefsSplit(inv);
    PsdDualsAt(b.barsj, inv.psdDims, j);
    SymMatrix.LowerTriMatShape(b.barsj[j], inv.psdDims[j].dim);
  }

  // ---------------------------------------------------------------- invert against the task

  /** The buffers MOSEK fills for task t: x and the slack duals have one entry per
      variable, the row duals one entry per constraint, and getbarsj one half vector per
      matrix variable. */
  predicate BuffersOf(b: SolBuffers, t: Bridge.Task)
  {
    |b.xx| == t.numVars && |b.snx| == t.numVars && |b.suc| == t.numCons && |b.y| == t.numCons &&
    |b.barsj| == |t.barVars| && forall j :: 0 <= j < |t.barVars| ==> |b.barsj[j]| == SymMatrix.TriSize(t.barVars[j])
  }

  /** The windows invert reads lie inside the task solve_via_data builds from the same
      problem: the inequality duals are the first dims.leq rows, the equality duals end
      within the rows, the slack duals end exactly at the last variable, and the slack
      cones end there too. */
  lemma WindowsWithinTask(p: Problem, settings: seq<Params.Setting>)
    requires WellFormedProblem(p)
    ensures var d, inv := DataOf(p), InverseOf(p);
      var t := Bridge.TaskOf(d, settings);
      && TotalLen(inv.sucSlacks) == d.dims.leq
      && TotalLen(inv.sucSlacks) + TotalLen(inv.ySlacks) <= t.numCons
      && inv.n0 == |d.c|
      && inv.n0 + TotalLen(inv.snxSlacks) == t.numVars
      && |d.c| + Sum(d.dims.soc) + 3 * (Sum(d.dims.exp) / 3) == Bridge.NumVars(d)
  {
    ApplyLayout(p);
    InverseMatchesDims(p);
  }

  /** The PSD table of the inverse data lists the dims the task's matrix variables get. */
  lemma PsdTableMatchesDims(p: Problem)
    ensures |InverseOf(p).psdDims| == |DataOf(p).dims.psd|
    ensures forall j :: 0 <= j < |InverseOf(p).psdDims| ==> InverseOf(p).psdDims[j].dim == DataOf(p).dims.psd[j]
  {
  }

  /** Buffers of the size the task from the same problem has are long enough for every
      read of invert, unless the problem has PSD constraints that are all 0 x 0: then the
      task declares no matrix variable and there is no half vector to read. */
  lemma TaskBuffersReadable(p: Problem, settings: seq<Params.Setting>, b: SolBuffers)
    requires WellFormedProblem(p)
    requires BuffersOf(b, Bridge.TaskOf(DataOf(p), settings))
    ensures Readable(b, InverseOf(p)) <==> |InverseOf(p).psdDims| == 0 || Sum(Squares(DataOf(p).dims.psd)) > 0
  {
    WindowsWithinTask(p, settings);
    PsdTableMatchesDims(p);
  }
}
