/** The conic encoder (`MOSEK.block_format` and `MOSEK.apply`): constraints are grouped
    by cone kind and stacked into one system `G z <=_K h` in the fixed order NonPos, Zero,
    SOC, ExpCone, PSD, while the (id, length) tables that later decode the duals are
    recorded in the inverse data. */
module Encoder {

  import opened Common
  import opened DualSplit

  datatype ConeKind = NonPos | Zero | SOC(coneSizes: seq<nat>) | ExpCone | PSD(psdDim: nat)

  /** A standard-form constraint together with what the affine-flattening collaborator
      returns for it: coefficient rows and an offset with `coeff * z <=_K offset`. */
  datatype Constraint = Constraint(id: Id, kind: ConeKind, coeff: Matrix, offset: seq<real>)

  /** What block_format returns for a non-empty list: the stacked rows and offsets, the
      offset length of every constraint and every constraint's id. */
  datatype Block = Block(coeff: Matrix, offset: seq<real>, lengths: seq<nat>, ids: seq<Id>)

  /** The standard-form problem apply receives: one variable vector (its id and its boolean
      and integer positions), the objective's coefficients and constant, and the constraints. */
  datatype Problem = Problem(varId: Id, boolIdx: seq<nat>, intIdx: seq<nat>, c: seq<real>,
                             constant: real, constraints: seq<Constraint>)

  /** The `dims` record: rows of inequalities and equations, SOC cone sizes, ExpCone block
      lengths and PSD block dimensions. */
  datatype Dims = Dims(leq: nat, eq: nat, soc: seq<nat>, exp: seq<nat>, psd: seq<nat>)

  datatype Data = Data(c: seq<real>, objOffset: real, boolIdx: seq<nat>, intIdx: seq<nat>,
                       dims: Dims, g: Matrix, h: seq<real>)

  /** The inverse data: the (id, length) tables of the inequality ("suc"), equality ("y")
      and SOC/ExpCone ("snx") duals, the (id, dim) table of the PSD constraints, and what
      decoding needs besides. */
  datatype InverseData = InverseData(varId: Id, sucSlacks: seq<Ref>, ySlacks: seq<Ref>,
                                     snxSlacks: seq<Ref>, psdDims: seq<Ref>,
                                     integerVariables: bool, n0: nat, objOffset: real)

  datatype Applied = Applied(data: Data, inv: InverseData)

  /** Stacking an empty tuple of blocks fails: this happens when there are no constraints. */
  datatype ApplyError = NothingToStack

  datatype Kind = KNonPos | KZero | KSoc | KExp | KPsd

  function KindOf(k: ConeKind): Kind
  {
    match k
    case NonPos => KNonPos
    case Zero => KZero
    case SOC(_) => KSoc
    case ExpCone => KExp
    case PSD(_) => KPsd
  }

  /** The constraints of one kind, in input order. */
  function OfKind(cons: seq<Constraint>, t: Kind): seq<Constraint>
  {
    if |cons| == 0 then []
    else
      var n := |cons| - 1;
      OfKind(cons[..n], t) + (if KindOf(cons[n].kind) == t then [cons[n]] else [])
  }

  /** Partitioning keeps exactly the constraints of the requested kind. */
  lemma {:induction false} OfKindMembers(cons: seq<Constraint>, t: Kind)
    ensures forall x :: x in OfKind(cons, t) <==> x in cons && KindOf(x.kind) == t
    decreases |cons|
  {
    if |cons| > 0 {
      var n := |cons| - 1;
      OfKindMembers(cons[..n], t);
      assert cons == cons[..n] + [cons[n]];
    }
  }

  /** Every constraint falls in one of the five kinds, so all five lists are empty exactly
      when there are no constraints. */
  lemma {:induction false} OfKindAllEmpty(cons: seq<Constraint>)
    ensures cons == [] <==>
      OfKind(cons, KNonPos) == [] && OfKind(cons, KZero) == [] && OfKind(cons, KSoc) == [] &&
      OfKind(cons, KExp) == [] && OfKind(cons, KPsd) == []
  {
    if cons != [] {
      var t := KindOf(cons[0].kind);
      OfKindMembers(cons, t);
      assert cons[0] in OfKind(cons, t);
    }
  }

  function Coeffs(cons: seq<Constraint>): (r: seq<Matrix>)
    ensures |r| == |cons| && forall k :: 0 <= k < |cons| ==> r[k] == cons[k].coeff
  {
    seq(|cons|, k requires 0 <= k < |cons| => cons[k].coeff)
  }

  function Offsets(cons: seq<Constraint>): (r: seq<seq<real>>)
    ensures |r| == |cons| && forall k :: 0 <= k < |cons| ==> r[k] == cons[k].offset
  {
    seq(|cons|, k requires 0 <= k < |cons| => cons[k].offset)
  }

  /** The (id, offset length) table of a list of constraints. */
  function Refs(cons: seq<Constraint>): (r: seq<Ref>)
    ensures |r| == |cons| && forall k :: 0 <= k < |cons| ==> r[k] == Ref(cons[k].id, |cons[k].offset|)
  {
    seq(|cons|, k requires 0 <= k < |cons| => Ref(cons[k].id, |cons[k].offset|))
  }

  function ConeSizes(con: Constraint): seq<nat>
  {
    if con.kind.SOC? then con.kind.coneSizes else []
  }

  /** Every SOC constraint's cone sizes, flattened in order. */
  function SocSizes(cons: seq<Constraint>): seq<nat>
  {
    Concat(seq(|cons|, k requires 0 <= k < |cons| => ConeSizes(cons[k])))
  }

  function PsdDimOf(con: Constraint): nat
  {
    if con.kind.PSD? then con.kind.psdDim else 0
  }

  function PsdDims(cons: seq<Constraint>): (r: seq<nat>)
    ensures |r| == |cons| && forall k :: 0 <= k < |cons| ==> r[k] == PsdDimOf(cons[k])
  {
    seq(|cons|, k requires 0 <= k < |cons| => PsdDimOf(cons[k]))
  }

  /** The (id, dim) table of the PSD constraints. */
  function PsdRefs(cons: seq<Constraint>): (r: seq<Ref>)
    ensures |r| == |cons| && forall k :: 0 <= k < |cons| ==> r[k] == Ref(cons[k].id, PsdDimOf(cons[k]))
  {
    seq(|cons|, k requires 0 <= k < |cons| => Ref(cons[k].id, PsdDimOf(cons[k])))
  }

  lemma {:induction false} TotalLenRefs(cons: seq<Constraint>)
    ensures TotalLen(Refs(cons)) == Sum(Lens(Offsets(cons)))
    decreases |cons|
  {
    if |cons| > 0 {
      var n := |cons| - 1;
      TotalLenRefs(cons[..n]);
      assert Refs(cons)[..n] == Refs(cons[..n]);
      assert Lens(Offsets(cons))[..n] == Lens(Offsets(cons[..n]));
    }
  }

  /** Entries Sum(lengths[..k]) .. Sum(lengths[..k + 1]) - 1 of a stacked vector: the
      piece that belongs to the k-th stacked part. */
  function Piece<T>(s: seq<T>, lengths: seq<nat>, k: nat): seq<T>
    requires k < |lengths| && Sum(lengths) <= |s|
  {
    SumPrefixStep(lengths, k);
    SumPrefixMono(lengths, k + 1, |lengths|);
    SumWhole(lengths);
    s[Sum(lengths[..k]) .. Sum(lengths[..k + 1])]
  }

  /** block_format: stack the constraints' rows and offsets, recording each one's offset
      length and id. Cutting the stacked offset at the running sums of the lengths gives
      every constraint's own offset back, in input order. */
  method BlockFormat(cons: seq<Constraint>) returns (r: Option<Block>)
    ensures r.None? <==> cons == []
    ensures r.Some? ==>
      |r.value.lengths| == |r.value.ids| == |cons| &&
      (forall k :: 0 <= k < |cons| ==> r.value.lengths[k] == |cons[k].offset| && r.value.ids[k] == cons[k].id) &&
      r.value.coeff == Concat(Coeffs(cons)) &&
      r.value.offset == Concat(Offsets(cons)) &&
      |r.value.offset| == Sum(r.value.lengths)
    ensures r.Some? ==> forall k :: 0 <= k < |cons| ==> Piece(r.value.offset, r.value.lengths, k) == cons[k].offset
  {
    if cons == [] {
      return None;
    }
    var matrices: seq<Matrix> := [];
    var offsets: seq<seq<real>> := [];
    var lengths: seq<nat> := [];
    var ids: seq<Id> := [];
    for k := 0 to |cons|
      invariant matrices == Coeffs(cons)[..k]
      invariant offsets == Offsets(cons)[..k]
      invariant lengths == Lens(Offsets(cons))[..k]
      invariant |ids| == k && forall l :: 0 <= l < k ==> ids[l] == cons[l].id
    {
      matrices := matrices + [cons[k].coeff];
      offsets := offsets + [cons[k].offset];
      lengths := lengths + [|cons[k].offset|];
      ids := ids + [cons[k].id];
    }
    assert Coeffs(cons)[..|cons|] == Coeffs(cons);
    assert Offsets(cons)[..|cons|] == Offsets(cons);
    assert Lens(Offsets(cons))[..|cons|] == Lens(Offsets(cons));
    ConcatLength(offsets);
    forall k | 0 <= k < |cons|
      ensures Piece(Concat(offsets), lengths, k) == cons[k].offset
    {
      ConcatSlice(offsets, k);
    }
    r := Some(Block(Concat(matrices), Concat(offsets), lengths, ids));
  }

  /** What the affine-flattening collaborator guarantees for one constraint: as many
      coefficient rows as offset entries, each as wide as the variable vector, an SOC
      offset as long as its cone sizes add up to, ExpCone offsets in whole triples, and
      dim * dim rows for a PSD constraint. */
  predicate WellFormedConstraint(con: Constraint, n0: nat)
  {
    |con.coeff| == |con.offset| &&
    (forall row :: row in con.coeff ==> |row| == n0) &&
    match con.kind
    case SOC(sizes) => |con.offset| == Sum(sizes)
    case ExpCone => |con.offset| % 3 == 0
    case PSD(d) => |con.offset| == d * d
    case _ => true
  }

  predicate WellFormedProblem(p: Problem)
  {
    (forall con :: con in p.constraints ==> WellFormedConstraint(con, |p.c|)) &&
    (forall i :: i in p.boolIdx ==> i < |p.c|) &&
    (forall i :: i in p.intIdx ==> i < |p.c|)
  }

  /** The layout the solver bridge relies on: G and h have one row per stacked row, every
      row of G is as wide as c, the dims account for exactly the rows of h, the ExpCone
      rows come in whole triples, and integrality positions lie within c. */
  predicate WellFormedData(d: Data)
  {
    |d.g| == |d.h| &&
    (forall row :: row in d.g ==> |row| == |d.c|) &&
    d.dims.leq + d.dims.eq + Sum(d.dims.soc) + Sum(d.dims.exp) + Sum(Squares(d.dims.psd)) == |d.h| &&
    Sum(d.dims.exp) % 3 == 0 &&
    (forall i :: i in d.boolIdx ==> i < |d.c|) &&
    (forall i :: i in d.intIdx ==> i < |d.c|)
  }

  lemma {:induction false} SocRowsMatchSizes(cons: seq<Constraint>)
    requires forall x :: x in cons ==> |x.offset| == Sum(ConeSizes(x))
    ensures Sum(Lens(Offsets(cons))) == Sum(SocSizes(cons))
    decreases |cons|
  {
    if |cons| > 0 {
      var n := |cons| - 1;
      SocRowsMatchSizes(cons[..n]);
      assert Lens(Offsets(cons))[..n] == Lens(Offsets(cons[..n]));
      var parts := seq(|cons|, k requires 0 <= k < |cons| => ConeSizes(cons[k]));
      assert parts[..n] == seq(n, k requires 0 <= k < n => ConeSizes(cons[..n][k]));
      SumAppend(SocSizes(cons[..n]), ConeSizes(cons[n]));
      assert cons[n] in cons;
    }
  }

  lemma {:induction false} ExpRowsInTriples(cons: seq<Constraint>)
    requires forall x :: x in cons ==> |x.offset| % 3 == 0
    ensures Sum(Lens(Offsets(cons))) % 3 == 0
    decreases |cons|
  {
    if |cons| > 0 {
      var n := |cons| - 1;
      ExpRowsInTriples(cons[..n]);
      assert Lens(Offsets(cons))[..n] == Lens(Offsets(cons[..n]));
      assert cons[n] in cons;
      SumPrefixStep(Lens(Offsets(cons)), n);
      SumWhole(Lens(Offsets(cons)));
    }
  }

  lemma {:induction false} PsdRowsAreSquares(cons: seq<Constraint>)
    requires forall x :: x in cons ==> |x.offset| == PsdDimOf(x) * PsdDimOf(x)
    ensures Sum(Lens(Offsets(cons))) == Sum(Squares(PsdDims(cons)))
    decreases |cons|
  {
    if |cons| > 0 {
      var n := |cons| - 1;
      PsdRowsAreSquares(cons[..n]);
      assert Lens(Offsets(cons))[..n] == Lens(Offsets(cons[..n]));
      assert Squares(PsdDims(cons))[..n] == Squares(PsdDims(cons[..n]));
      assert cons[n] in cons;
    }
  }

  /** One constraint kind's stacked rows: as many as its offsets, each as wide as c. */
  lemma StackedRows(cons: seq<Constraint>, n0: nat)
    requires forall x :: x in cons ==> WellFormedConstraint(x, n0)
    ensures |Concat(Coeffs(cons))| == |Concat(Offsets(cons))| == Sum(Lens(Offsets(cons)))
    ensures forall row :: row in Concat(Coeffs(cons)) ==> |row| == n0
  {
    ConcatLength(Coeffs(cons));
    ConcatLength(Offsets(cons));
    forall k | 0 <= k < |cons|
      ensures |cons[k].coeff| == |cons[k].offset|
    {
      assert cons[k] in cons;
    }
    assert Lens(Coeffs(cons)) == Lens(Offsets(cons));
    forall row | row in Concat(Coeffs(cons))
      ensures |row| == n0
    {
      ConcatMember(Coeffs(cons), row);
      var k :| 0 <= k < |cons| && row in Coeffs(cons)[k];
      assert cons[k] in cons;
    }
  }

  /** The stacked matrix G: the rows of the NonPos, Zero, SOC, ExpCone and PSD
      constraints, in that order and in input order within each kind. */
  function StackG(cs: seq<Constraint>): Matrix
  {
    Concat(Coeffs(OfKind(cs, KNonPos))) + Concat(Coeffs(OfKind(cs, KZero))) + Concat(Coeffs(OfKind(cs, KSoc)))
      + Concat(Coeffs(OfKind(cs, KExp))) + Concat(Coeffs(OfKind(cs, KPsd)))
  }

  /** The stacked offset h, in the same order as G. */
  function StackH(cs: seq<Constraint>): seq<real>
  {
    Concat(Offsets(OfKind(cs, KNonPos))) + Concat(Offsets(OfKind(cs, KZero))) + Concat(Offsets(OfKind(cs, KSoc)))
      + Concat(Offsets(OfKind(cs, KExp))) + Concat(Offsets(OfKind(cs, KPsd)))
  }

  /** The dims record apply writes. */
  function DimsOf(cs: seq<Constraint>): Dims
  {
    Dims(Sum(Lens(Offsets(OfKind(cs, KNonPos)))), Sum(Lens(Offsets(OfKind(cs, KZero)))),
         SocSizes(OfKind(cs, KSoc)), Lens(Offsets(OfKind(cs, KExp))), PsdDims(OfKind(cs, KPsd)))
  }

  /** The inverse data apply records: the NonPos table for the inequality duals, the Zero
      table for the equality duals, the SOC table followed by the ExpCone table for the
      slack duals, and the PSD (id, dim) table. */
  function InverseOf(p: Problem): InverseData
  {
    var cs := p.constraints;
    InverseData(p.varId, Refs(OfKind(cs, KNonPos)), Refs(OfKind(cs, KZero)),
                Refs(OfKind(cs, KSoc)) + Refs(OfKind(cs, KExp)), PsdRefs(OfKind(cs, KPsd)),
                |p.boolIdx| + |p.intIdx| > 0, |p.c|, p.constant)
  }

  function DataOf(p: Problem): Data
  {
    Data(p.c, p.constant, p.boolIdx, p.intIdx, DimsOf(p.constraints), StackG(p.constraints), StackH(p.constraints))
  }

  /** The stacked system apply builds from a well-formed problem has the layout the solver
      bridge relies on. */
  lemma ApplyLayout(p: Problem)
    requires WellFormedProblem(p)
    ensures WellFormedData(DataOf(p))
  {
    StackRows(p.constraints, |p.c|);
    StackDims(p.constraints, |p.c|);
  }

  /** The constraints of one kind inherit well-formedness and stack into as many
      coefficient rows as offset entries, each as wide as c. */
  lemma KindRows(cs: seq<Constraint>, t: Kind, n0: nat)
    requires forall con :: con in cs ==> WellFormedConstraint(con, n0)
    ensures forall x :: x in OfKind(cs, t) ==> WellFormedConstraint(x, n0) && KindOf(x.kind) == t
    ensures |Concat(Coeffs(OfKind(cs, t)))| == |Concat(Offsets(OfKind(cs, t)))| == Sum(Lens(Offsets(OfKind(cs, t))))
    ensures forall row :: row in Concat(Coeffs(OfKind(cs, t))) ==> |row| == n0
  {
    OfKindMembers(cs, t);
    StackedRows(OfKind(cs, t), n0);
  }

  /** G has one row per entry of h, and every row of G is as wide as c. */
  lemma StackRows(cs: seq<Constraint>, n0: nat)
    requires forall con :: con in cs ==> WellFormedConstraint(con, n0)
    ensures |StackG(cs)| == |StackH(cs)|
    ensures forall row :: row in StackG(cs) ==> |row| == n0
  {
    KindRows(cs, KNonPos, n0);
    KindRows(cs, KZero, n0);
    KindRows(cs, KSoc, n0);
    KindRows(cs, KExp, n0);
    KindRows(cs, KPsd, n0);
    var a, b, c, d, e := Concat(Coeffs(OfKind(cs, KNonPos))), Concat(Coeffs(OfKind(cs, KZero))),
      Concat(Coeffs(OfKind(cs, KSoc))), Concat(Coeffs(OfKind(cs, KExp))), Concat(Coeffs(OfKind(cs, KPsd)));
    forall row | row in StackG(cs)
      ensures |row| == n0
    {
      assert StackG(cs) == a + b + c + d + e;
      assert row in a || row in b || row in c || row in d || row in e;
    }
  }

  /** The dims account for exactly the rows of h, and the ExpCone rows come in triples. */
  lemma StackDims(cs: seq<Constraint>, n0: nat)
    requires forall con :: con in cs ==> WellFormedConstraint(con, n0)
    ensures DimsOf(cs).leq + DimsOf(cs).eq + Sum(DimsOf(cs).soc) + Sum(DimsOf(cs).exp)
      + Sum(Squares(DimsOf(cs).psd)) == |StackH(cs)|
    ensures Sum(DimsOf(cs).exp) % 3 == 0
  {
    KindRows(cs, KNonPos, n0);
    KindRows(cs, KZero, n0);
    SocKindRows(cs, n0);
    ExpKindRows(cs, n0);
    PsdKindRows(cs, n0);
  }

  lemma SocKindRows(cs: seq<Constraint>, n0: nat)
    requires forall con :: con in cs ==> WellFormedConstraint(con, n0)
    ensures |Concat(Offsets(OfKind(cs, KSoc)))| == Sum(SocSizes(OfKind(cs, KSoc)))
  {
    var soc := OfKind(cs, KSoc);
    KindRows(cs, KSoc, n0);
    forall x | x in soc
      ensures |x.offset| == Sum(ConeSizes(x))
    {
      assert WellFormedConstraint(x, n0);
    }
    SocRowsMatchSizes(soc);
  }

  lemma ExpKindRows(cs: seq<Constraint>, n0: nat)
    requires forall con :: con in cs ==> WellFormedConstraint(con, n0)
    ensures |Concat(Offsets(OfKind(cs, KExp)))| == Sum(Lens(Offsets(OfKind(cs, KExp))))
    ensures Sum(Lens(Offsets(OfKind(cs, KExp)))) % 3 == 0
  {
    var exp := OfKind(cs, KExp);
    KindRows(cs, KExp, n0);
    forall x | x in exp
      ensures |x.offset| % 3 == 0
    {
      assert WellFormedConstraint(x, n0);
    }
    ExpRowsInTriples(exp);
  }

  lemma PsdKindRows(cs: seq<Constraint>, n0: nat)
    requires forall con :: con in cs ==> WellFormedConstraint(con, n0)
    ensures |Concat(Offsets(OfKind(cs, KPsd)))| == Sum(Squares(PsdDims(OfKind(cs, KPsd))))
  {
    var psd := OfKind(cs, KPsd);
    KindRows(cs, KPsd, n0);
    forall x | x in psd
      ensures |x.offset| == PsdDimOf(x) * PsdDimOf(x)
    {
      assert WellFormedConstraint(x, n0);
    }
    PsdRowsAreSquares(psd);
  }

  /** The inverse-data tables account for exactly the rows and slack variables the
      decoder reads: the inequality table for the first dims.leq rows, the equality table
      for the next dims.eq rows, and the slack table for one slack per SOC and ExpCone row. */
  lemma InverseMatchesDims(p: Problem)
    requires WellFormedProblem(p)
    ensures TotalLen(InverseOf(p).sucSlacks) == DataOf(p).dims.leq
    ensures TotalLen(InverseOf(p).ySlacks) == DataOf(p).dims.eq
    ensures TotalLen(InverseOf(p).snxSlacks) == Sum(DataOf(p).dims.soc) + Sum(DataOf(p).dims.exp)
  {
    var cs := p.constraints;
    var soc, exp := OfKind(cs, KSoc), OfKind(cs, KExp);
    TotalLenRefs(OfKind(cs, KNonPos));
    TotalLenRefs(OfKind(cs, KZero));
    TotalLenRefs(soc);
    TotalLenRefs(exp);
    TotalLenAppend(Refs(soc), Refs(exp));
    OfKindMembers(cs, KSoc);
    assert forall x :: x in soc ==> |x.offset| == Sum(ConeSizes(x)) by {
      forall x | x in soc ensures |x.offset| == Sum(ConeSizes(x)) { assert WellFormedConstraint(x, |p.c|); }
    }
    SocRowsMatchSizes(soc);
  }

  /** Inequality rows come first and equality rows next: h begins with the NonPos offsets
      (dims.leq entries), followed by the Zero offsets (dims.eq entries). */
  lemma InequalitiesFirst(cs: seq<Constraint>)
    ensures DimsOf(cs).leq + DimsOf(cs).eq <= |StackH(cs)|
    ensures StackH(cs)[..DimsOf(cs).leq] == Concat(Offsets(OfKind(cs, KNonPos)))
    ensures StackH(cs)[DimsOf(cs).leq .. DimsOf(cs).leq + DimsOf(cs).eq] == Concat(Offsets(OfKind(cs, KZero)))
  {
    ConcatLength(Offsets(OfKind(cs, KNonPos)));
    ConcatLength(Offsets(OfKind(cs, KZero)));
    FrontOfFive(Concat(Offsets(OfKind(cs, KNonPos))), Concat(Offsets(OfKind(cs, KZero))), Concat(Offsets(OfKind(cs, KSoc))),
                Concat(Offsets(OfKind(cs, KExp))), Concat(Offsets(OfKind(cs, KPsd))));
  }

  /** One kind's share of apply: when there are constraints of the kind, run
      block_format, turn its (lengths, ids) into the (id, length) table of the inverse data,
      and append the stacked block to the lists that are stacked at the end; otherwise
      change nothing. */
  method StackKind(cons: seq<Constraint>, As: seq<Matrix>, bs: seq<seq<real>>)
    returns (table: seq<Ref>, lengths: seq<nat>, As': seq<Matrix>, bs': seq<seq<real>>)
    ensures table == Refs(cons) && lengths == Lens(Offsets(cons))
    ensures As' == As + StackedOrNone(Coeffs(cons))
    ensures bs' == bs + StackedOrNone(Offsets(cons))
  {
    table, lengths, As', bs' := [], [], As, bs;
    if |cons| > 0 {
      var blk := BlockFormat(cons);
      var r := blk.value;
      table := seq(|r.lengths|, k requires 0 <= k < |r.lengths| => Ref(r.ids[k], r.lengths[k]));
      lengths := r.lengths;
      As', bs' := As + [r.coeff], bs + [r.offset];
    }
  }

  /** The PSD share of apply: one block per constraint, each recorded with its dimension. */
  method StackPsd(psd: seq<Constraint>, As: seq<Matrix>, bs: seq<seq<real>>)
    returns (psdDims: seq<Ref>, dimsPsd: seq<nat>, As': seq<Matrix>, bs': seq<seq<real>>)
    ensures psdDims == PsdRefs(psd) && dimsPsd == PsdDims(psd)
    ensures As' == As + Coeffs(psd) && bs' == bs + Offsets(psd)
  {
    psdDims, dimsPsd, As', bs' := [], [], As, bs;
    for k := 0 to |psd|
      invariant psdDims == PsdRefs(psd)[..k]
      invariant dimsPsd == PsdDims(psd)[..k]
      invariant As' == As + Coeffs(psd)[..k]
      invariant bs' == bs + Offsets(psd)[..k]
    {
      psdDims := psdDims + [Ref(psd[k].id, PsdDimOf(psd[k]))];
      dimsPsd := dimsPsd + [PsdDimOf(psd[k])];
      As', bs' := As' + [psd[k].coeff], bs' + [psd[k].offset];
      assert Coeffs(psd)[..k + 1] == Coeffs(psd)[..k] + [psd[k].coeff];
      assert Offsets(psd)[..k + 1] == Offsets(psd)[..k] + [psd[k].offset];
    }
    assert PsdRefs(psd)[..|psd|] == PsdRefs(psd);
    assert PsdDims(psd)[..|psd|] == PsdDims(psd);
    assert Coeffs(psd)[..|psd|] == Coeffs(psd);
    assert Offsets(psd)[..|psd|] == Offsets(psd);
  }

  /** apply: partition by kind, stack in the order NonPos, Zero, SOC, ExpCone, PSD, and
      record the dims and the inverse-data tables. A kind without constraints leaves its
      dims entry at the initial 0 or empty list, which is what the sum or list of no
      lengths is. */
  method Apply(p: Problem) returns (r: Result<Applied, ApplyError>)
    ensures r.Failure? <==> p.constraints == []
    ensures r.Success? ==> r.value == Applied(DataOf(p), InverseOf(p))
  {
    var cs := p.constraints;
    var integerVariables := |p.boolIdx| + |p.intIdx| > 0;
    var leq, eq, soc, exp, psd := OfKind(cs, KNonPos), OfKind(cs, KZero), OfKind(cs, KSoc), OfKind(cs, KExp), OfKind(cs, KPsd);

    // Linear inequalities, then linear equations.
    var suc, leqLengths, As1, bs1 := StackKind(leq, [], []);
    var y, eqLengths, As2, bs2 := StackKind(eq, As1, bs1);

    // Second-order cones, then exponential cones; both feed the slack table.
    var socTable, socLengths, As3, bs3 := StackKind(soc, As2, bs2);
    var expTable, expLengths, As4, bs4 := StackKind(exp, As3, bs3);
    var snx := socTable + expTable;

    // Linear matrix inequalities, one block per constraint.
    var psdDims, psdDimList, As, bs := StackPsd(psd, As4, bs4);

    var dims := Dims(Sum(leqLengths), Sum(eqLengths), SocSizes(soc), expLengths, psdDimList);
    OfKindAllEmpty(cs);
    if |As| == 0 {
      return Failure(NothingToStack);
    }
    ConcatFiveGroups(Coeffs(leq), Coeffs(eq), Coeffs(soc), Coeffs(exp), Coeffs(psd));
    ConcatFiveGroups(Offsets(leq), Offsets(eq), Offsets(soc), Offsets(exp), Offsets(psd));
    var data := Data(p.c, p.constant, p.boolIdx, p.intIdx, dims, Concat(As), Concat(bs));
    var inv := InverseData(p.varId, suc, y, snx, psdDims, integerVariables, |p.c|, p.constant);
    r := Success(Applied(data, inv));
  }
}
