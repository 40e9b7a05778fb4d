/** Splitting a flat dual buffer returned by MOSEK into per-constraint dual values
    (`MOSEK.parse_dual_vars`). A table of (id, dim) pairs says that the next dim entries
    of the buffer belong to constraint id; a slice of length 1 becomes a scalar, any
    other slice a vector. */
module DualSplit {

  import opened Common

  /** One (id, dim) pair of an inverse-data table. */
  datatype Ref = Ref(id: Id, dim: nat)

  /** A dual value handed back to the caller: a scalar, a vector, or (for a PSD
      constraint) a full symmetric matrix. */
  datatype DualValue = Scalar(x: real) | Vector(v: seq<real>) | Mat(m: seq<seq<real>>)

  /** Total number of buffer entries a table claims. */
  function TotalLen(refs: seq<Ref>): nat
  {
    if |refs| == 0 then 0 else TotalLen(refs[..|refs| - 1]) + refs[|refs| - 1].dim
  }

  /** The dims column of a table. */
  function RefDims(refs: seq<Ref>): (r: seq<nat>)
    ensures |r| == |refs| && forall k :: 0 <= k < |refs| ==> r[k] == refs[k].dim
  {
    seq(|refs|, k requires 0 <= k < |refs| => refs[k].dim)
  }

  /** A table's total is the sum of its dims column. */
  lemma {:induction false} TotalLenIsSum(refs: seq<Ref>)
    ensures TotalLen(refs) == Sum(RefDims(refs))
    decreases |refs|
  {
    if |refs| > 0 {
      assert RefDims(refs)[..|refs| - 1] == RefDims(refs[..|refs| - 1]);
      TotalLenIsSum(refs[..|refs| - 1]);
    }
  }

  lemma {:induction false} TotalLenAppend(a: seq<Ref>, b: seq<Ref>)
    ensures TotalLen(a + b) == TotalLen(a) + TotalLen(b)
    decreases |b|
  {
    if |b| == 0 {
      assert a + b == a;
    } else {
      assert (a + b)[..|a + b| - 1] == a + b[..|b| - 1];
      TotalLenAppend(a, b[..|b| - 1]);
    }
  }

  /** Where the slice of entry k starts: the sum of the dims before it. */
  function Offset(refs: seq<Ref>, k: nat): nat
    requires k <= |refs|
  {
    TotalLen(refs[..k])
  }

  predicate UniqueIds(refs: seq<Ref>)
  {
    forall k, l :: 0 <= k < l < |refs| ==> refs[k].id != refs[l].id
  }

  function Ids(refs: seq<Ref>): set<Id>
  {
    set k | 0 <= k < |refs| :: refs[k].id
  }

  /** Successive slices are adjacent: entry k's slice ends where entry k + 1's begins. */
  lemma OffsetStep(refs: seq<Ref>, k: nat)
    requires k < |refs|
    ensures Offset(refs, k + 1) == Offset(refs, k) + refs[k].dim
  {
    assert refs[..k + 1][..k] == refs[..k];
  }

  lemma {:induction false} OffsetMono(refs: seq<Ref>, a: nat, b: nat)
    requires a <= b <= |refs|
    ensures Offset(refs, a) <= Offset(refs, b)
    decreases b - a
  {
    if a < b {
      OffsetMono(refs, a, b - 1);
      OffsetStep(refs, b - 1);
    }
  }

  /** Slices of different entries are disjoint and ordered, and all of them lie within
      the first TotalLen entries of the buffer. */
  lemma SlicesDisjoint(refs: seq<Ref>, k: nat, l: nat)
    requires k < l <= |refs|
    ensures Offset(refs, k) + refs[k].dim <= Offset(refs, l) <= TotalLen(refs)
  {
    OffsetStep(refs, k);
    OffsetMono(refs, k + 1, l);
    OffsetMono(refs, l, |refs|);
    assert refs[..|refs|] == refs;
  }

  /** The value of one slice: a scalar when it has length 1, a vector otherwise. */
  function SliceValue(buf: seq<real>, start: nat, dim: nat): DualValue
    requires start + dim <= |buf|
  {
    if dim == 1 then Scalar(buf[start]) else Vector(buf[start..start + dim])
  }

  /** The entries a dual value carries, in order. */
  function Flat(d: DualValue): seq<real>
  {
    match d
    case Scalar(x) => [x]
    case Vector(v) => v
    case Mat(m) => Concat(m)
  }

  /** The scalar/vector rule loses nothing: a slice's value carries exactly the slice. */
  lemma SliceValueFlat(buf: seq<real>, start: nat, dim: nat)
    requires start + dim <= |buf|
    ensures Flat(SliceValue(buf, start, dim)) == buf[start..start + dim]
    ensures SliceValue(buf, start, dim).Scalar? <==> dim == 1
  {
  }

  /** The dictionary parse_dual_vars builds: entries are written in table order, so a
      repeated id keeps the value of its last entry. */
  function DualMap(buf: seq<real>, refs: seq<Ref>): map<Id, DualValue>
    requires TotalLen(refs) <= |buf|
  {
    if |refs| == 0 then map[]
    else
      var n := |refs| - 1;
      DualMap(buf, refs[..n])[refs[n].id := SliceValue(buf, Offset(refs, n), refs[n].dim)]
  }

  lemma {:induction false} DualMapKeys(buf: seq<real>, refs: seq<Ref>)
    requires TotalLen(refs) <= |buf|
    ensures DualMap(buf, refs).Keys == Ids(refs)
    decreases |refs|
  {
    if |refs| > 0 {
      var n := |refs| - 1;
      DualMapKeys(buf, refs[..n]);
      assert Ids(refs) == Ids(refs[..n]) + {refs[n].id};
    }
  }

  /** With distinct ids, constraint k receives the slice that starts at the sum of the
      dims before it and has length dim_k. */
  lemma {:induction false} DualMapAt(buf: seq<real>, refs: seq<Ref>, k: nat)
    requires TotalLen(refs) <= |buf| && UniqueIds(refs) && k < |refs|
    ensures Offset(refs, k) + refs[k].dim <= |buf|
    ensures refs[k].id in DualMap(buf, refs)
    ensures DualMap(buf, refs)[refs[k].id] == SliceValue(buf, Offset(refs, k), refs[k].dim)
    decreases |refs|
  {
    var n := |refs| - 1;
    if k < n {
      SlicesDisjoint(refs, k, n);
      SlicesDisjoint(refs, n, |refs|);
      assert refs[..n][..k] == refs[..k];
      assert TotalLen(refs[..n]) <= TotalLen(refs) by {
        assert refs[..|refs|] == refs;
      }
      DualMapAt(buf, refs[..n], k);
    } else {
      assert refs[..|refs|] == refs;
      SlicesDisjoint(refs, k, |refs|);
    }
  }

  /** The slices, joined again in table order. */
  function Joined(buf: seq<real>, refs: seq<Ref>): seq<real>
    requires TotalLen(refs) <= |buf|
  {
    if |refs| == 0 then []
    else
      var n := |refs| - 1;
      Joined(buf, refs[..n]) + Flat(SliceValue(buf, Offset(refs, n), refs[n].dim))
  }

  /** Cutting the buffer and joining the pieces again gives back exactly its first
      TotalLen entries: no entry is skipped, repeated or reordered. */
  lemma {:induction false} JoinedIsPrefix(buf: seq<real>, refs: seq<Ref>)
    requires TotalLen(refs) <= |buf|
    ensures Joined(buf, refs) == buf[..TotalLen(refs)]
    decreases |refs|
  {
    if |refs| > 0 {
      var n := |refs| - 1;
      var before, total := TotalLen(refs[..n]), TotalLen(refs);
      assert total == before + refs[n].dim;
      JoinedIsPrefix(buf, refs[..n]);
      SliceValueFlat(buf, before, refs[n].dim);
      assert Joined(buf, refs) == buf[..before] + buf[before..total];
      assert buf[..total] == buf[..before] + buf[before..total];
    }
  }

  /** parse_dual_vars: walk the table with a running index, storing each slice's value
      under its id. */
  method ParseDualVars(buf: seq<real>, refs: seq<Ref>) returns (duals: map<Id, DualValue>)
    requires TotalLen(refs) <= |buf|
    ensures duals == DualMap(buf, refs)
    ensures duals.Keys == Ids(refs)
    ensures UniqueIds(refs) ==> forall k :: 0 <= k < |refs| ==>
      Offset(refs, k) + refs[k].dim <= |buf| && duals[refs[k].id] == SliceValue(buf, Offset(refs, k), refs[k].dim)
  {
    duals := map[];
    var runningIdx := 0;
    for k := 0 to |refs|
      invariant runningIdx == Offset(refs, k) <= TotalLen(refs)
      invariant duals == DualMap(buf, refs[..k])
    {
      SlicesDisjoint(refs, k, |refs|);
      OffsetStep(refs, k);
      assert refs[..k + 1][..k] == refs[..k];
      var r := refs[k];
      if r.dim == 1 {
        duals := duals[r.id := Scalar(buf[runningIdx])];
      } else {
        duals := duals[r.id := Vector(buf[runningIdx..runningIdx + r.dim])];
      }
      runningIdx := runningIdx + r.dim;
    }
    assert refs[..|refs|] == refs;
    DualMapKeys(buf, refs);
    if UniqueIds(refs) {
      forall k | 0 <= k < |refs|
        ensures Offset(refs, k) + refs[k].dim <= |buf| && duals[refs[k].id] == SliceValue(buf, Offset(refs, k), refs[k].dim)
      {
        DualMapAt(buf, refs, k);
      }
    }
  }
}
