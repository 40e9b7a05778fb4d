/** Shared vocabulary of the MOSEK interface model: optional and fallible results,
    the canonical solver statuses, and sums and concatenations of sequences. */
module Common {

  datatype Option<+T> = None | Some(value: T)

  datatype Result<+T, +E> = Success(value: T) | Failure(error: E)

  /** Opaque identity of a constraint in the caller's problem. */
  type Id = int

  /** A matrix as its list of rows. */
  type Matrix = seq<seq<real>>

  /** The canonical statuses reported back to the caller. */
  datatype Status =
    | Optimal
    | Infeasible
    | Unbounded
    | OptimalInaccurate
    | InfeasibleInaccurate
    | UnboundedInaccurate
    | SolverError

  /** Sum of a sequence of counts, folded from the right end so that a prefix
      extends by one element at a time. */
  function Sum(s: seq<nat>): nat
  {
    if |s| == 0 then 0 else Sum(s[..|s| - 1]) + s[|s| - 1]
  }

  lemma {:induction false} SumAppend(a: seq<nat>, b: seq<nat>)
    ensures Sum(a + b) == Sum(a) + Sum(b)
    decreases |b|
  {
    if |b| == 0 {
      assert a + b == a;
    } else {
      assert (a + b)[..|a + b| - 1] == a + b[..|b| - 1];
      SumAppend(a, b[..|b| - 1]);
    }
  }

  lemma SumPrefixStep(s: seq<nat>, k: nat)
    requires k < |s|
    ensures Sum(s[..k + 1]) == Sum(s[..k]) + s[k]
  {
    assert s[..k + 1][..k] == s[..k];
  }

  lemma SumPrefixMono(s: seq<nat>, k: nat, l: nat)
    requires k <= l <= |s|
    ensures Sum(s[..k]) <= Sum(s[..l])
  {
    assert s[..l] == s[..k] + s[k..l];
    SumAppend(s[..k], s[k..l]);
  }

  lemma SumWhole(s: seq<nat>)
    ensures Sum(s[..|s|]) == Sum(s)
  {
    assert s[..|s|] == s;
  }

  /** `n` copies of `x`, as Python's `[x] * n`. */
  function Repeat<T>(x: T, n: nat): (r: seq<T>)
    ensures |r| == n && forall i :: 0 <= i < n ==> r[i] == x
  {
    seq(n, _ => x)
  }

  /** The `len` consecutive indices from `start`, as `np.arange(start, start + len)`. */
  function Range(start: nat, len: nat): (r: seq<nat>)
    ensures |r| == len && forall k :: 0 <= k < len ==> r[k] == start + k
  {
    seq(len, k requires 0 <= k < len => start + k)
  }

  /** Element-wise squares: the row count dim * dim of each dense PSD block. */
  function Squares(s: seq<nat>): (r: seq<nat>)
    ensures |r| == |s| && forall i :: 0 <= i < |s| ==> r[i] == s[i] * s[i]
  {
    seq(|s|, i requires 0 <= i < |s| => s[i] * s[i])
  }

  /** Concatenation of a sequence of sequences: `vstack` on row lists, `hstack` on vectors. */
  function Concat<T>(parts: seq<seq<T>>): seq<T>
  {
    if |parts| == 0 then [] else Concat(parts[..|parts| - 1]) + parts[|parts| - 1]
  }

  /** The length of every part. */
  function Lens<T>(parts: seq<seq<T>>): (r: seq<nat>)
    ensures |r| == |parts| && forall k :: 0 <= k < |parts| ==> r[k] == |parts[k]|
  {
    seq(|parts|, k requires 0 <= k < |parts| => |parts[k]|)
  }

  lemma {:induction false} ConcatLength<T>(parts: seq<seq<T>>)
    ensures |Concat(parts)| == Sum(Lens(parts))
    decreases |parts|
  {
    if |parts| > 0 {
      ConcatLength(parts[..|parts| - 1]);
      assert Lens(parts)[..|parts| - 1] == Lens(parts[..|parts| - 1]);
    }
  }

  lemma {:induction false} ConcatAppend<T>(a: seq<seq<T>>, b: seq<seq<T>>)
    ensures Concat(a + b) == Concat(a) + Concat(b)
    decreases |b|
  {
    if |b| == 0 {
      assert a + b == a;
    } else {
      var front, last := b[..|b| - 1], b[|b| - 1];
      assert (a + b)[..|a + b| - 1] == a + front;
      assert (a + b)[|a + b| - 1] == last;
      ConcatAppend(a, front);
      calc {
        Concat(a + b);
        Concat(a + front) + last;
        Concat(a) + Concat(front) + last;
        Concat(a) + (Concat(front) + last);
      }
    }
  }

  lemma ConcatSnoc<T>(parts: seq<seq<T>>, x: seq<T>)
    ensures Concat(parts + [x]) == Concat(parts) + x
  {
    assert (parts + [x])[..|parts|] == parts;
  }

  /** The parts stacked into a single part, or nothing when there are no parts. */
  function StackedOrNone<T>(parts: seq<seq<T>>): (r: seq<seq<T>>)
    ensures |r| == if parts == [] then 0 else 1
  {
    if parts == [] then [] else [Concat(parts)]
  }

  lemma ConcatStackedOrNone<T>(acc: seq<seq<T>>, parts: seq<seq<T>>)
    ensures Concat(acc + StackedOrNone(parts)) == Concat(acc) + Concat(parts)
  {
    if parts == [] {
      assert acc + [] == acc;
    } else {
      ConcatSnoc(acc, Concat(parts));
    }
  }

  /** Stacking five groups of parts, the first four each pre-stacked into one part or left
      out when empty, gives the five groups' stacks one after another. */
  lemma ConcatFiveGroups<T>(a: seq<seq<T>>, b: seq<seq<T>>, c: seq<seq<T>>, d: seq<seq<T>>, e: seq<seq<T>>)
    ensures Concat([] + StackedOrNone(a) + StackedOrNone(b) + StackedOrNone(c) + StackedOrNone(d) + e)
         == Concat(a) + Concat(b) + Concat(c) + Concat(d) + Concat(e)
  {
    var s0: seq<seq<T>> := [];
    var s1 := s0 + StackedOrNone(a);
    var s2 := s1 + StackedOrNone(b);
    var s3 := s2 + StackedOrNone(c);
    var s4 := s3 + StackedOrNone(d);
    ConcatStackedOrNone(s0, a);
    assert Concat(s1) == Concat(a);
    ConcatStackedOrNone(s1, b);
    ConcatStackedOrNone(s2, c);
    ConcatStackedOrNone(s3, d);
    ConcatAppend(s4, e);
  }

  /** In a concatenation of five pieces, the first two pieces sit at its front. */
  lemma FrontOfFive<T>(a: seq<T>, b: seq<T>, c: seq<T>, d: seq<T>, e: seq<T>)
    ensures |a| + |b| <= |a + b + c + d + e|
    ensures (a + b + c + d + e)[..|a|] == a
    ensures (a + b + c + d + e)[|a|..|a| + |b|] == b
  {
    var s := a + b + c + d + e;
    assert s == (a + b) + (c + d + e);
    assert s[..|a + b|] == a + b;
  }

  /** Stacking the parts and then cutting at the running sums of their lengths gives
      every part back, in order. */
  lemma ConcatSlice<T>(parts: seq<seq<T>>, k: nat)
    requires k < |parts|
    ensures Sum(Lens(parts)[..k + 1]) == Sum(Lens(parts)[..k]) + |parts[k]|
    ensures Sum(Lens(parts)[..k + 1]) <= |Concat(parts)|
    ensures Concat(parts)[Sum(Lens(parts)[..k]) .. Sum(Lens(parts)[..k + 1])] == parts[k]
  {
    SumPrefixStep(Lens(parts), k);
    assert parts == parts[..k + 1] + parts[k + 1..];
    ConcatAppend(parts[..k + 1], parts[k + 1..]);
    assert parts[..k + 1][..k] == parts[..k];
    ConcatLength(parts[..k]);
    assert Lens(parts[..k]) == Lens(parts)[..k];
  }

  lemma {:induction false} ConcatMember<T>(parts: seq<seq<T>>, x: T)
    requires x in Concat(parts)
    ensures exists k :: 0 <= k < |parts| && x in parts[k]
    decreases |parts|
  {
    var n := |parts| - 1;
    if x !in parts[n] {
      ConcatMember(parts[..n], x);
    }
  }
}
