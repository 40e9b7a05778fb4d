/** Solver options (`MOSEK._handle_mosek_params` and the keyword check at the top of
    `MOSEK.solve_via_data`). A parameter named by a string is stripped of surrounding
    whitespace and dispatched on its prefix: "MSK_DPAR_" names a floating-point
    parameter, "MSK_IPAR_" an integer one and "MSK_SPAR_" a string one; any other name
    is rejected. The only keyword argument accepted besides the parameters is none:
    every other keyword is rejected, the first in sorted order being named. */
module Params {

  import opened Common

  /** A value for a MOSEK parameter; it is passed on unchanged. */
  datatype ParamValue = RealValue(r: real) | IntValue(i: int) | TextValue(s: string)

  /** The three typed setters a named parameter can go to. */
  datatype ParamKind = DoubleParam | IntParam | StringParam

  /** One entry of the `mosek_params` dictionary, in the dictionary's order. */
  datatype ParamItem = ParamItem(key: string, value: ParamValue)

  /** One setter call made on the task: its kind, the stripped name and the value. */
  datatype Setting = Setting(kind: ParamKind, name: string, value: ParamValue)

  /** Python's `str.isspace` for a single character: the ASCII controls 9 to 13 and
      28 to 31, the space, and the Unicode separators and spaces. */
  predicate IsSpace(c: char)
  {
    var n := c as int;
    9 <= n <= 13 || 28 <= n <= 32 || n == 0x85 || n == 0xA0 || n == 0x1680 ||
    0x2000 <= n <= 0x200A || n == 0x2028 || n == 0x2029 || n == 0x202F || n == 0x205F || n == 0x3000
  }

  /** Drop the leading whitespace. */
  function StripStart(s: string): (r: string)
    ensures |r| <= |s|
  {
    if |s| > 0 && IsSpace(s[0]) then StripStart(s[1..]) else s
  }

  /** Drop the trailing whitespace. */
  function StripEnd(s: string): (r: string)
    ensures |r| <= |s|
  {
    if |s| > 0 && IsSpace(s[|s| - 1]) then StripEnd(s[..|s| - 1]) else s
  }

  /** Python's `str.strip()` with no argument. */
  function Strip(s: string): string
  {
    StripEnd(StripStart(s))
  }

  /** What StripStart keeps is a suffix of s, everything it drops is whitespace, and what
      it keeps does not start with whitespace. */
  lemma {:induction false} StripStartShape(s: string)
    ensures StripStart(s) == s[|s| - |StripStart(s)|..]
    ensures forall k :: 0 <= k < |s| - |StripStart(s)| ==> IsSpace(s[k])
    ensures StripStart(s) == [] || !IsSpace(StripStart(s)[0])
    decreases |s|
  {
    if |s| > 0 && IsSpace(s[0]) {
      StripStartShape(s[1..]);
      forall k | 0 <= k < |s| - |StripStart(s)|
        ensures IsSpace(s[k])
      {
        if k > 0 {
          assert s[k] == s[1..][k - 1];
        }
      }
    }
  }

  /** What StripEnd keeps is a prefix of s, everything it drops is whitespace, and what it
      keeps does not end with whitespace. */
  lemma {:induction false} StripEndShape(s: string)
    ensures StripEnd(s) == s[..|StripEnd(s)|]
    ensures forall k :: |StripEnd(s)| <= k < |s| ==> IsSpace(s[k])
    ensures StripEnd(s) == [] || !IsSpace(StripEnd(s)[|StripEnd(s)| - 1])
    decreases |s|
  {
    if |s| > 0 && IsSpace(s[|s| - 1]) {
      StripEndShape(s[..|s| - 1]);
      forall k | |StripEnd(s)| <= k < |s|
        ensures IsSpace(s[k])
      {
        if k < |s| - 1 {
          assert s[k] == s[..|s| - 1][k];
        }
      }
    }
  }

  /** Where the stripped piece of s starts. */
  function StripOffset(s: string): nat
  {
    |s| - |StripStart(s)|
  }

  /** A stripped string is a contiguous piece of the original that neither starts nor
      ends with whitespace. */
  lemma StripShape(s: string)
    ensures StripOffset(s) + |Strip(s)| <= |s|
    ensures Strip(s) == s[StripOffset(s)..StripOffset(s) + |Strip(s)|]
    ensures Strip(s) == [] || (!IsSpace(Strip(s)[0]) && !IsSpace(Strip(s)[|Strip(s)| - 1]))
  {
    var t := StripStart(s);
    var r := Strip(s);
    var i := |s| - |t|;
    assert t == s[i..] && (t == [] || !IsSpace(t[0])) by {
      StripStartShape(s);
    }
    assert r == t[..|r|] && (r == [] || !IsSpace(r[|r| - 1])) by {
      StripEndShape(t);
    }
    assert r == s[i..i + |r|];
  }

  /** Only whitespace is cut off, at either end. */
  lemma StripCutsSpace(s: string, k: nat)
    requires k < StripOffset(s) || StripOffset(s) + |Strip(s)| <= k < |s|
    ensures IsSpace(s[k])
  {
    var t := StripStart(s);
    var r := Strip(s);
    var i := |s| - |t|;
    StripStartShape(s);
    if k >= i {
      StripEndShape(t);
      assert s[k] == t[k - i];
    }
  }

  /** Stripping twice is stripping once. */
  lemma StripIdempotent(s: string)
    ensures Strip(Strip(s)) == Strip(s)
  {
    var r := Strip(s);
    StripShape(s);
    assert StripStart(r) == r;
    assert StripEnd(r) == r;
  }

  function Prefix(k: ParamKind): string
  {
    match k
    case DoubleParam => "MSK_DPAR_"
    case IntParam => "MSK_IPAR_"
    case StringParam => "MSK_SPAR_"
  }

  /** The prefix test of the string dispatch, in its order: floating-point, integer,
      string; no prefix means the name is rejected. */
  function Classify(name: string): (r: Option<ParamKind>)
    ensures r.Some? ==> Prefix(r.value) <= name
  {
    if Prefix(DoubleParam) <= name then Some(DoubleParam)
    else if Prefix(IntParam) <= name then Some(IntParam)
    else if Prefix(StringParam) <= name then Some(StringParam)
    else None
  }

  /** The three prefixes exclude each other, so the order of the tests does not matter:
      a name goes to kind k exactly when it starts with k's prefix. */
  lemma ClassifyExact(name: string, k: ParamKind)
    ensures Classify(name) == Some(k) <==> Prefix(k) <= name
  {
    assert Prefix(DoubleParam) <= name ==> name[4] == 'D';
    assert Prefix(IntParam) <= name ==> name[4] == 'I';
    assert Prefix(StringParam) <= name ==> name[4] == 'S';
  }

  /** A name no prefix matches is rejected. */
  lemma ClassifyRejects(name: string)
    ensures Classify(name).None? <==>
      !(Prefix(DoubleParam) <= name) && !(Prefix(IntParam) <= name) && !(Prefix(StringParam) <= name)
  {
  }

  /** The handling of one dictionary entry: the stripped name goes to the setter of its
      prefix, or the entry is rejected, naming the stripped name. */
  function Dispatch(item: ParamItem): (r: Result<Setting, string>)
    ensures r.Success? ==> r.value.value == item.value && Prefix(r.value.kind) <= r.value.name
    ensures r.Failure? ==> Classify(r.error).None?
  {
    var name := Strip(item.key);
    match Classify(name)
    case Some(k) => Success(Setting(k, name, item.value))
    case None => Failure(name)
  }

  predicate Accepted(item: ParamItem)
  {
    Dispatch(item).Success?
  }

  /** Each entry's handling, in the dictionary's order. */
  function Dispatches(items: seq<ParamItem>): (r: seq<Result<Setting, string>>)
    ensures |r| == |items| && forall i :: 0 <= i < |items| ==> r[i] == Dispatch(items[i])
  {
    seq(|items|, i requires 0 <= i < |items| => Dispatch(items[i]))
  }

  /** Steps taken in order until one fails: every step's value, or the first error. */
  function FirstFailure<T, E>(steps: seq<Result<T, E>>): Result<seq<T>, E>
  {
    if |steps| == 0 then Success([])
    else
      var n := |steps| - 1;
      match FirstFailure(steps[..n])
      case Failure(e) => Failure(e)
      case Success(done) =>
        match steps[n]
        case Success(x) => Success(done + [x])
        case Failure(e) => Failure(e)
  }

  /** The steps all succeed exactly when every step does, and then their values are
      collected in order. */
  lemma {:induction false} FirstFailureSuccess<T, E>(steps: seq<Result<T, E>>)
    ensures FirstFailure(steps).Success? <==> (forall i :: 0 <= i < |steps| ==> steps[i].Success?)
    ensures FirstFailure(steps).Success? ==> (|FirstFailure(steps).value| == |steps| &&
      forall i :: 0 <= i < |steps| ==> FirstFailure(steps).value[i] == steps[i].value)
    decreases |steps|
  {
    if |steps| > 0 {
      var n := |steps| - 1;
      var front := steps[..n];
      FirstFailureSuccess(front);
      assert forall i :: 0 <= i < n ==> front[i] == steps[i];
    }
  }

  /** A failure reports the error of the first failing step; every step before it
      succeeds. */
  lemma {:induction false} FirstFailureFailure<T, E>(steps: seq<Result<T, E>>)
    requires FirstFailure(steps).Failure?
    ensures exists i :: (0 <= i < |steps| && steps[i].Failure? &&
      (forall j :: 0 <= j < i ==> steps[j].Success?) && FirstFailure(steps).error == steps[i].error)
    decreases |steps|
  {
    var n := |steps| - 1;
    var front := steps[..n];
    assert forall j :: 0 <= j < n ==> front[j] == steps[j];
    if FirstFailure(front).Failure? {
      FirstFailureFailure(front);
      var i :| 0 <= i < n && front[i].Failure? &&
        (forall j :: 0 <= j < i ==> front[j].Success?) && FirstFailure(front).error == front[i].error;
      assert steps[i] == front[i];
    } else {
      FirstFailureSuccess(front);
    }
  }

  /** Once a prefix of the steps fails, all of them fail with the same error. */
  lemma {:induction false} FailureSticks<T, E>(steps: seq<Result<T, E>>, i: nat, e: E)
    requires i <= |steps| && FirstFailure(steps[..i]) == Failure(e)
    ensures FirstFailure(steps) == Failure(e)
    decreases |steps| - i
  {
    if i == |steps| {
      assert steps[..i] == steps;
    } else {
      assert steps[..i + 1][..i] == steps[..i];
      FailureSticks(steps, i + 1, e);
    }
  }

  /** The outcome of walking the dictionary in order: the setter calls made, or the
      stripped name of the first entry that is rejected. */
  function ParamsOutcome(items: seq<ParamItem>): Result<seq<Setting>, string>
  {
    FirstFailure(Dispatches(items))
  }

  /** The dictionary is accepted exactly when every entry is, and then every entry becomes
      the setter call for its stripped name, in order. */
  lemma ParamsOutcomeSuccess(items: seq<ParamItem>)
    ensures ParamsOutcome(items).Success? <==> (forall i :: 0 <= i < |items| ==> Accepted(items[i]))
    ensures ParamsOutcome(items).Success? ==> (|ParamsOutcome(items).value| == |items| &&
      forall i :: 0 <= i < |items| ==> ParamsOutcome(items).value[i] == Dispatch(items[i]).value)
  {
    FirstFailureSuccess(Dispatches(items));
  }

  /** A rejected dictionary names the stripped name of the first entry that is rejected;
      every entry before it is accepted. */
  lemma ParamsOutcomeFailure(items: seq<ParamItem>)
    requires ParamsOutcome(items).Failure?
    ensures exists i :: (0 <= i < |items| && !Accepted(items[i]) &&
      (forall j :: 0 <= j < i ==> Accepted(items[j])) &&
      ParamsOutcome(items).error == Strip(items[i].key))
  {
    FirstFailureFailure(Dispatches(items));
    var i :| 0 <= i < |items| && Dispatches(items)[i].Failure? &&
      (forall j :: 0 <= j < i ==> Dispatches(items)[j].Success?) &&
      ParamsOutcome(items).error == Dispatches(items)[i].error;
    assert !Accepted(items[i]) && ParamsOutcome(items).error == Strip(items[i].key);
  }

  /** Every setter call names its parameter without surrounding whitespace and with the
      prefix of the setter it goes to, and passes the entry's value on. */
  lemma SettingsWellNamed(items: seq<ParamItem>, i: nat)
    requires ParamsOutcome(items).Success? && i < |items|
    ensures i < |ParamsOutcome(items).value|
    ensures var st := ParamsOutcome(items).value[i];
      Prefix(st.kind) <= st.name && Strip(st.name) == st.name && st.value == items[i].value
  {
    ParamsOutcomeSuccess(items);
    assert Accepted(items[i]);
    StripIdempotent(items[i].key);
  }

  /** _handle_mosek_params: nothing to do without a dictionary; otherwise walk its entries
      in order, dispatching each stripped name on its prefix, and stop at the first
      name that has none of the three prefixes. */
  method HandleMosekParams(params: Option<seq<ParamItem>>) returns (r: Result<seq<Setting>, string>)
    ensures params.None? ==> r == Success([])
    ensures params.Some? ==> r == ParamsOutcome(params.value)
  {
    if params.None? {
      return Success([]);
    }
    var items := params.value;
    ghost var steps := Dispatches(items);
    var settings: seq<Setting> := [];
    for i := 0 to |items|
      invariant FirstFailure(steps[..i]) == Success(settings)
    {
      assert steps[..i + 1][..i] == steps[..i];
      var name := Strip(items[i].key);
      var kind := Classify(name);
      if kind.None? {
        assert FirstFailure(steps[..i + 1]) == Failure(name);
        FailureSticks(steps, i + 1, name);
        return Failure(name);
      }
      settings := settings + [Setting(kind.value, name, items[i].value)];
    }
    assert steps[..|items|] == steps;
    r := Success(settings);
  }

  /** Python's ordering of strings: code point by code point, a proper prefix first. */
  predicate LexLess(a: string, b: string)
  {
    if |a| == 0 then |b| > 0
    else if |b| == 0 then false
    else if a[0] != b[0] then a[0] < b[0]
    else LexLess(a[1..], b[1..])
  }

  lemma {:induction false} LexLessTransitive(a: string, b: string, c: string)
    requires LexLess(a, b) && LexLess(b, c)
    ensures LexLess(a, c)
    decreases |a|
  {
    if |a| > 0 && a[0] == b[0] && b[0] == c[0] {
      LexLessTransitive(a[1..], b[1..], c[1..]);
    }
  }

  /** Two different strings are ordered one way or the other, and never both ways. */
  lemma {:induction false} LexLessTotal(a: string, b: string)
    requires a != b
    ensures LexLess(a, b) != LexLess(b, a)
    decreases |a|
  {
    if |a| > 0 && |b| > 0 && a[0] == b[0] {
      assert a == [a[0]] + a[1..] && b == [b[0]] + b[1..];
      LexLessTotal(a[1..], b[1..]);
    }
  }

  /** The first of a set of names once sorted, as `sorted(keys)[0]`. */
  method Smallest(names: set<string>) returns (first: string)
    requires names != {}
    ensures IsLexMin(names, first)
  {
    first :| first in names;
    var rest := names - {first};
    ghost var seen := {first};
    while rest != {}
      invariant seen + rest == names && first in seen
      invariant forall x :: x in seen && x != first ==> LexLess(first, x)
      decreases |rest|
    {
      var x :| x in rest;
      if LexLess(x, first) {
        forall y | y in seen && y != x
          ensures LexLess(x, y)
        {
          if y != first {
            LexLessTransitive(x, first, y);
          }
        }
        first := x;
      } else if x != first {
        LexLessTotal(x, first);
      }
      seen := seen + {x};
      rest := rest - {x};
    }
  }

  /** first is the name of the set that sorts before every other one. */
  predicate IsLexMin(names: set<string>, first: string)
  {
    first in names && forall x :: x in names && x != first ==> LexLess(first, x)
  }

  /** The first of a nonempty set of names in sorted order. */
  ghost function LexMin(names: set<string>): (first: string)
    requires names != {}
    ensures IsLexMin(names, first)
  {
    LexMinExists(names);
    var first :| IsLexMin(names, first);
    first
  }

  lemma {:induction false} LexMinExists(names: set<string>)
    requires names != {}
    ensures exists first :: IsLexMin(names, first)
    decreases |names|
  {
    var y :| y in names;
    var rest := names - {y};
    if rest == {} {
      assert names == {y};
      assert IsLexMin(names, y);
    } else {
      LexMinExists(rest);
      var z :| IsLexMin(rest, z);
      LexLessTotal(y, z);
      if LexLess(y, z) {
        forall x | x in names && x != y
          ensures LexLess(y, x)
        {
          if x != z {
            LexLessTransitive(y, z, x);
          }
        }
        assert IsLexMin(names, y);
      } else {
        assert IsLexMin(names, z);
      }
    }
  }

  /** Only one name of a set comes first. */
  lemma LexMinUnique(names: set<string>, a: string, b: string)
    requires IsLexMin(names, a) && IsLexMin(names, b)
    ensures a == b
  {
    if a != b {
      LexLessTotal(a, b);
    }
  }

  /** What a solver option holds: the MOSEK parameter dictionary (or None) under the key
      "mosek_params", anything else under any other key. */
  datatype OptValue = MosekParams(params: Option<seq<ParamItem>>) | OtherValue

  datatype OptsError = InvalidMosekParam(name: string) | InvalidKeyword(keyword: string)

  const MosekParamsKey: string := "mosek_params"

  /** The outcome of the options check: the parameter dictionary's outcome if it is
      rejected, else the first leftover keyword in sorted order if there is one, else the
      settings made. */
  ghost function OptsOutcome(opts: map<string, OptValue>): Result<seq<Setting>, OptsError>
    requires MosekParamsKey in opts ==> opts[MosekParamsKey].MosekParams?
  {
    var params := if MosekParamsKey in opts then opts[MosekParamsKey].params else None;
    if params.Some? && ParamsOutcome(params.value).Failure? then
      Failure(InvalidMosekParam(ParamsOutcome(params.value).error))
    else if opts.Keys - {MosekParamsKey} != {} then
      Failure(InvalidKeyword(LexMin(opts.Keys - {MosekParamsKey})))
    else
      Success(if params.Some? then ParamsOutcome(params.value).value else [])
  }

  /** The options check of solve_via_data: the parameter dictionary is applied first, then
      any keyword left over is rejected, naming the first in sorted order. */
  method HandleSolverOpts(opts: map<string, OptValue>) returns (r: Result<seq<Setting>, OptsError>)
    requires MosekParamsKey in opts ==> opts[MosekParamsKey].MosekParams?
    ensures r == OptsOutcome(opts)
    ensures (MosekParamsKey in opts && opts[MosekParamsKey].params.Some? &&
             ParamsOutcome(opts[MosekParamsKey].params.value).Failure?) ==>
      r == Failure(InvalidMosekParam(ParamsOutcome(opts[MosekParamsKey].params.value).error))
    ensures r.Success? <==>
      opts.Keys <= {MosekParamsKey} &&
      (MosekParamsKey in opts && opts[MosekParamsKey].params.Some? ==>
         ParamsOutcome(opts[MosekParamsKey].params.value).Success?)
    ensures r.Success? ==>
      r.value == (if MosekParamsKey in opts && opts[MosekParamsKey].params.Some?
       then ParamsOutcome(opts[MosekParamsKey].params.value).value else [])
    ensures r.Failure? && r.error.InvalidKeyword? ==>
      r.error.keyword in opts && r.error.keyword != MosekParamsKey &&
      forall x :: x in opts && x != MosekParamsKey && x != r.error.keyword ==> LexLess(r.error.keyword, x)
  {
    var settings: seq<Setting> := [];
    if MosekParamsKey in opts {
      var applied := HandleMosekParams(opts[MosekParamsKey].params);
      if applied.Failure? {
        return Failure(InvalidMosekParam(applied.error));
      }
      settings := applied.value;
    }
    var rest := opts.Keys - {MosekParamsKey};
    if rest != {} {
      var first := Smallest(rest);
      LexMinUnique(rest, first, LexMin(rest));
      return Failure(InvalidKeyword(first));
    }
    r := Success(settings);
  }
}
