/**
  Piecewise-linear lookup in a table of (reference, target) control points.

  The repository has two lookups that differ only in how they choose the two
  control points (the bracket) whose line is evaluated:
  - `_calcula_interpolacao_por_variaveis` (every curve uses it) takes numpy's
    left insertion index, clamps it, and uses it as the LEFT end of the bracket
    (rule `ClampedSearch`);
  - `converte_para` (imported by the engine, never called) uses the segment
    that contains the query, except at the top of the table (rule `ConverteParaRule`).
  `ContainingSegment` is the rule both evidently intend: below the table the first
  segment, above it the last one, otherwise the segment that contains the query.
  The curves and the engine use `ClampedSearch`, the rule the program runs;
  `ContainingSegment` serves only to state what the two routines evidently meant.
  None of the rules clamps the result to the table's range.
 */
module Interpolation {
  import opened Outcomes

  /** A numpy float: a finite value, or the infinity or NaN that a division by zero yields. */
  datatype Float = Finite(value: real) | NonFinite

  predicate NonDecreasing(a: seq<real>) {
    forall i, j :: 0 <= i <= j < |a| ==> a[i] <= a[j]
  }

  predicate StrictlyIncreasing(a: seq<real>) {
    forall i, j :: 0 <= i < j < |a| ==> a[i] < a[j]
  }

  /** numpy's `searchsorted(a, v)` (side 'left'): the first index whose entry is at least `v`. */
  function FirstAtLeast(a: seq<real>, v: real): (i: nat)
    ensures i <= |a|
    ensures forall j :: 0 <= j < i ==> a[j] < v
    ensures i < |a| ==> v <= a[i]
  {
    if |a| == 0 || v <= a[0] then 0 else 1 + FirstAtLeast(a[1..], v)
  }

  /** The binary search numpy performs on a sorted array. */
  method SearchSorted(a: seq<real>, v: real) returns (i: nat)
    requires NonDecreasing(a)
    ensures i == FirstAtLeast(a, v)
  {
    var lo, hi := 0, |a|;
    while lo < hi
      invariant 0 <= lo <= hi <= |a|
      invariant forall j :: 0 <= j < lo ==> a[j] < v
      invariant forall j :: hi <= j < |a| ==> v <= a[j]
      decreases hi - lo
    {
      var mid := (lo + hi) / 2;
      if a[mid] < v {
        lo := mid + 1;
      } else {
        hi := mid;
      }
    }
    i := lo;
    FirstAtLeastIs(a, v, i);
  }

  /** Any index with the insertion-point property is the insertion point. */
  lemma {:induction false} FirstAtLeastIs(a: seq<real>, v: real, k: nat)
    requires k <= |a|
    requires forall j :: 0 <= j < k ==> a[j] < v
    requires k < |a| ==> v <= a[k]
    ensures FirstAtLeast(a, v) == k
    decreases |a|
  {
    if |a| > 0 && !(v <= a[0]) {
      FirstAtLeastIs(a[1..], v, k - 1);
    }
  }

  /** Whether `k` is a valid Python index (negative ones count from the end) into `n` elements. */
  predicate InPythonRange(n: int, k: int) {
    -n <= k < n
  }

  function PythonAt(a: seq<real>, k: int): real
    requires InPythonRange(|a|, k)
  {
    if k < 0 then a[|a| + k] else a[k]
  }

  /** The line through (xl, yl) and (xr, yr), evaluated at `v`, written as the program writes it. */
  function Line(xl: real, xr: real, yl: real, yr: real, v: real): real
    requires xl != xr
  {
    yr - (xr - v) * (yr - yl) / (xr - xl)
  }

  /** The float the interpolation formula yields: a division by zero when the bracket's references coincide. */
  function SegmentValue(xl: real, xr: real, yl: real, yr: real, v: real): Float {
    if xl == xr then NonFinite else Finite(Line(xl, xr, yl, yr, v))
  }

  lemma LineThroughEndpoints(xl: real, xr: real, yl: real, yr: real)
    requires xl != xr
    ensures Line(xl, xr, yl, yr, xl) == yl
    ensures Line(xl, xr, yl, yr, xr) == yr
  {
    assert (xr - xl) * (yr - yl) / (xr - xl) == yr - yl;
  }

  lemma LineBetweenEndpoints(xl: real, xr: real, yl: real, yr: real, v: real)
    requires xl < xr && xl <= v <= xr && yl <= yr
    ensures yl <= Line(xl, xr, yl, yr, v) <= yr
  {
    var d, a, h := xr - xl, xr - v, yr - yl;
    assert 0.0 <= a <= d && 0.0 <= h;
    assert 0.0 <= a * h <= d * h;
    assert d * h / d == h;
    assert 0.0 <= a * h / d <= h;
  }

  /** Which bracket-selection rule a lookup uses. */
  datatype Rule =
    | ClampedSearch      // `_calcula_interpolacao_por_variaveis`, as written
    | ConverteParaRule   // `converte_para`, as written
    | ContainingSegment  // the containing-segment rule both evidently intend

  /** The pair of (possibly negative, Python-style) indices whose line is evaluated. */
  function Bracket(rule: Rule, ref: seq<real>, v: real): (b: (int, int))
    requires |ref| >= 1
    ensures |ref| >= 2 ==> InPythonRange(|ref|, b.0) && InPythonRange(|ref|, b.1)
    ensures rule == ClampedSearch && |ref| >= 2 ==> 0 <= b.0 && b.1 == b.0 + 1 <= |ref| - 1
    ensures rule == ContainingSegment && |ref| >= 2 ==> 0 <= b.0 && b.1 == b.0 + 1 <= |ref| - 1
  {
    var n := |ref|;
    var idx := FirstAtLeast(ref, v);
    match rule
    case ClampedSearch =>
      var clamped := if idx < n - 1 then idx else n - 1;
      (if clamped < n - 1 then clamped else clamped - 1,
       if clamped < n - 2 then clamped + 1 else n - 1)
    case ConverteParaRule =>
      if v <= ref[0] then (idx, idx + 1)
      else if v >= ref[n - 1] then (idx - 2, idx - 1)
      else (idx - 1, idx)
    case ContainingSegment =>
      if v <= ref[0] then (0, 1)
      else if v >= ref[n - 1] then (n - 2, n - 1)
      else (idx - 1, idx)
  }

  /** The lookup of `v` in the table whose columns are `ref` and `target`. */
  function Interpolate(rule: Rule, ref: seq<real>, target: seq<real>, v: real): (r: Result<Float>)
    requires |ref| == |target|
    ensures |ref| == 0 ==> r == Err(IndexOutOfRange)
    ensures |ref| >= 2 ==> r.Ok?
  {
    if |ref| == 0 then Err(IndexOutOfRange)
    else
      var b := Bracket(rule, ref, v);
      if InPythonRange(|ref|, b.0) && InPythonRange(|ref|, b.1) then
        Ok(SegmentValue(PythonAt(ref, b.0), PythonAt(ref, b.1), PythonAt(target, b.0), PythonAt(target, b.1), v))
      else
        Err(IndexOutOfRange)
  }

  /** The vector form: one lookup per query; an indexing error in any query fails the whole call. */
  function InterpolateMany(rule: Rule, ref: seq<real>, target: seq<real>, vs: seq<real>): (r: Result<seq<Float>>)
    requires |ref| == |target|
    ensures r.Ok? ==> |r.value| == |vs|
    ensures r.Ok? ==> forall i :: 0 <= i < |vs| ==> Interpolate(rule, ref, target, vs[i]) == Ok(r.value[i])
    ensures r.Err? <==> exists i :: 0 <= i < |vs| && Interpolate(rule, ref, target, vs[i]).Err?
    ensures |ref| >= 2 ==> r.Ok?
  {
    if exists i :: 0 <= i < |vs| && Interpolate(rule, ref, target, vs[i]).Err? then Err(IndexOutOfRange)
    else Ok(seq(|vs|, i requires 0 <= i < |vs| => Interpolate(rule, ref, target, vs[i]).value))
  }

  /** A scalar lookup is element 0 of the vector lookup of a one-element array. */
  lemma ScalarIsFirstOfVector(rule: Rule, ref: seq<real>, target: seq<real>, v: real)
    requires |ref| == |target|
    ensures Interpolate(rule, ref, target, v).Ok? <==> InterpolateMany(rule, ref, target, [v]).Ok?
    ensures Interpolate(rule, ref, target, v).Ok? ==>
              InterpolateMany(rule, ref, target, [v]).value == [Interpolate(rule, ref, target, v).value]
  {
    var many := InterpolateMany(rule, ref, target, [v]);
    if many.Ok? {
      assert Interpolate(rule, ref, target, [v][0]) == Ok(many.value[0]);
    } else {
      var i :| 0 <= i < 1 && Interpolate(rule, ref, target, [v][i]).Err?;
      assert i == 0;
    }
  }

  // ---------------------------------------------------------------------------
  // `_calcula_interpolacao_por_variaveis` (rule ClampedSearch), as written

  /** A query at or below the first reference uses the first segment's line, unclamped. */
  lemma ClampedBelowRange(ref: seq<real>, target: seq<real>, v: real)
    requires |ref| == |target| >= 2
    requires v <= ref[0]
    ensures Bracket(ClampedSearch, ref, v) == (0, 1)
    ensures Interpolate(ClampedSearch, ref, target, v) == Ok(SegmentValue(ref[0], ref[1], target[0], target[1], v))
  {
    assert FirstAtLeast(ref, v) == 0;
  }

  /** A query at or above the last reference extrapolates the last segment's line. */
  lemma ClampedAboveRange(ref: seq<real>, target: seq<real>, v: real)
    requires |ref| == |target| >= 2
    requires NonDecreasing(ref) && ref[|ref| - 2] < ref[|ref| - 1]
    requires v >= ref[|ref| - 1]
    ensures Bracket(ClampedSearch, ref, v) == (|ref| - 2, |ref| - 1)
    ensures Interpolate(ClampedSearch, ref, target, v)
         == Ok(SegmentValue(ref[|ref| - 2], ref[|ref| - 1], target[|ref| - 2], target[|ref| - 1], v))
  {
    assert forall j :: 0 <= j <= |ref| - 2 ==> ref[j] < v;
  }

  /** With distinct references, looking up a reference yields its own target. */
  lemma ClampedAtKnot(ref: seq<real>, target: seq<real>, k: int)
    requires |ref| == |target| >= 2
    requires StrictlyIncreasing(ref)
    requires 0 <= k < |ref|
    ensures Interpolate(ClampedSearch, ref, target, ref[k]) == Ok(Finite(target[k]))
  {
    var n := |ref|;
    FirstAtLeastIs(ref, ref[k], k);
    if k <= n - 2 {
      LineThroughEndpoints(ref[k], ref[k + 1], target[k], target[k + 1]);
    } else {
      LineThroughEndpoints(ref[n - 2], ref[n - 1], target[n - 2], target[n - 1]);
    }
  }

  /** A query strictly inside a segment that is not the last one is evaluated on the
      line of the NEXT segment: the insertion index becomes the left end of the bracket. */
  lemma ClampedInteriorUsesNextSegment(ref: seq<real>, target: seq<real>, v: real, k: int)
    requires |ref| == |target|
    requires NonDecreasing(ref)
    requires 1 <= k <= |ref| - 2
    requires ref[k - 1] < v < ref[k]
    ensures Bracket(ClampedSearch, ref, v) == (k, k + 1)
    ensures Interpolate(ClampedSearch, ref, target, v) == Ok(SegmentValue(ref[k], ref[k + 1], target[k], target[k + 1], v))
  {
    assert forall j :: 0 <= j < k ==> ref[j] <= ref[k - 1];
    FirstAtLeastIs(ref, v, k);
  }

  /** The discrepancy on a concrete table: the query 0.5 on the first segment of
      (0,0) (1,1) (2,3) yields 0 instead of 0.5. */
  lemma ClampedInteriorCounterexample()
    ensures Interpolate(ClampedSearch, [0.0, 1.0, 2.0], [0.0, 1.0, 3.0], 0.5) == Ok(Finite(0.0))
    ensures Interpolate(ContainingSegment, [0.0, 1.0, 2.0], [0.0, 1.0, 3.0], 0.5) == Ok(Finite(0.5))
  {
    var ref := [0.0, 1.0, 2.0];
    assert FirstAtLeast(ref, 0.5) == 1 by {
      assert FirstAtLeast(ref[1..], 0.5) == 0;
    }
  }

  // ---------------------------------------------------------------------------
  // `converte_para` (rule ConverteParaRule), as written

  lemma ConverteParaBelowRange(ref: seq<real>, v: real)
    requires |ref| >= 2
    requires v <= ref[0]
    ensures Bracket(ConverteParaRule, ref, v) == (0, 1)
  {
    assert FirstAtLeast(ref, v) == 0;
  }

  lemma ConverteParaAboveRange(ref: seq<real>, v: real)
    requires |ref| >= 2
    requires NonDecreasing(ref)
    requires v > ref[|ref| - 1]
    ensures Bracket(ConverteParaRule, ref, v) == (|ref| - 2, |ref| - 1)
  {
    assert forall j :: 0 <= j < |ref| ==> ref[j] <= ref[|ref| - 1] < v;
    FirstAtLeastIs(ref, v, |ref|);
  }

  /** A query equal to the last reference gets the insertion index n-1 and so the
      bracket (n-3, n-2): the second-to-last segment's line, evaluated at the top. */
  lemma ConverteParaAtLastReference(ref: seq<real>, target: seq<real>)
    requires |ref| == |target| >= 3
    requires StrictlyIncreasing(ref)
    ensures Bracket(ConverteParaRule, ref, ref[|ref| - 1]) == (|ref| - 3, |ref| - 2)
    ensures Interpolate(ConverteParaRule, ref, target, ref[|ref| - 1])
         == Ok(Finite(Line(ref[|ref| - 3], ref[|ref| - 2], target[|ref| - 3], target[|ref| - 2], ref[|ref| - 1])))
  {
    var n := |ref|;
    FirstAtLeastIs(ref, ref[n - 1], n - 1);
    assert ref[0] < ref[n - 1];
  }

  /** A query strictly inside the table uses the segment containing it, and with
      non-decreasing targets the result lies between that segment's targets. */
  lemma ConverteParaInterior(ref: seq<real>, target: seq<real>, v: real)
    requires |ref| == |target| >= 2
    requires NonDecreasing(ref) && NonDecreasing(target)
    requires ref[0] < v < ref[|ref| - 1]
    ensures var b := Bracket(ConverteParaRule, ref, v);
            1 <= b.1 <= |ref| - 1 && b.0 == b.1 - 1 && ref[b.0] < v <= ref[b.1]
    ensures var b := Bracket(ConverteParaRule, ref, v);
            exists x :: Interpolate(ConverteParaRule, ref, target, v) == Ok(Finite(x))
                     && target[b.0] <= x <= target[b.1]
  {
    var idx := FirstAtLeast(ref, v);
    assert 1 <= idx <= |ref| - 1;
    var b := Bracket(ConverteParaRule, ref, v);
    assert b == (idx - 1, idx);
    LineBetweenEndpoints(ref[idx - 1], ref[idx], target[idx - 1], target[idx], v);
    var x := Line(ref[idx - 1], ref[idx], target[idx - 1], target[idx], v);
    assert Interpolate(ConverteParaRule, ref, target, v) == Ok(Finite(x));
  }

  /** The discrepancy on a concrete table: the top reference 2 of (0,0) (1,1) (2,3) yields 2 instead of 3. */
  lemma ConverteParaAtLastCounterexample()
    ensures Interpolate(ConverteParaRule, [0.0, 1.0, 2.0], [0.0, 1.0, 3.0], 2.0) == Ok(Finite(2.0))
    ensures Interpolate(ContainingSegment, [0.0, 1.0, 2.0], [0.0, 1.0, 3.0], 2.0) == Ok(Finite(3.0))
  {
    var ref := [0.0, 1.0, 2.0];
    assert FirstAtLeast(ref, 2.0) == 2 by {
      assert FirstAtLeast(ref[1..], 2.0) == 1 by {
        assert ref[1..][1..] == [2.0];
      }
    }
  }

  // ---------------------------------------------------------------------------
  // The containing-segment rule (ContainingSegment), the evidently intended one

  /** Inside the table's range the bracket is a segment containing the query. */
  lemma ContainingSegmentContains(ref: seq<real>, v: real)
    requires |ref| >= 2
    requires NonDecreasing(ref)
    requires ref[0] <= v <= ref[|ref| - 1]
    ensures var b := Bracket(ContainingSegment, ref, v);
            ref[b.0] <= v <= ref[b.1]
  {
    var idx := FirstAtLeast(ref, v);
    if ref[0] < v < ref[|ref| - 1] {
      assert 1 <= idx <= |ref| - 1;
    }
  }

  /** Inside the table's range, with distinct references and non-decreasing targets,
      the result lies between the bracket's targets: no overshoot inside the table. */
  lemma ContainingSegmentBetweenTargets(ref: seq<real>, target: seq<real>, v: real)
    requires |ref| == |target| >= 2
    requires StrictlyIncreasing(ref) && NonDecreasing(target)
    requires ref[0] <= v <= ref[|ref| - 1]
    ensures var b := Bracket(ContainingSegment, ref, v);
            exists x :: Interpolate(ContainingSegment, ref, target, v) == Ok(Finite(x))
                     && target[b.0] <= x <= target[b.1]
                     && target[0] <= x <= target[|ref| - 1]
  {
    var b := Bracket(ContainingSegment, ref, v);
    ContainingSegmentContains(ref, v);
    LineBetweenEndpoints(ref[b.0], ref[b.1], target[b.0], target[b.1], v);
    var x := Line(ref[b.0], ref[b.1], target[b.0], target[b.1], v);
    assert Interpolate(ContainingSegment, ref, target, v) == Ok(Finite(x));
    assert target[0] <= target[b.0] && target[b.1] <= target[|ref| - 1];
  }

  /** With distinct references, looking up a reference yields its own target. */
  lemma ContainingSegmentAtKnot(ref: seq<real>, target: seq<real>, k: int)
    requires |ref| == |target| >= 2
    requires StrictlyIncreasing(ref)
    requires 0 <= k < |ref|
    ensures Interpolate(ContainingSegment, ref, target, ref[k]) == Ok(Finite(target[k]))
  {
    var n := |ref|;
    FirstAtLeastIs(ref, ref[k], k);
    if k == 0 {
      LineThroughEndpoints(ref[0], ref[1], target[0], target[1]);
    } else if k == n - 1 {
      LineThroughEndpoints(ref[n - 2], ref[n - 1], target[n - 2], target[n - 1]);
    } else {
      assert ref[0] < ref[k] < ref[n - 1];
      LineThroughEndpoints(ref[k - 1], ref[k], target[k - 1], target[k]);
    }
  }

  /** With at least two distinct references every lookup is a finite number. */
  lemma ContainingSegmentIsFinite(ref: seq<real>, target: seq<real>, v: real)
    requires |ref| == |target| >= 2
    requires StrictlyIncreasing(ref)
    ensures Interpolate(ContainingSegment, ref, target, v).Ok?
    ensures Interpolate(ContainingSegment, ref, target, v).value.Finite?
  {
    var b := Bracket(ContainingSegment, ref, v);
    assert ref[b.0] < ref[b.1];
  }

  /** With at least two distinct references the program's lookup never divides by zero either. */
  lemma ClampedIsFinite(ref: seq<real>, target: seq<real>, v: real)
    requires |ref| == |target| >= 2
    requires StrictlyIncreasing(ref)
    ensures Interpolate(ClampedSearch, ref, target, v).Ok?
    ensures Interpolate(ClampedSearch, ref, target, v).value.Finite?
  {
    var b := Bracket(ClampedSearch, ref, v);
    assert ref[b.0] < ref[b.1];
  }

  /** The program's lookup in a well-posed table (at least two distinct references), as a number. */
  function LookupValue(ref: seq<real>, target: seq<real>, v: real): (x: real)
    requires |ref| == |target| >= 2
    requires StrictlyIncreasing(ref)
    ensures Interpolate(ClampedSearch, ref, target, v) == Ok(Finite(x))
  {
    ClampedIsFinite(ref, target, v);
    Interpolate(ClampedSearch, ref, target, v).value.value
  }
}
