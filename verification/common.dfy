/** Small numeric and sequence vocabulary shared by every component:
    optional values (pandas' NaN / missing column), sums, means, maxima,
    trailing windows and clipping. */
module Common {

  /** A value that may be missing; `None` plays the role of pandas' NaN. */
  datatype Option<+T> = None | Some(value: T) {
    function GetOr(default: T): T {
      match this
      case Some(v) => v
      case None => default
    }
  }

  /** Sum of a sequence, folded from the end so that appending is cheap to reason about. */
  function Sum(s: seq<real>): real
    decreases |s|
  {
    if |s| == 0 then 0.0 else Sum(s[..|s| - 1]) + s[|s| - 1]
  }

  lemma {:induction false} SumAppend(a: seq<real>, b: seq<real>)
    ensures Sum(a + b) == Sum(a) + Sum(b)
    decreases |b|
  {
    if |b| == 0 {
      assert a + b == a;
    } else {
      assert (a + b)[..|a + b| - 1] == a + b[..|b| - 1];
      SumAppend(a, b[..|b| - 1]);
    }
  }

  lemma {:induction false} SumNonNegative(s: seq<real>)
    requires forall i :: 0 <= i < |s| ==> s[i] >= 0.0
    ensures Sum(s) >= 0.0
    decreases |s|
  {
    if |s| > 0 {
      SumNonNegative(s[..|s| - 1]);
    }
  }

  /** The mean of non-negative values is non-negative. */
  lemma MeanNonNegative(s: seq<real>)
    requires |s| > 0 && forall i :: 0 <= i < |s| ==> s[i] >= 0.0
    ensures Mean(s) >= 0.0
  {
    SumNonNegative(s);
    QuotientNonNegative(Sum(s), |s| as real);
  }

  lemma QuotientNonNegative(a: real, b: real)
    requires a >= 0.0 && b > 0.0
    ensures a / b >= 0.0
  {
  }

  /** Every element of a non-negative sequence is at most its sum. */
  lemma {:induction false} SumBoundsElements(s: seq<real>, k: nat)
    requires forall i :: 0 <= i < |s| ==> s[i] >= 0.0
    requires k < |s|
    ensures s[k] <= Sum(s)
    decreases |s|
  {
    SumNonNegative(s[..|s| - 1]);
    if k < |s| - 1 {
      SumBoundsElements(s[..|s| - 1], k);
    }
  }

  function Mean(s: seq<real>): real
    requires |s| > 0
  {
    Sum(s) / (|s| as real)
  }

  /** pandas `Series.mean()`: NaN (here `None`) on an empty series. */
  function MeanOpt(s: seq<real>): (r: Option<real>)
    ensures r.Some? <==> |s| > 0
  {
    if |s| == 0 then None else Some(Mean(s))
  }

  /** Largest element of a non-empty sequence. */
  function MaxOf(s: seq<real>): (m: real)
    requires |s| > 0
    ensures forall i :: 0 <= i < |s| ==> s[i] <= m
    ensures exists i :: 0 <= i < |s| && s[i] == m
    decreases |s|
  {
    if |s| == 1 then s[0]
    else
      var rest := MaxOf(s[..|s| - 1]);
      assert forall i :: 0 <= i < |s| - 1 ==> s[i] == s[..|s| - 1][i];
      if s[|s| - 1] > rest then s[|s| - 1] else rest
  }

  /** Smallest element of a non-empty sequence. */
  function MinOf(s: seq<real>): (m: real)
    requires |s| > 0
    ensures forall i :: 0 <= i < |s| ==> m <= s[i]
    ensures exists i :: 0 <= i < |s| && s[i] == m
    decreases |s|
  {
    if |s| == 1 then s[0]
    else
      var rest := MinOf(s[..|s| - 1]);
      assert forall i :: 0 <= i < |s| - 1 ==> s[i] == s[..|s| - 1][i];
      if s[|s| - 1] < rest then s[|s| - 1] else rest
  }

  /** pandas `Series.min()` with NaN skipped: NaN when no value is present. */
  function MinPresent(s: seq<Option<real>>): (r: Option<real>)
    ensures r.Some? <==> exists i :: 0 <= i < |s| && s[i].Some?
    ensures r.Some? ==> (exists i :: 0 <= i < |s| && s[i] == Some(r.value))
                        && forall i :: 0 <= i < |s| && s[i].Some? ==> r.value <= s[i].value
  {
    var p := Present(s);
    if |p| > 0 then
      var m := MinOf(p);
      assert m in p && Some(m) in s;
      assert forall i :: 0 <= i < |s| && s[i].Some? ==> s[i].value in p;
      Some(m)
    else
      assert forall i :: 0 <= i < |s| ==> s[i] in s;
      None
  }

  /** The last `n` elements (all of them when there are fewer): pandas' trailing window. */
  function LastN<T>(s: seq<T>, n: nat): (r: seq<T>)
    ensures |r| == if |s| < n then |s| else n
    ensures r == s[WindowStart(|s|, n)..]
  {
    if |s| <= n then s else s[|s| - n..]
  }

  /** Where a trailing window of size `n` starts in a sequence of length `len`. */
  function WindowStart(len: nat, n: nat): (k: nat)
    ensures k <= len
  {
    if len <= n then 0 else len - n
  }

  function Min(a: real, b: real): real { if a <= b then a else b }
  function Max(a: real, b: real): real { if a >= b then a else b }

  /** numpy `clip` / pandas `Series.clip(lo, hi)`. */
  function Clip(x: real, lo: real, hi: real): (r: real)
    requires lo <= hi
    ensures lo <= r <= hi
    ensures lo <= x <= hi ==> r == x
    ensures x < lo ==> r == lo
    ensures x > hi ==> r == hi
  {
    if x < lo then lo else if x > hi then hi else x
  }

  function ClipInt(x: int, lo: int, hi: int): (r: int)
    requires lo <= hi
    ensures lo <= r <= hi
    ensures lo <= x <= hi ==> r == x
  {
    if x < lo then lo else if x > hi then hi else x
  }

  /** A sequence whose consecutive elements never decrease. */
  predicate NonDecreasing(s: seq<real>)
  {
    forall i :: 0 < i < |s| ==> s[i - 1] <= s[i]
  }

  /** Element-wise non-negativity. */
  predicate AllNonNegative(s: seq<real>)
  {
    forall i :: 0 <= i < |s| ==> s[i] >= 0.0
  }

  function Zeros(n: nat): (r: seq<real>)
    ensures |r| == n && forall i :: 0 <= i < n ==> r[i] == 0.0
  {
    seq(n, i => 0.0)
  }

  /** The distinct elements of `s`, each once; their number is pandas `nunique()`. */
  function Distinct<T(==,!new)>(s: seq<T>): (r: seq<T>)
    ensures forall x :: x in r <==> x in s
    ensures forall i, j :: 0 <= i < j < |r| ==> r[i] != r[j]
    decreases |s|
  {
    if |s| == 0 then []
    else
      var rest := Distinct(s[..|s| - 1]);
      assert forall x :: x in s[..|s| - 1] ==> x in s;
      assert forall x :: x in s ==> x in s[..|s| - 1] || x == s[|s| - 1];
      if s[|s| - 1] in rest then rest else rest + [s[|s| - 1]]
  }

  /** The elements of `s` that satisfy `p`, in order (a boolean row mask). */
  function Filter<T(!new)>(s: seq<T>, p: T -> bool): (r: seq<T>)
    ensures |r| <= |s|
    ensures forall x :: x in r <==> x in s && p(x)
    decreases |s|
  {
    if |s| == 0 then []
    else
      var rest := Filter(s[..|s| - 1], p);
      assert forall x :: x in s <==> x in s[..|s| - 1] || x == s[|s| - 1];
      if p(s[|s| - 1]) then rest + [s[|s| - 1]] else rest
  }

  /** The present values of a column that may hold NaN. */
  function Present(s: seq<Option<real>>): (r: seq<real>)
    ensures |r| <= |s|
    ensures forall x :: x in r <==> Some(x) in s
    decreases |s|
  {
    if |s| == 0 then []
    else
      var rest := Present(s[..|s| - 1]);
      assert forall x :: x in s <==> x in s[..|s| - 1] || x == s[|s| - 1];
      match s[|s| - 1]
      case Some(v) => rest + [v]
      case None => rest
  }

  /** pandas `Series.mean()` with NaN skipped: NaN when no value is present. */
  function MeanPresent(s: seq<Option<real>>): (r: Option<real>)
    ensures r.Some? <==> exists i :: 0 <= i < |s| && s[i].Some?
  {
    var p := Present(s);
    if |p| > 0 then
      assert p[0] in p && Some(p[0]) in s;
      Some(Mean(p))
    else
      assert forall i :: 0 <= i < |s| ==> s[i] in s;
      None
  }

  /** A sum of terms each at most `c` is at most `|s| * c`. */
  lemma {:induction false} SumAtMost(s: seq<real>, c: real)
    requires forall i :: 0 <= i < |s| ==> s[i] <= c
    ensures Sum(s) <= |s| as real * c
    decreases |s|
  {
    if |s| > 0 { SumAtMost(s[..|s| - 1], c); }
  }

  /** A sum of terms each at least `c` is at least `|s| * c`. */
  lemma {:induction false} SumAtLeast(s: seq<real>, c: real)
    requires forall i :: 0 <= i < |s| ==> s[i] >= c
    ensures Sum(s) >= |s| as real * c
    decreases |s|
  {
    if |s| > 0 { SumAtLeast(s[..|s| - 1], c); }
  }

  /** Over non-negative values, a longer trailing window never sums to less. */
  lemma LastNSumGrows(s: seq<real>, a: nat, b: nat)
    requires AllNonNegative(s) && a <= b
    ensures 0.0 <= Sum(LastN(s, a)) <= Sum(LastN(s, b))
  {
    var front := LastNSplit(s, a, b);
    SumAppend(front, LastN(s, a));
    SumNonNegative(front);
    SumNonNegative(LastN(s, a));
  }

  /** A longer trailing window is a run of earlier elements followed by the shorter one. */
  lemma LastNSplit(s: seq<real>, a: nat, b: nat) returns (front: seq<real>)
    requires AllNonNegative(s) && a <= b
    ensures LastN(s, b) == front + LastN(s, a)
    ensures AllNonNegative(front) && AllNonNegative(LastN(s, a))
  {
    var from, mid := WindowStart(|s|, b), WindowStart(|s|, a);
    front := s[from..mid];
    assert s[from..] == s[from..mid] + s[mid..];
  }
}
