/** pandas' group-wise transforms over a table held as parallel sequences:
    `keys[i]` is the group key of row i (a name, a (name, date) pair, ...)
    and `vals[i]` the value of the column being transformed.

    `df.groupby(key)[col].transform(f)` applies `f` to each group's values in
    row order and writes each result back at the row it came from.  The
    functions below define exactly that, for the windows the repository uses
    (`.cumsum()`, `.expanding()`, `.rolling(n, min_periods=1)`, followed or not
    by `.shift(1)`), and the lemmas then show what each row's value depends
    on: its own group's rows up to it, or strictly before it after a shift. */
module Grouping {
  import opened Common

  /** The values of the rows whose key is `k`, in row order: one pandas group. */
  function GroupOf<K(==), V>(keys: seq<K>, vals: seq<V>, k: K): seq<V>
    requires |keys| == |vals|
    decreases |keys|
  {
    if |keys| == 0 then []
    else
      GroupOf(keys[..|keys| - 1], vals[..|vals| - 1], k)
        + (if keys[|keys| - 1] == k then [vals[|vals| - 1]] else [])
  }

  /** Number of rows whose key is `k`. */
  function Occurrences<K(==)>(keys: seq<K>, k: K): nat
    decreases |keys|
  {
    if |keys| == 0 then 0
    else Occurrences(keys[..|keys| - 1], k) + (if keys[|keys| - 1] == k then 1 else 0)
  }

  lemma {:induction false} GroupOfLength<K, V>(keys: seq<K>, vals: seq<V>, k: K)
    requires |keys| == |vals|
    ensures |GroupOf(keys, vals, k)| == Occurrences(keys, k)
    decreases |keys|
  {
    if |keys| > 0 {
      GroupOfLength(keys[..|keys| - 1], vals[..|vals| - 1], k);
    }
  }

  lemma {:induction false} OccurrencesPositive<K>(keys: seq<K>, k: K)
    requires k in keys
    ensures Occurrences(keys, k) > 0
    decreases |keys|
  {
    if keys[|keys| - 1] != k {
      assert k in keys[..|keys| - 1];
      OccurrencesPositive(keys[..|keys| - 1], k);
    }
  }

  /** Grouping distributes over concatenation of row blocks. */
  lemma {:induction false} GroupOfConcat<K, V>(k1: seq<K>, v1: seq<V>, k2: seq<K>, v2: seq<V>, k: K)
    requires |k1| == |v1| && |k2| == |v2|
    ensures GroupOf(k1 + k2, v1 + v2, k) == GroupOf(k1, v1, k) + GroupOf(k2, v2, k)
    decreases |k2|
  {
    if |k2| == 0 {
      assert k1 + k2 == k1 && v1 + v2 == v1;
    } else {
      var n := |k2| - 1;
      assert (k1 + k2)[..|k1 + k2| - 1] == k1 + k2[..n];
      assert (v1 + v2)[..|v1 + v2| - 1] == v1 + v2[..n];
      GroupOfConcat(k1, v1, k2[..n], v2[..n], k);
    }
  }

  /** Position of row `i` inside its own group: how many earlier rows share its key. */
  function Rank<K(==)>(keys: seq<K>, i: nat): nat
    requires i < |keys|
  {
    Occurrences(keys[..i], keys[i])
  }

  /** The values of row `i`'s group that come strictly before row `i`. */
  function Earlier<K(==), V>(keys: seq<K>, vals: seq<V>, i: nat): seq<V>
    requires |keys| == |vals| && i < |keys|
  {
    GroupOf(keys[..i], vals[..i], keys[i])
  }

  /** Row `i` sits at position `Rank(keys, i)` of its group, preceded exactly by `Earlier`. */
  lemma {:induction false} GroupAtRank<K, V>(keys: seq<K>, vals: seq<V>, i: nat)
    requires |keys| == |vals| && i < |keys|
    ensures var g := GroupOf(keys, vals, keys[i]);
            Rank(keys, i) < |g| && g[..Rank(keys, i)] == Earlier(keys, vals, i) && g[Rank(keys, i)] == vals[i]
  {
    var k := keys[i];
    assert keys == keys[..i] + ([keys[i]] + keys[i + 1..]);
    assert vals == vals[..i] + ([vals[i]] + vals[i + 1..]);
    GroupOfConcat(keys[..i], vals[..i], [keys[i]] + keys[i + 1..], [vals[i]] + vals[i + 1..], k);
    GroupOfConcat([keys[i]], [vals[i]], keys[i + 1..], vals[i + 1..], k);
    assert GroupOf([keys[i]], [vals[i]], k) == [vals[i]] by {
      assert [keys[i]][..0] == [];
    }
    GroupOfLength(keys[..i], vals[..i], k);
  }

  /** Reading the whole group at a row's rank gives the row's own value. */
  lemma GroupElementAt<K, V>(keys: seq<K>, vals: seq<V>, i: nat)
    requires |keys| == |vals| && i < |keys|
    ensures Rank(keys, i) < |GroupOf(keys, vals, keys[i])|
  {
    GroupAtRank(keys, vals, i);
  }

  /** `.expanding()` uses the whole history, `.rolling(n, min_periods=1)` the last `n` values. */
  datatype Window = Expanding | Rolling(size: nat)

  predicate ValidWindow(w: Window) { w.Rolling? ==> w.size >= 1 }

  datatype Reducer = SumOf | MeanOf

  /** The values a window covers when it ends at the last element of `xs`. */
  function Trailing(xs: seq<real>, w: Window): (r: seq<real>)
    requires ValidWindow(w)
    ensures |xs| > 0 ==> |r| > 0
  {
    match w
    case Expanding => xs
    case Rolling(n) => LastN(xs, n)
  }

  function Reduce(red: Reducer, xs: seq<real>): real
    requires |xs| > 0
  {
    match red
    case SumOf => Sum(xs)
    case MeanOf => Mean(xs)
  }

  /** `series.rolling(n, min_periods=1).<red>()` or `series.expanding().<red>()` on one series;
      `.cumsum()` is `RollSeries(xs, Expanding, SumOf)`. */
  function RollSeries(xs: seq<real>, w: Window, red: Reducer): (r: seq<real>)
    requires ValidWindow(w)
    ensures |r| == |xs|
  {
    seq(|xs|, j requires 0 <= j < |xs| => Reduce(red, Trailing(xs[..j + 1], w)))
  }

  /** `series.shift(1)`: every value moves one row down; the first row becomes NaN. */
  function Shift1<T>(ys: seq<T>): (r: seq<Option<T>>)
    ensures |r| == |ys|
  {
    seq(|ys|, j requires 0 <= j < |ys| => if j == 0 then None else Some(ys[j - 1]))
  }

  function RollAt<K(==)>(keys: seq<K>, vals: seq<real>, w: Window, red: Reducer, i: nat): real
    requires |keys| == |vals| && i < |keys| && ValidWindow(w)
  {
    GroupElementAt(keys, vals, i);
    RollSeries(GroupOf(keys, vals, keys[i]), w, red)[Rank(keys, i)]
  }

  /** `df.groupby(keys)[col].transform(lambda x: x.<window>.<red>())`. */
  function GroupRoll<K(==)>(keys: seq<K>, vals: seq<real>, w: Window, red: Reducer): (r: seq<real>)
    requires |keys| == |vals| && ValidWindow(w)
    ensures |r| == |keys|
  {
    seq(|keys|, i requires 0 <= i < |keys| => RollAt(keys, vals, w, red, i))
  }

  function ShiftedAt<K(==)>(keys: seq<K>, vals: seq<real>, w: Window, red: Reducer, i: nat): Option<real>
    requires |keys| == |vals| && i < |keys| && ValidWindow(w)
  {
    GroupElementAt(keys, vals, i);
    Shift1(RollSeries(GroupOf(keys, vals, keys[i]), w, red))[Rank(keys, i)]
  }

  /** `df.groupby(keys)[col].transform(lambda x: x.<window>.<red>().shift(1))`. */
  function GroupShifted<K(==)>(keys: seq<K>, vals: seq<real>, w: Window, red: Reducer): (r: seq<Option<real>>)
    requires |keys| == |vals| && ValidWindow(w)
    ensures |r| == |keys|
  {
    seq(|keys|, i requires 0 <= i < |keys| => ShiftedAt(keys, vals, w, red, i))
  }

  function PreviousAt<K(==), V>(keys: seq<K>, vals: seq<V>, i: nat): Option<V>
    requires |keys| == |vals| && i < |keys|
  {
    GroupElementAt(keys, vals, i);
    Shift1(GroupOf(keys, vals, keys[i]))[Rank(keys, i)]
  }

  /** `df.groupby(keys)[col].shift(1)`: the previous value of the same group, NaN for a group's first row. */
  function GroupPrevious<K(==), V>(keys: seq<K>, vals: seq<V>): (r: seq<Option<V>>)
    requires |keys| == |vals|
    ensures |r| == |keys|
  {
    seq(|keys|, i requires 0 <= i < |keys| => PreviousAt(keys, vals, i))
  }

  /** `df.groupby(keys).cumcount()`: the row's position inside its group. */
  function CumCount<K(==)>(keys: seq<K>): (r: seq<nat>)
    ensures |r| == |keys|
  {
    seq(|keys|, i requires 0 <= i < |keys| => Rank(keys, i))
  }

  function MaxAt<K(==)>(keys: seq<K>, vals: seq<real>, i: nat): real
    requires |keys| == |vals| && i < |keys|
  {
    GroupElementAt(keys, vals, i);
    MaxOf(GroupOf(keys, vals, keys[i]))
  }

  /** `df.groupby(keys)[col].transform('max')`: the group's maximum on every row of the group. */
  function GroupMax<K(==)>(keys: seq<K>, vals: seq<real>): (r: seq<real>)
    requires |keys| == |vals|
    ensures |r| == |keys|
  {
    seq(|keys|, i requires 0 <= i < |keys| => MaxAt(keys, vals, i))
  }

  function KeyMax<K(==)>(keys: seq<K>, vals: seq<real>, k: K): real
    requires |keys| == |vals| && k in keys
  {
    OccurrencesPositive(keys, k);
    GroupOfLength(keys, vals, k);
    MaxOf(GroupOf(keys, vals, k))
  }

  /** `df.groupby(key)[col].max()`: one maximum per distinct key. */
  function MaxByKey<K(==,!new)>(keys: seq<K>, vals: seq<real>): (m: map<K, real>)
    requires |keys| == |vals|
    ensures forall k :: k in m <==> k in keys
  {
    map k | k in keys :: KeyMax(keys, vals, k)
  }

  // ---------------------------------------------------------------------------
  // A table holding a single group.

  lemma {:induction false} OneGroupOf<K, V>(keys: seq<K>, vals: seq<V>, k: K)
    requires |keys| == |vals| && forall i :: 0 <= i < |keys| ==> keys[i] == k
    ensures GroupOf(keys, vals, k) == vals
    decreases |keys|
  {
    if |keys| > 0 {
      OneGroupOf(keys[..|keys| - 1], vals[..|vals| - 1], k);
    }
  }

  lemma {:induction false} OneGroupOccurrences<K>(keys: seq<K>, k: K)
    requires forall i :: 0 <= i < |keys| ==> keys[i] == k
    ensures Occurrences(keys, k) == |keys|
    decreases |keys|
  {
    if |keys| > 0 {
      OneGroupOccurrences(keys[..|keys| - 1], k);
    }
  }

  /** When every row has the same key, the group-wise transform is the plain transform. */
  lemma OneGroupRoll<K>(keys: seq<K>, vals: seq<real>, w: Window, red: Reducer)
    requires |keys| == |vals| > 0 && ValidWindow(w)
    requires forall i :: 0 <= i < |keys| ==> keys[i] == keys[0]
    ensures GroupRoll(keys, vals, w, red) == RollSeries(vals, w, red)
  {
    OneGroupOf(keys, vals, keys[0]);
    forall i | 0 <= i < |keys| ensures Rank(keys, i) == i {
      OneGroupOccurrences(keys[..i], keys[i]);
    }
  }

  /** When every row has the same key, that key's maximum is the maximum of all values. */
  lemma OneGroupMax<K(!new)>(keys: seq<K>, vals: seq<real>)
    requires |keys| == |vals| > 0
    requires forall i :: 0 <= i < |keys| ==> keys[i] == keys[0]
    ensures MaxByKey(keys, vals) == map[keys[0] := MaxOf(vals)]
  {
    OneGroupOf(keys, vals, keys[0]);
    assert forall k :: k in keys <==> k == keys[0];
  }

  // ---------------------------------------------------------------------------
  // What each row's value depends on.

  /** A rolling or expanding transform at row `i` reduces the trailing window of
      the group's rows up to and including row `i`, and nothing else. */
  lemma GroupRollAt<K>(keys: seq<K>, vals: seq<real>, w: Window, red: Reducer, i: nat)
    requires |keys| == |vals| && i < |keys| && ValidWindow(w)
    ensures GroupRoll(keys, vals, w, red)[i] == Reduce(red, Trailing(Earlier(keys, vals, i) + [vals[i]], w))
  {
    var g := GroupOf(keys, vals, keys[i]);
    var r := Rank(keys, i);
    GroupAtRank(keys, vals, i);
    assert g[..r + 1] == g[..r] + [g[r]];
  }

  /** After `.shift(1)` the value at row `i` is missing exactly for the group's first row,
      and otherwise reduces a window of the group's rows strictly before row `i`. */
  lemma GroupShiftedAt<K>(keys: seq<K>, vals: seq<real>, w: Window, red: Reducer, i: nat)
    requires |keys| == |vals| && i < |keys| && ValidWindow(w)
    ensures var e := Earlier(keys, vals, i);
            GroupShifted(keys, vals, w, red)[i] == if e == [] then None else Some(Reduce(red, Trailing(e, w)))
  {
    var g := GroupOf(keys, vals, keys[i]);
    var r := Rank(keys, i);
    GroupAtRank(keys, vals, i);
    if r > 0 {
      assert g[..r - 1 + 1] == g[..r];
    }
  }

  /** `shift(1)` of a group's values gives, at row `i`, the last earlier value of its group. */
  lemma GroupPreviousAt<K, V>(keys: seq<K>, vals: seq<V>, i: nat)
    requires |keys| == |vals| && i < |keys|
    ensures var e := Earlier(keys, vals, i);
            GroupPrevious(keys, vals)[i] == if e == [] then None else Some(e[|e| - 1])
  {
    GroupAtRank(keys, vals, i);
  }

  /** `cumcount` is the number of the group's earlier rows. */
  lemma CumCountAt<K>(keys: seq<K>, vals: seq<real>, i: nat)
    requires |keys| == |vals| && i < |keys|
    ensures CumCount(keys)[i] == |Earlier(keys, vals, i)|
  {
    GroupOfLength(keys[..i], vals[..i], keys[i]);
  }

  /** Rows appended after row `i` do not change what came before it. */
  lemma EarlierOfExtended<K, V>(keys: seq<K>, vals: seq<V>, ks: seq<K>, vs: seq<V>, i: nat)
    requires |keys| == |vals| && |ks| == |vs| && i < |keys|
    ensures Earlier(keys + ks, vals + vs, i) == Earlier(keys, vals, i)
  {
    assert (keys + ks)[..i] == keys[..i];
    assert (vals + vs)[..i] == vals[..i];
  }

  /** Causality of a shifted transform: appending later rows (later games) leaves every
      earlier row's value unchanged. */
  lemma ShiftedIgnoresLaterRows<K>(keys: seq<K>, vals: seq<real>, ks: seq<K>, vs: seq<real>, w: Window, red: Reducer)
    requires |keys| == |vals| && |ks| == |vs| && ValidWindow(w)
    ensures GroupShifted(keys + ks, vals + vs, w, red)[..|keys|] == GroupShifted(keys, vals, w, red)
  {
    forall i | 0 <= i < |keys|
      ensures GroupShifted(keys + ks, vals + vs, w, red)[i] == GroupShifted(keys, vals, w, red)[i]
    {
      GroupShiftedAt(keys + ks, vals + vs, w, red, i);
      GroupShiftedAt(keys, vals, w, red, i);
      EarlierOfExtended(keys, vals, ks, vs, i);
    }
  }

  /** The same for an unshifted rolling/expanding transform (such as a running sum). */
  lemma RollIgnoresLaterRows<K>(keys: seq<K>, vals: seq<real>, ks: seq<K>, vs: seq<real>, w: Window, red: Reducer)
    requires |keys| == |vals| && |ks| == |vs| && ValidWindow(w)
    ensures GroupRoll(keys + ks, vals + vs, w, red)[..|keys|] == GroupRoll(keys, vals, w, red)
  {
    forall i | 0 <= i < |keys|
      ensures GroupRoll(keys + ks, vals + vs, w, red)[i] == GroupRoll(keys, vals, w, red)[i]
    {
      GroupRollAt(keys + ks, vals + vs, w, red, i);
      GroupRollAt(keys, vals, w, red, i);
      EarlierOfExtended(keys, vals, ks, vs, i);
    }
  }

  /** No leakage: a shifted feature at row `i` does not depend on row `i`'s own value. */
  lemma ShiftedIgnoresOwnRow<K>(keys: seq<K>, vals: seq<real>, x: real, w: Window, red: Reducer, i: nat)
    requires |keys| == |vals| && i < |keys| && ValidWindow(w)
    ensures GroupShifted(keys, vals[i := x], w, red)[i] == GroupShifted(keys, vals, w, red)[i]
  {
    GroupShiftedAt(keys, vals[i := x], w, red, i);
    GroupShiftedAt(keys, vals, w, red, i);
    assert vals[i := x][..i] == vals[..i];
  }

  /** Rows of other groups never influence a row's transform. */
  lemma {:induction false} GroupOfIgnoresOtherKeys<K, V>(keys: seq<K>, vals: seq<V>, j: nat, x: V, k: K)
    requires |keys| == |vals| && j < |keys| && keys[j] != k
    ensures GroupOf(keys, vals[j := x], k) == GroupOf(keys, vals, k)
    decreases |keys|
  {
    if j < |keys| - 1 {
      assert vals[j := x][..|vals| - 1] == vals[..|vals| - 1][j := x];
      GroupOfIgnoresOtherKeys(keys[..|keys| - 1], vals[..|vals| - 1], j, x, k);
    } else {
      assert vals[j := x][..|vals| - 1] == vals[..|vals| - 1];
    }
  }

  /** Causality in one statement: a shifted transform at row `i` is fixed by the keys up to
      and including row `i` and by the values strictly before it. */
  lemma ShiftedDependsOnlyOnPast<K>(keys: seq<K>, vals: seq<real>, keys2: seq<K>, vals2: seq<real>,
                                    w: Window, red: Reducer, i: nat)
    requires |keys| == |vals| && |keys2| == |vals2| && i < |keys| && i < |keys2| && ValidWindow(w)
    requires keys[..i + 1] == keys2[..i + 1] && vals[..i] == vals2[..i]
    ensures GroupShifted(keys, vals, w, red)[i] == GroupShifted(keys2, vals2, w, red)[i]
  {
    GroupShiftedAt(keys, vals, w, red, i);
    GroupShiftedAt(keys2, vals2, w, red, i);
    assert keys[i] == keys[..i + 1][i] && keys2[i] == keys2[..i + 1][i];
    assert keys[..i] == keys[..i + 1][..i] && keys2[..i] == keys2[..i + 1][..i];
  }

  /** Every value of a group comes from a row carrying the group's key. */
  lemma {:induction false} GroupOfMember<K, V>(keys: seq<K>, vals: seq<V>, k: K, p: nat)
    requires |keys| == |vals| && p < |GroupOf(keys, vals, k)|
    ensures exists j :: 0 <= j < |keys| && keys[j] == k && vals[j] == GroupOf(keys, vals, k)[p]
    decreases |keys|
  {
    var n := |keys| - 1;
    var g0 := GroupOf(keys[..n], vals[..n], k);
    if p < |g0| {
      GroupOfMember(keys[..n], vals[..n], k, p);
      var j :| 0 <= j < n && keys[..n][j] == k && vals[..n][j] == g0[p];
      assert keys[j] == k && vals[j] == GroupOf(keys, vals, k)[p];
    } else {
      assert keys[n] == k && vals[n] == GroupOf(keys, vals, k)[p];
    }
  }

  predicate Increasing(s: seq<int>)
  {
    forall p, q :: 0 <= p < q < |s| ==> s[p] < s[q]
  }

  /** When a group's rows carry strictly increasing values, so does the group. */
  lemma {:induction false} GroupOfIncreasing<K>(keys: seq<K>, vals: seq<int>, k: K)
    requires |keys| == |vals|
    requires forall a, b :: 0 <= a < b < |keys| && keys[a] == k && keys[b] == k ==> vals[a] < vals[b]
    ensures Increasing(GroupOf(keys, vals, k))
    decreases |keys|
  {
    if |keys| > 0 {
      var n := |keys| - 1;
      var g0 := GroupOf(keys[..n], vals[..n], k);
      GroupOfIncreasing(keys[..n], vals[..n], k);
      if keys[n] == k {
        var g := GroupOf(keys, vals, k);
        assert g == g0 + [vals[n]];
        forall p, q | 0 <= p < q < |g| ensures g[p] < g[q] {
          if q == |g0| {
            GroupOfMember(keys[..n], vals[..n], k, p);
            var j :| 0 <= j < n && keys[..n][j] == k && vals[..n][j] == g0[p];
            assert keys[j] == k && vals[j] == g[p];
          } else {
            assert g[p] == g0[p] && g[q] == g0[q];
          }
        }
      } else {
        assert GroupOf(keys, vals, k) == g0;
      }
    }
  }

  /** With non-negative values, a running sum never decreases along a group. */
  lemma {:induction false} RunningSumMonotone<K>(keys: seq<K>, vals: seq<real>, i: nat, j: nat)
    requires |keys| == |vals| && i < j < |keys| && keys[i] == keys[j]
    requires AllNonNegative(vals)
    ensures GroupRoll(keys, vals, Expanding, SumOf)[i] <= GroupRoll(keys, vals, Expanding, SumOf)[j]
  {
    GroupRollAt(keys, vals, Expanding, SumOf, i);
    GroupRollAt(keys, vals, Expanding, SumOf, j);
    var ei := Earlier(keys, vals, i) + [vals[i]];
    var ej := Earlier(keys, vals, j);
    // The group's rows up to i are a prefix of its rows before j.
    assert keys[..j] == keys[..i + 1] + keys[i + 1..j];
    assert vals[..j] == vals[..i + 1] + vals[i + 1..j];
    GroupOfConcat(keys[..i + 1], vals[..i + 1], keys[i + 1..j], vals[i + 1..j], keys[j]);
    assert keys[..i + 1] == keys[..i] + [keys[i]];
    assert vals[..i + 1] == vals[..i] + [vals[i]];
    assert GroupOf(keys[..i + 1], vals[..i + 1], keys[j]) == ei;
    var rest := GroupOf(keys[i + 1..j], vals[i + 1..j], keys[j]);
    GroupOfValuesFrom(keys[i + 1..j], vals[i + 1..j], keys[j]);
    SumAppend(ei, rest);
    SumAppend(ej, [vals[j]]);
    SumNonNegative(rest);
    assert Sum([vals[j]]) == vals[j] by { assert [vals[j]][..0] == []; }
  }

  /** Every value of a group is one of the column's values. */
  lemma {:induction false} GroupOfValuesFrom<K>(keys: seq<K>, vals: seq<real>, k: K)
    requires |keys| == |vals|
    requires AllNonNegative(vals)
    ensures AllNonNegative(GroupOf(keys, vals, k))
    decreases |keys|
  {
    if |keys| > 0 {
      GroupOfValuesFrom(keys[..|keys| - 1], vals[..|vals| - 1], k);
    }
  }

  /** `transform('max')` gives each row the largest value of its group: no smaller than the
      row's own value, and the value of some row of the group. */
  lemma GroupMaxAt<K>(keys: seq<K>, vals: seq<real>, i: nat)
    requires |keys| == |vals| && i < |keys|
    ensures vals[i] <= GroupMax(keys, vals)[i]
    ensures exists j :: 0 <= j < |keys| && keys[j] == keys[i] && vals[j] == GroupMax(keys, vals)[i]
  {
    var g := GroupOf(keys, vals, keys[i]);
    GroupAtRank(keys, vals, i);
    var m := MaxOf(g);
    assert GroupMax(keys, vals)[i] == m;
    var p :| 0 <= p < |g| && g[p] == m;
    GroupOfMember(keys, vals, keys[i], p);
  }

  /** A row's window sees nothing of the other groups: changing another group's value
      leaves it as it is. */
  lemma RollIgnoresOtherGroups<K>(keys: seq<K>, vals: seq<real>, w: Window, red: Reducer, i: nat, j: nat, x: real)
    requires |keys| == |vals| && i < |keys| && j < |keys| && keys[j] != keys[i] && ValidWindow(w)
    ensures GroupRoll(keys, vals[j := x], w, red)[i] == GroupRoll(keys, vals, w, red)[i]
  {
    GroupRollAt(keys, vals[j := x], w, red, i);
    GroupRollAt(keys, vals, w, red, i);
    EarlierIgnoresOtherGroups(keys, vals, i, j, x);
  }

  /** Likewise for the shifted windows. */
  lemma ShiftedIgnoresOtherGroups<K>(keys: seq<K>, vals: seq<real>, w: Window, red: Reducer, i: nat, j: nat, x: real)
    requires |keys| == |vals| && i < |keys| && j < |keys| && keys[j] != keys[i] && ValidWindow(w)
    ensures GroupShifted(keys, vals[j := x], w, red)[i] == GroupShifted(keys, vals, w, red)[i]
  {
    GroupShiftedAt(keys, vals[j := x], w, red, i);
    GroupShiftedAt(keys, vals, w, red, i);
    EarlierIgnoresOtherGroups(keys, vals, i, j, x);
  }

  lemma EarlierIgnoresOtherGroups<K, V>(keys: seq<K>, vals: seq<V>, i: nat, j: nat, x: V)
    requires |keys| == |vals| && i < |keys| && j < |keys| && keys[j] != keys[i]
    ensures Earlier(keys, vals[j := x], i) == Earlier(keys, vals, i)
  {
    if j < i {
      assert vals[j := x][..i] == vals[..i][j := x];
      GroupOfIgnoresOtherKeys(keys[..i], vals[..i], j, x, keys[i]);
    } else {
      assert vals[j := x][..i] == vals[..i];
    }
  }

  /** A row with no earlier row of its key has nothing before it in its group. */
  lemma NoEarlier<K, V>(keys: seq<K>, vals: seq<V>, i: nat)
    requires |keys| == |vals| && i < |keys|
    requires forall p :: 0 <= p < i ==> keys[p] != keys[i]
    ensures Earlier(keys, vals, i) == []
  {
    GroupOfAbsent(keys[..i], vals[..i], keys[i]);
  }

  /** The last value before row `i` in its group is that of the latest earlier row of its key. */
  lemma LatestEarlier<K, V>(keys: seq<K>, vals: seq<V>, i: nat, p: nat)
    requires |keys| == |vals| && p < i < |keys| && keys[p] == keys[i]
    requires forall q :: p < q < i ==> keys[q] != keys[i]
    ensures var e := Earlier(keys, vals, i); |e| > 0 && e[|e| - 1] == vals[p]
  {
    var k := keys[i];
    assert keys[..i] == keys[..p + 1] + keys[p + 1..i];
    assert vals[..i] == vals[..p + 1] + vals[p + 1..i];
    GroupOfConcat(keys[..p + 1], vals[..p + 1], keys[p + 1..i], vals[p + 1..i], k);
    GroupOfAbsent(keys[p + 1..i], vals[p + 1..i], k);
    assert keys[..p + 1][..p] == keys[..p] && vals[..p + 1][..p] == vals[..p];
    assert GroupOf(keys[..p + 1], vals[..p + 1], k) == GroupOf(keys[..p], vals[..p], k) + [vals[p]];
  }

  // ---------------------------------------------------------------------------
  // Per-group totals: `df.groupby(key)[col].sum()`.

  /** One total per distinct key, in order of first appearance (the order does not
      matter to the sums and means taken of them). */
  function GroupTotals<K(==,!new)>(keys: seq<K>, vals: seq<real>): (r: seq<real>)
    requires |keys| == |vals|
    ensures |r| == |Distinct(keys)|
  {
    var d := Distinct(keys);
    seq(|d|, j requires 0 <= j < |d| => Sum(GroupOf(keys, vals, d[j])))
  }

  /** `df.groupby(key)[col].sum().mean()` on a non-empty table. */
  function MeanOfGroupTotals<K(==,!new)>(keys: seq<K>, vals: seq<real>): real
    requires |keys| == |vals| && |keys| > 0
  {
    assert keys[0] in Distinct(keys);
    Mean(GroupTotals(keys, vals))
  }

  /** The group totals add up to the column total. */
  lemma {:induction false} SumGroupTotals<K(!new)>(keys: seq<K>, vals: seq<real>)
    requires |keys| == |vals|
    ensures Sum(GroupTotals(keys, vals)) == Sum(vals)
    decreases |keys|
  {
    if |keys| > 0 {
      var n := |keys| - 1;
      SumGroupTotals(keys[..n], vals[..n]);
      if keys[n] in Distinct(keys[..n]) {
        TotalsOfSeenKey(keys, vals);
      } else {
        TotalsOfNewKey(keys, vals);
      }
    }
  }

  /** A last row whose key was already seen adds its value to that key's total. */
  lemma TotalsOfSeenKey<K(!new)>(keys: seq<K>, vals: seq<real>)
    requires |keys| == |vals| > 0
    requires keys[|keys| - 1] in Distinct(keys[..|keys| - 1])
    ensures Sum(GroupTotals(keys, vals)) == Sum(GroupTotals(keys[..|keys| - 1], vals[..|vals| - 1])) + vals[|vals| - 1]
  {
    var n := |keys| - 1;
    var p := IndexIn(Distinct(keys[..n]), keys[n]);
    TotalsAfterSeenKey(keys, vals, p);
    SumRaised(GroupTotals(keys, vals), GroupTotals(keys[..n], vals[..n]), p, vals[n]);
  }

  lemma IndexIn<T>(s: seq<T>, x: T) returns (p: nat)
    requires x in s
    ensures p < |s| && s[p] == x
  {
    p :| 0 <= p < |s| && s[p] == x;
  }

  /** `t` is `t0` with the entry at `p` raised by `v`. */
  predicate Raised(t: seq<real>, t0: seq<real>, p: nat, v: real)
  {
    p < |t0| && t == t0[p := t0[p] + v]
  }

  /** The totals after a seen key are the earlier totals with that key's entry raised. */
  lemma TotalsAfterSeenKey<K(!new)>(keys: seq<K>, vals: seq<real>, p: nat)
    requires |keys| == |vals| > 0
    requires var d0 := Distinct(keys[..|keys| - 1]); p < |d0| && d0[p] == keys[|keys| - 1]
    ensures Raised(GroupTotals(keys, vals), GroupTotals(keys[..|keys| - 1], vals[..|vals| - 1]), p, vals[|vals| - 1])
  {
    var n := |keys| - 1;
    var d0 := Distinct(keys[..n]);
    var t0 := GroupTotals(keys[..n], vals[..n]);
    var t := GroupTotals(keys, vals);
    assert Distinct(keys) == d0;
    forall j | 0 <= j < |d0| ensures t[j] == t0[p := t0[p] + vals[n]][j] {
      SumGroupOfLast(keys, vals, d0[j]);
      if j != p { assert d0[j] != keys[n]; }
    }
    assert t == t0[p := t0[p] + vals[n]];
  }

  lemma SumRaised(t: seq<real>, t0: seq<real>, p: nat, v: real)
    requires Raised(t, t0, p, v)
    ensures Sum(t) == Sum(t0) + v
  {
    SumUpdate(t0, p, v);
  }

  /** A last row with a new key adds a group holding only that row. */
  lemma TotalsOfNewKey<K(!new)>(keys: seq<K>, vals: seq<real>)
    requires |keys| == |vals| > 0
    requires keys[|keys| - 1] !in Distinct(keys[..|keys| - 1])
    ensures Sum(GroupTotals(keys, vals)) == Sum(GroupTotals(keys[..|keys| - 1], vals[..|vals| - 1])) + vals[|vals| - 1]
  {
    var n := |keys| - 1;
    var d0 := Distinct(keys[..n]);
    var t0 := GroupTotals(keys[..n], vals[..n]);
    var t := GroupTotals(keys, vals);
    assert Distinct(keys) == d0 + [keys[n]];
    forall j | 0 <= j < |d0| ensures t[j] == t0[j] {
      SumGroupOfLast(keys, vals, d0[j]);
    }
    assert t[|d0|] == vals[n] by {
      SumGroupOfLast(keys, vals, keys[n]);
      GroupOfAbsent(keys[..n], vals[..n], keys[n]);
      assert Sum([]) == 0.0;
    }
    assert t[..|d0|] == t0;
    assert t == t0 + [vals[n]];
  }

  /** The last row contributes to its own key's total only. */
  lemma SumGroupOfLast<K>(keys: seq<K>, vals: seq<real>, x: K)
    requires |keys| == |vals| > 0
    ensures var n := |keys| - 1;
            Sum(GroupOf(keys, vals, x))
              == Sum(GroupOf(keys[..n], vals[..n], x)) + (if keys[n] == x then vals[n] else 0.0)
  {
    var n := |keys| - 1;
    var g0 := GroupOf(keys[..n], vals[..n], x);
    var tail := if keys[n] == x then [vals[n]] else [];
    assert GroupOf(keys, vals, x) == g0 + tail;
    SumAppend(g0, tail);
    if keys[n] == x { assert tail[..0] == []; }
  }


  /** Mean of the per-group totals = column total / number of groups. */
  lemma MeanOfGroupTotalsIsTotalPerGroup<K(!new)>(keys: seq<K>, vals: seq<real>)
    requires |keys| == |vals| && |keys| > 0
    ensures MeanOfGroupTotals(keys, vals) == Sum(vals) / (|Distinct(keys)| as real)
  {
    SumGroupTotals(keys, vals);
  }

  lemma {:induction false} GroupOfAbsent<K, V>(keys: seq<K>, vals: seq<V>, k: K)
    requires |keys| == |vals| && k !in keys
    ensures GroupOf(keys, vals, k) == []
    decreases |keys|
  {
    if |keys| > 0 {
      assert forall x :: x in keys[..|keys| - 1] ==> x in keys;
      GroupOfAbsent(keys[..|keys| - 1], vals[..|vals| - 1], k);
    }
  }

  /** Raising one element raises the sum by the same amount. */
  lemma {:induction false} SumUpdate(s: seq<real>, p: nat, v: real)
    requires p < |s|
    ensures Sum(s[p := s[p] + v]) == Sum(s) + v
    decreases |s|
  {
    var n := |s| - 1;
    var u := s[p := s[p] + v];
    if p < n {
      assert u[..n] == s[..n][p := s[p] + v];
      SumUpdate(s[..n], p, v);
    } else {
      assert u[..n] == s[..n];
    }
  }
}
