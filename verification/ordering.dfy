/** Row ordering as pandas does it: `sort_values(by=[...])` and the sorted
    group keys that `groupby(...)` produces.  A sort key is a sequence of
    atoms (a name, a day number, a period, a minute) compared
    lexicographically; text compares by code points, as Python does. */
module Ordering {
  import opened Common

  /** One position of a sort key; `Missing` is an empty cell (NaN), which pandas sorts last. */
  datatype Atom = Text(s: string) | Int(i: int) | Num(r: real) | Missing

  type SortKey = seq<Atom>

  /** Python's `<=` on strings: code-point lexicographic order. */
  predicate StrLe(a: string, b: string)
    decreases |a|
  {
    |a| == 0 || (|b| > 0 && (a[0] < b[0] || (a[0] == b[0] && StrLe(a[1..], b[1..]))))
  }

  lemma {:induction false} StrLeTotal(a: string, b: string)
    ensures StrLe(a, b) || StrLe(b, a)
    decreases |a|
  {
    if |a| > 0 && |b| > 0 && a[0] == b[0] {
      StrLeTotal(a[1..], b[1..]);
    }
  }

  lemma {:induction false} StrLeTrans(a: string, b: string, c: string)
    requires StrLe(a, b) && StrLe(b, c)
    ensures StrLe(a, c)
    decreases |a|
  {
    if |a| > 0 && a[0] == b[0] && b[0] == c[0] {
      StrLeTrans(a[1..], b[1..], c[1..]);
    }
  }

  lemma {:induction false} StrLeAntisym(a: string, b: string)
    requires StrLe(a, b) && StrLe(b, a)
    ensures a == b
    decreases |a|
  {
    if |a| > 0 {
      StrLeAntisym(a[1..], b[1..]);
      assert a == [a[0]] + a[1..] && b == [b[0]] + b[1..];
    }
  }

  /** The value of a numeric atom (an integer or a real). */
  function NumValue(x: Atom): real
    requires x.Int? || x.Num?
  {
    if x.Int? then x.i as real else x.r
  }

  /** Strict order on atoms, as pandas' mixed-type sort (`safe_sort`) gives it: numbers
      first, integers and reals compared by value (on an equal value the integer comes
      first), then text by code points, and a missing value after every present one. */
  predicate AtomLt(x: Atom, y: Atom)
  {
    match (x, y)
    case (Missing, _) => false
    case (_, Missing) => true
    case (Text(a), Text(b)) => StrLe(a, b) && a != b
    case (Text(_), _) => false
    case (_, Text(_)) => true
    case _ => NumValue(x) < NumValue(y) || (NumValue(x) == NumValue(y) && x.Int? && y.Num?)
  }

  /** The cross-kind cases: every number sorts before every text, and every present
      atom before a missing one. */
  lemma MixedKindOrder(x: Atom, t: string)
    ensures (x.Int? || x.Num?) ==> AtomLt(x, Text(t)) && !AtomLt(Text(t), x)
    ensures x != Missing ==> AtomLt(x, Missing) && !AtomLt(Missing, x)
  {
  }

  lemma AtomTrichotomy(x: Atom, y: Atom)
    ensures AtomLt(x, y) || x == y || AtomLt(y, x)
  {
    if x.Text? && y.Text? { StrLeTotal(x.s, y.s); }
  }

  lemma AtomLtTrans(x: Atom, y: Atom, z: Atom)
    requires AtomLt(x, y) && AtomLt(y, z)
    ensures AtomLt(x, z)
  {
    if x.Text? && y.Text? && z.Text? {
      StrLeTrans(x.s, y.s, z.s);
      if x.s == z.s { StrLeAntisym(x.s, y.s); }
    }
  }

  lemma AtomLtAsymmetric(x: Atom, y: Atom)
    ensures AtomLt(x, y) ==> !AtomLt(y, x) && x != y
  {
    if x.Text? && y.Text? && StrLe(x.s, y.s) && StrLe(y.s, x.s) { StrLeAntisym(x.s, y.s); }
  }

  /** Lexicographic order on whole keys (a prefix sorts first). */
  predicate KeyLe(a: SortKey, b: SortKey)
    decreases |a|
  {
    |a| == 0 || (|b| > 0 && (AtomLt(a[0], b[0]) || (a[0] == b[0] && KeyLe(a[1..], b[1..]))))
  }

  lemma {:induction false} KeyLeRefl(a: SortKey)
    ensures KeyLe(a, a)
    decreases |a|
  {
    if |a| > 0 { KeyLeRefl(a[1..]); }
  }

  lemma {:induction false} KeyLeTotal(a: SortKey, b: SortKey)
    ensures KeyLe(a, b) || KeyLe(b, a)
    decreases |a|
  {
    if |a| > 0 && |b| > 0 {
      AtomTrichotomy(a[0], b[0]);
      if a[0] == b[0] { KeyLeTotal(a[1..], b[1..]); }
    }
  }

  lemma {:induction false} KeyLeTrans(a: SortKey, b: SortKey, c: SortKey)
    requires KeyLe(a, b) && KeyLe(b, c)
    ensures KeyLe(a, c)
    decreases |a|
  {
    if |a| > 0 {
      if AtomLt(a[0], b[0]) && AtomLt(b[0], c[0]) {
        AtomLtTrans(a[0], b[0], c[0]);
      } else if a[0] == b[0] && b[0] == c[0] {
        KeyLeTrans(a[1..], b[1..], c[1..]);
      }
    }
  }

  lemma {:induction false} KeyLeAntisym(a: SortKey, b: SortKey)
    requires KeyLe(a, b) && KeyLe(b, a)
    ensures a == b
    decreases |a|
  {
    if |a| == 0 {
      assert |b| == 0 || !KeyLe(b, a);
    } else {
      AtomLtAsymmetric(a[0], b[0]);
      KeyLeAntisym(a[1..], b[1..]);
      assert a == [a[0]] + a[1..] && b == [b[0]] + b[1..];
    }
  }

  /** `s` is ordered by `key`. */
  predicate SortedBy<T>(s: seq<T>, key: T -> SortKey)
  {
    forall i, j :: 0 <= i < j < |s| ==> KeyLe(key(s[i]), key(s[j]))
  }

  /** Place `x` after every element whose key is not larger than its own. */
  function Insert<T>(x: T, s: seq<T>, key: T -> SortKey): (r: seq<T>)
    ensures |r| == |s| + 1
    decreases |s|
  {
    if |s| == 0 then [x]
    else if KeyLe(key(x), key(s[0])) && key(x) != key(s[0]) then [x] + s
    else [s[0]] + Insert(x, s[1..], key)
  }

  /** Insertion sort by `key` (ties keep their input order). */
  function SortBy<T>(s: seq<T>, key: T -> SortKey): (r: seq<T>)
    ensures |r| == |s|
    decreases |s|
  {
    if |s| == 0 then [] else Insert(s[|s| - 1], SortBy(s[..|s| - 1], key), key)
  }

  lemma {:induction false} InsertPermutes<T>(x: T, s: seq<T>, key: T -> SortKey)
    ensures multiset(Insert(x, s, key)) == multiset(s) + multiset{x}
    decreases |s|
  {
    if |s| > 0 && !(KeyLe(key(x), key(s[0])) && key(x) != key(s[0])) {
      InsertPermutes(x, s[1..], key);
      assert s == [s[0]] + s[1..];
    }
  }

  lemma {:induction false} InsertKeeps<T>(x: T, s: seq<T>, key: T -> SortKey, y: T)
    ensures y in Insert(x, s, key) <==> y == x || y in s
  {
    InsertPermutes(x, s, key);
    assert y in Insert(x, s, key) <==> y in multiset(Insert(x, s, key));
    assert y in s <==> y in multiset(s);
  }

  lemma {:induction false} InsertSorted<T>(x: T, s: seq<T>, key: T -> SortKey)
    requires SortedBy(s, key)
    ensures SortedBy(Insert(x, s, key), key)
    decreases |s|
  {
    if |s| > 0 {
      var r := Insert(x, s, key);
      if KeyLe(key(x), key(s[0])) && key(x) != key(s[0]) {
        forall i, j | 0 <= i < j < |r| ensures KeyLe(key(r[i]), key(r[j])) {
          if i == 0 {
            assert r[j] == s[j - 1];
            if j > 1 { KeyLeTrans(key(x), key(s[0]), key(s[j - 1])); }
          }
        }
      } else {
        KeyLeTotal(key(x), key(s[0]));
        if KeyLe(key(x), key(s[0])) { assert key(x) == key(s[0]); KeyLeRefl(key(s[0])); }
        assert KeyLe(key(s[0]), key(x));
        InsertSorted(x, s[1..], key);
        var tail := Insert(x, s[1..], key);
        forall i, j | 0 <= i < j < |r| ensures KeyLe(key(r[i]), key(r[j])) {
          if i == 0 {
            InsertKeeps(x, s[1..], key, r[j]);
            assert r[j] in tail;
            if r[j] != x {
              var m :| 0 <= m < |s[1..]| && s[1..][m] == r[j];
              assert s[m + 1] == r[j];
            }
          } else {
            assert r[i] == tail[i - 1] && r[j] == tail[j - 1];
          }
        }
      }
    }
  }

  lemma {:induction false} SortByPermutes<T>(s: seq<T>, key: T -> SortKey)
    ensures multiset(SortBy(s, key)) == multiset(s)
    decreases |s|
  {
    if |s| > 0 {
      SortByPermutes(s[..|s| - 1], key);
      InsertPermutes(s[|s| - 1], SortBy(s[..|s| - 1], key), key);
      assert s == s[..|s| - 1] + [s[|s| - 1]];
    }
  }

  lemma {:induction false} SortBySorted<T>(s: seq<T>, key: T -> SortKey)
    ensures SortedBy(SortBy(s, key), key)
    decreases |s|
  {
    if |s| > 0 {
      SortBySorted(s[..|s| - 1], key);
      InsertSorted(s[|s| - 1], SortBy(s[..|s| - 1], key), key);
    }
  }

  /** `sort_values`: the rows are reordered, none added or lost, and come out ordered by key. */
  lemma SortByCorrect<T>(s: seq<T>, key: T -> SortKey)
    ensures multiset(SortBy(s, key)) == multiset(s)
    ensures SortedBy(SortBy(s, key), key)
  {
    SortByPermutes(s, key);
    SortBySorted(s, key);
  }

  function Identity(k: SortKey): SortKey { k }

  /** The distinct keys of a grouping, in the ascending order `groupby` emits them. */
  function GroupKeys(keys: seq<SortKey>): (r: seq<SortKey>)
    ensures |r| <= |keys|
  {
    DistinctLength(keys);
    SortBy(Distinct(keys), Identity)
  }

  lemma {:induction false} DistinctLength<T(!new)>(s: seq<T>)
    ensures |Distinct(s)| <= |s|
    decreases |s|
  {
    if |s| > 0 { DistinctLength(s[..|s| - 1]); }
  }

  /** A sequence without repeats in which no two neighbours in key order tie is strictly increasing. */
  predicate StrictlyIncreasing(s: seq<SortKey>)
  {
    forall i, j :: 0 <= i < j < |s| ==> KeyLe(s[i], s[j]) && s[i] != s[j]
  }

  /** The group keys are exactly the keys that occur, each once, in strictly increasing order. */
  lemma GroupKeysCorrect(keys: seq<SortKey>)
    ensures forall k :: k in GroupKeys(keys) <==> k in keys
    ensures StrictlyIncreasing(GroupKeys(keys))
  {
    var d := Distinct(keys);
    var r := GroupKeys(keys);
    SortByCorrect(d, Identity);
    forall k ensures k in r <==> k in keys {
      assert k in r <==> k in multiset(r);
      assert k in d <==> k in multiset(d);
    }
    forall i, j | 0 <= i < j < |r| ensures KeyLe(r[i], r[j]) && r[i] != r[j] {
      assert Identity(r[i]) == r[i] && Identity(r[j]) == r[j];
      RepeatCountsTwo(r, i, j);
      DistinctCountsOne(d, r[i]);
    }
  }

  lemma RepeatCountsTwo<T>(s: seq<T>, i: nat, j: nat)
    requires i < j < |s|
    ensures s[i] == s[j] ==> multiset(s)[s[i]] >= 2
  {
    assert s == s[..j] + [s[j]] + s[j + 1..];
    assert s[i] in s[..j];
    assert multiset(s[..j])[s[i]] >= 1;
  }

  lemma {:induction false} DistinctCountsOne<T>(s: seq<T>, x: T)
    requires forall i, j :: 0 <= i < j < |s| ==> s[i] != s[j]
    ensures multiset(s)[x] <= 1
    decreases |s|
  {
    if |s| > 0 {
      var t := s[..|s| - 1];
      assert s == t + [s[|s| - 1]];
      DistinctCountsOne(t, x);
      if x == s[|s| - 1] {
        assert x !in t;
        assert multiset(t)[x] == 0;
      }
    }
  }
}
