/** The few Python string operations the score parsers use: `str.strip()`,
    `str.lower()`, the substring test `x in s`, `str.replace(' ', '')`,
    `str.split('-')` and `int(...)` on a decimal string. */
module Text {
  import opened Common

  /** Python's `str.isspace()` characters, which `strip()` and `int()` discard. */
  predicate IsSpace(c: char)
  {
    var n := c as int;
    (9 <= n <= 13) || (28 <= n <= 32) || n == 0x85 || n == 0xA0 || n == 0x1680
    || (0x2000 <= n <= 0x200A) || n == 0x2028 || n == 0x2029 || n == 0x202F
    || n == 0x205F || n == 0x3000
  }

  function StripLeft(s: string): (r: string)
    ensures |r| <= |s| && r == s[|s| - |r|..]
    ensures |r| > 0 ==> !IsSpace(r[0])
    ensures forall i :: 0 <= i < |s| - |r| ==> IsSpace(s[i])
    decreases |s|
  {
    if |s| > 0 && IsSpace(s[0]) then StripLeft(s[1..]) else s
  }

  function StripRight(s: string): (r: string)
    ensures |r| <= |s| && r == s[..|r|]
    ensures |r| > 0 ==> !IsSpace(r[|r| - 1])
    ensures forall i :: |r| <= i < |s| ==> IsSpace(s[i])
    decreases |s|
  {
    if |s| > 0 && IsSpace(s[|s| - 1]) then StripRight(s[..|s| - 1]) else s
  }

  /** `str.strip()`: the longest slice of `s` that neither starts nor ends with white space. */
  function Strip(s: string): (r: string)
  {
    StripRight(StripLeft(s))
  }

  /** `Strip` removes only white space, from both ends, and leaves no white space at either end. */
  lemma StripCorrect(s: string)
    ensures var r := Strip(s);
            (exists i :: OccursAt(s, r, i)
                         && (forall k :: 0 <= k < i ==> IsSpace(s[k]))
                         && (forall k :: i + |r| <= k < |s| ==> IsSpace(s[k])))
            && (|r| > 0 ==> !IsSpace(r[0]) && !IsSpace(r[|r| - 1]))
  {
    var l := StripLeft(s);
    var r := StripRight(l);
    var i := |s| - |l|;
    assert s[i..i + |r|] == r;
    assert OccursAt(s, r, i);
    assert forall k :: 0 <= k < i ==> IsSpace(s[k]);
    forall k | i + |r| <= k < |s| ensures IsSpace(s[k]) {
      assert s[k] == l[k - i];
    }
    assert OccursAt(s, r, i)
           && (forall k :: 0 <= k < i ==> IsSpace(s[k]))
           && (forall k :: i + |r| <= k < |s| ==> IsSpace(s[k]));
    if |r| > 0 { assert r[0] == l[0]; }
    assert Strip(s) == r;
  }

  /** A string with no white space at all is its own stripped form. */
  lemma StripNoSpace(s: string)
    requires forall i :: 0 <= i < |s| ==> !IsSpace(s[i])
    ensures Strip(s) == s
  {
  }

  /** `str.lower()` on one character, for the Latin-1 letters (ASCII and accented capitals). */
  function LowerChar(c: char): (r: char)
    ensures IsCapital(c) ==> r as int == c as int + 32 && !IsCapital(r)
    ensures !IsCapital(c) ==> r == c
  {
    var n := c as int;
    if ('A' as int <= n <= 'Z' as int) || (0xC0 <= n <= 0xDE && n != 0xD7) then (n + 32) as char else c
  }

  /** An ASCII capital, or a Latin-1 accented capital (0xC0-0xDE, the sign 0xD7 excepted). */
  predicate IsCapital(c: char)
  {
    ('A' <= c <= 'Z') || (0xC0 <= c as int <= 0xDE && c as int != 0xD7)
  }

  /** `str.lower()`, character by character. */
  function Lower(s: string): (r: string)
    ensures |r| == |s|
    ensures forall i :: 0 <= i < |s| ==> r[i] == LowerChar(s[i])
  {
    seq(|s|, i requires 0 <= i < |s| => LowerChar(s[i]))
  }

  /** Lowering leaves no capital, keeps every other character, and lowering again changes
      nothing. */
  lemma LowerIdempotent(s: string)
    ensures forall i :: 0 <= i < |s| ==> !IsCapital(Lower(s)[i])
    ensures forall i :: 0 <= i < |s| && !IsCapital(s[i]) ==> Lower(s)[i] == s[i]
    ensures Lower(Lower(s)) == Lower(s)
  {
  }

  /** `w` occurs in `s` starting at index `i`. */
  predicate OccursAt(s: string, w: string, i: int)
  {
    0 <= i <= |s| - |w| && s[i..i + |w|] == w
  }

  /** Python's `w in s` for strings: `w` occurs as a contiguous piece of `s`. */
  predicate Contains(s: string, w: string)
  {
    exists i :: 0 <= i <= |s| - |w| && OccursAt(s, w, i)
  }

  /** A one-character piece occurs exactly when the character does. */
  lemma ContainsChar(s: string, c: char)
    ensures Contains(s, [c]) <==> c in s
  {
    if c in s {
      var i :| 0 <= i < |s| && s[i] == c;
      assert s[i..i + 1] == [c];
      assert OccursAt(s, [c], i);
    } else if Contains(s, [c]) {
      ContainsLetters(s, [c], 0);
    }
  }

  /** Every character of an occurring piece occurs in the string. */
  lemma ContainsLetters(s: string, w: string, k: nat)
    requires Contains(s, w) && k < |w|
    ensures w[k] in s
  {
    var i :| 0 <= i <= |s| - |w| && OccursAt(s, w, i);
    assert s[i..i + |w|][k] == s[i + k];
  }

  /** `any(x in s for x in words)`. */
  predicate ContainsAny(s: string, words: seq<string>)
  {
    exists j :: 0 <= j < |words| && Contains(s, words[j])
  }

  /** `s.replace(' ', '')`. */
  function RemoveSpaces(s: string): (r: string)
    ensures ' ' !in r
    ensures |r| <= |s|
    ensures ' ' !in s ==> r == s
    decreases |s|
  {
    if |s| == 0 then []
    else
      var rest := RemoveSpaces(s[..|s| - 1]);
      if s[|s| - 1] == ' ' then rest
      else
        assert s == s[..|s| - 1] + [s[|s| - 1]];
        rest + [s[|s| - 1]]
  }

  /** `s.split(sep)` with an explicit separator: the pieces between separators,
      always one more piece than there are separators. */
  function Split(s: string, sep: char): (r: seq<string>)
    ensures |r| >= 1
    decreases |s|
  {
    if |s| == 0 then [[]]
    else
      var rest := Split(s[..|s| - 1], sep);
      if s[|s| - 1] == sep then rest + [[]]
      else rest[..|rest| - 1] + [rest[|rest| - 1] + [s[|s| - 1]]]
  }

  /** No piece holds the separator. */
  lemma {:induction false} SplitPiecesClean(s: string, sep: char)
    ensures forall j :: 0 <= j < |Split(s, sep)| ==> sep !in Split(s, sep)[j]
    decreases |s|
  {
    if |s| > 0 {
      var rest := Split(s[..|s| - 1], sep);
      SplitPiecesClean(s[..|s| - 1], sep);
      if s[|s| - 1] != sep {
        var last := rest[|rest| - 1] + [s[|s| - 1]];
        assert sep !in last;
      }
    }
  }

  /** `sep.join(parts)`. */
  function Join(parts: seq<string>, sep: char): string
    decreases |parts|
  {
    if |parts| == 0 then []
    else if |parts| == 1 then parts[0]
    else Join(parts[..|parts| - 1], sep) + [sep] + parts[|parts| - 1]
  }

  /** Splitting loses nothing: joining the pieces back gives the original string. */
  lemma {:induction false} SplitJoin(s: string, sep: char)
    ensures Join(Split(s, sep), sep) == s
    decreases |s|
  {
    if |s| > 0 {
      var t := s[..|s| - 1];
      var c := s[|s| - 1];
      SplitJoin(t, sep);
      assert s == t + [c];
      if c != sep {
        SplitSnoc(t, c, sep);
        JoinLast(Split(t, sep), sep, [c]);
      } else {
        SplitSnocSep(t, sep);
        JoinSnoc(Split(t, sep), [], sep);
        assert t + [sep] + [] == s;
      }
    }
  }

  /** A separator at the end opens an empty last piece. */
  lemma SplitSnocSep(x: string, sep: char)
    ensures Split(x + [sep], sep) == Split(x, sep) + [[]]
  {
    assert (x + [sep])[..|x + [sep]| - 1] == x;
  }

  /** Joining one more piece appends the separator and that piece. */
  lemma JoinSnoc(p: seq<string>, x: string, sep: char)
    requires |p| >= 1
    ensures Join(p + [x], sep) == Join(p, sep) + [sep] + x
  {
    assert (p + [x])[..|p + [x]| - 1] == p;
  }

  /** Extending the last piece extends the joined string. */
  lemma JoinLast(parts: seq<string>, sep: char, x: string)
    requires |parts| >= 1
    ensures Join(parts[..|parts| - 1] + [parts[|parts| - 1] + x], sep) == Join(parts, sep) + x
  {
    var q := parts[..|parts| - 1] + [parts[|parts| - 1] + x];
    assert q[..|q| - 1] == parts[..|parts| - 1];
  }

  /** A string with exactly one separator splits into the text before and after it. */
  lemma SplitOnce(a: string, b: string, sep: char)
    requires sep !in a && sep !in b
    ensures Split(a + [sep] + b, sep) == [a, b]
  {
    var h := a + [sep];
    SplitEndingInSep(a, sep);
    SplitAppend(h, b, sep);
    var p := Split(h, sep);
    assert p[..|p| - 1] == [a];
    assert p[|p| - 1] + b == b;
  }

  lemma SplitEndingInSep(a: string, sep: char)
    requires sep !in a
    ensures Split(a + [sep], sep) == [a, []]
  {
    var h := a + [sep];
    SplitNone(a, sep);
    assert h[..|h| - 1] == a;
  }

  lemma {:induction false} SplitNone(s: string, sep: char)
    requires sep !in s
    ensures Split(s, sep) == [s]
    decreases |s|
  {
    if |s| > 0 {
      SplitNone(s[..|s| - 1], sep);
      assert s == s[..|s| - 1] + [s[|s| - 1]];
    }
  }

  /** Text without separators appended to a string lengthens its last piece. */
  lemma {:induction false} SplitAppend(s: string, t: string, sep: char)
    requires sep !in t
    ensures var p := Split(s, sep);
            Split(s + t, sep) == p[..|p| - 1] + [p[|p| - 1] + t]
    decreases |t|
  {
    if |t| == 0 {
      AppendNothing(s, t, sep);
    } else {
      var u := t[..|t| - 1];
      var c := t[|t| - 1];
      assert t == u + [c];
      assert c != sep && sep !in u by { assert c in t && forall x :: x in u ==> x in t; }
      SplitAppend(s, u, sep);
      assert s + t == (s + u) + [c];
      SplitSnoc(s + u, c, sep);
      ExtendLast(Split(s, sep), u, c);
    }
  }

  lemma AppendNothing(s: string, t: string, sep: char)
    requires |t| == 0
    ensures var p := Split(s, sep);
            Split(s + t, sep) == p[..|p| - 1] + [p[|p| - 1] + t]
  {
    var p := Split(s, sep);
    assert s + t == s;
    assert p[|p| - 1] + t == p[|p| - 1];
    assert p[..|p| - 1] + [p[|p| - 1]] == p;
  }

  /** A character other than the separator lengthens the last piece. */
  lemma SplitSnoc(x: string, c: char, sep: char)
    requires c != sep
    ensures var q := Split(x, sep);
            Split(x + [c], sep) == q[..|q| - 1] + [q[|q| - 1] + [c]]
  {
    assert (x + [c])[..|x + [c]| - 1] == x;
  }

  /** Lengthening the last piece twice is lengthening it once by both. */
  lemma ExtendLast(p: seq<string>, u: string, c: char)
    requires |p| >= 1
    ensures var q := p[..|p| - 1] + [p[|p| - 1] + u];
            q[..|q| - 1] + [q[|q| - 1] + [c]] == p[..|p| - 1] + [p[|p| - 1] + (u + [c])]
  {
    var q := p[..|p| - 1] + [p[|p| - 1] + u];
    assert q[..|q| - 1] == p[..|p| - 1];
    assert q[|q| - 1] + [c] == p[|p| - 1] + (u + [c]);
  }

  // ---------------------------------------------------------------------------
  // `int(text)` for decimal text.

  predicate IsDigit(c: char) { '0' <= c <= '9' }

  function DigitValue(c: char): nat
    requires IsDigit(c)
  {
    (c as int - '0' as int) as nat
  }

  /** Value of a run of decimal digits, most significant first. */
  function DigitsValue(ds: string): nat
    requires forall i :: 0 <= i < |ds| ==> IsDigit(ds[i])
    decreases |ds|
  {
    if |ds| == 0 then 0 else 10 * DigitsValue(ds[..|ds| - 1]) + DigitValue(ds[|ds| - 1])
  }

  predicate AllDigits(ds: string)
  {
    |ds| > 0 && forall i :: 0 <= i < |ds| ==> IsDigit(ds[i])
  }

  /** `int(text)`: surrounding white space is ignored, then an optional sign and one or more
      decimal digits; anything else raises `ValueError`, here `None`. */
  function ParseInt(text: string): Option<int>
  {
    var t := Strip(text);
    if |t| > 0 && (t[0] == '-' || t[0] == '+') then
      if AllDigits(t[1..]) then
        Some(if t[0] == '-' then -(DigitsValue(t[1..]) as int) else DigitsValue(t[1..]))
      else None
    else if AllDigits(t) then Some(DigitsValue(t))
    else None
  }

  /** Decimal representation of a natural number, without leading zeros. */
  function NatToDigits(n: nat): (ds: string)
    ensures AllDigits(ds)
    ensures DigitsValue(ds) == n
    decreases n
  {
    var d := ['0' + (n % 10) as char];
    if n < 10 then
      assert DigitsValue(d) == n by { assert d[..0] == []; }
      d
    else
      var hi := NatToDigits(n / 10);
      var r := hi + d;
      assert r[..|r| - 1] == hi;
      r
  }

  /** `int(str(n)) == n`. */
  lemma ParseIntRoundTrip(n: nat)
    ensures ParseInt(NatToDigits(n)) == Some(n as int)
  {
    ParseDigits(NatToDigits(n));
  }


  /** A leading minus sign negates the value of the digits after it. */
  lemma ParseNegatedDigits(ds: string)
    requires AllDigits(ds)
    ensures ParseInt(['-'] + ds) == Some(-(DigitsValue(ds) as int))
  {
    var m := ['-'] + ds;
    forall i | 0 <= i < |m| ensures !IsSpace(m[i]) {
      if i > 0 { assert m[i] == ds[i - 1]; }
    }
    StripNoSpace(m);
    assert m[1..] == ds;
  }

  lemma ParseDigits(ds: string)
    requires AllDigits(ds)
    ensures ParseInt(ds) == Some(DigitsValue(ds) as int)
  {
    StripNoSpace(ds);
    assert IsDigit(ds[0]);
  }

  // ---------------------------------------------------------------------------
  // `float(text)` / `pd.to_numeric` for plain decimal text.

  /** Zero or more decimal digits. */
  predicate Digits(ds: string)
  {
    forall i :: 0 <= i < |ds| ==> IsDigit(ds[i])
  }

  function Pow10(k: nat): (p: nat)
    ensures p >= 1
  {
    if k == 0 then 1 else 10 * Pow10(k - 1)
  }

  /** Unsigned decimal text `digits[.digits]` with at least one digit in all. */
  function UnsignedDecimal(body: string): Option<real>
  {
    var parts := Split(body, '.');
    if |parts| == 1 && AllDigits(parts[0]) then Some(DigitsValue(parts[0]) as real)
    else if |parts| == 2 && Digits(parts[0]) && Digits(parts[1]) && |parts[0]| + |parts[1]| > 0 then
      Some(DigitsValue(parts[0]) as real + DigitsValue(parts[1]) as real / Pow10(|parts[1]|) as real)
    else None
  }

  /** Numeric text: surrounding white space, an optional sign, digits with at most one
      decimal point; anything else is not a number (`None`). */
  function ParseDecimal(text: string): Option<real>
  {
    var t := Strip(text);
    if |t| > 0 && (t[0] == '-' || t[0] == '+') then
      match UnsignedDecimal(t[1..])
      case Some(v) => Some(if t[0] == '-' then -v else v)
      case None => None
    else UnsignedDecimal(t)
  }

  /** Integer text reads as the same number whether parsed as an integer or as a decimal. */
  lemma ParseDecimalOfInt(text: string)
    requires ParseInt(text).Some?
    ensures ParseDecimal(text) == Some(ParseInt(text).value as real)
  {
    var t := Strip(text);
    if |t| > 0 && (t[0] == '-' || t[0] == '+') {
      IntegerBody(t[1..]);
    } else {
      IntegerBody(t);
    }
  }

  lemma IntegerBody(ds: string)
    requires AllDigits(ds)
    ensures UnsignedDecimal(ds) == Some(DigitsValue(ds) as real)
  {
    assert forall k :: 0 <= k < |ds| ==> ds[k] != '.';
    SplitNone(ds, '.');
  }

  /** `s.replace(a, b)` for single characters. */
  function ReplaceChar(s: string, a: char, b: char): (r: string)
    ensures |r| == |s|
    ensures forall i :: 0 <= i < |s| ==> r[i] == if s[i] == a then b else s[i]
  {
    seq(|s|, i requires 0 <= i < |s| => if s[i] == a then b else s[i])
  }
}
