/** The per-minute telemetry sheet as both loaders hold it in a pandas DataFrame:
    a set of named columns and, per row, one cell per column.  The column
    operations the loaders perform (`usecols`, `fillna(0)`, assigning a new
    column, `df.get(col, 0)`, `pd.to_numeric(errors='coerce')`) and the
    "factory of records" they share (sort, per-group rolling window of five
    rows, per-athlete maximum) are defined here once. */
module Sheet {
  import opened Common
  import opened Text
  import opened Ordering
  import opened Grouping

  /** The columns the loaders read or create, by their header after `.str.strip()`. */
  datatype Col =
    | Data | Interval | IntervalMin | Name | Periodo | Placar | Resultado | Adversario
    | TotalDistance | V4Dist | V5Dist | V4Eff | V5Eff | V6Eff | Acc3Eff | Dec3Eff | PlayerLoad
    | Parte15 | Parte5 | Parte3 | Competicao | MetabolicPower | Latitude | Longitude
    | HIA | DiffGols | MinNum | DistanciaViagem | StatusLocal | JogouEmCasa

  /** A spreadsheet cell: a number, a text, or empty (pandas NaN). */
  datatype Cell = Number(x: real) | Str(s: string) | Blank

  /** A DataFrame: `n` rows and, for each of its columns, one cell per row. */
  datatype Table = Table(n: nat, cols: map<Col, seq<Cell>>)

  predicate Valid(t: Table)
  {
    forall c :: c in t.cols ==> |t.cols[c]| == t.n
  }

  /** `pd.DataFrame()`. */
  const EmptyTable := Table(0, map[])

  /** The cell of column `c` at row `i`, or empty when there is no such column. */
  function Get(t: Table, c: Col, i: nat): Cell
    requires Valid(t) && i < t.n
  {
    if c in t.cols then t.cols[c][i] else Blank
  }

  /** One row of a table, by column. */
  type Row = map<Col, Cell>

  /** The cell of column `c` of a row, or empty when the row has no such column. */
  function At(r: Row, c: Col): Cell
  {
    if c in r then r[c] else Blank
  }

  function RowOf(t: Table, i: nat): (r: Row)
    requires Valid(t) && i < t.n
    ensures r.Keys == t.cols.Keys
    ensures forall c :: At(r, c) == Get(t, c, i)
  {
    map c | c in t.cols :: t.cols[c][i]
  }

  /** The rows of a table, in order. */
  function Rows(t: Table): (rows: seq<Row>)
    requires Valid(t)
    ensures |rows| == t.n && forall i :: 0 <= i < t.n ==> rows[i] == RowOf(t, i)
  {
    seq(t.n, i requires 0 <= i < t.n => RowOf(t, i))
  }

  /** `read_excel(..., usecols=needed)`: only the columns `needed` accepts are kept. */
  function ReadColumns(sheet: Table, needed: Col -> bool): (t: Table)
    requires Valid(sheet)
    ensures Valid(t) && t.n == sheet.n
    ensures forall c :: c in t.cols <==> c in sheet.cols && needed(c)
    ensures forall c :: c in t.cols ==> t.cols[c] == sheet.cols[c]
  {
    Table(sheet.n, map c | c in sheet.cols && needed(c) :: sheet.cols[c])
  }

  /** `df[c] = values`: the column is added, or overwritten when it exists. */
  function WithColumn(t: Table, c: Col, values: seq<Cell>): (r: Table)
    requires Valid(t) && |values| == t.n
    ensures Valid(r) && r.n == t.n && r.cols.Keys == t.cols.Keys + {c}
    ensures r.cols[c] == values
    ensures forall d :: d in t.cols && d != c ==> r.cols[d] == t.cols[d]
  {
    Table(t.n, t.cols[c := values])
  }

  /** `r` holds every column of `t`, unchanged. */
  predicate Extends(r: Table, t: Table)
  {
    forall c :: c in t.cols ==> c in r.cols && r.cols[c] == t.cols[c]
  }

  lemma ExtendsTrans(a: Table, b: Table, c: Table)
    requires Extends(a, b) && Extends(b, c)
    ensures Extends(a, c)
  {
  }

  function FillCell(cell: Cell): (r: Cell)
    ensures r != Blank
    ensures cell != Blank ==> r == cell
  {
    if cell == Blank then Number(0.0) else cell
  }

  /** `df[cols] = df[cols].fillna(0)` for the columns `cols` accepts: every empty cell of
      those columns becomes 0 and nothing else changes; when one of them is not a column
      pandas raises `KeyError`, here `None`. */
  function FillZero(t: Table, cols: Col -> bool): (r: Option<Table>)
    requires Valid(t)
    ensures r.Some? <==> forall c :: cols(c) ==> c in t.cols
    ensures r.Some? ==> Valid(r.value) && r.value.n == t.n && r.value.cols.Keys == t.cols.Keys
    ensures r.Some? ==> forall c, i :: cols(c) && 0 <= i < t.n ==> r.value.cols[c][i] != Blank
    ensures r.Some? ==> forall c :: cols(c) ==> r.value.cols[c] == FillColumn(t.cols[c])
    ensures r.Some? ==> forall c :: c in t.cols && !cols(c) ==> r.value.cols[c] == t.cols[c]
  {
    if forall c :: cols(c) ==> c in t.cols then
      Some(Table(t.n, map c | c in t.cols :: if cols(c) then FillColumn(t.cols[c]) else t.cols[c]))
    else None
  }

  function FillColumn(s: seq<Cell>): (r: seq<Cell>)
    ensures |r| == |s| && forall i :: 0 <= i < |s| ==> r[i] == FillCell(s[i])
  {
    seq(|s|, i requires 0 <= i < |s| => FillCell(s[i]))
  }

  /** A metric cell as a number.  Metric columns are only read after `fillna(0)`, so an
      empty cell there reads as the 0 it was filled with; the loaders fail on text in the
      columns they add up (`NoText`), so text never reaches a sum. */
  function Metric(cell: Cell): real
  {
    match cell
    case Number(x) => x
    case _ => 0.0
  }

  /** The five effort counters that make up HIA (high-intensity actions). */
  const HiaParts: seq<Col> := [V4Eff, V5Eff, V6Eff, Acc3Eff, Dec3Eff]

  /** No cell of the columns `cols` that the table has holds text.  Adding text to a number
      raises `TypeError`, and so does a rolling sum over a column holding text. */
  predicate NoText(t: Table, cols: seq<Col>)
    requires Valid(t)
  {
    forall c, i :: c in cols && c in t.cols && 0 <= i < t.n ==> !t.cols[c][i].Str?
  }

  /** `fillna` changes only empty cells, so it keeps every text cell. */
  lemma FillKeepsText(t: Table, cols: Col -> bool, parts: seq<Col>)
    requires Valid(t) && FillZero(t, cols).Some?
    ensures NoText(FillZero(t, cols).value, parts) <==> NoText(t, parts)
  {
    var f := FillZero(t, cols).value;
    forall c, i | c in parts && c in t.cols && 0 <= i < t.n ensures f.cols[c][i].Str? <==> t.cols[c][i].Str? {
      if cols(c) {
        assert f.cols[c][i] == FillCell(t.cols[c][i]);
      }
    }
  }

  /** `df.get('V4 To8 Eff', 0) + df.get('V5 To8 Eff', 0) + df.get('V6 To8 Eff', 0)
      + df.get('Acc3 Eff', 0) + df.get('Dec3 Eff', 0)` at row `i`: an absent column reads
      as an empty cell, which `Metric` counts as 0. */
  function HiaAt(t: Table, i: nat): real
    requires Valid(t) && i < t.n
  {
    Metric(Get(t, V4Eff, i)) + Metric(Get(t, V5Eff, i)) + Metric(Get(t, V6Eff, i))
      + Metric(Get(t, Acc3Eff, i)) + Metric(Get(t, Dec3Eff, i))
  }

  /** HIA is the sum of the five counters, an absent counter counting 0. */
  lemma HiaIsSumOfParts(t: Table, i: nat)
    requires Valid(t) && i < t.n
    ensures HiaAt(t, i) == Sum(seq(|HiaParts|, k requires 0 <= k < |HiaParts| =>
      if HiaParts[k] in t.cols then Metric(t.cols[HiaParts[k]][i]) else 0.0))
  {
    var s := seq(|HiaParts|, k requires 0 <= k < |HiaParts| =>
      if HiaParts[k] in t.cols then Metric(t.cols[HiaParts[k]][i]) else 0.0);
    assert s == [s[0], s[1], s[2], s[3], s[4]];
    SumOfFive(s[0], s[1], s[2], s[3], s[4]);
  }

  lemma SumOfFive(a: real, b: real, c: real, d: real, e: real)
    ensures Sum([a, b, c, d, e]) == a + b + c + d + e
  {
    assert [a][..0] == [];
    assert Sum([a]) == a;
    assert [a, b][..1] == [a];
    assert Sum([a, b]) == a + b;
    assert [a, b, c][..2] == [a, b];
    assert Sum([a, b, c]) == a + b + c;
    assert [a, b, c, d][..3] == [a, b, c];
    assert Sum([a, b, c, d]) == a + b + c + d;
    assert [a, b, c, d, e][..4] == [a, b, c, d];
  }

  /** HIA depends on the five counters only. */
  lemma HiaSameParts(t: Table, i: nat, u: Table, j: nat)
    requires Valid(t) && i < t.n && Valid(u) && j < u.n
    requires forall p :: p in HiaParts ==> Get(t, p, i) == Get(u, p, j)
    ensures HiaAt(t, i) == HiaAt(u, j)
  {
    assert V4Eff in HiaParts && V5Eff in HiaParts && V6Eff in HiaParts && Acc3Eff in HiaParts && Dec3Eff in HiaParts;
  }

  function HiaColumn(t: Table): (r: seq<Cell>)
    requires Valid(t)
    ensures |r| == t.n
    ensures forall i :: 0 <= i < t.n ==> r[i] == Number(HiaAt(t, i))
  {
    seq(t.n, i requires 0 <= i < t.n => Number(HiaAt(t, i)))
  }

  /** `df['HIA'] = ...`: the HIA column added. */
  function WithHia(t: Table): (r: Table)
    requires Valid(t)
    ensures Valid(r) && r.n == t.n && r.cols.Keys == t.cols.Keys + {HIA}
  {
    WithColumn(t, HIA, HiaColumn(t))
  }

  /** `pd.to_numeric(cell, errors='coerce')`: numbers stay, numeric text is read, anything
      else becomes NaN (`None`). */
  function ToNumeric(cell: Cell): Option<real>
  {
    match cell
    case Number(x) => Some(x)
    case Str(s) => ParseDecimal(s)
    case Blank => None
  }

  /** `pd.to_numeric(..., errors='coerce').fillna(0)`. */
  function NumericOr0(cell: Cell): real
  {
    ToNumeric(cell).GetOr(0.0)
  }

  /** Integer text such as "12" gives that number; text that is no number gives 0. */
  lemma NumericOr0OfText(s: string)
    ensures ParseInt(s).Some? ==> NumericOr0(Str(s)) == ParseInt(s).value as real
    ensures ParseDecimal(s).None? ==> NumericOr0(Str(s)) == 0.0
  {
    if ParseInt(s).Some? { ParseDecimalOfInt(s); }
  }

  // ---------------------------------------------------------------------------
  // The factory of records: `sort_values`, `groupby([...]).rolling(5, min_periods=1).sum()`,
  // `groupby('Name').max()`.

  function AtomOf(c: Cell): (a: Atom)
    ensures a == Missing <==> c == Blank
  {
    match c
    case Number(x) => Num(x)
    case Str(s) => Text(s)
    case Blank => Missing
  }

  /** The group of a row in `groupby(['Name', 'Data', 'Período'])`. */
  function GroupKey(r: Row): SortKey
  {
    [AtomOf(At(r, Name)), AtomOf(At(r, Data)), AtomOf(At(r, Periodo))]
  }

  /** The order of `sort_values(by=['Name', 'Data', 'Período', fourth])`. */
  function RowOrder(fourth: Col): Row -> SortKey
  {
    r => GroupKey(r) + [AtomOf(At(r, fourth))]
  }

  /** `groupby` leaves out rows whose key holds an empty cell. */
  predicate KeysComplete(rows: seq<Row>)
  {
    forall i :: 0 <= i < |rows| ==> Missing !in GroupKey(rows[i])
  }

  function Keys(rows: seq<Row>): (r: seq<SortKey>)
    ensures |r| == |rows| && forall i :: 0 <= i < |rows| ==> r[i] == GroupKey(rows[i])
  {
    seq(|rows|, i requires 0 <= i < |rows| => GroupKey(rows[i]))
  }

  function MetricValues(rows: seq<Row>, c: Col): (r: seq<real>)
    ensures |r| == |rows| && forall i :: 0 <= i < |rows| ==> r[i] == Metric(At(rows[i], c))
  {
    seq(|rows|, i requires 0 <= i < |rows| => Metric(At(rows[i], c)))
  }

  function Names(rows: seq<Row>): (r: seq<Cell>)
    ensures |r| == |rows| && forall i :: 0 <= i < |rows| ==> r[i] == At(rows[i], Name)
  {
    seq(|rows|, i requires 0 <= i < |rows| => At(rows[i], Name))
  }

  /** The rolling five-row sum of column `c` within each (Name, Data, Período) group, at each
      row's own position.  The rows are already sorted by those keys, so this is also the
      order in which pandas concatenates the groups' results. */
  function WindowSums(rows: seq<Row>, c: Col): (r: seq<real>)
    ensures |r| == |rows|
  {
    GroupRoll(Keys(rows), MetricValues(rows, c), Rolling(5), SumOf)
  }

  /** `groupby('Name')[c].max()` of the window sums: the athlete's best five-row sum. */
  function RecordOf(rows: seq<Row>, c: Col): (m: map<Cell, real>)
    ensures forall n :: n in m <==> n in Names(rows)
  {
    MaxByKey(Names(rows), WindowSums(rows, c))
  }

  /** The columns `mapa_recordes` turns into records, and their aliases. */
  const RecordCols: seq<Col> := RecordMetrics + [HIA]

  /** The record columns read from the workbook: all but HIA. */
  const RecordMetrics: seq<Col> := [TotalDistance, PlayerLoad, V4Dist, V5Dist, V4Eff, V5Eff]

  /** HIA holds numbers only, so the record columns of a table given its HIA hold text
      exactly where the record metrics do. */
  lemma RecordText(t: Table, u: Table)
    requires Valid(t) && Valid(u) && u.n == t.n && HIA in t.cols && t.cols[HIA] == HiaColumn(u)
    ensures NoText(t, RecordCols) <==> NoText(t, RecordMetrics)
  {
    forall c | c in RecordCols ensures c in RecordMetrics || c == HIA {
    }
  }

  function RecordAlias(c: Col): string
  {
    match c
    case TotalDistance => "Dist_Total"
    case PlayerLoad => "Load_Total"
    case V4Dist => "V4_Dist"
    case V5Dist => "V5_Dist"
    case V4Eff => "V4_Eff"
    case V5Eff => "V5_Eff"
    case _ => "HIA_Total"
  }

  /** The header a record column is renamed to. */
  function RecordHeader(c: Col): string
  {
    "Recorde_5min_" + RecordAlias(c)
  }

  /** For each record column, the per-athlete record. */
  type Records = map<Col, map<Cell, real>>

  /** The record table built from a loaded table, sorting by `fourth` as the fourth key.  When a key
      column holds an empty cell the rolling result has fewer rows than the sorted table and
      assigning the names back raises `ValueError`; a text cell in a record column makes the
      rolling sum raise.  Both are `None` here. */
  function RecordTable(t: Table, fourth: Col): (r: Option<Records>)
    requires Valid(t)
    ensures r.Some? <==> KeysComplete(Rows(t)) && NoText(t, RecordCols)
    ensures r.Some? ==> forall c :: c in r.value <==> c in RecordCols && c in t.cols
  {
    var sorted := SortBy(Rows(t), RowOrder(fourth));
    SortKeepsKeys(Rows(t), RowOrder(fourth));
    if KeysComplete(sorted) && NoText(t, RecordCols) then
      Some(map c | c in RecordCols && c in t.cols :: RecordOf(sorted, c))
    else None
  }

  /** Sorting moves rows but keeps every one, so it keeps the completeness of the keys. */
  lemma SortKeepsKeys(rows: seq<Row>, key: Row -> SortKey)
    ensures KeysComplete(SortBy(rows, key)) <==> KeysComplete(rows)
    ensures forall r :: r in SortBy(rows, key) <==> r in rows
  {
    var s := SortBy(rows, key);
    SortByPermutes(rows, key);
    forall r ensures r in s <==> r in rows {
      assert r in s <==> r in multiset(s);
      assert r in rows <==> r in multiset(rows);
    }
    if KeysComplete(rows) {
      forall i | 0 <= i < |s| ensures Missing !in GroupKey(s[i]) {
        assert s[i] in rows;
      }
    }
    if KeysComplete(s) {
      forall i | 0 <= i < |rows| ensures Missing !in GroupKey(rows[i]) {
        assert rows[i] in s;
      }
    }
  }

  /** Each window sum is the sum of the last (up to) five rows of the row's own group,
      ending at the row itself: windows never reach into another group. */
  lemma WindowSumAt(rows: seq<Row>, c: Col, i: nat)
    requires i < |rows|
    ensures WindowSums(rows, c)[i]
            == Sum(LastN(Earlier(Keys(rows), MetricValues(rows, c), i) + [Metric(At(rows[i], c))], 5))
  {
    GroupRollAt(Keys(rows), MetricValues(rows, c), Rolling(5), SumOf, i);
  }

  /** With non-negative values, a window is at least the minute it ends at. */
  lemma WindowAtLeastOwnMinute(rows: seq<Row>, c: Col, i: nat)
    requires i < |rows|
    requires AllNonNegative(MetricValues(rows, c))
    ensures WindowSums(rows, c)[i] >= Metric(At(rows[i], c))
  {
    var e := Earlier(Keys(rows), MetricValues(rows, c), i);
    var v := Metric(At(rows[i], c));
    WindowSumAt(rows, c, i);
    GroupOfValuesFrom(Keys(rows)[..i], MetricValues(rows, c)[..i], Keys(rows)[i]);
    assert AllNonNegative(e + [v]) by {
      assert AllNonNegative(MetricValues(rows, c)[..i]);
      assert v == MetricValues(rows, c)[i];
    }
    LastNSumGrows(e + [v], 1, 5);
    assert LastN(e + [v], 1) == [v];
    assert Sum([v]) == v by { assert [v][..0] == []; }
  }

  /** With non-negative values, an athlete's record is at least every single minute value of
      any of their rows. */
  lemma RecordAtLeastEveryMinute(rows: seq<Row>, c: Col, i: nat)
    requires i < |rows|
    requires AllNonNegative(MetricValues(rows, c))
    ensures At(rows[i], Name) in RecordOf(rows, c)
    ensures RecordOf(rows, c)[At(rows[i], Name)] >= Metric(At(rows[i], c))
  {
    var names := Names(rows);
    var w := WindowSums(rows, c);
    WindowAtLeastOwnMinute(rows, c, i);
    RecordAtLeastWindow(names, w, i);
  }

  lemma RecordAtLeastWindow(names: seq<Cell>, w: seq<real>, i: nat)
    requires |names| == |w| && i < |w|
    ensures names[i] in MaxByKey(names, w) && MaxByKey(names, w)[names[i]] >= w[i]
  {
    var g := GroupOf(names, w, names[i]);
    GroupAtRank(names, w, i);
  }

  /** An athlete's record is one of their window sums. */
  lemma RecordIsAWindow(rows: seq<Row>, c: Col, n: Cell)
    requires n in RecordOf(rows, c)
    ensures exists i :: 0 <= i < |rows| && At(rows[i], Name) == n && WindowSums(rows, c)[i] == RecordOf(rows, c)[n]
  {
    var names := Names(rows);
    var w := WindowSums(rows, c);
    var k := MaxOfGroupIsAt(names, w, n);
  }

  lemma MaxOfGroupIsAt(names: seq<Cell>, w: seq<real>, n: Cell) returns (i: nat)
    requires |names| == |w| && n in names
    ensures i < |w| && names[i] == n && w[i] == MaxByKey(names, w)[n]
  {
    var g := GroupOf(names, w, n);
    OccurrencesPositive(names, n);
    GroupOfLength(names, w, n);
    var m := MaxOf(g);
    var j :| 0 <= j < |g| && g[j] == m;
    i := GroupMemberAt(names, w, n, j);
  }

  /** Every element of a group is the value of some row with that key. */
  lemma {:induction false} GroupMemberAt<K, V>(keys: seq<K>, vals: seq<V>, k: K, j: nat) returns (i: nat)
    requires |keys| == |vals| && j < |GroupOf(keys, vals, k)|
    ensures i < |keys| && keys[i] == k && vals[i] == GroupOf(keys, vals, k)[j]
    decreases |keys|
  {
    var n := |keys| - 1;
    var g0 := GroupOf(keys[..n], vals[..n], k);
    if j < |g0| {
      i := GroupMemberAt(keys[..n], vals[..n], k, j);
    } else {
      i := n;
    }
  }

  /** Within one (Name, Data, Período) game the record is the best rolling five-row sum of the
      game's rows. */
  lemma OneGameRecord(rows: seq<Row>, c: Col)
    requires |rows| > 0 && forall i :: 0 <= i < |rows| ==> GroupKey(rows[i]) == GroupKey(rows[0])
    ensures RecordOf(rows, c) == map[At(rows[0], Name) := MaxOf(RollSeries(MetricValues(rows, c), Rolling(5), SumOf))]
  {
    var names := Names(rows);
    forall i | 0 <= i < |rows| ensures names[i] == names[0] {
      assert GroupKey(rows[i])[0] == GroupKey(rows[0])[0];
    }
    OneGroupRoll(Keys(rows), MetricValues(rows, c), Rolling(5), SumOf);
    OneGroupMax(names, WindowSums(rows, c));
  }

  /** Six minutes of 10: the best five-minute window is 50. */
  lemma RecordOfSteadyGame()
    ensures MaxOf(RollSeries([10.0, 10.0, 10.0, 10.0, 10.0, 10.0], Rolling(5), SumOf)) == 50.0
  {
    var xs := [10.0, 10.0, 10.0, 10.0, 10.0, 10.0];
    var r := RollSeries(xs, Rolling(5), SumOf);
    TrailingSums(xs);
    assert r == [10.0, 20.0, 30.0, 40.0, 50.0, 50.0];
    MaxOfSix(r);
  }

  /** 5, then four idle minutes, then 20: no window of five rows holds both, so the record is 20. */
  lemma RecordOfLateBurst()
    ensures MaxOf(RollSeries([5.0, 0.0, 0.0, 0.0, 0.0, 20.0], Rolling(5), SumOf)) == 20.0
  {
    var xs := [5.0, 0.0, 0.0, 0.0, 0.0, 20.0];
    var r := RollSeries(xs, Rolling(5), SumOf);
    TrailingSums(xs);
    assert r == [5.0, 5.0, 5.0, 5.0, 5.0, 20.0];
    MaxOfSix(r);
  }

  /** The rolling five-row sums of a six-element sequence, written out. */
  lemma TrailingSums(xs: seq<real>)
    requires |xs| == 6
    ensures var r := RollSeries(xs, Rolling(5), SumOf);
            r[0] == xs[0] && r[1] == xs[0] + xs[1] && r[2] == xs[0] + xs[1] + xs[2]
            && r[3] == xs[0] + xs[1] + xs[2] + xs[3]
            && r[4] == xs[0] + xs[1] + xs[2] + xs[3] + xs[4]
            && r[5] == xs[1] + xs[2] + xs[3] + xs[4] + xs[5]
  {
    var r := RollSeries(xs, Rolling(5), SumOf);
    PrefixSum(xs, 1);
    PrefixSum(xs, 2);
    PrefixSum(xs, 3);
    PrefixSum(xs, 4);
    PrefixSum(xs, 5);
    assert xs[..6] == xs;
    assert r[5] == Sum(LastN(xs, 5));
    assert LastN(xs, 5) == xs[1..];
    assert xs[1..] == [xs[1], xs[2], xs[3], xs[4], xs[5]];
    SumOfFive(xs[1], xs[2], xs[3], xs[4], xs[5]);
  }

  lemma PrefixSum(xs: seq<real>, n: nat)
    requires 1 <= n <= 5 && n <= |xs|
    ensures Sum(LastN(xs[..n], 5)) == Sum(xs[..n])
    ensures n == 1 ==> Sum(xs[..n]) == xs[0]
    ensures n > 1 ==> Sum(xs[..n]) == Sum(xs[..n - 1]) + xs[n - 1]
  {
    assert xs[..n][..n - 1] == xs[..n - 1];
    if n == 1 { assert xs[..1][..0] == []; }
  }

  lemma MaxOfSix(r: seq<real>)
    requires |r| == 6
    ensures MaxOf(r) == Max(Max(Max(r[0], r[1]), Max(r[2], r[3])), Max(r[4], r[5]))
  {
    var m := MaxOf(r);
    var j :| 0 <= j < 6 && r[j] == m;
  }
}
