/** The feature script ADF_Online/predictive.py, lines 79-306: the derived per-minute columns,
    the in-game fatigue features per (athlete, day), and the per-game history table with its
    rest days, earlier-games means, load sums, trend and game counter.

    The script's sheet arrives here as it is after its own loading step (line 66): one row per
    five-minute record, with the athlete's name, the day number of the game, the raw
    'Interval' cells and the numeric metric columns the workbook has. */
module GameFeatures {
  import opened Common
  import opened Ordering
  import opened Grouping
  import opened Score

  /** `JANELA_INTRA`: the sliding window of the in-game features, in rows. */
  const IntraWindow: nat := 5

  /** The per-minute columns the script reads from the workbook, then the ones it adds. */
  datatype Column =
    | TotalDistance | PlayerLoad | MetabolicPower
    | V4Dist | V5Dist | V6Dist | V7Dist | V8Dist
    | V4Eff | V5Eff | V6Eff | Acc3Eff | Dec3Eff | Acc3Dist | Dec3Dist
    | AvgHeartRatePct | HeartRatePct
    | Hia | HsDist | SprintDist | HrPct | DiffGols | MinNum | FaseJogo
    | DistJanela | HiaJanela | LoadJanela | HsJanela | HrJanela | MetPowJanela
    | DistAcum | HiaAcum | LoadAcum | SprintAcum | Acc3Acum | Dec3Acum
    | PicoDist | Decaimento | DistPorMin | LoadPorMin | HiaPorMin

  /** A per-minute frame held column by column. */
  datatype Frame = Frame(n: nat, cols: map<Column, seq<real>>)

  predicate Valid(f: Frame)
  {
    forall c :: c in f.cols ==> |f.cols[c]| == f.n
  }

  /** The sheet: per row the athlete, the day, the 'Interval' cell as `pd.to_numeric` reads it
      (`None` when it is not a number), the optional 'Interval (min)' and 'Placar' columns,
      and the numeric columns. */
  datatype Minutes = Minutes(
    names: seq<string>,
    days: seq<int>,
    interval: seq<Option<real>>,
    intervalMin: Option<seq<Option<real>>>,
    placar: Option<seq<Option<string>>>,
    metrics: Frame)

  predicate ValidMinutes(m: Minutes)
  {
    && Valid(m.metrics)
    && |m.names| == m.metrics.n && |m.days| == m.metrics.n && |m.interval| == m.metrics.n
    && (m.intervalMin.Some? ==> |m.intervalMin.value| == m.metrics.n)
    && (m.placar.Some? ==> |m.placar.value| == m.metrics.n)
  }

  /** The (Name, Data) group key of every row. */
  function MinuteKeys(m: Minutes): (keys: seq<SortKey>)
    requires ValidMinutes(m)
    ensures |keys| == m.metrics.n && Keyed(keys)
  {
    seq(m.metrics.n, i requires 0 <= i < m.metrics.n => [Text(m.names[i]), Int(m.days[i])])
  }

  /** Every key is an (athlete, day) pair. */
  predicate Keyed(keys: seq<SortKey>)
  {
    forall k: SortKey :: k in keys ==> |k| == 2 && k[0].Text? && k[1].Int?
  }

  // ---------------------------------------------------------------------------
  // Columns that may be missing.

  /** Column `c` at row `i`, or 0 when the frame lacks the column. */
  function ValueOr0(f: Frame, c: Column, i: nat): real
    requires Valid(f) && i < f.n
  {
    if c in f.cols then f.cols[c][i] else 0.0
  }

  /** The column as `if c not in df.columns: df[c] = 0` leaves it. */
  function ColumnOr0(f: Frame, c: Column): (r: seq<real>)
    requires Valid(f)
    ensures |r| == f.n && forall i :: 0 <= i < f.n ==> r[i] == ValueOr0(f, c, i)
  {
    if c in f.cols then f.cols[c] else Zeros(f.n)
  }

  /** Every column of `f` outside `except` is column `c` of `w`, or zeros where `w` lacks it. */
  predicate Padded(f: Frame, w: Frame, except: set<Column>)
    requires Valid(w)
  {
    forall c :: c in f.cols && c !in except ==> f.cols[c] == ColumnOr0(w, c)
  }

  /** Padding twice is padding once, when the middle frame keeps the columns of the first. */
  lemma PaddedTrans(f: Frame, g: Frame, w: Frame, e1: set<Column>, e2: set<Column>)
    requires Valid(w) && Valid(g) && g.n == w.n && (forall c :: c in w.cols ==> c in g.cols)
    requires Padded(f, g, e1) && Padded(g, w, e2)
    ensures Padded(f, w, e1 + e2)
  {
  }

  /** A padded frame has the row sums of the frame it pads, over columns it did not rewrite. */
  lemma PaddedSumColumn(f: Frame, w: Frame, e: set<Column>, parts: seq<Column>)
    requires Valid(w) && Valid(f) && f.n == w.n && (forall c :: c in w.cols ==> c in f.cols)
    requires Padded(f, w, e) && forall c :: c in parts ==> c !in e
    ensures SumColumn(f, parts) == SumColumn(w, parts)
  {
    forall i | 0 <= i < f.n ensures RowSum(f, parts, i) == RowSum(w, parts, i) {
      RowSumAgrees(f, w, parts, i);
    }
  }

  /** `for c in cs: if c not in df.columns: df[c] = 0`. */
  method AddMissing(f: Frame, cs: seq<Column>) returns (r: Frame)
    requires Valid(f)
    ensures Valid(r) && r.n == f.n
    ensures forall c :: c in r.cols <==> c in f.cols || c in cs
    ensures Padded(r, f, {})
  {
    r := f;
    for k := 0 to |cs|
      invariant Valid(r) && r.n == f.n
      invariant forall c :: c in r.cols <==> c in f.cols || c in cs[..k]
      invariant Padded(r, f, {})
    {
      assert cs[..k + 1] == cs[..k] + [cs[k]];
      if cs[k] !in r.cols {
        r := r.(cols := r.cols[cs[k] := Zeros(r.n)]);
      }
    }
    assert cs[..|cs|] == cs;
  }

  // ---------------------------------------------------------------------------
  // Per-row values.

  /** The heart-rate column the script settles on: the average one, else the plain one. */
  function HeartRateColumn(f: Frame): Option<Column>
  {
    if AvgHeartRatePct in f.cols then Some(AvgHeartRatePct)
    else if HeartRatePct in f.cols then Some(HeartRatePct)
    else None
  }

  /** `Min_Num`: 'Interval (min)' when the sheet has it, else 'Interval', read as a number,
      0 where it is not one. */
  function MinuteOf(m: Minutes, i: nat): real
    requires ValidMinutes(m) && i < m.metrics.n
  {
    (if m.intervalMin.Some? then m.intervalMin.value[i] else m.interval[i]).GetOr(0.0)
  }

  /** `Diff_Gols`: the score parsed by `extrair_diff_gols`, 0 without a 'Placar' column. */
  function DiffOf(m: Minutes, i: nat): int
    requires ValidMinutes(m) && i < m.metrics.n
  {
    if m.placar.Some? then GoalDiff(CellText(m.placar.value[i])) else 0
  }

  /** 'Min_Num' for every row of the sheet. */
  function MinuteColumn(m: Minutes): (r: seq<real>)
    requires ValidMinutes(m)
    ensures |r| == m.metrics.n
  {
    seq(m.metrics.n, i requires 0 <= i < m.metrics.n => MinuteOf(m, i))
  }

  /** 'Diff_Gols' for every row of the sheet. */
  function DiffColumn(m: Minutes): (r: seq<real>)
    requires ValidMinutes(m)
    ensures |r| == m.metrics.n
  {
    seq(m.metrics.n, i requires 0 <= i < m.metrics.n => DiffOf(m, i) as real)
  }

  /** 'Resultado' for every row of the sheet. */
  function ResultColumn(m: Minutes): (r: seq<char>)
    requires ValidMinutes(m)
    ensures |r| == m.metrics.n
  {
    seq(m.metrics.n, i requires 0 <= i < m.metrics.n => ResultLabel(DiffOf(m, i)))
  }

  /** `Fase_Jogo`: `pd.cut(min, bins=[0, 30, 60, 200], labels=[0, 1, 2], right=True)`, with
      minutes outside every bin (0 and below, above 200) filled with 0.  Inside the bins the
      phase counts the inner edges, 30 and 60, that the minute has passed. */
  function Phase(minute: real): (r: real)
    ensures 0.0 < minute <= 200.0 ==> r == (if minute > 30.0 then 1.0 else 0.0) + (if minute > 60.0 then 1.0 else 0.0)
    ensures !(0.0 < minute <= 200.0) ==> r == 0.0
  {
    if 0.0 < minute <= 30.0 then 0.0
    else if 30.0 < minute <= 60.0 then 1.0
    else if 60.0 < minute <= 200.0 then 2.0
    else 0.0
  }

  /** `Decaimento`: the row's distance over the game's peak, 1 when the peak is 0 (the
      division by NaN is filled with 1), clipped to [0, 2]. */
  function Decay(dist: real, peak: real): (r: real)
    ensures 0.0 <= r <= 2.0
    ensures peak == 0.0 ==> r == 1.0
    ensures peak != 0.0 && 0.0 <= dist / peak <= 2.0 ==> r == dist / peak
  {
    if peak == 0.0 then 1.0 else Clip(dist / peak, 0.0, 2.0)
  }

  /** `Dist_por_Min` and its siblings: an accumulated value per minute played, 0 at minute 0. */
  function PerMinute(total: real, minute: real): (r: real)
    ensures minute == 0.0 ==> r == 0.0
    ensures minute != 0.0 ==> r * minute == total
  {
    if minute == 0.0 then 0.0 else total / minute
  }

  /** Element-wise sum of three columns of the same length. */
  function Add3(a: seq<real>, b: seq<real>, c: seq<real>): (r: seq<real>)
    requires |a| == |b| == |c|
    ensures |r| == |a| && forall i :: 0 <= i < |a| ==> r[i] == a[i] + b[i] + c[i]
  {
    seq(|a|, i requires 0 <= i < |a| => a[i] + b[i] + c[i])
  }

  // ---------------------------------------------------------------------------
  // Lines 79-145: derived per-minute columns.

  const HiaParts: seq<Column> := [V4Eff, V5Eff, V6Eff, Acc3Eff, Dec3Eff]
  const HsParts: seq<Column> := [V4Dist, V5Dist, V6Dist]
  const SprintParts: seq<Column> := [V7Dist, V8Dist]
  const RatioParts: seq<Column> := [Acc3Eff, Dec3Eff, Acc3Dist, Dec3Dist]

  /** The columns lines 79-98 default to 0 when the workbook lacks them. */
  predicate Defaulted(c: Column)
  {
    match c
    case V4Eff | V5Eff | V6Eff | Acc3Eff | Dec3Eff | V4Dist | V5Dist | V6Dist | V7Dist | V8Dist
      | Acc3Dist | Dec3Dist => true
    case _ => false
  }

  /** They are the columns of the four lists the section walks through. */
  lemma DefaultedLists()
    ensures forall c :: Defaulted(c) <==> c in HiaParts || c in HsParts || c in SprintSum || c in RatioParts
  {
  }

  /** The sum of the columns `parts` at row `i`, a missing column counting 0. */
  function RowSum(f: Frame, parts: seq<Column>, i: nat): real
    requires Valid(f) && i < f.n
  {
    if |parts| == 0 then 0.0 else RowSum(f, parts[..|parts| - 1], i) + ValueOr0(f, parts[|parts| - 1], i)
  }

  /** Two frames that agree on the columns `parts` give the same row sums over them. */
  lemma {:induction false} RowSumAgrees(f: Frame, w: Frame, parts: seq<Column>, i: nat)
    requires Valid(f) && Valid(w) && i < f.n == w.n
    requires forall c :: c in parts ==> ValueOr0(f, c, i) == ValueOr0(w, c, i)
    ensures RowSum(f, parts, i) == RowSum(w, parts, i)
    decreases |parts|
  {
    if |parts| > 0 {
      RowSumAgrees(f, w, parts[..|parts| - 1], i);
    }
  }

  /** The row sums of `parts`, as a column. */
  function SumColumn(w: Frame, parts: seq<Column>): (r: seq<real>)
    requires Valid(w)
    ensures |r| == w.n && forall i :: 0 <= i < w.n ==> r[i] == RowSum(w, parts, i)
  {
    seq(w.n, i requires 0 <= i < w.n => RowSum(w, parts, i))
  }

  /** `for c in parts: if c not in df.columns: df[c] = 0`, then `df[target]` is the row sum of
      `parts`. */
  method AddSum(w: Frame, parts: seq<Column>, target: Column) returns (f: Frame)
    requires Valid(w) && target !in parts
    ensures Valid(f) && f.n == w.n
    ensures forall c :: c in f.cols <==> c in w.cols || c in parts || c == target
    ensures Padded(f, w, {target})
    ensures f.cols[target] == SumColumn(w, parts)
  {
    var p := AddMissing(w, parts);
    PaddedSumColumn(p, w, {}, parts);
    f := p.(cols := p.cols[target := SumColumn(p, parts)]);
  }

  /** 'Sprint_Dist' adds V6 (defaulted with the high-speed parts) to V7 and V8. */
  const SprintSum: seq<Column> := [V6Dist, V7Dist, V8Dist]

  /** Lines 85-93: the high-speed distance V4 + V5 + V6 and the sprint distance V6 + V7 + V8,
      each part defaulting to 0 first. */
  method AddDistances(w: Frame) returns (f: Frame)
    requires Valid(w)
    ensures Valid(f) && f.n == w.n
    ensures forall c :: c in f.cols <==> c in w.cols || c in HsParts || c in SprintSum || c == HsDist || c == SprintDist
    ensures Padded(f, w, {HsDist, SprintDist})
    ensures f.cols[HsDist] == SumColumn(w, HsParts)
    ensures f.cols[SprintDist] == SumColumn(w, SprintSum)
  {
    var f1 := AddSum(w, HsParts, HsDist);
    f := AddSum(f1, SprintSum, SprintDist);
    PaddedSumColumn(f1, w, {HsDist}, SprintSum);
    PaddedTrans(f, f1, w, {SprintDist}, {HsDist});
    assert {SprintDist} + {HsDist} == {HsDist, SprintDist};
  }

  /** Lines 79-98: the counters and distances a sum needs default to 0, then HIA, the
      high-speed distance and the sprint distance are the sums of their parts, a part missing
      from the workbook counting 0.  'AccDec3_Ratio' (line 98) is not modelled. */
  method AddCounts(w: Frame) returns (f: Frame)
    requires Valid(w)
    ensures Valid(f) && f.n == w.n
    ensures forall c :: c in f.cols <==> c in w.cols || Defaulted(c) || c == Hia || c == HsDist || c == SprintDist
    ensures Padded(f, w, {Hia, HsDist, SprintDist})
    ensures f.cols[Hia] == SumColumn(w, HiaParts)
    ensures f.cols[HsDist] == SumColumn(w, HsParts)
    ensures f.cols[SprintDist] == SumColumn(w, SprintSum)
  {
    var f1 := AddSum(w, HiaParts, Hia);
    var f2 := AddDistances(f1);
    PaddedSumColumn(f1, w, {Hia}, HsParts);
    PaddedSumColumn(f1, w, {Hia}, SprintSum);
    f := AddMissing(f2, RatioParts);
    assert f.cols[Hia] == f2.cols[Hia] == f1.cols[Hia];
    assert f.cols[HsDist] == f2.cols[HsDist] && f.cols[SprintDist] == f2.cols[SprintDist];
    PaddedTrans(f2, f1, w, {HsDist, SprintDist}, {Hia});
    PaddedTrans(f, f2, w, {}, {HsDist, SprintDist} + {Hia});
    assert {} + ({HsDist, SprintDist} + {Hia}) == {Hia, HsDist, SprintDist};
    DefaultedLists();
  }

  /** Lines 101-108: 'HR_Pct' is the average heart-rate percentage, else the plain one, else 0. */
  method AddHeartRate(w: Frame) returns (f: Frame)
    requires Valid(w)
    ensures Valid(f) && f.n == w.n && f.cols.Keys == w.cols.Keys + {HrPct}
    ensures forall c :: c in w.cols && c != HrPct ==> f.cols[c] == w.cols[c]
    ensures HeartRateColumn(w).None? ==> f.cols[HrPct] == Zeros(w.n)
    ensures HeartRateColumn(w).Some? ==> f.cols[HrPct] == w.cols[HeartRateColumn(w).value]
  {
    var hr := HeartRateColumn(w);
    if hr.None? {
      f := w.(cols := w.cols[HrPct := Zeros(w.n)]);
    } else {
      f := w.(cols := w.cols[HrPct := w.cols[hr.value]]);
    }
  }

  /** Lines 128-135: 'Diff_Gols' from the score text and 'Resultado' from its sign; 0 and 'E'
      without a 'Placar' column. */
  method AddScore(m: Minutes, w: Frame) returns (f: Frame, resultado: seq<char>)
    requires ValidMinutes(m) && Valid(w) && w.n == m.metrics.n
    ensures Valid(f) && f.n == w.n && f.cols.Keys == w.cols.Keys + {DiffGols} && |resultado| == w.n
    ensures forall c :: c in w.cols && c != DiffGols ==> f.cols[c] == w.cols[c]
    ensures f.cols[DiffGols] == DiffColumn(m) && resultado == ResultColumn(m)
    ensures m.placar.None? ==> forall i :: 0 <= i < w.n ==> f.cols[DiffGols][i] == 0.0 && resultado[i] == 'E'
  {
    var n := w.n;
    var diff := seq(n, i requires 0 <= i < n => DiffOf(m, i) as real);
    resultado := seq(n, i requires 0 <= i < n => ResultLabel(DiffOf(m, i)));
    f := w.(cols := w.cols[DiffGols := diff]);
  }

  /** Lines 137-145: 'Min_Num' and the game phase 'Fase_Jogo'. */
  method AddMinute(m: Minutes, w: Frame) returns (f: Frame)
    requires ValidMinutes(m) && Valid(w) && w.n == m.metrics.n
    ensures Valid(f) && f.n == w.n && f.cols.Keys == w.cols.Keys + {MinNum, FaseJogo}
    ensures forall c :: c in w.cols && c != MinNum && c != FaseJogo ==> f.cols[c] == w.cols[c]
    ensures f.cols[MinNum] == MinuteColumn(m)
    ensures forall i :: 0 <= i < w.n ==> f.cols[FaseJogo][i] == Phase(MinuteOf(m, i))
  {
    var n := w.n;
    var minutes := seq(n, i requires 0 <= i < n => MinuteOf(m, i));
    f := w.(cols := w.cols[MinNum := minutes]);
    f := f.(cols := f.cols[FaseJogo := seq(n, i requires 0 <= i < n => Phase(minutes[i]))]);
  }

  // ---------------------------------------------------------------------------
  // Lines 155-197: in-game features per (athlete, day).

  /** `g` holds the columns of `f` other than `except`, and no others of theirs, unchanged. */
  predicate Keeps(f: Frame, g: Frame, except: set<Column>)
  {
    forall c :: c !in except ==> (c in g.cols <==> c in f.cols) && (c in f.cols ==> g.cols[c] == f.cols[c])
  }

  lemma KeepsTrans(f: Frame, g: Frame, h: Frame, e1: set<Column>, e2: set<Column>)
    requires Keeps(f, g, e1) && Keeps(g, h, e2)
    ensures Keeps(f, h, e1 + e2)
  {
  }

  /** What a window feature becomes: the group-wise transform of `c`, or zeros when the frame
      lacks `c`. */
  function Windowed(f: Frame, keys: seq<SortKey>, c: Column, w: Window, red: Reducer): (r: seq<real>)
    requires Valid(f) && |keys| == f.n && ValidWindow(w)
    ensures |r| == f.n
  {
    if c in f.cols then GroupRoll(keys, f.cols[c], w, red) else Zeros(f.n)
  }

  /** The (column, alias) list writes only into `aliases`, reads no alias and gives no two
      pairs the same alias. */
  predicate Renames(pairs: seq<(Column, Column)>, aliases: set<Column>)
  {
    && (forall k :: 0 <= k < |pairs| ==> pairs[k].1 in aliases && pairs[k].0 !in aliases)
    && (forall i, j :: 0 <= i < j < |pairs| ==> pairs[i].1 != pairs[j].1)
  }

  /** Every alias of `pairs` holds in `g` the window of its source column in `f`. */
  predicate WindowsOf(f: Frame, keys: seq<SortKey>, g: Frame, pairs: seq<(Column, Column)>, w: Window, red: Reducer)
    requires Valid(f) && |keys| == f.n && ValidWindow(w)
  {
    forall k :: 0 <= k < |pairs| ==>
      pairs[k].1 in g.cols && g.cols[pairs[k].1] == Windowed(f, keys, pairs[k].0, w, red)
  }

  /** Windows survive a step that keeps their aliases. */
  lemma WindowsKept(f: Frame, keys: seq<SortKey>, g: Frame, h: Frame, pairs: seq<(Column, Column)>,
                    w: Window, red: Reducer, e: set<Column>)
    requires Valid(f) && |keys| == f.n && ValidWindow(w)
    requires WindowsOf(f, keys, g, pairs, w, red) && Keeps(g, h, e)
    requires forall k :: 0 <= k < |pairs| ==> pairs[k].1 !in e
    ensures WindowsOf(f, keys, h, pairs, w, red)
  {
  }

  /** Windows over columns a step kept are the same before and after it. */
  lemma WindowsOverKept(f: Frame, keys: seq<SortKey>, g: Frame, h: Frame, pairs: seq<(Column, Column)>,
                        w: Window, red: Reducer, e: set<Column>)
    requires Valid(f) && Valid(g) && g.n == f.n && |keys| == f.n && ValidWindow(w)
    requires WindowsOf(g, keys, h, pairs, w, red) && Keeps(f, g, e)
    requires forall k :: 0 <= k < |pairs| ==> pairs[k].0 !in e
    ensures WindowsOf(f, keys, h, pairs, w, red)
  {
  }

  /** `for col, alias in pairs: df[alias] = grp[col].transform(...) if col in df.columns else 0`. */
  method AddWindows(f: Frame, keys: seq<SortKey>, pairs: seq<(Column, Column)>, aliases: set<Column>,
                    w: Window, red: Reducer) returns (r: Frame)
    requires Valid(f) && |keys| == f.n && ValidWindow(w) && Renames(pairs, aliases)
    ensures Valid(r) && r.n == f.n
    ensures Keeps(f, r, aliases) && WindowsOf(f, keys, r, pairs, w, red)
  {
    r := f;
    for k := 0 to |pairs|
      invariant Valid(r) && r.n == f.n && Keeps(f, r, aliases)
      invariant forall j :: 0 <= j < k ==>
        pairs[j].1 in r.cols && r.cols[pairs[j].1] == Windowed(f, keys, pairs[j].0, w, red)
    {
      var (col, alias) := pairs[k];
      assert Windowed(r, keys, col, w, red) == Windowed(f, keys, col, w, red);
      r := r.(cols := r.cols[alias := Windowed(r, keys, col, w, red)]);
    }
  }

  const WindowPairs: seq<(Column, Column)> :=
    [(TotalDistance, DistJanela), (Hia, HiaJanela), (PlayerLoad, LoadJanela),
     (HsDist, HsJanela), (HrPct, HrJanela), (MetabolicPower, MetPowJanela)]

  const AcumPairs: seq<(Column, Column)> :=
    [(TotalDistance, DistAcum), (Hia, HiaAcum), (PlayerLoad, LoadAcum),
     (SprintDist, SprintAcum), (Acc3Eff, Acc3Acum), (Dec3Eff, Dec3Acum)]

  const WindowAliases: set<Column> := {DistJanela, HiaJanela, LoadJanela, HsJanela, HrJanela, MetPowJanela}

  const AcumAliases: set<Column> := {DistAcum, HiaAcum, LoadAcum, SprintAcum, Acc3Acum, Dec3Acum}

  /** The columns lines 186-197 write. */
  const PeakCols: set<Column> := {PicoDist, Decaimento, DistPorMin, LoadPorMin, HiaPorMin}

  lemma WindowPairsRename()
    ensures Renames(WindowPairs, WindowAliases)
  {
  }

  lemma AcumPairsRename()
    ensures Renames(AcumPairs, AcumAliases)
  {
  }

  /** The peak, decay and per-minute columns of `g`, from `g`'s own distance, minute and
      accumulated columns: the peak is the largest distance of the row's (athlete, day), the
      decay the distance against it, and each per-minute value the accumulated value over the
      minute played. */
  predicate PeakFeatures(keys: seq<SortKey>, g: Frame)
  {
    && Valid(g) && |keys| == g.n
    && TotalDistance in g.cols && MinNum in g.cols && DistAcum in g.cols && LoadAcum in g.cols && HiaAcum in g.cols
    && PicoDist in g.cols && Decaimento in g.cols && DistPorMin in g.cols && LoadPorMin in g.cols && HiaPorMin in g.cols
    && g.cols[PicoDist] == GroupMax(keys, g.cols[TotalDistance])
    && forall i :: 0 <= i < g.n ==>
         && g.cols[Decaimento][i] == Decay(g.cols[TotalDistance][i], g.cols[PicoDist][i])
         && g.cols[DistPorMin][i] == PerMinute(g.cols[DistAcum][i], g.cols[MinNum][i])
         && g.cols[LoadPorMin][i] == PerMinute(g.cols[LoadAcum][i], g.cols[MinNum][i])
         && g.cols[HiaPorMin][i] == PerMinute(g.cols[HiaAcum][i], g.cols[MinNum][i])
  }

  /** Lines 186-197. */
  method AddPeak(f: Frame, keys: seq<SortKey>) returns (g: Frame)
    requires Valid(f) && |keys| == f.n
    requires TotalDistance in f.cols && MinNum in f.cols && DistAcum in f.cols && LoadAcum in f.cols && HiaAcum in f.cols
    ensures Valid(g) && g.n == f.n && Keeps(f, g, PeakCols) && PeakFeatures(keys, g)
  {
    var n := f.n;
    var td := f.cols[TotalDistance];
    var minute := f.cols[MinNum];
    var peak := GroupMax(keys, td);
    var decay := seq(n, i requires 0 <= i < n => Decay(td[i], peak[i]));
    var dist := seq(n, i requires 0 <= i < n => PerMinute(f.cols[DistAcum][i], minute[i]));
    var load := seq(n, i requires 0 <= i < n => PerMinute(f.cols[LoadAcum][i], minute[i]));
    var hia := seq(n, i requires 0 <= i < n => PerMinute(f.cols[HiaAcum][i], minute[i]));
    g := f.(cols := f.cols[PicoDist := peak][Decaimento := decay][DistPorMin := dist][LoadPorMin := load][HiaPorMin := hia]);
  }

  /** `g` is `f` with the in-game features of lines 155-197: the rolling means of the last
      `IntraWindow` rows and the running sums, both within each (athlete, day), and the peak
      features. */
  predicate IntraFeatures(f: Frame, keys: seq<SortKey>, g: Frame)
    requires Valid(f) && |keys| == f.n
  {
    && Valid(g) && g.n == f.n
    && Keeps(f, g, WindowAliases + AcumAliases + PeakCols)
    && WindowsOf(f, keys, g, WindowPairs, Rolling(IntraWindow), MeanOf)
    && WindowsOf(f, keys, g, AcumPairs, Expanding, SumOf)
    && PeakFeatures(keys, g)
  }

  /** Lines 155-184: the rolling means, then the running sums. */
  method AddIntraWindows(f: Frame, keys: seq<SortKey>) returns (h: Frame)
    requires Valid(f) && |keys| == f.n
    ensures Valid(h) && h.n == f.n && Keeps(f, h, WindowAliases + AcumAliases)
    ensures WindowsOf(f, keys, h, WindowPairs, Rolling(IntraWindow), MeanOf)
    ensures WindowsOf(f, keys, h, AcumPairs, Expanding, SumOf)
    ensures DistAcum in h.cols && LoadAcum in h.cols && HiaAcum in h.cols
  {
    WindowPairsRename();
    AcumPairsRename();
    var g := AddWindows(f, keys, WindowPairs, WindowAliases, Rolling(IntraWindow), MeanOf);
    h := AddWindows(g, keys, AcumPairs, AcumAliases, Expanding, SumOf);
    WindowsKept(f, keys, g, h, WindowPairs, Rolling(IntraWindow), MeanOf, AcumAliases);
    WindowsOverKept(f, keys, g, h, AcumPairs, Expanding, SumOf, WindowAliases);
    KeepsTrans(f, g, h, WindowAliases, AcumAliases);
    assert AcumPairs[0].1 == DistAcum && AcumPairs[1].1 == HiaAcum && AcumPairs[2].1 == LoadAcum;
  }

  /** The windows, then the peak features, give the in-game features. */
  lemma IntraSteps(f: Frame, keys: seq<SortKey>, h: Frame, k: Frame)
    requires Valid(f) && |keys| == f.n
    requires Valid(h) && h.n == f.n && Keeps(f, h, WindowAliases + AcumAliases)
    requires WindowsOf(f, keys, h, WindowPairs, Rolling(IntraWindow), MeanOf)
    requires WindowsOf(f, keys, h, AcumPairs, Expanding, SumOf)
    requires Valid(k) && k.n == f.n && Keeps(h, k, PeakCols) && PeakFeatures(keys, k)
    ensures IntraFeatures(f, keys, k)
  {
    WindowsKept(f, keys, h, k, WindowPairs, Rolling(IntraWindow), MeanOf, PeakCols);
    WindowsKept(f, keys, h, k, AcumPairs, Expanding, SumOf, PeakCols);
    KeepsTrans(f, h, k, WindowAliases + AcumAliases, PeakCols);
  }

  /** Lines 155-197 on the frame `f` whose rows have the (Name, Data) keys `keys`.  `None` where
      the script stops: the peak (line 188) needs 'Total Distance'. */
  method IntraGame(f: Frame, keys: seq<SortKey>) returns (r: Option<Frame>)
    requires Valid(f) && |keys| == f.n && MinNum in f.cols
    ensures r.None? <==> TotalDistance !in f.cols
    ensures r.Some? ==> IntraFeatures(f, keys, r.value)
  {
    var h := AddIntraWindows(f, keys);
    if TotalDistance !in h.cols {
      return None;
    }
    var k := AddPeak(h, keys);
    IntraSteps(f, keys, h, k);
    r := Some(k);
  }

  /** With non-negative distances the decay lies in [0, 1], and it is 1 on the row that sets
      its game's peak. */
  lemma DecayAtMostOne(keys: seq<SortKey>, g: Frame, i: nat)
    requires PeakFeatures(keys, g) && AllNonNegative(g.cols[TotalDistance]) && i < g.n
    ensures 0.0 <= g.cols[Decaimento][i] <= 1.0
    ensures g.cols[TotalDistance][i] == g.cols[PicoDist][i] ==> g.cols[Decaimento][i] == 1.0
  {
    var td := g.cols[TotalDistance];
    GroupMaxAt(keys, td, i);
    DecayOfShare(td[i], g.cols[PicoDist][i]);
  }

  /** A distance within its peak decays to at most 1, and to exactly 1 at the peak. */
  lemma DecayOfShare(dist: real, peak: real)
    requires 0.0 <= dist <= peak
    ensures Decay(dist, peak) <= 1.0
    ensures dist == peak ==> Decay(dist, peak) == 1.0
  {
    if peak != 0.0 {
      assert dist / peak <= 1.0 by {
        assert dist / peak * peak == dist;
      }
    }
  }

  /** The peak is the distance of some row of the same game. */
  lemma PeakIsReached(keys: seq<SortKey>, g: Frame, i: nat)
    requires PeakFeatures(keys, g) && i < g.n
    ensures exists j :: 0 <= j < g.n && keys[j] == keys[i] && g.cols[TotalDistance][j] == g.cols[PicoDist][i]
  {
    GroupMaxAt(keys, g.cols[TotalDistance], i);
  }

  /** With a non-negative source, an accumulated column never decreases within a game. */
  lemma AccumulatedGrows(f: Frame, keys: seq<SortKey>, g: Frame, k: nat, i: nat, j: nat)
    requires Valid(f) && |keys| == f.n && IntraFeatures(f, keys, g)
    requires k < |AcumPairs| && i < j < f.n && keys[i] == keys[j]
    requires AcumPairs[k].0 in f.cols ==> AllNonNegative(f.cols[AcumPairs[k].0])
    ensures g.cols[AcumPairs[k].1][i] <= g.cols[AcumPairs[k].1][j]
  {
    if AcumPairs[k].0 in f.cols {
      RunningSumMonotone(keys, f.cols[AcumPairs[k].0], i, j);
    }
  }

  /** A rolling mean covers the row and the rows of its game before it, the last
      `IntraWindow` of them. */
  lemma WindowMeanAt(f: Frame, keys: seq<SortKey>, g: Frame, k: nat, i: nat)
    requires Valid(f) && |keys| == f.n && IntraFeatures(f, keys, g)
    requires k < |WindowPairs| && i < f.n && WindowPairs[k].0 in f.cols
    ensures g.cols[WindowPairs[k].1][i]
         == Mean(LastN(Earlier(keys, f.cols[WindowPairs[k].0], i) + [f.cols[WindowPairs[k].0][i]], IntraWindow))
  {
    GroupRollAt(keys, f.cols[WindowPairs[k].0], Rolling(IntraWindow), MeanOf, i);
  }

  /** The in-game windows of a row see nothing of other games. */
  lemma WindowStaysInGame(f: Frame, keys: seq<SortKey>, k: nat, i: nat, j: nat, x: real)
    requires Valid(f) && |keys| == f.n && k < |WindowPairs| && i < f.n && j < f.n && keys[j] != keys[i]
    requires WindowPairs[k].0 in f.cols
    ensures var c := WindowPairs[k].0;
            var f2 := f.(cols := f.cols[c := f.cols[c][j := x]]);
            Windowed(f2, keys, c, Rolling(IntraWindow), MeanOf)[i] == Windowed(f, keys, c, Rolling(IntraWindow), MeanOf)[i]
  {
    RollIgnoresOtherGroups(keys, f.cols[WindowPairs[k].0], Rolling(IntraWindow), MeanOf, i, j, x);
  }
}
