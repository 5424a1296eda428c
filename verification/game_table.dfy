/** The whole per-game pipeline of ADF_Online/predictive.py, lines 79-306: from the sorted
    five-minute sheet to the game table with its history features, keeping only the games in
    which the athlete played more than five minutes (line 306). */
module GameTable {
  import opened Common
  import opened Ordering
  import opened Grouping
  import opened GameFeatures
  import opened GameHistory
  import opened Score

  /** The games kept by line 306: more than this many minutes. */
  const MinMinutes: real := 5.0

  // ---------------------------------------------------------------------------
  // Boolean row masks.

  /** Every row of `rows` is a row of a table of `n` rows. */
  predicate Below(rows: seq<nat>, n: nat)
  {
    forall k :: 0 <= k < |rows| ==> rows[k] < n
  }

  /** The rows a boolean mask selects, in table order. */
  function Kept(mask: seq<bool>): (r: seq<nat>)
    ensures KeptRows(mask, r)
    decreases |mask|
  {
    if |mask| == 0 then []
    else
      var n := |mask| - 1;
      var rest := Kept(mask[..n]);
      KeptStep(mask, rest);
      if mask[n] then rest + [n] else rest
  }

  /** `r` lists, in increasing order, exactly the rows that `mask` selects. */
  predicate KeptRows(mask: seq<bool>, r: seq<nat>)
  {
    && Below(r, |mask|) && (forall k :: 0 <= k < |r| ==> mask[r[k]])
    && (forall j :: 0 <= j < |mask| && mask[j] ==> j in r)
    && (forall a, b :: 0 <= a < b < |r| ==> r[a] < r[b])
  }

  /** The rows of a mask are those of the mask without its last row, then that row when
      it is selected. */
  lemma KeptStep(mask: seq<bool>, rest: seq<nat>)
    requires |mask| > 0 && KeptRows(mask[..|mask| - 1], rest)
    ensures var n := |mask| - 1; KeptRows(mask, if mask[n] then rest + [n] else rest)
  {
    var n := |mask| - 1;
    forall k | 0 <= k < |rest| ensures mask[rest[k]] {
      assert mask[..n][rest[k]] == mask[rest[k]];
    }
    forall j | 0 <= j < n && mask[j] ensures j in rest {
      assert mask[..n][j] == mask[j];
    }
    if mask[n] {
      var r := rest + [n];
      forall k | 0 <= k < |r| ensures r[k] < |mask| && mask[r[k]] {
        if k < |rest| {
          assert r[k] == rest[k];
        }
      }
      forall j | 0 <= j < |mask| && mask[j] ensures j in r {
        if j < n {
          assert j in rest;
        }
      }
      forall a, b | 0 <= a < b < |r| ensures r[a] < r[b] {
        assert r[a] == rest[a];
      }
    }
  }

  /** The entries of `s` at the rows `rows`. */
  function Pick<T>(s: seq<T>, rows: seq<nat>): (r: seq<T>)
    requires Below(rows, |s|)
    ensures |r| == |rows|
  {
    seq(|rows|, k requires 0 <= k < |rows| => s[rows[k]])
  }

  /** `df_jogo['Minutos'] > 5`, row by row. */
  function PlayedMask(g: Games): (mask: seq<bool>)
    requires ValidGames(g) && Minutos in g.cols
    ensures |mask| == |g.keys|
  {
    seq(|g.keys|, j requires 0 <= j < |g.keys| => g.cols[Minutos][j] > MinMinutes)
  }

  /** `df_jogo[df_jogo['Minutos'] > 5]`: the rows of games longer than five minutes. */
  function PlayedRows(g: Games): (rows: seq<nat>)
    requires ValidGames(g) && Minutos in g.cols
    ensures Below(rows, |g.keys|)
  {
    Kept(PlayedMask(g))
  }

  lemma PickedKeys(g: Games, rows: seq<nat>)
    requires ValidGames(g) && Below(rows, |g.keys|)
    ensures Keyed(Pick(g.keys, rows))
  {
    var keys := Pick(g.keys, rows);
    forall k | k in keys ensures k in g.keys {
      var a :| 0 <= a < |keys| && keys[a] == k;
    }
  }

  /** The game table restricted to `rows`. */
  function PickGames(g: Games, rows: seq<nat>): (r: Games)
    requires ValidGames(g) && Below(rows, |g.keys|)
    ensures ValidGames(r) && r.cols.Keys == g.cols.Keys && |r.keys| == |rows|
  {
    PickedKeys(g, rows);
    Games(Pick(g.keys, rows), map c | c in g.cols :: Pick(g.cols[c], rows), Pick(g.resultado, rows))
  }

  /** The history features restricted to `rows`. */
  function PickHistory(h: History, n: nat, rows: seq<nat>): (r: History)
    requires HistoryFits(h, n) && Below(rows, n)
    ensures HistoryFits(r, |rows|)
  {
    History(
      Pick(h.diasDescanso, rows),
      map m | m in h.general :: Pick(h.general[m], rows),
      map m | m in h.context :: Pick(h.context[m], rows),
      Pick(h.carga3Jogos, rows), Pick(h.carga7Jogos, rows), Pick(h.mediaDist3Jogos, rows),
      Pick(h.trendDist, rows), Pick(h.nJogos, rows))
  }

  /** Line 306 on the game table and its features. */
  method KeepPlayed(g: Games, h: History) returns (pg: Games, ph: History)
    requires ValidGames(g) && Minutos in g.cols && HistoryFits(h, |g.keys|)
    ensures var rows := PlayedRows(g); pg == PickGames(g, rows) && ph == PickHistory(h, |g.keys|, rows)
  {
    var rows := PlayedRows(g);
    pg := PickGames(g, rows);
    ph := PickHistory(h, |g.keys|, rows);
  }

  /** Every kept game was longer than five minutes, and kept its own minutes. */
  lemma PlayedAreLong(g: Games)
    requires ValidGames(g) && Minutos in g.cols
    ensures var p := PickGames(g, PlayedRows(g));
            forall j :: 0 <= j < |p.keys| ==> p.cols[Minutos][j] > MinMinutes
  {
    var rows := PlayedRows(g);
    var p := PickGames(g, rows);
    forall j | 0 <= j < |p.keys| ensures p.cols[Minutos][j] > MinMinutes {
      assert p.cols[Minutos][j] == g.cols[Minutos][rows[j]];
      assert PlayedMask(g)[rows[j]];
    }
  }

  /** A game is kept exactly when it is a game of the table longer than five minutes. */
  lemma PlayedKeys(g: Games, k: SortKey)
    requires ValidGames(g) && Minutos in g.cols
    ensures k in PickGames(g, PlayedRows(g)).keys <==>
              exists j :: 0 <= j < |g.keys| && g.keys[j] == k && g.cols[Minutos][j] > MinMinutes
  {
    var rows := PlayedRows(g);
    var keys := PickGames(g, rows).keys;
    if k in keys {
      var a :| 0 <= a < |keys| && keys[a] == k;
      assert PlayedMask(g)[rows[a]];
    }
    if exists j :: 0 <= j < |g.keys| && g.keys[j] == k && g.cols[Minutos][j] > MinMinutes {
      var j :| 0 <= j < |g.keys| && g.keys[j] == k && g.cols[Minutos][j] > MinMinutes;
      assert PlayedMask(g)[j];
      var a :| 0 <= a < |rows| && rows[a] == j;
      assert keys[a] == k;
    }
  }

  /** The kept games stay in (athlete, day) order. */
  lemma PlayedInOrder(g: Games)
    requires ValidGames(g) && Minutos in g.cols && StrictlyIncreasing(g.keys)
    ensures StrictlyIncreasing(PickGames(g, PlayedRows(g)).keys)
  {
    var rows := PlayedRows(g);
    var keys := PickGames(g, rows).keys;
    forall a, b | 0 <= a < b < |keys| ensures KeyLe(keys[a], keys[b]) && keys[a] != keys[b] {
      assert keys[a] == g.keys[rows[a]] && keys[b] == g.keys[rows[b]];
    }
  }

  // ---------------------------------------------------------------------------
  // The pipeline.

  /** 'HR_Pct' over the sheet: the average heart-rate column, else the plain one, else 0. */
  function HeartRate(w: Frame): (r: seq<real>)
    requires Valid(w)
    ensures |r| == w.n
  {
    match HeartRateColumn(w)
    case Some(c) => w.cols[c]
    case None => Zeros(w.n)
  }

  /** The counters and distances lines 79-98 compute: HIA, 'HS_Dist', 'Sprint_Dist' and the
      defaulted columns the aggregation reads. */
  const PaddedCols: set<Column> := {Hia, HsDist, SprintDist, V4Dist, V5Dist, V4Eff, V5Eff, Acc3Eff, Dec3Eff}

  /** The columns lines 79-108 compute from the sheet's frame. */
  const CountedCols: set<Column> :=
    {Hia, HsDist, SprintDist, V4Dist, V5Dist, V4Eff, V5Eff, Acc3Eff, Dec3Eff, HrPct}

  /** The columns lines 79-145 compute. */
  const SheetCols: set<Column> :=
    {Hia, HsDist, SprintDist, V4Dist, V5Dist, V4Eff, V5Eff, Acc3Eff, Dec3Eff, HrPct, DiffGols, MinNum}

  /** A column as lines 79-108 leave it, from the sheet's frame `w` alone: HIA, 'HS_Dist' and
      'Sprint_Dist' the sums of their parts, 'HR_Pct' the heart rate, and any other column as
      `w` has it, zeros where it lacks it. */
  function CountedColumn(w: Frame, c: Column): (r: seq<real>)
    requires Valid(w)
    ensures |r| == w.n
  {
    match c
    case Hia => SumColumn(w, HiaParts)
    case HsDist => SumColumn(w, HsParts)
    case SprintDist => SumColumn(w, SprintSum)
    case HrPct => HeartRate(w)
    case _ => ColumnOr0(w, c)
  }

  /** A per-minute column as lines 79-145 leave it, from the sheet alone: the score difference,
      the minute, and any other column as lines 79-108 leave it. */
  function SheetColumn(m: Minutes, c: Column): (r: seq<real>)
    requires ValidMinutes(m)
    ensures |r| == m.metrics.n
  {
    match c
    case DiffGols => DiffColumn(m)
    case MinNum => MinuteColumn(m)
    case _ => CountedColumn(m.metrics, c)
  }

  /** Column `c` of `f` is `col`. */
  predicate Holds(f: Frame, c: Column, col: seq<real>)
  {
    c in f.cols && f.cols[c] == col
  }

  /** Every column of `want` holds in `f` what `want` gives it. */
  predicate HoldsAll(f: Frame, want: map<Column, seq<real>>)
  {
    forall c :: c in want ==> c in f.cols && f.cols[c] == want[c]
  }

  /** The counters and distances lines 79-98 compute from the sheet's frame `w`. */
  function PaddedMap(w: Frame): map<Column, seq<real>>
    requires Valid(w)
  {
    map c | c in PaddedCols :: CountedColumn(w, c)
  }

  /** The counters, distances and heart rate lines 79-108 compute from the sheet's frame `w`. */
  function CountedMap(w: Frame): map<Column, seq<real>>
    requires Valid(w)
  {
    map c | c in CountedCols :: CountedColumn(w, c)
  }

  /** Every column lines 79-145 compute, with what the sheet gives it. */
  function SheetMap(m: Minutes): map<Column, seq<real>>
    requires ValidMinutes(m)
  {
    map c | c in SheetCols :: SheetColumn(m, c)
  }

  /** Every column lines 79-145 compute holds in `f` what the sheet gives it. */
  predicate FromSheet(m: Minutes, f: Frame)
    requires ValidMinutes(m)
  {
    HoldsAll(f, SheetMap(m))
  }

  /** The in-game features are none of the columns lines 79-145 compute. */
  lemma SheetColsOutside(except: set<Column>)
    requires forall c :: c in except ==> InGameFeature(c)
    ensures forall c :: c in SheetCols ==> c !in except
  {
    forall c | c in SheetCols ensures !InGameFeature(c) {
    }
  }

  /** The counted columns, the score difference and the minute make the sheet map. */
  lemma SheetFromParts(m: Minutes, f: Frame)
    requires ValidMinutes(m) && CountedFrom(m.metrics, f)
    requires Holds(f, DiffGols, DiffColumn(m)) && Holds(f, MinNum, MinuteColumn(m))
    ensures FromSheet(m, f)
  {
    forall c | c in SheetCols ensures Holds(f, c, SheetColumn(m, c)) {
      if c != DiffGols && c != MinNum {
        assert c in CountedMap(m.metrics);
      }
    }
  }

  /** A step that keeps every column outside `except` keeps what `want` says of them. */
  lemma HoldsKept(f: Frame, g: Frame, want: map<Column, seq<real>>, except: set<Column>)
    requires HoldsAll(f, want) && (forall c :: c in want ==> c !in except)
    requires forall c :: c in f.cols && c !in except ==> c in g.cols && g.cols[c] == f.cols[c]
    ensures HoldsAll(g, want)
  {
  }

  /** Column `c` of `f` is column `c` of `w`, or absent from both. */
  predicate SameColumn(w: Frame, f: Frame, c: Column)
  {
    (c in f.cols <==> c in w.cols) && (c in w.cols ==> f.cols[c] == w.cols[c])
  }

  /** The workbook columns the pipeline may lack pass through unchanged. */
  predicate Carries(w: Frame, f: Frame)
  {
    SameColumn(w, f, TotalDistance) && SameColumn(w, f, PlayerLoad) && SameColumn(w, f, MetabolicPower)
  }

  /** Lines 79-98 keep the pass-through columns and the heart-rate sources. */
  lemma CountsCarry(w: Frame, f: Frame)
    requires Valid(w) && Valid(f) && f.n == w.n
    requires forall c :: c in f.cols <==> c in w.cols || Defaulted(c) || c == Hia || c == HsDist || c == SprintDist
    requires Padded(f, w, {Hia, HsDist, SprintDist})
    ensures Carries(w, f) && HeartRate(f) == HeartRate(w)
  {
    assert !Defaulted(TotalDistance) && !Defaulted(PlayerLoad) && !Defaulted(MetabolicPower);
    assert !Defaulted(AvgHeartRatePct) && !Defaulted(HeartRatePct);
  }

  /** Lines 79-98 give HIA, the distances and the counters the aggregation reads what the
      sheet gives them, 0 where it lacks them. */
  lemma CountsHold(w: Frame, f: Frame)
    requires Valid(w) && Valid(f) && f.n == w.n
    requires forall c :: c in f.cols <==> c in w.cols || Defaulted(c) || c == Hia || c == HsDist || c == SprintDist
    requires Padded(f, w, {Hia, HsDist, SprintDist})
    requires f.cols[Hia] == SumColumn(w, HiaParts) && f.cols[HsDist] == SumColumn(w, HsParts)
    requires f.cols[SprintDist] == SumColumn(w, SprintSum)
    ensures HoldsAll(f, PaddedMap(w))
  {
    forall c | c in PaddedCols ensures Holds(f, c, CountedColumn(w, c)) {
      if c != Hia && c != HsDist && c != SprintDist {
        DefaultedHolds(w, f, c);
      }
    }
  }

  /** A counter the aggregation reads is the sheet's column, 0 where the sheet lacks it. */
  lemma DefaultedHolds(w: Frame, f: Frame, c: Column)
    requires Valid(w) && (forall c :: c in f.cols <==> c in w.cols || Defaulted(c) || c == Hia || c == HsDist || c == SprintDist)
    requires Padded(f, w, {Hia, HsDist, SprintDist})
    requires c in PaddedCols && c != Hia && c != HsDist && c != SprintDist
    ensures Holds(f, c, CountedColumn(w, c))
  {
    assert Defaulted(c) && CountedColumn(w, c) == ColumnOr0(w, c);
  }

  /** What lines 79-108 compute from the sheet's frame `w`. */
  predicate CountedFrom(w: Frame, f: Frame)
    requires Valid(w)
  {
    HoldsAll(f, CountedMap(w))
  }

  /** The heart rate joins the counters and distances. */
  lemma HeartJoins(w: Frame, f: Frame)
    requires Valid(w) && HoldsAll(f, PaddedMap(w)) && Holds(f, HrPct, HeartRate(w))
    ensures CountedFrom(w, f)
  {
    forall c | c in CountedCols ensures Holds(f, c, CountedColumn(w, c)) {
      if c != HrPct {
        assert c in PaddedMap(w);
      }
    }
  }

  /** Lines 79-108: the counters, the distances and the heart rate. */
  method CountColumns(w: Frame) returns (f: Frame)
    requires Valid(w)
    ensures Valid(f) && f.n == w.n && Carries(w, f) && CountedFrom(w, f)
  {
    var f1 := AddCounts(w);
    CountsCarry(w, f1);
    CountsHold(w, f1);
    KeysOut(w);
    f := AddHeartRate(f1);
    OneKeeps(w, f1, f, HrPct, PaddedMap(w));
    assert f.cols[HrPct] == HeartRate(f1);
    HeartJoins(w, f);
  }

  /** The heart rate is none of the padded columns, and the score and minute columns none of
      the counted ones. */
  lemma KeysOut(w: Frame)
    requires Valid(w)
    ensures HrPct !in PaddedMap(w)
    ensures DiffGols !in CountedMap(w) && MinNum !in CountedMap(w) && FaseJogo !in CountedMap(w)
  {
    assert HrPct !in PaddedCols;
    assert DiffGols !in CountedCols && MinNum !in CountedCols && FaseJogo !in CountedCols;
  }

  /** A step that adds column `a` and keeps the others keeps what the steps before it
      carried. */
  lemma OneKeeps(w: Frame, f: Frame, g: Frame, a: Column, want: map<Column, seq<real>>)
    requires Carries(w, f) && HoldsAll(f, want) && a !in want
    requires a != TotalDistance && a != PlayerLoad && a != MetabolicPower
    requires g.cols.Keys == f.cols.Keys + {a}
    requires forall c :: c in f.cols && c != a ==> g.cols[c] == f.cols[c]
    ensures Carries(w, g) && HoldsAll(g, want)
  {
  }

  /** The minute step, adding 'Min_Num' and 'Fase_Jogo', keeps what the steps before it
      carried, the score difference among them. */
  lemma MinuteKeeps(w: Frame, f3: Frame, f: Frame, want: map<Column, seq<real>>)
    requires Carries(w, f3) && HoldsAll(f3, want) && MinNum !in want && FaseJogo !in want
    requires f.cols.Keys == f3.cols.Keys + {MinNum, FaseJogo}
    requires forall c :: c in f3.cols && c != MinNum && c != FaseJogo ==> f.cols[c] == f3.cols[c]
    ensures Carries(w, f) && HoldsAll(f, want) && (DiffGols in f3.cols ==> f.cols[DiffGols] == f3.cols[DiffGols])
  {
  }

  /** Lines 110-145 on the frame `f2` the counters and heart rate left. */
  method ScoreAndMinute(m: Minutes, w: Frame, f2: Frame) returns (f: Frame, resultado: seq<char>)
    requires ValidMinutes(m) && Valid(f2) && f2.n == m.metrics.n
    requires Carries(w, f2) && CountedFrom(m.metrics, f2)
    ensures Valid(f) && f.n == m.metrics.n && resultado == ResultColumn(m)
    ensures FromSheet(m, f) && Carries(w, f)
  {
    var f3;
    KeysOut(m.metrics);
    f3, resultado := AddScore(m, f2);
    OneKeeps(w, f2, f3, DiffGols, CountedMap(m.metrics));
    f := AddMinute(m, f3);
    MinuteKeeps(w, f3, f, CountedMap(m.metrics));
    SheetFromParts(m, f);
  }

  /** Lines 79-145: the derived per-minute columns, and the result letter of every row, all
      as the sheet determines them. */
  method DeriveColumns(m: Minutes) returns (f: Frame, resultado: seq<char>)
    requires ValidMinutes(m)
    ensures Valid(f) && f.n == m.metrics.n && resultado == ResultColumn(m)
    ensures FromSheet(m, f) && Carries(m.metrics, f)
  {
    var f2 := CountColumns(m.metrics);
    f, resultado := ScoreAndMinute(m, m.metrics, f2);
  }

  /** The game table before line 306: one row per game of the sheet in (athlete, day) order;
      every column of `agg_dict` (the metabolic power only when the sheet has it), each game's
      value the sum, mean, maximum or last of its rows of the per-minute column the sheet
      gives; each game's result letter that of its last row; and the history features. */
  ghost predicate AllGames(m: Minutes, g: Games, h: History)
    requires ValidMinutes(m)
  {
    var keys := MinuteKeys(m);
    && ValidGames(g) && StrictlyIncreasing(g.keys)
    && (forall k :: k in g.keys <==> k in keys)
    && TotalDistance in m.metrics.cols && PlayerLoad in m.metrics.cols
    && (forall c :: c in g.cols <==> Aggregated(c, m.metrics))
    && (forall c :: c in g.cols ==> g.cols[c] == AggColumn(keys, SheetColumn(m, SourceOf(c)), g.keys, AggOf(c)))
    && g.resultado == GameLasts(keys, ResultColumn(m), g.keys)
    && HistoryFeatures(g, h) && HistoryFits(h, |g.keys|)
  }

  /** The columns the in-game features write. */
  predicate InGameFeature(c: Column)
  {
    match c
    case DistJanela | HiaJanela | LoadJanela | HsJanela | HrJanela | MetPowJanela
      | DistAcum | HiaAcum | LoadAcum | SprintAcum | Acc3Acum | Dec3Acum
      | PicoDist | Decaimento | DistPorMin | LoadPorMin | HiaPorMin => true
    case _ => false
  }

  lemma InGameFeaturesAre()
    ensures forall c :: c in WindowAliases + AcumAliases + PeakCols ==> InGameFeature(c)
  {
  }

  /** Keeping every column but in-game features keeps the ones the aggregation reads. */
  lemma IntraKeepsSources(m: Minutes, f: Frame, fi: Frame, except: set<Column>)
    requires ValidMinutes(m) && Keeps(f, fi, except) && (forall c :: c in except ==> InGameFeature(c))
    requires FromSheet(m, f) && Carries(m.metrics, f)
    ensures FromSheet(m, fi) && Carries(m.metrics, fi)
  {
    SheetColsOutside(except);
    HoldsKept(f, fi, SheetMap(m), except);
    assert !InGameFeature(TotalDistance) && !InGameFeature(PlayerLoad) && !InGameFeature(MetabolicPower);
  }

  /** A frame with the computed columns, the distance and the load has every source column. */
  lemma SourcesPresent(m: Minutes, f: Frame)
    requires ValidMinutes(m) && FromSheet(m, f) && Carries(m.metrics, f) && TotalDistance in f.cols && PlayerLoad in f.cols
    ensures forall c :: c != MetabolicPowerMean ==> SourceOf(c) in f.cols
  {
    forall c | c != MetabolicPowerMean ensures SourceOf(c) in f.cols {
      SourceFromSheet(m, f, c);
    }
  }

  /** The source of every game column other than the distance, the load and the metabolic
      power is a column lines 79-145 compute, and holds what the sheet gives it. */
  lemma SourceFromSheet(m: Minutes, f: Frame, c: GameColumn)
    requires ValidMinutes(m) && FromSheet(m, f) && Carries(m.metrics, f)
    ensures c != DistTotal && c != LoadTotal && c != MetabolicPowerMean ==> SourceOf(c) in f.cols
    ensures SourceOf(c) in f.cols ==> f.cols[SourceOf(c)] == SheetColumn(m, SourceOf(c))
  {
    match c
    case DistTotal =>
    case LoadTotal =>
    case MetabolicPowerMean =>
    case HiaTotal =>
    case V4DistTotal =>
    case V5DistTotal =>
    case V4EffTotal =>
    case V5EffTotal =>
    case HsTotal =>
    case SprintTotal =>
    case Acc3Total =>
    case Dec3Total =>
    case HrMedio =>
    case Minutos =>
    case DiffGolsLast =>
  }

  /** Every column of the aggregated game table is the aggregate of the column the sheet
      gives its source. */
  lemma AggregatedFromSheet(m: Minutes, fi: Frame, g: Games, keys: seq<SortKey>)
    requires ValidMinutes(m) && keys == MinuteKeys(m) && Valid(fi) && fi.n == m.metrics.n
    requires Carries(m.metrics, fi) && FromSheet(m, fi)
    requires forall k :: k in g.keys ==> k in keys
    requires forall c :: c in g.cols <==> Aggregated(c, fi)
    requires forall c :: c in g.cols ==> SourceOf(c) in fi.cols && g.cols[c] == AggColumn(keys, fi.cols[SourceOf(c)], g.keys, AggOf(c))
    ensures forall c :: c in g.cols <==> Aggregated(c, m.metrics)
    ensures forall c :: c in g.cols ==> g.cols[c] == AggColumn(keys, SheetColumn(m, SourceOf(c)), g.keys, AggOf(c))
  {
    forall c | c in g.cols ensures fi.cols[SourceOf(c)] == SheetColumn(m, SourceOf(c)) {
      SourceFromSheet(m, fi, c);
    }
  }

  /** Lines 79-306 on the sorted sheet `m`.  `None` where the script stops with a `KeyError`:
      the peak of line 188 needs 'Total Distance' and the aggregation of line 232 'Player Load'.
      Otherwise the games longer than five minutes of the table `AllGames` describes. */
  method BuildGameTable(m: Minutes) returns (r: Option<(Games, History)>)
    requires ValidMinutes(m)
    ensures r.None? <==> TotalDistance !in m.metrics.cols || PlayerLoad !in m.metrics.cols
    ensures r.Some? ==> exists g, h :: AllGames(m, g, h)
                          && r.value == (PickGames(g, PlayedRows(g)), PickHistory(h, |g.keys|, PlayedRows(g)))
  {
    var f, resultado := DeriveColumns(m);
    var keys := MinuteKeys(m);
    var intra := IntraGame(f, keys);
    if intra.None? {
      return None;
    }
    var fi := intra.value;
    InGameFeaturesAre();
    IntraKeepsSources(m, f, fi, WindowAliases + AcumAliases + PeakCols);
    if PlayerLoad !in fi.cols {
      return None;
    }
    SourcesPresent(m, fi);
    var g := Aggregate(fi, keys, resultado);
    AggregatedFromSheet(m, fi, g, keys);
    var h := AddHistory(g);
    assert AllGames(m, g, h);
    var pg, ph := KeepPlayed(g, h);
    r := Some((pg, ph));
  }
}
