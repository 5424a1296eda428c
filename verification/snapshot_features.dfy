/** The training-table builder ADF_Online/Source/ML/predictive.py, lines 61-110: one row per
    (athlete, day, period) with its totals, the target scaled to a full period, the rest days
    of the date, means and trends over the earlier periods of the same athlete and half, the
    load of the last three of them and the counter; then, for every five-minute row, the
    running totals of its period so far and the history row of its period.

    The table arrives as the Source/Dados loader returns it: metric columns filled with 0,
    'Min_Num' numeric, every row with its name, its day and its period. */
module SnapshotFeatures {
  import opened Common
  import opened Ordering
  import opened Grouping
  import GF = GameFeatures
  import GH = GameHistory

  /** The keys of `MAPA_METRICAS`, each standing for its base column. */
  datatype Metric = DistTotal | LoadTotal | V4Dist | V5Dist | V4Eff | V5Eff | HiaTotal

  /** `MAPA_METRICAS`, in its order. */
  const Metrics: seq<Metric> := [DistTotal, LoadTotal, V4Dist, V5Dist, V4Eff, V5Eff, HiaTotal]

  /** The place of `m` in `MAPA_METRICAS`. */
  function Position(m: Metric): (i: nat)
    ensures i < |Metrics| && Metrics[i] == m
  {
    match m
    case DistTotal => 0
    case LoadTotal => 1
    case V4Dist => 2
    case V5Dist => 3
    case V4Eff => 4
    case V5Eff => 5
    case HiaTotal => 6
  }

  /** The metric at place `k` is the only one there. */
  lemma PositionOf(k: nat)
    requires k < |Metrics|
    ensures Position(Metrics[k]) == k
    ensures forall m :: Position(m) == k ==> m == Metrics[k]
  {
  }

  /** Floor of the minutes a period is scaled by (line 75). */
  const MinDivisorFloor: real := 10.0

  /** The loaded five-minute table: per row the athlete, the day number, the period, 'Min_Num',
      'Diff_Gols', 'Jogou_em_Casa' and the seven base columns. */
  datatype Sheet = Sheet(
    names: seq<string>,
    days: seq<int>,
    periods: seq<real>,
    minutes: seq<real>,
    diffGols: seq<real>,
    home: seq<real>,
    metrics: map<Metric, seq<real>>)

  predicate ValidSheet(s: Sheet)
  {
    var n := |s.names|;
    && |s.days| == n && |s.periods| == n && |s.minutes| == n && |s.diffGols| == n && |s.home| == n
    && (forall m :: m in s.metrics)
    && (forall m :: m in s.metrics ==> |s.metrics[m]| == n)
  }

  /** Every key an (athlete, day, period) triple. */
  predicate PeriodKeyed(keys: seq<SortKey>)
  {
    forall k: SortKey :: k in keys ==> |k| == 3 && k[0].Text? && k[1].Int? && k[2].Num?
  }

  /** The (Name, Data, Período) key of every row. */
  function RowKeys(s: Sheet): (keys: seq<SortKey>)
    requires ValidSheet(s)
    ensures |keys| == |s.names| && PeriodKeyed(keys)
  {
    seq(|s.names|, i requires 0 <= i < |s.names| => [Text(s.names[i]), Int(s.days[i]), Num(s.periods[i])])
  }

  // ---------------------------------------------------------------------------
  // Lines 61-68: one row per period played.

  /** `df_jogos`: the period keys in sorted order and the period's aggregates. */
  datatype Periods = Periods(
    keys: seq<SortKey>,
    totals: map<Metric, seq<real>>,
    diffGols: seq<real>,
    minutesPlayed: seq<real>,
    home: seq<real>)

  predicate ValidPeriods(p: Periods)
  {
    var n := |p.keys|;
    && PeriodKeyed(p.keys) && |p.diffGols| == n && |p.minutesPlayed| == n && |p.home| == n
    && (forall m :: m in p.totals)
    && (forall m :: m in p.totals ==> |p.totals[m]| == n)
  }

  /** The first row's value of period `k` (`'first'`). */
  function FirstOf<V>(keys: seq<SortKey>, vals: seq<V>, k: SortKey): V
    requires |keys| == |vals| && k in keys
  {
    GH.GameRowsNonEmpty(keys, vals, k);
    GroupOf(keys, vals, k)[0]
  }

  lemma PeriodKeysKeyed(s: Sheet)
    requires ValidSheet(s)
    ensures PeriodKeyed(GroupKeys(RowKeys(s)))
    ensures forall k :: k in GroupKeys(RowKeys(s)) <==> k in RowKeys(s)
    ensures StrictlyIncreasing(GroupKeys(RowKeys(s)))
  {
    GroupKeysCorrect(RowKeys(s));
  }

  /** Lines 61-67: `groupby(['Name', 'Data', 'Período']).agg(...)`: the seven totals summed,
      the goal difference of the last row, the minutes of the latest row and the home flag of
      the first. */
  function AggregatePeriods(s: Sheet): (p: Periods)
    requires ValidSheet(s)
    ensures ValidPeriods(p) && StrictlyIncreasing(p.keys)
    ensures forall k :: k in p.keys <==> k in RowKeys(s)
  {
    var keys := RowKeys(s);
    PeriodKeysKeyed(s);
    var games := GroupKeys(keys);
    Periods(games, PeriodTotals(s, games), PeriodLasts(keys, s.diffGols, games),
            GH.AggColumn(keys, s.minutes, games, GH.AggMax), PeriodFirsts(keys, s.home, games))
  }

  /** The seven totals of every period. */
  function PeriodTotals(s: Sheet, games: seq<SortKey>): (r: map<Metric, seq<real>>)
    requires ValidSheet(s) && forall k :: k in games ==> k in RowKeys(s)
    ensures forall m :: m in r && |r[m]| == |games|
  {
    map m: Metric :: GH.AggColumn(RowKeys(s), s.metrics[m], games, GH.AggSum)
  }

  /** The last row's value of every period. */
  function PeriodLasts(keys: seq<SortKey>, vals: seq<real>, games: seq<SortKey>): (r: seq<real>)
    requires |keys| == |vals| && forall k :: k in games ==> k in keys
    ensures |r| == |games|
  {
    seq(|games|, j requires 0 <= j < |games| => GH.GameLast(keys, vals, games[j]))
  }

  /** The first row's value of every period. */
  function PeriodFirsts(keys: seq<SortKey>, vals: seq<real>, games: seq<SortKey>): (r: seq<real>)
    requires |keys| == |vals| && forall k :: k in games ==> k in keys
    ensures |r| == |games|
  {
    seq(|games|, j requires 0 <= j < |games| => FirstOf(keys, vals, games[j]))
  }

  /** Each period's totals are the sums over its rows. */
  lemma PeriodTotalsAt(s: Sheet, p: Periods, m: Metric, j: nat)
    requires ValidSheet(s) && p == AggregatePeriods(s) && j < |p.keys|
    ensures p.keys[j] in RowKeys(s)
    ensures p.totals[m][j] == Sum(GroupOf(RowKeys(s), s.metrics[m], p.keys[j]))
  {
    assert p.keys[j] in p.keys;
  }

  /** Each period's minutes are the largest 'Min_Num' of its rows. */
  lemma PeriodMinutesAt(s: Sheet, p: Periods, j: nat)
    requires ValidSheet(s) && p == AggregatePeriods(s) && j < |p.keys|
    ensures p.keys[j] in RowKeys(s)
    ensures GroupOf(RowKeys(s), s.minutes, p.keys[j]) != []
    ensures p.minutesPlayed[j] == MaxOf(GroupOf(RowKeys(s), s.minutes, p.keys[j]))
  {
    assert p.keys[j] in p.keys;
    GH.GameRowsNonEmpty(RowKeys(s), s.minutes, p.keys[j]);
  }

  /** Each period's goal difference is that of its last row and its home flag that of its
      first. */
  lemma PeriodEndsAt(s: Sheet, p: Periods, j: nat)
    requires ValidSheet(s) && p == AggregatePeriods(s) && j < |p.keys|
    ensures p.keys[j] in RowKeys(s)
    ensures p.diffGols[j] == GH.GameLast(RowKeys(s), s.diffGols, p.keys[j])
    ensures p.home[j] == FirstOf(RowKeys(s), s.home, p.keys[j])
  {
    assert p.keys[j] in p.keys;
  }

  // ---------------------------------------------------------------------------
  // Lines 69-71: rest days per date, merged into every period of the date.

  /** The (Name, Data) key of every period. */
  function DateKeys(p: Periods): (r: seq<SortKey>)
    requires ValidPeriods(p)
    ensures |r| == |p.keys|
  {
    seq(|p.keys|, j requires 0 <= j < |p.keys| => assert p.keys[j] in p.keys; p.keys[j][..2])
  }

  /** Every period's date is an (athlete, day) pair. */
  lemma DateKeysKeyed(p: Periods)
    requires ValidPeriods(p)
    ensures GF.Keyed(DateKeys(p))
  {
    forall k: SortKey | k in DateKeys(p) ensures |k| == 2 && k[0].Text? && k[1].Int? {
      var j :| 0 <= j < |p.keys| && DateKeys(p)[j] == k;
      assert p.keys[j] in p.keys;
    }
  }

  /** `datas_unicas`: the distinct dates of each athlete, sorted. */
  function Dates(p: Periods): (r: seq<SortKey>)
    requires ValidPeriods(p)
    ensures GF.Keyed(r) && StrictlyIncreasing(r)
    ensures forall k :: k in r <==> k in DateKeys(p)
  {
    GroupKeysCorrect(DateKeys(p));
    DateKeysKeyed(p);
    GroupKeys(DateKeys(p))
  }

  /** The position of `k` in `keys`. */
  function IndexOf(keys: seq<SortKey>, k: SortKey): (i: nat)
    requires k in keys
    ensures i < |keys| && keys[i] == k
  {
    if keys[0] == k then 0 else 1 + IndexOf(keys[1..], k)
  }

  /** `merge(datas_unicas, on=['Name', 'Data'], how='left')`: the rest days of each period's date. */
  function PeriodRestDays(p: Periods): (r: seq<real>)
    requires ValidPeriods(p)
    ensures |r| == |p.keys|
    ensures forall j :: 0 <= j < |r| ==> 1.0 <= r[j] <= 30.0
  {
    var dates := Dates(p);
    var rest := GH.RestDaysOf(dates);
    seq(|p.keys|, j requires 0 <= j < |p.keys| => rest[IndexOf(dates, DateKeys(p)[j])])
  }

  /** Both periods of a date rest the same, the rest of that date. */
  lemma RestSharedByDate(p: Periods, j: nat, d: nat)
    requires ValidPeriods(p) && j < |p.keys| && d < |Dates(p)| && Dates(p)[d] == DateKeys(p)[j]
    ensures PeriodRestDays(p)[j] == GH.RestDaysOf(Dates(p))[d]
  {
  }

  // ---------------------------------------------------------------------------
  // Lines 73-89: the equivalent-period target and the features learned from it.

  /** `Minutos_Jogados.clip(lower=10)`. */
  function MinDivisor(minutes: real): (r: real)
    ensures r >= MinDivisorFloor && r >= minutes
    ensures r == minutes || r == MinDivisorFloor
  {
    if minutes < MinDivisorFloor then MinDivisorFloor else minutes
  }

  /** `np.where(Período == 1, 45, 50)`. */
  function MinPeriod(period: real): (r: real)
    ensures r == 45.0 <==> period == 1.0
    ensures r == 45.0 || r == 50.0
  {
    if period == 1.0 then 45.0 else 50.0
  }

  /** `(total / Min_Divisor) * Min_Periodo`: the total scaled to a full period. */
  function Target(total: real, minutes: real, period: real): (r: real)
  {
    total / MinDivisor(minutes) * MinPeriod(period)
  }

  /** The target keeps the sign of the total, and a period played in full is its own target. */
  lemma TargetProperties(total: real, minutes: real, period: real)
    ensures total >= 0.0 ==> Target(total, minutes, period) >= 0.0
    ensures minutes == MinPeriod(period) ==> Target(total, minutes, period) == total
    ensures minutes <= MinDivisorFloor ==> Target(total, minutes, period) == total / MinDivisorFloor * MinPeriod(period)
  {
    var d := MinDivisor(minutes);
    if total >= 0.0 {
      assert total / d >= 0.0;
    }
    if minutes == MinPeriod(period) {
      assert d == minutes;
      assert total / d * d == total;
    }
  }

  /** The period of a period key. */
  function PeriodOf(p: Periods, j: nat): real
    requires ValidPeriods(p) && j < |p.keys|
  {
    assert p.keys[j] in p.keys;
    p.keys[j][2].r
  }

  /** The (Name, Período) group of every period row. */
  function Halves(p: Periods): (r: seq<(Atom, real)>)
    requires ValidPeriods(p)
    ensures |r| == |p.keys|
  {
    seq(|p.keys|, j requires 0 <= j < |p.keys| => assert p.keys[j] in p.keys; (p.keys[j][0], PeriodOf(p, j)))
  }

  /** `fillna(0)`. */
  function Filled(s: seq<Option<real>>): (r: seq<real>)
    ensures |r| == |s|
    ensures forall j :: 0 <= j < |s| ==> r[j] == if s[j].Some? then s[j].value else 0.0
  {
    seq(|s|, j requires 0 <= j < |s| => s[j].GetOr(0.0))
  }

  /** The four columns the loop writes for one metric. */
  datatype MetricFeatures = MetricFeatures(
    target: seq<real>,
    mediaGeral: seq<real>,
    media3J: seq<real>,
    trend: seq<real>)

  /** 'TARGET_<m>' of every period. */
  function TargetColumn(p: Periods, m: Metric): (r: seq<real>)
    requires ValidPeriods(p)
    ensures |r| == |p.keys|
  {
    seq(|p.keys|, j requires 0 <= j < |p.keys| => Target(p.totals[m][j], p.minutesPlayed[j], PeriodOf(p, j)))
  }

  /** Lines 81-89 for metric `m`, with the `fillna(0)` of line 93. */
  function FeaturesOf(p: Periods, m: Metric): (f: MetricFeatures)
    requires ValidPeriods(p)
    ensures |f.target| == |p.keys| && |f.mediaGeral| == |p.keys| && |f.media3J| == |p.keys| && |f.trend| == |p.keys|
  {
    var target := TargetColumn(p, m);
    var geral := GroupShifted(Halves(p), target, Expanding, MeanOf);
    var recent := GroupShifted(Halves(p), target, Rolling(3), MeanOf);
    MetricFeatures(target, Filled(geral), Filled(recent),
                   seq(|p.keys|, j requires 0 <= j < |p.keys| => GH.TrendOf(recent[j], geral[j]).GetOr(0.0)))
  }

  /** The loop of lines 80-89 over `MAPA_METRICAS`. */
  method AddTargets(p: Periods) returns (features: map<Metric, MetricFeatures>)
    requires ValidPeriods(p)
    ensures forall m :: m in features && features[m] == FeaturesOf(p, m)
  {
    features := map[];
    for k := 0 to |Metrics|
      invariant forall m :: Position(m) < k ==> m in features && features[m] == FeaturesOf(p, m)
    {
      var m := Metrics[k];
      PositionOf(k);
      features := features[m := FeaturesOf(p, m)];
    }
  }

  /** The period's earlier periods of the same athlete and half, as targets. */
  function EarlierTargets(p: Periods, m: Metric, j: nat): seq<real>
    requires ValidPeriods(p) && j < |p.keys|
  {
    Earlier(Halves(p), TargetColumn(p, m), j)
  }

  /** The means of a period: over all its earlier periods in the same half and over the last
      three of them, 0 when there is none. */
  lemma MeansAt(p: Periods, m: Metric, j: nat)
    requires ValidPeriods(p) && j < |p.keys|
    ensures var e := EarlierTargets(p, m, j);
            && FeaturesOf(p, m).mediaGeral[j] == (if e == [] then 0.0 else Mean(e))
            && FeaturesOf(p, m).media3J[j] == (if e == [] then 0.0 else Mean(LastN(e, 3)))
  {
    GroupShiftedAt(Halves(p), TargetColumn(p, m), Expanding, MeanOf, j);
    GroupShiftedAt(Halves(p), TargetColumn(p, m), Rolling(3), MeanOf, j);
  }

  /** The first period of an athlete in a half has no history: 0 for both means and the trend. */
  lemma FirstPeriodHasNoHistory(p: Periods, m: Metric, j: nat)
    requires ValidPeriods(p) && j < |p.keys|
    requires forall q :: 0 <= q < j ==> Halves(p)[q] != Halves(p)[j]
    ensures FeaturesOf(p, m).mediaGeral[j] == 0.0 && FeaturesOf(p, m).media3J[j] == 0.0
    ensures FeaturesOf(p, m).trend[j] == 0.0
  {
    NoEarlier(Halves(p), TargetColumn(p, m), j);
    MeansAt(p, m, j);
    GroupShiftedAt(Halves(p), TargetColumn(p, m), Expanding, MeanOf, j);
  }

  /** With non-negative totals every target is non-negative. */
  lemma TargetsNonNegative(p: Periods, m: Metric)
    requires ValidPeriods(p) && AllNonNegative(p.totals[m])
    ensures AllNonNegative(TargetColumn(p, m))
  {
    forall q | 0 <= q < |p.keys| ensures TargetColumn(p, m)[q] >= 0.0 {
      TargetProperties(p.totals[m][q], p.minutesPlayed[q], PeriodOf(p, q));
    }
  }

  /** The four columns of one period from its shifted means. */
  lemma FeaturesAt(p: Periods, m: Metric, j: nat)
    requires ValidPeriods(p) && j < |p.keys|
    ensures var f := FeaturesOf(p, m);
            var geral := GroupShifted(Halves(p), TargetColumn(p, m), Expanding, MeanOf);
            var recent := GroupShifted(Halves(p), TargetColumn(p, m), Rolling(3), MeanOf);
            && f.mediaGeral[j] == geral[j].GetOr(0.0)
            && f.media3J[j] == recent[j].GetOr(0.0)
            && f.trend[j] == GH.TrendOf(recent[j], geral[j]).GetOr(0.0)
  {
  }

  /** The shifted means of a period, before `fillna`, from its earlier targets. */
  lemma ShiftedMeansAt(p: Periods, m: Metric, j: nat)
    requires ValidPeriods(p) && j < |p.keys|
    ensures var e := EarlierTargets(p, m, j);
            && GroupShifted(Halves(p), TargetColumn(p, m), Expanding, MeanOf)[j] == MeanOpt(e)
            && GroupShifted(Halves(p), TargetColumn(p, m), Rolling(3), MeanOf)[j]
               == (if e == [] then None else Some(Mean(LastN(e, 3))))
  {
    GroupShiftedAt(Halves(p), TargetColumn(p, m), Expanding, MeanOf, j);
    GroupShiftedAt(Halves(p), TargetColumn(p, m), Rolling(3), MeanOf, j);
  }

  /** With non-negative totals both shifted means of a period with history are defined and
      the overall one is non-negative. */
  lemma MeansDefined(p: Periods, m: Metric, j: nat)
    requires ValidPeriods(p) && j < |p.keys| && AllNonNegative(p.totals[m])
    requires EarlierTargets(p, m, j) != []
    ensures var geral := GroupShifted(Halves(p), TargetColumn(p, m), Expanding, MeanOf);
            var recent := GroupShifted(Halves(p), TargetColumn(p, m), Rolling(3), MeanOf);
            geral[j].Some? && recent[j].Some? && geral[j].value >= 0.0
  {
    var target := TargetColumn(p, m);
    var e := EarlierTargets(p, m, j);
    var geral := GroupShifted(Halves(p), target, Expanding, MeanOf);
    var recent := GroupShifted(Halves(p), target, Rolling(3), MeanOf);
    ShiftedMeansAt(p, m, j);
    TargetsNonNegative(p, m);
    assert AllNonNegative(target[..j]);
    GroupOfValuesFrom(Halves(p)[..j], target[..j], Halves(p)[j]);
    GH.TrendOfEarlier(e, recent[j], geral[j]);
  }

  /** With non-negative totals the trend of a period with history is the recent mean over the
      overall mean plus one. */
  lemma TrendAt(p: Periods, m: Metric, j: nat)
    requires ValidPeriods(p) && j < |p.keys| && AllNonNegative(p.totals[m])
    requires EarlierTargets(p, m, j) != []
    ensures var f := FeaturesOf(p, m);
            f.mediaGeral[j] >= 0.0 && f.trend[j] == TrendRatio(f.media3J[j], f.mediaGeral[j])
  {
    MeansDefined(p, m, j);
    FeaturesAt(p, m, j);
    var f := FeaturesOf(p, m);
    var recent := GroupShifted(Halves(p), TargetColumn(p, m), Rolling(3), MeanOf)[j];
    var geral := GroupShifted(Halves(p), TargetColumn(p, m), Expanding, MeanOf)[j];
    TrendValue(recent, geral, f.trend[j], f.media3J[j], f.mediaGeral[j]);
  }

  /** The recent mean over the overall mean plus one. */
  function TrendRatio(recent: real, overall: real): real
    requires overall >= 0.0
  {
    recent / (overall + 1.0)
  }

  /** A defined trend over a non-negative mean is the quotient itself. */
  lemma TrendValue(recent: Option<real>, overall: Option<real>, t: real, r: real, g: real)
    requires recent.Some? && overall.Some? && overall.value >= 0.0
    requires t == GH.TrendOf(recent, overall).GetOr(0.0)
    requires r == recent.GetOr(0.0) && g == overall.GetOr(0.0)
    ensures g >= 0.0 && t == TrendRatio(r, g)
  {
  }


  // ---------------------------------------------------------------------------
  // Lines 91-93: load of the last three periods and the counter.

  /** 'Carga_3Jogos_PL', after `fillna(0)`. */
  function LoadLastThree(p: Periods): (r: seq<real>)
    requires ValidPeriods(p)
    ensures |r| == |p.keys|
  {
    Filled(GroupShifted(Halves(p), p.totals[LoadTotal], Rolling(3), SumOf))
  }

  /** The load of a period's last three earlier periods in the same half, 0 for the first. */
  lemma LoadLastThreeAt(p: Periods, j: nat)
    requires ValidPeriods(p) && j < |p.keys|
    ensures var e := Earlier(Halves(p), p.totals[LoadTotal], j);
            LoadLastThree(p)[j] == Sum(LastN(e, 3))
  {
    GroupShiftedAt(Halves(p), p.totals[LoadTotal], Rolling(3), SumOf, j);
  }

  /** 'N_Jogos': the number of earlier periods of the athlete in the same half. */
  lemma CounterAt(p: Periods, j: nat)
    requires ValidPeriods(p) && j < |p.keys|
    ensures CumCount(Halves(p))[j] == |Earlier(Halves(p), p.totals[LoadTotal], j)|
  {
    CumCountAt(Halves(p), p.totals[LoadTotal], j);
  }

  // ---------------------------------------------------------------------------
  // Lines 103-110: the running totals of every five-minute row.

  /** '<m>_Acumulado_Agora': the running sum of the base column within the row's period. */
  function RunningTotal(s: Sheet, m: Metric): (r: seq<real>)
    requires ValidSheet(s)
    ensures |r| == |s.names|
  {
    GroupRoll(RowKeys(s), s.metrics[m], Expanding, SumOf)
  }

  /** The loop of lines 105-106. */
  method AddRunningTotals(s: Sheet) returns (running: map<Metric, seq<real>>)
    requires ValidSheet(s)
    ensures forall m :: m in running && running[m] == RunningTotal(s, m)
  {
    running := map[];
    for k := 0 to |Metrics|
      invariant forall m :: Position(m) < k ==> m in running && running[m] == RunningTotal(s, m)
    {
      var m := Metrics[k];
      PositionOf(k);
      running := running[m := GroupRoll(RowKeys(s), s.metrics[m], Expanding, SumOf)];
    }
  }

  /** The running total restarts in every period: a period's first row holds its own value. */
  lemma RunningTotalRestarts(s: Sheet, m: Metric, i: nat)
    requires ValidSheet(s) && i < |s.names|
    requires forall q :: 0 <= q < i ==> RowKeys(s)[q] != RowKeys(s)[i]
    ensures RunningTotal(s, m)[i] == s.metrics[m][i]
  {
    NoEarlier(RowKeys(s), s.metrics[m], i);
    GroupRollAt(RowKeys(s), s.metrics[m], Expanding, SumOf, i);
    assert Sum([s.metrics[m][i]]) == s.metrics[m][i] by {
      assert [s.metrics[m][i]][..0] == [];
    }
  }

  /** With non-negative values the running total never falls within a period. */
  lemma RunningTotalGrows(s: Sheet, m: Metric, i: nat, j: nat)
    requires ValidSheet(s) && i < j < |s.names| && RowKeys(s)[i] == RowKeys(s)[j]
    requires AllNonNegative(s.metrics[m])
    ensures RunningTotal(s, m)[i] <= RunningTotal(s, m)[j]
  {
    RunningSumMonotone(RowKeys(s), s.metrics[m], i, j);
  }

  /** `merge(df_historico_limpo, on=['Name', 'Data', 'Período'], how='left')`: the history row
      of each five-minute row's period.  Every row finds one. */
  function PeriodRows(s: Sheet, p: Periods): (r: seq<nat>)
    requires ValidSheet(s) && ValidPeriods(p) && forall k :: k in RowKeys(s) ==> k in p.keys
    ensures |r| == |s.names|
    ensures forall i :: 0 <= i < |s.names| ==> r[i] < |p.keys| && p.keys[r[i]] == RowKeys(s)[i]
  {
    seq(|s.names|, i requires 0 <= i < |s.names| => IndexOf(p.keys, RowKeys(s)[i]))
  }

  // ---------------------------------------------------------------------------
  // The script.

  /** The period history table of lines 61-96. */
  datatype PeriodHistory = PeriodHistory(
    periods: Periods,
    diasDescanso: seq<real>,
    features: map<Metric, MetricFeatures>,
    carga3JogosPL: seq<real>,
    nJogos: seq<nat>)

  /** The snapshots of lines 103-110: every row's running totals and its period's history row. */
  datatype Snapshots = Snapshots(running: map<Metric, seq<real>>, periodRow: seq<nat>)

  /** Lines 61-110 on the loaded table `s`; training is not modelled. */
  method BuildSnapshots(s: Sheet) returns (h: PeriodHistory, snaps: Snapshots)
    requires ValidSheet(s)
    ensures h.periods == AggregatePeriods(s)
    ensures h.diasDescanso == PeriodRestDays(h.periods)
    ensures forall m :: m in h.features && h.features[m] == FeaturesOf(h.periods, m)
    ensures h.carga3JogosPL == LoadLastThree(h.periods)
    ensures h.nJogos == CumCount(Halves(h.periods))
    ensures forall m :: m in snaps.running && snaps.running[m] == RunningTotal(s, m)
    ensures snaps.periodRow == PeriodRows(s, h.periods)
  {
    var p := AggregatePeriods(s);
    var features := AddTargets(p);
    h := PeriodHistory(p, PeriodRestDays(p), features, LoadLastThree(p), CumCount(Halves(p)));
    var running := AddRunningTotals(s);
    snaps := Snapshots(running, PeriodRows(s, p));
  }
}
