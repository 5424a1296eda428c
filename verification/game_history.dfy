/** The per-game history table of ADF_Online/predictive.py, lines 207-306: one row per
    (athlete, day), the game's totals, and features computed only from the athlete's earlier
    games: rest days, means over all earlier games and over earlier games with the same
    result, load over the last three and seven games, the distance trend and the game counter.
    The table keeps the games with more than five minutes played. */
module GameHistory {
  import opened Common
  import opened Ordering
  import opened Grouping
  import opened GameFeatures

  /** The columns of the game table, after the renames of lines 232-246. */
  datatype GameColumn =
    | DistTotal | LoadTotal | HiaTotal | V4DistTotal | V5DistTotal | V4EffTotal | V5EffTotal
    | HsTotal | SprintTotal | Acc3Total | Dec3Total | HrMedio | Minutos | DiffGolsLast
    | MetabolicPowerMean

  /** How `agg` reduces a game's rows. */
  datatype Agg = AggSum | AggMean | AggMax | AggLast

  /** The per-minute column a game column comes from (`agg_dict` with the renames). */
  function SourceOf(c: GameColumn): Column
  {
    match c
    case DistTotal => TotalDistance
    case LoadTotal => PlayerLoad
    case HiaTotal => Hia
    case V4DistTotal => V4Dist
    case V5DistTotal => V5Dist
    case V4EffTotal => V4Eff
    case V5EffTotal => V5Eff
    case HsTotal => HsDist
    case SprintTotal => SprintDist
    case Acc3Total => Acc3Eff
    case Dec3Total => Dec3Eff
    case HrMedio => HrPct
    case Minutos => MinNum
    case DiffGolsLast => DiffGols
    case MetabolicPowerMean => MetabolicPower
  }

  /** The reduction `agg_dict` names for a game column. */
  function AggOf(c: GameColumn): Agg
  {
    match c
    case HrMedio | MetabolicPowerMean => AggMean
    case Minutos => AggMax
    case DiffGolsLast => AggLast
    case _ => AggSum
  }

  function Reduced(how: Agg, xs: seq<real>): real
    requires |xs| > 0
  {
    match how
    case AggSum => Sum(xs)
    case AggMean => Mean(xs)
    case AggMax => MaxOf(xs)
    case AggLast => xs[|xs| - 1]
  }

  /** A game's rows are never empty. */
  lemma GameRowsNonEmpty<V>(keys: seq<SortKey>, vals: seq<V>, k: SortKey)
    requires |keys| == |vals| && k in keys
    ensures |GroupOf(keys, vals, k)| > 0
  {
    GroupOfLength(keys, vals, k);
    OccurrencesPositive(keys, k);
  }

  /** The value a game column takes for game `k`: its rows, reduced. */
  function GameValue(keys: seq<SortKey>, vals: seq<real>, k: SortKey, how: Agg): real
    requires |keys| == |vals| && k in keys
  {
    GameRowsNonEmpty(keys, vals, k);
    Reduced(how, GroupOf(keys, vals, k))
  }

  /** The last row's value of game `k` (`'last'`). */
  function GameLast<V>(keys: seq<SortKey>, vals: seq<V>, k: SortKey): V
    requires |keys| == |vals| && k in keys
  {
    GameRowsNonEmpty(keys, vals, k);
    var rows := GroupOf(keys, vals, k);
    rows[|rows| - 1]
  }

  function AggColumn(keys: seq<SortKey>, vals: seq<real>, games: seq<SortKey>, how: Agg): (r: seq<real>)
    requires |keys| == |vals| && forall k :: k in games ==> k in keys
    ensures |r| == |games|
  {
    seq(|games|, j requires 0 <= j < |games| => GameValue(keys, vals, games[j], how))
  }

  /** The game table: one (athlete, day) key per row, the aggregated columns and the game's
      result letter. */
  datatype Games = Games(keys: seq<SortKey>, cols: map<GameColumn, seq<real>>, resultado: seq<char>)

  /** Every key an (athlete, day) pair, and every column one value per game. */
  predicate ValidGames(g: Games)
  {
    && Keyed(g.keys) && |g.resultado| == |g.keys|
    && forall c :: c in g.cols ==> |g.cols[c]| == |g.keys|
  }

  /** The game table has the metabolic power mean only when the minutes have that column. */
  predicate Aggregated(c: GameColumn, f: Frame)
  {
    c != MetabolicPowerMean || MetabolicPower in f.cols
  }

  /** Lines 207-244: `df.groupby(['Name', 'Data']).agg(agg_dict)`, renamed and sorted. */
  function Aggregate(f: Frame, keys: seq<SortKey>, resultado: seq<char>): (g: Games)
    requires Valid(f) && |keys| == f.n && |resultado| == f.n && Keyed(keys)
    requires forall c :: c != MetabolicPowerMean ==> SourceOf(c) in f.cols
    ensures ValidGames(g) && StrictlyIncreasing(g.keys)
    ensures forall k :: k in g.keys <==> k in keys
    ensures forall c :: c in g.cols <==> Aggregated(c, f)
    ensures forall c :: c in g.cols ==> SourceOf(c) in f.cols && g.cols[c] == AggColumn(keys, f.cols[SourceOf(c)], g.keys, AggOf(c))
  {
    GroupKeysCorrect(keys);
    var games := GroupKeys(keys);
    Games(games, AggColumns(f, keys, games), GameLasts(keys, resultado, games))
  }

  /** `agg_dict` applied to every game: each column aggregated from its source column. */
  function AggColumns(f: Frame, keys: seq<SortKey>, games: seq<SortKey>): (r: map<GameColumn, seq<real>>)
    requires Valid(f) && |keys| == f.n && forall k :: k in games ==> k in keys
    requires forall c :: c != MetabolicPowerMean ==> SourceOf(c) in f.cols
    ensures forall c :: c in r <==> Aggregated(c, f)
    ensures forall c :: c in r ==> SourceOf(c) in f.cols && r[c] == AggColumn(keys, f.cols[SourceOf(c)], games, AggOf(c))
  {
    map c: GameColumn | Aggregated(c, f) :: AggColumn(keys, f.cols[SourceOf(c)], games, AggOf(c))
  }

  /** The last row's result letter of every game. */
  function GameLasts(keys: seq<SortKey>, resultado: seq<char>, games: seq<SortKey>): (r: seq<char>)
    requires |keys| == |resultado| && forall k :: k in games ==> k in keys
    ensures |r| == |games|
  {
    seq(|games|, j requires 0 <= j < |games| => GameLast(keys, resultado, games[j]))
  }

  // ---------------------------------------------------------------------------
  // Lines 246-295: the history features.

  /** The mean features the loops of lines 254-271 write. */
  datatype MeanFeature =
    | MediaDistGeral | MediaLoadGeral | MediaHiaGeral | MediaHsGeral | MediaSprintGeral | MediaHrGeral
    | MediaDistContexto | MediaHiaContexto | MediaLoadContexto

  /** Feature columns by name; `None` is NaN. */
  type Means = map<MeanFeature, seq<Option<real>>>

  /** The features lines 249-290 add to the game table, before the NaN filling. */
  datatype History = History(
    diasDescanso: seq<real>,
    general: Means,
    context: Means,
    carga3Jogos: seq<Option<real>>,
    carga7Jogos: seq<Option<real>>,
    mediaDist3Jogos: seq<Option<real>>,
    trendDist: seq<Option<real>>,
    nJogos: seq<nat>)

  lemma KeyShape(keys: seq<SortKey>, j: nat)
    requires Keyed(keys) && j < |keys|
    ensures |keys[j]| == 2 && keys[j][0].Text? && keys[j][1].Int?
  {
    assert keys[j] in keys;
  }

  /** The athlete of each (athlete, day) key. */
  function AthletesOf(keys: seq<SortKey>): (r: seq<Atom>)
    requires Keyed(keys)
    ensures |r| == |keys|
  {
    seq(|keys|, j requires 0 <= j < |keys| => KeyShape(keys, j); keys[j][0])
  }

  /** The day of each (athlete, day) key. */
  function DaysOf(keys: seq<SortKey>): (r: seq<int>)
    requires Keyed(keys)
    ensures |r| == |keys|
  {
    seq(|keys|, j requires 0 <= j < |keys| => KeyShape(keys, j); keys[j][1].i)
  }

  /** The athlete of each game. */
  function Athletes(g: Games): (r: seq<Atom>)
    requires ValidGames(g)
    ensures |r| == |g.keys|
  {
    AthletesOf(g.keys)
  }

  /** The day of each game. */
  function Days(g: Games): (r: seq<int>)
    requires ValidGames(g)
    ensures |r| == |g.keys|
  {
    DaysOf(g.keys)
  }

  /** The (athlete, result) group of each game. */
  function Contexts(g: Games): (r: seq<(Atom, char)>)
    requires ValidGames(g)
    ensures |r| == |g.keys|
  {
    seq(|g.keys|, j requires 0 <= j < |g.keys| => (Athletes(g)[j], g.resultado[j]))
  }

  /** `diff().dt.days.fillna(7).clip(1, 30)` for one game, from the athlete's previous game day. */
  function RestGap(previous: Option<int>, day: int): (r: real)
    ensures 1.0 <= r <= 30.0
    ensures previous.None? ==> r == 7.0
  {
    match previous
    case None => 7.0
    case Some(p) => Clip((day - p) as real, 1.0, 30.0)
  }

  /** `groupby('Name')['Data'].diff().dt.days.fillna(7).clip(1, 30)` over (athlete, day) keys. */
  function RestDaysOf(keys: seq<SortKey>): (r: seq<real>)
    requires Keyed(keys)
    ensures |r| == |keys|
    ensures forall j :: 0 <= j < |r| ==> 1.0 <= r[j] <= 30.0
  {
    var previous := GroupPrevious(AthletesOf(keys), DaysOf(keys));
    seq(|keys|, j requires 0 <= j < |keys| => RestGap(previous[j], DaysOf(keys)[j]))
  }

  function RestDays(g: Games): (r: seq<real>)
    requires ValidGames(g)
    ensures |r| == |g.keys|
  {
    RestDaysOf(g.keys)
  }

  /** `Media_Dist_3Jogos / (Media_Dist_Geral + 1)` for one game; NaN when either side is. */
  function TrendOf(recent: Option<real>, overall: Option<real>): Option<real>
  {
    if recent.None? || overall.None? || overall.value + 1.0 == 0.0 then None
    else Some(recent.value / (overall.value + 1.0))
  }

  /** `medias`: the game column each mean over all earlier games is taken of. */
  const GeneralMeans: seq<(GameColumn, MeanFeature)> :=
    [(DistTotal, MediaDistGeral), (LoadTotal, MediaLoadGeral), (HiaTotal, MediaHiaGeral),
     (HsTotal, MediaHsGeral), (SprintTotal, MediaSprintGeral), (HrMedio, MediaHrGeral)]

  /** The means over earlier games with the same result. */
  const ContextMeans: seq<(GameColumn, MeanFeature)> :=
    [(DistTotal, MediaDistContexto), (HiaTotal, MediaHiaContexto), (LoadTotal, MediaLoadContexto)]

  /** Each feature of `pairs` holds the mean of its column over the earlier games of the
      row's group. */
  predicate PastMeansOf<K(==)>(g: Games, groups: seq<K>, means: Means, pairs: seq<(GameColumn, MeanFeature)>)
    requires ValidGames(g) && |groups| == |g.keys|
  {
    forall k :: 0 <= k < |pairs| ==>
      && pairs[k].0 in g.cols && pairs[k].1 in means
      && means[pairs[k].1] == GroupShifted(groups, g.cols[pairs[k].0], Expanding, MeanOf)
  }

  /** `for orig, dest in pairs: df_jogo[dest] = groupby(groups)[orig].transform(expanding mean, shift 1)`. */
  method AddPastMeans<K(==)>(g: Games, groups: seq<K>, pairs: seq<(GameColumn, MeanFeature)>) returns (r: Means)
    requires ValidGames(g) && |groups| == |g.keys|
    requires forall k :: 0 <= k < |pairs| ==> pairs[k].0 in g.cols
    requires forall i, j :: 0 <= i < j < |pairs| ==> pairs[i].1 != pairs[j].1
    ensures PastMeansOf(g, groups, r, pairs)
    ensures forall m :: m in r ==> |r[m]| == |g.keys|
  {
    r := map[];
    for k := 0 to |pairs|
      invariant forall m :: m in r ==> |r[m]| == |g.keys|
      invariant forall j :: 0 <= j < k ==>
        pairs[j].1 in r && r[pairs[j].1] == GroupShifted(groups, g.cols[pairs[j].0], Expanding, MeanOf)
    {
      var (orig, dest) := pairs[k];
      r := r[dest := GroupShifted(groups, g.cols[orig], Expanding, MeanOf)];
    }
  }

  /** The history features of lines 249-290, before the NaN filling. */
  predicate HistoryFeatures(g: Games, h: History)
    requires ValidGames(g)
  {
    var athletes := Athletes(g);
    && h.diasDescanso == RestDays(g)
    && PastMeansOf(g, athletes, h.general, GeneralMeans)
    && PastMeansOf(g, Contexts(g), h.context, ContextMeans)
    && LoadTotal in g.cols && DistTotal in g.cols
    && h.carga3Jogos == GroupShifted(athletes, g.cols[LoadTotal], Rolling(3), SumOf)
    && h.carga7Jogos == GroupShifted(athletes, g.cols[LoadTotal], Rolling(7), SumOf)
    && h.mediaDist3Jogos == GroupShifted(athletes, g.cols[DistTotal], Rolling(3), MeanOf)
    && MediaDistGeral in h.general && |h.general[MediaDistGeral]| == |g.keys| && |h.trendDist| == |g.keys|
    && (forall j :: 0 <= j < |g.keys| ==>
          h.trendDist[j] == TrendOf(h.mediaDist3Jogos[j], h.general[MediaDistGeral][j]))
    && h.nJogos == CumCount(athletes)
  }

  /** Every feature column has one value per game. */
  predicate HistoryFits(h: History, n: nat)
  {
    && |h.diasDescanso| == n && |h.carga3Jogos| == n && |h.carga7Jogos| == n
    && |h.mediaDist3Jogos| == n && |h.trendDist| == n && |h.nJogos| == n
    && (forall m :: m in h.general ==> |h.general[m]| == n)
    && (forall m :: m in h.context ==> |h.context[m]| == n)
  }

  lemma MeanPairsDistinct()
    ensures forall i, j :: 0 <= i < j < |GeneralMeans| ==> GeneralMeans[i].1 != GeneralMeans[j].1
    ensures forall i, j :: 0 <= i < j < |ContextMeans| ==> ContextMeans[i].1 != ContextMeans[j].1
    ensures GeneralMeans[0] == (DistTotal, MediaDistGeral)
  {
  }

  /** Lines 249-290 on a game table that has every column but perhaps the metabolic power. */
  method AddHistory(g: Games) returns (h: History)
    requires ValidGames(g) && forall c :: c != MetabolicPowerMean ==> c in g.cols
    ensures HistoryFeatures(g, h) && HistoryFits(h, |g.keys|)
  {
    var n := |g.keys|;
    var athletes := Athletes(g);
    MeanPairsDistinct();
    var general := AddPastMeans(g, athletes, GeneralMeans);
    var context := AddPastMeans(g, Contexts(g), ContextMeans);
    var overall := general[MediaDistGeral];
    var recent := GroupShifted(athletes, g.cols[DistTotal], Rolling(3), MeanOf);
    h := History(
      RestDays(g), general, context,
      GroupShifted(athletes, g.cols[LoadTotal], Rolling(3), SumOf),
      GroupShifted(athletes, g.cols[LoadTotal], Rolling(7), SumOf),
      recent,
      seq(n, j requires 0 <= j < n => TrendOf(recent[j], overall[j])),
      CumCount(athletes));
  }

  // ---------------------------------------------------------------------------
  // What the history features mean.

  /** Two keys of the same athlete in an ordered table: the later row is the later day. */
  lemma KeysInDayOrder(keys: seq<SortKey>, a: nat, b: nat)
    requires Keyed(keys) && StrictlyIncreasing(keys) && a < b < |keys|
    requires AthletesOf(keys)[a] == AthletesOf(keys)[b]
    ensures DaysOf(keys)[a] < DaysOf(keys)[b]
  {
    var ka, kb := keys[a], keys[b];
    KeyShape(keys, a);
    KeyShape(keys, b);
    assert KeyLe(ka, kb) && ka != kb;
    AtomLtAsymmetric(ka[0], kb[0]);
    assert KeyLe(ka[1..], kb[1..]);
  }

  /** An athlete's rows before row `i` are exactly their rows on earlier days. */
  lemma EarlierRowsAreEarlierDays(keys: seq<SortKey>, i: nat, j: nat)
    requires Keyed(keys) && StrictlyIncreasing(keys) && i < |keys| && j < |keys|
    requires AthletesOf(keys)[j] == AthletesOf(keys)[i]
    ensures j < i <==> DaysOf(keys)[j] < DaysOf(keys)[i]
  {
    if j < i {
      KeysInDayOrder(keys, j, i);
    } else if i < j {
      KeysInDayOrder(keys, i, j);
    }
  }

  /** An athlete's first day rests 7 days. */
  lemma FirstDayRests7(keys: seq<SortKey>, i: nat)
    requires Keyed(keys) && i < |keys|
    requires forall p :: 0 <= p < i ==> AthletesOf(keys)[p] != AthletesOf(keys)[i]
    ensures RestDaysOf(keys)[i] == 7.0
  {
    NoEarlier(AthletesOf(keys), DaysOf(keys), i);
    GroupPreviousAt(AthletesOf(keys), DaysOf(keys), i);
  }

  /** Any later day rests the days since the athlete's previous day, at least 1 in an
      ordered table, and at most 30. */
  lemma LaterDayRestsGap(keys: seq<SortKey>, i: nat, p: nat)
    requires Keyed(keys) && StrictlyIncreasing(keys)
    requires p < i < |keys| && AthletesOf(keys)[p] == AthletesOf(keys)[i]
    requires forall q :: p < q < i ==> AthletesOf(keys)[q] != AthletesOf(keys)[i]
    ensures DaysOf(keys)[i] - DaysOf(keys)[p] >= 1
    ensures RestDaysOf(keys)[i] ==
              if DaysOf(keys)[i] - DaysOf(keys)[p] > 30 then 30.0 else (DaysOf(keys)[i] - DaysOf(keys)[p]) as real
  {
    LatestEarlier(AthletesOf(keys), DaysOf(keys), i, p);
    GroupPreviousAt(AthletesOf(keys), DaysOf(keys), i);
    KeysInDayOrder(keys, p, i);
  }

  /** A mean over earlier games is the mean of the athlete's games before this one, NaN for
      their first game. */
  lemma PastMeanAt(g: Games, h: History, k: nat, i: nat)
    requires ValidGames(g) && HistoryFeatures(g, h) && k < |GeneralMeans| && i < |g.keys|
    ensures var vals := g.cols[GeneralMeans[k].0];
            h.general[GeneralMeans[k].1][i] == MeanOpt(Earlier(Athletes(g), vals, i))
  {
    GroupShiftedAt(Athletes(g), g.cols[GeneralMeans[k].0], Expanding, MeanOf, i);
  }

  /** No leakage: a mean over earlier games does not change with the game's own values or with
      anything of later rows. */
  lemma PastMeanIgnoresPresent(g: Games, h: History, g2: Games, h2: History, k: nat, i: nat)
    requires ValidGames(g) && HistoryFeatures(g, h) && ValidGames(g2) && HistoryFeatures(g2, h2)
    requires k < |GeneralMeans| && i < |g.keys| && i < |g2.keys| && g.keys[..i + 1] == g2.keys[..i + 1]
    requires g.cols[GeneralMeans[k].0][..i] == g2.cols[GeneralMeans[k].0][..i]
    ensures h.general[GeneralMeans[k].1][i] == h2.general[GeneralMeans[k].1][i]
  {
    AthletePrefix(g, g2, i);
    ShiftedDependsOnlyOnPast(Athletes(g), g.cols[GeneralMeans[k].0], Athletes(g2), g2.cols[GeneralMeans[k].0],
                             Expanding, MeanOf, i);
  }

  lemma AthletePrefix(g: Games, g2: Games, i: nat)
    requires ValidGames(g) && ValidGames(g2) && i < |g.keys| && i < |g2.keys|
    requires g.keys[..i + 1] == g2.keys[..i + 1]
    ensures Athletes(g)[..i + 1] == Athletes(g2)[..i + 1]
  {
    forall j | 0 <= j <= i ensures Athletes(g)[j] == Athletes(g2)[j] {
      assert g.keys[j] == g.keys[..i + 1][j];
    }
  }

  /** A mean by result sees only the athlete's earlier games with the same result: changing
      a game of another athlete or another result leaves it as it is. */
  lemma ContextMeanIgnoresOtherResults(g: Games, h: History, k: nat, i: nat, j: nat, x: real)
    requires ValidGames(g) && HistoryFeatures(g, h) && k < |ContextMeans| && i < |g.keys| && j < |g.keys|
    requires Athletes(g)[j] != Athletes(g)[i] || g.resultado[j] != g.resultado[i]
    ensures var vals := g.cols[ContextMeans[k].0];
            GroupShifted(Contexts(g), vals[j := x], Expanding, MeanOf)[i] == h.context[ContextMeans[k].1][i]
  {
    ShiftedIgnoresOtherGroups(Contexts(g), g.cols[ContextMeans[k].0], Expanding, MeanOf, i, j, x);
  }

  /** With non-negative loads, the load of the last three earlier games is at most that of the
      last seven; both are NaN exactly for the athlete's first game. */
  lemma ThreeGamesWithinSeven(g: Games, h: History, i: nat)
    requires ValidGames(g) && HistoryFeatures(g, h) && i < |g.keys|
    requires AllNonNegative(g.cols[LoadTotal])
    ensures h.carga3Jogos[i].Some? <==> h.carga7Jogos[i].Some?
    ensures h.carga3Jogos[i].Some? <==> Earlier(Athletes(g), g.cols[LoadTotal], i) != []
    ensures h.carga3Jogos[i].Some? ==> 0.0 <= h.carga3Jogos[i].value <= h.carga7Jogos[i].value
  {
    var loads := g.cols[LoadTotal];
    GroupShiftedAt(Athletes(g), loads, Rolling(3), SumOf, i);
    GroupShiftedAt(Athletes(g), loads, Rolling(7), SumOf, i);
    var e := Earlier(Athletes(g), loads, i);
    assert AllNonNegative(loads[..i]);
    GroupOfValuesFrom(Athletes(g)[..i], loads[..i], Athletes(g)[i]);
    LastNSumGrows(e, 3, 7);
  }

  /** The game counter is the number of the athlete's earlier games: 0 for the first. */
  lemma GameCountAt(g: Games, h: History, i: nat)
    requires ValidGames(g) && HistoryFeatures(g, h) && i < |g.keys| && DistTotal in g.cols
    ensures h.nJogos[i] == |Earlier(Athletes(g), g.cols[DistTotal], i)|
    ensures (forall p :: 0 <= p < i ==> Athletes(g)[p] != Athletes(g)[i]) ==> h.nJogos[i] == 0
  {
    CumCountAt(Athletes(g), g.cols[DistTotal], i);
    if forall p :: 0 <= p < i ==> Athletes(g)[p] != Athletes(g)[i] {
      NoEarlier(Athletes(g), g.cols[DistTotal], i);
    }
  }

  /** The two distance means of one game, in terms of the athlete's earlier games. */
  lemma DistanceMeansAt(g: Games, h: History, i: nat)
    requires ValidGames(g) && HistoryFeatures(g, h) && i < |g.keys|
    ensures var e := Earlier(Athletes(g), g.cols[DistTotal], i);
            && h.general[MediaDistGeral][i] == MeanOpt(e)
            && h.mediaDist3Jogos[i] == (if e == [] then None else Some(Mean(LastN(e, 3))))
  {
    MeanPairsDistinct();
    PastMeanAt(g, h, 0, i);
    GroupShiftedAt(Athletes(g), g.cols[DistTotal], Rolling(3), MeanOf, i);
  }

  /** The athlete's earlier distances are non-negative when the whole column is. */
  lemma EarlierNonNegative(g: Games, c: GameColumn, i: nat)
    requires ValidGames(g) && c in g.cols && i < |g.keys| && AllNonNegative(g.cols[c])
    ensures AllNonNegative(Earlier(Athletes(g), g.cols[c], i))
  {
    assert AllNonNegative(g.cols[c][..i]);
    GroupOfValuesFrom(Athletes(g)[..i], g.cols[c][..i], Athletes(g)[i]);
  }

  /** The trend of a game whose means come from the earlier distances `e`: defined exactly
      when there are some, given they are non-negative. */
  lemma TrendOfEarlier(e: seq<real>, recent: Option<real>, overall: Option<real>)
    requires AllNonNegative(e) && overall == MeanOpt(e)
    requires recent == (if e == [] then None else Some(Mean(LastN(e, 3))))
    ensures TrendOf(recent, overall).Some? <==> e != []
    ensures e != [] ==> overall.value >= 0.0
  {
    if e != [] {
      MeanNonNegative(e);
    }
  }

  /** With non-negative distances the trend is defined exactly when the athlete has an earlier
      game, and is then the recent mean over the overall mean plus one. */
  lemma TrendDefinedAfterFirstGame(g: Games, h: History, i: nat)
    requires ValidGames(g) && HistoryFeatures(g, h) && i < |g.keys|
    requires AllNonNegative(g.cols[DistTotal])
    ensures h.trendDist[i].Some? <==> Earlier(Athletes(g), g.cols[DistTotal], i) != []
    ensures h.trendDist[i].Some? ==>
              h.mediaDist3Jogos[i].Some? && h.general[MediaDistGeral][i].Some?
              && h.general[MediaDistGeral][i].value >= 0.0
              && h.trendDist[i].value == h.mediaDist3Jogos[i].value / (h.general[MediaDistGeral][i].value + 1.0)
  {
    var recent, overall := h.mediaDist3Jogos[i], h.general[MediaDistGeral][i];
    assert h.trendDist[i] == TrendOf(recent, overall);
    DistanceMeansAt(g, h, i);
    EarlierNonNegative(g, DistTotal, i);
    TrendOfEarlier(Earlier(Athletes(g), g.cols[DistTotal], i), recent, overall);
  }
}
