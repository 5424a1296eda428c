/** The live projection engine: from an athlete's past games and the game in
    progress it projects the cumulative curve of one metric to a chosen minute,
    either by spreading a trained regressor's predicted total over the future
    minutes or, without a usable regressor, by adding blended historical
    per-minute means scaled by today's pace, fatigue and metabolic power.  It
    then adds a widening confidence band and the KPI deltas.

    Tables are sequences of rows; dates are day numbers; the game column of the
    live tracker is the date ('Data') and its minute column is 'Interval'. */
module MlEngine {
  import opened Common
  import opened Grouping
  import opened Ordering
  import opened Score

  // ---------------------------------------------------------------------------
  // Tables.

  /** One per-minute row of an athlete's game (past or in progress).
      `value` is the selected metric and `cumulative` its running total. */
  datatype Row = Row(
    game: int,
    minute: int,
    value: real,
    cumulative: real,
    plCumulative: real,
    load: real,
    placar: Option<string>,
    result: Option<string>,
    metPower: Option<real>,
    hia: real,
    heartRate: real,
    equivDistance: real,
    workRate: real)

  /** The optional columns whose presence the engine tests. */
  datatype OptColumn =
    | PlCumulativeCol | LoadCol | PlacarCol | ResultCol | MetPowerCol
    | HiaCol | HeartRateCol | EquivDistanceCol | WorkRateCol

  datatype Frame = Frame(columns: set<OptColumn>, rows: seq<Row>)

  /** One per-minute row of the whole squad's table. */
  datatype TeamRow = TeamRow(date: int, period: int, minute: int, name: string, value: real)

  function Games(rows: seq<Row>): (r: seq<int>)
    ensures |r| == |rows| && forall i :: 0 <= i < |rows| ==> r[i] == rows[i].game
  {
    seq(|rows|, i requires 0 <= i < |rows| => rows[i].game)
  }

  /** The numeric columns the engine reads. */
  datatype Field = ValueF | CumulativeF | PlCumulativeF | LoadF | HiaF | HeartRateF | EquivDistanceF | WorkRateF

  function Get(r: Row, f: Field): real
  {
    match f
    case ValueF => r.value
    case CumulativeF => r.cumulative
    case PlCumulativeF => r.plCumulative
    case LoadF => r.load
    case HiaF => r.hia
    case HeartRateF => r.heartRate
    case EquivDistanceF => r.equivDistance
    case WorkRateF => r.workRate
  }

  /** One numeric column of a table. */
  function Values(rows: seq<Row>, f: Field): (r: seq<real>)
    ensures |r| == |rows| && forall i :: 0 <= i < |rows| ==> r[i] == Get(rows[i], f)
  {
    seq(|rows|, i requires 0 <= i < |rows| => Get(rows[i], f))
  }

  /** Number of distinct games (`nunique` of the game column). */
  function GameCount(rows: seq<Row>): nat
  {
    |Distinct(Games(rows))|
  }

  // ---------------------------------------------------------------------------
  // Fatigue.

  const PeriodMinutes: real := 45.0

  /** `fator_fadiga_por_minuto(minuto, minuto_max_periodo)`. */
  function FatigueFactor(minute: real, periodMax: real): real
  {
    var progress := minute / Max(periodMax, 1.0);
    Max(0.75, 1.0 - 0.15 * (progress * progress))
  }

  /** The multiplier never leaves [0.75, 1.0]: it starts at 1 and is floored at 0.75. */
  lemma FatigueBounds(minute: real, periodMax: real)
    ensures 0.75 <= FatigueFactor(minute, periodMax) <= 1.0
    ensures minute == 0.0 ==> FatigueFactor(minute, periodMax) == 1.0
  {
    var p := minute / Max(periodMax, 1.0);
    SquareNonNegative(p);
  }

  /** Later minutes are never less tired. */
  lemma FatigueNonIncreasing(m1: real, m2: real, periodMax: real)
    requires 0.0 <= m1 <= m2
    ensures FatigueFactor(m2, periodMax) <= FatigueFactor(m1, periodMax)
  {
    var d := Max(periodMax, 1.0);
    var p1, p2 := m1 / d, m2 / d;
    assert 0.0 <= p1 <= p2 by { DivMonotone(m1, m2, d); }
    assert p1 * p1 <= p1 * p2 <= p2 * p2 by {
      MulMonotone(p1, p1, p2);
      MulMonotone(p2, p1, p2);
      assert p2 * p1 == p1 * p2;
    }
    assert 0.15 * (p1 * p1) <= 0.15 * (p2 * p2);
  }

  lemma SquareNonNegative(p: real)
    ensures p * p >= 0.0
  {
    if p < 0.0 { assert p * p == (-p) * (-p); }
  }

  lemma DivMonotone(a: real, b: real, d: real)
    requires 0.0 <= a <= b && d > 0.0
    ensures 0.0 <= a / d <= b / d
  {
    assert b / d - a / d == (b - a) / d;
  }

  lemma MulMonotone(c: real, a: real, b: real)
    requires c >= 0.0 && a <= b
    ensures c * a <= c * b
  {
    assert c * b - c * a == c * (b - a);
  }

  /** The multiplier at a live-tracker minute (period length 45). */
  function Fatigue(minute: int): (r: real)
    ensures 0.75 <= r <= 1.0
  {
    FatigueBounds(minute as real, PeriodMinutes);
    FatigueFactor(minute as real, PeriodMinutes)
  }

  // ---------------------------------------------------------------------------
  // Rest days.

  /** The latest date strictly before `today`, if any. */
  function LatestBefore(dates: seq<int>, today: int): (r: Option<int>)
    ensures r.None? <==> forall i :: 0 <= i < |dates| ==> dates[i] >= today
    ensures r.Some? ==> r.value < today && r.value in dates
    ensures r.Some? ==> forall i :: 0 <= i < |dates| && dates[i] < today ==> dates[i] <= r.value
    decreases |dates|
  {
    if |dates| == 0 then None
    else
      var rest := LatestBefore(dates[..|dates| - 1], today);
      var d := dates[|dates| - 1];
      assert forall i :: 0 <= i < |dates| - 1 ==> dates[i] == dates[..|dates| - 1][i];
      if d >= today then rest
      else match rest
        case None => Some(d)
        case Some(e) => Some(if d > e then d else e)
  }

  /** `calcular_dias_descanso`: 7 without an earlier game, otherwise the gap to the latest
      earlier game, capped at 30. */
  function RestDays(dates: seq<int>, today: int): (r: int)
    ensures (forall i :: 0 <= i < |dates| ==> dates[i] >= today) ==> r == 7
    ensures (exists i :: 0 <= i < |dates| && dates[i] < today) ==> 1 <= r <= 30
    ensures (exists i :: 0 <= i < |dates| && dates[i] < today) ==>
              (exists i :: 0 <= i < |dates| && dates[i] < today
                 && r == (if today - dates[i] < 30 then today - dates[i] else 30)
                 && (forall j :: 0 <= j < |dates| && dates[j] < today ==> dates[j] <= dates[i]))
  {
    match LatestBefore(dates, today)
    case None => 7
    case Some(d) => if today - d < 30 then today - d else 30
  }

  // ---------------------------------------------------------------------------
  // Historical means.

  /** `calcular_media_historica_atleta`: mean over past games of the game's total; 0 without history. */
  function AthleteMean(rows: seq<Row>): real
  {
    if |rows| == 0 then 0.0 else MeanOfGroupTotals(Games(rows), Values(rows, ValueF))
  }

  /** The athlete's mean equals the metric's total over the number of games played. */
  lemma AthleteMeanIsTotalPerGame(rows: seq<Row>)
    requires |rows| > 0
    ensures AthleteMean(rows) == Sum(Values(rows, ValueF)) / (GameCount(rows) as real)
  {
    MeanOfGroupTotalsIsTotalPerGroup(Games(rows), Values(rows, ValueF));
  }

  /** pandas `==` on text cells: NaN equals nothing. */
  predicate SameText(a: Option<string>, b: Option<string>)
  {
    a.Some? && b.Some? && a.value == b.value
  }

  /** The rows of past games played in the given result context. */
  function ContextRows(rows: seq<Row>, ctx: Option<string>): seq<Row>
  {
    Filter(rows, (r: Row) => SameText(r.result, ctx))
  }

  /** `calcular_media_por_contexto`: the same mean restricted to games with the same result;
      missing without a 'Resultado' column, without history or with fewer than 3 such games. */
  function ContextMean(hist: Frame, ctx: Option<string>): Option<real>
  {
    if ResultCol !in hist.columns || |hist.rows| == 0 then None
    else
      var c := ContextRows(hist.rows, ctx);
      if GameCount(c) < 3 then None
      else Some(MeanOfGroupTotals(Games(c), Values(c, ValueF)))
  }

  /** A context mean exists only with at least three games of that result, all of whose rows
      carry that result, and it is their total over their number. */
  lemma ContextMeanSpec(hist: Frame, ctx: Option<string>)
    ensures ContextMean(hist, ctx).Some? <==>
              ResultCol in hist.columns && GameCount(ContextRows(hist.rows, ctx)) >= 3
    ensures forall r :: r in ContextRows(hist.rows, ctx) ==> r in hist.rows && SameText(r.result, ctx)
    ensures ContextMean(hist, ctx).Some? ==>
              var c := ContextRows(hist.rows, ctx);
              ContextMean(hist, ctx).value == Sum(Values(c, ValueF)) / (GameCount(c) as real)
  {
    var c := ContextRows(hist.rows, ctx);
    if |hist.rows| == 0 {
      assert |c| == 0;
      assert Games(c) == [];
    }
    if ContextMean(hist, ctx).Some? {
      MeanOfGroupTotalsIsTotalPerGroup(Games(c), Values(c, ValueF));
    }
  }

  /** Python's `x or y` for a number that may be missing: `y` when `x` is missing or zero. */
  function OrElse(x: Option<real>, y: real): (r: real)
    ensures x.Some? && x.value != 0.0 ==> r == x.value
    ensures x.None? || x.value == 0.0 ==> r == y
  {
    match x
    case Some(v) => if v != 0.0 then v else y
    case None => y
  }

  // ---------------------------------------------------------------------------
  // Per-minute curves: `df.groupby(minute)[col].mean()`, a series indexed by the minutes present.

  function MinutesOf(rows: seq<Row>): set<int>
  {
    set i | 0 <= i < |rows| :: rows[i].minute
  }

  function AtMinute(rows: seq<Row>, m: int): seq<Row>
  {
    Filter(rows, (r: Row) => r.minute == m)
  }

  lemma AtMinuteNonEmpty(rows: seq<Row>, m: int)
    requires m in MinutesOf(rows)
    ensures |AtMinute(rows, m)| > 0
  {
    var i :| 0 <= i < |rows| && rows[i].minute == m;
    assert rows[i] in AtMinute(rows, m);
  }

  function MinuteMean(rows: seq<Row>, m: int, f: Field): real
    requires m in MinutesOf(rows)
  {
    AtMinuteNonEmpty(rows, m);
    Mean(Values(AtMinute(rows, m), f))
  }

  /** The per-minute mean curve of a column: defined exactly at the minutes that occur. */
  function MinuteMeans(rows: seq<Row>, f: Field): (curve: map<int, real>)
    ensures curve.Keys == MinutesOf(rows)
  {
    map m | m in MinutesOf(rows) :: MinuteMean(rows, m, f)
  }

  /** Each point of a curve is the mean of the rows at that minute. */
  lemma MinuteMeansAt(rows: seq<Row>, f: Field, m: int)
    requires m in MinutesOf(rows)
    ensures var at := AtMinute(rows, m);
            |at| > 0 && MinuteMeans(rows, f)[m] == Sum(Values(at, f)) / (|at| as real)
            && forall r :: r in at ==> r in rows && r.minute == m
  {
    AtMinuteNonEmpty(rows, m);
  }

  /** `curve.loc[m] if m in curve.index else fallback`. */
  function CurveAt(curve: map<int, real>, m: int, fallback: real): real
  {
    if m in curve then curve[m] else fallback
  }

  // ---------------------------------------------------------------------------
  // Score context and pace.

  /** `peso_placar` from the number of past games played at the same score. */
  function ScoreWeight(sameScoreGames: nat): (w: real)
    ensures sameScoreGames >= 3 ==> w == 0.6
    ensures 1 <= sameScoreGames <= 2 ==> w == 0.3
    ensures sameScoreGames == 0 ==> w == 0.0
  {
    if sameScoreGames >= 3 then 0.6 else if sameScoreGames > 0 then 0.3 else 0.0
  }

  /** More games at the same score never lower the weight, which stays in [0, 0.6]. */
  lemma ScoreWeightMonotone(a: nat, b: nat)
    requires a <= b
    ensures 0.0 <= ScoreWeight(a) <= ScoreWeight(b) <= 0.6
  {
  }

  /** The rows of past games played at the current score (none without a 'Placar' column). */
  function ScenarioRows(hist: Frame, placar: Option<string>): seq<Row>
  {
    if PlacarCol in hist.columns then Filter(hist.rows, (r: Row) => SameText(r.placar, placar)) else []
  }

  /** `fator_alvo`, `fator_pl`, `fator_proj`: a value against its historical reference,
      neutral (1.0) when the reference is not positive. */
  function PaceRatio(x: real, reference: real): (r: real)
    ensures reference <= 0.0 ==> r == 1.0
    ensures reference > 0.0 ==> r * reference == x
  {
    if reference > 0.0 then x / reference else 1.0
  }

  /** `fator_hoje`: 78 % distance pace, 22 % Player Load pace. */
  function TodayFactor(target: real, pl: real): real
  {
    target * 0.78 + pl * 0.22
  }

  /** The blend lies between its two factors, and equals them when they agree. */
  lemma TodayFactorBetween(target: real, pl: real)
    ensures Min(target, pl) <= TodayFactor(target, pl) <= Max(target, pl)
    ensures target == pl ==> TodayFactor(target, pl) == target
    ensures target >= 0.0 && pl >= 0.0 ==> TodayFactor(target, pl) >= 0.0
  {
  }

  /** `fator_met_power`: the current metabolic power against its historical mean,
      `1 - (ratio - 1) * 0.15` clipped to [0.85, 1.15], or 1.0 when the current value is
      missing or not positive, or the reference is missing or not positive. */
  function MetFactor(current: Option<real>, reference: Option<real>): real
  {
    if current.Some? && current.value > 0.0 && reference.Some? && reference.value > 0.0 then
      Clip(1.0 - ((current.value / reference.value - 1.0) * 0.15), 0.85, 1.15)
    else 1.0
  }

  /** The metabolic factor lies in [0.85, 1.15], is neutral without a positive reading,
      and is neutral when today's power equals the reference. */
  lemma MetFactorSpec(current: Option<real>, reference: Option<real>)
    ensures 0.85 <= MetFactor(current, reference) <= 1.15
    ensures current.None? || current.value <= 0.0 ==> MetFactor(current, reference) == 1.0
    ensures current.Some? && current.value > 0.0 && reference == current ==> MetFactor(current, reference) == 1.0
  {
    if current.Some? && current.value > 0.0 && reference == current {
      assert current.value / reference.value == 1.0;
    }
  }

  /** The reference the fallback uses: the history's mean when it has the column,
      otherwise the current value itself. */
  function MetReference(hist: Frame, current: Option<real>): Option<real>
  {
    if MetPowerCol in hist.columns then MeanPresent(MetPowers(hist.rows)) else current
  }

  function MetPowers(rows: seq<Row>): (r: seq<Option<real>>)
    ensures |r| == |rows| && forall i :: 0 <= i < |rows| ==> r[i] == rows[i].metPower
  {
    seq(|rows|, i requires 0 <= i < |rows| => rows[i].metPower)
  }

  /** `met_power_atual`: the mean of the last five live rows (NaN skipped); when that is NaN,
      the history's mean (or 0 when the history lacks the column); 0 when the live table
      lacks the column.  `None` is NaN. */
  function CurrentMetPower(cur: Frame, hist: Frame): Option<real>
  {
    if MetPowerCol in cur.columns then
      match MeanPresent(MetPowers(LastN(cur.rows, 5)))
      case Some(v) => Some(v)
      case None => if MetPowerCol in hist.columns then MeanPresent(MetPowers(hist.rows)) else Some(0.0)
    else Some(0.0)
  }

  // ---------------------------------------------------------------------------
  // Projected curves.

  /** A running total that starts from `start` and adds each step in turn. */
  function Cumulative(start: real, steps: seq<real>): (r: seq<real>)
    ensures |r| == |steps|
  {
    seq(|steps|, i requires 0 <= i < |steps| => start + Sum(steps[..i + 1]))
  }

  /** With non-negative steps the running total never decreases and never drops below its start. */
  lemma CumulativeMonotone(start: real, steps: seq<real>)
    requires AllNonNegative(steps)
    ensures NonDecreasing(Cumulative(start, steps))
    ensures forall i :: 0 <= i < |steps| ==> Cumulative(start, steps)[i] >= start
  {
    var c := Cumulative(start, steps);
    forall i | 0 < i < |steps| ensures c[i - 1] <= c[i] {
      assert steps[..i + 1][..i] == steps[..i];
    }
    forall i | 0 <= i < |steps| ensures c[i] >= start {
      SumNonNegative(steps[..i + 1]);
    }
  }

  /** The model path's step at future minute `m`: an equal share of the remaining distance
      to the predicted total, damped by fatigue. */
  function ModelStep(m: int, current: real, predicted: real, count: nat): real
  {
    var share := if count > 1 then count else 1;
    (Max(0.0, predicted - current) / share as real) * Fatigue(m)
  }

  function ModelSteps(minutes: seq<int>, current: real, predicted: real): (r: seq<real>)
    ensures |r| == |minutes|
  {
    seq(|minutes|, i requires 0 <= i < |minutes| => ModelStep(minutes[i], current, predicted, |minutes|))
  }

  /** The model-path curve rises from the current total and ends between
      current + 0.75 * remainder and max(current, predicted): fatigue only ever damps the
      equal shares, which are not rescaled to reach the prediction. */
  lemma ModelCurveBounds(minutes: seq<int>, current: real, predicted: real)
    ensures var c := Cumulative(current, ModelSteps(minutes, current, predicted));
            NonDecreasing(c) && (forall i :: 0 <= i < |c| ==> c[i] >= current)
            && (|c| > 0 ==> current + 0.75 * Max(0.0, predicted - current) <= c[|c| - 1] <= Max(current, predicted))
  {
    var steps := ModelSteps(minutes, current, predicted);
    var c := Cumulative(current, steps);
    var n := |minutes|;
    ModelStepsNonNegative(minutes, current, predicted);
    CumulativeMonotone(current, steps);
    if n > 0 {
      ModelStepsSum(minutes, current, predicted);
      assert steps[..n] == steps;
      assert c[n - 1] == current + Sum(steps);
    }
  }

  lemma ModelStepsNonNegative(minutes: seq<int>, current: real, predicted: real)
    ensures AllNonNegative(ModelSteps(minutes, current, predicted))
  {
    var n := |minutes|;
    var share := Max(0.0, predicted - current) / (if n > 1 then n else 1) as real;
    ModelStepsWithin(minutes, current, predicted);
    WithinNonNegative(ModelSteps(minutes, current, predicted), 0.75 * share, share);
  }

  /** The model steps add up to between three quarters of the remainder and all of it. */
  lemma ModelStepsSum(minutes: seq<int>, current: real, predicted: real)
    requires |minutes| > 0
    ensures var rem := Max(0.0, predicted - current);
            0.75 * rem <= Sum(ModelSteps(minutes, current, predicted)) <= rem
  {
    var n := |minutes|;
    var steps := ModelSteps(minutes, current, predicted);
    var share := Max(0.0, predicted - current) / (if n > 1 then n else 1) as real;
    ModelStepsWithin(minutes, current, predicted);
    SumWithin(steps, 0.75 * share, share);
    EqualShares(n, Max(0.0, predicted - current), Sum(steps));
  }

  /** Every value of `s` lies in `[lo, hi]`. */
  predicate Within(s: seq<real>, lo: real, hi: real)
  {
    forall i :: 0 <= i < |s| ==> lo <= s[i] <= hi
  }

  /** Each model step is the equal share damped by a fatigue factor in [0.75, 1]. */
  lemma ModelStepsWithin(minutes: seq<int>, current: real, predicted: real)
    ensures var n := |minutes|;
            var share := Max(0.0, predicted - current) / (if n > 1 then n else 1) as real;
            Within(ModelSteps(minutes, current, predicted), 0.75 * share, share)
  {
    var n := |minutes|;
    var share := Max(0.0, predicted - current) / (if n > 1 then n else 1) as real;
    var steps := ModelSteps(minutes, current, predicted);
    forall i | 0 <= i < n ensures 0.75 * share <= steps[i] <= share {
      StepBounds(share, Fatigue(minutes[i]));
      assert steps[i] == share * Fatigue(minutes[i]);
    }
  }

  lemma WithinNonNegative(s: seq<real>, lo: real, hi: real)
    requires Within(s, lo, hi) && lo >= 0.0
    ensures AllNonNegative(s)
  {
  }

  lemma SumWithin(s: seq<real>, lo: real, hi: real)
    requires Within(s, lo, hi)
    ensures |s| as real * lo <= Sum(s) <= |s| as real * hi
  {
    SumAtMost(s, hi);
    SumAtLeast(s, lo);
  }

  /** A sum between `n` times three quarters of an equal share of `rem` and `n` times
      that share lies between three quarters of `rem` and `rem`. */
  lemma EqualShares(n: nat, rem: real, sum: real)
    requires n > 0
    requires var share := rem / (if n > 1 then n else 1) as real;
             n as real * (0.75 * share) <= sum <= n as real * share
    ensures 0.75 * rem <= sum <= rem
  {
    var share := rem / n as real;
    assert n as real * share == rem;
    assert n as real * (0.75 * share) == 0.75 * rem;
  }

  lemma StepBounds(share: real, f: real)
    requires share >= 0.0 && 0.75 <= f <= 1.0
    ensures 0.75 * share <= share * f <= share
  {
    MulMonotone(share, 0.75, f);
    MulMonotone(share, f, 1.0);
  }

  /** `projetar_com_modelo_treinado` after the prediction: the running total over the future
      minutes, one value per minute. */
  method ProjectWithModel(minutes: seq<int>, current: real, predicted: real) returns (acc: seq<real>)
    ensures acc == Cumulative(current, ModelSteps(minutes, current, predicted))
    ensures |acc| == |minutes|
    ensures NonDecreasing(acc) && forall i :: 0 <= i < |acc| ==> acc[i] >= current
    ensures |acc| > 0 ==> acc[|acc| - 1] <= Max(current, predicted)
  {
    ghost var steps := ModelSteps(minutes, current, predicted);
    acc := [];
    var total := current;
    var i := 0;
    while i < |minutes|
      invariant 0 <= i <= |minutes|
      invariant |acc| == i
      invariant total == current + Sum(steps[..i])
      invariant forall k :: 0 <= k < i ==> acc[k] == current + Sum(steps[..k + 1])
    {
      var step := ModelStep(minutes[i], current, predicted, |minutes|);
      assert steps[..i + 1][..i] == steps[..i];
      total := total + step;
      acc := acc + [total];
      i := i + 1;
    }
    ModelCurveBounds(minutes, current, predicted);
  }

  /** The fallback's step at future minute `m`: the scenario and general per-minute means
      blended by the score weight (a minute missing from the scenario curve takes the general
      mean, one missing from the general curve counts 0), floored at 0, then scaled by
      today's pace, fatigue and the metabolic factor. */
  function FallbackStep(m: int, general: map<int, real>, scenario: map<int, real>,
                        weight: real, today: real, met: real): real
  {
    var g := CurveAt(general, m, 0.0);
    var c := CurveAt(scenario, m, g);
    var blended := Max(0.0, c * weight + g * (1.0 - weight));
    blended * today * Fatigue(m) * met
  }

  function FallbackSteps(minutes: seq<int>, general: map<int, real>, scenario: map<int, real>,
                         weight: real, today: real, met: real): (r: seq<real>)
    ensures |r| == |minutes|
  {
    seq(|minutes|, i requires 0 <= i < |minutes| => FallbackStep(minutes[i], general, scenario, weight, today, met))
  }

  /** With a non-negative pace and metabolic factor every fallback step is non-negative. */
  lemma FallbackStepsNonNegative(minutes: seq<int>, general: map<int, real>, scenario: map<int, real>,
                                 weight: real, today: real, met: real)
    requires today >= 0.0 && met >= 0.0
    ensures AllNonNegative(FallbackSteps(minutes, general, scenario, weight, today, met))
  {
    forall i | 0 <= i < |minutes|
      ensures FallbackSteps(minutes, general, scenario, weight, today, met)[i] >= 0.0
    {
      var m := minutes[i];
      var g := CurveAt(general, m, 0.0);
      var c := CurveAt(scenario, m, g);
      var b := Max(0.0, c * weight + g * (1.0 - weight));
      ProductNonNegative(b, today);
      ProductNonNegative(b * today, Fatigue(m));
      ProductNonNegative(b * today * Fatigue(m), met);
    }
  }

  lemma ProductNonNegative(a: real, b: real)
    requires a >= 0.0 && b >= 0.0
    ensures a * b >= 0.0
  {
  }

  /** `projetar_fallback_shap`: the running total of the fallback steps. */
  method ProjectFallback(minutes: seq<int>, current: real, general: map<int, real>, scenario: map<int, real>,
                         weight: real, today: real, met: real) returns (acc: seq<real>)
    ensures acc == Cumulative(current, FallbackSteps(minutes, general, scenario, weight, today, met))
    ensures |acc| == |minutes|
    ensures today >= 0.0 && met >= 0.0 ==>
              NonDecreasing(acc) && forall i :: 0 <= i < |acc| ==> acc[i] >= current
  {
    ghost var steps := FallbackSteps(minutes, general, scenario, weight, today, met);
    acc := [];
    var total := current;
    var i := 0;
    while i < |minutes|
      invariant 0 <= i <= |minutes|
      invariant |acc| == i
      invariant total == current + Sum(steps[..i])
      invariant forall k :: 0 <= k < i ==> acc[k] == current + Sum(steps[..k + 1])
    {
      var step := FallbackStep(minutes[i], general, scenario, weight, today, met);
      assert steps[..i + 1][..i] == steps[..i];
      total := total + step;
      acc := acc + [total];
      i := i + 1;
    }
    if today >= 0.0 && met >= 0.0 {
      FallbackStepsNonNegative(minutes, general, scenario, weight, today, met);
      CumulativeMonotone(current, steps);
    }
  }

  // ---------------------------------------------------------------------------
  // Confidence band.

  /** The relative margin at position `i` of a projection of length `n`. */
  function Margin(i: nat, n: nat): real
  {
    0.04 + (i as real / (if n > 1 then n else 1) as real) * 0.08
  }

  /** The margin starts at 4 %, grows with the position and stays below 12 %. */
  lemma MarginSpec(i: nat, j: nat, n: nat)
    requires i <= j < n
    ensures 0.04 <= Margin(i, n) <= Margin(j, n) < 0.12
    ensures i == 0 ==> Margin(i, n) == 0.04
  {
    var d := (if n > 1 then n else 1) as real;
    DivMonotone(i as real, j as real, d);
    assert j as real / d < 1.0;
  }

  lemma BandAround(x: real, margin: real)
    requires 0.0 <= margin < 1.0
    ensures x >= 0.0 ==> 0.0 <= x * (1.0 - margin) <= x <= x * (1.0 + margin)
  {
    if x >= 0.0 {
      MulMonotone(x, 1.0 - margin, 1.0);
      MulMonotone(x, 1.0, 1.0 + margin);
      ProductNonNegative(x, 1.0 - margin);
    }
  }

  /** `upper` and `lower` scale each value of `acc` up and down by its margin. */
  predicate Banded(acc: seq<real>, upper: seq<real>, lower: seq<real>)
  {
    |upper| == |acc| && |lower| == |acc|
    && forall i :: 0 <= i < |acc| ==>
         upper[i] == acc[i] * (1.0 + Margin(i, |acc|)) && lower[i] == acc[i] * (1.0 - Margin(i, |acc|))
  }

  /** The widening band around the projection: each value scaled up and down by its margin. */
  method ConfidenceBand(acc: seq<real>) returns (upper: seq<real>, lower: seq<real>)
    ensures Banded(acc, upper, lower)
    ensures forall i :: 0 <= i < |acc| && acc[i] >= 0.0 ==> 0.0 <= lower[i] <= acc[i] <= upper[i]
  {
    upper, lower := [], [];
    var i := 0;
    while i < |acc|
      invariant 0 <= i <= |acc|
      invariant |upper| == i && |lower| == i
      invariant forall k :: 0 <= k < i ==>
                  upper[k] == acc[k] * (1.0 + Margin(k, |acc|)) && lower[k] == acc[k] * (1.0 - Margin(k, |acc|))
      invariant forall k :: 0 <= k < i && acc[k] >= 0.0 ==> 0.0 <= lower[k] <= acc[k] <= upper[k]
    {
      var margin := 0.04 + (i as real / (if |acc| > 1 then |acc| else 1) as real) * 0.08;
      assert margin == Margin(i, |acc|);
      MarginSpec(i, i, |acc|);
      BandAround(acc[i], margin);
      upper := upper + [acc[i] * (1.0 + margin)];
      lower := lower + [acc[i] * (1.0 - margin)];
      i := i + 1;
    }
  }

  // ---------------------------------------------------------------------------
  // Squad pace.

  /** The squad's rows of today's game, this period, up to the current minute. */
  function TodayTeamRows(base: seq<TeamRow>, day: int, period: int, minute: int): seq<TeamRow>
  {
    Filter(base, (t: TeamRow) => t.date == day && t.period == period && t.minute <= minute)
  }

  /** The squad's rows of every other game, same period, up to the current minute. */
  function PastTeamRows(base: seq<TeamRow>, day: int, period: int, minute: int): seq<TeamRow>
  {
    Filter(base, (t: TeamRow) => t.date != day && t.period == period && t.minute <= minute)
  }

  /** Today's squad rows and the past squad rows never share a row, and both lie in the
      current period up to the current minute. */
  lemma TeamRowsSplit(base: seq<TeamRow>, day: int, period: int, minute: int)
    ensures forall t :: t in TodayTeamRows(base, day, period, minute) ==>
              t in base && t.date == day && t.period == period && t.minute <= minute
    ensures forall t :: t in PastTeamRows(base, day, period, minute) ==>
              t in base && t.date != day && t.period == period && t.minute <= minute
    ensures forall t :: t in base && t.period == period && t.minute <= minute ==>
              (t in TodayTeamRows(base, day, period, minute) <==> t !in PastTeamRows(base, day, period, minute))
  {
  }

  function AthleteNames(rows: seq<TeamRow>): (r: seq<string>)
    ensures |r| == |rows| && forall i :: 0 <= i < |rows| ==> r[i] == rows[i].name
  {
    seq(|rows|, i requires 0 <= i < |rows| => rows[i].name)
  }

  function GameAthletes(rows: seq<TeamRow>): (r: seq<(int, string)>)
    ensures |r| == |rows| && forall i :: 0 <= i < |rows| ==> r[i] == (rows[i].date, rows[i].name)
  {
    seq(|rows|, i requires 0 <= i < |rows| => (rows[i].date, rows[i].name))
  }

  function TeamValues(rows: seq<TeamRow>): (r: seq<real>)
    ensures |r| == |rows| && forall i :: 0 <= i < |rows| ==> r[i] == rows[i].value
  {
    seq(|rows|, i requires 0 <= i < |rows| => rows[i].value)
  }

  /** `carga_hoje_time`: today's mean load per athlete; 0 without rows. */
  function TeamLoadToday(today: seq<TeamRow>): real
  {
    if |today| == 0 then 0.0 else MeanOfGroupTotals(AthleteNames(today), TeamValues(today))
  }

  /** `carga_hist_time`: the past mean load per athlete and game; today's load without rows. */
  function TeamLoadPast(past: seq<TeamRow>, todayLoad: real): real
  {
    if |past| == 0 then todayLoad else MeanOfGroupTotals(GameAthletes(past), TeamValues(past))
  }

  /** Both squad loads are a total over a number of groups: today's over the athletes seen,
      the past one over the (game, athlete) pairs seen. */
  lemma TeamLoadsArePerAthlete(today: seq<TeamRow>, past: seq<TeamRow>)
    requires |today| > 0 && |past| > 0
    ensures TeamLoadToday(today) == Sum(TeamValues(today)) / (|Distinct(AthleteNames(today))| as real)
    ensures TeamLoadPast(past, TeamLoadToday(today))
              == Sum(TeamValues(past)) / (|Distinct(GameAthletes(past))| as real)
  {
    MeanOfGroupTotalsIsTotalPerGroup(AthleteNames(today), TeamValues(today));
    MeanOfGroupTotalsIsTotalPerGroup(GameAthletes(past), TeamValues(past));
  }

  /** A pace factor as a percentage change: `(factor - 1) * 100`. */
  function PercentChange(factor: real): real
  {
    (factor - 1.0) * 100.0
  }

  /** `delta_time_pct`: today's squad load against its past, in percent; 0 when the past
      load is not positive. */
  function TeamDelta(todayLoad: real, pastLoad: real): real
  {
    if pastLoad > 0.0 then PercentChange(todayLoad / pastLoad) else 0.0
  }

  /** The squad delta is positive exactly when today runs ahead of the past, zero exactly
      when they agree, and zero without a positive past load. */
  lemma TeamDeltaSign(todayLoad: real, pastLoad: real)
    ensures pastLoad <= 0.0 ==> TeamDelta(todayLoad, pastLoad) == 0.0
    ensures pastLoad > 0.0 ==> (TeamDelta(todayLoad, pastLoad) > 0.0 <==> todayLoad > pastLoad)
    ensures pastLoad > 0.0 ==> (TeamDelta(todayLoad, pastLoad) == 0.0 <==> todayLoad == pastLoad)
  {
    if pastLoad > 0.0 {
      var q := todayLoad / pastLoad;
      assert q * pastLoad == todayLoad;
      if q > 1.0 { MulMonotone(pastLoad, 1.0, q); }
      if q < 1.0 { MulMonotone(pastLoad, q, 1.0); }
    }
  }

  /** The squad's pace today against its past, over the current period up to `minute`. */
  function SquadDelta(base: seq<TeamRow>, day: int, period: int, minute: int): real
  {
    var today := TeamLoadToday(TodayTeamRows(base, day, period, minute));
    TeamDelta(today, TeamLoadPast(PastTeamRows(base, day, period, minute), today))
  }

  /** Without past squad rows the past load is today's, so the squad delta is 0. */
  lemma NoTeamHistoryMeansNoDelta(base: seq<TeamRow>, day: int, period: int, minute: int)
    requires PastTeamRows(base, day, period, minute) == []
    ensures SquadDelta(base, day, period, minute) == 0.0
  {
    var t := TeamLoadToday(TodayTeamRows(base, day, period, minute));
    TeamDeltaSign(t, t);
  }

  // ---------------------------------------------------------------------------
  // The trained regressor.

  /** Model file per metric (`METRICAS_CONFIG[...]["arquivo_modelo"]`). */
  const MetricsConfig: map<string, string> := map[
    "Total Distance" := "modelo_Dist_Total.pkl",
    "V4 Dist" := "modelo_V4_Dist.pkl",
    "V5 Dist" := "modelo_V5_Dist.pkl",
    "V4 Eff" := "modelo_V4_Eff.pkl",
    "V5 Eff" := "modelo_V5_Eff.pkl",
    "HIA" := "modelo_HIA_Total.pkl"]

  /** What calling the regressor gives: an exception, or a number that may be NaN (`None`). */
  datatype Outcome = Failed | Predicted(total: Option<real>)

  /** A loaded model: its feature order, its recorded error (missing: `None`) and its
      prediction, an opaque function of the feature vector. */
  datatype ModelHandle = ModelHandle(features: seq<string>, mae: Option<real>, predict: seq<Option<real>> -> Outcome)

  /** `carregar_modelo_treinado`: the metric's model from the files present in the models
      directory (`store`, keyed by file name); `None` for an unknown metric or a missing file. */
  function LoadModel(metric: string, store: map<string, ModelHandle>): (r: Option<ModelHandle>)
    ensures r.Some? <==> metric in MetricsConfig && MetricsConfig[metric] in store
    ensures r.Some? ==> r.value == store[MetricsConfig[metric]]
  {
    if metric in MetricsConfig && MetricsConfig[metric] in store then Some(store[MetricsConfig[metric]]) else None
  }

  /** Each of the six metrics has its own model file, so no two metrics can load the same
      model, and a metric outside the table never loads one. */
  lemma ModelFilesDistinct(a: string, b: string, store: map<string, ModelHandle>)
    requires a in MetricsConfig && b in MetricsConfig && a != b
    ensures MetricsConfig[a] != MetricsConfig[b]
    ensures "Player Load" !in MetricsConfig && LoadModel("Player Load", store).None?
  {
  }

  /** The 19 features the live engine builds for the regressor. */
  const FeatureNames: set<string> := {
    "Minutos", "Dias_Descanso", "Media_Dist_Geral", "Media_Dist_Contexto", "Media_HIA_Geral",
    "Media_HIA_Contexto", "Media_Load_Geral", "Media_HS_Geral", "Media_Sprint_Geral", "Media_HR_Geral",
    "Media_Load_Contexto", "Carga_3Jogos", "Carga_7Jogos", "Trend_Dist", "Diff_Gols", "N_Jogos",
    "Metabolic Power", "Equiv Distance Index", "Work Rate Dist"}

  /** The mean of a column, NaN (`None`) on an empty table. */
  function ColumnMean(rows: seq<Row>, f: Field): (r: Option<real>)
    ensures r.Some? <==> |rows| > 0
  {
    MeanOpt(Values(rows, f))
  }

  /** A column mean when the table has the column, otherwise 0. */
  function MeanIfPresent(hist: Frame, col: OptColumn, f: Field): Option<real>
  {
    if col in hist.columns then ColumnMean(hist.rows, f) else Some(0.0)
  }

  /** `Diff_Gols` of the live row: 1 for 'V', -1 for 'D', 0 otherwise. */
  function ResultDiff(ctx: Option<string>): (r: int)
    ensures -1 <= r <= 1
  {
    if ctx == Some("V") then 1 else if ctx == Some("D") then -1 else 0
  }

  /** Reading back a result label gives the sign of the goal difference it was made from. */
  lemma ResultDiffOfLabel(diff: int)
    ensures ResultDiff(Some([ResultLabel(diff)])) == (if diff > 0 then 1 else if diff < 0 then -1 else 0)
  {
    if diff > 0 { assert [ResultLabel(diff)] == "V"; }
    else if diff < 0 { assert [ResultLabel(diff)] == "D"; assert "D" != "V"; }
    else { assert [ResultLabel(diff)] == "E"; assert "E" != "V" && "E" != "D"; }
  }

  /** The game dates in ascending order, as `groupby(game)` lists them. */
  function SortedGames(rows: seq<Row>): seq<int>
  {
    SortBy(Distinct(Games(rows)), GameKey)
  }

  function GameKey(g: int): SortKey { [Int(g)] }

  /** Per-game totals of a column, ordered by date. */
  function GameTotals(rows: seq<Row>, f: Field): (r: seq<real>)
    ensures |r| == |SortedGames(rows)|
  {
    var games := SortedGames(rows);
    seq(|games|, i requires 0 <= i < |games| => Sum(GroupOf(Games(rows), Values(rows, f), games[i])))
  }

  /** `Carga_<n>Jogos`: total load of the `n` latest games. */
  function RecentLoad(rows: seq<Row>, n: nat): real
  {
    Sum(LastN(GameTotals(rows, LoadF), n))
  }

  /** With non-negative loads, the three-game load never exceeds the seven-game load. */
  lemma RecentLoadGrows(rows: seq<Row>)
    requires forall i :: 0 <= i < |rows| ==> rows[i].load >= 0.0
    ensures 0.0 <= RecentLoad(rows, 3) <= RecentLoad(rows, 7)
  {
    GameTotalsNonNegative(rows);
    LastNSumGrows(GameTotals(rows, LoadF), 3, 7);
  }

  lemma GameTotalsNonNegative(rows: seq<Row>)
    requires forall i :: 0 <= i < |rows| ==> rows[i].load >= 0.0
    ensures AllNonNegative(GameTotals(rows, LoadF))
  {
    var t := GameTotals(rows, LoadF);
    assert AllNonNegative(Values(rows, LoadF));
    forall i | 0 <= i < |t| ensures t[i] >= 0.0 {
      GameTotalNonNegative(rows, i);
    }
  }

  lemma GameTotalNonNegative(rows: seq<Row>, i: nat)
    requires AllNonNegative(Values(rows, LoadF)) && i < |SortedGames(rows)|
    ensures GameTotals(rows, LoadF)[i] >= 0.0
  {
    var g := GroupOf(Games(rows), Values(rows, LoadF), SortedGames(rows)[i]);
    GroupOfValuesFrom(Games(rows), Values(rows, LoadF), SortedGames(rows)[i]);
    SumNonNegative(g);
  }

  /** The features the live engine knows how to fill (`row_atleta`): the current minute
      and the features drawn from the history and the live context. */
  function AthleteFeatures(hist: Frame, minute: int, restDays: int, ctx: Option<string>,
                           targetPace: real, met: Option<real>): (row: map<string, Option<real>>)
    ensures row.Keys == FeatureNames
  {
    HistoryFeatures(hist, restDays, ctx, targetPace, met)["Minutos" := Some(minute as real)]
  }

  function HistoryFeatures(hist: Frame, restDays: int, ctx: Option<string>,
                           targetPace: real, met: Option<real>): (row: map<string, Option<real>>)
    ensures row.Keys + {"Minutos"} == FeatureNames
  {
    var rows := hist.rows;
    var mean := AthleteMean(rows);
    var games := GameCount(rows);
    map[
      "Dias_Descanso" := Some(restDays as real),
      "Media_Dist_Geral" := Some(mean),
      "Media_Dist_Contexto" := Some(OrElse(ContextMean(hist, ctx), mean)),
      "Media_HIA_Geral" := MeanIfPresent(hist, HiaCol, HiaF),
      "Media_HIA_Contexto" := Some(0.0),
      "Media_Load_Geral" := if LoadCol in hist.columns
                            then Some(Sum(Values(rows, LoadF)) / (if games > 1 then games else 1) as real)
                            else Some(0.0),
      "Media_HS_Geral" := Some(0.0),
      "Media_Sprint_Geral" := Some(0.0),
      "Media_HR_Geral" := MeanIfPresent(hist, HeartRateCol, HeartRateF),
      "Media_Load_Contexto" := Some(0.0),
      "Carga_3Jogos" := Some(if LoadCol in hist.columns then RecentLoad(rows, 3) else 0.0),
      "Carga_7Jogos" := Some(if LoadCol in hist.columns then RecentLoad(rows, 7) else 0.0),
      "Trend_Dist" := Some(targetPace),
      "Diff_Gols" := Some(ResultDiff(ctx) as real),
      "N_Jogos" := Some(games as real),
      "Metabolic Power" := met,
      "Equiv Distance Index" := MeanIfPresent(hist, EquivDistanceCol, EquivDistanceF),
      "Work Rate Dist" := MeanIfPresent(hist, WorkRateCol, WorkRateF)]
  }

  /** The regressor's input: each of its features from the row, 0 for a feature the row
      lacks, and the minute forced to 90 so that the whole game is predicted. */
  function Sample(features: seq<string>, row: map<string, Option<real>>): (r: seq<Option<real>>)
    ensures |r| == |features|
  {
    seq(|features|, i requires 0 <= i < |features| =>
      if features[i] == "Minutos" then Some(90.0)
      else if features[i] in row then row[features[i]]
      else Some(0.0))
  }

  /** The sample never depends on the current minute, and a feature the engine does not
      build is 0. */
  lemma SampleIgnoresMinute(features: seq<string>, hist: Frame, m1: int, m2: int, restDays: int,
                            ctx: Option<string>, targetPace: real, met: Option<real>)
    ensures Sample(features, AthleteFeatures(hist, m1, restDays, ctx, targetPace, met))
         == Sample(features, AthleteFeatures(hist, m2, restDays, ctx, targetPace, met))
    ensures forall i :: 0 <= i < |features| && features[i] !in FeatureNames ==>
              Sample(features, AthleteFeatures(hist, m1, restDays, ctx, targetPace, met))[i] == Some(0.0)
  {
    SampleOverridesMinute(features, HistoryFeatures(hist, restDays, ctx, targetPace, met), m1, m2);
  }

  lemma SampleOverridesMinute(features: seq<string>, base: map<string, Option<real>>, m1: int, m2: int)
    ensures Sample(features, base["Minutos" := Some(m1 as real)]) == Sample(features, base["Minutos" := Some(m2 as real)])
  {
  }

  /** The predicted game total handed to the projection: NaN leaves nothing to spread,
      which is what spreading the current total over the future minutes does. */
  function PredictedTotal(p: Option<real>, current: real): real
  {
    match p
    case Some(v) => v
    case None => current
  }

  // ---------------------------------------------------------------------------
  // The live run.

  /** The state read from the live table and the history before projecting. */
  datatype LiveState = LiveState(
    load: real,                   // `carga_atual`
    minute: int,                  // `minuto_atual`
    pl: real,                     // `pl_atual_acumulado`
    placar: Option<string>,       // `placar_atual`
    ctx: Option<string>,          // `resultado_ctx`
    general: map<int, real>,      // `media_min_geral`
    scenario: map<int, real>,     // `media_min_cenario`
    weight: real,                 // `peso_placar`
    cumCurve: map<int, real>,     // `curva_media_acum`
    cumNow: real,                 // `media_acum_agora`
    targetPace: real,             // `fator_alvo`
    plPace: real,                 // `fator_pl`
    met: Option<real>,            // `met_power_atual`
    rest: int,                    // `dias_desc`
    features: map<string, Option<real>>)  // `row_atleta`

  /** The value of a live column on the last row, or its default when the column is absent. */
  function LastCell(cur: Frame, col: OptColumn, cell: Option<string>, default: string): Option<string>
  {
    if col in cur.columns then cell else Some(default)
  }

  /** Everything `executar_ml_ao_vivo` derives before choosing a projection. */
  function ReadLive(hist: Frame, cur: Frame, day: int): (s: LiveState)
    requires |cur.rows| > 0
    ensures s.load == cur.rows[|cur.rows| - 1].cumulative && s.minute == cur.rows[|cur.rows| - 1].minute
    ensures s.features == AthleteFeatures(hist, s.minute, s.rest, s.ctx, s.targetPace, s.met)
    ensures s.targetPace == PaceRatio(s.load, s.cumNow) && s.plPace == PaceRatio(s.pl, CurveAt(
              if PlCumulativeCol in hist.columns then MinuteMeans(hist.rows, PlCumulativeF) else s.cumCurve,
              s.minute, s.pl))
  {
    var last := cur.rows[|cur.rows| - 1];
    var pl := if PlCumulativeCol in cur.columns then last.plCumulative else 1.0;
    var placar := LastCell(cur, PlacarCol, last.placar, "N/A");
    var ctx := LastCell(cur, ResultCol, last.result, "E");
    var general := MinuteMeans(hist.rows, ValueF);
    var scenarioRows := ScenarioRows(hist, placar);
    var scenario := if |scenarioRows| > 0 then MinuteMeans(scenarioRows, ValueF) else general;
    var weight := ScoreWeight(GameCount(scenarioRows));
    var cumCurve := MinuteMeans(hist.rows, CumulativeF);
    var cumNow := CurveAt(cumCurve, last.minute, last.cumulative);
    var plCurve := if PlCumulativeCol in hist.columns then MinuteMeans(hist.rows, PlCumulativeF) else cumCurve;
    var plNow := CurveAt(plCurve, last.minute, pl);
    LiveState(last.cumulative, last.minute, pl, placar, ctx, general, scenario, weight, cumCurve, cumNow,
              PaceRatio(last.cumulative, cumNow), PaceRatio(pl, plNow), CurrentMetPower(cur, hist),
              RestDays(Games(hist.rows), day),
              AthleteFeatures(hist, last.minute, RestDays(Games(hist.rows), day), ctx,
                              PaceRatio(last.cumulative, cumNow), CurrentMetPower(cur, hist)))
  }

  /** Today's pace, a pace ratio, is never negative when the live totals are not. */
  lemma TodayFactorNonNegative(hist: Frame, cur: Frame, day: int)
    requires |cur.rows| > 0
    requires var s := ReadLive(hist, cur, day); s.load >= 0.0 && s.pl >= 0.0
    ensures var s := ReadLive(hist, cur, day); TodayFactor(s.targetPace, s.plPace) >= 0.0
  {
    var s := ReadLive(hist, cur, day);
    var plCurve := if PlCumulativeCol in hist.columns then MinuteMeans(hist.rows, PlCumulativeF) else s.cumCurve;
    PaceRatioNonNegative(s.load, s.cumNow);
    PaceRatioNonNegative(s.pl, CurveAt(plCurve, s.minute, s.pl));
    TodayFactorBetween(s.targetPace, s.plPace);
  }

  lemma PaceRatioNonNegative(x: real, reference: real)
    requires x >= 0.0
    ensures PaceRatio(x, reference) >= 0.0
  {
  }

  /** What the regressor returns for this athlete's feature row. */
  function Prediction(model: ModelHandle, s: LiveState): Outcome
  {
    model.predict(Sample(model.features, s.features))
  }

  /** The trained path succeeds when a model is loaded, its prediction does not raise and
      its recorded error can be read. */
  predicate TrainedPathSucceeds(model: Option<ModelHandle>, s: LiveState)
  {
    model.Some? && Prediction(model.value, s).Predicted? && model.value.mae.Some?
  }

  /** Which projection produced the result (`modelo_usado`, with `mae_modelo` for the model). */
  datatype ModelUsed = NoHistory | Trained(mae: real) | Fallback

  /** The extra values reported after a full run. */
  datatype Extras = Extras(placar: Option<string>, scoreWeight: real, todayFactor: real, restDays: int, metPower: Option<real>)

  /** The dictionary `executar_ml_ao_vivo` returns. */
  datatype LiveResult = LiveResult(
    minutes: seq<int>,
    projection: seq<real>,
    upper: seq<real>,
    lower: seq<real>,
    projectedLoad: real,
    finalMinute: int,
    deltaTarget: real,
    deltaPl: real,
    deltaProjected: real,
    deltaTeam: real,
    deltaVsTeam: real,
    modelUsed: ModelUsed,
    extras: Option<Extras>)

  /** The result returned when nothing can be projected. */
  function NoProjection(): LiveResult
  {
    LiveResult([], [], [], [], 0.0, 0, 0.0, 0.0, 0.0, 0.0, 0.0, NoHistory, None)
  }

  /** `list(range(from, to + 1))`. */
  function MinuteRange(from: int, to: int): (r: seq<int>)
    ensures |r| == if to >= from then to - from + 1 else 0
    ensures forall i :: 0 <= i < |r| ==> r[i] == from + i
  {
    if to >= from then seq(to - from + 1, i => from + i) else []
  }

  /** What a full live run promises, once the live state is read and there are minutes left
      to project: the projection and its band, and the KPIs. */
  predicate FullRun(res: LiveResult, hist: Frame, s: LiveState, base: seq<TeamRow>, day: int, period: int,
                    horizon: int, model: Option<ModelHandle>)
    requires horizon > s.minute
  {
    ProjectionRun(res, hist, s, horizon, model) && KpiRun(res, s, base, day, period, horizon)
  }

  /** The projected curve: one value per future minute, from the regressor exactly when its
      path succeeds and from the fallback otherwise, never falling below the current total
      when it rises, and with its band. */
  predicate ProjectionRun(res: LiveResult, hist: Frame, s: LiveState, horizon: int, model: Option<ModelHandle>)
    requires horizon > s.minute
  {
    res.minutes == MinuteRange(s.minute + 1, horizon)
    && |res.projection| == |res.minutes| == horizon - s.minute
    && Banded(res.projection, res.upper, res.lower)
    && Chosen(res.projection, res.modelUsed, res.minutes, hist, s, model)
  }

  /** The KPIs: the projected end value and minute, the pace deltas in percent, the squad
      delta and the extras. */
  predicate KpiRun(res: LiveResult, s: LiveState, base: seq<TeamRow>, day: int, period: int, horizon: int)
    requires |res.projection| > 0
  {
    res.projectedLoad == res.projection[|res.projection| - 1]
    && res.finalMinute == horizon
    && res.deltaTarget == PercentChange(s.targetPace)
    && res.deltaPl == PercentChange(s.plPace)
    && res.deltaProjected == PercentChange(PaceRatio(res.projectedLoad, CurveAt(s.cumCurve, horizon, s.cumNow)))
    && res.deltaTeam == SquadDelta(base, day, period, s.minute)
    && res.deltaVsTeam == res.deltaTarget - res.deltaTeam
    && res.extras == Some(Extras(s.placar, s.weight, TodayFactor(s.targetPace, s.plPace), s.rest, s.met))
  }

  /** `executar_ml_ao_vivo`: project the athlete's metric from the live minute to `horizon`,
      with the trained regressor when it is usable and the blended fallback otherwise.
      Without history or live rows nothing is projected; with no minute left the current
      total is reported as the projection. */
  method RunLive(hist: Frame, cur: Frame, base: seq<TeamRow>, day: int, period: int, horizon: int,
                 model: Option<ModelHandle>) returns (res: LiveResult)
    ensures |hist.rows| == 0 || |cur.rows| == 0 ==> res == NoProjection()
    ensures |hist.rows| > 0 && |cur.rows| > 0 ==>
      var s := ReadLive(hist, cur, day);
      (horizon <= s.minute ==> res == NoProjection().(projectedLoad := s.load, finalMinute := s.minute))
      && (horizon > s.minute ==> FullRun(res, hist, s, base, day, period, horizon, model))
      && (horizon > s.minute && s.load >= 0.0 && s.pl >= 0.0 ==> NonDecreasing(res.projection))
  {
    res := NoProjection();
    if |hist.rows| == 0 || |cur.rows| == 0 {
      return;
    }
    var s := ReadLive(hist, cur, day);
    if horizon <= s.minute {
      res := res.(projectedLoad := s.load, finalMinute := s.minute);
      return;
    }
    res := Project(hist, s, base, day, period, horizon, model);
    if s.load >= 0.0 && s.pl >= 0.0 {
      TodayFactorNonNegative(hist, cur, day);
    }
  }

  /** A projection over `minutes` comes from the regressor exactly when its path succeeds and
      from the fallback otherwise, and never falls below the current total when it rises. */
  predicate Chosen(projection: seq<real>, used: ModelUsed, minutes: seq<int>, hist: Frame, s: LiveState,
                   model: Option<ModelHandle>)
  {
    !used.NoHistory?
    && (used.Trained? <==> TrainedPathSucceeds(model, s))
    && (used.Trained? ==>
          Some(used.mae) == model.value.mae
          && projection == Cumulative(s.load, ModelSteps(minutes, s.load,
               PredictedTotal(Prediction(model.value, s).total, s.load))))
    && (used == Fallback ==>
          projection == Cumulative(s.load, FallbackSteps(minutes, s.general, s.scenario, s.weight,
               TodayFactor(s.targetPace, s.plPace), MetFactor(s.met, MetReference(hist, s.met)))))
    && (used.Trained? || TodayFactor(s.targetPace, s.plPace) >= 0.0 ==>
          NonDecreasing(projection) && forall i :: 0 <= i < |projection| ==> projection[i] >= s.load)
  }

  /** The projection itself: the regressor's when its path succeeds, the fallback's otherwise. */
  method ChooseProjection(hist: Frame, s: LiveState, minutes: seq<int>, model: Option<ModelHandle>)
    returns (projection: seq<real>, used: ModelUsed)
    requires |minutes| > 0
    ensures |projection| == |minutes| && Chosen(projection, used, minutes, hist, s, model)
  {
    if TrainedPathSucceeds(model, s) {
      var outcome := Prediction(model.value, s);
      projection := ProjectWithModel(minutes, s.load, PredictedTotal(outcome.total, s.load));
      used := Trained(model.value.mae.value);
    } else {
      var met := MetFactor(s.met, MetReference(hist, s.met));
      MetFactorSpec(s.met, MetReference(hist, s.met));
      projection := ProjectFallback(minutes, s.load, s.general, s.scenario, s.weight,
                                    TodayFactor(s.targetPace, s.plPace), met);
      used := Fallback;
    }
  }

  /** The projecting half of the live run. */
  method Project(hist: Frame, s: LiveState, base: seq<TeamRow>, day: int, period: int, horizon: int,
                 model: Option<ModelHandle>) returns (res: LiveResult)
    requires horizon > s.minute
    ensures FullRun(res, hist, s, base, day, period, horizon, model)
  {
    var minutes := MinuteRange(s.minute + 1, horizon);
    var projection, used := ChooseProjection(hist, s, minutes, model);
    var upper, lower := ConfidenceBand(projection);
    var projected := projection[|projection| - 1];
    var finalMinute := minutes[|minutes| - 1];
    assert finalMinute == horizon;
    var projectedPace := PaceRatio(projected, CurveAt(s.cumCurve, finalMinute, s.cumNow));

    var deltaTeam := SquadDelta(base, day, period, s.minute);
    var deltaTarget := PercentChange(s.targetPace);

    res := LiveResult(minutes, projection, upper, lower, projected, finalMinute, deltaTarget,
                      PercentChange(s.plPace), PercentChange(projectedPace), deltaTeam, deltaTarget - deltaTeam,
                      used, Some(Extras(s.placar, s.weight, TodayFactor(s.targetPace, s.plPace), s.rest, s.met)));
    assert res.projectedLoad == res.projection[|res.projection| - 1] && res.finalMinute == horizon;
    assert res.deltaTarget == PercentChange(s.targetPace) && res.deltaPl == PercentChange(s.plPace);
    assert res.deltaProjected == PercentChange(PaceRatio(res.projectedLoad, CurveAt(s.cumCurve, horizon, s.cumNow)));
    assert res.deltaTeam == SquadDelta(base, day, period, s.minute);
    assert res.deltaVsTeam == res.deltaTarget - res.deltaTeam;
    assert res.extras == Some(Extras(s.placar, s.weight, TodayFactor(s.targetPace, s.plPace), s.rest, s.met));
    assert ProjectionRun(res, hist, s, horizon, model);
    assert KpiRun(res, s, base, day, period, horizon);
  }
}
