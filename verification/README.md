# ADF Online — a verified model of the data and projection core

ADF Online is a Streamlit dashboard for the GPS and heart-rate data of a futsal squad.
Every five-minute (or one-minute) slice of every athlete's game is one row of an Excel
workbook. This project models, in Dafny, the parts of the application that compute
something from those rows, and proves what they promise:

- **The two workbook loaders.**
  - `Source/Dados/data_loader.py` is modelled in `DadosLoader`. It covers:
    - cleaning the GPS coordinates;
    - the home-game flag (row status by radius, then the minimum per day);
    - zero filling and the HIA counter;
    - the score sign and `Min_Num`;
    - the per-athlete table of rolling five-minute records.
  - The application's own `data_loader.py` is modelled in `GlobalLoader`. The two loaders share `Sheet`.
- **The game-level feature script `predictive.py`** (lines 79-306):
  - `GameFeatures` models the per-row derived columns and the in-game windows, accumulations, peak, decay and per-minute rates.
  - `GameHistory` models the per-game aggregation, rest days, leakage-free expanding means, context means, recent loads, trend and game counter.
  - `GameTable` models the whole chain and the final "more than five minutes" filter.
- **The snapshot script `Source/ML/predictive.py`** (lines 61-110) is modelled in `SnapshotFeatures`. It covers:
  - per-period aggregation and rest days shared by date;
  - the full-period equivalent targets with their expanding and three-game means and trend;
  - the three-period load and the counter;
  - the per-row running totals of the live snapshots.
- **The live engine `ml_engine.py`** is modelled in `MlEngine`. It covers:
  - model lookup, rest days, athlete and context means, and the fatigue curve;
  - the trained-regressor projection and the blended fallback projection;
  - the widening confidence band, the pace KPIs and the squad delta;
  - `executar_ml_ao_vivo` as a whole.

Shared pieces:

- `Common`: sums, means, maxima, clipping, last-n windows.
- `Text`: strip, lower, split, integer parsing.
- `Ordering`: the lexicographic order of pandas sort keys, and an insertion sort proved sorted and a permutation.
- `Grouping`: pandas `groupby(...).transform` with `rolling`, `expanding`, `shift`, `diff`, `cumcount` and `max`, together with the causality lemmas ("a shifted mean only sees earlier rows of its own group").
- `Score`: both versions of `extrair_diff_gols`.

Modelling conventions:

- Cells are typed values (`Blank`, numbers, text).
- Dates are day numbers.
- Reals are exact, with no floating point.
- The Haversine distance is a function parameter of the Dados loader.
- A trained regressor is an opaque record with a `predict` function that may fail.

Behaviours of the code that the model keeps as written:

- A rolling five-minute record over minutes `[5,0,0,0,0,20]` is 20. A window of five slices cannot hold both the first and the last value (`Sheet.RecordOfLateBurst`).
- The confidence band is multiplicative: `val*(1±margin)` with `margin = 0.04 + 0.08*i/len`. It is relative to each projected value, and the lower bound has no separate clamp.
- The regressor path spreads `rem/n` times the fatigue factor over the future minutes, with no renormalisation. The projected total therefore ends between `current + 0.75*rem` and `current + rem` (`MlEngine.ModelCurveBounds`).
- `calcular_dias_descanso` clips the gap to at most 30, and gives 7 without an earlier game.
- In the Dados loader, `'empatando'` contains the letter `d` and so reads as a losing score, and `'2-1'` reads as 0. The letter tests are substring tests (`Score.ScoreSignDrawIsLoss`, `Score.ScoreSignNumeric`).
- `'Interval (min)'` is not among the columns the Dados loader reads, so `Min_Num` always comes from `'Interval'`.
- The latitude and longitude columns are in the zero-fill list of the Dados loader. A workbook without them therefore never loads; the branch for that case is never reached.
- Both loaders fail, and return two empty tables, when an HIA counter or a record metric holds text: the HIA sum (Source/Dados/data_loader.py:84-87, data_loader.py:27-30) or the rolling sum raises.

## Model

| member | source | states |
|---|---|---|
| Common.MinPresent | ADF_Online/Source/Dados/data_loader.py:77 | the minimum over present values is defined exactly when some value is present, is one of them and is at most each of them |
| Common.Clip | ADF_Online/predictive.py:253 | the clipped value lies in the range and equals the input when the input is already in range, otherwise the nearer bound |
| Common.LastN | ADF_Online/ml_engine.py:261-264 | `tail(n)` has `min(n, len)` elements and is a suffix of its input |
| Common.LastNSumGrows | ADF_Online/ml_engine.py:261-264 | over non-negative values the sum of the last a values is non-negative and at most the sum of the last b values when a <= b |
| Common.MaxOf | ADF_Online/Source/Dados/data_loader.py:122 | the maximum bounds every element and is one of them |
| Common.Distinct | ADF_Online/ml_engine.py:267 | the distinct values `nunique()` counts: exactly the values of its input, each once |
| Text.StripCorrect | ADF_Online/Source/Dados/data_loader.py:10 | `strip()` returns a contiguous part of the input with only spaces removed on either side and no space at either end |
| Text.Lower | ADF_Online/Source/Dados/data_loader.py:10 | `lower()` keeps the length and lowers each character: an ASCII or Latin-1 capital moves 32 code points up, any other character is kept |
| Text.LowerIdempotent | ADF_Online/Source/Dados/data_loader.py:10 | lowered text has no ASCII or Latin-1 capital, keeps every other character, and lowering it again changes nothing |
| Text.RemoveSpaces | ADF_Online/predictive.py:123 | the result has no space, is no longer than the input and is the input when it had none |
| Text.SplitJoin | ADF_Online/predictive.py:123 | joining the pieces of `split(sep)` with the separator gives back the input, and no piece contains the separator |
| Text.ParseIntRoundTrip | ADF_Online/predictive.py:124 | `int()` of a number's decimal digits is that number |
| Text.ParseNegatedDigits | ADF_Online/predictive.py:124 | `int()` of a minus sign and digits is the negated value of the digits |
| Ordering.KeyLeTotal | ADF_Online/data_loader.py:35 | the sort-key order is total (with KeyLeTrans, KeyLeAntisym and KeyLeRefl a total order) |
| Ordering.MixedKindOrder | ADF_Online/data_loader.py:35 | in a sort key every number comes before every text, and every present value before a missing one, as pandas' mixed-type sort orders them |
| Ordering.SortByCorrect | ADF_Online/data_loader.py:35 | sorting by a key gives a permutation of the rows in non-decreasing key order |
| Ordering.GroupKeysCorrect | ADF_Online/predictive.py:233 | the group keys of `groupby` are exactly the keys that occur, in strictly increasing order |
| Grouping.GroupRollAt | ADF_Online/predictive.py:167-168 | a grouped rolling reduction at a row is the reduction of the trailing window of its group up to and including that row |
| Grouping.GroupShiftedAt | ADF_Online/predictive.py:266-267 | a grouped reduction shifted by one is undefined on a group's first row and otherwise reduces the trailing window of the earlier rows of the group |
| Grouping.GroupPreviousAt | ADF_Online/predictive.py:253 | the previous value in the group is undefined on its first row and otherwise the group's latest earlier value |
| Grouping.CumCountAt | ADF_Online/predictive.py:295 | `cumcount` is the number of earlier rows of the same group |
| Grouping.GroupMaxAt | ADF_Online/predictive.py:188 | the group maximum at a row bounds the row's value and is the value of some row of the same group |
| Grouping.ShiftedDependsOnlyOnPast | ADF_Online/predictive.py:256-268 | two tables agreeing on the rows before i (keys and values) and on key i give the same shifted value at i: no leakage of the present or the future |
| Grouping.ShiftedIgnoresOwnRow | ADF_Online/predictive.py:266-267 | changing a row's own value does not change its shifted mean |
| Grouping.ShiftedIgnoresLaterRows | ADF_Online/predictive.py:266-267 | appending rows leaves the shifted values of the existing rows unchanged |
| Grouping.RollIgnoresLaterRows | ADF_Online/predictive.py:167-168 | appending rows leaves the rolling values of the existing rows unchanged |
| Grouping.RollIgnoresOtherGroups | ADF_Online/predictive.py:155-168 | changing a value of another group leaves a row's rolling value unchanged |
| Grouping.ShiftedIgnoresOtherGroups | ADF_Online/predictive.py:276-277 | changing a value of another group leaves a row's shifted value unchanged |
| Grouping.RunningSumMonotone | ADF_Online/predictive.py:183 | over non-negative values a group's running sum never decreases from an earlier row of the group to a later one |
| Grouping.MeanOfGroupTotalsIsTotalPerGroup | ADF_Online/ml_engine.py:55 | the mean of the per-group sums is the grand total divided by the number of groups |
| Score.ScoreSign | ADF_Online/Source/Dados/data_loader.py:8-13 | the Dados score sign is -1, 0 or 1 |
| Score.ScoreSignByLetters | ADF_Online/Source/Dados/data_loader.py:10-13 | the sign is 1 when the stripped lower-case text contains `v` or `ganhando`, else -1 when it contains `d`, else 0 |
| Score.ScoreSignDrawIsLoss | ADF_Online/Source/Dados/data_loader.py:11-12 | `empatando` yields -1 (it contains `d`) |
| Score.ScoreSignLetter | ADF_Online/Source/Dados/data_loader.py:10-11 | a padded `V` yields 1 |
| Score.ScoreSignNumeric | ADF_Online/Source/Dados/data_loader.py:11-13 | a numeric score such as `2-1` yields 0 |
| Score.ScoreSignOfEmptyCell | ADF_Online/Source/Dados/data_loader.py:10-13 | an empty cell (text `nan`) yields 0 |
| Score.WordDiff | ADF_Online/predictive.py:115-120 | the word and letter rules give -1, 0 or 1 when one applies |
| Score.GoalDiffRoundTrip | ADF_Online/predictive.py:122-124 | the goal difference of the score text `a-b` is a - b |
| Score.NumericDiffOfScore | ADF_Online/predictive.py:122-124 | splitting `a-b` at the dash and subtracting gives a - b |
| Score.GoalDiffLetters | ADF_Online/predictive.py:118-120 | the letters `V`, `d` and `E` give 1, -1 and 0 |
| Score.GoalDiffDraw | ADF_Online/predictive.py:117 | `Empatando` gives 0 |
| Score.GoalDiffNoSeparator | ADF_Online/predictive.py:122-126 | text without a dash raises in the parse and gives 0 |
| Score.ResultLabel | ADF_Online/predictive.py:130-132 | the result letter is V, D or E exactly when the difference is positive, negative or zero |
| Score.ResultOfScore | ADF_Online/predictive.py:128-132 | the result letter of the score `a-b` is V exactly when a > b and E exactly when a == b |
| Sheet.ReadColumns | ADF_Online/Source/Dados/data_loader.py:38-45 | `usecols` keeps exactly the workbook's needed columns, unchanged |
| Sheet.FillZero | ADF_Online/Source/Dados/data_loader.py:83 | `fillna(0)` on a column list succeeds exactly when every listed column exists, then leaves no blank in them and changes nothing else |
| Sheet.FillColumn | ADF_Online/Source/Dados/data_loader.py:83 | each cell is kept when present and becomes 0 when blank |
| Sheet.FillKeepsText | ADF_Online/Source/Dados/data_loader.py:83 | after `fillna(0)` the listed columns hold text exactly where they did before |
| Sheet.HiaIsSumOfParts | ADF_Online/Source/Dados/data_loader.py:84-87 | HIA of a row is the sum of its five counters, a missing column counting 0 |
| Sheet.HiaColumn | ADF_Online/Source/Dados/data_loader.py:84-87 | the HIA column has one entry per row, the row's HIA |
| Sheet.WithHia | ADF_Online/Source/Dados/data_loader.py:84-87 | adding HIA adds exactly that column |
| Sheet.SortKeepsKeys | ADF_Online/Source/Dados/data_loader.py:110 | sorting keeps the rows and whether every group key is complete |
| Sheet.RecordTable | ADF_Online/Source/Dados/data_loader.py:110-123 | the record table exists exactly when no row lacks name, day or period and no summed record column holds text, and then has a column per record metric present |
| Sheet.RecordText | ADF_Online/Source/Dados/data_loader.py:84-119 | HIA, a sum of numbers, holds no text, so the record columns hold text exactly where the record metrics do |
| Sheet.RecordOf | ADF_Online/Source/Dados/data_loader.py:119-122 | the records have one entry per athlete name |
| Sheet.WindowSumAt | ADF_Online/Source/Dados/data_loader.py:119 | a row's rolling sum is the sum of the last five values of its (name, day, period) group up to it |
| Sheet.WindowAtLeastOwnMinute | ADF_Online/Source/Dados/data_loader.py:119 | over non-negative metrics a row's rolling sum is at least its own value |
| Sheet.RecordAtLeastEveryMinute | ADF_Online/Source/Dados/data_loader.py:119-122 | every athlete's record is at least each of their rows' values |
| Sheet.RecordIsAWindow | ADF_Online/Source/Dados/data_loader.py:122 | every record is the rolling sum of some row of that athlete |
| Sheet.OneGameRecord | ADF_Online/Source/Dados/data_loader.py:119-122 | with one athlete in one game the record is the largest five-slice sum of the game |
| Sheet.RecordOfSteadyGame | ADF_Online/Source/Dados/data_loader.py:119-122 | six slices of 10 give a record of 50 |
| Sheet.RecordOfLateBurst | ADF_Online/Source/Dados/data_loader.py:119-122 | slices 5,0,0,0,0,20 give a record of 20 |
| Sheet.NumericOr0OfText | ADF_Online/Source/Dados/data_loader.py:102 | `to_numeric(...).fillna(0)` reads an integer text as its value, and any text that is not a plain decimal (sign, digits, one point) as 0 |
| DadosLoader.FilledColumnsAre | ADF_Online/Source/Dados/config.py:33-41 | the zero-filled columns are the minute, period, ten metrics, latitude and longitude |
| DadosLoader.CoordinateColumn | ADF_Online/Source/Dados/data_loader.py:48-56 | each coordinate cell becomes the number its space-free, comma-to-dot text parses to, or blank |
| DadosLoader.CleaningIdempotent | ADF_Online/Source/Dados/data_loader.py:48-56 | cleaning twice is cleaning once and keeps every parsed coordinate |
| DadosLoader.DistanceColumn | ADF_Online/Source/Dados/data_loader.py:59-68 | each row's travel distance is the Haversine distance from home when both coordinates are present, blank otherwise |
| DadosLoader.Status | ADF_Online/Source/Dados/data_loader.py:71-72 | the status is 1 within 2 km, 0 beyond, and blank without a distance |
| DadosLoader.StatusColumn | ADF_Online/Source/Dados/data_loader.py:71-72 | one status per row, from the row's distance |
| DadosLoader.HomeFlagRule | ADF_Online/Source/Dados/data_loader.py:75-77 | a row's home flag is 0 or 1, and 0 exactly when its day is known and some row of the same day was away |
| DadosLoader.HomeColumn | ADF_Online/Source/Dados/data_loader.py:77 | the home column holds each row's home flag |
| DadosLoader.DiffOf | ADF_Online/Source/Dados/data_loader.py:8-13 | the score sign of a cell is -1, 0 or 1 |
| DadosLoader.DiffColumn | ADF_Online/Source/Dados/data_loader.py:92-93 | one score sign per row |
| DadosLoader.NumericColumn | ADF_Online/Source/Dados/data_loader.py:101-102 | one number per row, 0 where the cell does not parse |
| DadosLoader.ReadOf | ADF_Online/Source/Dados/data_loader.py:38-56 | the read table has exactly the workbook's needed columns, coordinates cleaned and others unchanged |
| DadosLoader.WithHome | ADF_Online/Source/Dados/data_loader.py:58-80 | marking home games adds exactly the distance, status and home columns |
| DadosLoader.HomeStep | ADF_Online/Source/Dados/data_loader.py:59-77 | the three new columns are the distance, status and home columns of the cleaned coordinates |
| DadosLoader.WithScores | ADF_Online/Source/Dados/data_loader.py:83-95 | the score step adds exactly HIA and the score sign |
| DadosLoader.ScoreStep | ADF_Online/Source/Dados/data_loader.py:83-95 | HIA is the counters' sum and the score sign is taken from the score column or is 0 without it |
| DadosLoader.WithMinute | ADF_Online/Source/Dados/data_loader.py:100-102 | the minute step succeeds exactly when an interval column exists, adding `Min_Num` |
| DadosLoader.StatusOfRow | ADF_Online/Source/Dados/data_loader.py:70-72 | each row's status, seen from the workbook, is 0, 1 or blank, and 0 exactly when the row was played away |
| DadosLoader.HomeColMeaning | ADF_Online/Source/Dados/data_loader.py:70-77 | each loaded home flag is 0 or 1, and 0 exactly when the row's day is known and some row of that day was played away |
| DadosLoader.HiaColMeaning | ADF_Online/Source/Dados/data_loader.py:84-87 | each loaded HIA is the sum of the workbook row's counters |
| DadosLoader.MinuteColMeaning | ADF_Online/Source/Dados/data_loader.py:101-102 | each loaded `Min_Num` is the workbook row's interval read as a number or 0 |
| DadosLoader.DiffColMeaning | ADF_Online/Source/Dados/data_loader.py:92-93 | each loaded score sign is the sign of the workbook row's score text |
| DadosLoader.LoadedRowMeaning | ADF_Online/Source/Dados/data_loader.py:58-102 | every row of a successful load has these HIA, minute, score-sign and home values, from the workbook alone |
| DadosLoader.LoadIsLoadedTable | ADF_Online/Source/Dados/data_loader.py:32-125 | whatever a successful load returns is the loaded table described column by column from the workbook |
| DadosLoader.LoadedKeysComplete | ADF_Online/Source/Dados/data_loader.py:110-120 | the loaded table's group keys are complete exactly when no workbook row lacks its name or day |
| DadosLoader.LoadSucceedsIff | ADF_Online/Source/Dados/data_loader.py:32-134 | the load succeeds exactly when the workbook has every needed column, every row its name and day, and no text in an HIA counter or record metric |
| DadosLoader.LoadNeedsText | ADF_Online/Source/Dados/data_loader.py:83-87 | a load that succeeds found no text among the workbook's HIA counters |
| DadosLoader.MarkedText | ADF_Online/Source/Dados/data_loader.py:38-83 | reading, cleaning and marking leave the HIA counters' text where the workbook has it |
| DadosLoader.LoadedRecordText | ADF_Online/Source/Dados/data_loader.py:83-119 | the loaded table holds text in its record columns exactly where the workbook's record metrics do |
| DadosLoader.DerivedHasRecords | ADF_Online/Source/Dados/data_loader.py:106-123 | for a workbook that loads, the derived table has complete keys and no text in its record columns |
| DadosLoader.ReadSheet | ADF_Online/Source/Dados/data_loader.py:38-45 | reading the workbook gives the read table |
| DadosLoader.CleanCoordinates | ADF_Online/Source/Dados/data_loader.py:48-56 | the loop over the two coordinate columns gives the cleaned table |
| DadosLoader.MarkHome | ADF_Online/Source/Dados/data_loader.py:58-80 | the home step gives the table with its home columns |
| DadosLoader.AddScores | ADF_Online/Source/Dados/data_loader.py:82-95 | the fill-free score step gives the table with HIA and score signs |
| DadosLoader.MarkSheet | ADF_Online/Source/Dados/data_loader.py:33-80 | reading, cleaning and marking give the marked table, or nothing when a key column is missing |
| DadosLoader.AddMinute | ADF_Online/Source/Dados/data_loader.py:100-102 | the minute step gives the table with `Min_Num`, or nothing |
| DadosLoader.DeriveColumns | ADF_Online/Source/Dados/data_loader.py:82-102 | filling, scoring and the minute give the derived table, or nothing when a column is missing or an HIA counter holds text |
| DadosLoader.LoadDataLogic | ADF_Online/Source/Dados/data_loader.py:32-134 | for a workbook with every needed column, every row's name and day and no text in the summed columns, `_load_data_logic` returns the loaded table and records; for any other, two empty tables |
| GlobalLoader.FilledColumnsAre | ADF_Online/config.py:16-24 | the zero-filled columns are the interval, period and ten metrics |
| GlobalLoader.LoadIsLoadedTable | ADF_Online/data_loader.py:14-52 | a successful load returns the read columns, metrics filled with 0 and HIA, and their record table |
| GlobalLoader.LoadedKeysComplete | ADF_Online/data_loader.py:35-46 | the loaded keys are complete exactly when no row lacks its name or day |
| GlobalLoader.LoadSucceedsIff | ADF_Online/data_loader.py:14-56 | the load succeeds exactly when every filled column, the day, opponent and name exist, every row has name and day, and no HIA counter or record metric holds text |
| GlobalLoader.LoadedText | ADF_Online/data_loader.py:25 | a zero-filled read column holds text exactly where the workbook's does |
| GlobalLoader.FilledText | ADF_Online/data_loader.py:25-30 | the filled HIA counters hold text exactly where the workbook's do |
| GlobalLoader.LoadedRecordText | ADF_Online/data_loader.py:25-45 | the loaded table holds text in its record columns exactly where the workbook's record metrics do |
| GlobalLoader.LoadGlobalData | ADF_Online/data_loader.py:14-56 | for a workbook with every needed column, every row's name and day and no text in the summed columns, `load_global_data` returns the loaded table and records; for any other, two empty tables |
| GameFeatures.AddMissing | ADF_Online/predictive.py:80-97 | absent columns are added as zeros and present ones are kept |
| GameFeatures.SumColumn | ADF_Online/predictive.py:83 | each row of a summed column is the sum of the row's parts, absent parts counting 0 |
| GameFeatures.AddSum | ADF_Online/predictive.py:80-83 | the new column is the sum of its parts, the parts exist afterwards and nothing else changes |
| GameFeatures.AddDistances | ADF_Online/predictive.py:85-93 | `HS_Dist` is V4+V5+V6 and `Sprint_Dist` is V6+V7+V8, and nothing else changes |
| GameFeatures.AddCounts | ADF_Online/predictive.py:79-97 | HIA, the two distances and the defaulted columns exist, with HIA and the distances as sums of their parts |
| GameFeatures.DefaultedLists | ADF_Online/predictive.py:80-97 | the defaulted columns are exactly those of the four default lists |
| GameFeatures.AddHeartRate | ADF_Online/predictive.py:100-108 | `HR_Pct` is the average heart-rate percentage column when present, else the plain one, else zeros, and nothing else changes |
| GameFeatures.AddScore | ADF_Online/predictive.py:110-135 | `Diff_Gols` and the result letters are the score column's differences and their letters, or 0 and E without a score column, and nothing else changes |
| GameFeatures.AddMinute | ADF_Online/predictive.py:137-145 | `Min_Num` is the sheet's minute column (the interval read as a number, or 0), `Fase_Jogo` each row's phase, and nothing else changes |
| GameFeatures.Phase | ADF_Online/predictive.py:143-145 | the phase is 0 up to minute 30, 1 up to 60, 2 up to 200, and 0 outside (0, 200] |
| GameFeatures.Decay | ADF_Online/predictive.py:187-189 | the decay lies in [0, 2], is 1 when the peak is 0 and is distance/peak when that is in range |
| GameFeatures.PerMinute | ADF_Online/predictive.py:191-197 | the rate is 0 at minute 0 and otherwise times the minute gives the total |
| GameFeatures.AddWindows | ADF_Online/predictive.py:157-185 | each alias becomes its source's grouped window, or zeros when the source is absent, and nothing else changes |
| GameFeatures.WindowPairsRename | ADF_Online/predictive.py:158-165 | the six window aliases are distinct and none is a source column |
| GameFeatures.AcumPairsRename | ADF_Online/predictive.py:174-181 | the six accumulation aliases are distinct and none is a source column |
| GameFeatures.AddPeak | ADF_Online/predictive.py:187-197 | the peak, decay and three per-minute rates are added as their definitions, and nothing else changes |
| GameFeatures.AddIntraWindows | ADF_Online/predictive.py:155-185 | the window means and running sums are added per (name, day) game |
| GameFeatures.IntraGame | ADF_Online/predictive.py:155-197 | the in-game features exist exactly when the distance column exists, and are then all of them |
| GameFeatures.DecayAtMostOne | ADF_Online/predictive.py:187-189 | over non-negative distances the decay is in [0, 1], and 1 on the game's peak slice |
| GameFeatures.PeakIsReached | ADF_Online/predictive.py:188 | the peak is the distance of some slice of the same game |
| GameFeatures.AccumulatedGrows | ADF_Online/predictive.py:183 | over non-negative values each accumulation never decreases along a game |
| GameFeatures.WindowMeanAt | ADF_Online/predictive.py:167-168 | a window mean is the mean of the last five slices of the game up to and including the row |
| GameFeatures.WindowStaysInGame | ADF_Online/predictive.py:155-168 | a slice of another game does not change a row's window mean |
| GameHistory.AggColumns | ADF_Online/predictive.py:207-233 | the aggregated columns are exactly those whose source exists, each aggregated per game by its rule |
| GameHistory.Aggregate | ADF_Online/predictive.py:207-249 | the game table has one row per (name, day) in increasing order, and each column is its source aggregated by sum, mean or max |
| GameHistory.RestGap | ADF_Online/predictive.py:252-253 | rest days lie in [1, 30] and are 7 without a previous game |
| GameHistory.RestDaysOf | ADF_Online/predictive.py:251-254 | every game's rest days lie in [1, 30] |
| GameHistory.FirstDayRests7 | ADF_Online/predictive.py:253 | an athlete's first game rests 7 days |
| GameHistory.LaterDayRestsGap | ADF_Online/predictive.py:253 | a later game rests the day gap to the previous game, at least 1 and capped at 30 |
| GameHistory.EarlierRowsAreEarlierDays | ADF_Online/predictive.py:249 | among one athlete's games, an earlier row is exactly an earlier day |
| GameHistory.AddPastMeans | ADF_Online/predictive.py:256-278 | every mean column is the shifted expanding mean of its source in its group |
| GameHistory.AddHistory | ADF_Online/predictive.py:251-295 | the history columns are all built with one entry per game |
| GameHistory.PastMeanAt | ADF_Online/predictive.py:265-268 | a general mean is the mean of the athlete's earlier games, undefined on the first |
| GameHistory.PastMeanIgnoresPresent | ADF_Online/predictive.py:256-268 | a game's own value and later games do not change its general means |
| GameHistory.ContextMeanIgnoresOtherResults | ADF_Online/predictive.py:270-278 | a game of another athlete or result does not change a context mean |
| GameHistory.ThreeGamesWithinSeven | ADF_Online/predictive.py:280-286 | the three- and seven-game loads are defined after the first game, and then 0 <= three <= seven |
| GameHistory.GameCountAt | ADF_Online/predictive.py:294-295 | `N_Jogos` is the number of the athlete's earlier games, 0 on the first |
| GameHistory.DistanceMeansAt | ADF_Online/predictive.py:265-291 | the general and three-game distance means are those of the earlier games |
| GameHistory.TrendOfEarlier | ADF_Online/predictive.py:292 | the trend is defined exactly when there are earlier games, whose mean is non-negative |
| GameHistory.TrendDefinedAfterFirstGame | ADF_Online/predictive.py:288-292 | the trend is defined exactly after the first game, and is the three-game mean over the general mean plus one |
| GameTable.Kept | ADF_Online/predictive.py:306 | a boolean filter keeps exactly the selected rows, in order |
| GameTable.PlayedRows | ADF_Online/predictive.py:306 | the kept row numbers lie within the table |
| GameTable.PickGames | ADF_Online/predictive.py:306 | filtering keeps every column and one key per kept row |
| GameTable.KeepPlayed | ADF_Online/predictive.py:306 | the filter is applied to the game table and its history alike |
| GameTable.PlayedAreLong | ADF_Online/predictive.py:306 | every kept game lasted more than five minutes |
| GameTable.PlayedKeys | ADF_Online/predictive.py:306 | a game is kept exactly when it is in the table and lasted more than five minutes |
| GameTable.PlayedInOrder | ADF_Online/predictive.py:306 | the kept games stay in (athlete, day) order |
| GameTable.CountsCarry | ADF_Online/predictive.py:79-98 | the count step keeps the pass-through columns and the heart-rate sources |
| GameTable.CountsHold | ADF_Online/predictive.py:79-98 | after the count step HIA and the two distances are their sums and each counter the aggregation reads is the sheet's column, zeros where it lacks it |
| GameTable.HeartJoins | ADF_Online/predictive.py:100-108 | with the heart rate added, every column lines 79-108 compute holds what the sheet gives it |
| GameTable.CountColumns | ADF_Online/predictive.py:79-108 | every counter, distance and the heart rate hold what the sheet gives them, and the pass-through columns are kept |
| GameTable.ScoreAndMinute | ADF_Online/predictive.py:110-145 | the result letters are the sheet's, and every derived column, score difference and minute included, holds what the sheet gives it |
| GameTable.SheetFromParts | ADF_Online/predictive.py:79-145 | the counted columns, the score difference and the minute together are every column lines 79-145 compute |
| GameTable.DeriveColumns | ADF_Online/predictive.py:79-145 | every derived per-slice column and the result letters are what the sheet gives them, and the pass-through columns are the sheet's |
| GameTable.SourceFromSheet | ADF_Online/predictive.py:79-145 | the source of every game column other than distance, load and metabolic power exists, and each present source holds what the sheet gives it |
| GameTable.AggregatedFromSheet | ADF_Online/predictive.py:207-248 | the game table has a column exactly for each aggregate whose source the sheet allows, each the sum, mean, max or last per game of the sheet's column |
| GameTable.BuildGameTable | ADF_Online/predictive.py:79-306 | the script fails exactly without distance or load; otherwise it returns, restricted to games longer than five minutes, the game table whose every column and result letter is aggregated from the sheet, with its history |
| SnapshotFeatures.PositionOf | ADF_Online/Source/ML/predictive.py:35-43 | each of the seven target metrics has its own position |
| SnapshotFeatures.PeriodKeysKeyed | ADF_Online/Source/ML/predictive.py:61 | the period keys are exactly the (name, day, period) keys of the rows, in increasing order |
| SnapshotFeatures.AggregatePeriods | ADF_Online/Source/ML/predictive.py:61-68 | one row per (name, day, period) in increasing order |
| SnapshotFeatures.PeriodTotalsAt | ADF_Online/Source/ML/predictive.py:61-63 | each period's metric total is the sum of its rows |
| SnapshotFeatures.PeriodMinutesAt | ADF_Online/Source/ML/predictive.py:65-68 | each period's minutes played is the maximum minute of its rows |
| SnapshotFeatures.PeriodEndsAt | ADF_Online/Source/ML/predictive.py:64-66 | each period's score is its last row's and its home flag its first row's |
| SnapshotFeatures.Dates | ADF_Online/Source/ML/predictive.py:70 | the unique (name, day) pairs, each once and in increasing order |
| SnapshotFeatures.PeriodRestDays | ADF_Online/Source/ML/predictive.py:70-72 | every period's rest days lie in [1, 30] |
| SnapshotFeatures.RestSharedByDate | ADF_Online/Source/ML/predictive.py:71-72 | both periods of a day get the rest days of that day |
| SnapshotFeatures.MinDivisor | ADF_Online/Source/ML/predictive.py:75 | the divisor is the minutes played, raised to at least 10 |
| SnapshotFeatures.MinPeriod | ADF_Online/Source/ML/predictive.py:77 | the period length is 45 exactly for the first period and 50 otherwise |
| SnapshotFeatures.TargetProperties | ADF_Online/Source/ML/predictive.py:83 | the target keeps the sign of the total, a full period is its own target, and short periods divide by 10 |
| SnapshotFeatures.Filled | ADF_Online/Source/ML/predictive.py:93 | `fillna(0)` keeps defined values and puts 0 elsewhere |
| SnapshotFeatures.AddTargets | ADF_Online/Source/ML/predictive.py:80-89 | the loop gives every metric its targets, means and trend |
| SnapshotFeatures.MeansAt | ADF_Online/Source/ML/predictive.py:87-93 | the general and three-game means are those of the earlier targets of the (name, period) group, 0 before the first |
| SnapshotFeatures.FirstPeriodHasNoHistory | ADF_Online/Source/ML/predictive.py:87-93 | an athlete's first game in a period has means and trend 0 |
| SnapshotFeatures.TargetsNonNegative | ADF_Online/Source/ML/predictive.py:83 | non-negative totals give non-negative targets |
| SnapshotFeatures.FeaturesAt | ADF_Online/Source/ML/predictive.py:87-93 | the stored means and trend are the grouped shifted means filled with 0 |
| SnapshotFeatures.MeansDefined | ADF_Online/Source/ML/predictive.py:87-88 | after the first game both means are defined and the general one is non-negative |
| SnapshotFeatures.TrendAt | ADF_Online/Source/ML/predictive.py:89-93 | the trend is the three-game mean over the general mean plus one, the general mean being non-negative |
| SnapshotFeatures.LoadLastThreeAt | ADF_Online/Source/ML/predictive.py:91-93 | the three-period load is the sum of the last three earlier loads of the group |
| SnapshotFeatures.CounterAt | ADF_Online/Source/ML/predictive.py:92 | `N_Jogos` counts the earlier periods of the group |
| SnapshotFeatures.AddRunningTotals | ADF_Online/Source/ML/predictive.py:104-106 | the loop gives every metric its running total |
| SnapshotFeatures.RunningTotalRestarts | ADF_Online/Source/ML/predictive.py:106 | a running total restarts at the first row of each period |
| SnapshotFeatures.RunningTotalGrows | ADF_Online/Source/ML/predictive.py:106 | over non-negative values a running total never decreases within a period |
| SnapshotFeatures.PeriodRows | ADF_Online/Source/ML/predictive.py:109 | every row finds the history row of its own (name, day, period) |
| SnapshotFeatures.BuildSnapshots | ADF_Online/Source/ML/predictive.py:61-110 | the script's period history and snapshots are these definitions |
| MlEngine.LoadModel | ADF_Online/ml_engine.py:25-39 | a model exists exactly when the metric is configured and its file is in the store, and is that file's model |
| MlEngine.ModelFilesDistinct | ADF_Online/config.py:32-39 | the six metrics have distinct model files, and `Player Load` has none |
| MlEngine.LatestBefore | ADF_Online/ml_engine.py:43-47 | the last earlier game is undefined exactly without one, and otherwise is an earlier date at least every earlier date |
| MlEngine.RestDays | ADF_Online/ml_engine.py:41-48 | rest days are 7 without an earlier game, and otherwise the gap to the latest earlier game capped at 30, at least 1 |
| MlEngine.AthleteMeanIsTotalPerGame | ADF_Online/ml_engine.py:51-55 | the athlete mean is the total over the number of games |
| MlEngine.ContextMeanSpec | ADF_Online/ml_engine.py:58-65 | the context mean exists exactly with a result column and at least three games of that result, and is over those games only |
| MlEngine.OrElse | ADF_Online/ml_engine.py:251-252 | Python `or` keeps a defined non-zero value and falls back otherwise |
| MlEngine.FatigueBounds | ADF_Online/ml_engine.py:68-78 | the fatigue factor lies in [0.75, 1] and is 1 at minute 0 |
| MlEngine.FatigueNonIncreasing | ADF_Online/ml_engine.py:68-78 | the fatigue factor never rises from an earlier non-negative minute to a later one |
| MlEngine.MinuteMeansAt | ADF_Online/ml_engine.py:200 | the per-minute mean curve is, at each minute, the mean over the history rows of that minute |
| MlEngine.MinuteMeans | ADF_Online/ml_engine.py:200 | the curve has exactly the minutes of the history |
| MlEngine.ScoreWeight | ADF_Online/ml_engine.py:204 | the score weight is 0.6 with three or more games, 0.3 with one or two, and 0 with none |
| MlEngine.ScoreWeightMonotone | ADF_Online/ml_engine.py:204 | the weight never falls as the number of games grows, and stays in [0, 0.6] |
| MlEngine.PaceRatio | ADF_Online/ml_engine.py:212 | the pace is 1 without a positive reference and otherwise times the reference gives the value |
| MlEngine.TodayFactorBetween | ADF_Online/ml_engine.py:222 | today's factor lies between the two paces, equals them when they agree and is non-negative when they are |
| MlEngine.MetFactorSpec | ADF_Online/ml_engine.py:129-137 | the metabolic factor lies in [0.85, 1.15], and is 1 without a positive live value or when it equals the reference |
| MlEngine.CumulativeMonotone | ADF_Online/ml_engine.py:100-109 | accumulating non-negative steps gives a non-decreasing curve never below its start |
| MlEngine.ModelCurveBounds | ADF_Online/ml_engine.py:96-111 | the trained projection never decreases, starts from the current total and ends between current + 0.75·remaining and max(current, predicted) |
| MlEngine.ModelStepsSum | ADF_Online/ml_engine.py:97-109 | the added steps sum to between 0.75 and 1 times the remaining amount |
| MlEngine.ModelStepsWithin | ADF_Online/ml_engine.py:97-109 | each step lies between 0.75 and 1 times the equal share |
| MlEngine.ProjectWithModel | ADF_Online/ml_engine.py:96-111 | the loop's curve is the accumulated fatigue-scaled shares, with one value per minute, non-decreasing and bounded by the prediction |
| MlEngine.FallbackStepsNonNegative | ADF_Online/ml_engine.py:142-152 | with non-negative factors each fallback step is non-negative |
| MlEngine.ProjectFallback | ADF_Online/ml_engine.py:139-157 | the loop's curve is the accumulated blended steps, one per minute, and non-decreasing with non-negative factors |
| MlEngine.MarginSpec | ADF_Online/ml_engine.py:301 | the margin grows with the index from 0.04 and stays below 0.12 |
| MlEngine.BandAround | ADF_Online/ml_engine.py:302-303 | around a non-negative value the lower bound is non-negative and below, and the upper bound above |
| MlEngine.ConfidenceBand | ADF_Online/ml_engine.py:298-303 | the band has one pair per value, each value scaled by 1 ± its margin, and encloses every non-negative value |
| MlEngine.TeamRowsSplit | ADF_Online/ml_engine.py:314-323 | today's and past squad rows are rows of the base of that period up to the minute, of today and of other days, and every such row is in exactly one of the two |
| MlEngine.TeamLoadsArePerAthlete | ADF_Online/ml_engine.py:324-327 | today's squad load is the total per athlete, the past one the total per (day, athlete) |
| MlEngine.TeamDeltaSign | ADF_Online/ml_engine.py:328-329 | the squad delta is 0 without a positive past load, and otherwise positive exactly when today exceeds the past |
| MlEngine.NoTeamHistoryMeansNoDelta | ADF_Online/ml_engine.py:326-329 | with no past squad rows the squad delta is 0 |
| MlEngine.ResultDiffOfLabel | ADF_Online/ml_engine.py:266 | the feature `Diff_Gols` of a result letter recovers the sign of the goal difference |
| MlEngine.RecentLoadGrows | ADF_Online/ml_engine.py:261-264 | the last-three-games load is non-negative and at most the last-seven-games load |
| MlEngine.AthleteFeatures | ADF_Online/ml_engine.py:247-273 | the feature row has exactly the regressor's feature names |
| MlEngine.SampleIgnoresMinute | ADF_Online/ml_engine.py:90-91 | the regressor's sample does not depend on the live minute, and unknown features read 0 |
| MlEngine.SampleOverridesMinute | ADF_Online/ml_engine.py:91 | whatever the row's `Minutos`, the sample uses 90 |
| MlEngine.ReadLive | ADF_Online/ml_engine.py:185-239 | the live state holds the last cumulative value and minute, the pace ratios, weight, rest days and features as defined |
| MlEngine.MinuteRange | ADF_Online/ml_engine.py:190 | `range(from, to + 1)` lists the consecutive minutes |
| MlEngine.ChooseProjection | ADF_Online/ml_engine.py:242-294 | the regressor's curve is used exactly when its path succeeds, the fallback otherwise, and it never drops below the current total when it rises |
| MlEngine.Project | ADF_Online/ml_engine.py:241-350 | a full run gives the minutes, projection, band and KPIs as defined |
| MlEngine.RunLive | ADF_Online/ml_engine.py:163-351 | no projection without history or live rows, the current value when no minute is left, otherwise a full run whose curve never decreases with non-negative paces |

## Left out

- Excel I/O is not modelled: reading the workbook, the `shutil.copy2` of it, `getmtime`, and the Streamlit cache and spinner. The workbook is a value handed to the loaders.
- Date parsing (`to_datetime`) is not modelled: days are integers. `Data_Display`, the formatted date and opponent text, is not modelled beyond its need for the day and opponent columns.
- The Haversine formula (Source/Dados/data_loader.py:60-68) is a function parameter, since it uses trigonometry on floating point. The radius test and everything after it are modelled.
- `st.error` and `print` on failure are not modelled: a failure is the two empty tables.
- `AccDec3_Ratio` (predictive.py:98) is a division of floating-point columns that no later step reads. Only its defaulted input columns are modelled.
- Optional pass-through aggregates are not modelled: `Equiv Distance Index`, `Work Rate Dist` and `Competição` (predictive.py:224-231). `Metabolic Power` is modelled.
- NaN cells inside metric columns of predictive.py are not modelled: metric cells are numbers.
- The median and zero imputation of the game table (predictive.py:297-305) is not modelled. Features that are undefined before the first game stay `None`.
- GameHistory.TrendOfEarlier: the trend is `None` where pandas would divide by `overall + 1 == 0`. Such a value cannot arise here, since the means are of non-negative values.
- The initial `dropna` and `sort_values` of predictive.py (lines 62-66) are not modelled: the per-slice sheet is taken as already sorted by (name, day, interval), with its key cells present.
- The `dropna(subset=['Min_Num'])` of Source/ML/predictive.py:110 is not modelled, since `Min_Num` is never blank after the loader. The empty-table check at its line 51 is not modelled either.
- Training, SHAP, plots and pickle files are not modelled. A trained model is an opaque record whose prediction may fail; its `predict` function is a parameter.
- The UI pages (Live Tracker and the others) are not modelled. The live engine receives the frames they would pass.
- MlEngine.FatigueNonIncreasing is stated for non-negative minutes only; negative minutes do not occur in the live tracker.
- Text.Lower: lowers ASCII and Latin-1 capitals only. Python's `str.lower()` also lowers the other Unicode capitals; score texts hold none.
- Sheet.NumericOr0OfText: reads plain decimals only. Text that `to_numeric` also accepts, such as an exponent (`1e3`), `inf` or `nan`, reads as 0 here.
- Sheet.RecordTable: every text cell in a record metric makes the load fail. pandas first tries `float()` on such a column, so a text that `float()` accepts (`"5"`) would be summed instead.
- DadosLoader.LoadSucceedsIff: states that text in a record metric makes the load fail. For `Total Distance`, `Player Load`, `V4 Dist` and `V5 Dist`, which are not HIA counters, pandas' rolling sum converts a text that `float()` accepts (`"5"`) and the load succeeds. The model fails there. Text in an HIA counter fails in both.
- DadosLoader.LoadDataLogic: returns the two empty tables for the workbooks that DadosLoader.LoadSucceedsIff rejects, including those with a `float()`-readable text in `Total Distance`, `Player Load`, `V4 Dist` or `V5 Dist`, which pandas would load.
- GlobalLoader.LoadSucceedsIff: has the same gap as DadosLoader.LoadSucceedsIff. A `float()`-readable text in `Total Distance`, `Player Load`, `V4 Dist` or `V5 Dist` fails here, where pandas' rolling sum would convert it.
- GlobalLoader.LoadGlobalData: returns the two empty tables for the workbooks that GlobalLoader.LoadSucceedsIff rejects, including those with a `float()`-readable text in those four record metrics.
- Ordering.AtomLt: on an integer and a real of equal value it puts the integer first, where pandas' sort treats the two as one value and keeps their row order. No key position holds both kinds here: days are integers and periods and intervals are reals.
- GameFeatures.DecayAtMostOne, Grouping.RunningSumMonotone, GameFeatures.AccumulatedGrows and SnapshotFeatures.RunningTotalGrows assume non-negative metrics, as the sensors produce.
