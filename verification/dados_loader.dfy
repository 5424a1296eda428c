/** `_load_data_logic` of the ingestion package (Source/Dados): reads the needed columns
    of the workbook, decides for each game day whether it was played at home, fills the
    metric columns with 0, derives HIA, the score sign and the numeric minute, and builds
    the per-athlete table of five-minute records.  Any exception yields two empty tables. */
module DadosLoader {
  import opened Common
  import opened Text
  import opened Ordering
  import opened Grouping
  import opened Score
  import opened Sheet

  /** Membership in `COLUNAS_NECESSARIAS`, the headers `usecols` keeps. */
  predicate Needed(c: Col)
  {
    match c
    case Name | Data | Interval | Periodo | Placar | Resultado | Adversario
      | TotalDistance | V4Dist | V5Dist | V4Eff | V5Eff | V6Eff | Acc3Eff | Dec3Eff | PlayerLoad
      | Parte15 | Parte5 | Parte3 | Competicao | MetabolicPower | Latitude | Longitude => true
    case _ => false
  }

  /** Membership in `COLS_NAO_METRICAS`. */
  predicate NonMetric(c: Col)
  {
    match c
    case Data | Name | Adversario | Competicao | Placar | Resultado | Parte15 | Parte5 | Parte3 => true
    case _ => false
  }

  /** Membership in `COLS_METRICAS_PREENCHER_ZERO`: the needed columns that are not in
      `COLS_NAO_METRICAS`. */
  predicate Filled(c: Col)
  {
    Needed(c) && !NonMetric(c)
  }

  /** The filled columns are the minute, the period, the ten metrics and both GPS coordinates. */
  lemma FilledColumnsAre()
    ensures forall c :: Filled(c) <==> c in {Interval, Periodo, TotalDistance, V4Dist, V5Dist, V4Eff, V5Eff,
                                              V6Eff, Acc3Eff, Dec3Eff, PlayerLoad, MetabolicPower, Latitude, Longitude}
  {
  }

  /** `RAIO_CASA_KM`: a row within this distance of the home ground was played at home. */
  const HomeRadiusKm: real := 2.0

  // ---------------------------------------------------------------------------
  // Home or away.

  /** The cleaning of 'Latitude'/'Longitude': the cell as text without spaces and with ','
      read as '.', the texts 'nan', 'NaN', 'None' and '' as empty, then
      `pd.to_numeric(errors='coerce')`.  A number comes back as itself. */
  function Coordinate(cell: Cell): Option<real>
  {
    match cell
    case Number(x) => Some(x)
    case Blank => None
    case Str(s) =>
      var t := ReplaceChar(RemoveSpaces(s), ',', '.');
      if t in ["nan", "NaN", "None", ""] then None else ParseDecimal(t)
  }

  function OptCell(v: Option<real>): Cell
  {
    match v
    case Some(x) => Number(x)
    case None => Blank
  }

  function CellValue(cell: Cell): Option<real>
  {
    match cell
    case Number(x) => Some(x)
    case _ => None
  }

  /** A column of coordinates, cleaned. */
  function CoordinateColumn(s: seq<Cell>): (r: seq<Cell>)
    ensures |r| == |s| && forall i :: 0 <= i < |s| ==> r[i] == OptCell(Coordinate(s[i]))
  {
    seq(|s|, i requires 0 <= i < |s| => OptCell(Coordinate(s[i])))
  }

  /** Cleaning a cleaned coordinate changes nothing. */
  lemma CleaningIdempotent(s: seq<Cell>)
    ensures CoordinateColumn(CoordinateColumn(s)) == CoordinateColumn(s)
    ensures forall i :: 0 <= i < |s| ==> Coordinate(CoordinateColumn(s)[i]) == Coordinate(s[i])
  {
  }

  /** The great-circle distance to the home ground (`haversineKm`, given) of a pair of
      coordinates, empty when either is. */
  function Distance(lat: Cell, lon: Cell, haversineKm: (real, real) -> real): Option<real>
  {
    match (Coordinate(lat), Coordinate(lon))
    case (Some(x), Some(y)) => Some(haversineKm(x, y))
    case _ => None
  }

  /** 'Distancia_Viagem_km'. */
  function DistanceColumn(lat: seq<Cell>, lon: seq<Cell>, haversineKm: (real, real) -> real): (r: seq<Cell>)
    requires |lat| == |lon|
    ensures |r| == |lat| && forall i :: 0 <= i < |lat| ==> r[i] == OptCell(Distance(lat[i], lon[i], haversineKm))
  {
    seq(|lat|, i requires 0 <= i < |lat| => OptCell(Distance(lat[i], lon[i], haversineKm)))
  }

  /** 'Status_Local': 1 (home) within the radius, 0 (away) beyond it, empty without GPS. */
  function Status(d: Option<real>): (s: Option<real>)
    ensures s == Some(1.0) <==> d.Some? && d.value <= HomeRadiusKm
    ensures s == Some(0.0) <==> d.Some? && d.value > HomeRadiusKm
    ensures s.None? <==> d.None?
  {
    match d
    case Some(km) => if km <= HomeRadiusKm then Some(1.0) else Some(0.0)
    case None => None
  }

  /** Both `df.loc[dist <= RAIO_CASA_KM, 'Status_Local'] = 1` and `df.loc[dist > RAIO_CASA_KM,
      'Status_Local'] = 0`; a row matched by neither stays empty. */
  function StatusColumn(dist: seq<Cell>): (r: seq<Cell>)
    ensures |r| == |dist| && forall i :: 0 <= i < |dist| ==> r[i] == OptCell(Status(CellValue(dist[i])))
  {
    seq(|dist|, i requires 0 <= i < |dist| => OptCell(Status(CellValue(dist[i]))))
  }

  /** 'Jogou_em_Casa' of row `i`: `groupby('Data')['Status_Local'].transform('min').fillna(1)`,
      the smallest status of the rows of the same day, 1 when none has one (and for a row
      whose day is empty, which `groupby` leaves out). */
  function HomeFlag(dates: seq<Atom>, status: seq<Option<real>>, i: nat): real
    requires |dates| == |status| && i < |dates|
  {
    if dates[i] == Missing then 1.0
    else MinPresent(GroupOf(dates, status, dates[i])).GetOr(1.0)
  }

  function Atoms(s: seq<Cell>): (r: seq<Atom>)
    ensures |r| == |s| && forall i :: 0 <= i < |s| ==> r[i] == AtomOf(s[i])
  {
    seq(|s|, i requires 0 <= i < |s| => AtomOf(s[i]))
  }

  function Values(s: seq<Cell>): (r: seq<Option<real>>)
    ensures |r| == |s| && forall i :: 0 <= i < |s| ==> r[i] == CellValue(s[i])
  {
    seq(|s|, i requires 0 <= i < |s| => CellValue(s[i]))
  }

  /** The whole 'Jogou_em_Casa' column from the day and status columns. */
  function HomeColumn(dates: seq<Cell>, status: seq<Cell>): (r: seq<Cell>)
    requires |dates| == |status|
    ensures |r| == |dates|
    ensures forall i :: 0 <= i < |dates| ==> r[i] == Number(HomeFlag(Atoms(dates), Values(status), i))
  {
    var keys := Atoms(dates);
    var values := Values(status);
    seq(|dates|, i requires 0 <= i < |dates| => Number(HomeFlag(keys, values, i)))
  }

  /** Statuses are only ever 1, 0 or missing. */
  predicate Statuses(status: seq<Option<real>>)
  {
    forall j :: 0 <= j < |status| ==> status[j] in {Some(0.0), Some(1.0), None}
  }

  /** One row played away makes the whole day away; otherwise the day is home, including a
      day on which no row has GPS. */
  lemma HomeFlagRule(dates: seq<Atom>, status: seq<Option<real>>, i: nat)
    requires |dates| == |status| && i < |dates| && Statuses(status)
    ensures HomeFlag(dates, status, i) in {0.0, 1.0}
    ensures HomeFlag(dates, status, i) == 0.0 <==>
              dates[i] != Missing && exists j :: 0 <= j < |dates| && dates[j] == dates[i] && status[j] == Some(0.0)
  {
    if dates[i] != Missing {
      var g := GroupOf(dates, status, dates[i]);
      var m := MinPresent(g);
      if m.Some? {
        var k :| 0 <= k < |g| && g[k] == Some(m.value);
        var j0 := GroupMemberAt(dates, status, dates[i], k);
        assert m.value in {0.0, 1.0};
      }
      if exists j :: 0 <= j < |dates| && dates[j] == dates[i] && status[j] == Some(0.0) {
        var j :| 0 <= j < |dates| && dates[j] == dates[i] && status[j] == Some(0.0);
        var k := InGroupAt(dates, status, j);
        assert g[k] == Some(0.0);
      } else if m.Some? {
        var k :| 0 <= k < |g| && g[k] == Some(m.value);
        var j0 := GroupMemberAt(dates, status, dates[i], k);
        assert m.value != 0.0;
      }
    }
  }

  /** Row `j`'s value sits in its own group. */
  lemma InGroupAt<K, V>(keys: seq<K>, vals: seq<V>, j: nat) returns (k: nat)
    requires |keys| == |vals| && j < |keys|
    ensures k < |GroupOf(keys, vals, keys[j])| && GroupOf(keys, vals, keys[j])[k] == vals[j]
  {
    GroupAtRank(keys, vals, j);
    k := Rank(keys, j);
  }

  // ---------------------------------------------------------------------------
  // Scores and minutes.

  /** 'Diff_Gols' of a 'Placar' cell: the loader's `extrair_diff_gols(placar)`.  `str()` of an
      empty cell is "nan", which `ScoreSignOfEmptyCell` classifies 0; `str()` of a number
      spells digits, a sign, a point or an exponent, never a 'v' or a 'd', so it gives 0. */
  function DiffOf(cell: Cell): (d: int)
    ensures -1 <= d <= 1
  {
    match cell
    case Str(s) => ScoreSign(s)
    case Blank => 0
    case Number(_) => 0
  }

  /** `df['Placar'].apply(extrair_diff_gols)`. */
  function DiffColumn(s: seq<Cell>): (r: seq<Cell>)
    ensures |r| == |s| && forall i :: 0 <= i < |s| ==> r[i] == Number(DiffOf(s[i]) as real)
  {
    seq(|s|, i requires 0 <= i < |s| => Number(DiffOf(s[i]) as real))
  }

  /** `pd.to_numeric(df[col], errors='coerce').fillna(0)`. */
  function NumericColumn(s: seq<Cell>): (r: seq<Cell>)
    ensures |r| == |s| && forall i :: 0 <= i < |s| ==> r[i] == Number(NumericOr0(s[i]))
  {
    seq(|s|, i requires 0 <= i < |s| => Number(NumericOr0(s[i])))
  }

  // ---------------------------------------------------------------------------
  // The loaded table, column by column, stated from the workbook alone.

  /** Column `c` of the workbook, or empty cells when it has none. */
  function Column(w: Table, c: Col): (s: seq<Cell>)
    requires Valid(w)
    ensures |s| == w.n
  {
    if c in w.cols then w.cols[c] else seq(w.n, _ => Blank)
  }

  /** Step 3 touches only the two coordinate columns. */
  function CleanColumn(c: Col, s: seq<Cell>): (r: seq<Cell>)
    ensures |r| == |s|
  {
    if c == Latitude || c == Longitude then CoordinateColumn(s) else s
  }

  /** A column read from the workbook, once loaded: cleaned, then filled with 0 when it is
      one of the metrics. */
  function LoadedColumn(w: Table, c: Col): (s: seq<Cell>)
    requires Valid(w)
    ensures |s| == w.n
  {
    var cleaned := CleanColumn(c, Column(w, c));
    if Filled(c) then FillColumn(cleaned) else cleaned
  }

  /** The columns `read_excel` keeps. */
  function ReadSet(w: Table): set<Col>
  {
    set c | c in w.cols && Needed(c)
  }

  /** The columns read from the workbook, as the loaded table holds them. */
  function LoadedRead(w: Table): (t: Table)
    requires Valid(w)
    ensures Valid(t) && t.n == w.n && t.cols.Keys == ReadSet(w)
    ensures forall c :: c in t.cols ==> t.cols[c] == LoadedColumn(w, c)
  {
    Table(w.n, map c | c in ReadSet(w) :: LoadedColumn(w, c))
  }

  /** The distance of every row of the workbook. */
  function DistanceCol(w: Table, haversineKm: (real, real) -> real): (s: seq<Cell>)
    requires Valid(w)
    ensures |s| == w.n
  {
    DistanceColumn(Column(w, Latitude), Column(w, Longitude), haversineKm)
  }

  /** 'Status_Local' of every row of the workbook. */
  function StatusCol(w: Table, haversineKm: (real, real) -> real): (s: seq<Cell>)
    requires Valid(w)
    ensures |s| == w.n
  {
    StatusColumn(DistanceCol(w, haversineKm))
  }

  /** 'Jogou_em_Casa' of every row of the workbook. */
  function HomeCol(w: Table, haversineKm: (real, real) -> real): (s: seq<Cell>)
    requires Valid(w)
    ensures |s| == w.n
  {
    HomeColumn(Column(w, Data), StatusCol(w, haversineKm))
  }

  /** HIA of every row, over the loaded counters. */
  function HiaCol(w: Table): (s: seq<Cell>)
    requires Valid(w)
    ensures |s| == w.n
  {
    HiaColumn(LoadedRead(w))
  }

  /** 'Diff_Gols' of every row; 0 without a 'Placar' column (the model's reading of the
      loader's `if 'Placar' in df.columns` guard). */
  function DiffCol(w: Table): (s: seq<Cell>)
    requires Valid(w)
    ensures |s| == w.n
  {
    if Placar in w.cols then DiffColumn(w.cols[Placar]) else seq(w.n, _ => Number(0.0))
  }

  /** 'Min_Num' of every row: the loaded 'Interval' as a number. */
  function MinuteCol(w: Table): (s: seq<Cell>)
    requires Valid(w)
    ensures |s| == w.n
  {
    NumericColumn(LoadedColumn(w, Interval))
  }

  /** The columns step 4 adds when both coordinates were read. */
  const HomeCols: set<Col> := {DistanciaViagem, StatusLocal, JogouEmCasa}

  /** The columns of the loaded table. */
  function LoadedColumns(w: Table): set<Col>
  {
    ReadSet(w) + HomeCols + {HIA, DiffGols, MinNum}
  }

  /** The columns that make a load succeed: every filled column (which includes both GPS
      coordinates), the day, the opponent (read by 'Data_Display') and the name. */
  predicate HasColumns(columns: set<Col>)
  {
    (forall c :: Filled(c) ==> c in columns) && Data in columns && Adversario in columns && Name in columns
  }

  /** The load succeeds when the workbook has those columns, no row lacks its name or its
      day (the period is filled, so it is never empty), and no HIA counter or record metric
      holds text. */
  predicate LoadSucceeds(w: Table)
    requires Valid(w)
  {
    && HasColumns(w.cols.Keys)
    && (forall i :: 0 <= i < w.n ==> Get(w, Name, i) != Blank && Get(w, Data, i) != Blank)
    && NoText(w, HiaParts) && NoText(w, RecordMetrics)
  }

  // ---------------------------------------------------------------------------
  // The steps of `_load_data_logic`, each a function of the table before it.

  /** Step 3 over a whole table. */
  function CleanCoords(t: Table): (r: Table)
    requires Valid(t)
    ensures Valid(r) && r.n == t.n && r.cols.Keys == t.cols.Keys
    ensures forall c :: c in r.cols ==> r.cols[c] == CleanColumn(c, t.cols[c])
  {
    Table(t.n, map c | c in t.cols :: CleanColumn(c, t.cols[c]))
  }

  /** Steps 2 and 3: the needed columns of the workbook, coordinates cleaned. */
  function ReadOf(w: Table): (t: Table)
    requires Valid(w)
    ensures Valid(t) && t.n == w.n && t.cols.Keys == ReadSet(w)
    ensures forall c :: c in t.cols ==> t.cols[c] == CleanColumn(c, w.cols[c])
  {
    CleanCoords(ReadColumns(w, Needed))
  }

  /** 'Distancia_Viagem_km' added. */
  function WithDistance(t: Table, haversineKm: (real, real) -> real): (r: Table)
    requires Valid(t) && Latitude in t.cols && Longitude in t.cols
    ensures Valid(r) && r.n == t.n && r.cols.Keys == t.cols.Keys + {DistanciaViagem}
  {
    WithColumn(t, DistanciaViagem, DistanceColumn(t.cols[Latitude], t.cols[Longitude], haversineKm))
  }

  /** 'Status_Local' added, from 'Distancia_Viagem_km'. */
  function WithStatus(t: Table): (r: Table)
    requires Valid(t) && DistanciaViagem in t.cols
    ensures Valid(r) && r.n == t.n && r.cols.Keys == t.cols.Keys + {StatusLocal}
  {
    WithColumn(t, StatusLocal, StatusColumn(t.cols[DistanciaViagem]))
  }

  /** 'Jogou_em_Casa' added, from 'Data' and 'Status_Local'. */
  function WithHomeFlag(t: Table): (r: Table)
    requires Valid(t) && Data in t.cols && StatusLocal in t.cols
    ensures Valid(r) && r.n == t.n && r.cols.Keys == t.cols.Keys + {JogouEmCasa}
  {
    WithColumn(t, JogouEmCasa, HomeColumn(t.cols[Data], t.cols[StatusLocal]))
  }

  /** Step 4 with both coordinates. */
  function WithHome(t: Table, haversineKm: (real, real) -> real): (r: Table)
    requires Valid(t) && Latitude in t.cols && Longitude in t.cols && Data in t.cols
    ensures Valid(r) && r.n == t.n && r.cols.Keys == t.cols.Keys + HomeCols
  {
    WithHomeFlag(WithStatus(WithDistance(t, haversineKm)))
  }

  /** Step 6's 'Diff_Gols', 0 throughout without a 'Placar' column. */
  function WithDiff(t: Table): (r: Table)
    requires Valid(t)
    ensures Valid(r) && r.n == t.n && r.cols.Keys == t.cols.Keys + {DiffGols}
  {
    WithColumn(t, DiffGols, if Placar in t.cols then DiffColumn(t.cols[Placar]) else seq(t.n, _ => Number(0.0)))
  }

  /** Step 5's HIA and step 6's 'Diff_Gols'. */
  function WithScores(t: Table): (r: Table)
    requires Valid(t)
    ensures Valid(r) && r.n == t.n && r.cols.Keys == t.cols.Keys + {HIA, DiffGols}
  {
    WithDiff(WithHia(t))
  }

  /** Step 6's 'Min_Num', from 'Interval (min)' when the table has it, else from 'Interval';
      `None` where `df['Interval']` raises `KeyError`. */
  function WithMinute(t: Table): (r: Option<Table>)
    requires Valid(t)
    ensures r.Some? <==> IntervalMin in t.cols || Interval in t.cols
    ensures r.Some? ==> Valid(r.value) && r.value.n == t.n && r.value.cols.Keys == t.cols.Keys + {MinNum}
  {
    var minute := if IntervalMin in t.cols then IntervalMin else Interval;
    if minute in t.cols then Some(WithColumn(t, MinNum, NumericColumn(t.cols[minute]))) else None
  }

  /** Steps 2 to 4, `None` where `df['Data']` raises `KeyError`.  Without both coordinates
      'Jogou_em_Casa' is 1 throughout. */
  function Mark(w: Table, haversineKm: (real, real) -> real): (r: Option<Table>)
    requires Valid(w)
    ensures r.Some? ==> Valid(r.value) && r.value.n == w.n
  {
    var t := ReadOf(w);
    if Latitude in t.cols && Longitude in t.cols then
      if Data in t.cols then Some(WithHome(t, haversineKm)) else None
    else Some(WithColumn(t, JogouEmCasa, seq(t.n, _ => Number(1.0))))
  }

  /** Steps 5 and 6 and the check on 'Name', `None` where `fillna` (a metric column
      missing), HIA (a counter holding text), 'Data_Display' (no 'Data' or 'Adversário') or
      the check raises. */
  function Derive(t: Table): (r: Option<Table>)
    requires Valid(t)
    ensures r.Some? ==> Valid(r.value) && r.value.n == t.n
  {
    match FillZero(t, Filled)
    case None => None
    case Some(f) =>
      if !NoText(f, HiaParts) then None
      else
        var s := WithScores(f);
        if Data !in s.cols || Adversario !in s.cols then None
        else
          match WithMinute(s)
          case None => None
          case Some(df) => if Name !in df.cols then None else Some(df)
  }

  /** What `_load_data_logic` returns for the workbook `w`, `None` where it raises. */
  function Load(w: Table, haversineKm: (real, real) -> real): Option<(Table, Records)>
    requires Valid(w)
  {
    match Mark(w, haversineKm)
    case None => None
    case Some(t) =>
      match Derive(t)
      case None => None
      case Some(df) =>
        match RecordTable(df, MinNum)
        case None => None
        case Some(records) => Some((df, records))
  }

  // ---------------------------------------------------------------------------
  // What the loaded table holds, stated from the workbook alone.

  /** The columns step 4 writes and the ones it keeps. */
  lemma HomeStep(t: Table, haversineKm: (real, real) -> real)
    requires Valid(t) && Latitude in t.cols && Longitude in t.cols && Data in t.cols
    ensures var r := WithHome(t, haversineKm);
            && r.cols[DistanciaViagem] == DistanceColumn(t.cols[Latitude], t.cols[Longitude], haversineKm)
            && r.cols[StatusLocal] == StatusColumn(r.cols[DistanciaViagem])
            && r.cols[JogouEmCasa] == HomeColumn(t.cols[Data], r.cols[StatusLocal])
            && forall c :: c in t.cols && c !in HomeCols ==> r.cols[c] == t.cols[c]
  {
  }

  /** The columns steps 5 and 6 write and the ones they keep. */
  lemma ScoreStep(t: Table)
    requires Valid(t)
    ensures var r := WithScores(t);
            && r.cols[HIA] == HiaColumn(t)
            && r.cols[DiffGols] == (if Placar in t.cols then DiffColumn(t.cols[Placar]) else seq(t.n, _ => Number(0.0)))
  {
  }

  /** Steps 5 and 6 keep every column the table had. */
  lemma ScoreKeeps(t: Table)
    requires Valid(t) && HIA !in t.cols && DiffGols !in t.cols
    ensures Extends(WithScores(t), t)
  {
    var a := WithHia(t);
    assert Extends(a, t);
    assert Extends(WithDiff(a), a);
    ExtendsTrans(WithDiff(a), a, t);
  }

  /** Adding columns the table did not have keeps what the read and home columns hold. */
  lemma KeepColumns(w: Table, haversineKm: (real, real) -> real, t: Table, r: Table)
    requires Valid(w) && Valid(t) && Valid(r) && t.n == w.n && r.n == w.n
    requires HoldsLoaded(w, t) && HomeColumnsOf(w, haversineKm, t) && Extends(r, t)
    ensures HoldsLoaded(w, r) && HomeColumnsOf(w, haversineKm, r)
  {
  }

  /** A successful `fillna` found every metric column. */
  lemma FilledFound(m: Table)
    requires Valid(m) && FillZero(m, Filled).Some?
    ensures Latitude in m.cols && Longitude in m.cols && Interval in m.cols && Periodo in m.cols
  {
    assert Filled(Latitude) && Filled(Longitude) && Filled(Interval) && Filled(Periodo);
  }

  /** A marked table that `fillna` accepts went through step 4 with both coordinates. */
  lemma MarkTrace(w: Table, haversineKm: (real, real) -> real, m: Table)
    requires Valid(w) && Mark(w, haversineKm) == Some(m) && FillZero(m, Filled).Some?
    ensures var t := ReadOf(w);
            Latitude in t.cols && Longitude in t.cols && Data in t.cols && m == WithHome(t, haversineKm)
  {
    FilledFound(m);
  }

  /** The tables steps 5 and 6 pass through. */
  lemma DeriveTrace(m: Table, df: Table) returns (f: Table, s: Table)
    requires Valid(m) && Derive(m) == Some(df)
    ensures FillZero(m, Filled) == Some(f) && NoText(f, HiaParts) && s == WithScores(f) && WithMinute(s) == Some(df)
    ensures Data in s.cols && Adversario in s.cols && Name in df.cols
  {
    f := FillZero(m, Filled).value;
    s := WithScores(f);
  }

  /** The tables a successful load passes through. */
  lemma LoadTrace(w: Table, haversineKm: (real, real) -> real, df: Table, records: Records)
      returns (t: Table, m: Table, f: Table, s: Table)
    requires Valid(w) && Load(w, haversineKm) == Some((df, records))
    ensures t == ReadOf(w) && Latitude in t.cols && Longitude in t.cols && Data in t.cols
    ensures m == WithHome(t, haversineKm) && FillZero(m, Filled) == Some(f) && NoText(f, HiaParts)
    ensures s == WithScores(f) && WithMinute(s) == Some(df)
    ensures Valid(df) && df.n == w.n && Data in df.cols && Adversario in df.cols && Name in df.cols
    ensures RecordTable(df, MinNum) == Some(records)
  {
    m := Mark(w, haversineKm).value;
    f, s := DeriveTrace(m, df);
    MarkTrace(w, haversineKm, m);
    t := ReadOf(w);
  }

  /** Every read column holds the workbook's cells, cleaned. */
  predicate HoldsCleaned(w: Table, t: Table)
    requires Valid(w) && Valid(t) && t.n == w.n
  {
    forall c :: c in ReadSet(w) ==> c in t.cols && t.cols[c] == CleanColumn(c, Column(w, c))
  }

  /** Every read column holds the workbook's cells, cleaned and, for a metric, filled. */
  predicate HoldsLoaded(w: Table, t: Table)
    requires Valid(w) && Valid(t) && t.n == w.n
  {
    forall c :: c in ReadSet(w) ==> c in t.cols && t.cols[c] == LoadedColumn(w, c)
  }

  /** The three columns of step 4 hold the workbook's distances, statuses and home flags. */
  predicate HomeColumnsOf(w: Table, haversineKm: (real, real) -> real, t: Table)
    requires Valid(w)
  {
    && HomeCols <= t.cols.Keys
    && t.cols[DistanciaViagem] == DistanceCol(w, haversineKm)
    && t.cols[StatusLocal] == StatusCol(w, haversineKm)
    && t.cols[JogouEmCasa] == HomeCol(w, haversineKm)
  }

  /** The loaded table, column by column, from the workbook alone. */
  predicate LoadedTable(w: Table, haversineKm: (real, real) -> real, df: Table)
    requires Valid(w)
  {
    && Valid(df) && df.n == w.n && df.cols.Keys == LoadedColumns(w)
    && HoldsLoaded(w, df)
    && HomeColumnsOf(w, haversineKm, df)
    && df.cols[HIA] == HiaCol(w)
    && df.cols[DiffGols] == DiffCol(w)
    && df.cols[MinNum] == MinuteCol(w)
  }

  /** After step 4 the read columns are cleaned and the home columns are the workbook's. */
  lemma MarkedColumns(w: Table, haversineKm: (real, real) -> real, t: Table)
    requires Valid(w) && t == ReadOf(w) && Latitude in t.cols && Longitude in t.cols && Data in t.cols
    ensures HoldsCleaned(w, WithHome(t, haversineKm))
    ensures HomeColumnsOf(w, haversineKm, WithHome(t, haversineKm))
  {
    var m := WithHome(t, haversineKm);
    HomeStep(t, haversineKm);
    MarkedRead(w, t, m);
    CleanKeepsDistance(w, haversineKm, t);
    assert m.cols[DistanciaViagem] == DistanceCol(w, haversineKm);
  }

  /** Step 4 leaves the read columns as step 3 made them. */
  lemma MarkedRead(w: Table, t: Table, m: Table)
    requires Valid(w) && t == ReadOf(w) && Valid(m) && m.n == w.n
    requires forall c :: c in t.cols && c !in HomeCols ==> c in m.cols && m.cols[c] == t.cols[c]
    ensures HoldsCleaned(w, m)
  {
    forall c | c in ReadSet(w) ensures c in m.cols && m.cols[c] == CleanColumn(c, Column(w, c)) {
      assert c in t.cols && c in w.cols && Needed(c);
      assert c !in HomeCols;
    }
  }

  /** The distance over the cleaned coordinates is the distance over the workbook's. */
  lemma CleanKeepsDistance(w: Table, haversineKm: (real, real) -> real, t: Table)
    requires Valid(w) && t == ReadOf(w) && Latitude in t.cols && Longitude in t.cols
    ensures DistanceColumn(t.cols[Latitude], t.cols[Longitude], haversineKm) == DistanceCol(w, haversineKm)
  {
    CleaningIdempotent(w.cols[Latitude]);
    CleaningIdempotent(w.cols[Longitude]);
  }

  /** `fillna` fills the read metric columns and leaves the home columns alone. */
  lemma FilledColumns(w: Table, haversineKm: (real, real) -> real, m: Table, f: Table)
    requires Valid(w) && Valid(m) && m.n == w.n && FillZero(m, Filled) == Some(f)
    requires HoldsCleaned(w, m) && HomeColumnsOf(w, haversineKm, m)
    ensures HoldsLoaded(w, f) && HomeColumnsOf(w, haversineKm, f)
  {
    FilledRead(w, m, f);
    FilledHome(w, haversineKm, m, f);
  }

  /** `fillna` turns the cleaned read columns into the loaded ones. */
  lemma FilledRead(w: Table, m: Table, f: Table)
    requires Valid(w) && Valid(m) && m.n == w.n && FillZero(m, Filled) == Some(f)
    requires HoldsCleaned(w, m)
    ensures HoldsLoaded(w, f)
  {
  }

  /** `fillna` leaves the home columns alone. */
  lemma FilledHome(w: Table, haversineKm: (real, real) -> real, m: Table, f: Table)
    requires Valid(w) && Valid(m) && FillZero(m, Filled) == Some(f)
    requires HomeColumnsOf(w, haversineKm, m)
    ensures HomeColumnsOf(w, haversineKm, f)
  {
    assert !Filled(DistanciaViagem) && !Filled(StatusLocal) && !Filled(JogouEmCasa);
  }

  /** The columns of the loaded table, from the columns of the tables before it. */
  lemma ScoredKeys(w: Table, f: Table, s: Table, df: Table)
    requires f.cols.Keys == ReadSet(w) + HomeCols
    requires s.cols.Keys == f.cols.Keys + {HIA, DiffGols}
    requires df.cols.Keys == s.cols.Keys + {MinNum}
    ensures df.cols.Keys == LoadedColumns(w)
  {
  }

  /** The columns steps 5 and 6 add are new, and 'Interval' is a read column. */
  lemma ScoredNew(w: Table, f: Table, s: Table)
    requires f.cols.Keys == ReadSet(w) + HomeCols && Interval in f.cols
    requires s.cols.Keys == f.cols.Keys + {HIA, DiffGols}
    ensures HIA !in f.cols && DiffGols !in f.cols && Interval in ReadSet(w) && Interval in s.cols
    ensures IntervalMin !in s.cols && MinNum !in s.cols
  {
    NotRead(w);
  }

  /** The derived columns and 'Interval (min)' are never read from the workbook. */
  lemma NotRead(w: Table)
    ensures HIA !in ReadSet(w) && DiffGols !in ReadSet(w) && IntervalMin !in ReadSet(w) && MinNum !in ReadSet(w)
    ensures DistanciaViagem !in ReadSet(w) && StatusLocal !in ReadSet(w) && JogouEmCasa !in ReadSet(w)
  {
  }

  /** Without 'Interval (min)', 'Min_Num' is read from 'Interval'. */
  lemma MinuteStep(s: Table, df: Table)
    requires Valid(s) && IntervalMin !in s.cols && MinNum !in s.cols && WithMinute(s) == Some(df)
    ensures Interval in s.cols && df.cols[MinNum] == NumericColumn(s.cols[Interval])
    ensures Extends(df, s)
  {
  }

  /** Steps 5 and 6 keep the read and home columns. */
  lemma ScoredKept(w: Table, haversineKm: (real, real) -> real, f: Table, s: Table, df: Table)
    requires Valid(w) && Valid(f) && f.n == w.n && HoldsLoaded(w, f) && HomeColumnsOf(w, haversineKm, f)
    requires s == WithScores(f) && HIA !in f.cols && DiffGols !in f.cols
    requires Valid(df) && df.n == w.n && Extends(df, s)
    ensures HoldsLoaded(w, df) && HomeColumnsOf(w, haversineKm, df)
  {
    ScoreKeeps(f);
    ExtendsTrans(df, s, f);
    KeepColumns(w, haversineKm, f, df);
  }

  /** HIA as the workbook determines it. */
  lemma ScoredHia(w: Table, f: Table, s: Table, df: Table)
    requires Valid(w) && Valid(f) && f.n == w.n && f.cols.Keys == ReadSet(w) + HomeCols && HoldsLoaded(w, f)
    requires s == WithScores(f) && Extends(df, s)
    ensures df.cols[HIA] == HiaCol(w)
  {
    ScoreStep(f);
    HiaOfLoaded(w, f);
  }

  /** 'Diff_Gols' as the workbook determines it. */
  lemma ScoredDiff(w: Table, f: Table, s: Table, df: Table)
    requires Valid(w) && Valid(f) && f.n == w.n && f.cols.Keys == ReadSet(w) + HomeCols && HoldsLoaded(w, f)
    requires s == WithScores(f) && Extends(df, s)
    ensures df.cols[DiffGols] == DiffCol(w)
  {
    ScoreStep(f);
    DiffOfLoaded(w, f);
  }

  /** 'Min_Num' as the workbook determines it. */
  lemma ScoredMinute(w: Table, f: Table, s: Table, df: Table)
    requires Valid(w) && Valid(f) && f.n == w.n && HoldsLoaded(w, f) && Extends(s, f)
    requires Interval in f.cols && Interval in ReadSet(w) && Interval in s.cols && MinNum in df.cols
    requires df.cols[MinNum] == NumericColumn(s.cols[Interval])
    ensures df.cols[MinNum] == MinuteCol(w)
  {
  }

  /** Steps 5 and 6 keep what step 4 and `fillna` made and add HIA, 'Diff_Gols' and
      'Min_Num'. */
  lemma ScoredColumns(w: Table, haversineKm: (real, real) -> real, f: Table, s: Table, df: Table)
    requires Valid(w) && Valid(f) && f.n == w.n && f.cols.Keys == ReadSet(w) + HomeCols && Interval in f.cols
    requires HoldsLoaded(w, f) && HomeColumnsOf(w, haversineKm, f)
    requires s == WithScores(f) && WithMinute(s) == Some(df)
    ensures LoadedTable(w, haversineKm, df)
  {
    ScoredNew(w, f, s);
    ScoredKeys(w, f, s, df);
    MinuteStep(s, df);
    ScoreKeeps(f);
    ScoredKept(w, haversineKm, f, s, df);
    ScoredHia(w, f, s, df);
    ScoredDiff(w, f, s, df);
    ScoredMinute(w, f, s, df);
  }

  /** 'Diff_Gols' over the filled table is 'Diff_Gols' over the workbook's scores. */
  lemma DiffOfLoaded(w: Table, f: Table)
    requires Valid(w) && Valid(f) && f.n == w.n && f.cols.Keys == ReadSet(w) + HomeCols
    requires HoldsLoaded(w, f)
    ensures (if Placar in f.cols then DiffColumn(f.cols[Placar]) else seq(f.n, _ => Number(0.0))) == DiffCol(w)
  {
    if Placar in w.cols {
      assert Placar in ReadSet(w);
      assert !Filled(Placar);
      assert f.cols[Placar] == LoadedColumn(w, Placar) == w.cols[Placar];
    } else {
      assert Placar !in ReadSet(w) + HomeCols;
    }
  }

  /** A successful load yields the loaded table. */
  lemma LoadIsLoadedTable(w: Table, haversineKm: (real, real) -> real, df: Table, records: Records)
    requires Valid(w) && Load(w, haversineKm) == Some((df, records))
    ensures LoadedTable(w, haversineKm, df)
  {
    var m := Mark(w, haversineKm).value;
    DerivedIsLoadedTable(w, haversineKm, m, df);
  }

  /** Whatever steps 5 and 6 derive from the marked workbook is the loaded table. */
  lemma DerivedIsLoadedTable(w: Table, haversineKm: (real, real) -> real, m: Table, df: Table)
    requires Valid(w) && Mark(w, haversineKm) == Some(m) && Derive(m) == Some(df)
    ensures LoadedTable(w, haversineKm, df)
  {
    var f, s := DeriveTrace(m, df);
    MarkTrace(w, haversineKm, m);
    var t := ReadOf(w);
    MarkedColumns(w, haversineKm, t);
    FilledColumns(w, haversineKm, m, f);
    FilledFound(m);
    ScoredColumns(w, haversineKm, f, s, df);
  }

  // ---------------------------------------------------------------------------
  // What each derived cell means, row by row of the workbook.

  /** Row `j` of the workbook was played away: both coordinates read, and farther from the
      home ground than the radius. */
  predicate PlayedAway(w: Table, haversineKm: (real, real) -> real, j: nat)
    requires Valid(w) && j < w.n
  {
    var d := Distance(Get(w, Latitude, j), Get(w, Longitude, j), haversineKm);
    d.Some? && d.value > HomeRadiusKm
  }

  /** The status a row of the workbook gets, in the terms `HomeFlag` reads it. */
  lemma StatusOfRow(w: Table, haversineKm: (real, real) -> real, j: nat)
    requires Valid(w) && j < w.n
    ensures Values(StatusCol(w, haversineKm))[j] in {Some(0.0), Some(1.0), None}
    ensures Values(StatusCol(w, haversineKm))[j] == Some(0.0) <==> PlayedAway(w, haversineKm, j)
  {
    assert DistanceCol(w, haversineKm)[j] == OptCell(Distance(Get(w, Latitude, j), Get(w, Longitude, j), haversineKm));
  }

  /** 'Jogou_em_Casa' is 0 or 1, and 0 exactly when the row has a day and some row of the same
      day was played away. */
  lemma HomeColMeaning(w: Table, haversineKm: (real, real) -> real, i: nat)
    requires Valid(w) && i < w.n
    ensures HomeCol(w, haversineKm)[i] == Number(0.0) || HomeCol(w, haversineKm)[i] == Number(1.0)
    ensures HomeCol(w, haversineKm)[i] == Number(0.0) <==>
              Get(w, Data, i) != Blank
              && exists j :: 0 <= j < w.n && Get(w, Data, j) == Get(w, Data, i) && PlayedAway(w, haversineKm, j)
  {
    var dates := Atoms(Column(w, Data));
    var status := Values(StatusCol(w, haversineKm));
    forall j | 0 <= j < w.n
      ensures status[j] in {Some(0.0), Some(1.0), None}
      ensures status[j] == Some(0.0) <==> PlayedAway(w, haversineKm, j)
      ensures dates[j] == dates[i] <==> Get(w, Data, j) == Get(w, Data, i)
    {
      StatusOfRow(w, haversineKm, j);
    }
    HomeFlagRule(dates, status, i);
  }

  /** Filling the counters with 0 does not change HIA: it is the sum of the workbook's five
      counters, an empty or absent one counting 0. */
  lemma HiaColMeaning(w: Table, i: nat)
    requires Valid(w) && i < w.n
    ensures HiaCol(w)[i] == Number(HiaAt(w, i))
  {
    var u := LoadedRead(w);
    forall p | p in HiaParts ensures Metric(Get(u, p, i)) == Metric(Get(w, p, i)) {
      assert Filled(p) && p != Latitude && p != Longitude;
    }
    assert V4Eff in HiaParts && V5Eff in HiaParts && V6Eff in HiaParts && Acc3Eff in HiaParts && Dec3Eff in HiaParts;
  }

  /** 'Min_Num' is the workbook's 'Interval' read as a number, 0 when empty or not a number. */
  lemma MinuteColMeaning(w: Table, i: nat)
    requires Valid(w) && i < w.n
    ensures MinuteCol(w)[i] == Number(NumericOr0(Get(w, Interval, i)))
  {
    assert LoadedColumn(w, Interval)[i] == FillCell(Get(w, Interval, i));
  }

  /** 'Diff_Gols' is the sign of the workbook's score, 0 when the cell or the column is
      missing. */
  lemma DiffColMeaning(w: Table, i: nat)
    requires Valid(w) && i < w.n
    ensures DiffCol(w)[i] == Number(DiffOf(Get(w, Placar, i)) as real)
  {
  }

  /** Row by row, the derived cells of the loaded table in terms of the workbook. */
  lemma LoadedRowMeaning(w: Table, haversineKm: (real, real) -> real, df: Table, i: nat)
    requires Valid(w) && LoadedTable(w, haversineKm, df) && i < w.n
    ensures Get(df, HIA, i) == Number(HiaAt(w, i))
    ensures Get(df, MinNum, i) == Number(NumericOr0(Get(w, Interval, i)))
    ensures Get(df, DiffGols, i) == Number(DiffOf(Get(w, Placar, i)) as real)
    ensures Get(df, JogouEmCasa, i) == Number(0.0) <==>
              Get(w, Data, i) != Blank
              && exists j :: 0 <= j < w.n && Get(w, Data, j) == Get(w, Data, i) && PlayedAway(w, haversineKm, j)
  {
    HiaColMeaning(w, i);
    MinuteColMeaning(w, i);
    DiffColMeaning(w, i);
    HomeColMeaning(w, haversineKm, i);
  }

  // ---------------------------------------------------------------------------
  // When the load succeeds.

  /** The metric columns `fillna` needs are read exactly when the workbook has them. */
  lemma FilledPresent(w: Table, k: set<Col>)
    requires k == ReadSet(w) + HomeCols
    ensures (forall c :: Filled(c) ==> c in k) <==> (forall c :: Filled(c) ==> c in w.cols)
  {
    NotRead(w);
    if forall c :: Filled(c) ==> c in k {
      forall c | Filled(c) ensures c in w.cols {
        assert c !in HomeCols;
      }
    }
  }

  /** The group keys of the loaded table are complete exactly when no row of the workbook
      lacks its name or its day: the period was filled. */
  lemma LoadedKeysComplete(w: Table, df: Table)
    requires Valid(w) && Valid(df) && df.n == w.n && Name in w.cols && Data in w.cols && Periodo in w.cols
    requires Name in df.cols && Data in df.cols && Periodo in df.cols
    requires df.cols[Name] == w.cols[Name] && df.cols[Data] == w.cols[Data]
    requires df.cols[Periodo] == FillColumn(w.cols[Periodo])
    ensures KeysComplete(Rows(df)) <==> forall i :: 0 <= i < w.n ==> Get(w, Name, i) != Blank && Get(w, Data, i) != Blank
  {
    var rows := Rows(df);
    forall i | 0 <= i < w.n
      ensures Missing !in GroupKey(rows[i]) <==> Get(w, Name, i) != Blank && Get(w, Data, i) != Blank
    {
      var key := GroupKey(rows[i]);
      assert key == [AtomOf(Get(df, Name, i)), AtomOf(Get(df, Data, i)), AtomOf(Get(df, Periodo, i))];
      assert Get(df, Periodo, i) != Blank;
    }
  }

  /** The key columns of the loaded table. */
  lemma LoadedKeyColumns(w: Table, haversineKm: (real, real) -> real, df: Table)
    requires Valid(w) && LoadedTable(w, haversineKm, df) && Name in w.cols && Data in w.cols && Periodo in w.cols
    ensures Valid(df) && df.n == w.n && Name in df.cols && Data in df.cols && Periodo in df.cols
    ensures df.cols[Name] == w.cols[Name] && df.cols[Data] == w.cols[Data]
    ensures df.cols[Periodo] == FillColumn(w.cols[Periodo])
  {
    assert Name in ReadSet(w) && Data in ReadSet(w) && Periodo in ReadSet(w);
  }

  /** With every column it needs, the workbook gets through steps 2 to 4 with both
      coordinates, and `fillna` finds its columns. */
  lemma MarkSucceeds(w: Table, haversineKm: (real, real) -> real) returns (m: Table)
    requires Valid(w) && HasColumns(w.cols.Keys)
    ensures Mark(w, haversineKm) == Some(m) && FillZero(m, Filled).Some?
    ensures Data in m.cols && Adversario in m.cols && Name in m.cols
  {
    var t := ReadOf(w);
    assert Filled(Latitude) && Filled(Longitude);
    assert Latitude in t.cols && Longitude in t.cols && Data in t.cols;
    m := WithHome(t, haversineKm);
    FilledPresent(w, m.cols.Keys);
  }

  /** Steps 5 and 6 fail only on a missing column or a text counter. */
  lemma DeriveSucceeds(m: Table) returns (df: Table)
    requires Valid(m) && FillZero(m, Filled).Some? && Data in m.cols && Adversario in m.cols && Name in m.cols
    requires NoText(m, HiaParts)
    ensures Derive(m) == Some(df)
  {
    FilledFound(m);
    FillKeepsText(m, Filled, HiaParts);
    var f := FillZero(m, Filled).value;
    df := ScoredSucceeds(f);
  }

  /** Steps 5 and 6 on a filled table with the columns they read. */
  lemma ScoredSucceeds(f: Table) returns (df: Table)
    requires Valid(f) && Interval in f.cols && Data in f.cols && Adversario in f.cols && Name in f.cols
    ensures var s := WithScores(f); Data in s.cols && Adversario in s.cols && WithMinute(s) == Some(df)
    ensures Name in df.cols
  {
    df := WithMinute(WithScores(f)).value;
  }

  /** The load succeeds exactly when the workbook has every column it needs, every row its
      name and its day, and numbers or empty cells in the columns it adds up. */
  lemma LoadSucceedsIff(w: Table, haversineKm: (real, real) -> real)
    requires Valid(w)
    ensures Load(w, haversineKm).Some? <==> LoadSucceeds(w)
  {
    if Load(w, haversineKm).Some? {
      var (df, records) := Load(w, haversineKm).value;
      LoadNeeds(w, haversineKm, df, records);
    } else if LoadSucceeds(w) {
      var df, records := LoadGets(w, haversineKm);
    }
  }

  /** A load that succeeds had every column and every key. */
  lemma LoadNeeds(w: Table, haversineKm: (real, real) -> real, df: Table, records: Records)
    requires Valid(w) && Load(w, haversineKm) == Some((df, records))
    ensures LoadSucceeds(w)
  {
    LoadNeedsColumns(w, haversineKm, df, records);
    KeyColumnsNeeded(w.cols.Keys);
    LoadIsLoadedTable(w, haversineKm, df, records);
    LoadedKeyColumns(w, haversineKm, df);
    LoadedKeysComplete(w, df);
    assert RecordTable(df, MinNum).Some?;
    LoadedRecordText(w, haversineKm, df);
    LoadNeedsText(w, haversineKm, df, records);
  }

  /** A load that succeeds found no text among the HIA counters. */
  lemma LoadNeedsText(w: Table, haversineKm: (real, real) -> real, df: Table, records: Records)
    requires Valid(w) && Load(w, haversineKm) == Some((df, records))
    ensures NoText(w, HiaParts)
  {
    var t, m, f, s := LoadTrace(w, haversineKm, df, records);
    FillKeepsText(m, Filled, HiaParts);
    MarkedText(w, haversineKm, m);
  }

  /** A load that succeeds found every column it reads. */
  lemma LoadNeedsColumns(w: Table, haversineKm: (real, real) -> real, df: Table, records: Records)
    requires Valid(w) && Load(w, haversineKm) == Some((df, records))
    ensures HasColumns(w.cols.Keys)
  {
    var t, m, f, s := LoadTrace(w, haversineKm, df, records);
    FilledPresent(w, m.cols.Keys);
    LoadIsLoadedTable(w, haversineKm, df, records);
    NeededIn(w, df.cols.Keys, Name);
    NeededIn(w, df.cols.Keys, Adversario);
  }

  /** The key columns are among the ones a load needs. */
  lemma KeyColumnsNeeded(k: set<Col>)
    requires HasColumns(k)
    ensures Name in k && Data in k && Periodo in k
  {
    assert Filled(Periodo);
  }

  /** A needed column of the loaded table came from the workbook. */
  lemma NeededIn(w: Table, k: set<Col>, c: Col)
    requires k == LoadedColumns(w) && c in k && Needed(c)
    ensures c in w.cols
  {
    NotRead(w);
  }

  /** A workbook with every column and every key loads. */
  lemma LoadGets(w: Table, haversineKm: (real, real) -> real) returns (df: Table, records: Records)
    requires Valid(w) && LoadSucceeds(w)
    ensures Load(w, haversineKm) == Some((df, records))
  {
    var m := MarkSucceeds(w, haversineKm);
    MarkedText(w, haversineKm, m);
    df := DeriveSucceeds(m);
    DerivedHasRecords(w, haversineKm, m, df);
    records := RecordTable(df, MinNum).value;
  }

  /** A read metric column holds text exactly where the workbook's does: cleaning leaves it
      alone and `fillna` keeps it. */
  lemma LoadedText(w: Table, t: Table, cols: seq<Col>)
    requires Valid(w) && Valid(t) && t.n == w.n && HoldsLoaded(w, t)
    requires forall c :: c in cols ==> Filled(c) && c != Latitude && c != Longitude
    requires forall c :: c in t.cols && Needed(c) ==> c in w.cols
    ensures NoText(t, cols) <==> NoText(w, cols)
  {
    forall c, i | c in cols && c in w.cols && 0 <= i < w.n
      ensures c in t.cols && (t.cols[c][i].Str? <==> w.cols[c][i].Str?)
    {
      assert c in ReadSet(w);
      assert t.cols[c][i] == FillCell(w.cols[c][i]);
    }
  }

  /** A cleaned column other than a coordinate holds the workbook's cells. */
  lemma CleanedText(w: Table, t: Table, cols: seq<Col>)
    requires Valid(w) && Valid(t) && t.n == w.n && HoldsCleaned(w, t)
    requires forall c :: c in cols ==> Needed(c) && c != Latitude && c != Longitude
    requires forall c :: c in t.cols && Needed(c) ==> c in w.cols
    ensures NoText(t, cols) <==> NoText(w, cols)
  {
    forall c, i | c in cols && c in w.cols && 0 <= i < w.n
      ensures c in t.cols && t.cols[c][i] == w.cols[c][i]
    {
      assert c in ReadSet(w);
    }
  }

  /** The HIA counters and the record metrics are filled columns the cleaning leaves alone. */
  lemma SummedFilled()
    ensures forall c :: c in HiaParts ==> Filled(c) && c != Latitude && c != Longitude
    ensures forall c :: c in RecordMetrics ==> Filled(c) && c != Latitude && c != Longitude
  {
  }

  /** The needed columns of a table with the loaded columns are the read ones. */
  lemma NeededRead(w: Table, k: set<Col>)
    requires k <= LoadedColumns(w)
    ensures forall c :: c in k && Needed(c) ==> c in w.cols
  {
  }

  /** The loaded table holds text in its record columns exactly where the workbook's record
      metrics do. */
  lemma LoadedRecordText(w: Table, haversineKm: (real, real) -> real, df: Table)
    requires Valid(w) && LoadedTable(w, haversineKm, df)
    ensures NoText(df, RecordCols) <==> NoText(w, RecordMetrics)
  {
    RecordText(df, LoadedRead(w));
    NeededRead(w, df.cols.Keys);
    SummedFilled();
    LoadedText(w, df, RecordMetrics);
  }

  /** Steps 2 to 4 leave the HIA counters as the workbook holds them. */
  lemma MarkedText(w: Table, haversineKm: (real, real) -> real, m: Table)
    requires Valid(w) && Mark(w, haversineKm) == Some(m) && FillZero(m, Filled).Some?
    ensures NoText(m, HiaParts) <==> NoText(w, HiaParts)
  {
    MarkedFacts(w, haversineKm, m);
    NeededRead(w, m.cols.Keys);
    SummedFilled();
    CleanedText(w, m, HiaParts);
  }

  /** What steps 2 to 4 keep, when `fillna` accepts their table. */
  lemma MarkedFacts(w: Table, haversineKm: (real, real) -> real, m: Table)
    requires Valid(w) && Mark(w, haversineKm) == Some(m) && FillZero(m, Filled).Some?
    ensures Valid(m) && m.n == w.n && m.cols.Keys == ReadSet(w) + HomeCols && HoldsCleaned(w, m)
  {
    MarkTrace(w, haversineKm, m);
    MarkedColumns(w, haversineKm, ReadOf(w));
  }

  /** What steps 2 to 6 make of such a workbook has complete keys and no text in its record
      columns, so its records can be built. */
  lemma DerivedHasRecords(w: Table, haversineKm: (real, real) -> real, m: Table, df: Table)
    requires Valid(w) && LoadSucceeds(w) && Mark(w, haversineKm) == Some(m) && Derive(m) == Some(df)
    ensures Valid(df) && KeysComplete(Rows(df)) && NoText(df, RecordCols)
  {
    KeyColumnsNeeded(w.cols.Keys);
    DerivedIsLoadedTable(w, haversineKm, m, df);
    LoadedKeyColumns(w, haversineKm, df);
    LoadedKeysComplete(w, df);
    LoadedRecordText(w, haversineKm, df);
  }

  /** HIA over the filled table is HIA over the loaded read columns. */
  lemma HiaOfLoaded(w: Table, f: Table)
    requires Valid(w) && Valid(f) && f.n == w.n && f.cols.Keys == ReadSet(w) + HomeCols
    requires HoldsLoaded(w, f)
    ensures HiaColumn(f) == HiaCol(w)
  {
    var u := LoadedRead(w);
    forall p | p in HiaParts ensures (p in f.cols <==> p in u.cols) && (p in f.cols ==> f.cols[p] == u.cols[p]) {
    }
    forall i | 0 <= i < f.n ensures HiaAt(f, i) == HiaAt(u, i) {
      HiaSameParts(f, i, u, i);
    }
  }

  // ---------------------------------------------------------------------------
  // The methods.

  /** Steps 2 and 3. */
  method ReadSheet(w: Table) returns (t: Table)
    requires Valid(w)
    ensures t == ReadOf(w)
  {
    t := ReadColumns(w, Needed);
    t := CleanCoordinates(t);
  }

  /** `for col in ['Latitude', 'Longitude']: if col in df.columns: df[col] = ...`. */
  method CleanCoordinates(t: Table) returns (r: Table)
    requires Valid(t)
    ensures r == CleanCoords(t)
  {
    r := t;
    var coords := [Latitude, Longitude];
    for k := 0 to |coords|
      invariant Valid(r) && r.n == t.n && r.cols.Keys == t.cols.Keys
      invariant forall c :: c in r.cols ==> r.cols[c] == if c in coords[..k] then CoordinateColumn(t.cols[c]) else t.cols[c]
    {
      if coords[k] in r.cols {
        r := WithColumn(r, coords[k], CoordinateColumn(r.cols[coords[k]]));
      }
    }
    assert coords[..|coords|] == coords;
    assert r.cols == CleanCoords(t).cols;
  }

  /** Step 4 with both coordinates, one column after the other. */
  method MarkHome(t: Table, haversineKm: (real, real) -> real) returns (r: Table)
    requires Valid(t) && Latitude in t.cols && Longitude in t.cols && Data in t.cols
    ensures r == WithHome(t, haversineKm)
  {
    r := WithDistance(t, haversineKm);
    r := WithStatus(r);
    r := WithHomeFlag(r);
  }

  /** Steps 5 (HIA) and 6 ('Diff_Gols'). */
  method AddScores(t: Table) returns (r: Table)
    requires Valid(t)
    ensures r == WithScores(t)
  {
    r := WithHia(t);
    r := WithDiff(r);
  }

  /** Steps 2 to 4. */
  method MarkSheet(w: Table, haversineKm: (real, real) -> real) returns (r: Option<Table>)
    requires Valid(w)
    ensures r == Mark(w, haversineKm)
  {
    var df := ReadSheet(w);
    if Latitude in df.cols && Longitude in df.cols {
      if Data !in df.cols {
        return None;
      }
      df := MarkHome(df, haversineKm);
    } else {
      df := WithColumn(df, JogouEmCasa, seq(df.n, _ => Number(1.0)));
    }
    return Some(df);
  }

  /** Step 6's 'Min_Num'. */
  method AddMinute(t: Table) returns (r: Option<Table>)
    requires Valid(t)
    ensures r == WithMinute(t)
  {
    var minute := if IntervalMin in t.cols then IntervalMin else Interval;
    if minute !in t.cols {
      return None;
    }
    return Some(WithColumn(t, MinNum, NumericColumn(t.cols[minute])));
  }

  /** Steps 5 and 6 and the check on 'Name'. */
  method DeriveColumns(t: Table) returns (r: Option<Table>)
    requires Valid(t)
    ensures r == Derive(t)
  {
    var filled := FillZero(t, Filled);
    if filled.None? {
      return None;
    }
    if !NoText(filled.value, HiaParts) {
      return None;
    }
    var df := AddScores(filled.value);
    if Data !in df.cols || Adversario !in df.cols {
      return None;
    }
    var withMinute := AddMinute(df);
    if withMinute.None? {
      return None;
    }
    df := withMinute.value;
    if Name !in df.cols {
      return None;
    }
    return Some(df);
  }

  /** `_load_data_logic`: the workbook `w` is what `read_excel` returns before `usecols`;
      copying and reading the file are not modelled.  On success the result is the loaded
      table and its records; on any failure two empty tables. */
  method LoadDataLogic(w: Table, haversineKm: (real, real) -> real) returns (df: Table, records: Records)
    requires Valid(w)
    ensures LoadSucceeds(w) ==> Load(w, haversineKm) == Some((df, records))
    ensures !LoadSucceeds(w) ==> df == EmptyTable && records == map[]
  {
    LoadSucceedsIff(w, haversineKm);
    df, records := EmptyTable, map[];
    var marked := MarkSheet(w, haversineKm);
    if marked.None? {
      return;
    }
    var derived := DeriveColumns(marked.value);
    if derived.None? {
      return;
    }
    var rec := RecordTable(derived.value, MinNum);
    if rec.None? {
      return;
    }
    df, records := derived.value, rec.value;
  }
}
