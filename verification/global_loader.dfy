/** `load_global_data` of the application's own loader (ADF_Online/data_loader.py): reads the
    needed columns of the workbook, fills the metric columns with 0, adds HIA and builds the
    per-athlete table of five-minute records.  Any exception yields two empty tables.  Unlike
    the ingestion package's loader it reads no GPS columns, marks no home games and sorts the
    records by the raw 'Interval'. */
module GlobalLoader {
  import opened Common
  import opened Ordering
  import opened Sheet

  /** Membership in the application's `COLUNAS_NECESSARIAS`: the ingestion package's list
      without the two GPS coordinates. */
  predicate Needed(c: Col)
  {
    match c
    case Name | Data | Interval | Periodo | Placar | Resultado | Adversario
      | TotalDistance | V4Dist | V5Dist | V4Eff | V5Eff | V6Eff | Acc3Eff | Dec3Eff | PlayerLoad
      | Parte15 | Parte5 | Parte3 | Competicao | MetabolicPower => true
    case _ => false
  }

  /** Membership in `COLS_NAO_METRICAS`. */
  predicate NonMetric(c: Col)
  {
    match c
    case Data | Name | Adversario | Competicao | Placar | Resultado | Parte15 | Parte5 | Parte3 => true
    case _ => false
  }

  /** Membership in `COLS_METRICAS_PREENCHER_ZERO`. */
  predicate Filled(c: Col)
  {
    Needed(c) && !NonMetric(c)
  }

  /** The filled columns are the minute, the period and the ten metrics. */
  lemma FilledColumnsAre()
    ensures forall c :: Filled(c) <==> c in {Interval, Periodo, TotalDistance, V4Dist, V5Dist, V4Eff, V5Eff,
                                              V6Eff, Acc3Eff, Dec3Eff, PlayerLoad, MetabolicPower}
  {
  }

  /** What `load_global_data` returns for the workbook `w`, `None` where it raises: `fillna`
      on a missing metric column, HIA over a counter holding text, 'Data_Display' without
      'Data' or 'Adversário', `sort_values` without 'Name', the rolling sum over a record
      metric holding text, or the assignment of the names back when a key cell is empty. */
  function Load(w: Table): Option<(Table, Records)>
    requires Valid(w)
  {
    match FillZero(ReadColumns(w, Needed), Filled)
    case None => None
    case Some(f) =>
      if !NoText(f, HiaParts) then None
      else
        var df := WithHia(f);
        if Data !in df.cols || Adversario !in df.cols || Name !in df.cols then None
        else
          match RecordTable(df, Interval)
          case None => None
          case Some(records) => Some((df, records))
  }

  /** The columns `read_excel` keeps. */
  function ReadSet(w: Table): set<Col>
  {
    set c | c in w.cols && Needed(c)
  }

  /** Column `c` of the workbook as the loaded table holds it: filled with 0 when it is a
      metric. */
  function LoadedColumn(w: Table, c: Col): seq<Cell>
    requires c in w.cols
  {
    if Filled(c) then FillColumn(w.cols[c]) else w.cols[c]
  }

  /** The read columns, each as the loaded table holds it. */
  predicate HoldsLoaded(w: Table, t: Table)
  {
    forall c :: c in ReadSet(w) ==> c in w.cols && c in t.cols && t.cols[c] == LoadedColumn(w, c)
  }

  /** The loaded table, column by column, from the workbook alone: the read columns, the
      metric ones filled with 0, and HIA as the workbook's own counters give it. */
  predicate LoadedTable(w: Table, df: Table)
    requires Valid(w)
  {
    && Valid(df) && df.n == w.n && df.cols.Keys == ReadSet(w) + {HIA}
    && HoldsLoaded(w, df)
    && df.cols[HIA] == HiaColumn(w)
  }

  /** The load succeeds when the workbook has every filled column, the day, the opponent and
      the name, no row lacks its name or its day, and no HIA counter or record metric holds
      text. */
  predicate LoadSucceeds(w: Table)
    requires Valid(w)
  {
    && (forall c :: Filled(c) ==> c in w.cols)
    && Data in w.cols && Adversario in w.cols && Name in w.cols
    && (forall i :: 0 <= i < w.n ==> w.cols[Name][i] != Blank && w.cols[Data][i] != Blank)
    && NoText(w, HiaParts) && NoText(w, RecordMetrics)
  }

  /** `fillna` over the read columns gives each read column as loaded. */
  lemma FilledRead(w: Table, f: Table)
    requires Valid(w) && FillZero(ReadColumns(w, Needed), Filled) == Some(f)
    ensures Valid(f) && f.n == w.n && f.cols.Keys == ReadSet(w) && HoldsLoaded(w, f)
  {
  }

  /** A read metric column holds text exactly where the workbook's does: `fillna` keeps it. */
  lemma LoadedText(w: Table, t: Table, cols: seq<Col>)
    requires Valid(w) && Valid(t) && t.n == w.n && HoldsLoaded(w, t)
    requires forall c :: c in cols ==> Filled(c) && (c in t.cols ==> c in w.cols)
    ensures NoText(t, cols) <==> NoText(w, cols)
  {
    forall c, i | c in cols && c in w.cols && 0 <= i < w.n
      ensures c in t.cols && (t.cols[c][i].Str? <==> w.cols[c][i].Str?)
    {
      assert c in ReadSet(w);
      assert t.cols[c][i] == FillCell(w.cols[c][i]);
    }
  }

  /** The filled table holds text in its HIA counters exactly where the workbook does. */
  lemma FilledText(w: Table, f: Table)
    requires Valid(w) && FillZero(ReadColumns(w, Needed), Filled) == Some(f)
    ensures NoText(f, HiaParts) <==> NoText(w, HiaParts)
  {
    FilledRead(w, f);
    LoadedText(w, f, HiaParts);
  }

  /** The loaded table holds text in its record columns exactly where the workbook's record
      metrics do. */
  lemma LoadedRecordText(w: Table, df: Table)
    requires Valid(w) && LoadedTable(w, df)
    ensures NoText(df, RecordCols) <==> NoText(w, RecordMetrics)
  {
    RecordText(df, w);
    LoadedText(w, df, RecordMetrics);
  }

  /** Filling with 0 does not change HIA: an empty counter counts 0 either way. */
  lemma FillKeepsHia(w: Table, f: Table)
    requires Valid(w) && Valid(f) && f.n == w.n && f.cols.Keys == ReadSet(w) && HoldsLoaded(w, f)
    ensures HiaColumn(f) == HiaColumn(w)
  {
    forall i, p | 0 <= i < w.n && p in HiaParts ensures Metric(Get(f, p, i)) == Metric(Get(w, p, i)) {
      assert Needed(p) && Filled(p);
      if p in w.cols {
        assert p in ReadSet(w);
      }
    }
    assert V4Eff in HiaParts && V5Eff in HiaParts && V6Eff in HiaParts && Acc3Eff in HiaParts && Dec3Eff in HiaParts;
  }

  /** Adding HIA keeps the read columns. */
  lemma HiaKeepsRead(w: Table, f: Table)
    requires Valid(f) && f.cols.Keys == ReadSet(w) && HoldsLoaded(w, f)
    ensures WithHia(f).cols.Keys == ReadSet(w) + {HIA} && HoldsLoaded(w, WithHia(f))
  {
    assert !Needed(HIA);
  }

  /** The table filled and given its HIA is the loaded table. */
  lemma FilledIsLoaded(w: Table, f: Table)
    requires Valid(w) && FillZero(ReadColumns(w, Needed), Filled) == Some(f)
    ensures LoadedTable(w, WithHia(f))
  {
    FilledRead(w, f);
    FillKeepsHia(w, f);
    HiaKeepsRead(w, f);
  }

  /** Whatever the load returns is the loaded table and its records. */
  lemma LoadIsLoadedTable(w: Table, df: Table, records: Records)
    requires Valid(w) && Load(w) == Some((df, records))
    ensures LoadedTable(w, df) && RecordTable(df, Interval) == Some(records)
  {
    FilledIsLoaded(w, FillZero(ReadColumns(w, Needed), Filled).value);
  }

  /** The group keys of the loaded table are complete exactly when no row of the workbook
      lacks its name or its day: the period was filled. */
  lemma LoadedKeysComplete(w: Table, df: Table)
    requires Valid(w) && LoadedTable(w, df) && Name in w.cols && Data in w.cols && Periodo in w.cols
    ensures KeysComplete(Rows(df)) <==> forall i :: 0 <= i < w.n ==> w.cols[Name][i] != Blank && w.cols[Data][i] != Blank
  {
    assert Name in ReadSet(w) && Data in ReadSet(w) && Periodo in ReadSet(w);
    assert Filled(Periodo) && !Filled(Name) && !Filled(Data);
    assert df.cols[Periodo] == FillColumn(w.cols[Periodo]);
    var rows := Rows(df);
    forall i | 0 <= i < w.n
      ensures Missing !in GroupKey(rows[i]) <==> w.cols[Name][i] != Blank && w.cols[Data][i] != Blank
    {
      var key := GroupKey(rows[i]);
      assert key == [AtomOf(Get(df, Name, i)), AtomOf(Get(df, Data, i)), AtomOf(Get(df, Periodo, i))];
      assert Get(df, Periodo, i) != Blank;
    }
  }

  /** The load succeeds exactly when the workbook has every column it needs, every row its
      name and its day, and numbers or empty cells in the columns it adds up. */
  lemma LoadSucceedsIff(w: Table)
    requires Valid(w)
    ensures Load(w).Some? <==> LoadSucceeds(w)
  {
    if Load(w).Some? {
      LoadNeeds(w);
    } else if LoadSucceeds(w) {
      LoadGets(w);
    }
  }

  /** A load that succeeds had every column and every key. */
  lemma LoadNeeds(w: Table)
    requires Valid(w) && Load(w).Some?
    ensures LoadSucceeds(w)
  {
    var (df, records) := Load(w).value;
    LoadIsLoadedTable(w, df, records);
    FilledFound(w);
    LoadedKeysComplete(w, df);
    FilledText(w, FillZero(ReadColumns(w, Needed), Filled).value);
    LoadedRecordText(w, df);
  }

  /** A successful `fillna` found every metric column, among them the period. */
  lemma FilledFound(w: Table)
    requires Valid(w) && FillZero(ReadColumns(w, Needed), Filled).Some?
    ensures (forall c :: Filled(c) ==> c in w.cols) && Periodo in w.cols
  {
    assert Filled(Periodo);
  }

  /** A workbook with every column and every key loads. */
  lemma LoadGets(w: Table)
    requires Valid(w) && LoadSucceeds(w)
    ensures Load(w).Some?
  {
    var f := FillFinds(w);
    FilledIsLoaded(w, f);
    SucceedingKeys(w, WithHia(f));
    FilledText(w, f);
    LoadedRecordText(w, WithHia(f));
  }

  /** The loaded table of such a workbook has the columns the load reads and complete keys. */
  lemma SucceedingKeys(w: Table, df: Table)
    requires Valid(w) && LoadSucceeds(w) && LoadedTable(w, df)
    ensures Data in df.cols && Adversario in df.cols && Name in df.cols && KeysComplete(Rows(df))
  {
    assert Filled(Periodo);
    assert Data in ReadSet(w) && Adversario in ReadSet(w) && Name in ReadSet(w);
    LoadedKeysComplete(w, df);
  }

  /** With every metric column in the workbook, `fillna` finds them. */
  lemma FillFinds(w: Table) returns (f: Table)
    requires Valid(w) && forall c :: Filled(c) ==> c in w.cols
    ensures FillZero(ReadColumns(w, Needed), Filled) == Some(f) && Periodo in w.cols
  {
    assert Filled(Periodo);
    f := FillZero(ReadColumns(w, Needed), Filled).value;
  }

  /** `load_global_data`: the workbook `w` is what `read_excel` returns before `usecols`;
      copying and reading the file are not modelled.  On success the result is the loaded
      table and its records; on any failure two empty tables. */
  method LoadGlobalData(w: Table) returns (df: Table, records: Records)
    requires Valid(w)
    ensures LoadSucceeds(w) ==> Load(w) == Some((df, records))
    ensures !LoadSucceeds(w) ==> df == EmptyTable && records == map[]
  {
    LoadSucceedsIff(w);
    df, records := EmptyTable, map[];
    var t := ReadColumns(w, Needed);
    var filled := FillZero(t, Filled);
    if filled.None? {
      return;
    }
    t := filled.value;
    if !NoText(t, HiaParts) {
      return;
    }
    t := WithColumn(t, HIA, HiaColumn(t));
    if Data !in t.cols || Adversario !in t.cols || Name !in t.cols {
      return;
    }
    var rec := RecordTable(t, Interval);
    if rec.None? {
      return;
    }
    df, records := t, rec.value;
  }
}
