/**
 * Synchronising the column metadata of a MySQL or PostgreSQL data source:
 * the stored records of the source are deleted, then one record is
 * created and committed per catalog column, table by table. The remote
 * catalog is the parameter `remote`; the metadata table is a store whose
 * record list the synchronisation changes.
 */
module DbMetadataSync {
  import opened Common

  /**
   * A sample value as the driver returns it, with its text: strings,
   * numbers, booleans and NULL can be stored in the JSON column
   * `sample_values`; dates, times, Decimals and bytes cannot, and
   * committing them raises.
   */
  datatype SampleValue = JsonSample(text: string) | UnstorableSample(text: string)

  /** Samples the JSON column can store. */
  predicate Storable(values: seq<SampleValue>)
  {
    forall k :: 0 <= k < |values| ==> values[k].JsonSample?
  }

  /** One stored DBSchemaMetadata row. */
  datatype MetadataRecord = MetadataRecord(
    dataSourceId: int,
    dbName: string,
    tableName: string,
    columnName: string,
    dataType: string,
    columnSize: Option<int>,
    isPrimaryKey: bool,
    isForeignKey: bool,
    referencedTable: Option<string>,
    referencedColumn: Option<string>,
    sampleValues: Option<seq<SampleValue>>)

  /** A record as create_metadata commits it, before its size and samples are set. */
  function Unsized(r: MetadataRecord): MetadataRecord
  {
    r.(columnSize := None, sampleValues := None)
  }

  /** The records that do not belong to data source `id`, in order. */
  function WithoutSource(records: seq<MetadataRecord>, id: int): (r: seq<MetadataRecord>)
    ensures forall k :: 0 <= k < |r| ==> r[k].dataSourceId != id && r[k] in records
    ensures forall k :: 0 <= k < |records| && records[k].dataSourceId != id ==> records[k] in r
    decreases |records|
  {
    if |records| == 0 then []
    else
      var last := records[|records| - 1];
      WithoutSource(records[..|records| - 1], id) + (if last.dataSourceId == id then [] else [last])
  }

  /** The metadata table. */
  class MetadataStore {
    var records: seq<MetadataRecord>

    constructor (initial: seq<MetadataRecord>)
      ensures records == initial
    {
      records := initial;
    }

    /** delete_by_data_source: every record of the source is removed and committed. */
    method DeleteBySource(id: int)
      modifies this
      ensures records == WithoutSource(old(records), id)
    {
      var kept: seq<MetadataRecord> := [];
      var i := 0;
      while i < |records|
        invariant 0 <= i <= |records|
        invariant kept == WithoutSource(records[..i], id)
      {
        assert records[..i + 1][..i] == records[..i];
        if records[i].dataSourceId != id {
          kept := kept + [records[i]];
        }
        i := i + 1;
      }
      assert records[..i] == records;
      records := kept;
    }

    /** create_metadata: the record is appended and committed. */
    method Create(r: MetadataRecord)
      modifies this
      ensures records == old(records) + [r]
    {
      records := records + [r];
    }

    /**
     * Setting column_size and sample_values on the record just created and
     * committing: samples the JSON column cannot store make the commit raise,
     * and the record keeps what create_metadata committed.
     */
    method CommitSizeAndSamples(size: Option<int>, samples: seq<SampleValue>) returns (committed: bool)
      requires |records| > 0
      modifies this
      ensures committed == Storable(samples)
      ensures committed ==> records == old(records)[|old(records)| - 1 :=
        old(records)[|old(records)| - 1].(columnSize := size, sampleValues := Some(samples))]
      ensures !committed ==> records == old(records)
    {
      if !Storable(samples) {
        return false;
      }
      var last := records[|records| - 1];
      records := records[|records| - 1 := last.(columnSize := size, sampleValues := Some(samples))];
      committed := true;
    }
  }

  // ---------------------------------------------------------------
  // The catalog of the source database
  // ---------------------------------------------------------------

  /** The type column of the ORM row; `rendered` is how an unsupported type prints. */
  datatype SourceKind = MySqlKind | PostgreSqlKind | OtherKind(rendered: string)

  datatype DataSourceRow = DataSourceRow(id: int, kind: SourceKind, database: string)

  /**
   * A catalog column: MySQL's DESCRIBE gives the name and the type text
   * (`varchar(255)`); PostgreSQL gives the name, the type and
   * character_maximum_length.
   */
  datatype ColumnRow = ColumnRow(name: string, typeText: string, maxLength: Option<int>)

  /** A foreign-key row: the column and what it references (NULLs as None). */
  datatype FkRow = FkRow(column: string, referencedTable: Option<string>, referencedColumn: Option<string>)

  /** What the three catalog queries of a table return. */
  datatype TableInfo = TableInfo(columns: seq<ColumnRow>, primaryKeys: seq<string>, fkRows: seq<FkRow>)

  /**
   * The source database: whether connecting succeeds, the table list (None
   * where listing raises), each table's catalog rows (None where one of its
   * queries raises), the sample query (None where it raises) and str() of
   * the exception that ends a failed synchronisation.
   */
  datatype Remote = Remote(
    connects: bool,
    tables: Option<seq<string>>,
    info: string -> Option<TableInfo>,
    samples: (string, string) -> Option<seq<SampleValue>>,
    errorText: string)

  datatype SyncResult = SyncResult(message: string, status: string, tablesCount: nat, columnsCount: nat)

  // ---------------------------------------------------------------
  // Per-column derivation
  // ---------------------------------------------------------------

  datatype ColumnType = ColumnType(base: string, size: Option<int>)

  /**
   * A MySQL type text: with a `(`, the base type before the first `(` and the
   * size int() of the text up to the first `)` after it; None where that
   * int() raises. Without a `(`, the text itself and no size.
   */
  function ParseColumnType(typeText: string): (r: Option<ColumnType>)
    ensures '(' !in typeText ==> r == Some(ColumnType(typeText, None))
  {
    if '(' in typeText then
      SplitOfSeparator(typeText, '(');
      var parts := Split(typeText, '(');
      match ParseInt(Split(parts[1], ')')[0])
      case Some(n) => Some(ColumnType(parts[0], Some(n)))
      case None => None
    else Some(ColumnType(typeText, None))
  }

  /** `base(n)...` reads back as base type `base` and size n. */
  lemma ParseSizedType(base: string, n: int, rest: string)
    requires '(' !in base
    ensures ParseColumnType(base + "(" + IntToString(n) + ")" + rest) == Some(ColumnType(base, Some(n)))
  {
    NumberOmits(n, '(');
    NumberOmits(n, ')');
    ParseIntOfIntToString(n);
    ParseBracketedType(base, IntToString(n), rest);
  }

  /** Two digit runs around a comma hold no bracket, and int() refuses them. */
  lemma ScaledSizeText(p: string, q: string)
    requires |p| > 0 && |q| > 0 && AllDigits(p) && AllDigits(q)
    ensures var inner := p + "," + q;
      '(' !in inner && ')' !in inner && ParseInt(inner) == None
  {
    var inner := p + "," + q;
    forall k | 0 <= k < |inner|
      ensures inner[k] == ',' || IsDigit(inner[k])
    {
      if k < |p| {
        assert inner[k] == p[k];
      } else if k > |p| {
        assert inner[k] == q[k - |p| - 1];
      }
    }
    assert inner[0] == p[0] && inner[|inner| - 1] == q[|q| - 1] && inner[|p|] == ',';
    ParseIntRejectsInner(inner, |p|);
  }

  /** A sized type with a scale, such as `decimal(10,2)`, makes int() raise. */
  lemma DecimalSizeRaises(base: string, precision: nat, scale: nat)
    requires '(' !in base
    ensures var size := NatToString(precision) + "," + NatToString(scale);
      ParseColumnType(base + "(" + size + ")") == None
  {
    var size := NatToString(precision) + "," + NatToString(scale);
    ScaledSizeText(NatToString(precision), NatToString(scale));
    ParseBracketedType(base, size, "");
    assert base + "(" + size + ")" + "" == base + "(" + size + ")";
  }

  /** `base(inner)...` reads as base type `base` with the size int(inner), None where that raises. */
  lemma ParseBracketedType(base: string, inner: string, rest: string)
    requires '(' !in base && '(' !in inner && ')' !in inner
    ensures ParseColumnType(base + "(" + inner + ")" + rest)
      == (if ParseInt(inner).Some? then Some(ColumnType(base, ParseInt(inner))) else None)
  {
    var text := base + "(" + inner + ")" + rest;
    assert text == base + ['('] + (inner + ")" + rest);
    SplitAfterHead(base, '(', inner + ")" + rest);
    var parts := Split(text, '(');
    assert parts[0] == base;
    assert '(' !in inner + ")";
    SplitHeadAppend(inner + ")", rest, '(');
    assert parts[1] == inner + [')'] + Split(rest, '(')[0];
    SplitAfterHead(inner, ')', Split(rest, '(')[0]);
    assert Split(parts[1], ')')[0] == inner;
    assert '(' in text by {
      assert text[|base|] == '(';
    }
  }

  /** What a foreign-key column references. */
  datatype FkTarget = FkTarget(table: Option<string>, column: Option<string>)

  /** The foreign_keys dict; a later row for the same column overwrites an earlier one. */
  function FkMap(rows: seq<FkRow>): map<string, FkTarget>
    decreases |rows|
  {
    if |rows| == 0 then map[]
    else
      var last := rows[|rows| - 1];
      FkMap(rows[..|rows| - 1])[last.column := FkTarget(last.referencedTable, last.referencedColumn)]
  }

  /**
   * The dict holds exactly the columns of the rows, each with the target of
   * the last row for that column.
   */
  lemma {:induction false} FkMapFacts(rows: seq<FkRow>)
    ensures forall c :: c in FkMap(rows) <==> exists i :: 0 <= i < |rows| && rows[i].column == c
    ensures forall c :: c in FkMap(rows) ==>
      exists i :: 0 <= i < |rows| && rows[i].column == c
        && FkMap(rows)[c] == FkTarget(rows[i].referencedTable, rows[i].referencedColumn)
        && forall j :: i < j < |rows| ==> rows[j].column != c
    decreases |rows|
  {
    if |rows| > 0 {
      var init := rows[..|rows| - 1];
      var last := rows[|rows| - 1];
      FkMapFacts(init);
      forall c
        ensures c in FkMap(rows) <==> exists i :: 0 <= i < |rows| && rows[i].column == c
      {
        if c != last.column && exists i :: 0 <= i < |rows| && rows[i].column == c {
          var i :| 0 <= i < |rows| && rows[i].column == c;
          assert init[i] == rows[i];
        }
        if c in FkMap(init) {
          var i :| 0 <= i < |init| && init[i].column == c;
          assert rows[i] == init[i];
        }
      }
      forall c | c in FkMap(rows)
        ensures exists i :: (0 <= i < |rows| && rows[i].column == c
          && FkMap(rows)[c] == FkTarget(rows[i].referencedTable, rows[i].referencedColumn)
          && forall j :: i < j < |rows| ==> rows[j].column != c)
      {
        if c == last.column {
          assert rows[|rows| - 1].column == c;
        } else {
          var i :| 0 <= i < |init| && init[i].column == c
            && FkMap(init)[c] == FkTarget(init[i].referencedTable, init[i].referencedColumn)
            && forall j :: i < j < |init| ==> init[j].column != c;
          assert rows[i] == init[i];
          assert forall j :: i < j < |rows| ==> rows[j].column != c by {
            forall j | i < j < |rows|
              ensures rows[j].column != c
            {
              if j < |init| {
                assert rows[j] == init[j];
              }
            }
          }
        }
      }
    }
  }

  /** The foreign-key loop. */
  method BuildForeignKeys(rows: seq<FkRow>) returns (m: map<string, FkTarget>)
    ensures m == FkMap(rows)
  {
    m := map[];
    var i := 0;
    while i < |rows|
      invariant 0 <= i <= |rows|
      invariant m == FkMap(rows[..i])
    {
      assert rows[..i + 1][..i] == rows[..i];
      m := m[rows[i].column := FkTarget(rows[i].referencedTable, rows[i].referencedColumn)];
      i := i + 1;
    }
    assert rows[..i] == rows;
  }

  /** The samples, or none where the sample query raises (the error is ignored). */
  function SamplesOf(fetched: Option<seq<SampleValue>>): seq<SampleValue>
  {
    match fetched case Some(values) => values case None => []
  }

  /** The record created for one column. */
  function RecordOf(src: DataSourceRow, table: string, column: string, typ: ColumnType,
                    primaryKeys: seq<string>, fks: map<string, FkTarget>, samples: seq<SampleValue>): MetadataRecord
  {
    MetadataRecord(src.id, src.database, table, column, typ.base, typ.size,
      column in primaryKeys, column in fks,
      if column in fks then fks[column].table else None,
      if column in fks then fks[column].column else None,
      Some(samples))
  }

  /** The column's type: parsed from the text for MySQL, taken as given for PostgreSQL. */
  function TypeOf(kind: SourceKind, col: ColumnRow): Option<ColumnType>
  {
    if kind.MySqlKind? then ParseColumnType(col.typeText) else Some(ColumnType(col.typeText, col.maxLength))
  }

  /** The record of one column; None where deriving it raises. */
  function ColumnRecord(src: DataSourceRow, table: string, info: TableInfo, col: ColumnRow,
                        samples: (string, string) -> Option<seq<SampleValue>>): Option<MetadataRecord>
  {
    match TypeOf(src.kind, col)
    case None => None
    case Some(typ) => Some(RecordOf(src, table, col.name, typ, info.primaryKeys, FkMap(info.fkRows), SamplesOf(samples(table, col.name))))
  }

  /**
   * A record names its source, database, table and column; it is a primary
   * key exactly when the column is listed as one, a foreign key exactly when
   * a foreign-key row names it, and then references that row's target.
   */
  lemma ColumnRecordFacts(src: DataSourceRow, table: string, info: TableInfo, col: ColumnRow,
                          samples: (string, string) -> Option<seq<SampleValue>>)
    ensures ColumnRecord(src, table, info, col, samples).Some? ==>
      var r := ColumnRecord(src, table, info, col, samples).value;
      r.dataSourceId == src.id && r.dbName == src.database && r.tableName == table && r.columnName == col.name
      && (r.isPrimaryKey <==> exists k :: 0 <= k < |info.primaryKeys| && info.primaryKeys[k] == col.name)
      && (r.isForeignKey <==> exists i :: 0 <= i < |info.fkRows| && info.fkRows[i].column == col.name)
      && (!r.isForeignKey ==> r.referencedTable.None? && r.referencedColumn.None?)
    ensures src.kind.PostgreSqlKind? ==>
      ColumnRecord(src, table, info, col, samples) == Some(RecordOf(src, table, col.name, ColumnType(col.typeText, col.maxLength),
        info.primaryKeys, FkMap(info.fkRows), SamplesOf(samples(table, col.name))))
    ensures src.kind.MySqlKind? && '(' !in col.typeText ==>
      ColumnRecord(src, table, info, col, samples) == Some(RecordOf(src, table, col.name, ColumnType(col.typeText, None),
        info.primaryKeys, FkMap(info.fkRows), SamplesOf(samples(table, col.name))))
  {
    FkMapFacts(info.fkRows);
  }

  // ---------------------------------------------------------------
  // The synchronisation
  // ---------------------------------------------------------------

  /** The records created so far, and whether an exception has ended the loop. */
  datatype Gathered = Gathered(records: seq<MetadataRecord>, failed: bool)

  function GatherColumns(g: Gathered, src: DataSourceRow, table: string, info: TableInfo, cols: seq<ColumnRow>,
                         samples: (string, string) -> Option<seq<SampleValue>>): (r: Gathered)
    ensures |g.records| <= |r.records| && r.records[..|g.records|] == g.records
    ensures g.failed ==> r == g
    decreases |cols|
  {
    if |cols| == 0 then g
    else
      var h := GatherColumns(g, src, table, info, cols[..|cols| - 1], samples);
      if h.failed then h
      else ColumnStep(h, src, table, info, cols[|cols| - 1], samples)
  }

  /**
   * One column after the earlier ones: deriving its type may raise before
   * anything is created; otherwise its record is created, and committing
   * its size and samples may raise after that.
   */
  function ColumnStep(h: Gathered, src: DataSourceRow, table: string, info: TableInfo, col: ColumnRow,
                      samples: (string, string) -> Option<seq<SampleValue>>): Gathered
  {
    match ColumnRecord(src, table, info, col, samples)
    case None => Gathered(h.records, true)
    case Some(rec) =>
      if Storable(SamplesOf(samples(table, col.name))) then Gathered(h.records + [rec], false)
      else Gathered(h.records + [Unsized(rec)], true)
  }

  /** A column whose synchronisation raises. */
  predicate ColumnFails(src: DataSourceRow, table: string, info: TableInfo, col: ColumnRow,
                        samples: (string, string) -> Option<seq<SampleValue>>)
  {
    ColumnRecord(src, table, info, col, samples).None? || !Storable(SamplesOf(samples(table, col.name)))
  }

  function GatherTables(src: DataSourceRow, tables: seq<string>, remote: Remote): Gathered
    decreases |tables|
  {
    if |tables| == 0 then Gathered([], false)
    else
      var h := GatherTables(src, tables[..|tables| - 1], remote);
      if h.failed then h
      else match remote.info(tables[|tables| - 1])
        case None => Gathered(h.records, true)
        case Some(info) => GatherColumns(h, src, tables[|tables| - 1], info, info.columns, remote.samples)
  }

  function FailurePrefix(kind: SourceKind): string
  {
    if kind.MySqlKind? then "同步MySQL元数据失败: " else "同步PostgreSQL元数据失败: "
  }

  const SyncedMessage := "元数据同步成功"
  const MissingSourceMessage := "数据源不存在"

  /** The result of a synchronisation and the metadata table afterwards. */
  datatype Outcome = Outcome(result: SyncResult, records: seq<MetadataRecord>)

  function SyncSpec(before: seq<MetadataRecord>, sources: map<int, DataSourceRow>, id: int, remote: Remote): Outcome
  {
    if id !in sources then Outcome(SyncResult(MissingSourceMessage, "error", 0, 0), before)
    else
      var src := sources[id];
      var failure := SyncResult(FailurePrefix(src.kind) + remote.errorText, "error", 0, 0);
      if src.kind.OtherKind? then Outcome(SyncResult("不支持的数据源类型: " + src.kind.rendered, "error", 0, 0), before)
      else if !remote.connects then Outcome(failure, before)
      else if remote.tables.None? then Outcome(failure, WithoutSource(before, src.id))
      else
        var g := GatherTables(src, remote.tables.value, remote);
        var after := WithoutSource(before, src.id) + g.records;
        if g.failed then Outcome(failure, after)
        else Outcome(SyncResult(SyncedMessage, "success", |remote.tables.value|, |g.records|), after)
  }

  /** Columns of the tables whose catalog queries answer. */
  function TotalColumns(tables: seq<string>, info: string -> Option<TableInfo>): nat
    decreases |tables|
  {
    if |tables| == 0 then 0
    else
      var size := match info(tables[|tables| - 1]) case Some(t) => |t.columns| case None => 0;
      TotalColumns(tables[..|tables| - 1], info) + size
  }

  /** Without an exception every column of the table gets a record. */
  lemma {:induction false} GatherColumnsCount(g: Gathered, src: DataSourceRow, table: string, info: TableInfo, cols: seq<ColumnRow>,
                                              samples: (string, string) -> Option<seq<SampleValue>>)
    ensures !GatherColumns(g, src, table, info, cols, samples).failed ==>
      |GatherColumns(g, src, table, info, cols, samples).records| == |g.records| + |cols|
    decreases |cols|
  {
    if |cols| > 0 {
      GatherColumnsCount(g, src, table, info, cols[..|cols| - 1], samples);
    }
  }

  /** Every created record belongs to the source and to one of the listed tables. */
  lemma {:induction false} GatherColumnsOwn(g: Gathered, src: DataSourceRow, table: string, info: TableInfo, cols: seq<ColumnRow>,
                                            samples: (string, string) -> Option<seq<SampleValue>>)
    ensures forall k :: |g.records| <= k < |GatherColumns(g, src, table, info, cols, samples).records| ==>
      GatherColumns(g, src, table, info, cols, samples).records[k].dataSourceId == src.id
      && GatherColumns(g, src, table, info, cols, samples).records[k].tableName == table
    decreases |cols|
  {
    if |cols| > 0 {
      var h := GatherColumns(g, src, table, info, cols[..|cols| - 1], samples);
      GatherColumnsOwn(g, src, table, info, cols[..|cols| - 1], samples);
      var r := GatherColumns(g, src, table, info, cols, samples);
      if !h.failed && ColumnRecord(src, table, info, cols[|cols| - 1], samples).Some? {
        ColumnRecordFacts(src, table, info, cols[|cols| - 1], samples);
        var rec := ColumnRecord(src, table, info, cols[|cols| - 1], samples).value;
        assert r.records == h.records + [rec] || r.records == h.records + [Unsized(rec)];
        forall k | |g.records| <= k < |r.records|
          ensures r.records[k].dataSourceId == src.id && r.records[k].tableName == table
        {
          if k < |h.records| {
            assert r.records[k] == h.records[k];
          }
        }
      }
    }
  }

  /**
   * Without an exception every listed table answered its catalog queries and
   * there is one record per catalog column.
   */
  lemma {:induction false} GatherTablesCount(src: DataSourceRow, tables: seq<string>, remote: Remote)
    ensures !GatherTables(src, tables, remote).failed ==>
      (forall k :: 0 <= k < |tables| ==> remote.info(tables[k]).Some?)
      && |GatherTables(src, tables, remote).records| == TotalColumns(tables, remote.info)
    decreases |tables|
  {
    if |tables| > 0 {
      var init := tables[..|tables| - 1];
      GatherTablesCount(src, init, remote);
      var h := GatherTables(src, init, remote);
      if !h.failed && remote.info(tables[|tables| - 1]).Some? {
        var info := remote.info(tables[|tables| - 1]).value;
        GatherColumnsCount(h, src, tables[|tables| - 1], info, info.columns, remote.samples);
      }
      assert forall k :: 0 <= k < |init| ==> init[k] == tables[k];
    }
  }

  lemma {:induction false} GatherTablesOwn(src: DataSourceRow, tables: seq<string>, remote: Remote)
    ensures forall k :: 0 <= k < |GatherTables(src, tables, remote).records| ==>
      GatherTables(src, tables, remote).records[k].dataSourceId == src.id
      && GatherTables(src, tables, remote).records[k].tableName in tables
    decreases |tables|
  {
    if |tables| > 0 {
      var init := tables[..|tables| - 1];
      var t := tables[|tables| - 1];
      GatherTablesOwn(src, init, remote);
      var h := GatherTables(src, init, remote);
      var r := GatherTables(src, tables, remote);
      assert forall u :: u in init ==> u in tables;
      assert t in tables;
      if !h.failed && remote.info(t).Some? {
        var info := remote.info(t).value;
        GatherColumnsOwn(h, src, t, info, info.columns, remote.samples);
        assert r == GatherColumns(h, src, t, info, info.columns, remote.samples);
        assert forall k :: 0 <= k < |h.records| ==> r.records[k] == h.records[k];
      }
    }
  }

  /** A missing or unsupported source, or a failed connection, changes nothing and reports an error with zero counts. */
  lemma SyncRefused(before: seq<MetadataRecord>, sources: map<int, DataSourceRow>, id: int, remote: Remote)
    requires id !in sources || sources[id].kind.OtherKind? || !remote.connects
    ensures SyncSpec(before, sources, id, remote).records == before
    ensures SyncSpec(before, sources, id, remote).result.status == "error"
    ensures SyncSpec(before, sources, id, remote).result.tablesCount == 0
    ensures SyncSpec(before, sources, id, remote).result.columnsCount == 0
    ensures id !in sources ==> SyncSpec(before, sources, id, remote).result.message == MissingSourceMessage
  {
  }

  /**
   * A successful synchronisation replaces the source's records by one
   * record per catalog column, counting the listed tables and the records.
   */
  lemma SyncSucceeds(before: seq<MetadataRecord>, sources: map<int, DataSourceRow>, id: int, remote: Remote)
    requires SyncSpec(before, sources, id, remote).result.status == "success"
    ensures id in sources && !sources[id].kind.OtherKind? && remote.connects && remote.tables.Some?
    ensures var out := SyncSpec(before, sources, id, remote);
      var cleared := WithoutSource(before, sources[id].id);
      out.result.tablesCount == |remote.tables.value|
      && out.result.columnsCount == TotalColumns(remote.tables.value, remote.info)
      && |out.records| == |cleared| + out.result.columnsCount
      && out.records[..|cleared|] == cleared
      && forall k :: |cleared| <= k < |out.records| ==>
        out.records[k].dataSourceId == sources[id].id && out.records[k].tableName in remote.tables.value
  {
    var out := SyncSpec(before, sources, id, remote);
    assert id in sources;
    var src := sources[id];
    assert !src.kind.OtherKind? && remote.connects && remote.tables.Some?;
    var tables := remote.tables.value;
    var cleared := WithoutSource(before, src.id);
    var g := GatherTables(src, tables, remote);
    assert !g.failed;
    assert out.records == cleared + g.records;
    assert out.result.tablesCount == |tables| && out.result.columnsCount == |g.records|;
    GatherTablesCount(src, tables, remote);
    GatherTablesOwn(src, tables, remote);
    forall k | |cleared| <= k < |out.records|
      ensures out.records[k].dataSourceId == src.id && out.records[k].tableName in tables
    {
      assert out.records[k] == g.records[k - |cleared|];
    }
  }

  /**
   * One column raises exactly when its type cannot be read or its samples
   * cannot be stored; in the first case nothing is created, in the second
   * the record create_metadata committed stays, without size and samples.
   */
  lemma ColumnStepFacts(h: Gathered, src: DataSourceRow, table: string, info: TableInfo, col: ColumnRow,
                        samples: (string, string) -> Option<seq<SampleValue>>)
    ensures var r := ColumnStep(h, src, table, info, col, samples);
      (r.failed <==> ColumnFails(src, table, info, col, samples))
      && (ColumnRecord(src, table, info, col, samples).None? ==> r.records == h.records)
      && (ColumnRecord(src, table, info, col, samples).Some? ==>
            r.records == h.records + [if r.failed then Unsized(ColumnRecord(src, table, info, col, samples).value)
                                      else ColumnRecord(src, table, info, col, samples).value])
  {
  }

  /** The columns of a table raise exactly when one of them does. */
  lemma {:induction false} GatherColumnsFailsIff(g: Gathered, src: DataSourceRow, table: string, info: TableInfo, cols: seq<ColumnRow>,
                                                 samples: (string, string) -> Option<seq<SampleValue>>)
    requires !g.failed
    ensures GatherColumns(g, src, table, info, cols, samples).failed <==>
      exists i :: 0 <= i < |cols| && ColumnFails(src, table, info, cols[i], samples)
    decreases |cols|
  {
    if |cols| > 0 {
      var init := cols[..|cols| - 1];
      GatherColumnsFailsIff(g, src, table, info, init, samples);
      ColumnStepFacts(GatherColumns(g, src, table, info, init, samples), src, table, info, cols[|cols| - 1], samples);
      if exists i :: 0 <= i < |init| && ColumnFails(src, table, info, init[i], samples) {
        var i :| 0 <= i < |init| && ColumnFails(src, table, info, init[i], samples);
        assert cols[i] == init[i];
      }
      if exists i :: 0 <= i < |cols| && ColumnFails(src, table, info, cols[i], samples) {
        var i :| 0 <= i < |cols| && ColumnFails(src, table, info, cols[i], samples);
        if i < |init| {
          assert init[i] == cols[i];
        }
      }
    }
  }

  /** A table whose synchronisation raises: a catalog query, or one of its columns. */
  predicate TableFails(src: DataSourceRow, table: string, remote: Remote)
  {
    match remote.info(table)
    case None => true
    case Some(info) => exists j :: 0 <= j < |info.columns| && ColumnFails(src, table, info, info.columns[j], remote.samples)
  }

  /** The tables raise exactly when one of them does. */
  lemma {:induction false} GatherTablesFailsIff(src: DataSourceRow, tables: seq<string>, remote: Remote)
    ensures GatherTables(src, tables, remote).failed <==> exists i :: 0 <= i < |tables| && TableFails(src, tables[i], remote)
    decreases |tables|
  {
    if |tables| > 0 {
      var init := tables[..|tables| - 1];
      var t := tables[|tables| - 1];
      GatherTablesFailsIff(src, init, remote);
      var h := GatherTables(src, init, remote);
      if !h.failed && remote.info(t).Some? {
        var info := remote.info(t).value;
        GatherColumnsFailsIff(h, src, t, info, info.columns, remote.samples);
      }
      if exists i :: 0 <= i < |init| && TableFails(src, init[i], remote) {
        var i :| 0 <= i < |init| && TableFails(src, init[i], remote);
        assert tables[i] == init[i];
      }
      if exists i :: 0 <= i < |tables| && TableFails(src, tables[i], remote) {
        var i :| 0 <= i < |tables| && TableFails(src, tables[i], remote);
        if i < |init| {
          assert init[i] == tables[i];
        }
      }
    }
  }

  /**
   * A synchronisation succeeds exactly when the source is a MySQL or
   * PostgreSQL source that connects and lists its tables, and no table
   * raises: every catalog query answers, every type size is read by int(),
   * and every sample can be stored in the JSON column.
   */
  lemma SyncSucceedsIff(before: seq<MetadataRecord>, sources: map<int, DataSourceRow>, id: int, remote: Remote)
    ensures SyncSpec(before, sources, id, remote).result.status == "success" <==>
      id in sources && !sources[id].kind.OtherKind? && remote.connects && remote.tables.Some?
      && forall i :: 0 <= i < |remote.tables.value| ==> !TableFails(sources[id], remote.tables.value[i], remote)
  {
    if id in sources && !sources[id].kind.OtherKind? && remote.connects && remote.tables.Some? {
      GatherTablesFailsIff(sources[id], remote.tables.value, remote);
    }
  }

  /**
   * An exception after connecting reports an error with zero counts, yet the
   * source's earlier records are gone and the records committed before the
   * exception stay.
   */
  lemma SyncFailsAfterDelete(before: seq<MetadataRecord>, sources: map<int, DataSourceRow>, id: int, remote: Remote)
    requires id in sources && !sources[id].kind.OtherKind? && remote.connects
    requires SyncSpec(before, sources, id, remote).result.status == "error"
    ensures var out := SyncSpec(before, sources, id, remote);
      var cleared := WithoutSource(before, sources[id].id);
      out.result.tablesCount == 0 && out.result.columnsCount == 0
      && |cleared| <= |out.records| && out.records[..|cleared|] == cleared
      && forall k :: |cleared| <= k < |out.records| ==> out.records[k].dataSourceId == sources[id].id
  {
    var src := sources[id];
    var out := SyncSpec(before, sources, id, remote);
    var cleared := WithoutSource(before, src.id);
    if remote.tables.Some? {
      var g := GatherTables(src, remote.tables.value, remote);
      GatherTablesOwn(src, remote.tables.value, remote);
      assert out.records == cleared + g.records;
      assert forall k :: |cleared| <= k < |out.records| ==> out.records[k] == g.records[k - |cleared|];
    }
  }

  /** One column: its type, then create_metadata, then the commit of its size and samples. */
  method SyncColumn(store: MetadataStore, src: DataSourceRow, table: string, info: TableInfo, fks: map<string, FkTarget>,
                    col: ColumnRow, samples: (string, string) -> Option<seq<SampleValue>>,
                    ghost base: seq<MetadataRecord>, ghost h: Gathered)
      returns (failed: bool, made: nat)
    requires fks == FkMap(info.fkRows) && store.records == base + h.records
    modifies store
    ensures var r := ColumnStep(h, src, table, info, col, samples);
      failed == r.failed && store.records == base + r.records && made == |r.records| - |h.records|
  {
    var typ: ColumnType;
    if src.kind.MySqlKind? {
      var parsed := ParseColumnType(col.typeText);
      if parsed.None? {
        return true, 0;
      }
      typ := parsed.value;
    } else {
      typ := ColumnType(col.typeText, col.maxLength);
    }
    var values := SamplesOf(samples(table, col.name));
    var rec := RecordOf(src, table, col.name, typ, info.primaryKeys, fks, values);
    assert ColumnRecord(src, table, info, col, samples) == Some(rec);
    store.Create(Unsized(rec));
    assert store.records == base + (h.records + [Unsized(rec)]);
    var committed := store.CommitSizeAndSamples(typ.size, values);
    if committed {
      assert Unsized(rec).(columnSize := typ.size, sampleValues := Some(values)) == rec;
      assert store.records == base + (h.records + [rec]);
    }
    failed := !committed;
    made := 1;
  }

  /** The column loop of one table. */
  method SyncColumns(store: MetadataStore, src: DataSourceRow, table: string, info: TableInfo,
                     samples: (string, string) -> Option<seq<SampleValue>>, ghost base: seq<MetadataRecord>, ghost g: Gathered)
      returns (failed: bool, created: nat)
    requires !g.failed && store.records == base + g.records
    modifies store
    ensures var r := GatherColumns(g, src, table, info, info.columns, samples);
      failed == r.failed && store.records == base + r.records && created == |r.records| - |g.records|
  {
    var fks := BuildForeignKeys(info.fkRows);
    var cols := info.columns;
    created := 0;
    var i := 0;
    while i < |cols|
      invariant 0 <= i <= |cols|
      invariant var r := GatherColumns(g, src, table, info, cols[..i], samples);
        !r.failed && store.records == base + r.records && created == |r.records| - |g.records|
    {
      GatherColumnsStep(g, src, table, info, cols, samples, i);
      ghost var h := GatherColumns(g, src, table, info, cols[..i], samples);
      var columnFailed, made := SyncColumn(store, src, table, info, fks, cols[i], samples, base, h);
      created := created + made;
      if columnFailed {
        GatherColumnsStaysFailed(g, src, table, info, cols, samples, i + 1);
        return true, created;
      }
      i := i + 1;
    }
    assert cols[..i] == cols;
    failed := false;
  }

  lemma GatherColumnsStep(g: Gathered, src: DataSourceRow, table: string, info: TableInfo, cols: seq<ColumnRow>,
                          samples: (string, string) -> Option<seq<SampleValue>>, i: nat)
    requires i < |cols|
    ensures var h := GatherColumns(g, src, table, info, cols[..i], samples);
      GatherColumns(g, src, table, info, cols[..i + 1], samples)
      == if h.failed then h else ColumnStep(h, src, table, info, cols[i], samples)
  {
    assert cols[..i + 1][..i] == cols[..i];
  }

  lemma {:induction false} GatherColumnsStaysFailed(g: Gathered, src: DataSourceRow, table: string, info: TableInfo, cols: seq<ColumnRow>,
                                                    samples: (string, string) -> Option<seq<SampleValue>>, i: nat)
    requires i <= |cols| && GatherColumns(g, src, table, info, cols[..i], samples).failed
    ensures GatherColumns(g, src, table, info, cols, samples) == GatherColumns(g, src, table, info, cols[..i], samples)
    decreases |cols| - i
  {
    if i < |cols| {
      assert cols[..i + 1][..i] == cols[..i];
      GatherColumnsStaysFailed(g, src, table, info, cols, samples, i + 1);
    } else {
      assert cols[..i] == cols;
    }
  }

  lemma {:induction false} GatherTablesStaysFailed(src: DataSourceRow, tables: seq<string>, remote: Remote, i: nat)
    requires i <= |tables| && GatherTables(src, tables[..i], remote).failed
    ensures GatherTables(src, tables, remote) == GatherTables(src, tables[..i], remote)
    decreases |tables| - i
  {
    if i < |tables| {
      assert tables[..i + 1][..i] == tables[..i];
      GatherTablesStaysFailed(src, tables, remote, i + 1);
    } else {
      assert tables[..i] == tables;
    }
  }

  /** The table loop after the old records are deleted. */
  method SyncTables(store: MetadataStore, src: DataSourceRow, tables: seq<string>, remote: Remote, ghost base: seq<MetadataRecord>)
      returns (failed: bool, columnsCount: nat)
    requires store.records == base
    modifies store
    ensures var g := GatherTables(src, tables, remote);
      failed == g.failed && store.records == base + g.records && columnsCount == |g.records|
  {
    columnsCount := 0;
    var i := 0;
    while i < |tables|
      invariant 0 <= i <= |tables|
      invariant var g := GatherTables(src, tables[..i], remote);
        !g.failed && store.records == base + g.records && columnsCount == |g.records|
    {
      assert tables[..i + 1][..i] == tables[..i];
      ghost var g := GatherTables(src, tables[..i], remote);
      var info := remote.info(tables[i]);
      if info.None? {
        GatherTablesStaysFailed(src, tables, remote, i + 1);
        return true, columnsCount;
      }
      var tableFailed, created := SyncColumns(store, src, tables[i], info.value, remote.samples, base, g);
      columnsCount := columnsCount + created;
      if tableFailed {
        GatherTablesStaysFailed(src, tables, remote, i + 1);
        return true, columnsCount;
      }
      i := i + 1;
    }
    assert tables[..i] == tables;
    failed := false;
  }

  /** sync_metadata with the MySQL and PostgreSQL synchronisations. */
  method SyncMetadata(store: MetadataStore, sources: map<int, DataSourceRow>, id: int, remote: Remote) returns (result: SyncResult)
    modifies store
    ensures Outcome(result, store.records) == SyncSpec(old(store.records), sources, id, remote)
  {
    if id !in sources {
      return SyncResult(MissingSourceMessage, "error", 0, 0);
    }
    var src := sources[id];
    if src.kind.OtherKind? {
      return SyncResult("不支持的数据源类型: " + src.kind.rendered, "error", 0, 0);
    }
    var failure := SyncResult(FailurePrefix(src.kind) + remote.errorText, "error", 0, 0);
    if !remote.connects {
      return failure;
    }
    store.DeleteBySource(src.id);
    if remote.tables.None? {
      return failure;
    }
    var tables := remote.tables.value;
    var tablesCount := |tables|;
    var failed, columnsCount := SyncTables(store, src, tables, remote, store.records);
    if failed {
      return failure;
    }
    result := SyncResult(SyncedMessage, "success", tablesCount, columnsCount);
  }
}
