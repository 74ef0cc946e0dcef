/**
 * The stored column metadata of a data source and its grouping by table,
 * shared by the relationship analysis and the ER diagram assembly
 * (`tables_metadata = defaultdict(list)` filled in metadata order).
 */
module SchemaMetadata {
  import opened Common

  /** One stored column record (a DBSchemaMetadata row). */
  datatype ColumnMeta = ColumnMeta(
    tableName: string,
    columnName: string,
    dataType: string,
    columnSize: Option<int>,
    isPrimaryKey: bool,
    isForeignKey: bool,
    referencedTable: Option<string>,
    referencedColumn: Option<string>,
    description: Option<string>)

  /** Both services read the stored records with skip 0 and limit 10000. */
  const MetadataLimit: nat := 10000

  /** The first `limit` stored records, in storage order (`.offset(0).limit(limit)`). */
  function FirstRecords<T>(stored: seq<T>, limit: nat): (r: seq<T>)
    ensures |r| <= limit && |r| <= |stored|
    ensures |stored| <= limit ==> r == stored
    ensures r == stored[..|r|]
  {
    if |stored| <= limit then stored else stored[..limit]
  }

  /**
   * A dict from table name to its column records: the keys in insertion
   * order, and the list of each key.
   */
  datatype Tables = Tables(names: seq<string>, columns: map<string, seq<ColumnMeta>>)

  predicate WellFormed(t: Tables)
  {
    (forall i, j :: 0 <= i < j < |t.names| ==> t.names[i] != t.names[j])
    && t.columns.Keys == set n | n in t.names
  }

  /** The records of table `name`, in metadata order. */
  function ColumnsOf(metas: seq<ColumnMeta>, name: string): (r: seq<ColumnMeta>)
    ensures forall k :: 0 <= k < |r| ==> r[k].tableName == name && r[k] in metas
    decreases |metas|
  {
    if |metas| == 0 then []
    else ColumnsOf(metas[..|metas| - 1], name) + if metas[|metas| - 1].tableName == name then [metas[|metas| - 1]] else []
  }

  /** Appending one record to the dict. */
  function AddRecord(g: Tables, m: ColumnMeta): Tables
  {
    if m.tableName in g.columns then Tables(g.names, g.columns[m.tableName := g.columns[m.tableName] + [m]])
    else Tables(g.names + [m.tableName], g.columns[m.tableName := [m]])
  }

  function GroupTables(metas: seq<ColumnMeta>): (g: Tables)
    ensures WellFormed(g)
    decreases |metas|
  {
    if |metas| == 0 then Tables([], map[])
    else AddRecord(GroupTables(metas[..|metas| - 1]), metas[|metas| - 1])
  }

  /** Some record belongs to table `n`. */
  predicate Occurs(metas: seq<ColumnMeta>, n: string)
  {
    exists i :: 0 <= i < |metas| && metas[i].tableName == n
  }

  /**
   * The dict holds exactly the table names of the records, and under each
   * name that table's records in metadata order.
   */
  lemma {:induction false} GroupTablesFacts(metas: seq<ColumnMeta>)
    ensures var g := GroupTables(metas);
      (forall n :: n in g.columns <==> Occurs(metas, n))
      && (forall n :: n in g.columns ==> g.columns[n] == ColumnsOf(metas, n))
    decreases |metas|
  {
    if |metas| > 0 {
      var init := metas[..|metas| - 1];
      var m := metas[|metas| - 1];
      GroupTablesFacts(init);
      var g := GroupTables(metas);
      var h := GroupTables(init);
      assert g == AddRecord(h, m);
      assert g.columns.Keys == h.columns.Keys + {m.tableName};
      forall n
        ensures n in g.columns <==> Occurs(metas, n)
      {
        if n == m.tableName {
          assert metas[|metas| - 1].tableName == n;
        } else {
          assert metas == init + [m];
          AppendOccurs(init, m, n);
        }
      }
      forall n | n in g.columns
        ensures g.columns[n] == ColumnsOf(metas, n)
      {
        assert ColumnsOf(metas, n) == ColumnsOf(init, n) + if m.tableName == n then [m] else [];
        if n == m.tableName {
          if n in h.columns {
            assert g.columns[n] == h.columns[n] + [m];
          } else {
            assert g.columns[n] == [m];
            ColumnsOfAbsent(init, n);
          }
        } else {
          assert g.columns[n] == h.columns[n];
        }
      }
    }
  }

  lemma ColumnsOfAbsent(metas: seq<ColumnMeta>, n: string)
    requires !Occurs(metas, n)
    ensures ColumnsOf(metas, n) == []
  {
  }

  lemma AppendOccurs(init: seq<ColumnMeta>, m: ColumnMeta, n: string)
    requires m.tableName != n
    ensures Occurs(init + [m], n) <==> Occurs(init, n)
  {
    if exists i :: 0 <= i < |init + [m]| && (init + [m])[i].tableName == n {
      var i :| 0 <= i < |init + [m]| && (init + [m])[i].tableName == n;
      assert init[i] == (init + [m])[i];
    }
    if exists i :: 0 <= i < |init| && init[i].tableName == n {
      var i :| 0 <= i < |init| && init[i].tableName == n;
      assert (init + [m])[i] == init[i];
    }
  }

  /** Where a table name first occurs among the records (|metas| when it does not). */
  function FirstIndex(metas: seq<ColumnMeta>, name: string): (r: nat)
    ensures r <= |metas|
    ensures r < |metas| ==> metas[r].tableName == name
    ensures forall i :: 0 <= i < r ==> metas[i].tableName != name
  {
    if |metas| == 0 then 0
    else if metas[0].tableName == name then 0
    else 1 + FirstIndex(metas[1..], name)
  }

  lemma {:induction false} FirstIndexAppend(init: seq<ColumnMeta>, m: ColumnMeta, name: string)
    ensures FirstIndex(init + [m], name) == if FirstIndex(init, name) < |init| then FirstIndex(init, name)
      else if m.tableName == name then |init| else |init| + 1
    decreases |init|
  {
    if |init| > 0 {
      assert (init + [m])[1..] == init[1..] + [m];
      FirstIndexAppend(init[1..], m, name);
    } else {
      assert (init + [m])[1..] == [];
    }
  }

  /** The tables are listed in order of their first record. */
  lemma {:induction false} GroupTablesFirstSeen(metas: seq<ColumnMeta>)
    ensures var names := GroupTables(metas).names;
      (forall k :: 0 <= k < |names| ==> FirstIndex(metas, names[k]) < |metas|)
      && (forall i, j :: 0 <= i < j < |names| ==> FirstIndex(metas, names[i]) < FirstIndex(metas, names[j]))
    decreases |metas|
  {
    if |metas| > 0 {
      var init := metas[..|metas| - 1];
      var m := metas[|metas| - 1];
      assert metas == init + [m];
      GroupTablesFirstSeen(init);
      GroupTablesFacts(init);
      var before := GroupTables(init).names;
      var names := GroupTables(metas).names;
      assert GroupTables(metas) == AddRecord(GroupTables(init), m);
      assert names == before || names == before + [m.tableName];
      forall k | 0 <= k < |names|
        ensures FirstIndex(metas, names[k]) < |metas|
        ensures k < |before| ==> FirstIndex(metas, names[k]) == FirstIndex(init, names[k])
        ensures k == |before| ==> FirstIndex(metas, names[k]) == |init|
      {
        FirstIndexAppend(init, m, names[k]);
        if k == |before| {
          assert names[k] == m.tableName;
          assert m.tableName !in GroupTables(init).columns;
        }
      }
    }
  }

  /** The grouping loop of both services. */
  method GroupByTable(metas: seq<ColumnMeta>) returns (g: Tables)
    ensures g == GroupTables(metas)
  {
    var names: seq<string> := [];
    var columns: map<string, seq<ColumnMeta>> := map[];
    var i := 0;
    while i < |metas|
      invariant 0 <= i <= |metas|
      invariant GroupTables(metas[..i]) == Tables(names, columns)
    {
      assert metas[..i + 1][..i] == metas[..i];
      var m := metas[i];
      if m.tableName in columns {
        columns := columns[m.tableName := columns[m.tableName] + [m]];
      } else {
        names := names + [m.tableName];
        columns := columns[m.tableName := [m]];
      }
      i := i + 1;
    }
    assert metas[..i] == metas;
    g := Tables(names, columns);
  }
}
