/**
 * Inference of the relationships between the tables of a data source
 * from its column metadata: one relationship per declared foreign key,
 * and one per column whose name follows the `<table>_id` convention,
 * unless a foreign key already links the same tables over the same
 * source columns.
 */
module ErRelationship {
  import opened Common
  import opened SchemaMetadata

  datatype RelationshipType = OneToOne | OneToMany | ManyToMany | Undefined

  /** The stored text of a relationship type. */
  function TypeValue(t: RelationshipType): string
  {
    match t
    case OneToOne => "one_to_one"
    case OneToMany => "one_to_many"
    case ManyToMany => "many_to_many"
    case Undefined => "undefined"
  }

  datatype IdentificationMethod = Auto | Manual

  datatype Relationship = Relationship(
    sourceTable: string,
    targetTable: string,
    sourceColumns: seq<string>,
    targetColumns: seq<string>,
    relType: RelationshipType,
    identifiedBy: IdentificationMethod,
    confidence: int,
    description: string)

  predicate EndsWith(s: string, suffix: string)
  {
    |suffix| <= |s| && s[|s| - |suffix|..] == suffix
  }

  /** `_get_singular_form`: `ies` becomes `y`, else one trailing `s` is dropped. */
  function SingularForm(name: string): (r: string)
    ensures |r| <= |name|
  {
    if EndsWith(name, "ies") then name[..|name| - 3] + "y"
    else if EndsWith(name, "s") then name[..|name| - 1]
    else name
  }

  /**
   * The singular of a regular English plural: `-ies` plurals come back
   * to `-y`, other `-s` plurals lose the `s`, and a name without a
   * trailing `s` is its own singular.
   */
  lemma SingularOfPlural(w: string)
    ensures SingularForm(w + "ies") == w + "y"
    ensures !EndsWith(w, "ie") ==> SingularForm(w + "s") == w
    ensures !EndsWith(w, "s") ==> SingularForm(w) == w
  {
    assert (w + "ies")[..|w + "ies"| - 3] == w;
    assert (w + "s")[..|w + "s"| - 1] == w;
    if !EndsWith(w, "ie") && |w| >= 2 {
      assert (w + "s")[|w + "s"| - 3..] == w[|w| - 2..] + "s";
    }
  }

  // ---------------------------------------------------------------
  // Primary keys
  // ---------------------------------------------------------------

  /** The names of the primary-key columns, in column order. */
  function PkColumns(cols: seq<ColumnMeta>): (r: seq<string>)
    ensures |r| <= |cols|
    ensures forall x :: x in r <==> exists c :: c in cols && c.isPrimaryKey && c.columnName == x
    decreases |cols|
  {
    if |cols| == 0 then []
    else
      var c := cols[|cols| - 1];
      assert cols == cols[..|cols| - 1] + [c];
      PkColumns(cols[..|cols| - 1]) + if c.isPrimaryKey then [c.columnName] else []
  }

  /** `pk_info`, filled table by table: only tables with a primary key get an entry. */
  function PkInfo(t: Tables, names: seq<string>): map<string, seq<string>>
    decreases |names|
  {
    if |names| == 0 then map[]
    else
      var n := names[|names| - 1];
      var info := PkInfo(t, names[..|names| - 1]);
      if n in t.columns && |PkColumns(t.columns[n])| > 0 then info[n := PkColumns(t.columns[n])] else info
  }

  /** `pk_info.get(table, [])`. */
  function PkGet(info: map<string, seq<string>>, table: string): seq<string>
  {
    if table in info then info[table] else []
  }

  /** Looking a table up in `pk_info` gives its primary-key columns, or none. */
  lemma {:induction false} PkInfoLookup(t: Tables, names: seq<string>, table: string)
    ensures PkGet(PkInfo(t, names), table) == if table in names && table in t.columns then PkColumns(t.columns[table]) else []
    decreases |names|
  {
    if |names| > 0 {
      var init := names[..|names| - 1];
      PkInfoLookup(t, init, table);
      assert names == init + [names[|names| - 1]];
      assert table in names <==> table in init || table == names[|names| - 1];
    }
  }

  // ---------------------------------------------------------------
  // Foreign-key relationships
  // ---------------------------------------------------------------

  predicate NonEmpty(o: Option<string>)
  {
    o.Some? && |o.value| > 0
  }

  /** A column that declares a foreign key with both of its references set. */
  predicate Declared(c: ColumnMeta)
  {
    c.isForeignKey && NonEmpty(c.referencedTable) && NonEmpty(c.referencedColumn)
  }

  /** The columns of a table that are both a foreign key and part of its primary key. */
  function FkPkCount(cols: seq<ColumnMeta>): nat
    decreases |cols|
  {
    if |cols| == 0 then 0
    else FkPkCount(cols[..|cols| - 1]) + if cols[|cols| - 1].isForeignKey && cols[|cols| - 1].isPrimaryKey then 1 else 0
  }

  function FkType(info: map<string, seq<string>>, table: string, cols: seq<ColumnMeta>, c: ColumnMeta): RelationshipType
    requires Declared(c)
  {
    if FkPkCount(cols) >= 2 then ManyToMany
    else if c.referencedColumn.value in PkGet(info, c.referencedTable.value) && c.columnName in PkGet(info, table) then OneToOne
    else OneToMany
  }

  function FkRelationshipOf(info: map<string, seq<string>>, table: string, cols: seq<ColumnMeta>, c: ColumnMeta): Relationship
    requires Declared(c)
  {
    var target := c.referencedTable.value;
    var targetColumn := c.referencedColumn.value;
    Relationship(table, target, [c.columnName], [targetColumn], FkType(info, table, cols, c), Auto, 100,
      "基于外键约束识别: " + table + "." + c.columnName + " -> " + target + "." + targetColumn)
  }

  /** The relationships of the declared columns among `upto`, a prefix of the table's columns `cols`. */
  function FkOfColumns(info: map<string, seq<string>>, table: string, cols: seq<ColumnMeta>, upto: seq<ColumnMeta>): seq<Relationship>
    decreases |upto|
  {
    if |upto| == 0 then []
    else
      var c := upto[|upto| - 1];
      FkOfColumns(info, table, cols, upto[..|upto| - 1]) + if Declared(c) then [FkRelationshipOf(info, table, cols, c)] else []
  }

  function FkOfTables(t: Tables, info: map<string, seq<string>>, names: seq<string>): seq<Relationship>
    decreases |names|
  {
    if |names| == 0 then []
    else
      var n := names[|names| - 1];
      FkOfTables(t, info, names[..|names| - 1]) + if n in t.columns then FkOfColumns(info, n, t.columns[n], t.columns[n]) else []
  }

  /** `_identify_fk_relationships`. */
  function FkRelationships(t: Tables): seq<Relationship>
  {
    FkOfTables(t, PkInfo(t, t.names), t.names)
  }

  /** A relationship derived from column `c` of table `n`. */
  predicate FkFrom(t: Tables, r: Relationship, n: string, c: ColumnMeta)
  {
    n in t.columns && c in t.columns[n] && Declared(c)
    && r == FkRelationshipOf(PkInfo(t, t.names), n, t.columns[n], c)
  }

  lemma {:induction false} FkOfColumnsIff(info: map<string, seq<string>>, table: string, cols: seq<ColumnMeta>, upto: seq<ColumnMeta>, r: Relationship)
    ensures r in FkOfColumns(info, table, cols, upto) <==>
      exists c :: c in upto && Declared(c) && r == FkRelationshipOf(info, table, cols, c)
    decreases |upto|
  {
    if |upto| > 0 {
      var init := upto[..|upto| - 1];
      assert upto == init + [upto[|upto| - 1]];
      FkOfColumnsIff(info, table, cols, init, r);
    }
  }

  lemma {:induction false} FkOfTablesIff(t: Tables, names: seq<string>, r: Relationship)
    ensures r in FkOfTables(t, PkInfo(t, t.names), names) <==>
      exists n, c :: n in names && FkFrom(t, r, n, c)
    decreases |names|
  {
    var info := PkInfo(t, t.names);
    if |names| > 0 {
      var init := names[..|names| - 1];
      var n := names[|names| - 1];
      assert names == init + [n];
      FkOfTablesIff(t, init, r);
      var last := if n in t.columns then FkOfColumns(info, n, t.columns[n], t.columns[n]) else [];
      assert FkOfTables(t, info, names) == FkOfTables(t, info, init) + last;
      if r in last {
        FkOfColumnsIff(info, n, t.columns[n], t.columns[n], r);
        var c :| c in t.columns[n] && Declared(c) && r == FkRelationshipOf(info, n, t.columns[n], c);
        assert FkFrom(t, r, n, c);
      }
      if exists m, c :: m in names && FkFrom(t, r, m, c) {
        var m, c :| m in names && FkFrom(t, r, m, c);
        if m == n {
          FkOfColumnsIff(info, n, t.columns[n], t.columns[n], r);
          assert r in last;
        } else {
          assert m in init;
        }
      }
    }
  }

  /**
   * A foreign-key relationship is inferred exactly for each column that
   * declares a foreign key with a referenced table and column; it links
   * that column alone to the referenced column alone, with confidence 100.
   */
  lemma FkRelationshipsIff(t: Tables, r: Relationship)
    requires WellFormed(t)
    ensures r in FkRelationships(t) <==> exists n, c :: FkFrom(t, r, n, c)
    ensures r in FkRelationships(t) ==>
      r.confidence == 100 && r.identifiedBy == Auto && r.sourceTable in t.columns
      && |r.sourceColumns| == 1 && |r.targetColumns| == 1
  {
    FkOfTablesIff(t, t.names, r);
  }

  /**
   * The type of a foreign-key relationship: MANY_TO_MANY when its table has
   * two or more columns that are both foreign and primary key (even where
   * ONE_TO_ONE would apply), else ONE_TO_ONE when the source column is a
   * primary key of its table and the referenced column one of the
   * referenced table, else ONE_TO_MANY.
   */
  lemma FkTypeRule(t: Tables, n: string, c: ColumnMeta)
    requires WellFormed(t) && n in t.columns && c in t.columns[n] && Declared(c)
    ensures var r := FkRelationshipOf(PkInfo(t, t.names), n, t.columns[n], c);
      var target := c.referencedTable.value;
      var bothKeys := c.columnName in PkColumns(t.columns[n])
        && target in t.columns && c.referencedColumn.value in PkColumns(t.columns[target]);
      (r.relType == ManyToMany <==> FkPkCount(t.columns[n]) >= 2)
      && (r.relType == OneToOne <==> FkPkCount(t.columns[n]) < 2 && bothKeys)
      && (r.relType == OneToMany <==> FkPkCount(t.columns[n]) < 2 && !bothKeys)
  {
    PkInfoLookup(t, t.names, n);
    PkInfoLookup(t, t.names, c.referencedTable.value);
  }

  /** The number of declared foreign-key columns among `cols`. */
  function DeclaredCount(cols: seq<ColumnMeta>): nat
    decreases |cols|
  {
    if |cols| == 0 then 0 else DeclaredCount(cols[..|cols| - 1]) + if Declared(cols[|cols| - 1]) then 1 else 0
  }

  /** One relationship per declared column of the table. */
  lemma {:induction false} FkOfColumnsCount(info: map<string, seq<string>>, table: string, cols: seq<ColumnMeta>, upto: seq<ColumnMeta>)
    ensures |FkOfColumns(info, table, cols, upto)| == DeclaredCount(upto)
    decreases |upto|
  {
    if |upto| > 0 {
      FkOfColumnsCount(info, table, cols, upto[..|upto| - 1]);
    }
  }

  /** The `pk_info` loop. */
  method CollectPkInfo(t: Tables) returns (info: map<string, seq<string>>)
    requires WellFormed(t)
    ensures info == PkInfo(t, t.names)
  {
    info := map[];
    var i := 0;
    while i < |t.names|
      invariant 0 <= i <= |t.names|
      invariant info == PkInfo(t, t.names[..i])
    {
      assert t.names[..i + 1][..i] == t.names[..i];
      var pk := PkColumns(t.columns[t.names[i]]);
      if |pk| > 0 {
        info := info[t.names[i] := pk];
      }
      i := i + 1;
    }
    assert t.names[..i] == t.names;
  }

  /** The loop over the columns of one table. */
  method FkOfTableLoop(info: map<string, seq<string>>, table: string, cols: seq<ColumnMeta>) returns (rels: seq<Relationship>)
    ensures rels == FkOfColumns(info, table, cols, cols)
  {
    rels := [];
    var k := 0;
    while k < |cols|
      invariant 0 <= k <= |cols|
      invariant rels == FkOfColumns(info, table, cols, cols[..k])
    {
      assert cols[..k + 1][..k] == cols[..k];
      var c := cols[k];
      if c.isForeignKey && NonEmpty(c.referencedTable) && NonEmpty(c.referencedColumn) {
        rels := rels + [FkRelationshipOf(info, table, cols, c)];
      }
      k := k + 1;
    }
    assert cols[..k] == cols;
  }

  /** `_identify_fk_relationships`: `pk_info` first, then every column of every table. */
  method IdentifyFkRelationships(t: Tables) returns (rels: seq<Relationship>)
    requires WellFormed(t)
    ensures rels == FkRelationships(t)
  {
    var info := CollectPkInfo(t);
    rels := [];
    var i := 0;
    while i < |t.names|
      invariant 0 <= i <= |t.names|
      invariant rels == FkOfTables(t, info, t.names[..i])
    {
      var table := t.names[i];
      assert table in t.columns;
      FkOfTablesStep(t, info, t.names, i);
      var fromTable := FkOfTableLoop(info, table, t.columns[table]);
      rels := rels + fromTable;
      i := i + 1;
    }
    assert t.names[..i] == t.names;
  }

  lemma FkOfTablesStep(t: Tables, info: map<string, seq<string>>, names: seq<string>, i: nat)
    requires i < |names| && names[i] in t.columns
    ensures FkOfTables(t, info, names[..i + 1])
      == FkOfTables(t, info, names[..i]) + FkOfColumns(info, names[i], t.columns[names[i]], t.columns[names[i]])
  {
    assert names[..i + 1][..i] == names[..i];
  }

  // ---------------------------------------------------------------
  // Naming-convention relationships
  // ---------------------------------------------------------------

  /**
   * The column name starts, ignoring case, with `<singular>_id`,
   * `<table>_id` or `<table>id` (the alternatives of the pattern, taken
   * literally).
   */
  predicate NameMatches(column: string, source: string)
  {
    var low := Lower(column);
    StartsWith(low, Lower(SingularForm(source) + "_id"))
    || StartsWith(low, Lower(source + "_id"))
    || StartsWith(low, Lower(source + "id"))
  }

  /** A column that may refer to table `source` by its name. */
  predicate Candidate(c: ColumnMeta, source: string)
  {
    NameMatches(c.columnName, source) && !c.isForeignKey
  }

  function NamingRelationshipOf(source: string, target: string, sourcePk: seq<string>, c: ColumnMeta): Relationship
    requires |sourcePk| > 0
  {
    Relationship(source, target, sourcePk, [c.columnName], if c.isPrimaryKey then OneToOne else OneToMany, Auto, 70,
      "基于命名约定推断: " + target + "." + c.columnName + " 可能引用 " + source + "." + sourcePk[0])
  }

  function NamingOfColumns(source: string, target: string, sourcePk: seq<string>, cols: seq<ColumnMeta>): seq<Relationship>
    requires |sourcePk| > 0
    decreases |cols|
  {
    if |cols| == 0 then []
    else
      var c := cols[|cols| - 1];
      NamingOfColumns(source, target, sourcePk, cols[..|cols| - 1])
      + if Candidate(c, source) then [NamingRelationshipOf(source, target, sourcePk, c)] else []
  }

  /** The relationships from table `source` to table `target`. */
  function NamingOfPair(t: Tables, source: string, target: string): seq<Relationship>
  {
    if source == target || source !in t.columns || target !in t.columns then []
    else
      var pk := PkColumns(t.columns[source]);
      if |pk| == 0 then [] else NamingOfColumns(source, target, pk, t.columns[target])
  }

  function NamingOfTargets(t: Tables, source: string, targets: seq<string>): seq<Relationship>
    decreases |targets|
  {
    if |targets| == 0 then []
    else NamingOfTargets(t, source, targets[..|targets| - 1]) + NamingOfPair(t, source, targets[|targets| - 1])
  }

  function NamingOfSources(t: Tables, sources: seq<string>): seq<Relationship>
    decreases |sources|
  {
    if |sources| == 0 then []
    else NamingOfSources(t, sources[..|sources| - 1]) + NamingOfTargets(t, sources[|sources| - 1], t.names)
  }

  /** `_identify_naming_relationships`. */
  function NamingRelationships(t: Tables): seq<Relationship>
  {
    NamingOfSources(t, t.names)
  }

  /** A relationship that column `c` of table `target` suggests towards table `source`. */
  predicate NamingFrom(t: Tables, r: Relationship, source: string, target: string, c: ColumnMeta)
  {
    source != target && source in t.columns && target in t.columns
    && |PkColumns(t.columns[source])| > 0
    && c in t.columns[target] && Candidate(c, source)
    && r == NamingRelationshipOf(source, target, PkColumns(t.columns[source]), c)
  }

  lemma {:induction false} NamingOfColumnsIff(source: string, target: string, sourcePk: seq<string>, cols: seq<ColumnMeta>, r: Relationship)
    requires |sourcePk| > 0
    ensures r in NamingOfColumns(source, target, sourcePk, cols) <==>
      exists c :: c in cols && Candidate(c, source) && r == NamingRelationshipOf(source, target, sourcePk, c)
    decreases |cols|
  {
    if |cols| > 0 {
      var init := cols[..|cols| - 1];
      assert cols == init + [cols[|cols| - 1]];
      NamingOfColumnsIff(source, target, sourcePk, init, r);
    }
  }

  lemma NamingOfPairIff(t: Tables, source: string, target: string, r: Relationship)
    ensures r in NamingOfPair(t, source, target) <==> exists c :: NamingFrom(t, r, source, target, c)
  {
    if source != target && source in t.columns && target in t.columns && |PkColumns(t.columns[source])| > 0 {
      var pk := PkColumns(t.columns[source]);
      assert NamingOfPair(t, source, target) == NamingOfColumns(source, target, pk, t.columns[target]);
      NamingOfColumnsIff(source, target, pk, t.columns[target], r);
      if r in NamingOfPair(t, source, target) {
        var c :| c in t.columns[target] && Candidate(c, source) && r == NamingRelationshipOf(source, target, pk, c);
        assert NamingFrom(t, r, source, target, c);
      }
    }
  }

  lemma {:induction false} NamingOfTargetsIff(t: Tables, source: string, targets: seq<string>, r: Relationship)
    ensures r in NamingOfTargets(t, source, targets) <==>
      exists target, c :: target in targets && NamingFrom(t, r, source, target, c)
    decreases |targets|
  {
    if |targets| > 0 {
      var init := targets[..|targets| - 1];
      var last := targets[|targets| - 1];
      assert targets == init + [last];
      NamingOfTargetsIff(t, source, init, r);
      NamingOfPairIff(t, source, last, r);
      if exists target, c :: target in targets && NamingFrom(t, r, source, target, c) {
        var target, c :| target in targets && NamingFrom(t, r, source, target, c);
        if target != last {
          assert target in init;
        }
      }
    }
  }

  lemma {:induction false} NamingOfSourcesIff(t: Tables, sources: seq<string>, r: Relationship)
    ensures r in NamingOfSources(t, sources) <==>
      exists source, target, c :: source in sources && target in t.names && NamingFrom(t, r, source, target, c)
    decreases |sources|
  {
    if |sources| > 0 {
      var init := sources[..|sources| - 1];
      var last := sources[|sources| - 1];
      assert sources == init + [last];
      NamingOfSourcesIff(t, init, r);
      NamingOfTargetsIff(t, last, t.names, r);
      if exists source, target, c :: source in sources && target in t.names && NamingFrom(t, r, source, target, c) {
        var source, target, c :| source in sources && target in t.names && NamingFrom(t, r, source, target, c);
        if source != last {
          assert source in init;
        }
      }
    }
  }

  /**
   * A naming relationship is inferred exactly for each pair of distinct
   * tables whose source has a primary key and each column of the target
   * that is not a foreign key and whose name starts with the source's id
   * name; it lists all primary-key columns of the source, is ONE_TO_ONE
   * exactly when that column is the target's primary key, and has
   * confidence 70.
   */
  lemma NamingRelationshipsIff(t: Tables, r: Relationship)
    requires WellFormed(t)
    ensures r in NamingRelationships(t) <==> exists source, target, c :: NamingFrom(t, r, source, target, c)
    ensures r in NamingRelationships(t) ==>
      r.sourceTable != r.targetTable && r.confidence == 70
      && r.sourceTable in t.columns && r.sourceColumns == PkColumns(t.columns[r.sourceTable]) && |r.sourceColumns| > 0
      && |r.targetColumns| == 1
  {
    NamingOfSourcesIff(t, t.names, r);
  }

  /** A column that is the target's primary key makes the relationship ONE_TO_ONE, any other ONE_TO_MANY. */
  lemma NamingTypeRule(source: string, target: string, sourcePk: seq<string>, c: ColumnMeta)
    requires |sourcePk| > 0
    ensures NamingRelationshipOf(source, target, sourcePk, c).relType == OneToOne <==> c.isPrimaryKey
    ensures NamingRelationshipOf(source, target, sourcePk, c).relType == OneToMany <==> !c.isPrimaryKey
  {
  }

  /** `_identify_naming_relationships`: every source table against every target table. */
  method IdentifyNamingRelationships(t: Tables) returns (rels: seq<Relationship>)
    requires WellFormed(t)
    ensures rels == NamingRelationships(t)
  {
    rels := [];
    var i := 0;
    while i < |t.names|
      invariant 0 <= i <= |t.names|
      invariant rels == NamingOfSources(t, t.names[..i])
    {
      NamingOfSourcesStep(t, t.names, i);
      var fromSource := NamingSourceLoop(t, t.names[i]);
      rels := rels + fromSource;
      i := i + 1;
    }
    assert t.names[..i] == t.names;
  }

  /** The loop over the target tables for one source table. */
  method NamingSourceLoop(t: Tables, source: string) returns (rels: seq<Relationship>)
    requires WellFormed(t) && source in t.names
    ensures rels == NamingOfTargets(t, source, t.names)
  {
    rels := [];
    var j := 0;
    while j < |t.names|
      invariant 0 <= j <= |t.names|
      invariant rels == NamingOfTargets(t, source, t.names[..j])
    {
      NamingOfTargetsStep(t, source, t.names, j);
      var pair := NamingPairLoop(t, source, t.names[j]);
      rels := rels + pair;
      j := j + 1;
    }
    assert t.names[..j] == t.names;
  }

  lemma NamingOfSourcesStep(t: Tables, sources: seq<string>, i: nat)
    requires i < |sources|
    ensures NamingOfSources(t, sources[..i + 1])
      == NamingOfSources(t, sources[..i]) + NamingOfTargets(t, sources[i], t.names)
  {
    assert sources[..i + 1][..i] == sources[..i];
  }

  lemma NamingOfTargetsStep(t: Tables, source: string, targets: seq<string>, j: nat)
    requires j < |targets|
    ensures NamingOfTargets(t, source, targets[..j + 1])
      == NamingOfTargets(t, source, targets[..j]) + NamingOfPair(t, source, targets[j])
  {
    assert targets[..j + 1][..j] == targets[..j];
  }

  /** The body of the inner loop, for one (source, target) pair. */
  method NamingPairLoop(t: Tables, source: string, target: string) returns (rels: seq<Relationship>)
    requires WellFormed(t) && source in t.names && target in t.names
    ensures rels == NamingOfPair(t, source, target)
  {
    rels := [];
    if source == target {
      return;
    }
    var sourcePk := PkColumns(t.columns[source]);
    if |sourcePk| == 0 {
      return;
    }
    var cols := t.columns[target];
    var k := 0;
    while k < |cols|
      invariant 0 <= k <= |cols|
      invariant rels == NamingOfColumns(source, target, sourcePk, cols[..k])
    {
      assert cols[..k + 1][..k] == cols[..k];
      if NameMatches(cols[k].columnName, source) && !cols[k].isForeignKey {
        rels := rels + [NamingRelationshipOf(source, target, sourcePk, cols[k])];
      }
      k := k + 1;
    }
    assert cols[..k] == cols;
  }

  // ---------------------------------------------------------------
  // Analysis
  // ---------------------------------------------------------------

  /** Linking the same tables over the same set of source columns. */
  predicate SameLink(a: Relationship, b: Relationship)
  {
    a.sourceTable == b.sourceTable && a.targetTable == b.targetTable
    && (set x | x in a.sourceColumns) == (set x | x in b.sourceColumns)
  }

  predicate CoveredBy(rel: Relationship, fk: seq<Relationship>)
  {
    exists i :: 0 <= i < |fk| && SameLink(fk[i], rel)
  }

  /** The naming relationships that no foreign-key relationship already covers, in order. */
  function Kept(naming: seq<Relationship>, fk: seq<Relationship>): (r: seq<Relationship>)
    ensures |r| <= |naming|
    decreases |naming|
  {
    if |naming| == 0 then []
    else
      var rel := naming[|naming| - 1];
      Kept(naming[..|naming| - 1], fk) + if CoveredBy(rel, fk) then [] else [rel]
  }

  /** A naming relationship is dropped exactly when a foreign-key relationship covers it. */
  lemma {:induction false} KeptIff(naming: seq<Relationship>, fk: seq<Relationship>, r: Relationship)
    ensures r in Kept(naming, fk) <==> r in naming && !CoveredBy(r, fk)
    decreases |naming|
  {
    if |naming| > 0 {
      var init := naming[..|naming| - 1];
      assert naming == init + [naming[|naming| - 1]];
      KeptIff(init, fk, r);
    }
  }

  method KeepUncovered(naming: seq<Relationship>, fk: seq<Relationship>) returns (kept: seq<Relationship>)
    ensures kept == Kept(naming, fk)
  {
    kept := [];
    var i := 0;
    while i < |naming|
      invariant 0 <= i <= |naming|
      invariant kept == Kept(naming[..i], fk)
    {
      assert naming[..i + 1][..i] == naming[..i];
      if !CoveredBy(naming[i], fk) {
        kept := kept + [naming[i]];
      }
      i := i + 1;
    }
    assert naming[..i] == naming;
  }

  /**
   * The outcome of an analysis: the message, the status, the count, whether
   * the stored relationships were deleted first, and the relationships
   * created, in creation order.
   */
  datatype Analysis = Analysis(message: string, status: string, count: nat, cleared: bool, created: seq<Relationship>)

  const NoMetadataMessage := "未找到数据源元数据，请先同步元数据"

  /** `analyze_relationships` over the stored metadata of one data source. */
  function AnalysisOf(stored: seq<ColumnMeta>): Analysis
  {
    var metas := FirstRecords(stored, MetadataLimit);
    if |metas| == 0 then Analysis(NoMetadataMessage, "error", 0, false, [])
    else
      var t := GroupTables(metas);
      var fk := FkRelationships(t);
      var created := fk + Kept(NamingRelationships(t), fk);
      Analysis("成功识别 " + IntToString(|created|) + " 个表关系", "success", |created|, true, created)
  }

  /**
   * No metadata is an error that keeps the stored relationships; otherwise
   * the stored relationships are replaced and the count is the number of
   * foreign-key relationships plus the number of naming relationships kept.
   */
  lemma AnalysisFacts(stored: seq<ColumnMeta>)
    ensures var a := AnalysisOf(stored);
      var t := GroupTables(FirstRecords(stored, MetadataLimit));
      (|stored| == 0 ==> a.status == "error" && a.count == 0 && !a.cleared && a.created == [])
      && (|stored| > 0 ==>
            && a.status == "success" && a.cleared
            && a.count == |a.created| == |FkRelationships(t)| + |Kept(NamingRelationships(t), FkRelationships(t))|
            && a.created[..|FkRelationships(t)|] == FkRelationships(t)
            && forall k :: |FkRelationships(t)| <= k < |a.created| ==>
                 a.created[k] in NamingRelationships(t) && !CoveredBy(a.created[k], FkRelationships(t)))
  {
    if |stored| > 0 {
      var t := GroupTables(FirstRecords(stored, MetadataLimit));
      var fk := FkRelationships(t);
      var kept := Kept(NamingRelationships(t), fk);
      var a := AnalysisOf(stored);
      forall k | |fk| <= k < |a.created|
        ensures a.created[k] in NamingRelationships(t) && !CoveredBy(a.created[k], fk)
      {
        assert a.created[k] == kept[k - |fk|];
        KeptIff(NamingRelationships(t), fk, a.created[k]);
      }
    }
  }

  /** One create per relationship, in order. */
  method CreateRelationships(relationships: seq<Relationship>) returns (created: seq<Relationship>)
    ensures created == relationships
  {
    created := [];
    var count := 0;
    while count < |relationships|
      invariant 0 <= count <= |relationships|
      invariant created == relationships[..count]
    {
      created := created + [relationships[count]];
      count := count + 1;
    }
  }

  /** The service: deletion, grouping, both rule sets, the filter and one create per relationship. */
  method AnalyzeRelationships(stored: seq<ColumnMeta>) returns (a: Analysis)
    ensures a == AnalysisOf(stored)
  {
    var metas := FirstRecords(stored, MetadataLimit);
    if |metas| == 0 {
      return Analysis(NoMetadataMessage, "error", 0, false, []);
    }
    var t := GroupByTable(metas);
    var fk := IdentifyFkRelationships(t);
    var naming := IdentifyNamingRelationships(t);
    var kept := KeepUncovered(naming, fk);
    var relationships := fk + kept;
    var created := CreateRelationships(relationships);
    var count := |created|;
    assert created == fk + Kept(NamingRelationships(t), FkRelationships(t));
    a := Analysis("成功识别 " + IntToString(count) + " 个表关系", "success", count, true, created);
  }
}
