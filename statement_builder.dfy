/**
 * The nGQL generation step of a pipeline task: reading a task's field
 * mappings, and turning each extracted row into at most one INSERT VERTEX
 * or INSERT EDGE statement. Where the Python code would raise (a mapping
 * entry that is not a JSON object, a missing vertex-id entry) the model
 * yields an explicit raise outcome; the run engine turns it into a failed
 * run.
 */
module StatementBuilder {
  import opened Common
  import opened NebulaValue

  /** An extracted row: column name to cell value (SQL NULL is PyNone). */
  type Row = map<string, RawValue>

  /** `row.get(column)`: a missing column reads as None. */
  function Get(row: Row, column: string): RawValue
  {
    if column in row then row[column] else PyNone
  }

  // ---------------------------------------------------------------
  // Field mappings as stored in the task's JSON column
  // ---------------------------------------------------------------

  /**
   * A JSON value the code uses as a column or property name: a string, or
   * any other value with its Python truthiness, whether it can be a dict
   * key, and its str(). A missing entry reads as None, which is NoName.
   */
  datatype NameValue = TextName(s: string) | OtherName(truthy: bool, hashable: bool, text: string)

  const NoName: NameValue := OtherName(false, true, "None")

  predicate NameTruthy(n: NameValue)
  {
    if n.TextName? then n.s != "" else n.truthy
  }

  /** Lists and objects cannot be dict keys: looking them up or storing under them raises. */
  predicate Hashable(n: NameValue)
  {
    n.TextName? || n.hashable
  }

  /** Python's str() of the name. */
  function NameText(n: NameValue): string
  {
    if n.TextName? then n.s else n.text
  }

  /**
   * `row.get(name)`: the cell of a string name; None for any other key,
   * since every column of a row is named by a string; and a raise (None)
   * for a key that cannot be hashed.
   */
  function Lookup(row: Row, name: NameValue): (r: Option<RawValue>)
    ensures r.None? <==> !Hashable(name)
    ensures name.TextName? ==> r == Some(Get(row, name.s))
    ensures name.OtherName? && name.hashable ==> r == Some(PyNone)
  {
    if name.TextName? then Some(Get(row, name.s))
    else if name.hashable then Some(PyNone)
    else None
  }

  /** The JSON value under a column key of the field mappings. */
  datatype ColumnSpec =
    | Absent
    | ColumnName(name: string)
      /** A JSON object: its "name" entry (NoName when missing) and its "type" entry when that is a string. */
    | ColumnObject(objectName: NameValue, nebulaType: Option<string>)
      /** Any other JSON value (null, number, bool, list), with its Python truthiness. */
    | OtherJson(truthy: bool)

  /**
   * The JSON value describing one mapped property: an object with its
   * "target_property" entry (NoName when missing) and its "type" entry (a
   * "type" that is not a string behaves like a name no branch handles).
   */
  datatype TargetMapping =
    | MappingObject(targetProperty: NameValue, nebulaType: Option<string>)
    | NotAnObject

  /** The "properties" entry: an object read in key order, or some other JSON value. */
  datatype PropertiesConfig =
    | PropertyMap(entries: seq<(string, TargetMapping)>)
    | NotAMap

  datatype FieldMappings =
    | FieldMap(vertexId: ColumnSpec, sourceVid: ColumnSpec, destinationVid: ColumnSpec,
               rank: ColumnSpec, properties: PropertiesConfig)
      /** The stored JSON is not an object, so the first lookup in it raises. */
    | NotAnObjectMappings

  /** A string column name as Python tests it: present and non-empty. */
  predicate Truthy(column: Option<string>)
  {
    column.Some? && column.value != ""
  }

  datatype IdColumn = IdColumn(column: NameValue, nebulaType: string)

  /**
   * How a vertex-id column entry is read: a plain string is a column of
   * STRING ids, an object gives its "name", whatever JSON value that is,
   * and is INT64 only when its "type" says so, and anything else raises
   * (None where it raises).
   */
  function ResolveIdColumn(spec: ColumnSpec): (r: Option<IdColumn>)
    ensures r.None? <==> spec.Absent? || spec.OtherJson?
    ensures spec.ColumnName? ==> r == Some(IdColumn(TextName(spec.name), "STRING"))
    ensures spec.ColumnObject? ==> r.Some? && r.value.column == spec.objectName
    ensures r.Some? ==> (r.value.nebulaType == "INT64" <==> spec.ColumnObject? && spec.nebulaType == Some("INT64"))
    ensures r.Some? ==> r.value.nebulaType == "INT64" || r.value.nebulaType == "STRING"
  {
    match spec
    case ColumnName(name) => Some(IdColumn(TextName(name), "STRING"))
    case ColumnObject(name, t) => Some(IdColumn(name, if t == Some("INT64") then "INT64" else "STRING"))
    case Absent => None
    case OtherJson(_) => None
  }

  /**
   * How the optional rank column entry is read: a missing or falsy entry
   * means no rank column (NoName), a string is the column, an object gives
   * its "name", whatever JSON value that is, and a truthy entry of any
   * other kind raises (None).
   */
  function ResolveRankColumn(spec: ColumnSpec): (r: Option<NameValue>)
    ensures r.None? <==> spec.OtherJson? && spec.truthy
    ensures spec.Absent? || (spec.OtherJson? && !spec.truthy) ==> r == Some(NoName)
    ensures spec.ColumnName? ==> r == Some(TextName(spec.name))
    ensures spec.ColumnObject? ==> r == Some(spec.objectName)
  {
    match spec
    case Absent => Some(NoName)
    case ColumnName(name) => Some(TextName(name))
    case ColumnObject(name, _) => Some(name)
    case OtherJson(truthy) => if truthy then None else Some(NoName)
  }

  // ---------------------------------------------------------------
  // Mapping plans
  // ---------------------------------------------------------------

  /** What a NODE or RELATIONSHIP task generates per row, once its mappings are read. */
  datatype Plan =
    | VertexPlan(tag: string, vid: NameValue, vidType: string, props: PropertiesConfig)
    | EdgePlan(edge: string, src: NameValue, srcType: string, dst: NameValue, dstType: string,
               rank: NameValue, props: PropertiesConfig)

  datatype PlanOutcome = Planned(plan: Plan) | PlanFails | PlanRaises

  /** Reading a NODE task's mappings: the vertex-id entry must be present and name a column. */
  function PlanNode(tag: string, fm: FieldMappings): (r: PlanOutcome)
    ensures r == PlanRaises <==> fm.NotAnObjectMappings? || ResolveIdColumn(fm.vertexId).None?
    ensures r == PlanFails <==> fm.FieldMap? && ResolveIdColumn(fm.vertexId).Some? && !NameTruthy(ResolveIdColumn(fm.vertexId).value.column)
    ensures r.Planned? ==>
      r.plan.VertexPlan? && r.plan.tag == tag && r.plan.props == fm.properties
      && r.plan.vid == ResolveIdColumn(fm.vertexId).value.column && NameTruthy(r.plan.vid)
      && r.plan.vidType == ResolveIdColumn(fm.vertexId).value.nebulaType
  {
    if fm.NotAnObjectMappings? then PlanRaises
    else
      match ResolveIdColumn(fm.vertexId)
      case None => PlanRaises
      case Some(id) =>
        if !NameTruthy(id.column) then PlanFails
        else Planned(VertexPlan(tag, id.column, id.nebulaType, fm.properties))
  }

  /**
   * Reading a RELATIONSHIP task's mappings: all three column entries are
   * read (any of them may raise) before both endpoint columns are required.
   */
  function PlanRelationship(edge: string, fm: FieldMappings): (r: PlanOutcome)
    ensures r == PlanRaises <==>
      fm.NotAnObjectMappings? || ResolveIdColumn(fm.sourceVid).None?
      || ResolveIdColumn(fm.destinationVid).None? || ResolveRankColumn(fm.rank).None?
    ensures r == PlanFails <==>
      fm.FieldMap? && ResolveIdColumn(fm.sourceVid).Some? && ResolveIdColumn(fm.destinationVid).Some?
      && ResolveRankColumn(fm.rank).Some?
      && (!NameTruthy(ResolveIdColumn(fm.sourceVid).value.column) || !NameTruthy(ResolveIdColumn(fm.destinationVid).value.column))
    ensures r.Planned? ==>
      r.plan.EdgePlan? && r.plan.edge == edge
      && r.plan.src == ResolveIdColumn(fm.sourceVid).value.column && NameTruthy(r.plan.src)
      && r.plan.dst == ResolveIdColumn(fm.destinationVid).value.column && NameTruthy(r.plan.dst)
      && r.plan.props == fm.properties && r.plan.rank == ResolveRankColumn(fm.rank).value
  {
    if fm.NotAnObjectMappings? then PlanRaises
    else
      var src := ResolveIdColumn(fm.sourceVid);
      var dst := ResolveIdColumn(fm.destinationVid);
      var rank := ResolveRankColumn(fm.rank);
      if src.None? || dst.None? || rank.None? then PlanRaises
      else if !NameTruthy(src.value.column) || !NameTruthy(dst.value.column) then PlanFails
      else Planned(EdgePlan(edge, src.value.column, src.value.nebulaType,
                            dst.value.column, dst.value.nebulaType, rank.value, fm.properties))
  }

  // ---------------------------------------------------------------
  // Property lists
  // ---------------------------------------------------------------

  /** The property names (already back-quoted) and literals collected for one row. */
  datatype Collected = Collected(names: seq<string>, values: seq<string>) | CollectRaises

  /** A property name as the f-string prints it: the str() of "target_property", `None` when missing. */
  function PropertyName(p: NameValue): (r: string)
    ensures |r| >= 2 && r[0] == '`' && r[|r| - 1] == '`' && r[1..|r| - 1] == NameText(p)
  {
    "`" + NameText(p) + "`"
  }

  /** One entry of the property loop applied to what was collected before it. */
  function CollectStep(c: Collected, row: Row, e: (string, TargetMapping), floatText: RawValue -> Option<string>): Collected
  {
    if c.CollectRaises? || e.0 !in row then c
    else if e.1.NotAnObject? then CollectRaises
    else
      var v := FormatNebulaValue(row[e.0], e.1.nebulaType, floatText);
      if v == "NULL" then c
      else if !Hashable(e.1.targetProperty) then CollectRaises
      else Collected(c.names + [PropertyName(e.1.targetProperty)], c.values + [v])
  }

  /**
   * The properties of a row: the entries whose column is in the row and
   * whose value renders to something other than NULL, in key order.
   */
  function Collect(row: Row, entries: seq<(string, TargetMapping)>, floatText: RawValue -> Option<string>): (r: Collected)
    ensures r.Collected? ==> |r.names| == |r.values| <= |entries|
    ensures r.Collected? ==> forall k :: 0 <= k < |r.values| ==> r.values[k] != "NULL"
    decreases |entries|
  {
    if |entries| == 0 then Collected([], [])
    else CollectStep(Collect(row, entries[..|entries| - 1], floatText), row, entries[|entries| - 1], floatText)
  }

  /** Collecting two lists of entries one after the other. */
  function Combine(x: Collected, y: Collected): Collected
  {
    if x.CollectRaises? || y.CollectRaises? then CollectRaises
    else Collected(x.names + y.names, x.values + y.values)
  }

  lemma CombineStep(x: Collected, y: Collected, row: Row, e: (string, TargetMapping), floatText: RawValue -> Option<string>)
    ensures CollectStep(Combine(x, y), row, e, floatText) == Combine(x, CollectStep(y, row, e, floatText))
  {
    if !x.CollectRaises? && !y.CollectRaises? && e.0 in row && e.1.MappingObject? {
      var v := FormatNebulaValue(row[e.0], e.1.nebulaType, floatText);
      if v != "NULL" {
        assert x.names + (y.names + [PropertyName(e.1.targetProperty)]) == (x.names + y.names) + [PropertyName(e.1.targetProperty)];
        assert x.values + (y.values + [v]) == (x.values + y.values) + [v];
      }
    }
  }

  /** The property list of a concatenation is the concatenation of the property lists. */
  lemma {:induction false} CollectAppend(row: Row, a: seq<(string, TargetMapping)>, b: seq<(string, TargetMapping)>, floatText: RawValue -> Option<string>)
    ensures Collect(row, a + b, floatText) == Combine(Collect(row, a, floatText), Collect(row, b, floatText))
    decreases |b|
  {
    if |b| == 0 {
      assert a + b == a;
      var x := Collect(row, a, floatText);
      if x.Collected? {
        assert x.names + [] == x.names && x.values + [] == x.values;
      }
    } else {
      var b' := b[..|b| - 1];
      assert (a + b)[..|a + b| - 1] == a + b';
      assert (a + b)[|a + b| - 1] == b[|b| - 1];
      CollectAppend(row, a, b', floatText);
      CombineStep(Collect(row, a, floatText), Collect(row, b', floatText), row, b[|b| - 1], floatText);
    }
  }

  /**
   * An entry whose column is in the row raises when it is not an object
   * (`.get` on it), or when its value renders and its "target_property"
   * cannot be a dict key (`props_to_insert[...] = ...`).
   */
  predicate EntryRaises(row: Row, e: (string, TargetMapping), floatText: RawValue -> Option<string>)
  {
    e.0 in row
    && (e.1.NotAnObject?
        || (!Hashable(e.1.targetProperty) && FormatNebulaValue(row[e.0], e.1.nebulaType, floatText) != "NULL"))
  }

  /** One more entry raises the collection exactly when the earlier ones did or this one does. */
  lemma CollectStepRaises(c: Collected, row: Row, e: (string, TargetMapping), floatText: RawValue -> Option<string>)
    ensures CollectStep(c, row, e, floatText).CollectRaises? <==> c.CollectRaises? || EntryRaises(row, e, floatText)
  {
  }

  /** Collecting raises exactly when some entry raises. */
  lemma {:induction false} CollectRaisesIff(row: Row, entries: seq<(string, TargetMapping)>, floatText: RawValue -> Option<string>)
    ensures Collect(row, entries, floatText).CollectRaises? <==>
      exists i :: 0 <= i < |entries| && EntryRaises(row, entries[i], floatText)
    decreases |entries|
  {
    if |entries| > 0 {
      var init := entries[..|entries| - 1];
      CollectRaisesIff(row, init, floatText);
      CollectStepRaises(Collect(row, init, floatText), row, entries[|entries| - 1], floatText);
      if exists i :: 0 <= i < |init| && EntryRaises(row, init[i], floatText) {
        var i :| 0 <= i < |init| && EntryRaises(row, init[i], floatText);
        assert entries[i] == init[i];
      }
      if exists i :: 0 <= i < |entries| && EntryRaises(row, entries[i], floatText) {
        var i :| 0 <= i < |entries| && EntryRaises(row, entries[i], floatText);
        if i < |init| {
          assert init[i] == entries[i];
        }
      }
    }
  }

  /** Entries whose column the row lacks contribute nothing. */
  lemma {:induction false} CollectOfAbsentColumns(row: Row, entries: seq<(string, TargetMapping)>, floatText: RawValue -> Option<string>)
    requires forall i :: 0 <= i < |entries| ==> entries[i].0 !in row
    ensures Collect(row, entries, floatText) == Collected([], [])
    decreases |entries|
  {
    if |entries| > 0 {
      CollectOfAbsentColumns(row, entries[..|entries| - 1], floatText);
    }
  }

  /** The inner loop over the property entries of one row. */
  method CollectProperties(row: Row, entries: seq<(string, TargetMapping)>, floatText: RawValue -> Option<string>)
    returns (c: Collected)
    ensures c == Collect(row, entries, floatText)
  {
    var names: seq<string> := [];
    var values: seq<string> := [];
    var i := 0;
    while i < |entries|
      invariant 0 <= i <= |entries|
      invariant Collect(row, entries[..i], floatText) == Collected(names, values)
    {
      assert entries[..i + 1][..i] == entries[..i];
      var (column, mapping) := entries[i];
      if column in row {
        if mapping.NotAnObject? {
          CollectRaisesIff(row, entries, floatText);
          return CollectRaises;
        }
        var v := FormatNebulaValue(row[column], mapping.nebulaType, floatText);
        if v != "NULL" {
          if !Hashable(mapping.targetProperty) {
            CollectRaisesIff(row, entries, floatText);
            return CollectRaises;
          }
          names := names + [PropertyName(mapping.targetProperty)];
          values := values + [v];
        }
      }
      i := i + 1;
    }
    assert entries[..|entries|] == entries;
    c := Collected(names, values);
  }

  // ---------------------------------------------------------------
  // Statements
  // ---------------------------------------------------------------

  function VertexStatement(tag: string, vid: string, names: seq<string>, values: seq<string>): string
  {
    if |names| == 0 then "INSERT VERTEX `" + tag + "` () VALUES " + vid + ":();"
    else "INSERT VERTEX `" + tag + "` (" + Join(names, ", ") + ") VALUES " + vid + ":(" + Join(values, ", ") + ");"
  }

  function EdgeStatement(edge: string, src: string, dst: string, rank: string, names: seq<string>, values: seq<string>): string
  {
    if |names| == 0 then "INSERT EDGE `" + edge + "` () VALUES " + src + " -> " + dst + rank + ":();"
    else "INSERT EDGE `" + edge + "` (" + Join(names, ", ") + ") VALUES " + src + " -> " + dst + rank + ":(" + Join(values, ", ") + ");"
  }

  /**
   * The statement without properties is the general template with empty
   * lists: the special case changes nothing in the text.
   */
  lemma StatementsAreUniform(tag: string, src: string, dst: string, rank: string, names: seq<string>, values: seq<string>)
    requires |names| == 0 ==> |values| == 0
    ensures VertexStatement(tag, src, names, values)
      == "INSERT VERTEX `" + tag + "` (" + Join(names, ", ") + ") VALUES " + src + ":(" + Join(values, ", ") + ");"
    ensures EdgeStatement(tag, src, dst, rank, names, values)
      == "INSERT EDGE `" + tag + "` (" + Join(names, ", ") + ") VALUES " + src + " -> " + dst + rank + ":(" + Join(values, ", ") + ");"
  {
    if |names| == 0 {
      assert Join(names, ", ") == "" && Join(values, ", ") == "";
      var v := "INSERT VERTEX `" + tag;
      AppendAssoc(v, "` (", ") VALUES ");
      AppendAssoc(v + "` () VALUES " + src, ":(", ");");
      var e := "INSERT EDGE `" + tag;
      AppendAssoc(e, "` (", ") VALUES ");
      AppendAssoc(e + "` () VALUES " + src + " -> " + dst + rank, ":(", ");");
      assert "` (" + ") VALUES " == "` () VALUES ";
      assert ":(" + ");" == ":();";
    }
  }

  lemma AppendAssoc(x: string, a: string, b: string)
    ensures x + a + b == x + (a + b)
  {
  }

  /**
   * The `@rank` suffix of an edge: only a configured rank column whose
   * value int() accepts; looking up a rank name that cannot be a dict key
   * raises (None).
   */
  function RankText(row: Row, rank: NameValue, floatText: RawValue -> Option<string>): Option<string>
  {
    if !NameTruthy(rank) then Some("")
    else match Lookup(row, rank)
      case None => None
      case Some(raw) =>
        if raw == PyNone then Some("")
        else
          var r := FormatNebulaValue(raw, Some("INT64"), floatText);
          if r != "NULL" then Some("@" + r) else Some("")
  }

  /**
   * A truthy rank name that cannot be a dict key raises; otherwise the rank
   * suffix is present exactly when the rank column is a configured string
   * and int() accepts its value, and then it writes that integer.
   */
  lemma RankTextFacts(row: Row, rank: NameValue, floatText: RawValue -> Option<string>)
    ensures var r := RankText(row, rank, floatText);
      (r.None? <==> NameTruthy(rank) && !Hashable(rank))
      && (r.Some? && r.value != "" <==> rank.TextName? && rank.s != "" && IntOf(Get(row, rank.s)).Some?)
      && (r.Some? && r.value != "" ==> r.value[0] == '@' && ParseInt(r.value[1..]) == IntOf(Get(row, rank.s)))
  {
    if rank.TextName? && rank.s != "" && Get(row, rank.s) != PyNone {
      IntegerTargetRoundTrip(Get(row, rank.s), Some("INT64"), floatText);
      var r := RankText(row, rank, floatText).value;
      if r != "" {
        assert r[1..] == FormatNebulaValue(Get(row, rank.s), Some("INT64"), floatText);
      }
    }
  }

  // ---------------------------------------------------------------
  // Rows
  // ---------------------------------------------------------------

  datatype RowOutcome = Skipped | Statement(text: string) | RowRaises

  /** The properties of a row under a properties entry; a non-object entry raises. */
  function RowProperties(row: Row, props: PropertiesConfig, floatText: RawValue -> Option<string>): Collected
  {
    if props.NotAMap? then CollectRaises else Collect(row, props.entries, floatText)
  }

  /** One row of a NODE task: rows without a usable vertex id are skipped. */
  function VertexRow(plan: Plan, row: Row, floatText: RawValue -> Option<string>): RowOutcome
    requires plan.VertexPlan?
  {
    match Lookup(row, plan.vid)
    case None => RowRaises
    case Some(raw) =>
      if raw == PyNone then Skipped
      else
        var vid := FormatNebulaValue(raw, Some(plan.vidType), floatText);
        if vid == "NULL" then Skipped
        else
          match RowProperties(row, plan.props, floatText)
          case CollectRaises => RowRaises
          case Collected(names, values) => Statement(VertexStatement(plan.tag, vid, names, values))
  }

  /** One row of a RELATIONSHIP task: both endpoints must give a usable id. */
  function EdgeRow(plan: Plan, row: Row, floatText: RawValue -> Option<string>): RowOutcome
    requires plan.EdgePlan?
  {
    var rawSrc := Lookup(row, plan.src);
    var rawDst := Lookup(row, plan.dst);
    if rawSrc.None? || rawDst.None? then RowRaises
    else if rawSrc.value == PyNone || rawDst.value == PyNone then Skipped
    else
      var src := FormatNebulaValue(rawSrc.value, Some(plan.srcType), floatText);
      var dst := FormatNebulaValue(rawDst.value, Some(plan.dstType), floatText);
      if src == "NULL" || dst == "NULL" then Skipped
      else
        match RankText(row, plan.rank, floatText)
        case None => RowRaises
        case Some(rank) =>
          match RowProperties(row, plan.props, floatText)
          case CollectRaises => RowRaises
          case Collected(names, values) => Statement(EdgeStatement(plan.edge, src, dst, rank, names, values))
  }

  function RowOutcomeOf(plan: Plan, row: Row, floatText: RawValue -> Option<string>): RowOutcome
  {
    if plan.VertexPlan? then VertexRow(plan, row, floatText) else EdgeRow(plan, row, floatText)
  }

  /** The properties entry of a plan makes a row raise: it is not an object, or one of its entries raises. */
  predicate PropertiesRaise(row: Row, props: PropertiesConfig, floatText: RawValue -> Option<string>)
  {
    props.NotAMap? || exists i :: 0 <= i < |props.entries| && EntryRaises(row, props.entries[i], floatText)
  }

  lemma RowPropertiesRaiseIff(row: Row, props: PropertiesConfig, floatText: RawValue -> Option<string>)
    ensures RowProperties(row, props, floatText).CollectRaises? <==> PropertiesRaise(row, props, floatText)
  {
    if props.PropertyMap? {
      CollectRaisesIff(row, props.entries, floatText);
    }
  }

  /**
   * A vertex row raises when its id name cannot be a dict key; otherwise it
   * is skipped exactly when its id is None or renders to NULL, and it raises
   * exactly when it is not skipped and its properties raise.
   */
  lemma VertexRowFacts(plan: Plan, row: Row, floatText: RawValue -> Option<string>)
    requires plan.VertexPlan?
    ensures !Hashable(plan.vid) ==> VertexRow(plan, row, floatText) == RowRaises
    ensures Hashable(plan.vid) ==>
      var raw := Lookup(row, plan.vid).value;
      (VertexRow(plan, row, floatText) == Skipped <==>
        raw == PyNone || FormatNebulaValue(raw, Some(plan.vidType), floatText) == "NULL")
      && (VertexRow(plan, row, floatText) == RowRaises <==>
        VertexRow(plan, row, floatText) != Skipped && PropertiesRaise(row, plan.props, floatText))
    ensures plan.vid.OtherName? && plan.vid.hashable ==> VertexRow(plan, row, floatText) == Skipped
  {
    RowPropertiesRaiseIff(row, plan.props, floatText);
  }

  /** A STRING id is never NULL, so with STRING ids only a None id skips a row. */
  lemma StringIdsSkipOnlyNone(raw: RawValue, floatText: RawValue -> Option<string>)
    requires raw != PyNone
    ensures FormatNebulaValue(raw, Some("STRING"), floatText) != "NULL"
  {
    var r := FormatNebulaValue(raw, Some("STRING"), floatText);
    assert r[0] == '"';
  }

  /**
   * An edge row raises when an endpoint name cannot be a dict key;
   * otherwise it is skipped exactly when an endpoint id is None or renders
   * to NULL, and past that it raises exactly when the rank lookup or the
   * properties raise.
   */
  lemma EdgeRowFacts(plan: Plan, row: Row, floatText: RawValue -> Option<string>)
    requires plan.EdgePlan?
    ensures !Hashable(plan.src) || !Hashable(plan.dst) ==> EdgeRow(plan, row, floatText) == RowRaises
    ensures Hashable(plan.src) && Hashable(plan.dst) ==>
      var rawSrc := Lookup(row, plan.src).value;
      var rawDst := Lookup(row, plan.dst).value;
      (EdgeRow(plan, row, floatText) == Skipped <==>
        rawSrc == PyNone || rawDst == PyNone
        || FormatNebulaValue(rawSrc, Some(plan.srcType), floatText) == "NULL"
        || FormatNebulaValue(rawDst, Some(plan.dstType), floatText) == "NULL")
      && (EdgeRow(plan, row, floatText) == RowRaises <==>
        EdgeRow(plan, row, floatText) != Skipped
        && (RankText(row, plan.rank, floatText).None? || PropertiesRaise(row, plan.props, floatText)))
  {
    RowPropertiesRaiseIff(row, plan.props, floatText);
  }

  // ---------------------------------------------------------------
  // All rows of a task
  // ---------------------------------------------------------------

  datatype Generated = Generated(statements: seq<string>) | GenerationRaises

  /** Adding the outcome of one more row to what the earlier rows generated. */
  function AddRow(g: Generated, o: RowOutcome): Generated
  {
    if g.GenerationRaises? || o.RowRaises? then GenerationRaises
    else if o.Statement? then Generated(g.statements + [o.text])
    else g
  }

  /**
   * The statements produced by a sequence of rows, given what each row
   * yields: one per row that produced one, in row order; a raising row
   * raises for the whole task.
   */
  function GatherRows(rows: seq<Row>, outcome: Row -> RowOutcome): (r: Generated)
    ensures r.Generated? ==> |r.statements| <= |rows|
    decreases |rows|
  {
    if |rows| == 0 then Generated([])
    else AddRow(GatherRows(rows[..|rows| - 1], outcome), outcome(rows[|rows| - 1]))
  }

  function RowOutcomes(plan: Plan, floatText: RawValue -> Option<string>): Row -> RowOutcome
  {
    (row: Row) => RowOutcomeOf(plan, row, floatText)
  }

  /** The statements of a task with plan `plan` over the extracted rows. */
  function Generate(plan: Plan, rows: seq<Row>, floatText: RawValue -> Option<string>): Generated
  {
    GatherRows(rows, RowOutcomes(plan, floatText))
  }

  /** Generation raises exactly when one of the rows raises. */
  lemma {:induction false} GatherRaisesIff(rows: seq<Row>, outcome: Row -> RowOutcome)
    ensures GatherRows(rows, outcome).GenerationRaises? <==>
      exists i :: 0 <= i < |rows| && outcome(rows[i]) == RowRaises
    decreases |rows|
  {
    if |rows| > 0 {
      var init := rows[..|rows| - 1];
      GatherRaisesIff(init, outcome);
      if exists i :: 0 <= i < |init| && outcome(init[i]) == RowRaises {
        var i :| 0 <= i < |init| && outcome(init[i]) == RowRaises;
        assert rows[i] == init[i];
      }
      if exists i :: 0 <= i < |rows| && outcome(rows[i]) == RowRaises {
        var i :| 0 <= i < |rows| && outcome(rows[i]) == RowRaises;
        if i < |init| {
          assert init[i] == rows[i];
        }
      }
    }
  }

  /** A row that raises makes the whole task raise. */
  lemma RowRaisesAll(rows: seq<Row>, i: nat, outcome: Row -> RowOutcome)
    requires i < |rows| && outcome(rows[i]) == RowRaises
    ensures GatherRows(rows, outcome) == GenerationRaises
  {
    GatherRaisesIff(rows, outcome);
  }

  /** One more row of the prefix adds that row's outcome. */
  lemma GatherStep(rows: seq<Row>, i: nat, outcome: Row -> RowOutcome)
    requires i < |rows|
    ensures GatherRows(rows[..i + 1], outcome) == AddRow(GatherRows(rows[..i], outcome), outcome(rows[i]))
  {
    assert rows[..i + 1][..i] == rows[..i];
  }

  /** Rows are processed in order: the statements of a concatenation are concatenated. */
  lemma {:induction false} GatherAppend(a: seq<Row>, b: seq<Row>, outcome: Row -> RowOutcome)
    requires GatherRows(a, outcome).Generated? && GatherRows(b, outcome).Generated?
    ensures GatherRows(a + b, outcome)
      == Generated(GatherRows(a, outcome).statements + GatherRows(b, outcome).statements)
    decreases |b|
  {
    if |b| == 0 {
      assert a + b == a;
    } else {
      var b' := b[..|b| - 1];
      var last := outcome(b[|b| - 1]);
      assert (a + b)[..|a + b| - 1] == a + b';
      assert (a + b)[|a + b| - 1] == b[|b| - 1];
      assert GatherRows(b', outcome).Generated?;
      GatherAppend(a, b', outcome);
      if last.Statement? {
        assert GatherRows(a, outcome).statements + (GatherRows(b', outcome).statements + [last.text])
          == (GatherRows(a, outcome).statements + GatherRows(b', outcome).statements) + [last.text];
      }
    }
  }

  /** One row adds nothing when skipped, exactly its statement otherwise, or raises. */
  lemma GatherSingle(row: Row, outcome: Row -> RowOutcome)
    ensures var o := outcome(row);
      (o == Skipped ==> GatherRows([row], outcome) == Generated([]))
      && (o.Statement? ==> GatherRows([row], outcome) == Generated([o.text]))
      && (o == RowRaises ==> GatherRows([row], outcome) == GenerationRaises)
  {
    assert [row][..0] == [];
  }

  /** Every generated statement is the statement of one of the rows. */
  lemma {:induction false} GatherSources(rows: seq<Row>, outcome: Row -> RowOutcome)
    ensures var g := GatherRows(rows, outcome);
      g.Generated? ==> forall k :: 0 <= k < |g.statements| ==>
        exists i :: 0 <= i < |rows| && outcome(rows[i]) == Statement(g.statements[k])
    decreases |rows|
  {
    if |rows| > 0 {
      var init := rows[..|rows| - 1];
      GatherSources(init, outcome);
      var g := GatherRows(rows, outcome);
      var h := GatherRows(init, outcome);
      if g.Generated? {
        forall k | 0 <= k < |g.statements|
          ensures exists i :: 0 <= i < |rows| && outcome(rows[i]) == Statement(g.statements[k])
        {
          if k < |h.statements| {
            var i :| 0 <= i < |init| && outcome(init[i]) == Statement(h.statements[k]);
            assert rows[i] == init[i];
          } else {
            assert outcome(rows[|rows| - 1]) == Statement(g.statements[k]);
          }
        }
      }
    }
  }

  /** Rows a task skips contribute nothing: only the rows that produce a statement are sent. */
  lemma {:induction false} GatherSkipsAll(rows: seq<Row>, outcome: Row -> RowOutcome)
    requires forall i :: 0 <= i < |rows| ==> outcome(rows[i]) == Skipped
    ensures GatherRows(rows, outcome) == Generated([])
    decreases |rows|
  {
    if |rows| > 0 {
      GatherSkipsAll(rows[..|rows| - 1], outcome);
    }
  }

  /** The loop over the rows of a NODE task. */
  method GenerateVertexStatements(plan: Plan, rows: seq<Row>, floatText: RawValue -> Option<string>)
    returns (g: Generated)
    requires plan.VertexPlan?
    ensures g == Generate(plan, rows, floatText)
  {
    var statements: seq<string> := [];
    var i := 0;
    while i < |rows|
      invariant 0 <= i <= |rows|
      invariant GatherRows(rows[..i], RowOutcomes(plan, floatText)) == Generated(statements)
    {
      GatherStep(rows, i, RowOutcomes(plan, floatText));
      assert RowOutcomes(plan, floatText)(rows[i]) == VertexRow(plan, rows[i], floatText);
      var row := rows[i];
      var raw := Lookup(row, plan.vid);
      if raw.None? {
        RowRaisesAll(rows, i, RowOutcomes(plan, floatText));
        return GenerationRaises;
      }
      if raw.value != PyNone {
        var vid := FormatNebulaValue(raw.value, Some(plan.vidType), floatText);
        if vid != "NULL" {
          if plan.props.NotAMap? {
            RowRaisesAll(rows, i, RowOutcomes(plan, floatText));
            return GenerationRaises;
          }
          var c := CollectProperties(row, plan.props.entries, floatText);
          if c.CollectRaises? {
            RowRaisesAll(rows, i, RowOutcomes(plan, floatText));
            return GenerationRaises;
          }
          statements := statements + [VertexStatement(plan.tag, vid, c.names, c.values)];
        }
      }
      i := i + 1;
    }
    assert rows[..|rows|] == rows;
    g := Generated(statements);
  }

  /** The loop over the rows of a RELATIONSHIP task. */
  method GenerateEdgeStatements(plan: Plan, rows: seq<Row>, floatText: RawValue -> Option<string>)
    returns (g: Generated)
    requires plan.EdgePlan?
    ensures g == Generate(plan, rows, floatText)
  {
    var statements: seq<string> := [];
    var i := 0;
    while i < |rows|
      invariant 0 <= i <= |rows|
      invariant GatherRows(rows[..i], RowOutcomes(plan, floatText)) == Generated(statements)
    {
      GatherStep(rows, i, RowOutcomes(plan, floatText));
      assert RowOutcomes(plan, floatText)(rows[i]) == EdgeRow(plan, rows[i], floatText);
      var row := rows[i];
      var rawSrc := Lookup(row, plan.src);
      var rawDst := Lookup(row, plan.dst);
      if rawSrc.None? || rawDst.None? {
        RowRaisesAll(rows, i, RowOutcomes(plan, floatText));
        return GenerationRaises;
      }
      if rawSrc.value != PyNone && rawDst.value != PyNone {
        var src := FormatNebulaValue(rawSrc.value, Some(plan.srcType), floatText);
        var dst := FormatNebulaValue(rawDst.value, Some(plan.dstType), floatText);
        if src != "NULL" && dst != "NULL" {
          var rank := "";
          if NameTruthy(plan.rank) {
            var rawRank := Lookup(row, plan.rank);
            if rawRank.None? {
              RowRaisesAll(rows, i, RowOutcomes(plan, floatText));
              return GenerationRaises;
            }
            if rawRank.value != PyNone {
              var r := FormatNebulaValue(rawRank.value, Some("INT64"), floatText);
              if r != "NULL" {
                rank := "@" + r;
              }
            }
          }
          assert RankText(row, plan.rank, floatText) == Some(rank);
          if plan.props.NotAMap? {
            RowRaisesAll(rows, i, RowOutcomes(plan, floatText));
            return GenerationRaises;
          }
          var c := CollectProperties(row, plan.props.entries, floatText);
          if c.CollectRaises? {
            RowRaisesAll(rows, i, RowOutcomes(plan, floatText));
            return GenerationRaises;
          }
          statements := statements + [EdgeStatement(plan.edge, src, dst, rank, c.names, c.values)];
        }
      }
      i := i + 1;
    }
    assert rows[..|rows|] == rows;
    g := Generated(statements);
  }
}
