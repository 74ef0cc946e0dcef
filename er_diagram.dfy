/**
 * Assembly of the ER diagram of a data source: one node per table with
 * its columns and its saved position, one labelled edge per stored
 * relationship, and the display settings of the chosen diagram.
 */
module ErDiagram {
  import opened Common
  import opened SchemaMetadata
  import opened ErRelationship

  /** A stored relationship (a TableRelationship row). */
  datatype StoredRelationship = StoredRelationship(
    id: int,
    sourceTable: string,
    targetTable: string,
    relType: RelationshipType,
    sourceColumns: seq<string>,
    targetColumns: seq<string>)

  datatype Point = Point(x: real, y: real)

  /**
   * A saved diagram. `positions` is `layout_data['positions']`; a missing,
   * empty or absent layout reads as no positions at all. `settings` is
   * `display_settings`, where an empty dict reads as None.
   */
  datatype DiagramConfig = DiagramConfig(positions: map<string, Point>, settings: Option<map<string, string>>)

  datatype TableColumn = TableColumn(
    name: string,
    dataType: string,
    size: Option<int>,
    isPrimaryKey: bool,
    isForeignKey: bool,
    description: Option<string>)

  /** `caption` is the `label` field of the source record. */
  datatype TableNode = TableNode(id: string, caption: string, columns: seq<TableColumn>, position: Option<Point>)

  datatype RelationshipEdge = RelationshipEdge(
    id: string,
    source: string,
    target: string,
    relType: RelationshipType,
    sourceColumns: seq<string>,
    targetColumns: seq<string>,
    caption: string)

  datatype DiagramData = DiagramData(nodes: seq<TableNode>, edges: seq<RelationshipEdge>, settings: map<string, string>)

  /** The result pair: the diagram, or None and a message. */
  datatype DiagramResult = DiagramResult(data: Option<DiagramData>, message: Option<string>)

  /** The relationship query relies on the default page size of its CRUD function. */
  const RelationshipLimit: nat := 100

  const NoMetadataMessage := "未找到数据源元数据，请先同步元数据"
  const NoRelationshipsMessage := "未找到表关系数据，请先分析表关系"

  function ColumnOf(m: ColumnMeta): TableColumn
  {
    TableColumn(m.columnName, m.dataType, m.columnSize, m.isPrimaryKey, m.isForeignKey, m.description)
  }

  function ColumnsFor(cols: seq<ColumnMeta>): (r: seq<TableColumn>)
    ensures |r| == |cols|
    ensures forall k :: 0 <= k < |cols| ==> r[k] == ColumnOf(cols[k])
    decreases |cols|
  {
    if |cols| == 0 then [] else ColumnsFor(cols[..|cols| - 1]) + [ColumnOf(cols[|cols| - 1])]
  }

  /** The saved position of a table, when the diagram has one. */
  function PositionOf(config: Option<DiagramConfig>, table: string): Option<Point>
  {
    if config.Some? && table in config.value.positions then Some(config.value.positions[table]) else None
  }

  function NodeOf(t: Tables, config: Option<DiagramConfig>, name: string): TableNode
    requires name in t.columns
  {
    TableNode(name, name, ColumnsFor(t.columns[name]), PositionOf(config, name))
  }

  function NodesOf(t: Tables, config: Option<DiagramConfig>, names: seq<string>): (r: seq<TableNode>)
    requires forall k :: 0 <= k < |names| ==> names[k] in t.columns
    ensures |r| == |names|
    ensures forall k :: 0 <= k < |names| ==> r[k] == NodeOf(t, config, names[k])
    decreases |names|
  {
    if |names| == 0 then [] else NodesOf(t, config, names[..|names| - 1]) + [NodeOf(t, config, names[|names| - 1])]
  }

  /** The label of a relationship type. */
  function EdgeLabel(t: RelationshipType): string
  {
    if t == OneToOne then "1:1"
    else if t == OneToMany then "1:N"
    else if t == ManyToMany then "N:M"
    else "?"
  }

  /** Only an undefined type is labelled `?`, and distinct types get distinct labels. */
  lemma EdgeLabelFacts(a: RelationshipType, b: RelationshipType)
    ensures EdgeLabel(a) == "?" <==> a == Undefined
    ensures EdgeLabel(a) == EdgeLabel(b) ==> a == b
  {
  }

  function EdgeOf(rel: StoredRelationship): RelationshipEdge
  {
    RelationshipEdge(rel.sourceTable + "-" + rel.targetTable + "-" + IntToString(rel.id),
      rel.sourceTable, rel.targetTable, rel.relType, rel.sourceColumns, rel.targetColumns, EdgeLabel(rel.relType))
  }

  function EdgesOf(rels: seq<StoredRelationship>): (r: seq<RelationshipEdge>)
    ensures |r| == |rels|
    ensures forall k :: 0 <= k < |rels| ==> r[k] == EdgeOf(rels[k])
    decreases |rels|
  {
    if |rels| == 0 then [] else EdgesOf(rels[..|rels| - 1]) + [EdgeOf(rels[|rels| - 1])]
  }

  /** The displayed settings: the diagram's non-empty `display_settings`, else `{}`. */
  function SettingsOf(config: Option<DiagramConfig>): map<string, string>
  {
    if config.Some? && config.value.settings.Some? && |config.value.settings.value| > 0 then config.value.settings.value else map[]
  }

  /**
   * The diagram chosen by `diagram_id`: an absent or zero id means none,
   * and so does an id with no stored diagram.
   */
  function ChosenConfig(diagramId: Option<int>, diagrams: map<int, DiagramConfig>): Option<DiagramConfig>
  {
    if diagramId.None? || diagramId.value == 0 || diagramId.value !in diagrams then None
    else Some(diagrams[diagramId.value])
  }

  /** `generate_diagram_data`. */
  function DiagramOf(stored: seq<ColumnMeta>, storedRels: seq<StoredRelationship>, diagramId: Option<int>,
                     diagrams: map<int, DiagramConfig>): DiagramResult
  {
    var metas := FirstRecords(stored, MetadataLimit);
    var rels := FirstRecords(storedRels, RelationshipLimit);
    if |metas| == 0 then DiagramResult(None, Some(NoMetadataMessage))
    else if |rels| == 0 then DiagramResult(None, Some(NoRelationshipsMessage))
    else
      var config := ChosenConfig(diagramId, diagrams);
      var t := GroupTables(metas);
      DiagramResult(Some(DiagramData(NodesOf(t, config, t.names), EdgesOf(rels), SettingsOf(config))), None)
  }

  /**
   * Without metadata, or without relationships, there is no diagram;
   * otherwise its nodes come from the grouped metadata, its edges from the
   * first 100 relationships and its settings from the chosen diagram.
   */
  lemma DiagramShape(stored: seq<ColumnMeta>, storedRels: seq<StoredRelationship>, diagramId: Option<int>,
                     diagrams: map<int, DiagramConfig>)
    ensures var r := DiagramOf(stored, storedRels, diagramId, diagrams);
      var metas := FirstRecords(stored, MetadataLimit);
      var t := GroupTables(metas);
      (r.data.None? <==> |stored| == 0 || |storedRels| == 0)
      && (r.data.None? ==> r.message == Some(if |stored| == 0 then NoMetadataMessage else NoRelationshipsMessage))
      && (r.data.Some? ==>
            r.message.None?
            && r.data.value.nodes == NodesOf(t, ChosenConfig(diagramId, diagrams), t.names)
            && r.data.value.edges == EdgesOf(FirstRecords(storedRels, RelationshipLimit))
            && |r.data.value.edges| == (if |storedRels| <= RelationshipLimit then |storedRels| else RelationshipLimit)
            && r.data.value.settings == SettingsOf(ChosenConfig(diagramId, diagrams)))
  {
  }

  /** The nodes follow the dict's keys one by one. */
  lemma NodesFollowNames(t: Tables, config: Option<DiagramConfig>)
    requires WellFormed(t)
    ensures var nodes := NodesOf(t, config, t.names);
      |nodes| == |t.names|
      && forall k :: 0 <= k < |nodes| ==>
           nodes[k].id == t.names[k] && nodes[k].caption == t.names[k] && nodes[k].columns == ColumnsFor(t.columns[t.names[k]])
  {
  }

  /** There is exactly one node per table name of the records. */
  lemma NodesCoverTables(metas: seq<ColumnMeta>, config: Option<DiagramConfig>)
    ensures var t := GroupTables(metas);
      var nodes := NodesOf(t, config, t.names);
      (forall n :: Occurs(metas, n) ==> exists k :: 0 <= k < |nodes| && nodes[k].id == n)
      && (forall k :: 0 <= k < |nodes| ==> Occurs(metas, nodes[k].id))
  {
    var t := GroupTables(metas);
    NodesFollowNames(t, config);
    GroupTablesFacts(metas);
    NodesCover(metas, t, NodesOf(t, config, t.names));
  }

  /** No two nodes share a table name, and they come in order of each table's first record. */
  lemma NodesFirstSeen(metas: seq<ColumnMeta>, config: Option<DiagramConfig>)
    ensures var t := GroupTables(metas);
      var nodes := NodesOf(t, config, t.names);
      (forall i, j :: 0 <= i < j < |nodes| ==> nodes[i].id != nodes[j].id)
      && (forall i, j :: 0 <= i < j < |nodes| ==> FirstIndex(metas, nodes[i].id) < FirstIndex(metas, nodes[j].id))
  {
    var t := GroupTables(metas);
    NodesFollowNames(t, config);
    GroupTablesFirstSeen(metas);
  }

  /** Each node is labelled with its table name and holds that table's columns in metadata order. */
  lemma NodeColumns(metas: seq<ColumnMeta>, config: Option<DiagramConfig>)
    ensures var t := GroupTables(metas);
      var nodes := NodesOf(t, config, t.names);
      forall k :: 0 <= k < |nodes| ==>
        nodes[k].caption == nodes[k].id && nodes[k].columns == ColumnsFor(ColumnsOf(metas, nodes[k].id))
  {
    var t := GroupTables(metas);
    NodesFollowNames(t, config);
    GroupTablesFacts(metas);
  }

  lemma NodesCover(metas: seq<ColumnMeta>, t: Tables, nodes: seq<TableNode>)
    requires WellFormed(t) && |nodes| == |t.names|
    requires forall k :: 0 <= k < |nodes| ==> nodes[k].id == t.names[k]
    requires forall n :: n in t.columns <==> Occurs(metas, n)
    ensures forall n :: Occurs(metas, n) ==> exists k :: 0 <= k < |nodes| && nodes[k].id == n
  {
    forall n | Occurs(metas, n)
      ensures exists k :: 0 <= k < |nodes| && nodes[k].id == n
    {
      assert n in t.names;
      var k :| 0 <= k < |t.names| && t.names[k] == n;
      assert nodes[k].id == n;
    }
  }

  /**
   * A node has a position exactly when a diagram is chosen whose layout
   * positions that table; non-empty settings come from the chosen diagram.
   */
  lemma PositionFacts(t: Tables, diagramId: Option<int>, diagrams: map<int, DiagramConfig>, k: nat)
    requires WellFormed(t) && k < |t.names|
    ensures var n := NodesOf(t, ChosenConfig(diagramId, diagrams), t.names)[k];
      n.position.Some? <==>
        diagramId.Some? && diagramId.value != 0 && diagramId.value in diagrams
        && n.id in diagrams[diagramId.value].positions
    ensures var s := SettingsOf(ChosenConfig(diagramId, diagrams));
      s != map[] ==> diagramId.Some? && diagramId.value in diagrams && diagrams[diagramId.value].settings == Some(s)
  {
  }

  /** An edge is identified by both tables and the relationship id, and labelled by its type. */
  lemma EdgeFacts(rel: StoredRelationship)
    ensures EdgeOf(rel).id == rel.sourceTable + "-" + rel.targetTable + "-" + IntToString(rel.id)
    ensures EdgeOf(rel).caption == EdgeLabel(rel.relType)
    ensures EdgeOf(rel).source == rel.sourceTable && EdgeOf(rel).target == rel.targetTable
  {
  }

  /** The node loop, with the loop over each table's columns inside. */
  method BuildNodes(t: Tables, config: Option<DiagramConfig>) returns (nodes: seq<TableNode>)
    requires WellFormed(t)
    ensures nodes == NodesOf(t, config, t.names)
  {
    nodes := [];
    var i := 0;
    while i < |t.names|
      invariant 0 <= i <= |t.names|
      invariant nodes == NodesOf(t, config, t.names[..i])
    {
      assert t.names[..i + 1][..i] == t.names[..i];
      var name := t.names[i];
      var cols := t.columns[name];
      var tableColumns: seq<TableColumn> := [];
      var k := 0;
      while k < |cols|
        invariant 0 <= k <= |cols|
        invariant tableColumns == ColumnsFor(cols[..k])
      {
        assert cols[..k + 1][..k] == cols[..k];
        tableColumns := tableColumns + [ColumnOf(cols[k])];
        k := k + 1;
      }
      assert cols[..k] == cols;
      var position: Option<Point> := None;
      if config.Some? && name in config.value.positions {
        position := Some(config.value.positions[name]);
      }
      nodes := nodes + [TableNode(name, name, tableColumns, position)];
      i := i + 1;
    }
    assert t.names[..i] == t.names;
  }

  method BuildEdges(rels: seq<StoredRelationship>) returns (edges: seq<RelationshipEdge>)
    ensures edges == EdgesOf(rels)
  {
    edges := [];
    var i := 0;
    while i < |rels|
      invariant 0 <= i <= |rels|
      invariant edges == EdgesOf(rels[..i])
    {
      assert rels[..i + 1][..i] == rels[..i];
      var rel := rels[i];
      var caption := "?";
      if rel.relType == OneToOne {
        caption := "1:1";
      } else if rel.relType == OneToMany {
        caption := "1:N";
      } else if rel.relType == ManyToMany {
        caption := "N:M";
      }
      edges := edges + [RelationshipEdge(rel.sourceTable + "-" + rel.targetTable + "-" + IntToString(rel.id),
        rel.sourceTable, rel.targetTable, rel.relType, rel.sourceColumns, rel.targetColumns, caption)];
      i := i + 1;
    }
    assert rels[..i] == rels;
  }

  method GenerateDiagramData(stored: seq<ColumnMeta>, storedRels: seq<StoredRelationship>, diagramId: Option<int>,
                             diagrams: map<int, DiagramConfig>) returns (r: DiagramResult)
    ensures r == DiagramOf(stored, storedRels, diagramId, diagrams)
  {
    var metas := FirstRecords(stored, MetadataLimit);
    if |metas| == 0 {
      return DiagramResult(None, Some(NoMetadataMessage));
    }
    var rels := FirstRecords(storedRels, RelationshipLimit);
    if |rels| == 0 {
      return DiagramResult(None, Some(NoRelationshipsMessage));
    }
    var config: Option<DiagramConfig> := None;
    if diagramId.Some? && diagramId.value != 0 && diagramId.value in diagrams {
      config := Some(diagrams[diagramId.value]);
    }
    var t := GroupByTable(metas);
    var nodes := BuildNodes(t, config);
    var edges := BuildEdges(rels);
    var settings: map<string, string> := map[];
    if config.Some? && config.value.settings.Some? && |config.value.settings.value| > 0 {
      settings := config.value.settings.value;
    }
    r := DiagramResult(Some(DiagramData(nodes, edges, settings)), None);
  }
}
