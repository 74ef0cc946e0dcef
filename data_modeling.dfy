/**
 * The data-modeling page: the ER diagram the back end sends (table nodes
 * and relationship edges) is converted into the entities and relationships
 * the entity-relationship view draws, and a search box selects the first
 * entity whose id or name contains the query, ignoring case.
 */
module DataModeling {
  import opened Common
  import opened EntityRelationGraph
  import DbMetadataSync

  /** A column of a table node; `size` is absent or a number. */
  datatype TableColumn = TableColumn(name: string, dataType: string, size: Option<int>,
                                     isPrimaryKey: bool, isForeignKey: bool, description: Option<string>)

  datatype TableNode = TableNode(id: string, caption: string, columns: seq<TableColumn>)

  /** A relationship edge; `caption` is the optional `label`. */
  datatype RelationshipEdge = RelationshipEdge(id: string, source: string, target: string, relationshipType: string,
                                               sourceColumns: seq<string>, targetColumns: seq<string>,
                                               caption: Option<string>)

  // ---------------------------------------------------------------
  // Entities
  // ---------------------------------------------------------------

  /** `col.size` is truthy: present and not zero. */
  predicate HasSize(col: TableColumn)
  {
    col.size.Some? && col.size.value != 0
  }

  /** `data_type` followed by `(size)` when the size is truthy. */
  function FieldType(col: TableColumn): string
  {
    col.dataType + if HasSize(col) then "(" + IntToString(col.size.value) + ")" else ""
  }

  function FieldOf(col: TableColumn): Field
  {
    Field(col.name, FieldType(col), col.isPrimaryKey, col.isForeignKey, col.description)
  }

  function EntityOf(node: TableNode): Entity
  {
    Entity(node.id, node.caption, "table", seq(|node.columns|, j requires 0 <= j < |node.columns| => FieldOf(node.columns[j])))
  }

  /** `convertToEntityModel`. */
  function ConvertToEntityModel(nodes: seq<TableNode>): seq<Entity>
  {
    seq(|nodes|, i requires 0 <= i < |nodes| => EntityOf(nodes[i]))
  }

  /**
   * One entity per node, in order: the node's id, its label as the name,
   * the `table` type, and one field per column, in order, with the
   * column's name, flags and description.
   */
  lemma EntityModelFacts(nodes: seq<TableNode>)
    ensures |ConvertToEntityModel(nodes)| == |nodes|
    ensures forall i :: 0 <= i < |nodes| ==>
      ConvertToEntityModel(nodes)[i].id == nodes[i].id
      && ConvertToEntityModel(nodes)[i].name == nodes[i].caption
      && ConvertToEntityModel(nodes)[i].kind == "table"
      && |ConvertToEntityModel(nodes)[i].fields| == |nodes[i].columns|
    ensures forall i, j :: 0 <= i < |nodes| && 0 <= j < |nodes[i].columns| ==>
      var f := ConvertToEntityModel(nodes)[i].fields[j];
      var c := nodes[i].columns[j];
      f.name == c.name && f.isPrimaryKey == c.isPrimaryKey && f.isForeignKey == c.isForeignKey
      && f.description == c.description && f.typeText == FieldType(c)
  {
  }

  /**
   * A field's type text starts with the data type, and is exactly the data
   * type when the size is falsy; a truthy size adds a suffix.
   */
  lemma FieldTypeShape(col: TableColumn)
    ensures StartsWith(FieldType(col), col.dataType)
    ensures FieldType(col) == col.dataType <==> !HasSize(col)
  {
    assert FieldType(col)[..|col.dataType|] == col.dataType;
  }

  /**
   * The type text the page shows reads back, through the MySQL column-type
   * parser of the metadata sync, as the column's data type and size, when
   * the data type has no parenthesis of its own.
   */
  lemma FieldTypeReadsBack(col: TableColumn)
    requires HasSize(col) && '(' !in col.dataType
    ensures DbMetadataSync.ParseColumnType(FieldType(col))
      == Some(DbMetadataSync.ColumnType(col.dataType, col.size))
  {
    DbMetadataSync.ParseSizedType(col.dataType, col.size.value, "");
    assert col.dataType + "(" + IntToString(col.size.value) + ")" + "" == FieldType(col);
  }

  // ---------------------------------------------------------------
  // Relationships
  // ---------------------------------------------------------------

  /** `getRelationshipTypeLabel`. */
  function RelationshipTypeLabel(t: string): (r: string)
    ensures r in {"1:1", "1:N", "N:M", "N:1"}
  {
    if t == "one_to_one" then "1:1"
    else if t == "one_to_many" then "1:N"
    else if t == "many_to_many" then "N:M"
    else "N:1"
  }

  /** Only the three known kinds have their own label; every other kind reads `N:1`. */
  lemma RelationshipTypeLabelCases(t: string)
    ensures RelationshipTypeLabel(t) == "N:1" <==> t !in {"one_to_one", "one_to_many", "many_to_many"}
    ensures RelationshipTypeLabel(t) == "1:1" <==> t == "one_to_one"
    ensures RelationshipTypeLabel(t) == "1:N" <==> t == "one_to_many"
    ensures RelationshipTypeLabel(t) == "N:M" <==> t == "many_to_many"
  {
  }

  /** `edge.label || getRelationshipTypeLabel(edge.relationship_type)`. */
  function RelationshipOf(edge: RelationshipEdge): Relationship
  {
    var text := if edge.caption.Some? && edge.caption.value != "" then edge.caption.value
                else RelationshipTypeLabel(edge.relationshipType);
    Relationship(edge.id, edge.source, edge.target, text)
  }

  /** `convertToRelationshipModel`. */
  function ConvertToRelationshipModel(edges: seq<RelationshipEdge>): seq<Relationship>
  {
    seq(|edges|, i requires 0 <= i < |edges| => RelationshipOf(edges[i]))
  }

  /**
   * One relationship per edge, in order, with the edge's id, source and
   * target; its type text is the edge's label when that is a non-empty
   * text, and otherwise the label of the edge's relationship kind.
   */
  lemma RelationshipModelFacts(edges: seq<RelationshipEdge>)
    ensures |ConvertToRelationshipModel(edges)| == |edges|
    ensures forall i :: 0 <= i < |edges| ==>
      var r := ConvertToRelationshipModel(edges)[i];
      r.id == edges[i].id && r.source == edges[i].source && r.target == edges[i].target
    ensures forall i :: 0 <= i < |edges| && edges[i].caption.Some? && edges[i].caption.value != "" ==>
      ConvertToRelationshipModel(edges)[i].relationshipType == edges[i].caption.value
    ensures forall i :: 0 <= i < |edges| && (edges[i].caption.None? || edges[i].caption.value == "") ==>
      ConvertToRelationshipModel(edges)[i].relationshipType == RelationshipTypeLabel(edges[i].relationshipType)
  {
  }

  // ---------------------------------------------------------------
  // Search
  // ---------------------------------------------------------------

  /** The entity's id or name, lower-cased, contains the lower-cased query. */
  predicate MatchesQuery(e: Entity, value: string)
  {
    Contains(Lower(e.id), Lower(value)) || Contains(Lower(e.name), Lower(value))
  }

  /** `entities.find(...)`: the index of the first entity matching the query. */
  function FindEntity(entities: seq<Entity>, value: string): (r: Option<nat>)
    ensures r.Some? ==> r.value < |entities| && MatchesQuery(entities[r.value], value)
    ensures r.Some? ==> forall j :: 0 <= j < r.value ==> !MatchesQuery(entities[j], value)
    ensures r.None? ==> forall j :: 0 <= j < |entities| ==> !MatchesQuery(entities[j], value)
    decreases |entities|
  {
    if |entities| == 0 then None
    else if MatchesQuery(entities[0], value) then Some(0)
    else
      match FindEntity(entities[1..], value)
      case None => None
      case Some(i) => Some(i + 1)
  }

  /**
   * `handleSearch`: the new selected entity id. An empty query keeps the
   * selection; otherwise the first matching entity is selected, and a miss
   * keeps the selection.
   */
  function HandleSearch(entities: seq<Entity>, value: string, selection: Option<string>): (r: Option<string>)
    ensures value == "" ==> r == selection
    ensures value != "" && FindEntity(entities, value).None? ==> r == selection
    ensures forall i :: (0 <= i < |entities| && value != "" && MatchesQuery(entities[i], value)
      && forall j :: 0 <= j < i ==> !MatchesQuery(entities[j], value)) ==> r == Some(entities[i].id)
  {
    if value == "" then selection
    else
      match FindEntity(entities, value)
      case Some(i) => Some(entities[i].id)
      case None => selection
  }

  /** Upper- and lower-case letters in the query match alike. */
  lemma {:induction false} SearchIgnoresCase(entities: seq<Entity>, value: string, selection: Option<string>)
    requires value != ""
    ensures HandleSearch(entities, Lower(value), selection) == HandleSearch(entities, value, selection)
  {
    LowerIdempotent(value);
    assert forall k :: 0 <= k < |entities| ==> (MatchesQuery(entities[k], Lower(value)) <==> MatchesQuery(entities[k], value));
    match FindEntity(entities, value)
    case Some(i) =>
    case None =>
  }

  /** Searching for an entity's exact id always selects some entity. */
  lemma SearchByIdHits(entities: seq<Entity>, i: nat)
    requires i < |entities|
    ensures FindEntity(entities, entities[i].id).Some?
    ensures FindEntity(entities, entities[i].id).value <= i
  {
    ContainsInfix("", Lower(entities[i].id), "");
    assert "" + Lower(entities[i].id) + "" == Lower(entities[i].id);
  }
}
