/**
 * The knowledge-graph visualisation service: decoding Nebula values for
 * JSON, turning vertices and edges into display nodes and edges, the text
 * of the neighbourhood and search queries, and the loops that gather the
 * result rows into a graph without duplicate nodes or edges.
 *
 * The Nebula session is the parameter `answer(space, statement)`; Python's
 * str() of a float, list or dict is the parameter `strOf`.
 */
module KgVisualization {
  import opened Common
  import opened Temporal

  /** A clock time Nebula can hold. */
  type ClockTime = t: Time | t.Valid() witness Midnight

  /** A value as the Nebula client hands it over (a ValueWrapper). */
  datatype GraphValue =
    | NullValue
    | EmptyValue
    | BoolValue(b: bool)
    | IntValue(i: int)
    | DoubleValue(d: real)
    | StringValue(s: string)
    | DateValue(date: CalendarDate)
    | DateTimeValue(date: CalendarDate, time: ClockTime, zone: string)
    | TimeValue(time: ClockTime)
    | ListValue(items: seq<GraphValue>)
    | MapValue(entries: seq<Entry>)
    | SetValue(items: seq<GraphValue>)
      /** A path, vertex or edge; `text` is what as_string() yields, None where it raises. */
    | OtherValue(text: Option<string>)

  datatype Entry = Entry(key: string, value: GraphValue)

  /** The plain Python value the service puts into a JSON response. */
  datatype Json =
    | JNull
    | JBool(b: bool)
    | JInt(i: int)
    | JDouble(d: real)
    | JString(s: string)
    | JList(items: seq<Json>)
    | JObject(entries: seq<JsonEntry>)

  datatype JsonEntry = JsonEntry(key: string, value: Json)

  // ---------------------------------------------------------------
  // Value decoding
  // ---------------------------------------------------------------

  function DateTimeText(d: CalendarDate, t: ClockTime, zone: string): string
  {
    DateText(d) + "T" + TimeText(t, true) + zone
  }

  /** format_nebula_value_for_json; None where the decoding raises. */
  function Decode(v: GraphValue): (r: Option<Json>)
    decreases v
  {
    match v
    case NullValue => Some(JNull)
    case EmptyValue => Some(JString(""))
    case BoolValue(b) => Some(JBool(b))
    case IntValue(i) => Some(JInt(i))
    case DoubleValue(d) => Some(JDouble(d))
    case StringValue(s) => Some(JString(s))
    case DateValue(d) => Some(JString(DateText(d)))
    case DateTimeValue(d, t, zone) => Some(JString(DateTimeText(d, t, zone)))
    case TimeValue(t) => Some(JString(TimeText(t, true)))
    case ListValue(items) =>
      var ds := seq(|items|, i requires 0 <= i < |items| => Decode(items[i]));
      if forall i :: 0 <= i < |ds| ==> ds[i].Some? then Some(JList(seq(|ds|, i requires 0 <= i < |ds| && ds[i].Some? => ds[i].value)))
      else None
    case SetValue(items) =>
      var ds := seq(|items|, i requires 0 <= i < |items| => Decode(items[i]));
      if forall i :: 0 <= i < |ds| ==> ds[i].Some? then Some(JList(seq(|ds|, i requires 0 <= i < |ds| && ds[i].Some? => ds[i].value)))
      else None
    case MapValue(entries) =>
      var ds := seq(|entries|, i requires 0 <= i < |entries| => Decode(entries[i].value));
      if forall i :: 0 <= i < |ds| ==> ds[i].Some? then
        Some(JObject(seq(|ds|, i requires 0 <= i < |ds| && ds[i].Some? => JsonEntry(entries[i].key, ds[i].value))))
      else None
    case OtherValue(text) =>
      (match text case Some(s) => Some(JString(s)) case None => None)
  }

  /** Null and empty values, and the scalar cases. */
  lemma DecodeScalars(v: GraphValue)
    ensures v == NullValue ==> Decode(v) == Some(JNull)
    ensures v == EmptyValue ==> Decode(v) == Some(JString(""))
    ensures v.StringValue? ==> Decode(v) == Some(JString(v.s))
    ensures v.IntValue? ==> Decode(v) == Some(JInt(v.i))
    ensures v.BoolValue? ==> Decode(v) == Some(JBool(v.b))
  {
  }

  /**
   * Lists and sets decode element by element into a list of the same length;
   * the decoding fails exactly when an element's does.
   */
  lemma DecodeItems(v: GraphValue)
    requires v.ListValue? || v.SetValue?
    ensures Decode(v).Some? <==> forall i :: 0 <= i < |v.items| ==> Decode(v.items[i]).Some?
    ensures Decode(v).Some? ==> Decode(v).value.JList? && |Decode(v).value.items| == |v.items|
    ensures Decode(v).Some? ==> forall i :: 0 <= i < |v.items| ==> Decode(v.items[i]) == Some(Decode(v).value.items[i])
  {
    var ds := seq(|v.items|, i requires 0 <= i < |v.items| => Decode(v.items[i]));
    assert forall i :: 0 <= i < |v.items| ==> ds[i] == Decode(v.items[i]);
  }

  /** Maps keep their keys in order and decode their values. */
  lemma DecodeEntries(v: GraphValue)
    requires v.MapValue?
    ensures Decode(v).Some? <==> forall i :: 0 <= i < |v.entries| ==> Decode(v.entries[i].value).Some?
    ensures Decode(v).Some? ==> Decode(v).value.JObject? && |Decode(v).value.entries| == |v.entries|
    ensures Decode(v).Some? ==> forall i :: 0 <= i < |v.entries| ==>
      Decode(v).value.entries[i].key == v.entries[i].key
      && Decode(v.entries[i].value) == Some(Decode(v).value.entries[i].value)
  {
    var ds := seq(|v.entries|, i requires 0 <= i < |v.entries| => Decode(v.entries[i].value));
    assert forall i :: 0 <= i < |v.entries| ==> ds[i] == Decode(v.entries[i].value);
  }

  /** Dates decode to YYYY-MM-DD text that reads back as the same date. */
  lemma DecodeDate(d: CalendarDate)
    ensures Decode(DateValue(d)).Some? && Decode(DateValue(d)).value.JString?
    ensures var text := Decode(DateValue(d)).value.s;
      |text| == 10 && ParseIsoDate(text).Some? && ParseIsoDate(text).value == d
  {
    DateTextShape(d);
    ParseIsoDateOfDateText(d);
  }

  /** Times decode to HH:MM:SS.ffffff text that reads back as the same time. */
  lemma DecodeTime(t: ClockTime)
    ensures Decode(TimeValue(t)).Some? && Decode(TimeValue(t)).value.JString?
    ensures var text := Decode(TimeValue(t)).value.s;
      |text| == 15 && ParseClock(text).Some? && ParseClock(text).value == t
  {
    TimeTextShape(t, true);
    ParseClockOfTimeText(t, true);
  }

  /** Date-times decode to date, `T`, the time with microseconds, and the zone text. */
  lemma DecodeDateTime(d: CalendarDate, t: ClockTime, zone: string)
    ensures Decode(DateTimeValue(d, t, zone)).Some?
    ensures var text := Decode(DateTimeValue(d, t, zone)).value.s;
      |text| == 26 + |zone| && text[10] == 'T'
      && ParseIsoDate(text[..10]).Some? && ParseIsoDate(text[..10]).value == d
      && ParseClock(text[11..26]).Some? && ParseClock(text[11..26]).value == t
      && text[26..] == zone
  {
    DateTextShape(d);
    ParseIsoDateOfDateText(d);
    TimeTextShape(t, true);
    ParseClockOfTimeText(t, true);
    var text := DateTimeText(d, t, zone);
    assert text[..10] == DateText(d);
    assert text[11..26] == TimeText(t, true);
  }

  /** A node's or an edge's property dict, decoded; None where a value's decoding raises. */
  function DecodeProperties(raw: map<string, GraphValue>): (r: Option<map<string, Json>>)
    ensures r.Some? <==> forall k :: k in raw ==> Decode(raw[k]).Some?
    ensures r.Some? ==> r.value.Keys == raw.Keys && forall k :: k in raw ==> Decode(raw[k]) == Some(r.value[k])
  {
    if forall k :: k in raw ==> Decode(raw[k]).Some? then Some(map k | k in raw :: Decode(raw[k]).value)
    else None
  }

  // ---------------------------------------------------------------
  // Nodes
  // ---------------------------------------------------------------

  /** Python's truth value of a decoded value. */
  predicate Truthy(j: Json)
  {
    match j
    case JNull => false
    case JBool(b) => b
    case JInt(i) => i != 0
    case JDouble(d) => d != 0.0
    case JString(s) => |s| > 0
    case JList(items) => |items| > 0
    case JObject(entries) => |entries| > 0
  }

  /** Python's str() of a decoded value; floats, lists and dicts are left to `strOf`. */
  function PyStr(j: Json, strOf: Json -> string): string
  {
    match j
    case JString(s) => s
    case JBool(b) => if b then "True" else "False"
    case JInt(i) => IntToString(i)
    case _ => strOf(j)
  }

  datatype VertexId = StringVid(s: string) | IntVid(i: int)

  /** The VID as text: the string itself, or str() of the integer. */
  function VidText(v: VertexId): string
  {
    match v
    case StringVid(s) => s
    case IntVid(i) => IntToString(i)
  }

  /** A vertex: its VID, its tags in order, and the property dict of each tag. */
  datatype Vertex = Vertex(vid: VertexId, tags: seq<string>, tagProperties: map<string, map<string, GraphValue>>)

  /** A display node (KGNode). */
  datatype KGNode = KGNode(id: string, caption: string, tag: string, properties: map<string, Json>)

  const UnknownTag := "UnknownTag"
  const LabelCandidates: seq<string> := ["name", "label", "title", "id"]

  /** The first candidate whose property is truthy, rendered with str(); None when there is none. */
  function LabelFrom(props: map<string, Json>, candidates: seq<string>, strOf: Json -> string): (r: Option<string>)
  {
    if |candidates| == 0 then None
    else if candidates[0] in props && Truthy(props[candidates[0]]) then Some(PyStr(props[candidates[0]], strOf))
    else LabelFrom(props, candidates[1..], strOf)
  }

  /** Holds for the candidate at index i when its property is present and truthy. */
  predicate Labels(props: map<string, Json>, candidates: seq<string>, i: int)
    requires 0 <= i < |candidates|
  {
    candidates[i] in props && Truthy(props[candidates[i]])
  }

  /**
   * The label is found exactly when some candidate labels the node, and it
   * is then the str() of the first such candidate's value.
   */
  lemma {:induction false} LabelFromFacts(props: map<string, Json>, candidates: seq<string>, strOf: Json -> string)
    ensures LabelFrom(props, candidates, strOf).None? <==> forall i :: 0 <= i < |candidates| ==> !Labels(props, candidates, i)
    ensures LabelFrom(props, candidates, strOf).Some? ==>
      exists i :: 0 <= i < |candidates| && Labels(props, candidates, i)
        && (forall j :: 0 <= j < i ==> !Labels(props, candidates, j))
        && LabelFrom(props, candidates, strOf).value == PyStr(props[candidates[i]], strOf)
  {
    if |candidates| > 0 {
      var rest := candidates[1..];
      LabelFromFacts(props, rest, strOf);
      if Labels(props, candidates, 0) {
      } else {
        forall i | 0 <= i < |rest|
          ensures Labels(props, rest, i) == Labels(props, candidates, i + 1)
        {
        }
        if LabelFrom(props, rest, strOf).Some? {
          var i :| 0 <= i < |rest| && Labels(props, rest, i)
            && (forall j :: 0 <= j < i ==> !Labels(props, rest, j))
            && LabelFrom(props, rest, strOf).value == PyStr(props[rest[i]], strOf);
          assert Labels(props, candidates, i + 1);
          assert forall j :: 0 <= j < i + 1 ==> !Labels(props, candidates, j) by {
            forall j | 0 <= j < i + 1
              ensures !Labels(props, candidates, j)
            {
              if j > 0 {
                assert !Labels(props, rest, j - 1);
              }
            }
          }
        } else {
          forall i | 0 <= i < |candidates|
            ensures !Labels(props, candidates, i)
          {
            if i > 0 {
              assert !Labels(props, rest, i - 1);
            }
          }
        }
      }
    }
  }

  /** The label of a node: the first truthy candidate property, else the VID text. */
  function NodeLabel(props: map<string, Json>, vidText: string, strOf: Json -> string): string
  {
    LabelFrom(props, LabelCandidates, strOf).GetOr(vidText)
  }

  /** parse_nebula_node; None where decoding a property raises. */
  function ParseNode(v: Vertex, strOf: Json -> string): Option<KGNode>
  {
    var tag := if |v.tags| > 0 then v.tags[0] else UnknownTag;
    var raw := if |v.tags| > 0 && v.tags[0] in v.tagProperties then v.tagProperties[v.tags[0]] else map[];
    match DecodeProperties(raw)
    case None => None
    case Some(props) => Some(KGNode(VidText(v.vid), NodeLabel(props, VidText(v.vid), strOf), tag, props))
  }

  /**
   * A parsed node keeps the VID text as its id, takes the first tag (or
   * UnknownTag), and its properties are exactly those of that first tag.
   */
  lemma ParseNodeFacts(v: Vertex, strOf: Json -> string)
    ensures ParseNode(v, strOf).Some? ==>
      var n := ParseNode(v, strOf).value;
      n.id == VidText(v.vid)
      && (|v.tags| == 0 ==> n.tag == UnknownTag && n.properties == map[] && n.caption == n.id)
      && (|v.tags| > 0 ==> n.tag == v.tags[0])
      && (|v.tags| > 0 && v.tags[0] in v.tagProperties ==> n.properties.Keys == v.tagProperties[v.tags[0]].Keys)
  {
    if |v.tags| == 0 {
      LabelFromFacts(map[], LabelCandidates, strOf);
    }
  }

  /** The label loop of parse_nebula_node, with its early exit. */
  method ChooseLabel(props: map<string, Json>, vidText: string, strOf: Json -> string) returns (caption: string)
    ensures caption == NodeLabel(props, vidText, strOf)
  {
    caption := vidText;
    var i := 0;
    while i < |LabelCandidates|
      invariant 0 <= i <= |LabelCandidates|
      invariant LabelFrom(props, LabelCandidates, strOf) == LabelFrom(props, LabelCandidates[i..], strOf)
      invariant caption == vidText
    {
      var candidate := LabelCandidates[i];
      assert LabelCandidates[i..][1..] == LabelCandidates[i + 1..];
      if candidate in props && Truthy(props[candidate]) {
        caption := PyStr(props[candidate], strOf);
        return;
      }
      i := i + 1;
    }
  }

  method ParseNebulaNode(v: Vertex, strOf: Json -> string) returns (r: Option<KGNode>)
    ensures r == ParseNode(v, strOf)
  {
    var tag := UnknownTag;
    var raw: map<string, GraphValue> := map[];
    if |v.tags| > 0 {
      tag := v.tags[0];
      if v.tags[0] in v.tagProperties {
        raw := v.tagProperties[v.tags[0]];
      }
    }
    var props := DecodeProperties(raw);
    if props.None? {
      return None;
    }
    var id := VidText(v.vid);
    var caption := ChooseLabel(props.value, id, strOf);
    r := Some(KGNode(id, caption, tag, props.value));
  }

  // ---------------------------------------------------------------
  // Edges
  // ---------------------------------------------------------------

  /** A Nebula relationship: source and destination VIDs, edge type name, rank, properties. */
  datatype Relationship = Relationship(src: VertexId, dst: VertexId, name: string, rank: int, properties: map<string, GraphValue>)

  /** A display edge (KGEdge). */
  datatype KGEdge = KGEdge(id: string, source: string, target: string, caption: string, properties: map<string, Json>)

  /** `<src>_<edge name>_<rank>_<dst>`. */
  function EdgeKey(src: string, name: string, rank: int, dst: string): string
  {
    src + "_" + name + "_" + IntToString(rank) + "_" + dst
  }

  /** parse_nebula_edge; None where decoding a property raises. */
  function ParseEdge(e: Relationship): Option<KGEdge>
  {
    match DecodeProperties(e.properties)
    case None => None
    case Some(props) =>
      Some(KGEdge(EdgeKey(VidText(e.src), e.name, e.rank, VidText(e.dst)), VidText(e.src), VidText(e.dst), e.name, props))
  }

  /**
   * When neither VID nor the edge name holds an underscore, the edge id
   * splits back into its four components.
   */
  lemma EdgeKeyRoundTrip(src: string, name: string, rank: int, dst: string)
    requires '_' !in src && '_' !in name && '_' !in dst
    ensures Split(EdgeKey(src, name, rank, dst), '_') == [src, name, IntToString(rank), dst]
  {
    var r := IntToString(rank);
    NumberOmits(rank, '_');
    SplitWithoutSeparator(dst, '_');
    SplitAfterHead(r, '_', dst);
    assert r + "_" + dst == r + ['_'] + dst;
    SplitAfterHead(name, '_', r + "_" + dst);
    assert name + "_" + r + "_" + dst == name + ['_'] + (r + "_" + dst);
    SplitAfterHead(src, '_', name + "_" + r + "_" + dst);
    assert EdgeKey(src, name, rank, dst) == src + ['_'] + (name + "_" + r + "_" + dst);
  }

  /** An edge is displayed between its VIDs, labelled with its type name, identified by its key. */
  lemma ParseEdgeFacts(e: Relationship)
    ensures ParseEdge(e).Some? <==> DecodeProperties(e.properties).Some?
    ensures ParseEdge(e).Some? ==>
      var d := ParseEdge(e).value;
      d.source == VidText(e.src) && d.target == VidText(e.dst) && d.caption == e.name
      && d.id == EdgeKey(d.source, e.name, e.rank, d.target)
      && d.properties.Keys == e.properties.Keys
  {
  }

  // ---------------------------------------------------------------
  // Query text
  // ---------------------------------------------------------------

  /** The node id as it goes into the query: bare when all digits, else double-quoted. */
  function QueryNodeId(nodeId: string): string
  {
    if |nodeId| > 0 && AllDigits(nodeId) then nodeId else "\"" + nodeId + "\""
  }

  /** A digit-only id is used as is; any other is recoverable between the quotes. */
  lemma QueryNodeIdFacts(nodeId: string)
    ensures |nodeId| > 0 && AllDigits(nodeId) ==> QueryNodeId(nodeId) == nodeId
    ensures !(|nodeId| > 0 && AllDigits(nodeId)) ==>
      var q := QueryNodeId(nodeId);
      |q| == |nodeId| + 2 && q[0] == '"' && q[|q| - 1] == '"' && q[1..|q| - 1] == nodeId
  {
  }

  function Backticked(types: seq<string>): (r: seq<string>)
    ensures |r| == |types|
  {
    seq(|types|, i requires 0 <= i < |types| => "`" + types[i] + "`")
  }

  /** `*` for every edge type, else `:` followed by the back-ticked types joined with `|:`. */
  function EdgePattern(types: seq<string>): string
  {
    if |types| == 0 then "*" else ":" + Join(Backticked(types), "|:")
  }

  function Alternatives(types: seq<string>): (r: seq<string>)
    ensures |r| == |types|
  {
    seq(|types|, i requires 0 <= i < |types| => ":`" + types[i] + "`")
  }

  lemma {:induction false} JoinBackticked(types: seq<string>)
    requires |types| > 0
    ensures ":" + Join(Backticked(types), "|:") == Join(Alternatives(types), "|")
    decreases |types|
  {
    if |types| > 1 {
      var rest := types[1..];
      JoinBackticked(rest);
      assert Backticked(types)[1..] == Backticked(rest);
      assert Alternatives(types)[1..] == Alternatives(rest);
      assert Join(Alternatives(rest), "|") == ":" + Join(Backticked(rest), "|:");
    }
  }

  /** Given edge types, the pattern is the alternatives `:`type`` separated by `|`. */
  lemma EdgePatternAlternatives(types: seq<string>)
    ensures |types| == 0 ==> EdgePattern(types) == "*"
    ensures |types| > 0 ==> EdgePattern(types) == Join(Alternatives(types), "|")
  {
    if |types| > 0 {
      JoinBackticked(types);
    }
  }

  /** The heuristic path limit. */
  function PathLimit(limitPerNode: int, hops: int): int
  {
    limitPerNode * (hops + 5)
  }

  function NeighborQueryHead(types: seq<string>, hops: int): string
  {
    "MATCH p=(v1)-[e*" + EdgePattern(types) + "*1.." + IntToString(hops) + "]-(v2) "
  }

  function NeighborQueryWhere(nodeId: string): string
  {
    "WHERE id(v1) == " + QueryNodeId(nodeId) + " "
  }

  function NeighborQueryTail(limitPerNode: int, hops: int): string
  {
    "RETURN p LIMIT " + IntToString(PathLimit(limitPerNode, hops))
  }

  /** The MATCH statement of get_graph_neighbors. */
  function NeighborQuery(nodeId: string, hops: int, limitPerNode: int, types: seq<string>): string
  {
    NeighborQueryHead(types, hops) + NeighborQueryWhere(nodeId) + NeighborQueryTail(limitPerNode, hops)
  }

  /**
   * The statement starts with the path pattern over the edge types, names the
   * node by its query id, and ends with the path limit.
   */
  lemma NeighborQueryFacts(nodeId: string, hops: int, limitPerNode: int, types: seq<string>)
    ensures var q := NeighborQuery(nodeId, hops, limitPerNode, types);
      StartsWith(q, "MATCH p=(v1)-[e*" + EdgePattern(types) + "*1..")
      && Contains(q, "WHERE id(v1) == " + QueryNodeId(nodeId) + " ")
      && q[|q| - |NeighborQueryTail(limitPerNode, hops)|..] == "RETURN p LIMIT " + IntToString(limitPerNode * (hops + 5))
  {
    var q := NeighborQuery(nodeId, hops, limitPerNode, types);
    var head := NeighborQueryHead(types, hops);
    var prefix := "MATCH p=(v1)-[e*" + EdgePattern(types) + "*1..";
    assert head == prefix + (IntToString(hops) + "]-(v2) ");
    assert q[..|prefix|] == prefix;
    ContainsInfix(head, NeighborQueryWhere(nodeId), NeighborQueryTail(limitPerNode, hops));
  }

  /** The MATCH clause of the search: the first target tag, or none. */
  function SearchHead(tags: seq<string>): string
  {
    if |tags| == 0 then "MATCH (v)" else "MATCH (v:`" + tags[0] + "`)"
  }

  function SearchTail(queryString: string, limit: int): string
  {
    " WHERE v.name CONTAINS \"" + queryString + "\" RETURN v LIMIT " + IntToString(limit)
  }

  /** The search MATCH statement: only the first target tag is used, none when there are none. */
  function SearchQuery(queryString: string, limit: int, tags: seq<string>): string
  {
    SearchHead(tags) + SearchTail(queryString, limit)
  }

  /** Tags after the first do not change the statement. */
  lemma SearchQueryFirstTag(queryString: string, limit: int, tags: seq<string>)
    requires |tags| > 0
    ensures SearchQuery(queryString, limit, tags) == SearchQuery(queryString, limit, tags[..1])
    ensures StartsWith(SearchQuery(queryString, limit, tags), "MATCH (v:`" + tags[0] + "`)")
  {
    var head := SearchHead(tags);
    assert head == "MATCH (v:`" + tags[0] + "`)";
    assert SearchHead(tags[..1]) == head;
    var q := SearchQuery(queryString, limit, tags);
    assert q[..|head|] == head;
  }

  // ---------------------------------------------------------------
  // Gathering result rows
  // ---------------------------------------------------------------

  /** A path: its start vertex, its vertices, and its relationships, in order. */
  datatype Path = Path(start: Vertex, vertices: seq<Vertex>, relationships: seq<Relationship>)

  /** The first value of a result row. */
  datatype Cell = PathCell(path: Path) | VertexCell(vertex: Vertex) | OtherCell

  /** What executing a statement gives: an exception, an unsucceeded result, or the rows. */
  datatype QueryResult = QueryRaises | QueryNotSucceeded | QueryRows(rows: seq<seq<Cell>>)

  datatype GraphData = GraphData(nodes: seq<KGNode>, edges: seq<KGEdge>)

  const EmptyGraph := GraphData([], [])

  /** `id in nodes_map`: the nodes list stands for the dict's values in insertion order. */
  predicate HasNode(nodes: seq<KGNode>, id: string)
  {
    exists k :: 0 <= k < |nodes| && nodes[k].id == id
  }

  predicate HasEdge(edges: seq<KGEdge>, id: string)
  {
    exists k :: 0 <= k < |edges| && edges[k].id == id
  }

  predicate DistinctNodes(nodes: seq<KGNode>)
  {
    forall i, j :: 0 <= i < j < |nodes| ==> nodes[i].id != nodes[j].id
  }

  predicate DistinctEdges(edges: seq<KGEdge>)
  {
    forall i, j :: 0 <= i < j < |edges| ==> edges[i].id != edges[j].id
  }

  /** Keeping the first node seen under each id. */
  function AddNode(nodes: seq<KGNode>, n: KGNode): seq<KGNode>
  {
    if HasNode(nodes, n.id) then nodes else nodes + [n]
  }

  /** An id present in a prefix is present in the whole. */
  lemma HasNodeExtends(a: seq<KGNode>, b: seq<KGNode>, id: string)
    requires |a| <= |b| && b[..|a|] == a && HasNode(a, id)
    ensures HasNode(b, id)
  {
    var k :| 0 <= k < |a| && a[k].id == id;
    assert b[k] == a[k];
  }

  lemma HasEdgeExtends(a: seq<KGEdge>, b: seq<KGEdge>, id: string)
    requires |a| <= |b| && b[..|a|] == a && HasEdge(a, id)
    ensures HasEdge(b, id)
  {
    var k :| 0 <= k < |a| && a[k].id == id;
    assert b[k] == a[k];
  }

  /** Adding a node keeps the ids distinct and the earlier nodes in place, and the id is then present. */
  lemma AddNodeFacts(nodes: seq<KGNode>, n: KGNode)
    requires DistinctNodes(nodes)
    ensures var r := AddNode(nodes, n);
      DistinctNodes(r) && |nodes| <= |r| && r[..|nodes|] == nodes && HasNode(r, n.id)
  {
    if !HasNode(nodes, n.id) {
      var r := nodes + [n];
      assert r[|nodes|].id == n.id;
      assert r[..|nodes|] == nodes;
      forall i, j | 0 <= i < j < |r|
        ensures r[i].id != r[j].id
      {
        if j == |nodes| {
          assert r[i] == nodes[i];
        }
      }
    }
  }

  /** The vertices of one path, parsed and kept first-seen; None where a parse raises. */
  function PathNodes(nodes: seq<KGNode>, vertices: seq<Vertex>, strOf: Json -> string): Option<seq<KGNode>>
    decreases |vertices|
  {
    if |vertices| == 0 then Some(nodes)
    else match PathNodes(nodes, vertices[..|vertices| - 1], strOf)
      case None => None
      case Some(ns) =>
        match ParseNode(vertices[|vertices| - 1], strOf)
        case None => None
        case Some(n) => Some(AddNode(ns, n))
  }

  /** Gathering a path's vertices succeeds exactly when every vertex parses. */
  lemma {:induction false} PathNodesSucceedIff(nodes: seq<KGNode>, vertices: seq<Vertex>, strOf: Json -> string)
    ensures PathNodes(nodes, vertices, strOf).Some? <==> forall i :: 0 <= i < |vertices| ==> ParseNode(vertices[i], strOf).Some?
    decreases |vertices|
  {
    if |vertices| > 0 {
      var init := vertices[..|vertices| - 1];
      PathNodesSucceedIff(nodes, init, strOf);
      PathNodesStep(nodes, vertices, strOf);
      AllParseSnoc(init, vertices, strOf);
    }
  }

  lemma PathNodesStep(nodes: seq<KGNode>, vertices: seq<Vertex>, strOf: Json -> string)
    requires |vertices| > 0
    ensures PathNodes(nodes, vertices, strOf).Some?
      <==> PathNodes(nodes, vertices[..|vertices| - 1], strOf).Some? && ParseNode(vertices[|vertices| - 1], strOf).Some?
  {
  }

  lemma AllParseSnoc(init: seq<Vertex>, vertices: seq<Vertex>, strOf: Json -> string)
    requires |vertices| > 0 && init == vertices[..|vertices| - 1]
    ensures (forall i :: 0 <= i < |vertices| ==> ParseNode(vertices[i], strOf).Some?)
      <==> (forall i :: 0 <= i < |init| ==> ParseNode(init[i], strOf).Some?) && ParseNode(vertices[|vertices| - 1], strOf).Some?
  {
    assert forall i :: 0 <= i < |init| ==> init[i] == vertices[i];
  }

  /**
   * Gathering a path's vertices keeps the nodes already gathered as a
   * prefix and the ids distinct, and afterwards every vertex's id is present.
   */
  lemma {:induction false} PathNodesFacts(nodes: seq<KGNode>, vertices: seq<Vertex>, strOf: Json -> string)
    requires DistinctNodes(nodes)
    ensures PathNodes(nodes, vertices, strOf).Some? ==>
      var r := PathNodes(nodes, vertices, strOf).value;
      DistinctNodes(r) && |nodes| <= |r| && r[..|nodes|] == nodes
    ensures PathNodes(nodes, vertices, strOf).Some? ==>
      forall i :: 0 <= i < |vertices| ==>
        ParseNode(vertices[i], strOf).Some? && HasNode(PathNodes(nodes, vertices, strOf).value, ParseNode(vertices[i], strOf).value.id)
  {
    PathNodesSucceedIff(nodes, vertices, strOf);
    PathNodesKeep(nodes, vertices, strOf);
    if PathNodes(nodes, vertices, strOf).Some? {
      PathNodesCover(nodes, vertices, strOf);
    }
  }

  lemma {:induction false} PathNodesKeep(nodes: seq<KGNode>, vertices: seq<Vertex>, strOf: Json -> string)
    requires DistinctNodes(nodes)
    ensures PathNodes(nodes, vertices, strOf).Some? ==>
      var r := PathNodes(nodes, vertices, strOf).value;
      DistinctNodes(r) && |nodes| <= |r| && r[..|nodes|] == nodes
    decreases |vertices|
  {
    if |vertices| > 0 && PathNodes(nodes, vertices, strOf).Some? {
      var init := vertices[..|vertices| - 1];
      PathNodesSnoc(nodes, vertices, strOf);
      PathNodesKeep(nodes, init, strOf);
      var ns := PathNodes(nodes, init, strOf).value;
      var last := ParseNode(vertices[|vertices| - 1], strOf).value;
      AddNodeFacts(ns, last);
      assert AddNode(ns, last)[..|nodes|] == ns[..|nodes|];
    }
  }

  lemma {:induction false} PathNodesCover(nodes: seq<KGNode>, vertices: seq<Vertex>, strOf: Json -> string)
    requires PathNodes(nodes, vertices, strOf).Some?
    requires forall i :: 0 <= i < |vertices| ==> ParseNode(vertices[i], strOf).Some?
    ensures forall i :: 0 <= i < |vertices| ==> HasNode(PathNodes(nodes, vertices, strOf).value, ParseNode(vertices[i], strOf).value.id)
    decreases |vertices|
  {
    if |vertices| > 0 {
      var init := vertices[..|vertices| - 1];
      PathNodesSnoc(nodes, vertices, strOf);
      assert forall i :: 0 <= i < |init| ==> init[i] == vertices[i];
      PathNodesCover(nodes, init, strOf);
      var ns := PathNodes(nodes, init, strOf).value;
      var r := AddNode(ns, ParseNode(vertices[|vertices| - 1], strOf).value);
      AddNodeExtends(ns, ParseNode(vertices[|vertices| - 1], strOf).value);
      forall i | 0 <= i < |vertices|
        ensures HasNode(r, ParseNode(vertices[i], strOf).value.id)
      {
        if i < |init| {
          HasNodeExtends(ns, r, ParseNode(init[i], strOf).value.id);
        }
      }
    }
  }

  /** Adding a node keeps the earlier nodes in place, and the id is then present. */
  lemma AddNodeExtends(nodes: seq<KGNode>, n: KGNode)
    ensures var r := AddNode(nodes, n);
      |nodes| <= |r| && r[..|nodes|] == nodes && HasNode(r, n.id)
  {
    if !HasNode(nodes, n.id) {
      assert (nodes + [n])[|nodes|].id == n.id;
      assert (nodes + [n])[..|nodes|] == nodes;
    }
  }

  lemma PathNodesSnoc(nodes: seq<KGNode>, vertices: seq<Vertex>, strOf: Json -> string)
    requires |vertices| > 0 && PathNodes(nodes, vertices, strOf).Some?
    ensures PathNodes(nodes, vertices[..|vertices| - 1], strOf).Some? && ParseNode(vertices[|vertices| - 1], strOf).Some?
    ensures PathNodes(nodes, vertices, strOf).value
      == AddNode(PathNodes(nodes, vertices[..|vertices| - 1], strOf).value, ParseNode(vertices[|vertices| - 1], strOf).value)
  {
  }

  /**
   * One relationship: a new id is appended. Checking the source against the
   * nodes calls as_string() on the start vertex's id, which raises for an
   * integer VID; that only happens when the source is not among the nodes.
   */
  function AddEdge(g: GraphData, e: KGEdge, start: Vertex): Option<GraphData>
  {
    if HasEdge(g.edges, e.id) then Some(g)
    else if !HasNode(g.nodes, e.source) && start.vid.IntVid? then None
    else Some(GraphData(g.nodes, g.edges + [e]))
  }

  /** The relationships of one path, parsed and de-duplicated by id; None where something raises. */
  function PathEdges(g: GraphData, rels: seq<Relationship>, start: Vertex): Option<GraphData>
    decreases |rels|
  {
    if |rels| == 0 then Some(g)
    else match PathEdges(g, rels[..|rels| - 1], start)
      case None => None
      case Some(h) =>
        match ParseEdge(rels[|rels| - 1])
        case None => None
        case Some(e) => AddEdge(h, e, start)
  }

  /**
   * Gathering a path's relationships keeps the nodes untouched, the edges
   * already gathered as a prefix and the edge ids distinct.
   */
  lemma {:induction false} PathEdgesFacts(g: GraphData, rels: seq<Relationship>, start: Vertex)
    requires DistinctEdges(g.edges)
    ensures PathEdges(g, rels, start).Some? ==>
      var r := PathEdges(g, rels, start).value;
      r.nodes == g.nodes && DistinctEdges(r.edges) && |g.edges| <= |r.edges| && r.edges[..|g.edges|] == g.edges
    decreases |rels|
  {
    if |rels| > 0 && PathEdges(g, rels, start).Some? {
      var init := rels[..|rels| - 1];
      PathEdgesFacts(g, init, start);
      var h := PathEdges(g, init, start).value;
      var e := ParseEdge(rels[|rels| - 1]).value;
      var r := PathEdges(g, rels, start).value;
      assert Some(r) == AddEdge(h, e, start);
      if !HasEdge(h.edges, e.id) {
        assert r.edges == h.edges + [e];
        assert r.edges[..|h.edges|] == h.edges;
        forall i, j | 0 <= i < j < |r.edges|
          ensures r.edges[i].id != r.edges[j].id
        {
          if j == |h.edges| {
            assert r.edges[i] == h.edges[i];
          }
        }
      }
      assert r.edges[..|g.edges|] == h.edges[..|g.edges|];
    }
  }

  /** Adding an edge keeps the earlier edges in place, and its id is then present. */
  lemma AddEdgeGrows(h: GraphData, e: KGEdge, start: Vertex)
    ensures AddEdge(h, e, start).Some? ==>
      var r := AddEdge(h, e, start).value;
      |h.edges| <= |r.edges| && r.edges[..|h.edges|] == h.edges && HasEdge(r.edges, e.id)
  {
    if AddEdge(h, e, start).Some? && !HasEdge(h.edges, e.id) {
      var r := AddEdge(h, e, start).value;
      assert r.edges[|h.edges|] == e;
      assert r.edges[..|h.edges|] == h.edges;
    }
  }

  /** After gathering a path's relationships, every relationship's id is among the edges. */
  lemma {:induction false} PathEdgesCover(g: GraphData, rels: seq<Relationship>, start: Vertex)
    ensures PathEdges(g, rels, start).Some? ==>
      forall i :: 0 <= i < |rels| ==> ParseEdge(rels[i]).Some? && HasEdge(PathEdges(g, rels, start).value.edges, ParseEdge(rels[i]).value.id)
    decreases |rels|
  {
    if |rels| > 0 && PathEdges(g, rels, start).Some? {
      var init := rels[..|rels| - 1];
      PathEdgesSnoc(g, rels, start);
      PathEdgesCover(g, init, start);
      var h := PathEdges(g, init, start).value;
      var e := ParseEdge(rels[|rels| - 1]).value;
      var r := PathEdges(g, rels, start).value;
      AddEdgeGrows(h, e, start);
      CoverStep(h.edges, r.edges, init, rels, e);
    }
  }

  /** Extending a covered prefix by one parsed relationship that is present keeps every relationship covered. */
  lemma CoverStep(before: seq<KGEdge>, after: seq<KGEdge>, init: seq<Relationship>, rels: seq<Relationship>, e: KGEdge)
    requires |rels| > 0 && init == rels[..|rels| - 1] && ParseEdge(rels[|rels| - 1]) == Some(e)
    requires |before| <= |after| && after[..|before|] == before && HasEdge(after, e.id)
    requires forall i :: 0 <= i < |init| ==>
      ParseEdge(init[i]).Some? && HasEdge(before, ParseEdge(init[i]).value.id)
    ensures forall i :: 0 <= i < |rels| ==> ParseEdge(rels[i]).Some? && HasEdge(after, ParseEdge(rels[i]).value.id)
  {
    forall i | 0 <= i < |rels|
      ensures ParseEdge(rels[i]).Some? && HasEdge(after, ParseEdge(rels[i]).value.id)
    {
      if i < |init| {
        assert init[i] == rels[i];
        HasEdgeExtends(before, after, ParseEdge(rels[i]).value.id);
      }
    }
  }

  lemma PathEdgesSnoc(g: GraphData, rels: seq<Relationship>, start: Vertex)
    requires |rels| > 0 && PathEdges(g, rels, start).Some?
    ensures PathEdges(g, rels[..|rels| - 1], start).Some? && ParseEdge(rels[|rels| - 1]).Some?
    ensures Some(PathEdges(g, rels, start).value)
      == AddEdge(PathEdges(g, rels[..|rels| - 1], start).value, ParseEdge(rels[|rels| - 1]).value, start)
  {
  }

  /** One path: its vertices, then its relationships. */
  function PathStep(g: GraphData, p: Path, strOf: Json -> string): Option<GraphData>
  {
    match PathNodes(g.nodes, p.vertices, strOf)
    case None => None
    case Some(ns) => PathEdges(GraphData(ns, g.edges), p.relationships, p.start)
  }

  /** One row of the neighbourhood result: empty rows and rows without a path are skipped. */
  function NeighborRow(g: GraphData, row: seq<Cell>, strOf: Json -> string): Option<GraphData>
  {
    if |row| == 0 then Some(g)
    else match row[0]
      case PathCell(p) => PathStep(g, p, strOf)
      case _ => Some(g)
  }

  function NeighborRows(rows: seq<seq<Cell>>, strOf: Json -> string): Option<GraphData>
    decreases |rows|
  {
    if |rows| == 0 then Some(EmptyGraph)
    else match NeighborRows(rows[..|rows| - 1], strOf)
      case None => None
      case Some(g) => NeighborRow(g, rows[|rows| - 1], strOf)
  }

  predicate DistinctGraph(g: GraphData)
  {
    DistinctNodes(g.nodes) && DistinctEdges(g.edges)
  }

  lemma NeighborRowFacts(g: GraphData, row: seq<Cell>, strOf: Json -> string)
    requires DistinctGraph(g)
    ensures NeighborRow(g, row, strOf).Some? ==>
      var r := NeighborRow(g, row, strOf).value;
      DistinctGraph(r) && |g.nodes| <= |r.nodes| && r.nodes[..|g.nodes|] == g.nodes
      && |g.edges| <= |r.edges| && r.edges[..|g.edges|] == g.edges
  {
    if |row| > 0 && row[0].PathCell? {
      var p := row[0].path;
      PathNodesFacts(g.nodes, p.vertices, strOf);
      if PathNodes(g.nodes, p.vertices, strOf).Some? {
        var ns := PathNodes(g.nodes, p.vertices, strOf).value;
        PathEdgesFacts(GraphData(ns, g.edges), p.relationships, p.start);
      }
    }
  }

  /**
   * The gathered graph never holds two nodes or two edges with the same id,
   * and what earlier rows gathered stays in place, in first-seen order.
   */
  lemma {:induction false} NeighborRowsFacts(rows: seq<seq<Cell>>, strOf: Json -> string)
    ensures NeighborRows(rows, strOf).Some? ==> DistinctGraph(NeighborRows(rows, strOf).value)
    ensures forall i :: 0 <= i <= |rows| && NeighborRows(rows, strOf).Some? ==>
      NeighborRows(rows[..i], strOf).Some?
      && |NeighborRows(rows[..i], strOf).value.nodes| <= |NeighborRows(rows, strOf).value.nodes|
      && |NeighborRows(rows[..i], strOf).value.edges| <= |NeighborRows(rows, strOf).value.edges|
      && NeighborRows(rows, strOf).value.nodes[..|NeighborRows(rows[..i], strOf).value.nodes|] == NeighborRows(rows[..i], strOf).value.nodes
      && NeighborRows(rows, strOf).value.edges[..|NeighborRows(rows[..i], strOf).value.edges|] == NeighborRows(rows[..i], strOf).value.edges
    decreases |rows|
  {
    if |rows| > 0 {
      var init := rows[..|rows| - 1];
      NeighborRowsFacts(init, strOf);
      if NeighborRows(rows, strOf).Some? {
        var g := NeighborRows(init, strOf).value;
        var r := NeighborRows(rows, strOf).value;
        NeighborRowFacts(g, rows[|rows| - 1], strOf);
        forall i | 0 <= i <= |rows|
          ensures NeighborRows(rows[..i], strOf).Some?
          ensures |NeighborRows(rows[..i], strOf).value.nodes| <= |r.nodes|
          ensures |NeighborRows(rows[..i], strOf).value.edges| <= |r.edges|
          ensures r.nodes[..|NeighborRows(rows[..i], strOf).value.nodes|] == NeighborRows(rows[..i], strOf).value.nodes
          ensures r.edges[..|NeighborRows(rows[..i], strOf).value.edges|] == NeighborRows(rows[..i], strOf).value.edges
        {
          if i == |rows| {
            assert rows[..i] == rows;
          } else {
            assert rows[..i] == init[..i];
            var m := NeighborRows(init[..i], strOf).value;
            assert g.nodes[..|m.nodes|] == m.nodes;
            assert r.nodes[..|g.nodes|] == g.nodes;
            assert r.nodes[..|m.nodes|] == g.nodes[..|m.nodes|];
            assert g.edges[..|m.edges|] == m.edges;
            assert r.edges[..|g.edges|] == g.edges;
            assert r.edges[..|m.edges|] == g.edges[..|m.edges|];
          }
        }
      }
    }
  }

  /** get_graph_neighbors: an exception or an unsucceeded result gives the empty graph. */
  function NeighborGraph(nodeId: string, hops: int, limitPerNode: int, types: seq<string>, space: string,
                         answer: (string, string) -> QueryResult, strOf: Json -> string): GraphData
  {
    match answer(space, NeighborQuery(nodeId, hops, limitPerNode, types))
    case QueryRows(rows) => NeighborRows(rows, strOf).GetOr(EmptyGraph)
    case _ => EmptyGraph
  }

  /** The neighbourhood graph never repeats a node id or an edge id. */
  lemma NeighborGraphDistinct(nodeId: string, hops: int, limitPerNode: int, types: seq<string>, space: string,
                              answer: (string, string) -> QueryResult, strOf: Json -> string)
    ensures DistinctGraph(NeighborGraph(nodeId, hops, limitPerNode, types, space, answer, strOf))
    ensures !answer(space, NeighborQuery(nodeId, hops, limitPerNode, types)).QueryRows? ==>
      NeighborGraph(nodeId, hops, limitPerNode, types, space, answer, strOf) == EmptyGraph
  {
    var result := answer(space, NeighborQuery(nodeId, hops, limitPerNode, types));
    if result.QueryRows? {
      NeighborRowsFacts(result.rows, strOf);
    }
  }

  /** The scan over final_edges with its early exit. */
  method IsNewEdge(edges: seq<KGEdge>, id: string) returns (isNew: bool)
    ensures isNew <==> !HasEdge(edges, id)
  {
    isNew := true;
    var i := 0;
    while i < |edges|
      invariant 0 <= i <= |edges|
      invariant forall k :: 0 <= k < i ==> edges[k].id != id
    {
      if edges[i].id == id {
        isNew := false;
        return;
      }
      i := i + 1;
    }
  }

  method GatherPathNodes(nodes: seq<KGNode>, vertices: seq<Vertex>, strOf: Json -> string) returns (r: Option<seq<KGNode>>)
    ensures r == PathNodes(nodes, vertices, strOf)
  {
    var ns := nodes;
    var i := 0;
    while i < |vertices|
      invariant 0 <= i <= |vertices|
      invariant PathNodes(nodes, vertices[..i], strOf) == Some(ns)
    {
      assert vertices[..i + 1][..i] == vertices[..i];
      var parsed := ParseNebulaNode(vertices[i], strOf);
      if parsed.None? {
        PathNodesStaysFailed(nodes, vertices, i + 1, strOf);
        return None;
      }
      if !HasNode(ns, parsed.value.id) {
        ns := ns + [parsed.value];
      }
      i := i + 1;
    }
    assert vertices[..i] == vertices;
    r := Some(ns);
  }

  lemma {:induction false} PathNodesStaysFailed(nodes: seq<KGNode>, vertices: seq<Vertex>, i: nat, strOf: Json -> string)
    requires i <= |vertices| && PathNodes(nodes, vertices[..i], strOf).None?
    ensures PathNodes(nodes, vertices, strOf).None?
    decreases |vertices| - i
  {
    if i < |vertices| {
      assert vertices[..i + 1][..i] == vertices[..i];
      PathNodesStaysFailed(nodes, vertices, i + 1, strOf);
    } else {
      assert vertices[..i] == vertices;
    }
  }

  lemma {:induction false} PathEdgesStaysFailed(g: GraphData, rels: seq<Relationship>, start: Vertex, i: nat)
    requires i <= |rels| && PathEdges(g, rels[..i], start).None?
    ensures PathEdges(g, rels, start).None?
    decreases |rels| - i
  {
    if i < |rels| {
      assert rels[..i + 1][..i] == rels[..i];
      PathEdgesStaysFailed(g, rels, start, i + 1);
    } else {
      assert rels[..i] == rels;
    }
  }

  method GatherPathEdges(g: GraphData, rels: seq<Relationship>, start: Vertex) returns (r: Option<GraphData>)
    ensures r == PathEdges(g, rels, start)
  {
    var edges := g.edges;
    var i := 0;
    while i < |rels|
      invariant 0 <= i <= |rels|
      invariant PathEdges(g, rels[..i], start) == Some(GraphData(g.nodes, edges))
    {
      assert rels[..i + 1][..i] == rels[..i];
      var parsed := ParseEdge(rels[i]);
      if parsed.None? {
        PathEdgesStaysFailed(g, rels, start, i + 1);
        return None;
      }
      var e := parsed.value;
      var isNew := IsNewEdge(edges, e.id);
      if isNew {
        edges := edges + [e];
        if !HasNode(g.nodes, e.source) && start.vid.IntVid? {
          PathEdgesStaysFailed(g, rels, start, i + 1);
          return None;
        }
      }
      i := i + 1;
    }
    assert rels[..i] == rels;
    r := Some(GraphData(g.nodes, edges));
  }

  lemma {:induction false} NeighborRowsStaysFailed(rows: seq<seq<Cell>>, i: nat, strOf: Json -> string)
    requires i <= |rows| && NeighborRows(rows[..i], strOf).None?
    ensures NeighborRows(rows, strOf).None?
    decreases |rows| - i
  {
    if i < |rows| {
      assert rows[..i + 1][..i] == rows[..i];
      NeighborRowsStaysFailed(rows, i + 1, strOf);
    } else {
      assert rows[..i] == rows;
    }
  }

  method GetGraphNeighbors(nodeId: string, hops: int, limitPerNode: int, types: seq<string>, space: string,
                           answer: (string, string) -> QueryResult, strOf: Json -> string) returns (g: GraphData)
    ensures g == NeighborGraph(nodeId, hops, limitPerNode, types, space, answer, strOf)
  {
    var query := NeighborQuery(nodeId, hops, limitPerNode, types);
    var result := answer(space, query);
    if !result.QueryRows? {
      return EmptyGraph;
    }
    var rows := result.rows;
    var acc := EmptyGraph;
    var i := 0;
    while i < |rows|
      invariant 0 <= i <= |rows|
      invariant NeighborRows(rows[..i], strOf) == Some(acc)
    {
      assert rows[..i + 1][..i] == rows[..i];
      var row := rows[i];
      if |row| > 0 && row[0].PathCell? {
        var p := row[0].path;
        var ns := GatherPathNodes(acc.nodes, p.vertices, strOf);
        if ns.None? {
          NeighborRowsStaysFailed(rows, i + 1, strOf);
          return EmptyGraph;
        }
        var next := GatherPathEdges(GraphData(ns.value, acc.edges), p.relationships, p.start);
        if next.None? {
          NeighborRowsStaysFailed(rows, i + 1, strOf);
          return EmptyGraph;
        }
        acc := next.value;
      }
      i := i + 1;
    }
    assert rows[..i] == rows;
    g := acc;
  }

  // ---------------------------------------------------------------
  // Node search
  // ---------------------------------------------------------------

  /** The rows of a search: a row whose first value is a vertex contributes that node. */
  function SearchRows(rows: seq<seq<Cell>>, strOf: Json -> string): Option<seq<KGNode>>
    decreases |rows|
  {
    if |rows| == 0 then Some([])
    else match SearchRows(rows[..|rows| - 1], strOf)
      case None => None
      case Some(ns) =>
        var row := rows[|rows| - 1];
        if |row| > 0 && row[0].VertexCell? then
          match ParseNode(row[0].vertex, strOf)
          case None => None
          case Some(n) => Some(AddNode(ns, n))
        else Some(ns)
  }

  /** The found nodes have distinct ids and include every vertex of the rows. */
  lemma {:induction false} SearchRowsFacts(rows: seq<seq<Cell>>, strOf: Json -> string)
    ensures SearchRows(rows, strOf).Some? ==>
      var ns := SearchRows(rows, strOf).value;
      DistinctNodes(ns)
      && forall i :: 0 <= i < |rows| && |rows[i]| > 0 && rows[i][0].VertexCell? ==>
        ParseNode(rows[i][0].vertex, strOf).Some? && HasNode(ns, ParseNode(rows[i][0].vertex, strOf).value.id)
    decreases |rows|
  {
    if |rows| > 0 {
      var init := rows[..|rows| - 1];
      SearchRowsFacts(init, strOf);
      assert forall i :: 0 <= i < |init| ==> init[i] == rows[i];
      if SearchRows(rows, strOf).Some? {
        var before := SearchRows(init, strOf).value;
        var ns := SearchRows(rows, strOf).value;
        var row := rows[|rows| - 1];
        if |row| > 0 && row[0].VertexCell? {
          AddNodeFacts(before, ParseNode(row[0].vertex, strOf).value);
        }
        forall i | 0 <= i < |init| && |rows[i]| > 0 && rows[i][0].VertexCell?
          ensures HasNode(ns, ParseNode(rows[i][0].vertex, strOf).value.id)
        {
          HasNodeExtends(before, ns, ParseNode(init[i][0].vertex, strOf).value.id);
        }
      }
    }
  }

  /** search_kg_nodes: only nodes, never edges; failures give the empty graph. */
  function SearchGraph(queryString: string, limit: int, tags: seq<string>, space: string,
                       answer: (string, string) -> QueryResult, strOf: Json -> string): (g: GraphData)
    ensures g.edges == []
  {
    match answer(space, SearchQuery(queryString, limit, tags))
    case QueryRows(rows) =>
      (match SearchRows(rows, strOf) case Some(ns) => GraphData(ns, []) case None => EmptyGraph)
    case _ => EmptyGraph
  }

  /** Search results never repeat a node id, and an unsucceeded query finds nothing. */
  lemma SearchGraphFacts(queryString: string, limit: int, tags: seq<string>, space: string,
                         answer: (string, string) -> QueryResult, strOf: Json -> string)
    ensures DistinctNodes(SearchGraph(queryString, limit, tags, space, answer, strOf).nodes)
    ensures !answer(space, SearchQuery(queryString, limit, tags)).QueryRows? ==>
      SearchGraph(queryString, limit, tags, space, answer, strOf) == EmptyGraph
  {
    var result := answer(space, SearchQuery(queryString, limit, tags));
    if result.QueryRows? {
      SearchRowsFacts(result.rows, strOf);
    }
  }

  lemma {:induction false} SearchRowsStaysFailed(rows: seq<seq<Cell>>, i: nat, strOf: Json -> string)
    requires i <= |rows| && SearchRows(rows[..i], strOf).None?
    ensures SearchRows(rows, strOf).None?
    decreases |rows| - i
  {
    if i < |rows| {
      assert rows[..i + 1][..i] == rows[..i];
      SearchRowsStaysFailed(rows, i + 1, strOf);
    } else {
      assert rows[..i] == rows;
    }
  }

  method SearchKgNodes(queryString: string, limit: int, tags: seq<string>, space: string,
                       answer: (string, string) -> QueryResult, strOf: Json -> string) returns (g: GraphData)
    ensures g == SearchGraph(queryString, limit, tags, space, answer, strOf)
  {
    var result := answer(space, SearchQuery(queryString, limit, tags));
    if !result.QueryRows? {
      return EmptyGraph;
    }
    var rows := result.rows;
    var nodes: seq<KGNode> := [];
    var i := 0;
    while i < |rows|
      invariant 0 <= i <= |rows|
      invariant SearchRows(rows[..i], strOf) == Some(nodes)
    {
      assert rows[..i + 1][..i] == rows[..i];
      var row := rows[i];
      if |row| > 0 && row[0].VertexCell? {
        var parsed := ParseNebulaNode(row[0].vertex, strOf);
        if parsed.None? {
          SearchRowsStaysFailed(rows, i + 1, strOf);
          return EmptyGraph;
        }
        if !HasNode(nodes, parsed.value.id) {
          nodes := nodes + [parsed.value];
        }
      }
      i := i + 1;
    }
    assert rows[..i] == rows;
    g := GraphData(nodes, []);
  }
}
