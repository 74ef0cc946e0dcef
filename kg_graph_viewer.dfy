/**
 * The mapping of the client graph payload to the node and edge models of
 * the graph renderer: labels fall back to ids or the empty text, and the
 * node colours depend only on the tag.
 */
module KgGraphViewer {
  import opened Common
  import opened KgClientTypes

  datatype NodeStyle = NodeStyle(fill: string, stroke: string, lineWidth: nat)

  datatype G6Node = G6Node(id: string, caption: string, style: NodeStyle, original: ClientNode)

  /** An edge model; `id` None stands for the random fallback id, which is not modelled. */
  datatype G6Edge = G6Edge(id: Option<string>, source: string, target: string, caption: string, original: ClientEdge)

  datatype G6Data = G6Data(nodes: seq<G6Node>, edges: seq<G6Edge>)

  /** The colours of a tag: Person, Organization, and every other tag or none. */
  function StyleOf(tag: Option<string>): (st: NodeStyle)
    ensures st.lineWidth == 1
    ensures tag == Some("Person") ==> st.fill == "#C6E5FF" && st.stroke == "#5B8FF9"
    ensures tag == Some("Organization") ==> st.fill == "#D5FFD6" && st.stroke == "#5AD85A"
    ensures tag != Some("Person") && tag != Some("Organization") ==> st.fill == "#FFD8B8" && st.stroke == "#F6BD16"
  {
    if tag == Some("Person") then NodeStyle("#C6E5FF", "#5B8FF9", 1)
    else if tag == Some("Organization") then NodeStyle("#D5FFD6", "#5AD85A", 1)
    else NodeStyle("#FFD8B8", "#F6BD16", 1)
  }

  function NodeModel(n: ClientNode): G6Node
  {
    G6Node(n.id, OrElse(n.caption, n.id), StyleOf(n.tag), n)
  }

  function EdgeModel(e: ClientEdge): G6Edge
  {
    G6Edge(if e.id.Some? && e.id.value != "" then e.id else None, e.source, e.target, OrElse(e.caption, ""), e)
  }

  function MapToG6Data(nodes: seq<ClientNode>, edges: seq<ClientEdge>): G6Data
  {
    G6Data(seq(|nodes|, i requires 0 <= i < |nodes| => NodeModel(nodes[i])),
           seq(|edges|, i requires 0 <= i < |edges| => EdgeModel(edges[i])))
  }

  /**
   * One node model per node, in order, with its id; its label is the
   * node's label when non-empty, else its id.
   */
  lemma MapNodes(nodes: seq<ClientNode>, edges: seq<ClientEdge>)
    ensures |MapToG6Data(nodes, edges).nodes| == |nodes|
    ensures forall i :: 0 <= i < |nodes| ==>
      MapToG6Data(nodes, edges).nodes[i].id == nodes[i].id && MapToG6Data(nodes, edges).nodes[i].original == nodes[i]
    ensures forall i :: 0 <= i < |nodes| ==>
      MapToG6Data(nodes, edges).nodes[i].caption == if nodes[i].caption.Some? && nodes[i].caption.value != "" then nodes[i].caption.value else nodes[i].id
  {
  }

  /** Two nodes with the same tag are drawn in the same colours. */
  lemma StyleDependsOnTagOnly(nodes: seq<ClientNode>, edges: seq<ClientEdge>, i: nat, j: nat)
    requires i < |nodes| && j < |nodes| && nodes[i].tag == nodes[j].tag
    ensures MapToG6Data(nodes, edges).nodes[i].style == MapToG6Data(nodes, edges).nodes[j].style
  {
  }

  /**
   * One edge model per edge, in order, with its source and target; a
   * non-empty id is kept; the label is the edge's label, else empty.
   */
  lemma MapEdges(nodes: seq<ClientNode>, edges: seq<ClientEdge>)
    ensures |MapToG6Data(nodes, edges).edges| == |edges|
    ensures forall i :: 0 <= i < |edges| ==>
      MapToG6Data(nodes, edges).edges[i].source == edges[i].source && MapToG6Data(nodes, edges).edges[i].target == edges[i].target
    ensures forall i :: 0 <= i < |edges| && edges[i].id.Some? && edges[i].id.value != "" ==>
      MapToG6Data(nodes, edges).edges[i].id == edges[i].id
    ensures forall i :: 0 <= i < |edges| && edges[i].caption.None? ==> MapToG6Data(nodes, edges).edges[i].caption == ""
    ensures forall i :: 0 <= i < |edges| && edges[i].caption.Some? ==> MapToG6Data(nodes, edges).edges[i].caption == edges[i].caption.value
  {
  }
}
