/**
 * The graph payload as the browser client types it: a node's label (`caption`) and
 * tag and an edge's id and label (`caption`) are optional (`null` or absent is None).
 */
module KgClientTypes {
  import opened Common

  datatype ClientNode = ClientNode(id: string, caption: Option<string>, tag: Option<string>)

  datatype ClientEdge = ClientEdge(id: Option<string>, source: string, target: string, caption: Option<string>)

  datatype ClientGraph = ClientGraph(nodes: seq<ClientNode>, edges: seq<ClientEdge>)

  /** `x || fallback` on an optional string: the fallback for null, absent or empty. */
  function OrElse(x: Option<string>, fallback: string): (r: string)
    ensures x.Some? && x.value != "" ==> r == x.value
    ensures x.None? || x.value == "" ==> r == fallback
  {
    if x.Some? && x.value != "" then x.value else fallback
  }
}
