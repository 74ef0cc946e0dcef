/**
 * The graph-visualisation slice of the client store: the current nodes and
 * edges, the central node, the request status and the error message,
 * updated in place by the reducers of the slice and of the two request
 * thunks (neighbour fetch and node search).
 */
module KgVisualizationSlice {
  import opened Common
  import opened KgClientTypes

  datatype Status = Idle | Loading | Succeeded | Failed

  /** A snapshot of the slice; `error` None is `null`. */
  datatype SliceState = SliceState(
    nodes: seq<ClientNode>,
    edges: seq<ClientEdge>,
    centralNodeId: Option<string>,
    status: Status,
    error: Option<string>)

  const InitialState := SliceState([], [], None, Idle, None)

  datatype Action =
    | ClearGraphData
    | SetGraphData(graph: ClientGraph)
    | SetCurrentCentralNodeId(id: Option<string>)
    | FetchNeighborsPending
    | FetchNeighborsFulfilled(graph: ClientGraph)
    | FetchNeighborsRejected(message: string)
    | SearchNodesPending
    | SearchNodesFulfilled(graph: ClientGraph)
    | SearchNodesRejected(message: string)

  /**
   * A thunk rejects with `OrElse(message, fallback)`: the error's message,
   * or the fallback text when that is missing or empty.
   */
  const FetchFallback := "Failed to fetch neighbors"
  const SearchFallback := "Failed to search nodes"

  /** So a rejected request always leaves a non-empty error message. */
  lemma RejectionNeverEmpty(errorMessage: Option<string>)
    ensures OrElse(errorMessage, FetchFallback) != ""
    ensures OrElse(errorMessage, SearchFallback) != ""
  {
    assert FetchFallback[0] == 'F';
    assert SearchFallback[0] == 'F';
  }

  /** What each action does to a snapshot. */
  function Reduce(s: SliceState, a: Action): SliceState
  {
    match a
    case ClearGraphData => InitialState
    case SetGraphData(g) => s.(nodes := g.nodes, edges := g.edges, status := Succeeded)
    case SetCurrentCentralNodeId(id) => s.(centralNodeId := id)
    case FetchNeighborsPending => s.(status := Loading, error := None)
    case FetchNeighborsFulfilled(g) => s.(status := Succeeded, nodes := g.nodes, edges := g.edges)
    case FetchNeighborsRejected(m) => s.(status := Failed, error := Some(m))
    case SearchNodesPending => s.(status := Loading, error := None)
    case SearchNodesFulfilled(g) => s.(status := Succeeded, nodes := g.nodes, edges := g.edges, centralNodeId := None)
    case SearchNodesRejected(m) => s.(status := Failed, error := Some(m))
  }

  predicate IsPending(a: Action) { a.FetchNeighborsPending? || a.SearchNodesPending? }
  predicate IsFulfilled(a: Action) { a.FetchNeighborsFulfilled? || a.SearchNodesFulfilled? }
  predicate IsRejected(a: Action) { a.FetchNeighborsRejected? || a.SearchNodesRejected? }

  /** Clearing restores the initial state from any state. */
  lemma ClearRestoresInitial(s: SliceState)
    ensures Reduce(s, ClearGraphData) == InitialState
    ensures InitialState.nodes == [] && InitialState.edges == [] && InitialState.centralNodeId.None?
    ensures InitialState.status == Idle && InitialState.error.None?
  {
  }

  /** A pending request shows loading and clears the error; the graph and the central node stay. */
  lemma PendingKeepsGraph(s: SliceState, a: Action)
    requires IsPending(a)
    ensures var t := Reduce(s, a);
      t.status == Loading && t.error.None? && t.nodes == s.nodes && t.edges == s.edges && t.centralNodeId == s.centralNodeId
  {
  }

  /**
   * A fulfilled request replaces the graph and shows success; a search
   * forgets the central node, a neighbour fetch keeps it; the error stays.
   */
  lemma FulfilledReplacesGraph(s: SliceState, a: Action)
    requires IsFulfilled(a)
    ensures var t := Reduce(s, a);
      t.status == Succeeded && t.nodes == a.graph.nodes && t.edges == a.graph.edges && t.error == s.error
    ensures a.SearchNodesFulfilled? ==> Reduce(s, a).centralNodeId.None?
    ensures a.FetchNeighborsFulfilled? ==> Reduce(s, a).centralNodeId == s.centralNodeId
  {
  }

  /** A rejected request shows failure with its payload as the error and keeps the graph. */
  lemma RejectedKeepsGraph(s: SliceState, a: Action)
    requires IsRejected(a)
    ensures var t := Reduce(s, a);
      t.status == Failed && t.error == Some(a.message) && t.nodes == s.nodes && t.edges == s.edges
      && t.centralNodeId == s.centralNodeId
  {
  }

  /** Setting the graph directly leaves the error and the central node alone; setting the central node changes nothing else. */
  lemma DirectSetters(s: SliceState, g: ClientGraph, id: Option<string>)
    ensures Reduce(s, SetGraphData(g)) == SliceState(g.nodes, g.edges, s.centralNodeId, Succeeded, s.error)
    ensures Reduce(s, SetCurrentCentralNodeId(id)) == SliceState(s.nodes, s.edges, id, s.status, s.error)
  {
  }

  /**
   * What every reachable snapshot satisfies: while loading there is no
   * error, after a failure there is one, and an idle slice holds no graph.
   */
  predicate Consistent(s: SliceState)
  {
    (s.status == Loading ==> s.error.None?)
    && (s.status == Failed ==> s.error.Some?)
    && (s.status == Idle ==> s.nodes == [] && s.edges == [])
  }

  function ReduceAll(s: SliceState, actions: seq<Action>): SliceState
    decreases |actions|
  {
    if |actions| == 0 then s else ReduceAll(Reduce(s, actions[0]), actions[1..])
  }

  lemma ReducePreservesConsistent(s: SliceState, a: Action)
    requires Consistent(s)
    ensures Consistent(Reduce(s, a))
  {
  }

  /** The initial state is consistent and every sequence of actions keeps it so. */
  lemma {:induction false} ReachableConsistent(s: SliceState, actions: seq<Action>)
    requires Consistent(s)
    ensures Consistent(ReduceAll(s, actions))
    ensures Consistent(InitialState)
    decreases |actions|
  {
    if |actions| > 0 {
      ReducePreservesConsistent(s, actions[0]);
      ReachableConsistent(Reduce(s, actions[0]), actions[1..]);
    }
  }

  /** The slice itself: a draft whose fields the reducers assign. */
  class KgVisualizationStore {
    var nodes: seq<ClientNode>
    var edges: seq<ClientEdge>
    var centralNodeId: Option<string>
    var status: Status
    var error: Option<string>

    function Snapshot(): SliceState
      reads this
    {
      SliceState(nodes, edges, centralNodeId, status, error)
    }

    constructor ()
      ensures Snapshot() == InitialState
    {
      nodes := [];
      edges := [];
      centralNodeId := None;
      status := Idle;
      error := None;
    }

    method Dispatch(a: Action)
      modifies this
      ensures Snapshot() == Reduce(old(Snapshot()), a)
    {
      match a {
        case ClearGraphData =>
          nodes := [];
          edges := [];
          centralNodeId := None;
          status := Idle;
          error := None;
        case SetGraphData(g) =>
          nodes := g.nodes;
          edges := g.edges;
          status := Succeeded;
        case SetCurrentCentralNodeId(id) =>
          centralNodeId := id;
        case FetchNeighborsPending =>
          status := Loading;
          error := None;
        case FetchNeighborsFulfilled(g) =>
          status := Succeeded;
          nodes := g.nodes;
          edges := g.edges;
        case FetchNeighborsRejected(m) =>
          status := Failed;
          error := Some(m);
        case SearchNodesPending =>
          status := Loading;
          error := None;
        case SearchNodesFulfilled(g) =>
          status := Succeeded;
          nodes := g.nodes;
          edges := g.edges;
          centralNodeId := None;
        case SearchNodesRejected(m) =>
          status := Failed;
          error := Some(m);
      }
    }
  }
}
