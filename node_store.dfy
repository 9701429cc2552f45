/**
 * The zustand store that is the single source of truth for the flow: two
 * sequences, replaced wholesale by every write.
 */
module NodeStore {
  import opened Common
  import opened Graph

  /** One `set(...)` call on the store, with the value it wrote. */
  datatype Write = NodesWritten(nodes: seq<Node>) | EdgesWritten(edges: seq<Edge>)

  class Store {
    var nodes: seq<Node>
    var edges: seq<Edge>
    /** Every write so far, oldest first; lets callers state the order of their writes. */
    ghost var writes: seq<Write>

    /** The store starts from the application's seed nodes and edges. */
    constructor (initialNodes: seq<Node>, initialEdges: seq<Edge>)
      ensures nodes == initialNodes && edges == initialEdges && writes == []
    {
      nodes := initialNodes;
      edges := initialEdges;
      writes := [];
    }

    /** `getNode(id)`: the first stored node with that id, if any. */
    method GetNode(id: string) returns (r: Option<Node>)
      ensures r.None? <==> forall i :: 0 <= i < |nodes| ==> nodes[i].id != id
      ensures r.Some? ==> exists i :: 0 <= i < |nodes| && nodes[i] == r.value && r.value.id == id
                                      && forall j :: 0 <= j < i ==> nodes[j].id != id
    {
      r := FindNode(nodes, id);
    }

    /** `getNodes()`: the current node sequence itself. */
    method GetNodes() returns (r: seq<Node>)
      ensures r == nodes
    {
      r := nodes;
    }

    /** `getEdges()`: the current edge sequence itself. */
    method GetEdges() returns (r: seq<Edge>)
      ensures r == edges
    {
      r := edges;
    }

    /** `setNodes(ns)`: replace the nodes; the edges stay as they are. */
    method SetNodes(ns: seq<Node>)
      modifies this
      ensures nodes == ns && edges == old(edges)
      ensures writes == old(writes) + [NodesWritten(ns)]
    {
      nodes := ns;
      writes := writes + [NodesWritten(ns)];
    }

    /** `setEdges(es)`: replace the edges; the nodes stay as they are. */
    method SetEdges(es: seq<Edge>)
      modifies this
      ensures edges == es && nodes == old(nodes)
      ensures writes == old(writes) + [EdgesWritten(es)]
    {
      edges := es;
      writes := writes + [EdgesWritten(es)];
    }

    /**
     * `onNodesChange(changes)`: the nodes become what the flow library's
     * `applyNodeChanges` makes of them; the edges are not touched.
     */
    method OnNodesChange<C>(changes: C, applyNodeChanges: (C, seq<Node>) -> seq<Node>)
      modifies this
      ensures nodes == applyNodeChanges(changes, old(nodes)) && edges == old(edges)
      ensures writes == old(writes) + [NodesWritten(nodes)]
    {
      SetNodes(applyNodeChanges(changes, nodes));
    }

    /** `onEdgesChange(changes)`: only the edges change, through `applyEdgeChanges`. */
    method OnEdgesChange<C>(changes: C, applyEdgeChanges: (C, seq<Edge>) -> seq<Edge>)
      modifies this
      ensures edges == applyEdgeChanges(changes, old(edges)) && nodes == old(nodes)
      ensures writes == old(writes) + [EdgesWritten(edges)]
    {
      SetEdges(applyEdgeChanges(changes, edges));
    }

    /** `onConnect(connection)`: only the edges change, through the library's `addEdge`. */
    method OnConnect<C>(connection: C, addEdge: (C, seq<Edge>) -> seq<Edge>)
      modifies this
      ensures edges == addEdge(connection, old(edges)) && nodes == old(nodes)
      ensures writes == old(writes) + [EdgesWritten(edges)]
    {
      SetEdges(addEdge(connection, edges));
    }
  }
}
