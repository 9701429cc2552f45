/**
 * The graph the front end draws: typed nodes with a position and an optional
 * parent back-reference, and directed parent-to-child edges, both held in
 * insertion order.
 */
module Graph {
  import opened Common
  import opened Json

  /** Screen coordinates; JavaScript numbers are modelled as reals, rounding ignored. */
  datatype Position = Position(x: real, y: real)

  const Origin := Position(0.0, 0.0)

  /** A node as the flow store keeps it (`id`, `type`, `data`, `position`, `parentId`). */
  datatype Node = Node(id: string, nodeType: string, data: Json, position: Position, parentId: Option<string>)

  datatype Edge = Edge(id: string, source: string, target: string)

  /** `nodes.find((node) => node.id === id)`: the first node carrying `id`. */
  function FindNode(nodes: seq<Node>, id: string): (r: Option<Node>)
    ensures r.None? <==> forall i :: 0 <= i < |nodes| ==> nodes[i].id != id
    ensures r.Some? ==> exists i :: 0 <= i < |nodes| && nodes[i] == r.value && r.value.id == id
                                    && forall j :: 0 <= j < i ==> nodes[j].id != id
  {
    if |nodes| == 0 then None
    else if nodes[0].id == id then Some(nodes[0])
    else
      var r := FindNode(nodes[1..], id);
      assert forall j :: 1 <= j < |nodes| ==> nodes[j] == nodes[1..][j - 1];
      r
  }

  /** `edges.find((e) => e.target === id)?.source`: the source of the first edge into `id`. */
  function ParentOf(id: string, edges: seq<Edge>): (r: Option<string>)
    ensures r.None? <==> forall i :: 0 <= i < |edges| ==> edges[i].target != id
    ensures r.Some? ==> exists i :: 0 <= i < |edges| && edges[i].target == id && edges[i].source == r.value
                                    && forall j :: 0 <= j < i ==> edges[j].target != id
  {
    if |edges| == 0 then None
    else if edges[0].target == id then Some(edges[0].source)
    else
      var r := ParentOf(id, edges[1..]);
      assert forall j :: 1 <= j < |edges| ==> edges[j] == edges[1..][j - 1];
      r
  }

  function NodeIds(nodes: seq<Node>): set<string>
  {
    set i | 0 <= i < |nodes| :: nodes[i].id
  }

  function EdgeIds(edges: seq<Edge>): set<string>
  {
    set i | 0 <= i < |edges| :: edges[i].id
  }

  /** A depth for every node such that every edge goes one level down or more. */
  ghost predicate Ranked(nodes: seq<Node>, edges: seq<Edge>, rank: map<string, nat>)
  {
    && NodeIds(nodes) <= rank.Keys
    && forall k :: 0 <= k < |edges| && edges[k].source in rank && edges[k].target in rank ==>
         rank[edges[k].source] < rank[edges[k].target]
  }

  /**
   * The structural invariants of the graph: unique node and edge ids, no edge
   * pointing at a missing node, at most one parent per node, and no cycle
   * (witnessed by a depth function).
   */
  ghost predicate WellFormed(nodes: seq<Node>, edges: seq<Edge>)
  {
    && (forall i, j :: 0 <= i < j < |nodes| ==> nodes[i].id != nodes[j].id)
    && (forall i, j :: 0 <= i < j < |edges| ==> edges[i].id != edges[j].id)
    && (forall k :: 0 <= k < |edges| ==> edges[k].source in NodeIds(nodes) && edges[k].target in NodeIds(nodes))
    && (forall i, j :: 0 <= i < j < |edges| ==> edges[i].target != edges[j].target)
    && exists rank :: Ranked(nodes, edges, rank)
  }

  /** In a single-parent graph the parent rule picks the source of the one edge into the node. */
  lemma ParentOfUnique(edges: seq<Edge>, k: nat)
    requires k < |edges|
    requires forall i, j :: 0 <= i < j < |edges| ==> edges[i].target != edges[j].target
    ensures ParentOf(edges[k].target, edges) == Some(edges[k].source)
  {
    var r := ParentOf(edges[k].target, edges);
    assert r.Some?;
    var i :| 0 <= i < |edges| && edges[i].target == edges[k].target && edges[i].source == r.value
             && forall j :: 0 <= j < i ==> edges[j].target != edges[k].target;
    assert i == k;
  }
}
