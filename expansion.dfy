/**
 * The `onFinish` step of an expanding node: every generated record becomes a new
 * child node and a parent-to-child edge, and both are appended to the store.
 * The four node kinds differ in whether they check that the parent still exists,
 * whether the child records its parent, and which sequence they write first.
 */
module Expansion {
  import opened Common
  import opened Json
  import opened Graph
  import opened NodeStore
  import opened Schema
  import opened Context

  /** The node created for one generated record: a fresh id, placed at the origin. */
  function ChildNode(id: string, rec: Payload, newId: string, withParent: bool): Node
  {
    Node(newId, TypeName(rec), ToData(rec), Origin, if withParent then Some(id) else None)
  }

  /** The edge from the expanding node to a new child, with id `${id}-${newId}`. */
  function ChildEdge(id: string, newId: string): Edge
  {
    Edge(id + "-" + newId, id, newId)
  }

  /** The children created for `records`, one per record and in record order. */
  function Children(id: string, records: seq<Payload>, freshIds: seq<string>, withParent: bool): (r: seq<Node>)
    requires |freshIds| == |records|
    ensures |r| == |records|
    ensures forall k :: 0 <= k < |r| ==> r[k] == ChildNode(id, records[k], freshIds[k], withParent)
  {
    seq(|records|, k requires 0 <= k < |records| => ChildNode(id, records[k], freshIds[k], withParent))
  }

  function ChildEdges(id: string, freshIds: seq<string>): (r: seq<Edge>)
    ensures |r| == |freshIds|
    ensures forall k :: 0 <= k < |r| ==> r[k] == ChildEdge(id, freshIds[k])
  {
    seq(|freshIds|, k requires 0 <= k < |freshIds| => ChildEdge(id, freshIds[k]))
  }

  /**
   * The `forEach` that pushes one node and one edge per record. `freshIds` are the
   * values `generateId()` returns, one per call, in call order.
   */
  method BuildChildren(id: string, records: seq<Payload>, freshIds: seq<string>, withParent: bool)
    returns (newNodes: seq<Node>, newEdges: seq<Edge>)
    requires |freshIds| == |records|
    ensures newNodes == Children(id, records, freshIds, withParent)
    ensures newEdges == ChildEdges(id, freshIds)
  {
    newNodes := [];
    newEdges := [];
    var i := 0;
    while i < |records|
      invariant 0 <= i <= |records|
      invariant |newNodes| == i && |newEdges| == i
      invariant forall k :: 0 <= k < i ==> newNodes[k] == ChildNode(id, records[k], freshIds[k], withParent)
      invariant forall k :: 0 <= k < i ==> newEdges[k] == ChildEdge(id, freshIds[k])
    {
      var newNodeId := freshIds[i];
      newNodes := newNodes + [ChildNode(id, records[i], newNodeId, withParent)];
      newEdges := newEdges + [ChildEdge(id, newNodeId)];
      i := i + 1;
    }
  }

  /**
   * The prompt node's commit. `nodes` and `edges` are the sequences the component
   * captured at render time; they are written back extended, nodes first. There is
   * no check that the prompt node still exists.
   */
  method PromptCommit(store: Store, id: string, nodes: seq<Node>, edges: seq<Edge>,
                      finished: Option<seq<Payload>>, freshIds: seq<string>)
    requires |freshIds| == |FinishedRecords(finished)|
    modifies store
    ensures store.nodes == nodes + Children(id, FinishedRecords(finished), freshIds, true)
    ensures store.edges == edges + ChildEdges(id, freshIds)
    ensures store.writes == old(store.writes) + [NodesWritten(store.nodes), EdgesWritten(store.edges)]
  {
    var newNodes, newEdges := BuildChildren(id, FinishedRecords(finished), freshIds, true);
    store.SetNodes(nodes + newNodes);
    store.SetEdges(edges + newEdges);
  }

  /**
   * The commit shared by the decision and information nodes: if the store no longer
   * holds a node with id `id`, nothing is written; otherwise the extended edges are
   * written first, then the extended nodes.
   */
  method GuardedCommit(store: Store, id: string, nodes: seq<Node>, edges: seq<Edge>,
                       finished: Option<seq<Payload>>, freshIds: seq<string>)
    requires |freshIds| == |FinishedRecords(finished)|
    modifies store
    ensures FindNode(old(store.nodes), id).None? ==>
      store.nodes == old(store.nodes) && store.edges == old(store.edges) && store.writes == old(store.writes)
    ensures FindNode(old(store.nodes), id).Some? ==>
      && store.edges == edges + ChildEdges(id, freshIds)
      && store.nodes == nodes + Children(id, FinishedRecords(finished), freshIds, true)
      && store.writes == old(store.writes) + [EdgesWritten(store.edges), NodesWritten(store.nodes)]
  {
    var parentNode := store.GetNode(id);
    if parentNode.None? {
      return;
    }
    var newNodes, newEdges := BuildChildren(id, FinishedRecords(finished), freshIds, true);
    store.SetEdges(edges + newEdges);
    store.SetNodes(nodes + newNodes);
  }

  /** The decision node's commit: guarded, edges first. */
  method DecisionCommit(store: Store, id: string, nodes: seq<Node>, edges: seq<Edge>,
                        finished: Option<seq<Payload>>, freshIds: seq<string>)
    requires |freshIds| == |FinishedRecords(finished)|
    modifies store
    ensures FindNode(old(store.nodes), id).None? ==>
      store.nodes == old(store.nodes) && store.edges == old(store.edges) && store.writes == old(store.writes)
    ensures FindNode(old(store.nodes), id).Some? ==>
      && store.edges == edges + ChildEdges(id, freshIds)
      && store.nodes == nodes + Children(id, FinishedRecords(finished), freshIds, true)
      && store.writes == old(store.writes) + [EdgesWritten(store.edges), NodesWritten(store.nodes)]
  {
    GuardedCommit(store, id, nodes, edges, finished, freshIds);
  }

  /** The information node's commit: the same guard and write order as the decision node's. */
  method InformationCommit(store: Store, id: string, nodes: seq<Node>, edges: seq<Edge>,
                           finished: Option<seq<Payload>>, freshIds: seq<string>)
    requires |freshIds| == |FinishedRecords(finished)|
    modifies store
    ensures FindNode(old(store.nodes), id).None? ==>
      store.nodes == old(store.nodes) && store.edges == old(store.edges) && store.writes == old(store.writes)
    ensures FindNode(old(store.nodes), id).Some? ==>
      && store.edges == edges + ChildEdges(id, freshIds)
      && store.nodes == nodes + Children(id, FinishedRecords(finished), freshIds, true)
      && store.writes == old(store.writes) + [EdgesWritten(store.edges), NodesWritten(store.nodes)]
  {
    GuardedCommit(store, id, nodes, edges, finished, freshIds);
  }

  /** The task node's commit: no guard, children without `parentId`, nodes first. */
  method TaskCommit(store: Store, id: string, nodes: seq<Node>, edges: seq<Edge>,
                    finished: Option<seq<Payload>>, freshIds: seq<string>)
    requires |freshIds| == |FinishedRecords(finished)|
    modifies store
    ensures store.nodes == nodes + Children(id, FinishedRecords(finished), freshIds, false)
    ensures store.edges == edges + ChildEdges(id, freshIds)
    ensures store.writes == old(store.writes) + [NodesWritten(store.nodes), EdgesWritten(store.edges)]
  {
    var newNodes, newEdges := BuildChildren(id, FinishedRecords(finished), freshIds, false);
    store.SetNodes(nodes + newNodes);
    store.SetEdges(edges + newEdges);
  }

  /** What a fresh-id supply guarantees: the ids are pairwise distinct and new to the graph. */
  predicate FreshFor(nodes: seq<Node>, freshIds: seq<string>)
  {
    && (forall i, j :: 0 <= i < j < |freshIds| ==> freshIds[i] != freshIds[j])
    && (forall k :: 0 <= k < |freshIds| ==> freshIds[k] !in NodeIds(nodes))
  }

  /** The new edge ids do not clash with the existing ones. */
  predicate FreshEdgeIds(id: string, edges: seq<Edge>, freshIds: seq<string>)
  {
    forall k :: 0 <= k < |freshIds| ==> ChildEdge(id, freshIds[k]).id !in EdgeIds(edges)
  }

  lemma NodeIdsAppend(a: seq<Node>, b: seq<Node>)
    ensures NodeIds(a + b) == NodeIds(a) + NodeIds(b)
  {
    var ab := a + b;
    forall x | x in NodeIds(ab) ensures x in NodeIds(a) + NodeIds(b) {
      var i :| 0 <= i < |ab| && ab[i].id == x;
      if i >= |a| { assert b[i - |a|] == ab[i]; }
    }
    forall x | x in NodeIds(a) + NodeIds(b) ensures x in NodeIds(ab) {
      if x in NodeIds(a) {
        var i :| 0 <= i < |a| && a[i].id == x;
        assert ab[i] == a[i];
      } else {
        var i :| 0 <= i < |b| && b[i].id == x;
        assert ab[|a| + i] == b[i];
      }
    }
  }

  lemma ChildIds(id: string, records: seq<Payload>, freshIds: seq<string>, withParent: bool)
    requires |freshIds| == |records|
    ensures NodeIds(Children(id, records, freshIds, withParent)) == set k | 0 <= k < |freshIds| :: freshIds[k]
  {
    var cs := Children(id, records, freshIds, withParent);
    assert forall k :: 0 <= k < |cs| ==> cs[k].id == freshIds[k];
  }

  /** `${id}-${a}` and `${id}-${b}` coincide only when `a` and `b` do. */
  lemma ChildEdgeIdInjective(id: string, a: string, b: string)
    requires ChildEdge(id, a).id == ChildEdge(id, b).id
    ensures a == b
  {
    var p := id + "-";
    assert p + a == p + b;
    assert (p + a)[|p|..] == a;
    assert (p + b)[|p|..] == b;
  }

  /**
   * A commit keeps the graph well formed: unique ids, no dangling edge, one parent
   * per node and no cycle, provided the expanding node exists and the ids handed out
   * are fresh. This is what the parent guard of the decision and information nodes
   * protects.
   */
  lemma CommitPreservesWellFormed(nodes: seq<Node>, edges: seq<Edge>, id: string,
                                  records: seq<Payload>, freshIds: seq<string>, withParent: bool)
    requires WellFormed(nodes, edges)
    requires id in NodeIds(nodes)
    requires |freshIds| == |records|
    requires FreshFor(nodes, freshIds) && FreshEdgeIds(id, edges, freshIds)
    ensures WellFormed(nodes + Children(id, records, freshIds, withParent), edges + ChildEdges(id, freshIds))
  {
    var cs := Children(id, records, freshIds, withParent);
    var ces := ChildEdges(id, freshIds);
    NodeIdsAppend(nodes, cs);
    ChildIds(id, records, freshIds, withParent);
    NodeIdsStayUnique(nodes, cs, freshIds);
    EdgeIdsStayUnique(id, edges, freshIds);
    EndsStayInGraph(nodes, edges, id, cs, freshIds);
    var rank :| Ranked(nodes, edges, rank);
    RankExtends(nodes, edges, id, cs, freshIds, rank);
  }

  lemma NodeIdsStayUnique(nodes: seq<Node>, cs: seq<Node>, freshIds: seq<string>)
    requires forall i, j :: 0 <= i < j < |nodes| ==> nodes[i].id != nodes[j].id
    requires FreshFor(nodes, freshIds)
    requires |cs| == |freshIds| && forall k :: 0 <= k < |cs| ==> cs[k].id == freshIds[k]
    ensures forall i, j :: 0 <= i < j < |nodes + cs| ==> (nodes + cs)[i].id != (nodes + cs)[j].id
  {
    var ns := nodes + cs;
    forall i, j | 0 <= i < j < |ns| ensures ns[i].id != ns[j].id {
      if j < |nodes| {
        assert ns[i] == nodes[i] && ns[j] == nodes[j];
      } else if i < |nodes| {
        assert ns[i].id in NodeIds(nodes);
        assert ns[j].id == freshIds[j - |nodes|];
      } else {
        assert ns[i].id == freshIds[i - |nodes|] && ns[j].id == freshIds[j - |nodes|];
      }
    }
  }

  lemma EdgeIdsStayUnique(id: string, edges: seq<Edge>, freshIds: seq<string>)
    requires forall i, j :: 0 <= i < j < |edges| ==> edges[i].id != edges[j].id
    requires forall i, j :: 0 <= i < j < |freshIds| ==> freshIds[i] != freshIds[j]
    requires FreshEdgeIds(id, edges, freshIds)
    ensures forall i, j :: 0 <= i < j < |edges + ChildEdges(id, freshIds)| ==>
              (edges + ChildEdges(id, freshIds))[i].id != (edges + ChildEdges(id, freshIds))[j].id
  {
    var es := edges + ChildEdges(id, freshIds);
    forall i, j | 0 <= i < j < |es| ensures es[i].id != es[j].id {
      if j < |edges| {
        assert es[i] == edges[i] && es[j] == edges[j];
      } else if i < |edges| {
        assert es[i].id in EdgeIds(edges);
        assert es[j] == ChildEdge(id, freshIds[j - |edges|]);
      } else if es[i].id == es[j].id {
        assert es[i] == ChildEdge(id, freshIds[i - |edges|]) && es[j] == ChildEdge(id, freshIds[j - |edges|]);
        ChildEdgeIdInjective(id, freshIds[i - |edges|], freshIds[j - |edges|]);
      }
    }
  }

  lemma EndsStayInGraph(nodes: seq<Node>, edges: seq<Edge>, id: string, cs: seq<Node>, freshIds: seq<string>)
    requires forall k :: 0 <= k < |edges| ==> edges[k].source in NodeIds(nodes) && edges[k].target in NodeIds(nodes)
    requires forall i, j :: 0 <= i < j < |edges| ==> edges[i].target != edges[j].target
    requires id in NodeIds(nodes) && FreshFor(nodes, freshIds)
    requires NodeIds(nodes + cs) == NodeIds(nodes) + set k | 0 <= k < |freshIds| :: freshIds[k]
    ensures forall k :: 0 <= k < |edges + ChildEdges(id, freshIds)| ==>
              (edges + ChildEdges(id, freshIds))[k].source in NodeIds(nodes + cs)
              && (edges + ChildEdges(id, freshIds))[k].target in NodeIds(nodes + cs)
    ensures forall i, j :: 0 <= i < j < |edges + ChildEdges(id, freshIds)| ==>
              (edges + ChildEdges(id, freshIds))[i].target != (edges + ChildEdges(id, freshIds))[j].target
  {
    var es := edges + ChildEdges(id, freshIds);
    forall k | 0 <= k < |es| ensures es[k].source in NodeIds(nodes + cs) && es[k].target in NodeIds(nodes + cs) {
      if k < |edges| {
        assert es[k] == edges[k];
      } else {
        assert es[k] == ChildEdge(id, freshIds[k - |edges|]);
      }
    }
    forall i, j | 0 <= i < j < |es| ensures es[i].target != es[j].target {
      if j < |edges| {
        assert es[i] == edges[i] && es[j] == edges[j];
      } else if i < |edges| {
        assert es[i].target in NodeIds(nodes);
        assert es[j].target == freshIds[j - |edges|];
      } else {
        assert es[i].target == freshIds[i - |edges|] && es[j].target == freshIds[j - |edges|];
      }
    }
  }

  /** Old nodes keep their depth; every child gets one more than the expanding node. */
  lemma RankExtends(nodes: seq<Node>, edges: seq<Edge>, id: string, cs: seq<Node>, freshIds: seq<string>,
                    rank: map<string, nat>)
    requires Ranked(nodes, edges, rank)
    requires forall k :: 0 <= k < |edges| ==> edges[k].source in NodeIds(nodes) && edges[k].target in NodeIds(nodes)
    requires id in NodeIds(nodes) && FreshFor(nodes, freshIds)
    requires NodeIds(nodes + cs) == NodeIds(nodes) + set k | 0 <= k < |freshIds| :: freshIds[k]
    ensures exists rank' :: Ranked(nodes + cs, edges + ChildEdges(id, freshIds), rank')
  {
    var es := edges + ChildEdges(id, freshIds);
    var olds := NodeIds(nodes);
    var depth := rank[id] + 1;
    var rank' := map x | x in rank.Keys + NodeIds(nodes + cs) :: if x in olds then rank[x] else depth;
    forall k | 0 <= k < |es| && es[k].source in rank' && es[k].target in rank'
      ensures rank'[es[k].source] < rank'[es[k].target]
    {
      if k < |edges| {
        assert es[k] == edges[k];
      } else {
        assert es[k] == ChildEdge(id, freshIds[k - |edges|]);
        assert freshIds[k - |edges|] !in olds;
      }
    }
    assert Ranked(nodes + cs, es, rank');
  }

  /** Every new child hangs under the expanding node by the layout's parent rule. */
  lemma ChildrenUnderParent(id: string, edges: seq<Edge>, freshIds: seq<string>, k: nat)
    requires k < |freshIds|
    requires forall i :: 0 <= i < |edges| ==> edges[i].target != freshIds[k]
    ensures ParentOf(freshIds[k], edges + ChildEdges(id, freshIds)) == Some(id)
  {
    var es := edges + ChildEdges(id, freshIds);
    assert es[|edges| + k].target == freshIds[k];
    assert forall i :: 0 <= i < |edges| ==> es[i] == edges[i];
    assert forall i :: |edges| <= i < |es| ==> es[i] == ChildEdge(id, freshIds[i - |edges|]);
  }

  /**
   * Without a parent guard (prompt and task nodes), a commit for a node that has
   * meanwhile disappeared leaves an edge whose source is not a node.
   */
  lemma UnguardedCommitDangles(nodes: seq<Node>, edges: seq<Edge>, id: string,
                               records: seq<Payload>, freshIds: seq<string>, withParent: bool)
    requires id !in NodeIds(nodes)
    requires |freshIds| == |records| > 0
    requires forall k :: 0 <= k < |freshIds| ==> freshIds[k] != id
    ensures !WellFormed(nodes + Children(id, records, freshIds, withParent), edges + ChildEdges(id, freshIds))
  {
    var cs := Children(id, records, freshIds, withParent);
    var es := edges + ChildEdges(id, freshIds);
    NodeIdsAppend(nodes, cs);
    ChildIds(id, records, freshIds, withParent);
    assert es[|edges|].source == id;
    assert id !in NodeIds(nodes + cs);
  }

  /** The context projection of nodes none of which is under the prefix: all of them. */
  lemma {:induction false} ContextNodesAllKept(id: string, ns: seq<Node>)
    requires forall k :: 0 <= k < |ns| ==> !UnderPrefix(id, ns[k].id)
    ensures ContextNodes(id, ns) == seq(|ns|, k requires 0 <= k < |ns| => ProjectNode(ns[k]))
  {
    if |ns| > 0 {
      ContextNodesAllKept(id, ns[1..]);
    }
  }

  lemma {:induction false} ContextEdgesAllKept(id: string, es: seq<Edge>)
    requires forall k :: 0 <= k < |es| ==> !UnderPrefix(id, es[k].target)
    ensures ContextEdges(id, es) == seq(|es|, k requires 0 <= k < |es| => ProjectEdge(es[k]))
  {
    if |es| > 0 {
      ContextEdgesAllKept(id, es[1..]);
    }
  }

  /**
   * The `${id}-` filter does not hide the children of an earlier expansion: child
   * ids come from the id supply and, unless one happens to start with `${id}-`,
   * both the children and the edges into them stay in the next request's context.
   */
  lemma ContextKeepsChildren(id: string, nodes: seq<Node>, edges: seq<Edge>,
                             records: seq<Payload>, freshIds: seq<string>, withParent: bool)
    requires |freshIds| == |records|
    requires forall k :: 0 <= k < |freshIds| ==> !UnderPrefix(id, freshIds[k])
    ensures ContextNodes(id, nodes + Children(id, records, freshIds, withParent))
         == ContextNodes(id, nodes) + seq(|records|, k requires 0 <= k < |records| => ProjectNode(ChildNode(id, records[k], freshIds[k], withParent)))
    ensures ContextEdges(id, edges + ChildEdges(id, freshIds))
         == ContextEdges(id, edges) + seq(|freshIds|, k requires 0 <= k < |freshIds| => ProjectEdge(ChildEdge(id, freshIds[k])))
  {
    var cs := Children(id, records, freshIds, withParent);
    var ces := ChildEdges(id, freshIds);
    ContextNodesAppend(id, nodes, cs);
    ContextEdgesAppend(id, edges, ces);
    ContextNodesAllKept(id, cs);
    ContextEdgesAllKept(id, ces);
  }
}
