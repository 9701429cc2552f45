/**
 * What an expanding node sends to the generator: the part of the graph that is
 * not already its own generated subtree, projected to the fields the prompt uses,
 * together with the user's message and the node's identity.
 */
module Context {
  import opened Common
  import opened Strings
  import opened Json
  import opened Graph
  import opened NodeStore

  datatype ContextNode = ContextNode(id: string, nodeType: string, data: Json)

  datatype ContextEdge = ContextEdge(id: string, source: string, target: string)

  datatype Message = Message(role: string, content: string)

  /** The body of the generation request. */
  datatype Request = Request(
    messages: seq<Message>,
    nodeTree: seq<ContextNode>,
    edgeTree: seq<ContextEdge>,
    currentNodeId: string,
    currentNodeType: string)

  /** `s.startsWith(`${id}-`)`: the filter's notion of "generated under `id`". */
  predicate UnderPrefix(id: string, s: string)
  {
    id + "-" <= s
  }

  function ProjectNode(n: Node): ContextNode
  {
    ContextNode(n.id, n.nodeType, n.data)
  }

  function ProjectEdge(e: Edge): ContextEdge
  {
    ContextEdge(e.id, e.source, e.target)
  }

  /** The stored nodes whose id is not under the `${id}-` prefix, projected to {id, type, data}. */
  function ContextNodes(id: string, nodes: seq<Node>): (r: seq<ContextNode>)
    ensures |r| <= |nodes|
    ensures forall c :: c in r ==> exists n :: n in nodes && c == ProjectNode(n) && !UnderPrefix(id, n.id)
  {
    if |nodes| == 0 then []
    else
      var rest := ContextNodes(id, nodes[1..]);
      assert forall n :: n in nodes[1..] ==> n in nodes;
      if UnderPrefix(id, nodes[0].id) then rest else [ProjectNode(nodes[0])] + rest
  }

  /** The stored edges whose target is not under the `${id}-` prefix, projected to {id, source, target}. */
  function ContextEdges(id: string, edges: seq<Edge>): (r: seq<ContextEdge>)
    ensures |r| <= |edges|
    ensures forall c :: c in r ==> exists e :: e in edges && c == ProjectEdge(e) && !UnderPrefix(id, e.target)
  {
    if |edges| == 0 then []
    else
      var rest := ContextEdges(id, edges[1..]);
      assert forall e :: e in edges[1..] ==> e in edges;
      if UnderPrefix(id, edges[0].target) then rest else [ProjectEdge(edges[0])] + rest
  }

  /** Filtering distributes over concatenation, so the kept nodes stay in their original order. */
  lemma {:induction false} ContextNodesAppend(id: string, a: seq<Node>, b: seq<Node>)
    ensures ContextNodes(id, a + b) == ContextNodes(id, a) + ContextNodes(id, b)
  {
    if |a| > 0 {
      assert (a + b)[1..] == a[1..] + b;
      ContextNodesAppend(id, a[1..], b);
    } else {
      assert a + b == b;
    }
  }

  lemma {:induction false} ContextEdgesAppend(id: string, a: seq<Edge>, b: seq<Edge>)
    ensures ContextEdges(id, a + b) == ContextEdges(id, a) + ContextEdges(id, b)
  {
    if |a| > 0 {
      assert (a + b)[1..] == a[1..] + b;
      ContextEdgesAppend(id, a[1..], b);
    } else {
      assert a + b == b;
    }
  }

  /** On one node the filter keeps exactly the nodes outside the prefix. */
  lemma ContextNodesSingle(id: string, n: Node)
    ensures ContextNodes(id, [n]) == if UnderPrefix(id, n.id) then [] else [ProjectNode(n)]
  {
    assert [n][1..] == [];
  }

  lemma ContextEdgesSingle(id: string, e: Edge)
    ensures ContextEdges(id, [e]) == if UnderPrefix(id, e.target) then [] else [ProjectEdge(e)]
  {
    assert [e][1..] == [];
  }

  /** Every stored node outside the prefix appears in the context. */
  lemma {:induction false} ContextNodesKeeps(id: string, nodes: seq<Node>, i: nat)
    requires i < |nodes| && !UnderPrefix(id, nodes[i].id)
    ensures ProjectNode(nodes[i]) in ContextNodes(id, nodes)
  {
    assert nodes == nodes[..i] + [nodes[i]] + nodes[i + 1..];
    ContextNodesAppend(id, nodes[..i] + [nodes[i]], nodes[i + 1..]);
    ContextNodesAppend(id, nodes[..i], [nodes[i]]);
    ContextNodesSingle(id, nodes[i]);
  }

  /** The expanding node is never under its own prefix, so it is always part of its context. */
  lemma SelfKept(id: string, nodes: seq<Node>, i: nat)
    requires i < |nodes| && nodes[i].id == id
    ensures !UnderPrefix(id, id)
    ensures ProjectNode(nodes[i]) in ContextNodes(id, nodes)
  {
    assert |id + "-"| > |id|;
    ContextNodesKeeps(id, nodes, i);
  }

  /** The request shared by every node kind: one user message plus the filtered context. */
  function ExpansionRequest(id: string, nodeType: string, content: string, nodes: seq<Node>, edges: seq<Edge>): (r: Request)
    ensures r.messages == [Message("user", content)]
    ensures r.currentNodeId == id && r.currentNodeType == nodeType
    ensures r.nodeTree == ContextNodes(id, nodes) && r.edgeTree == ContextEdges(id, edges)
  {
    Request([Message("user", content)], ContextNodes(id, nodes), ContextEdges(id, edges), id, nodeType)
  }

  /**
   * The prompt node's `handleSubmit` on the store's current sequences: nothing is
   * sent for a prompt that trims to empty; otherwise the prompt goes out verbatim.
   */
  function PromptSubmit(prompt: string, id: string, nodes: seq<Node>, edges: seq<Edge>): (r: Option<Request>)
    ensures r.None? <==> AllSpace(JavaScript, prompt)
    ensures r.Some? ==> r.value == ExpansionRequest(id, "prompt", prompt, nodes, edges)
  {
    StripEmptyIff(JavaScript, prompt);
    if Strip(JavaScript, prompt) == "" then None
    else Some(ExpansionRequest(id, "prompt", prompt, nodes, edges))
  }

  /** The message a decision node sends for the option the user picked. */
  function OptionMessage(option: string, question: string): string
  {
    "Selected option: \"" + option + "\" for the question: \"" + question + "\""
  }

  /** A decision node's local component state. */
  class DecisionNode {
    const id: string
    const question: string
    const options: seq<string>
    var selectedOption: Option<string>

    /** The component mounts with its data and no option selected. */
    constructor (id: string, question: string, options: seq<string>)
      ensures this.id == id && this.question == question && this.options == options
      ensures selectedOption == None
    {
      this.id := id;
      this.question := question;
      this.options := options;
      selectedOption := None;
    }

    /**
     * `handleSubmit(option)`: record the choice, then build the request from the
     * store's current sequences. The store itself is only read.
     */
    method HandleSubmit(option: string, store: Store) returns (r: Request)
      modifies this
      ensures selectedOption == Some(option)
      ensures r == ExpansionRequest(id, "decision", OptionMessage(option, question), store.nodes, store.edges)
    {
      selectedOption := Some(option);
      r := ExpansionRequest(id, "decision", OptionMessage(option, question), store.nodes, store.edges);
    }
  }
}
