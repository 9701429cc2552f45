/**
 * The layout hook: whenever the number of nodes changes, the tree placement is
 * recomputed and every node is animated from where it is to where the placement
 * puts it, over 300 time units, after which the nodes snap to their targets.
 */
module Layout {
  import opened Common
  import opened Graph
  import opened NodeStore

  /** The animation length, `options.duration`. */
  const Duration: real := 300.0

  /** A node as handed to the hierarchy builder, with the parent the edge rule gives it. */
  datatype HNode = HNode(node: Node, parentId: Option<string>)

  /**
   * The `stratify` input: each node with the source of the first edge into it as
   * its parent; a node with no incoming edge is a root.
   */
  function Stratify(nodes: seq<Node>, edges: seq<Edge>): (r: seq<HNode>)
    ensures |r| == |nodes|
    ensures forall k :: 0 <= k < |r| ==> r[k].node == nodes[k] && r[k].parentId == ParentOf(nodes[k].id, edges)
  {
    seq(|nodes|, k requires 0 <= k < |nodes| => HNode(nodes[k], ParentOf(nodes[k].id, edges)))
  }

  /**
   * `layoutNodes`: nothing for no nodes; otherwise the descendants the tree
   * placement returns, each the original node with only its position replaced.
   * `tree` stands for the d3 tree placement: it returns the hierarchy's descendants,
   * each paired with its coordinates.
   */
  function LayoutNodes(nodes: seq<Node>, edges: seq<Edge>, tree: seq<HNode> -> seq<(HNode, Position)>): (r: seq<Node>)
    ensures |nodes| == 0 ==> r == []
  {
    if |nodes| == 0 then []
    else
      var placed := tree(Stratify(nodes, edges));
      seq(|placed|, k requires 0 <= k < |placed| => placed[k].0.node.(position := placed[k].1))
  }

  /**
   * As long as the placement returns nodes of the hierarchy it was given (which d3
   * does), every laid-out node is a stored node at a new position, and nothing
   * else about it changes.
   */
  lemma LayoutKeepsFields(nodes: seq<Node>, edges: seq<Edge>, tree: seq<HNode> -> seq<(HNode, Position)>, k: nat)
    requires |nodes| > 0
    requires forall q :: q in tree(Stratify(nodes, edges)) ==> q.0 in Stratify(nodes, edges)
    requires k < |LayoutNodes(nodes, edges, tree)|
    ensures exists i :: 0 <= i < |nodes| && LayoutNodes(nodes, edges, tree)[k] == nodes[i].(position := tree(Stratify(nodes, edges))[k].1)
  {
    var h := Stratify(nodes, edges);
    var q := tree(h)[k];
    assert q in tree(h);
    var j :| 0 <= j < |h| && h[j] == q.0;
    assert LayoutNodes(nodes, edges, tree)[k] == nodes[j].(position := q.1);
  }

  /** One node's animation: where it starts, where it ends, and the laid-out node itself. */
  datatype Transition = Transition(id: string, from: Position, to: Position, node: Node)

  /** The start of a node's animation: its stored position, or its target if it is not stored. */
  function StartPosition(target: Node, current: seq<Node>): Position
  {
    match FindNode(current, target.id)
    case Some(n) => n.position
    case None => target.position
  }

  /** The transitions map: one transition per laid-out node, in order. */
  function Transitions(targets: seq<Node>, current: seq<Node>): (r: seq<Transition>)
    ensures |r| == |targets|
    ensures forall k :: 0 <= k < |r| ==>
              && r[k].id == targets[k].id && r[k].node == targets[k] && r[k].to == targets[k].position
              && r[k].from == StartPosition(targets[k], current)
  {
    seq(|targets|, k requires 0 <= k < |targets| => Transition(targets[k].id, StartPosition(targets[k], current), targets[k].position, targets[k]))
  }

  /** A node already in the store starts where it is; a node not yet stored does not move. */
  lemma StartPositionCases(target: Node, current: seq<Node>)
    ensures (forall i :: 0 <= i < |current| ==> current[i].id != target.id) ==> StartPosition(target, current) == target.position
    ensures forall i :: 0 <= i < |current| && current[i].id == target.id && (forall j :: 0 <= j < i ==> current[j].id != target.id)
              ==> StartPosition(target, current) == current[i].position
  {
    var r := FindNode(current, target.id);
    if r.Some? {
      var i :| 0 <= i < |current| && current[i] == r.value && r.value.id == target.id
               && forall j :: 0 <= j < i ==> current[j].id != target.id;
      forall i' | 0 <= i' < |current| && current[i'].id == target.id && (forall j :: 0 <= j < i' ==> current[j].id != target.id)
        ensures current[i'].position == current[i].position
      {
        assert i' == i;
      }
    }
  }

  /** Linear interpolation between `a` and `b` at fraction `s`. */
  function Lerp(a: real, b: real, s: real): real
  {
    a + (b - a) * s
  }

  /** The position at time `elapsed`: `from + (to - from) * elapsed / 300` in both coordinates. */
  function Interpolate(from: Position, to: Position, elapsed: real): Position
  {
    var s := elapsed / Duration;
    Position(Lerp(from.x, to.x, s), Lerp(from.y, to.y, s))
  }

  lemma InterpolateEnds(from: Position, to: Position)
    ensures Interpolate(from, to, 0.0) == from
    ensures Interpolate(from, to, Duration) == to
  {
  }

  lemma LerpBetween(a: real, b: real, s: real)
    requires 0.0 <= s <= 1.0
    ensures a <= b ==> a <= Lerp(a, b, s) <= b
    ensures b <= a ==> b <= Lerp(a, b, s) <= a
  {
    var d := b - a;
    assert d * s + d * (1.0 - s) == d;
    if a <= b {
      MulNonneg(d, s);
      MulNonneg(d, 1.0 - s);
    } else {
      MulNonneg(-d, s);
      MulNonneg(-d, 1.0 - s);
    }
  }

  lemma MulNonneg(x: real, y: real)
    requires x >= 0.0 && y >= 0.0
    ensures x * y >= 0.0
  {
  }

  /** Within the animation every coordinate lies between its start and its end. */
  lemma InterpolateBetween(from: Position, to: Position, elapsed: real)
    requires 0.0 <= elapsed <= Duration
    ensures from.x <= to.x ==> from.x <= Interpolate(from, to, elapsed).x <= to.x
    ensures to.x <= from.x ==> to.x <= Interpolate(from, to, elapsed).x <= from.x
    ensures from.y <= to.y ==> from.y <= Interpolate(from, to, elapsed).y <= to.y
    ensures to.y <= from.y ==> to.y <= Interpolate(from, to, elapsed).y <= from.y
  {
    var s := elapsed / Duration;
    assert 0.0 <= s <= 1.0;
    LerpBetween(from.x, to.x, s);
    LerpBetween(from.y, to.y, s);
  }

  /**
   * The frame written on the tick that ends the animation is computed with
   * `elapsed > 300`, so a moving node briefly passes its target before the snap.
   */
  lemma LastFrameOvershoots(from: Position, to: Position, elapsed: real)
    requires elapsed > Duration && from.x < to.x
    ensures Interpolate(from, to, elapsed).x > to.x
  {
    var s := elapsed / Duration;
    assert s > 1.0;
    assert (to.x - from.x) * s > (to.x - from.x) * 1.0;
  }

  /** The nodes written on a tick: each laid-out node at its interpolated position. */
  function Frame(ts: seq<Transition>, elapsed: real): (r: seq<Node>)
    ensures |r| == |ts|
    ensures forall k :: 0 <= k < |r| ==> r[k] == ts[k].node.(position := Interpolate(ts[k].from, ts[k].to, elapsed))
  {
    seq(|ts|, k requires 0 <= k < |ts| => ts[k].node.(position := Interpolate(ts[k].from, ts[k].to, elapsed)))
  }

  /** The nodes written once the animation is over: each laid-out node exactly at its target. */
  function FinalFrame(ts: seq<Transition>): (r: seq<Node>)
    ensures |r| == |ts|
    ensures forall k :: 0 <= k < |r| ==> r[k] == ts[k].node.(position := ts[k].to)
  {
    seq(|ts|, k requires 0 <= k < |ts| => ts[k].node.(position := ts[k].to))
  }

  /** The snap lands exactly on the layout: the final frame is the laid-out node list. */
  lemma FinalFrameIsLayout(targets: seq<Node>, current: seq<Node>)
    ensures FinalFrame(Transitions(targets, current)) == targets
  {
    var f := FinalFrame(Transitions(targets, current));
    assert forall k :: 0 <= k < |f| ==> f[k] == targets[k];
  }

  /** The first frame shows every node at its start position. */
  lemma FirstFrameAtStart(targets: seq<Node>, current: seq<Node>)
    ensures forall k :: 0 <= k < |targets| ==>
              Frame(Transitions(targets, current), 0.0)[k] == targets[k].(position := StartPosition(targets[k], current))
  {
  }

  /** Whether a completed pass calls `fitView`, given the `initial` flag, as the code is written. */
  function FitsViewAsWritten(initial: bool): bool
  {
    !initial
  }

  /** Whether a completed pass calls `fitView`, as the hook's comments say it should: on the first pass. */
  function FitsView(initial: bool): bool
  {
    initial
  }

  /**
   * Number of `fitView` calls after `n` completed animations under the rule `fits`;
   * `initial` is true only during the first.
   */
  function FitCalls(n: nat, fits: bool -> bool): nat
  {
    if n == 0 then 0 else FitCalls(n - 1, fits) + (if fits(n == 1) then 1 else 0)
  }

  /** As written, the view is never fitted on the first pass and is fitted on every later one. */
  lemma {:induction false} FitCallsAsWritten(n: nat)
    ensures FitCalls(n, FitsViewAsWritten) == if n == 0 then 0 else n - 1
  {
    if n > 0 {
      FitCallsAsWritten(n - 1);
    }
  }

  /** With the corrected rule the view is fitted exactly once, on the first completed pass. */
  lemma {:induction false} FitCallsIntended(n: nat)
    ensures FitCalls(n, FitsView) == if n == 0 then 0 else 1
  {
    if n > 1 {
      FitCallsIntended(n - 1);
    }
  }

  /** The hook's state across renders: the `initial` ref, the timers it started, and the current animation. */
  class LayoutEffect {
    var initial: bool
    /** One flag per timer started so far, oldest first: whether it is still running. */
    var timers: seq<bool>
    var transitions: seq<Transition>
    /** How many animations have run to completion, and how often the view was fitted. */
    ghost var completed: nat
    var fitViewCalls: nat

    ghost predicate Valid()
      reads this
    {
      && (forall i :: 0 <= i < |timers| - 1 ==> !timers[i])
      && (initial <==> completed == 0)
      && fitViewCalls == FitCalls(completed, FitsView)
    }

    constructor ()
      ensures Valid()
      ensures initial && timers == [] && transitions == [] && completed == 0
    {
      initial := true;
      timers := [];
      transitions := [];
      completed := 0;
      fitViewCalls := 0;
    }

    /** Whether the animation of the latest effect run is still going. */
    predicate Running()
      reads this
    {
      |timers| > 0 && timers[|timers| - 1]
    }

    /**
     * One run of the effect: the previous run's cleanup stops its timer, then the
     * layout is recomputed from the store and a new timer starts. The store is only read.
     */
    method Effect(store: Store, tree: seq<HNode> -> seq<(HNode, Position)>)
      requires Valid()
      modifies this
      ensures Valid() && Running()
      ensures |timers| == |old(timers)| + 1 && forall i :: 0 <= i < |old(timers)| ==> !timers[i]
      ensures transitions == Transitions(LayoutNodes(store.nodes, store.edges, tree), store.nodes)
      ensures initial == old(initial) && completed == old(completed) && fitViewCalls == old(fitViewCalls)
    {
      if |timers| > 0 {
        timers := timers[|timers| - 1 := false];
      }
      var nodes := store.GetNodes();
      var edges := store.GetEdges();
      var targetNodes := LayoutNodes(nodes, edges, tree);
      transitions := Transitions(targetNodes, nodes);
      timers := timers + [true];
    }

    /**
     * One timer callback at time `elapsed`: the interpolated frame is written; once
     * `elapsed` exceeds the duration the nodes are also snapped to their targets,
     * the timer stops, the view is fitted on the first such pass only, and `initial`
     * becomes false.
     */
    method Tick(store: Store, elapsed: real)
      requires Valid() && Running()
      modifies this, store
      ensures Valid()
      ensures transitions == old(transitions) && |timers| == |old(timers)|
      ensures elapsed <= Duration ==>
        && store.nodes == Frame(transitions, elapsed)
        && store.writes == old(store.writes) + [NodesWritten(Frame(transitions, elapsed))]
        && timers == old(timers) && initial == old(initial) && completed == old(completed)
        && fitViewCalls == old(fitViewCalls)
      ensures elapsed > Duration ==>
        && store.nodes == FinalFrame(transitions)
        && store.writes == old(store.writes) + [NodesWritten(Frame(transitions, elapsed)), NodesWritten(FinalFrame(transitions))]
        && !Running() && !initial && completed == old(completed) + 1
        && fitViewCalls == old(fitViewCalls) + (if FitsView(old(initial)) then 1 else 0)
      ensures store.edges == old(store.edges)
    {
      var currNodes := Frame(transitions, elapsed);
      store.SetNodes(currNodes);
      if elapsed > Duration {
        var finalNodes := FinalFrame(transitions);
        store.SetNodes(finalNodes);
        timers := timers[|timers| - 1 := false];
        if FitsView(initial) {
          fitViewCalls := fitViewCalls + 1;
        }
        initial := false;
        completed := completed + 1;
      }
    }
  }
}
