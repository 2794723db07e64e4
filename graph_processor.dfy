/**
 * The graph processor's dependency sort (Editor/TextureMakerGraphProcessor.cs): an iterative
 * depth-first search with an explicit stack of (node, post-processing) frames that lists, for one
 * output node, every node it depends on before the node itself, and rejects a circular dependency.
 * Graph nodes are numbered; the object identity the source's hash sets use is the node number here.
 */
module GraphProcessing {
  import opened Outcomes

  type NodeId = nat

  /** An input port: whether it is connected and the nodes of the ports connected to it, in order. */
  datatype InputPort = InputPort(isConnected: bool, connectedNodes: seq<NodeId>)

  /**
   * What the sort sees of a node: whether it is a texture-executable node, whether it is an output
   * node, the node list an ICustomDependency node supplies itself, and its input ports (null when the
   * node reports none).
   */
  datatype GraphNode = GraphNode(isExecutable: bool, isOutput: bool,
                                 customDependencies: Option<seq<NodeId>>,
                                 inputPorts: Option<seq<InputPort>>)

  datatype Graph = Graph(nodes: seq<GraphNode>)

  /** The nodes behind the connected input ports, port by port, in the order the ports report them. */
  function PortDependencies(ports: seq<InputPort>): (r: seq<NodeId>)
    ensures forall d :: d in r <==> exists i :: 0 <= i < |ports| && ports[i].isConnected && d in ports[i].connectedNodes
  {
    if |ports| == 0 then []
    else
      var rest := PortDependencies(ports[1..]);
      assert forall i :: 1 <= i < |ports| ==> ports[i] == ports[1..][i - 1];
      (if ports[0].isConnected then ports[0].connectedNodes else []) + rest
  }

  /** GetDependentNodes: nothing for a node without input ports, otherwise the connected peers. */
  function GetDependentNodes(node: GraphNode): seq<NodeId> {
    match node.inputPorts
    case None => []
    case Some(ports) => PortDependencies(ports)
  }

  /** The dependencies of node n: its own list if it supplies one, otherwise its connected peers. */
  function Dependencies(g: Graph, n: NodeId): (r: seq<NodeId>)
    requires n < |g.nodes|
    ensures g.nodes[n].customDependencies.Some? ==> r == g.nodes[n].customDependencies.value
    ensures g.nodes[n].customDependencies.None? && g.nodes[n].inputPorts.None? ==> r == []
    ensures g.nodes[n].customDependencies.None? && g.nodes[n].inputPorts.Some? ==>
      r == PortDependencies(g.nodes[n].inputPorts.value)
  {
    match g.nodes[n].customDependencies
    case Some(ds) => ds
    case None => GetDependentNodes(g.nodes[n])
  }

  /** Every node a node names as a dependency or a peer is a node of the graph. */
  predicate WellFormed(g: Graph) {
    forall n, i :: 0 <= n < |g.nodes| && 0 <= i < |Dependencies(g, n)| ==> Dependencies(g, n)[i] < |g.nodes|
  }

  /** b is an executable dependency of a: the edges the sort follows. */
  predicate Edge(g: Graph, a: NodeId, b: NodeId) {
    a < |g.nodes| && b < |g.nodes| && b in Dependencies(g, a) && g.nodes[b].isExecutable
  }

  predicate IsPath(g: Graph, p: seq<NodeId>) {
    |p| >= 1 && forall k :: 0 <= k < |p| - 1 ==> Edge(g, p[k], p[k + 1])
  }

  /** A path from m that ends on a node it already passed: a circular dependency reachable from m. */
  predicate IsLasso(g: Graph, m: NodeId, p: seq<NodeId>) {
    |p| >= 2 && IsPath(g, p) && p[0] == m && p[|p| - 1] in p[..|p| - 1]
  }

  /** x is reached from m by following executable dependencies. */
  ghost predicate Reachable(g: Graph, m: NodeId, x: NodeId) {
    exists p :: IsPath(g, p) && p[0] == m && p[|p| - 1] == x
  }

  /** One more edge extends a path from m. */
  lemma ReachableStep(g: Graph, m: NodeId, x: NodeId, y: NodeId)
    requires Reachable(g, m, x) && Edge(g, x, y)
    ensures Reachable(g, m, y)
  {
    var p :| IsPath(g, p) && p[0] == m && p[|p| - 1] == x;
    assert IsPath(g, p + [y]) && (p + [y])[0] == m;
  }

  ghost predicate CycleReachable(g: Graph, m: NodeId) {
    exists p :: IsLasso(g, m, p)
  }

  predicate NoDuplicates(s: seq<NodeId>) {
    forall i, j :: 0 <= i < j < |s| ==> s[i] != s[j]
  }

  /** Every executable dependency of s[i] comes earlier in s. */
  ghost predicate DepsBefore(g: Graph, s: seq<NodeId>, i: nat)
    requires i < |s|
  {
    forall d :: Edge(g, s[i], d) ==> d in s[..i]
  }

  /**
   * What a successful sort for output node m promises: each node once, m last, every other node
   * executable and reached from m, and every executable dependency of a listed node listed before it.
   */
  ghost predicate TopologicalOrder(g: Graph, m: NodeId, s: seq<NodeId>) {
    && NoDuplicates(s)
    && |s| > 0 && s[|s| - 1] == m
    && (forall i :: 0 <= i < |s| ==> s[i] < |g.nodes|)
    && (forall i :: 0 <= i < |s| - 1 ==> g.nodes[s[i]].isExecutable)
    && (forall i :: 0 <= i < |s| ==> Reachable(g, m, s[i]))
    && (forall i :: 0 <= i < |s| ==> DepsBefore(g, s, i))
  }

  function IndexOf(s: seq<NodeId>, x: NodeId): (i: nat)
    requires x in s
    ensures i < |s| && s[i] == x
    ensures forall j :: 0 <= j < i ==> s[j] != x
  {
    if s[0] == x then 0 else 1 + IndexOf(s[1..], x)
  }

  /**
   * Along any path from m, a topological order for m lists every node, each strictly before the
   * node it was reached from.
   */
  lemma {:induction false} PathListedDescending(g: Graph, m: NodeId, s: seq<NodeId>, p: seq<NodeId>, k: nat)
    requires TopologicalOrder(g, m, s) && IsPath(g, p) && p[0] == m && k < |p|
    ensures p[k] in s
    ensures k > 0 ==> IndexOf(s, p[k]) <= IndexOf(s, m) - k
  {
    if k == 0 {
      assert s[|s| - 1] == m;
    } else {
      PathListedDescending(g, m, s, p, k - 1);
      var i := IndexOf(s, p[k - 1]);
      assert DepsBefore(g, s, i) && Edge(g, p[k - 1], p[k]);
      assert p[k] in s[..i];
      var j :| 0 <= j < i && s[..i][j] == p[k];
      assert s[j] == p[k];
      assert IndexOf(s, p[k]) == j;
      assert IndexOf(s, m) == |s| - 1;
    }
  }

  /** Every executable node reachable from m is in a topological order for m. */
  lemma ReachableListed(g: Graph, m: NodeId, s: seq<NodeId>, p: seq<NodeId>)
    requires TopologicalOrder(g, m, s) && IsPath(g, p) && p[0] == m
    ensures forall k :: 0 <= k < |p| ==> p[k] in s
  {
    forall k | 0 <= k < |p| ensures p[k] in s {
      PathListedDescending(g, m, s, p, k);
    }
  }

  /**
   * A topological order for m lists exactly m and the executable nodes reached from m: no other node
   * of the graph is included.
   */
  lemma ListsExactlyReachable(g: Graph, m: NodeId, s: seq<NodeId>, x: NodeId)
    requires TopologicalOrder(g, m, s)
    ensures x in s <==> x < |g.nodes| && Reachable(g, m, x) && (x == m || g.nodes[x].isExecutable)
  {
    if x in s {
      var i :| 0 <= i < |s| && s[i] == x;
      if i < |s| - 1 {
        assert g.nodes[s[i]].isExecutable;
      }
    } else if x < |g.nodes| && Reachable(g, m, x) {
      var p :| IsPath(g, p) && p[0] == m && p[|p| - 1] == x;
      ReachableListed(g, m, s, p);
    }
  }

  /** No topological order exists for an output node that reaches a circular dependency. */
  lemma NoOrderWithCycle(g: Graph, m: NodeId, s: seq<NodeId>)
    requires TopologicalOrder(g, m, s)
    ensures !CycleReachable(g, m)
  {
    if p :| IsLasso(g, m, p) {
      var last := |p| - 1;
      var j :| 0 <= j < last && p[..last][j] == p[last];
      PathListedDescending(g, m, s, p, j);
      PathListedDescending(g, m, s, p, last);
      if j > 0 {
        // p[last] is listed at least last - j places before p[j]: the same node
        PathFromListed(g, m, s, p, j, last);
      } else {
        assert p[last] == m;
      }
    }
  }

  /** Along a path, the listing index drops by at least one per edge. */
  lemma {:induction false} PathFromListed(g: Graph, m: NodeId, s: seq<NodeId>, p: seq<NodeId>, j: nat, k: nat)
    requires TopologicalOrder(g, m, s) && IsPath(g, p) && p[0] == m && j <= k < |p|
    ensures p[j] in s && p[k] in s
    ensures IndexOf(s, p[k]) <= IndexOf(s, p[j]) - (k - j)
    decreases k - j
  {
    PathListedDescending(g, m, s, p, j);
    PathListedDescending(g, m, s, p, k);
    if j < k {
      PathFromListed(g, m, s, p, j, k - 1);
      var i := IndexOf(s, p[k - 1]);
      assert DepsBefore(g, s, i) && Edge(g, p[k - 1], p[k]);
      var x :| 0 <= x < i && s[..i][x] == p[k];
      assert s[x] == p[k];
      assert IndexOf(s, p[k]) == x;
    }
  }

  /** A stack frame: a node and whether it is being post-processed (its dependencies are done). */
  datatype Frame = Frame(node: NodeId, postProcessing: bool)

  /** The index of the last post-processing frame below position q, or -1. */
  function LastPostBefore(stack: seq<Frame>, q: nat): (p: int)
    requires q <= |stack|
    ensures -1 <= p < q
    ensures p >= 0 ==> stack[p].postProcessing
    ensures forall m :: p < m < q ==> !stack[m].postProcessing
  {
    if q == 0 then -1
    else if stack[q - 1].postProcessing then q - 1
    else LastPostBefore(stack, q - 1)
  }

  lemma {:induction false} LastPostBeforePrefix(s: seq<Frame>, t: seq<Frame>, q: nat)
    requires q <= |s| && q <= |t| && s[..q] == t[..q]
    ensures LastPostBefore(s, q) == LastPostBefore(t, q)
  {
    if q > 0 {
      assert s[q - 1] == s[..q][q - 1] == t[..q][q - 1] == t[q - 1];
      assert s[..q - 1] == s[..q][..q - 1] && t[..q - 1] == t[..q][..q - 1];
      LastPostBeforePrefix(s, t, q - 1);
    }
  }

  /** The nodes of the post-processing frames: the nodes on the current search path. */
  function PostNodes(stack: seq<Frame>): set<NodeId> {
    set i | 0 <= i < |stack| && stack[i].postProcessing :: stack[i].node
  }

  /** The frame at q was pushed while expanding the node of the nearest post-processing frame below it. */
  predicate ParentEdge(g: Graph, stack: seq<Frame>, q: nat)
    requires q <= |stack|
  {
    q < |stack| && var p := LastPostBefore(stack, q); p >= 0 && Edge(g, stack[p].node, stack[q].node)
  }

  predicate OnStackAbove(stack: seq<Frame>, p: nat, d: NodeId) {
    exists q :: p < q < |stack| && stack[q].node == d
  }

  /** Every executable dependency of the node of frame p is finished or still on the stack above p. */
  ghost predicate Pending(g: Graph, stack: seq<Frame>, p: nat, visited: set<NodeId>)
    requires p < |stack|
  {
    forall d :: Edge(g, stack[p].node, d) ==> d in visited || OnStackAbove(stack, p, d)
  }

  /** The nodes of the post-processing frames, from the bottom up, form a path from the frame-0 node. */
  lemma {:induction false} PostChain(g: Graph, stack: seq<Frame>, p: nat) returns (path: seq<NodeId>)
    requires p < |stack| && stack[0].postProcessing && stack[p].postProcessing
    requires forall q :: 1 <= q <= p ==> ParentEdge(g, stack, q)
    ensures IsPath(g, path) && path[0] == stack[0].node && path[|path| - 1] == stack[p].node
    ensures forall i :: 0 <= i <= p && stack[i].postProcessing ==> stack[i].node in path
  {
    if p == 0 {
      path := [stack[0].node];
    } else {
      assert ParentEdge(g, stack, p);
      var pp := LastPostBefore(stack, p);
      var front := PostChain(g, stack, pp);
      path := front + [stack[p].node];
      assert Edge(g, stack[pp].node, stack[p].node);
      forall i | 0 <= i <= p && stack[i].postProcessing ensures stack[i].node in path {
        if i <= pp {
          assert stack[i].node in front;
        } else {
          assert i == p;
        }
      }
    }
  }

  /** The node numbers below n. */
  function Below(n: nat): (r: set<NodeId>)
    ensures forall x: NodeId :: x in r <==> x < n
  {
    if n == 0 then {} else Below(n - 1) + {n - 1}
  }

  lemma ExpansionShrinks(all: set<NodeId>, seen: set<NodeId>, y: NodeId)
    requires y in all && y !in seen
    ensures |all - (seen + {y})| < |all - seen|
  {
    assert all - seen == (all - (seen + {y})) + {y};
  }

  /** The frames' and the sets' nodes are nodes of the graph; finished nodes are m or executable. */
  predicate InGraph(g: Graph, m: NodeId, stack: seq<Frame>, visited: set<NodeId>, visiting: set<NodeId>) {
    && (forall i :: 0 <= i < |stack| ==> stack[i].node < |g.nodes|)
    && (forall i :: 0 <= i < |stack| ==> stack[i].node == m || g.nodes[stack[i].node].isExecutable)
    && (forall x :: x in visited ==> x < |g.nodes| && (x == m || g.nodes[x].isExecutable))
    && (forall x :: x in visiting ==> x < |g.nodes|)
  }

  predicate PostsDistinct(stack: seq<Frame>) {
    forall i, j :: 0 <= i < j < |stack| && stack[i].postProcessing && stack[j].postProcessing ==>
      stack[i].node != stack[j].node
  }

  /** The search state between two iterations of the sort's loop. */
  ghost predicate SearchState(g: Graph, m: NodeId, stack: seq<Frame>, visited: set<NodeId>, visiting: set<NodeId>,
                        order: seq<NodeId>, started: bool)
  {
    && InGraph(g, m, stack, visited, visiting)
    && visited !! visiting
    && NoDuplicates(order) && (forall x :: x in order <==> x in visited)
    && visiting == PostNodes(stack)
    && PostsDistinct(stack)
    && (!started ==> stack == [Frame(m, false)] && visited == {} && order == [])
    && (started && |stack| > 0 ==> stack[0] == Frame(m, true))
    && (started && |stack| == 0 ==> |order| > 0 && order[|order| - 1] == m)
    && (forall q :: 1 <= q < |stack| ==> ParentEdge(g, stack, q))
    && (forall p :: 0 <= p < |stack| && stack[p].postProcessing ==> Pending(g, stack, p, visited))
    && (forall i :: 0 <= i < |order| ==> DepsBefore(g, order, i))
    && (forall i :: 0 <= i < |stack| ==> Reachable(g, m, stack[i].node))
    && (forall x :: x in visited ==> Reachable(g, m, x))
  }

  lemma InitialState(g: Graph, m: NodeId)
    requires m < |g.nodes|
    ensures SearchState(g, m, [Frame(m, false)], {}, {}, [], false)
  {
    assert PostNodes([Frame(m, false)]) == {};
    assert IsPath(g, [m]);
  }

  /** With the stack empty, the finished nodes are a topological order for m. */
  lemma FinalState(g: Graph, m: NodeId, visited: set<NodeId>, visiting: set<NodeId>, order: seq<NodeId>, started: bool)
    requires SearchState(g, m, [], visited, visiting, order, started)
    ensures TopologicalOrder(g, m, order)
  {
    assert started;
    forall i | 0 <= i < |order|
      ensures order[i] < |g.nodes| && Reachable(g, m, order[i]) && (i < |order| - 1 ==> g.nodes[order[i]].isExecutable)
    {
      assert order[i] in visited;
      if i < |order| - 1 {
        assert order[i] != order[|order| - 1];
      }
    }
  }

  /** Popping a finished node's frame: it moves from the search path to the result. */
  lemma PostStep(g: Graph, m: NodeId, stack: seq<Frame>, visited: set<NodeId>, visiting: set<NodeId>,
                 order: seq<NodeId>, started: bool, t: nat, x: NodeId)
    requires SearchState(g, m, stack, visited, visiting, order, started)
    requires t == |stack| - 1 && stack[t] == Frame(x, true)
    ensures x in visiting && x !in visited
    ensures (visited + {x}) + (visiting - {x}) == visited + visiting
    ensures SearchState(g, m, stack[..t], visited + {x}, visiting - {x}, order + [x], true)
  {
    var s' := stack[..t];
    assert x in PostNodes(stack);
    assert started;
    assert PostNodes(s') == visiting - {x};
    forall d | Edge(g, x, d) ensures d in order {
      assert Pending(g, stack, t, visited);
    }
    AppendDepsBefore(g, order, x);
    PopParents(g, stack, t);
    PopPending(g, stack, t, visited, visited + {x});
  }

  /** Appending a node whose executable dependencies are all listed keeps every dependency before its user. */
  lemma AppendDepsBefore(g: Graph, order: seq<NodeId>, x: NodeId)
    requires forall i :: 0 <= i < |order| ==> DepsBefore(g, order, i)
    requires forall d :: Edge(g, x, d) ==> d in order
    ensures forall i :: 0 <= i < |order| + 1 ==> DepsBefore(g, order + [x], i)
  {
    var order' := order + [x];
    forall i | 0 <= i < |order'| ensures DepsBefore(g, order', i) {
      if i < |order| {
        assert order'[..i] == order[..i];
        assert DepsBefore(g, order, i);
      } else {
        assert order'[..i] == order;
      }
    }
  }

  /** Popping the top frame keeps every remaining frame hanging from its parent's edge. */
  lemma PopParents(g: Graph, stack: seq<Frame>, t: nat)
    requires t == |stack| - 1
    requires forall q :: 1 <= q < |stack| ==> ParentEdge(g, stack, q)
    ensures forall q :: 1 <= q < t ==> ParentEdge(g, stack[..t], q)
  {
    var s' := stack[..t];
    forall q | 1 <= q < t ensures ParentEdge(g, s', q) {
      assert ParentEdge(g, stack, q);
      assert s'[..q] == stack[..q];
      LastPostBeforePrefix(s', stack, q);
    }
  }

  /** Popping the top frame once its node is finished keeps every remaining post-processing frame pending. */
  lemma PopPending(g: Graph, stack: seq<Frame>, t: nat, visited: set<NodeId>, visited': set<NodeId>)
    requires t == |stack| - 1 && visited <= visited' && stack[t].node in visited'
    requires forall p :: 0 <= p < |stack| && stack[p].postProcessing ==> Pending(g, stack, p, visited)
    ensures forall p :: 0 <= p < t && stack[..t][p].postProcessing ==> Pending(g, stack[..t], p, visited')
  {
    var s' := stack[..t];
    forall p | 0 <= p < t && s'[p].postProcessing ensures Pending(g, s', p, visited') {
      assert Pending(g, stack, p, visited);
      forall d | Edge(g, s'[p].node, d) ensures d in visited' || OnStackAbove(s', p, d) {
        if d !in visited' {
          var q :| p < q < |stack| && stack[q].node == d;
          assert q < t && s'[q] == stack[q];
        }
      }
    }
  }

  /** Popping an unfinished node's frame when the node is already finished: nothing else changes. */
  lemma SkipStep(g: Graph, m: NodeId, stack: seq<Frame>, visited: set<NodeId>, visiting: set<NodeId>,
                 order: seq<NodeId>, started: bool, t: nat, y: NodeId)
    requires SearchState(g, m, stack, visited, visiting, order, started)
    requires t == |stack| - 1 && stack[t] == Frame(y, false) && y in visited
    ensures started
    ensures SearchState(g, m, stack[..t], visited, visiting, order, started)
  {
    var s' := stack[..t];
    assert started;
    assert PostNodes(s') == PostNodes(stack);
    PopParents(g, stack, t);
    PopPending(g, stack, t, visited, visited);
  }

  /** Meeting a node that is on the search path again: the path and that node form a lasso. */
  lemma CycleStep(g: Graph, m: NodeId, stack: seq<Frame>, visited: set<NodeId>, visiting: set<NodeId>,
                  order: seq<NodeId>, started: bool, t: nat, y: NodeId)
    requires SearchState(g, m, stack, visited, visiting, order, started)
    requires t == |stack| - 1 && stack[t] == Frame(y, false) && y in visiting
    ensures CycleReachable(g, m)
  {
    assert started && t >= 1;
    LassoOnStack(g, m, stack, t, y);
  }

  /** A pre-processing frame on top whose node is on the post-processing path closes a lasso from the bottom node. */
  lemma LassoOnStack(g: Graph, m: NodeId, stack: seq<Frame>, t: nat, y: NodeId)
    requires 1 <= t == |stack| - 1 && stack[t] == Frame(y, false) && stack[0] == Frame(m, true)
    requires y in PostNodes(stack)
    requires forall q :: 1 <= q < |stack| ==> ParentEdge(g, stack, q)
    ensures CycleReachable(g, m)
  {
    var j :| 0 <= j < |stack| && stack[j].postProcessing && stack[j].node == y;
    assert ParentEdge(g, stack, t);
    var p0 := LastPostBefore(stack, t);
    assert j <= p0;
    var path := PostChain(g, stack, p0);
    assert y in path && Edge(g, path[|path| - 1], y);
    ClosePath(g, m, path, y);
  }

  /** A path from m followed by an edge back to one of its own nodes is a lasso. */
  lemma ClosePath(g: Graph, m: NodeId, path: seq<NodeId>, y: NodeId)
    requires IsPath(g, path) && path[0] == m && y in path && Edge(g, path[|path| - 1], y)
    ensures IsLasso(g, m, path + [y])
  {
    var lasso := path + [y];
    assert lasso[..|lasso| - 1] == path;
  }

  class TextureMakerGraphProcessor {
    const graph: Graph
    /** The sorted node list of each output node, from the last BuildGraph. */
    var processed: map<NodeId, seq<NodeId>>

    constructor (graph: Graph)
      ensures this.graph == graph && processed == map[]
    {
      this.graph := graph;
      processed := map[];
    }

    /**
     * ProcessTopologicalOrder: the nodes output node m needs, dependencies first and m last; a node
     * met again while it is still being expanded throws, which happens exactly when a circular
     * dependency is reachable from m.
     */
    method ProcessTopologicalOrder(m: NodeId) returns (r: Result<seq<NodeId>, Exception>)
      requires WellFormed(graph) && m < |graph.nodes|
      ensures r.Success? ==> TopologicalOrder(graph, m, r.value)
      ensures r.Failure? ==> r.error == InvalidOperationException && CycleReachable(graph, m)
      ensures r.Failure? <==> CycleReachable(graph, m)
    {
      var g := graph;
      var visited: set<NodeId> := {};
      var visiting: set<NodeId> := {};
      var order: seq<NodeId> := [];
      var stack := [Frame(m, false)];
      ghost var started := false;
      InitialState(g, m);
      while |stack| > 0
        invariant SearchState(g, m, stack, visited, visiting, order, started)
        decreases |Below(|g.nodes|) - (visited + visiting)|, |stack|
      {
        var t := |stack| - 1;
        var current := stack[t];
        if current.postProcessing {
          PostStep(g, m, stack, visited, visiting, order, started, t, current.node);
          stack := stack[..t];
          visiting := visiting - {current.node};
          visited := visited + {current.node};
          order := order + [current.node];
          started := true;
        } else {
          var y := current.node;
          if y in visiting {
            CycleStep(g, m, stack, visited, visiting, order, started, t, y);
            return Failure(InvalidOperationException);
          }
          if y in visited {
            SkipStep(g, m, stack, visited, visiting, order, started, t, y);
            stack := stack[..t];
            continue;
          }
          assert y < |g.nodes|;
          ExpansionShrinks(Below(|g.nodes|), visited + visiting, y);
          var pushed := PushDependencies(g, Dependencies(g, y), visited, stack[..t] + [Frame(y, true)]);
          ExpandState(g, m, stack, visited, visiting, order, started, t, y, pushed);
          stack := pushed;
          visiting := visiting + {y};
          started := true;
        }
      }
      FinalState(g, m, visited, visiting, order, started);
      NoOrderWithCycle(g, m, order);
      r := Success(order);
    }

    /**
     * BuildGraph: forgets the previous results, then sorts for each output node in graph order and
     * records the list under that node. The first circular dependency met ends the build with the
     * exception, leaving the entries of the output nodes before it.
     */
    method BuildGraph() returns (r: Outcome<Exception>)
      requires WellFormed(graph)
      modifies this
      ensures forall n :: n in processed ==> TopologicalOrder(graph, n, processed[n])
      ensures r.Pass? <==> forall n: NodeId :: n in OutputNodes(graph.nodes) ==> !CycleReachable(graph, n)
      ensures r.Pass? ==> processed.Keys == OutputNodes(graph.nodes)
      ensures r.Fail? ==> r.error == InvalidOperationException && exists k: NodeId ::
        && k in OutputNodes(graph.nodes) && CycleReachable(graph, k)
        && processed.Keys == OutputsBelow(graph.nodes, k)
        && (forall n: NodeId :: n in OutputsBelow(graph.nodes, k) ==> !CycleReachable(graph, n))
    {
      processed := map[];
      var i := 0;
      while i < |graph.nodes|
        invariant 0 <= i <= |graph.nodes|
        invariant processed.Keys == OutputsBelow(graph.nodes, i)
        invariant forall n :: n in processed ==> TopologicalOrder(graph, n, processed[n])
        invariant forall n: NodeId :: n in OutputsBelow(graph.nodes, i) ==> !CycleReachable(graph, n)
      {
        if graph.nodes[i].isOutput {
          var sorted := ProcessTopologicalOrder(i);
          if sorted.Failure? {
            return Fail(sorted.error);
          }
          processed := processed[i := sorted.value];
        }
        i := i + 1;
      }
      r := Pass;
    }
  }

  /** The dependencies an expansion pushes: executable and not finished, in declaration order. */
  function Unfinished(g: Graph, ds: seq<NodeId>, visited: set<NodeId>): (r: seq<NodeId>)
    requires forall i :: 0 <= i < |ds| ==> ds[i] < |g.nodes|
    ensures forall d :: d in r <==> d in ds && d !in visited && g.nodes[d].isExecutable
  {
    if |ds| == 0 then []
    else
      var rest := Unfinished(g, ds[1..], visited);
      if ds[0] !in visited && g.nodes[ds[0]].isExecutable then [ds[0]] + rest else rest
  }

  /** Pre-processing frames for ds pushed last to first, so that the first of ds ends on top. */
  function PushedFrames(ds: seq<NodeId>): (r: seq<Frame>)
    ensures |r| == |ds|
    ensures forall q :: 0 <= q < |r| ==> r[q] == Frame(ds[|ds| - 1 - q], false)
  {
    if |ds| == 0 then [] else PushedFrames(ds[1..]) + [Frame(ds[0], false)]
  }

  /**
   * The reverse loop over the dependencies: each one that is not finished and is executable goes on
   * the stack, the last-declared first, so the first-declared one is explored first.
   */
  method PushDependencies(g: Graph, dependencies: seq<NodeId>, visited: set<NodeId>, stack: seq<Frame>)
    returns (s': seq<Frame>)
    requires forall i :: 0 <= i < |dependencies| ==> dependencies[i] < |g.nodes|
    ensures s' == stack + PushedFrames(Unfinished(g, dependencies, visited))
  {
    s' := stack;
    var i := |dependencies|;
    while i > 0
      invariant 0 <= i <= |dependencies|
      invariant s' == stack + PushedFrames(Unfinished(g, dependencies[i..], visited))
    {
      i := i - 1;
      var dependency := dependencies[i];
      assert dependencies[i..][1..] == dependencies[i + 1..];
      if !(dependency in visited) && g.nodes[dependency].isExecutable {
        s' := s' + [Frame(dependency, false)];
      }
    }
    assert dependencies[0..] == dependencies;
  }

  /** What the pushed frames give the search: pre-processing frames of edges of y, covering every unfinished one. */
  lemma PushedEdges(g: Graph, y: NodeId, visited: set<NodeId>, base: seq<Frame>, s': seq<Frame>)
    requires WellFormed(g) && y < |g.nodes|
    requires s' == base + PushedFrames(Unfinished(g, Dependencies(g, y), visited))
    ensures forall q :: |base| <= q < |s'| ==> !s'[q].postProcessing && Edge(g, y, s'[q].node)
    ensures forall d :: Edge(g, y, d) && d !in visited ==> exists q :: |base| <= q < |s'| && s'[q].node == d
  {
    var ds := Dependencies(g, y);
    var u := Unfinished(g, ds, visited);
    var f := PushedFrames(u);
    forall q | |base| <= q < |s'| ensures !s'[q].postProcessing && Edge(g, y, s'[q].node) {
      assert s'[q] == f[q - |base|];
      assert u[|u| - 1 - (q - |base|)] in u;
    }
    forall d | Edge(g, y, d) && d !in visited ensures exists q :: |base| <= q < |s'| && s'[q].node == d {
      assert d in u;
      var j := IndexOf(u, d);
      var q := |base| + |u| - 1 - j;
      assert s'[q] == f[|u| - 1 - j];
    }
  }

  /** The new post-processing frame leaves the old ones below it: the search path grows by y. */
  lemma ExpandPostNodes(stack: seq<Frame>, visiting: set<NodeId>, s': seq<Frame>, t: nat, y: NodeId)
    requires visiting == PostNodes(stack) && PostsDistinct(stack) && y !in visiting
    requires t == |stack| - 1 && !stack[t].postProcessing
    requires |s'| >= t + 1 && s'[..t + 1] == stack[..t] + [Frame(y, true)]
    requires forall q :: t + 1 <= q < |s'| ==> !s'[q].postProcessing
    ensures forall q :: 0 <= q < t ==> s'[q] == stack[q]
    ensures s'[t] == Frame(y, true)
    ensures PostNodes(s') == visiting + {y}
    ensures PostsDistinct(s')
  {
    forall q | 0 <= q < t ensures s'[q] == stack[q] {
      assert s'[q] == s'[..t + 1][q];
    }
    assert s'[t] == s'[..t + 1][t];
    forall x ensures x in PostNodes(s') <==> x in visiting + {y} {
      if x in PostNodes(s') {
        var i :| 0 <= i < |s'| && s'[i].postProcessing && s'[i].node == x;
        if i < t {
          assert stack[i].postProcessing && stack[i].node == x;
        }
      }
      if x in visiting {
        var i :| 0 <= i < |stack| && stack[i].postProcessing && stack[i].node == x;
        assert s'[i] == stack[i];
      }
    }
    forall i, j | 0 <= i < j < |s'| && s'[i].postProcessing && s'[j].postProcessing
      ensures s'[i].node != s'[j].node
    {
      if j < t {
        assert stack[i].postProcessing && stack[j].postProcessing;
      } else {
        assert j == t && stack[i].node in visiting;
      }
    }
  }

  /** Every frame above the bottom one still hangs from an edge of the nearest post-processing frame. */
  lemma ExpandParents(g: Graph, stack: seq<Frame>, s': seq<Frame>, t: nat, y: NodeId)
    requires t == |stack| - 1 && stack[t].node == y
    requires forall q :: 1 <= q < |stack| ==> ParentEdge(g, stack, q)
    requires |s'| >= t + 1 && s'[..t] == stack[..t] && s'[t] == Frame(y, true)
    requires forall q :: 0 <= q < t ==> s'[q] == stack[q]
    requires forall q :: t + 1 <= q < |s'| ==> !s'[q].postProcessing && Edge(g, y, s'[q].node)
    ensures forall q :: 1 <= q < |s'| ==> ParentEdge(g, s', q)
  {
    forall q | 1 <= q < |s'| ensures ParentEdge(g, s', q) {
      if q < t {
        assert ParentEdge(g, stack, q);
        assert s'[..q] == stack[..q] && s'[q] == stack[q];
        LastPostBeforePrefix(s', stack, q);
      } else if q == t {
        assert ParentEdge(g, stack, q);
        assert s'[..q] == stack[..q];
        LastPostBeforePrefix(s', stack, q);
      } else {
        LastPostAbove(s', t, q);
      }
    }
  }

  /** Every post-processing frame, old or new, has its unfinished dependencies above it. */
  lemma ExpandPending(g: Graph, stack: seq<Frame>, visited: set<NodeId>, s': seq<Frame>, t: nat, y: NodeId)
    requires t == |stack| - 1 && !stack[t].postProcessing
    requires forall p :: 0 <= p < |stack| && stack[p].postProcessing ==> Pending(g, stack, p, visited)
    requires |s'| >= t + 1 && (forall q :: 0 <= q < t ==> s'[q] == stack[q]) && s'[t] == Frame(y, true)
    requires forall q :: t + 1 <= q < |s'| ==> !s'[q].postProcessing
    requires forall d :: Edge(g, y, d) && d !in visited ==> exists q :: t + 1 <= q < |s'| && s'[q].node == d
    requires stack[t].node == y
    ensures forall p :: 0 <= p < |s'| && s'[p].postProcessing ==> Pending(g, s', p, visited)
  {
    forall p | 0 <= p < |s'| && s'[p].postProcessing ensures Pending(g, s', p, visited) {
      if p < t {
        assert Pending(g, stack, p, visited);
        forall d | Edge(g, s'[p].node, d) ensures d in visited || OnStackAbove(s', p, d) {
          if d !in visited {
            var q :| p < q < |stack| && stack[q].node == d;
            if q < t {
              assert s'[q].node == d;
            } else {
              assert s'[t].node == d;
            }
          }
        }
      } else {
        assert p == t;
      }
    }
  }

  /**
   * Expanding the unfinished node y on top: its frame turns into a post-processing frame with the
   * pushed dependencies above it, and the search state holds with y on the search path.
   */
  lemma ExpandState(g: Graph, m: NodeId, stack: seq<Frame>, visited: set<NodeId>, visiting: set<NodeId>,
                    order: seq<NodeId>, started: bool, t: nat, y: NodeId, s': seq<Frame>)
    requires WellFormed(g)
    requires SearchState(g, m, stack, visited, visiting, order, started)
    requires t == |stack| - 1 && stack[t] == Frame(y, false) && y !in visited && y !in visiting
    requires y < |g.nodes|
    requires s' == stack[..t] + [Frame(y, true)] + PushedFrames(Unfinished(g, Dependencies(g, y), visited))
    ensures visited + (visiting + {y}) == (visited + visiting) + {y}
    ensures SearchState(g, m, s', visited, visiting + {y}, order, true)
  {
    var base := stack[..t] + [Frame(y, true)];
    assert s'[..t + 1] == base;
    PushedEdges(g, y, visited, base, s');
    ExpandPostNodes(stack, visiting, s', t, y);
    assert s'[..t] == stack[..t];
    ExpandParents(g, stack, s', t, y);
    ExpandPending(g, stack, visited, s', t, y);
    ExpandReachable(g, m, stack, s', t, y);
    assert !started ==> t == 0 && y == m;
  }

  /** The frames an expansion leaves are reached from m: the old ones, y itself, and y's dependencies. */
  lemma ExpandReachable(g: Graph, m: NodeId, stack: seq<Frame>, s': seq<Frame>, t: nat, y: NodeId)
    requires t == |stack| - 1 && stack[t].node == y
    requires forall i :: 0 <= i < |stack| ==> Reachable(g, m, stack[i].node)
    requires |s'| >= t + 1 && (forall q :: 0 <= q < t ==> s'[q] == stack[q]) && s'[t].node == y
    requires forall q :: t + 1 <= q < |s'| ==> Edge(g, y, s'[q].node)
    ensures forall q :: 0 <= q < |s'| ==> Reachable(g, m, s'[q].node)
  {
    forall q | 0 <= q < |s'| ensures Reachable(g, m, s'[q].node) {
      if q < t {
        assert s'[q] == stack[q];
      } else if q > t {
        assert Reachable(g, m, stack[t].node);
        ReachableStep(g, m, y, s'[q].node);
      }
    }
  }

  /** Above the last post-processing frame, that frame is the nearest one below. */
  lemma {:induction false} LastPostAbove(s: seq<Frame>, t: nat, q: nat)
    requires t < q <= |s| && s[t].postProcessing
    requires forall i :: t < i < q ==> !s[i].postProcessing
    ensures LastPostBefore(s, q) == t
  {
    if q > t + 1 {
      LastPostAbove(s, t, q - 1);
    }
  }

  /** The output nodes of the graph, in graph order. */
  function OutputNodes(nodes: seq<GraphNode>): (r: set<NodeId>)
    ensures forall n: NodeId :: n in r <==> n < |nodes| && nodes[n].isOutput
  {
    OutputsBelow(nodes, |nodes|)
  }

  /** The output nodes numbered below k. */
  function OutputsBelow(nodes: seq<GraphNode>, k: nat): (r: set<NodeId>)
    requires k <= |nodes|
    ensures forall n: NodeId :: n in r <==> n < k && nodes[n].isOutput
  {
    if k == 0 then {} else OutputsBelow(nodes, k - 1) + (if nodes[k - 1].isOutput then {k - 1} else {})
  }
}
