/** The depth-first search that every accepted program graph passes. */
module AcyclicCheck {
  type Node = string

  /** An insertion-ordered adjacency map. A node may be named only as a successor. */
  datatype Graph = Graph(order: seq<Node>, edges: map<Node, seq<Node>>) {
    ghost predicate Valid() {
      forall n :: n in order <==> n in edges
    }

    function Successors(n: Node): seq<Node> {
      if n in edges then edges[n] else []
    }

    ghost function Nodes(): set<Node> {
      edges.Keys + set n, k | n in edges && 0 <= k < |edges[n]| :: edges[n][k]
    }
  }

  ghost predicate IsWalk(g: Graph, p: seq<Node>) {
    forall i :: 0 <= i < |p| - 1 ==> p[i + 1] in g.Successors(p[i])
  }

  ghost predicate IsCycle(g: Graph, p: seq<Node>) {
    |p| >= 2 && IsWalk(g, p) && p[0] == p[|p| - 1]
  }

  ghost predicate Cyclic(g: Graph) {
    exists p :: IsCycle(g, p)
  }

  ghost predicate NoRepeats(s: seq<Node>) {
    forall i, k :: 0 <= i < k < |s| ==> s[i] != s[k]
  }

  /** Every node comes after all of its successors. */
  ghost predicate SuccessorsFirst(g: Graph, order: seq<Node>) {
    forall i, n :: 0 <= i < |order| && n in g.Successors(order[i]) ==> n in order[..i]
  }

  ghost predicate IsTopologicalOrder(g: Graph, order: seq<Node>) {
    NoRepeats(order) && SuccessorsFirst(g, order) && forall n :: n in order <==> n in g.Nodes()
  }

  /** Along a walk the position in such an order only goes down. */
  lemma {:induction false} WalksDescend(g: Graph, order: seq<Node>, p: seq<Node>, i: nat)
    requires SuccessorsFirst(g, order) && IsWalk(g, p) && |p| >= 2
    requires i < |order| && order[i] == p[0]
    ensures p[|p| - 1] in order[..i]
  {
    assert p[1] in g.Successors(p[0]);
    assert p[1] in order[..i];
    var k :| 0 <= k < i && order[k] == p[1];
    if |p| > 2 {
      var tail := p[1..];
      forall j | 0 <= j < |tail| - 1 ensures tail[j + 1] in g.Successors(tail[j]) {
        assert p[j + 2] in g.Successors(p[j + 1]);
      }
      WalksDescend(g, order, tail, k);
      assert p[|p| - 1] == tail[|tail| - 1];
    }
  }

  /** A graph with a topological order has no cycle. */
  lemma OrderExcludesCycles(g: Graph, order: seq<Node>)
    requires NoRepeats(order) && SuccessorsFirst(g, order)
    requires forall n | n in g.edges :: n in order
    ensures !Cyclic(g)
  {
    forall p ensures !IsCycle(g, p) {
      if IsCycle(g, p) {
        assert p[1] in g.Successors(p[0]);
        var i :| 0 <= i < |order| && order[i] == p[0];
        WalksDescend(g, order, p, i);
      }
    }
  }

  /** Meeting a node that is still being visited closes a cycle. */
  lemma RepeatedNodeClosesCycle(g: Graph, visiting: seq<Node>, node: Node)
    requires IsWalk(g, visiting + [node]) && node in visiting
    ensures Cyclic(g)
  {
    var i :| 0 <= i < |visiting| && visiting[i] == node;
    var whole := visiting + [node];
    var p := whole[i..];
    forall j | 0 <= j < |p| - 1 ensures p[j + 1] in g.Successors(p[j]) {
      assert whole[i + j + 1] in g.Successors(whole[i + j]);
    }
    assert IsCycle(g, p);
  }

  /** The two sets of the search, in insertion order: `visiting` is the stack of open visits and
      `visited` the order in which visits finished. */
  class Search {
    const g: Graph
    var visiting: seq<Node>
    var visited: seq<Node>

    constructor (g: Graph)
      ensures this.g == g && visiting == [] && visited == []
    {
      this.g := g;
      visiting, visited := [], [];
    }

    ghost predicate Sound()
      reads this
    {
      && NoRepeats(visited) && SuccessorsFirst(g, visited)
      && (forall n | n in visited :: n !in visiting && n in g.Nodes())
    }

    ghost function Unopened(): set<Node>
      reads this
    {
      g.Nodes() - set n | n in visiting
    }

    method Visit(node: Node) returns (ok: bool)
      requires Sound() && node in g.Nodes() && IsWalk(g, visiting + [node])
      modifies this
      ensures ok ==> Sound() && visiting == old(visiting) && old(visited) <= visited && node in visited
      ensures !ok ==> Cyclic(g)
      decreases Unopened()
    {
      if node in visiting {
        RepeatedNodeClosesCycle(g, visiting, node);
        return false;
      }
      if node in visited { return true; }
      ghost var before := visiting;
      visiting := visiting + [node];
      var successors := g.Successors(node);
      var i := 0;
      while i < |successors|
        invariant i <= |successors|
        invariant Sound() && visiting == before + [node] && old(visited) <= visited
        invariant forall k :: 0 <= k < i ==> successors[k] in visited
      {
        StepOnwards(g, before, node, i);
        assert g.Nodes() - (set n | n in visiting) < old(Unopened()) by {
          assert node in old(Unopened()) && node in visiting;
        }
        ok := Visit(successors[i]);
        if !ok { return; }
        i := i + 1;
      }
      visiting := visiting[..|visiting| - 1];
      assert visiting == before;
      ghost var finished := visited;
      visited := visited + [node];
      FinishedKeepsOrder(g, finished, node);
      return true;
    }
  }

  lemma StepOnwards(g: Graph, before: seq<Node>, node: Node, i: nat)
    requires IsWalk(g, before + [node]) && i < |g.Successors(node)|
    ensures g.Successors(node)[i] in g.Nodes()
    ensures IsWalk(g, before + [node] + [g.Successors(node)[i]])
  {
    var longer := before + [node] + [g.Successors(node)[i]];
    forall j | 0 <= j < |longer| - 1 ensures longer[j + 1] in g.Successors(longer[j]) {
      if j < |before| { assert (before + [node])[j + 1] in g.Successors((before + [node])[j]); }
    }
  }

  lemma FinishedKeepsOrder(g: Graph, visited: seq<Node>, node: Node)
    requires NoRepeats(visited) && SuccessorsFirst(g, visited) && node !in visited
    requires forall n | n in g.Successors(node) :: n in visited
    ensures NoRepeats(visited + [node]) && SuccessorsFirst(g, visited + [node])
  {
    var order := visited + [node];
    forall i, n | 0 <= i < |order| && n in g.Successors(order[i]) ensures n in order[..i] {
      if i < |visited| {
        assert n in visited[..i] && order[..i] == visited[..i];
      } else {
        assert order[..i] == visited;
      }
    }
  }

  /** Accepts exactly the graphs without a cycle; the order in which visits finish is a topological
      order of all nodes. */
  method AssertAcyclic(g: Graph) returns (ok: bool, finished: seq<Node>)
    requires g.Valid()
    ensures ok <==> !Cyclic(g)
    ensures ok ==> IsTopologicalOrder(g, finished)
  {
    var search := new Search(g);
    var i := 0;
    while i < |g.order|
      invariant i <= |g.order|
      invariant fresh(search) && search.g == g && search.Sound() && search.visiting == []
      invariant forall k :: 0 <= k < i ==> g.order[k] in search.visited
    {
      assert g.order[i] in g.order;
      ok := search.Visit(g.order[i]);
      if !ok { return false, []; }
      i := i + 1;
    }
    finished := search.visited;
    OrderExcludesCycles(g, finished);
    forall n ensures n in finished <==> n in g.Nodes() {
      if n in g.Nodes() && n !in g.edges {
        var m, k :| m in g.edges && 0 <= k < |g.edges[m]| && g.edges[m][k] == n;
        AllSuccessorsFinished(g, finished, m, n);
      }
    }
    return true, finished;
  }

  lemma AllSuccessorsFinished(g: Graph, order: seq<Node>, m: Node, n: Node)
    requires SuccessorsFirst(g, order) && m in order && n in g.Successors(m)
    ensures n in order
  {
    var i :| 0 <= i < |order| && order[i] == m;
    assert n in order[..i];
  }
}
