/** The depth-first dependency check inside validate_construction_program (governance/model.py). */
module DependencySearch {
  import opened Prelude

  type Graph = map<string, seq<string>>

  predicate Closed(g: Graph) {
    forall w, i :: w in g && 0 <= i < |g[w]| ==> g[w][i] in g
  }

  predicate Edge(g: Graph, a: string, b: string) {
    a in g && b in g[a]
  }

  predicate IsWalk(g: Graph, p: seq<string>) {
    |p| >= 1 && forall i :: 0 <= i < |p| - 1 ==> Edge(g, p[i], p[i + 1])
  }

  /** A closed walk of at least one edge through w. */
  ghost predicate OnCycle(g: Graph, w: string) {
    exists p :: IsWalk(g, p) && |p| >= 2 && p[0] == w && p[|p| - 1] == w
  }

  ghost predicate Acyclic(g: Graph) {
    forall w :: !OnCycle(g, w)
  }

  /** Every listed id comes after everything it depends on. */
  predicate Topological(g: Graph, order: seq<string>) {
    && Distinct(order)
    && (forall i :: 0 <= i < |order| ==> order[i] in g)
    && (forall i, k :: 0 <= i < |order| && order[i] in g && 0 <= k < |g[order[i]]| ==> g[order[i]][k] in order[..i])
  }

  /** The position of an id in an order that lists it. */
  function Rank(order: seq<string>, w: string): (k: nat)
    requires w in order
    ensures k < |order| && order[k] == w
  {
    if order[0] == w then 0 else Rank(order[1..], w) + 1
  }

  lemma {:induction false} WalkDescends(g: Graph, order: seq<string>, p: seq<string>)
    requires Topological(g, order) && IsWalk(g, p) && p[0] in order
    ensures p[|p| - 1] in order
    ensures |p| >= 2 ==> Rank(order, p[|p| - 1]) < Rank(order, p[0])
  {
    if |p| >= 2 {
      assert Edge(g, p[0], p[1]);
      var i := Rank(order, p[0]);
      var k :| 0 <= k < |g[p[0]]| && g[p[0]][k] == p[1];
      assert p[1] in order[..i];
      forall j | 0 <= j < |p[1..]| - 1 ensures Edge(g, p[1..][j], p[1..][j + 1]) {
        assert Edge(g, p[j + 1], p[j + 1 + 1]);
      }
      WalkDescends(g, order, p[1..]);
      RankIsPosition(order, p[1], i);
    }
  }

  lemma RankIsPosition(order: seq<string>, w: string, i: nat)
    requires Distinct(order) && i <= |order| && w in order[..i]
    ensures w in order && Rank(order, w) < i
  {
    var j :| 0 <= j < i && order[j] == w;
  }

  /** A topological order of all ids leaves no room for a cycle. */
  lemma TopologicalMeansAcyclic(g: Graph, order: seq<string>)
    requires Topological(g, order) && forall w :: w in g ==> w in order
    ensures Acyclic(g)
  {
    forall w ensures !OnCycle(g, w) {
      if OnCycle(g, w) {
        var p :| IsWalk(g, p) && |p| >= 2 && p[0] == w && p[|p| - 1] == w;
        assert Edge(g, p[0], p[1]);
        WalkDescends(g, order, p);
        assert false;
      }
    }
  }

  /** The ids being visited form one walk. */
  predicate StackOk(g: Graph, stack: seq<string>) {
    && Distinct(stack)
    && (forall i :: 0 <= i < |stack| ==> stack[i] in g)
    && (forall i :: 0 <= i < |stack| - 1 ==> Edge(g, stack[i], stack[i + 1]))
  }

  predicate Follows(g: Graph, stack: seq<string>, id: string) {
    stack == [] || Edge(g, stack[|stack| - 1], id)
  }

  lemma Push(g: Graph, stack: seq<string>, id: string)
    requires StackOk(g, stack) && Follows(g, stack, id) && id in g && id !in stack
    ensures StackOk(g, stack + [id])
    ensures Elements(stack + [id]) == Elements(stack) + {id}
  {
    var s := stack + [id];
    forall i | 0 <= i < |s| - 1 ensures Edge(g, s[i], s[i + 1]) {
      if i < |stack| - 1 {
        assert Edge(g, stack[i], stack[i + 1]);
      }
    }
  }

  lemma Finish(g: Graph, order: seq<string>, id: string)
    requires Topological(g, order) && id in g && id !in order
    requires forall k :: 0 <= k < |g[id]| ==> g[id][k] in order
    ensures Topological(g, order + [id])
    ensures Elements(order + [id]) == Elements(order) + {id}
  {
    var o := order + [id];
    forall i, k | 0 <= i < |o| && o[i] in g && 0 <= k < |g[o[i]]| ensures g[o[i]][k] in o[..i] {
      assert o[..i] == order[..i];
      if i == |order| {
        assert order[..i] == order;
      }
    }
  }

  /** Meeting an id that is still being visited closes a walk along the stack. */
  lemma StackClosesCycle(g: Graph, stack: seq<string>, id: string)
    requires StackOk(g, stack) && id in stack && Follows(g, stack, id)
    ensures OnCycle(g, id)
  {
    var k :| 0 <= k < |stack| && stack[k] == id;
    var p := stack[k..] + [id];
    forall i | 0 <= i < |p| - 1 ensures Edge(g, p[i], p[i + 1]) {
      if i + 1 < |stack[k..]| {
        assert Edge(g, stack[k + i], stack[k + i + 1]);
      }
    }
    assert IsWalk(g, p);
  }

  /** The two sets the nested visit closes over. The ghost fields record the recursion stack that
      `visiting` stands for and the order in which ids were finished. */
  class Search {
    const graph: Graph
    var visiting: set<string>
    var visited: set<string>
    ghost var stack: seq<string>
    ghost var order: seq<string>

    constructor (graph: Graph)
      requires Closed(graph)
      ensures this.graph == graph && Valid() && stack == [] && order == []
    {
      this.graph := graph;
      visiting, visited := {}, {};
      stack, order := [], [];
    }

    ghost predicate Valid()
      reads this
    {
      && Closed(graph)
      && visiting == Elements(stack) && visited == Elements(order)
      && StackOk(graph, stack) && Topological(graph, order)
      && visiting !! visited
    }

    /** Returns the id a cycle error would name, or None. */
    method Visit(id: string) returns (cycle: Option<string>)
      requires Valid() && id in graph && Follows(graph, stack, id)
      modifies this
      ensures cycle.Some? ==> OnCycle(graph, cycle.value)
      ensures cycle.None? ==> Valid() && stack == old(stack) && visiting == old(visiting)
      ensures cycle.None? ==> old(visited) <= visited && id in visited
      decreases graph.Keys - visiting
    {
      if id in visited {
        return None;
      }
      if id in visiting {
        StackClosesCycle(graph, stack, id);
        return Some(id);
      }
      Push(graph, stack, id);
      visiting := visiting + {id};
      stack := stack + [id];
      ghost var outer := stack;
      for i := 0 to |graph[id]|
        invariant Valid() && stack == outer && visiting == old(visiting) + {id}
        invariant old(visited) <= visited
        invariant forall k :: 0 <= k < i ==> graph[id][k] in visited
      {
        assert Edge(graph, id, graph[id][i]);
        cycle := Visit(graph[id][i]);
        if cycle.Some? {
          return;
        }
      }
      Finish(graph, order, id);
      visiting := visiting - {id};
      visited := visited + {id};
      stack := old(stack);
      order := order + [id];
      return None;
    }
  }

  /** The check accepts exactly the acyclic graphs: acceptance comes with a topological order, and
      every reported id lies on a cycle. */
  method FindCycle(graph: Graph, ids: seq<string>) returns (cycle: Option<string>, ghost order: seq<string>)
    requires Closed(graph) && Elements(ids) == graph.Keys
    ensures cycle.None? <==> Acyclic(graph)
    ensures cycle.Some? ==> OnCycle(graph, cycle.value)
    ensures cycle.None? ==> Topological(graph, order) && Elements(order) == graph.Keys
  {
    var search := new Search(graph);
    for i := 0 to |ids|
      invariant search.graph == graph && search.Valid() && search.stack == []
      invariant forall k :: 0 <= k < i ==> ids[k] in search.visited
    {
      assert ids[i] in Elements(ids);
      cycle := search.Visit(ids[i]);
      if cycle.Some? {
        order := [];
        return;
      }
    }
    cycle, order := None, search.order;
    forall w | w in graph ensures w in order {
      assert w in Elements(ids);
    }
    TopologicalMeansAcyclic(graph, order);
  }
}
