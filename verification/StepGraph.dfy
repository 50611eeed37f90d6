/** Cycle detection over the `needs` of a pipeline's steps. */
module StepGraph {
  import opened Outcomes

  type Graph = map<string, seq<string>>

  /** The needs of a step; a name that is no step has none. */
  function NeedsOf(g: Graph, n: string): seq<string> {
    if n in g then g[n] else []
  }

  ghost predicate IsPath(g: Graph, p: seq<string>) {
    forall i :: 0 <= i < |p| - 1 ==> p[i + 1] in NeedsOf(g, p[i])
  }

  /** `b` is needed by `a`, directly or through others. */
  ghost predicate Reaches(g: Graph, a: string, b: string) {
    exists p :: IsPath(g, p) && |p| >= 2 && p[0] == a && p[|p| - 1] == b
  }

  ghost predicate OnCycle(g: Graph, n: string) {
    Reaches(g, n, n)
  }

  lemma EdgeReaches(g: Graph, a: string, b: string)
    requires b in NeedsOf(g, a)
    ensures Reaches(g, a, b)
  {
    var p := [a, b];
    assert IsPath(g, p) && p[0] == a && p[|p| - 1] == b;
  }

  lemma ReachesFurther(g: Graph, a: string, b: string, c: string)
    requires Reaches(g, a, b) && c in NeedsOf(g, b)
    ensures Reaches(g, a, c)
  {
    var p :| IsPath(g, p) && |p| >= 2 && p[0] == a && p[|p| - 1] == b;
    var q := p + [c];
    assert IsPath(g, q) && q[0] == a && q[|q| - 1] == c;
  }

  /** Everything a search can come across. */
  function Universe(g: Graph): set<string> {
    g.Keys + set n, i | n in g && 0 <= i < |g[n]| :: g[n][i]
  }

  /** No step twice, and each step after everything it needs. */
  ghost predicate Topological(g: Graph, order: seq<string>) {
    && (forall i, j :: 0 <= i < j < |order| ==> order[i] != order[j])
    && (forall i, dep :: 0 <= i < |order| && dep in NeedsOf(g, order[i]) ==> dep in order[..i])
  }

  lemma TopologicalNext(g: Graph, order: seq<string>, n: string)
    requires Topological(g, order) && n !in order && forall dep :: dep in NeedsOf(g, n) ==> dep in order
    ensures Topological(g, order + [n])
  {
    var next := order + [n];
    forall i, dep | 0 <= i < |next| && dep in NeedsOf(g, next[i]) ensures dep in next[..i] {
      if i < |order| {
        assert next[..i] == order[..i];
      } else {
        assert next[..i] == order;
      }
    }
  }

  lemma {:induction false} PathGoesBack(g: Graph, order: seq<string>, p: seq<string>, i: nat) returns (j: nat)
    requires Topological(g, order) && IsPath(g, p) && |p| >= 2 && i < |order| && order[i] == p[0]
    ensures j < i && order[j] == p[|p| - 1]
  {
    assert p[1] in NeedsOf(g, p[0]);
    var k :| 0 <= k < |order[..i]| && order[..i][k] == p[1];
    if |p| == 2 {
      j := k;
    } else {
      j := PathGoesBack(g, order, p[1..], k);
    }
  }

  /** What a topological order of all steps is good for. */
  lemma TopologicalMeansAcyclic(g: Graph, order: seq<string>, n: string)
    requires Topological(g, order) && forall k :: k in g ==> k in order
    ensures !OnCycle(g, n)
  {
    if p :| IsPath(g, p) && |p| >= 2 && p[0] == n && p[|p| - 1] == n {
      assert p[1] in NeedsOf(g, p[0]);
      var i :| 0 <= i < |order| && order[i] == n;
      var j := PathGoesBack(g, order, p, i);
    }
  }

  /** The search: `visited` in the order of `order`, and the steps still being worked on. */
  class Search {
    const graph: Graph
    var visited: set<string>
    var inStack: set<string>
    ghost var order: seq<string>

    constructor (graph: Graph)
      ensures this.graph == graph && inStack == {} && order == [] && Valid()
    {
      this.graph, visited, inStack, order := graph, {}, {}, [];
    }

    ghost predicate Valid()
      reads this
    {
      && Topological(graph, order)
      && (forall n :: n in visited <==> n in order)
      && visited !! inStack && inStack <= Universe(graph)
    }

    /** Visit `node` and all it needs, or name a step that lies on a cycle. */
    method Dfs(node: string) returns (r: Result<(), string>)
      requires Valid() && node in Universe(graph)
      requires forall x :: x in inStack ==> Reaches(graph, x, node)
      modifies this
      ensures r.Ok? ==>
        Valid() && inStack == old(inStack) && old(order) <= order && node in visited
      ensures r.Err? ==> OnCycle(graph, r.error)
      decreases Universe(graph) - inStack
    {
      hide Reaches, Topological;
      if node in inStack {
        return Err(node);
      }
      if node in visited {
        return Ok(());
      }
      inStack := inStack + {node};
      var needs := NeedsOf(graph, node);
      for i := 0 to |needs|
        invariant Valid() && inStack == old(inStack) + {node} && old(order) <= order
        invariant forall k :: 0 <= k < i ==> needs[k] in visited
      {
        var dep := needs[i];
        EdgeReaches(graph, node, dep);
        forall x | x in inStack ensures Reaches(graph, x, dep) {
          if x != node {
            ReachesFurther(graph, x, node, dep);
          }
        }
        var d := Dfs(dep);
        if d.Err? {
          return d;
        }
      }
      TopologicalNext(graph, order, node);
      inStack := inStack - {node};
      visited := visited + {node};
      order := order + [node];
      return Ok(());
    }
  }

  /**
   Searches from every step, in whatever sequence `keys` the hash map yields them. Accepts exactly the
   graphs without cycle; then `order` lists all steps, each after all its needs. Otherwise the step it names
   lies on a cycle.
   */
  method DetectCycle(graph: Graph, keys: seq<string>) returns (r: Result<(), string>, ghost order: seq<string>)
    requires forall k :: k in keys <==> k in graph
    ensures r.Ok? <==> forall n :: !OnCycle(graph, n)
    ensures r.Ok? ==> Topological(graph, order) && forall k :: k in graph ==> k in order
    ensures r.Err? ==> OnCycle(graph, r.error)
  {
    var search := new Search(graph);
    for i := 0 to |keys|
      invariant search.Valid() && search.inStack == {}
      invariant forall k :: 0 <= k < i ==> keys[k] in search.visited
    {
      r := search.Dfs(keys[i]);
      if r.Err? {
        return r, [];
      }
    }
    order := search.order;
    forall n ensures !OnCycle(graph, n) {
      TopologicalMeansAcyclic(graph, order, n);
    }
    return Ok(()), order;
  }
}
