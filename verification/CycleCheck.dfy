/** The three-colour depth-first search that guards every save: `check_for_cycles` of the
    sequence store and, over names instead of ids, of the wildcard store. */
module CycleCheck {
  import opened Prelude
  import opened Digraph

  datatype Color = White | Gray | Black

  ghost function Whites(color: map<Id, Color>): set<Id> {
    set v | v in color && color[v] == White
  }

  lemma {:induction false} FewerWhites(color0: map<Id, Color>, color1: map<Id, Color>, node: Id)
    requires color0.Keys == color1.Keys && node in color0
    requires color0[node] == White && color1[node] != White
    requires Kept(color0, color1, node)
    ensures Whites(color1) < Whites(color0)
  {
    assert node in Whites(color0) && node !in Whites(color1);
  }

  /** The gray nodes are those of the current path. */
  ghost predicate PathIsGray(g: Graph, color: map<Id, Color>, path: seq<Id>) {
    && color.Keys == g.Keys
    && Walk(g, path)
    && (forall v :: v in g ==> (color[v] == Gray <==> v in path))
  }

  /** The black nodes carry finishing numbers that fall along every edge. */
  ghost predicate BlackIsRanked(g: Graph, color: map<Id, Color>, rank: map<Id, nat>)
    requires color.Keys == g.Keys
  {
    && (forall v :: v in rank <==> v in g && color[v] == Black)
    && Ranked(g, rank)
  }

  ghost predicate Ranked(g: Graph, rank: map<Id, nat>) {
    && (forall a, b :: a in rank && Edge(g, a, b) ==> b in rank && rank[b] < rank[a])
    && (forall a :: a in rank ==> rank[a] < |rank|)
  }

  lemma {:induction false} RankExtends(g: Graph, rank: map<Id, nat>, node: Id)
    requires Ranked(g, rank) && node in g && node !in rank
    requires forall k :: 0 <= k < |g[node]| && g[node][k] in g ==> g[node][k] in rank
    ensures Ranked(g, rank[node := |rank|])
  {
    var rank' := rank[node := |rank|];
    assert rank'.Keys == rank.Keys + {node};
    assert |rank'.Keys| == |rank.Keys| + 1;
    forall a, b | a in rank' && Edge(g, a, b)
      ensures b in rank' && rank'[b] < rank'[a]
    {
      if a == node {
        assert b in rank;
      }
    }
  }

  /** Nodes that were not white keep their colour, `node` aside. */
  ghost predicate Kept(color0: map<Id, Color>, color1: map<Id, Color>, node: Id)
    requires color0.Keys == color1.Keys
  {
    forall v :: v in color0 && v != node && color0[v] != White ==> color1[v] == color0[v]
  }

  ghost predicate AllBlack(color: map<Id, Color>, nodes: seq<Id>) {
    forall k :: 0 <= k < |nodes| && nodes[k] in color ==> color[nodes[k]] == Black
  }

  lemma {:induction false} AfterChild(color0: map<Id, Color>, color1: map<Id, Color>, color2: map<Id, Color>, node: Id, dep: Id,
                   done: seq<Id>)
    requires color0.Keys == color1.Keys == color2.Keys && node in color0 && dep in color0
    requires Kept(color0, color1, node) && color1[node] == Gray && color1[dep] == White
    requires Kept(color1, color2, dep) && color2[dep] == Black
    requires AllBlack(color1, done)
    ensures Kept(color0, color2, node) && color2[node] == Gray
    ensures AllBlack(color2, done + [dep])
  {
  }

  lemma {:induction false} Enter(g: Graph, color: map<Id, Color>, rank: map<Id, nat>, path: seq<Id>, node: Id)
    requires PathIsGray(g, color, path) && BlackIsRanked(g, color, rank)
    requires node in g && color[node] == White && Walk(g, path + [node])
    ensures PathIsGray(g, color[node := Gray], path + [node]) && node !in path
    ensures BlackIsRanked(g, color[node := Gray], rank)
    ensures color.Keys == g.Keys
  {
    assert forall v :: v in path + [node] <==> v in path || v == node;
  }

  lemma {:induction false} Leave(g: Graph, color: map<Id, Color>, rank: map<Id, nat>, path: seq<Id>, node: Id)
    requires color.Keys == g.Keys && PathIsGray(g, color, path + [node]) && BlackIsRanked(g, color, rank)
    requires node in g && node !in path
    requires AllBlack(color, g[node])
    ensures PathIsGray(g, color[node := Black], path)
    ensures BlackIsRanked(g, color[node := Black], rank[node := |rank|])
  {
    var p := path + [node];
    assert forall v :: v in p <==> v in path || v == node;
    forall i | 0 <= i < |path| - 1
      ensures StepAt(g, path, i)
    {
      assert p[i] == path[i] && p[i + 1] == path[i + 1] && StepAt(g, p, i);
    }
    assert forall i :: 0 <= i < |path| ==> path[i] == p[i];
    assert node in p;
    RankExtends(g, rank, node);
  }

  lemma {:induction false} TrailIsLasso(g: Graph, color: map<Id, Color>, path: seq<Id>, dep: Id)
    requires PathIsGray(g, color, path) && dep in color && color[dep] == Gray
    requires |path| > 0 && Walk(g, path + [dep])
    ensures Lasso(g, path[0], path + [dep])
  {
    assert (path + [dep])[..|path|] == path;
  }

  lemma {:induction false} StepAlong(g: Graph, path: seq<Id>, i: nat)
    requires Walk(g, path) && |path| > 0
    requires i < |g[path[|path| - 1]]| && g[path[|path| - 1]][i] in g
    ensures Walk(g, path + [g[path[|path| - 1]][i]])
  {
    assert Edge(g, path[|path| - 1], g[path[|path| - 1]][i]);
    WalkExtends(g, path, g[path[|path| - 1]][i]);
  }

  /** One run of the check: the closure `dfs` together with the `color` table and the `path`
      it updates. The search stops with a path where the source raises. */
  class Search {
    const graph: Graph
    var color: map<Id, Color>
    var path: seq<Id>
    ghost var rank: map<Id, nat>

    ghost predicate Valid()
      reads this
      ensures Valid() ==> color.Keys == graph.Keys
    {
      PathIsGray(graph, color, path) && BlackIsRanked(graph, color, rank)
    }

    constructor (graph: Graph)
      ensures Valid() && this.graph == graph && path == []
      ensures forall v :: v in graph ==> color[v] == White
    {
      this.graph := graph;
      color := map v | v in graph :: White;
      path := [];
      rank := map[];
    }

    /** Explores `node`. Without a find, `node` and all it reaches end black and the colours
        of nodes that were not white are as before; a find is the path searched so far
        extended by a walk that comes back to it. */
    method Dfs(node: Id) returns (found: Option<seq<Id>>)
      requires Valid()
      requires node in graph && color[node] == White && Walk(graph, path + [node])
      modifies this
      decreases Whites(color)
      ensures color.Keys == graph.Keys
      ensures found.None? ==> Valid() && path == old(path) && color[node] == Black
      ensures found.None? ==> Kept(old(color), color, node)
      ensures found.Some? ==>
        && old(path) + [node] <= found.value
        && Lasso(graph, found.value[0], found.value)
    {
      hide PathIsGray, BlackIsRanked, Walk, Lasso;
      ghost var path0, color0 := path, color;
      assert color.Keys == graph.Keys;
      Enter(graph, color, rank, path, node);
      color := color[node := Gray];
      path := path + [node];
      var deps := graph[node];
      for i := 0 to |deps|
        invariant Valid() && path == path0 + [node] && color.Keys == graph.Keys
        invariant Kept(color0, color, node) && color[node] == Gray
        invariant AllBlack(color, deps[..i])
      {
        var dep := deps[i];
        if dep in color {
          StepAlong(graph, path, i);
          if color[dep] == Gray {
            TrailIsLasso(graph, color, path, dep);
            return Some(path + [dep]);
          }
          if color[dep] == White {
            FewerWhites(color0, color, node);
            ghost var color1 := color;
            var deeper := Dfs(dep);
            if deeper.Some? {
              return deeper;
            }
            AfterChild(color0, color1, color, node, dep, deps[..i]);
          }
        }
        assert deps[..i + 1] == deps[..i] + [dep];
      }
      assert deps[..|deps|] == deps;
      Leave(graph, color, rank, path0, node);
      path := path[..|path| - 1];
      rank := rank[node := |rank|];
      color := color[node := Black];
      return None;
    }
  }

  /** The check from one root: sound and complete. It reports a path exactly when a cycle of
      known nodes can be reached from the root, and what it reports is a real walk along
      references that starts at the root and ends on a node already on it. */
  method CheckFrom(graph: Graph, root: Id) returns (found: Option<seq<Id>>)
    ensures found.Some? <==> CycleReachable(graph, root)
    ensures found.Some? ==> Lasso(graph, root, found.value)
  {
    found := None;
    if root in graph {
      var search := new Search(graph);
      found := search.Dfs(root);
      if found.None? {
        if p :| Lasso(graph, root, p) {
          NoLassoOnBlack(graph, search.rank, p);
        }
      } else {
        assert found.value[0] == root;
      }
    }
  }

  lemma {:induction false} NoLassoOnBlack(g: Graph, rank: map<Id, nat>, p: seq<Id>)
    requires |p| > 0 && p[0] in rank && Ranked(g, rank)
    ensures !Lasso(g, p[0], p)
  {
    if Lasso(g, p[0], p) {
      var k :| 0 <= k < |p| - 1 && p[k] == p[|p| - 1];
      if k > 0 {
        RankFalls(g, rank, p, 0, k);
      }
      RankFalls(g, rank, p, k, |p| - 1);
    }
  }
}
