/** Finite directed graphs given by adjacency lists, as the cycle check sees the stored
    sequences: a node lists the ids it refers to, and a reference to an id that is not a
    node of the graph is no edge. */
module Digraph {
  import opened Prelude

  type Id = string

  type Graph = map<Id, seq<Id>>

  ghost predicate Edge(g: Graph, a: Id, b: Id) {
    a in g && b in g && b in g[a]
  }

  ghost predicate StepAt(g: Graph, p: seq<Id>, i: nat)
    requires i + 1 < |p|
  {
    Edge(g, p[i], p[i + 1])
  }

  ghost predicate Walk(g: Graph, p: seq<Id>) {
    && (forall i :: 0 <= i < |p| ==> p[i] in g)
    && (forall i :: 0 <= i < |p| - 1 ==> StepAt(g, p, i))
  }

  /** A walk of at least one edge that returns to its start. */
  ghost predicate Cycle(g: Graph, p: seq<Id>) {
    |p| >= 2 && Walk(g, p) && p[0] == p[|p| - 1]
  }

  ghost predicate Acyclic(g: Graph) {
    forall p :: !Cycle(g, p)
  }

  /** A walk from `root` whose last node is already on it: the witness that a cycle can be
      reached from `root`. */
  ghost predicate Lasso(g: Graph, root: Id, p: seq<Id>) {
    |p| >= 2 && Walk(g, p) && p[0] == root && p[|p| - 1] in p[..|p| - 1]
  }

  ghost predicate CycleReachable(g: Graph, root: Id) {
    exists p :: Lasso(g, root, p)
  }

  /** Following a rank that falls along every edge, a walk can never come back. */
  lemma {:induction false} RankFalls(g: Graph, rank: map<Id, nat>, p: seq<Id>, i: nat, j: nat)
    requires Walk(g, p) && i < j < |p|
    requires p[i] in rank
    requires forall a, b :: a in rank && Edge(g, a, b) ==> b in rank && rank[b] < rank[a]
    ensures p[j] in rank && rank[p[j]] < rank[p[i]]
    decreases j - i
  {
    assert StepAt(g, p, i);
    if i + 1 < j {
      RankFalls(g, rank, p, i + 1, j);
    }
  }

  lemma {:induction false} CycleIsLasso(g: Graph, p: seq<Id>, k: nat)
    requires Cycle(g, p) && k < |p|
    ensures CycleReachable(g, p[k])
  {
    var n := |p| - 1;
    var k' := if k == n then 0 else k;
    var q := p[k'..] + p[1..k' + 1];
    forall i | 0 <= i < |q| - 1
      ensures StepAt(g, q, i)
    {
      var at := if i < n - k' then k' + i else i - (n - k');
      assert q[i] == p[at] && q[i + 1] == p[at + 1];
      assert StepAt(g, p, at);
    }
    assert q[|q| - 1] == p[k'] == q[0];
    assert q[0] in q[..|q| - 1];
    assert Lasso(g, p[k], q);
  }

  lemma {:induction false} LassoHasCycle(g: Graph, root: Id, p: seq<Id>)
    requires Lasso(g, root, p)
    ensures !Acyclic(g)
  {
    var k :| 0 <= k < |p| - 1 && p[k] == p[|p| - 1];
    var q := p[k..];
    forall i | 0 <= i < |q| - 1
      ensures StepAt(g, q, i)
    {
      assert q[i] == p[k + i] && q[i + 1] == p[k + i + 1] && StepAt(g, p, k + i);
    }
    assert Cycle(g, q);
  }

  /** A graph is acyclic exactly when no node reaches a cycle. */
  lemma {:induction false} AcyclicIffNoLasso(g: Graph)
    ensures Acyclic(g) <==> forall r :: !CycleReachable(g, r)
  {
    if r :| CycleReachable(g, r) {
      var p :| Lasso(g, r, p);
      LassoHasCycle(g, r, p);
    }
    if p :| Cycle(g, p) {
      CycleIsLasso(g, p, 0);
    }
  }

  /** Why a local check is enough: when `g1` differs from the acyclic graph `g0` only at
      nodes in `changed` (new nodes included, nodes may also disappear), `g1` is acyclic
      exactly when no cycle can be reached from a changed node. */
  lemma {:induction false} LocalCheckSuffices(g0: Graph, g1: Graph, changed: set<Id>)
    requires Acyclic(g0)
    requires forall v :: v in g1 && v !in changed ==> v in g0 && g1[v] == g0[v]
    ensures Acyclic(g1) <==> forall v :: v in changed ==> !CycleReachable(g1, v)
  {
    if Acyclic(g1) {
      AcyclicIffNoLasso(g1);
    } else if forall v :: v in changed ==> !CycleReachable(g1, v) {
      var p :| Cycle(g1, p);
      if k :| 0 <= k < |p| && p[k] in changed {
        CycleIsLasso(g1, p, k);
      } else {
        forall i | 0 <= i < |p| - 1
          ensures StepAt(g0, p, i)
        {
          assert StepAt(g1, p, i);
        }
        assert Cycle(g0, p);
      }
    }
  }

  lemma {:induction false} WalkExtends(g: Graph, p: seq<Id>, b: Id)
    requires Walk(g, p) && b in g
    requires |p| > 0 ==> Edge(g, p[|p| - 1], b)
    ensures Walk(g, p + [b])
  {
    var q := p + [b];
    forall i | 0 <= i < |q| - 1
      ensures StepAt(g, q, i)
    {
      assert i < |p| - 1 ==> StepAt(g, p, i);
    }
  }

  /** No node repeats on a walk of an acyclic graph. */
  lemma {:induction false} AcyclicWalkIsDistinct(g: Graph, p: seq<Id>)
    requires Acyclic(g) && Walk(g, p)
    ensures Distinct(p)
  {
    forall i, j | 0 <= i < j < |p|
      ensures p[i] != p[j]
    {
      if p[i] == p[j] {
        var q := p[i..j + 1];
        forall k | 0 <= k < |q| - 1
          ensures StepAt(g, q, k)
        {
          assert q[k] == p[i + k] && q[k + 1] == p[i + k + 1] && StepAt(g, p, i + k);
        }
        assert Cycle(g, q);
      }
    }
  }

  lemma {:induction false} AcyclicWalkIsShort(g: Graph, p: seq<Id>)
    requires Acyclic(g) && Walk(g, p)
    ensures |p| <= |g.Keys|
  {
    AcyclicWalkIsDistinct(g, p);
    DistinctLength(p, g.Keys);
  }
}
