/** Finite directed graphs as adjacency maps, reachability, and strongly connected components. */
module Digraph {

  type Graph<N> = map<N, seq<N>>

  ghost predicate Closed<N(!new)>(g: Graph<N>) {
    forall n, c :: n in g && c in g[n] ==> c in g
  }

  predicate Edge<N(==)>(g: Graph<N>, a: N, b: N) {
    a in g && b in g[a]
  }

  ghost predicate IsPath<N>(g: Graph<N>, p: seq<N>) {
    && p != []
    && forall i :: 0 <= i < |p| - 1 ==> Edge(g, p[i], p[i + 1])
  }

  /** `b` can be reached from `a` along zero or more edges. */
  ghost predicate Reach<N(!new)>(g: Graph<N>, a: N, b: N) {
    exists p :: IsPath(g, p) && p[0] == a && p[|p| - 1] == b
  }

  ghost predicate Mutual<N(!new)>(g: Graph<N>, a: N, b: N) {
    Reach(g, a, b) && Reach(g, b, a)
  }

  /** `c` is one whole strongly connected component of `g`. */
  ghost predicate IsScc<N(!new)>(g: Graph<N>, c: set<N>) {
    && c != {}
    && c <= g.Keys
    && forall a, b :: a in c && b in g ==> (b in c <==> Mutual(g, a, b))
  }

  lemma ReachSelf<N(!new)>(g: Graph<N>, a: N)
    ensures Reach(g, a, a)
  {
    assert IsPath(g, [a]);
  }

  lemma ReachEdge<N(!new)>(g: Graph<N>, a: N, b: N)
    requires Edge(g, a, b)
    ensures Reach(g, a, b)
  {
    assert IsPath(g, [a, b]);
  }

  lemma ReachTrans<N(!new)>(g: Graph<N>, a: N, b: N, c: N)
    requires Reach(g, a, b) && Reach(g, b, c)
    ensures Reach(g, a, c)
  {
    var p :| IsPath(g, p) && p[0] == a && p[|p| - 1] == b;
    var q :| IsPath(g, q) && q[0] == b && q[|q| - 1] == c;
    var r := p + q[1..];
    forall i | 0 <= i < |r| - 1
      ensures Edge(g, r[i], r[i + 1])
    {
      if i >= |p| - 1 {
        assert r[i] == q[i - |p| + 1] && r[i + 1] == q[i - |p| + 2];
      }
    }
    assert IsPath(g, r);
  }

  /** Nothing outside a set closed under edges can be reached from inside it. */
  lemma ReachStaysInside<N(!new)>(g: Graph<N>, inside: set<N>, a: N, b: N)
    requires forall n, c :: n in inside && Edge(g, n, c) ==> c in inside
    requires a in inside && Reach(g, a, b)
    ensures b in inside
  {
    var p :| IsPath(g, p) && p[0] == a && p[|p| - 1] == b;
    PathStaysInside(g, inside, p);
  }

  lemma {:induction false} PathStaysInside<N>(g: Graph<N>, inside: set<N>, p: seq<N>)
    requires forall n, c :: n in inside && Edge(g, n, c) ==> c in inside
    requires IsPath(g, p) && p[0] in inside
    ensures p[|p| - 1] in inside
    decreases |p|
  {
    if |p| > 1 {
      var rest := p[1..];
      assert Edge(g, p[0], p[1]);
      assert IsPath(g, rest) by {
        forall i | 0 <= i < |rest| - 1
          ensures Edge(g, rest[i], rest[i + 1])
        {
          assert Edge(g, p[i + 1], p[i + 2]);
        }
      }
      PathStaysInside(g, inside, rest);
    }
  }

  /** Two strongly connected components that share a node are the same component. */
  lemma SccUnique<N(!new)>(g: Graph<N>, c: set<N>, d: set<N>, n: N)
    requires IsScc(g, c) && IsScc(g, d)
    requires n in c && n in d
    ensures c == d
  {
  }
}
