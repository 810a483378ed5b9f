/** Paths in finite graphs. */
module Reachability {

  /** The successors of the nodes that exist; a successor need not exist. */
  type Graph<T> = map<T, set<T>>

  ghost predicate IsPath<T>(g: Graph<T>, p: seq<T>) {
    p != [] && forall i :: 0 <= i < |p| - 1 ==> p[i] in g && p[i + 1] in g[p[i]]
  }

  ghost predicate Connects<T>(g: Graph<T>, a: T, b: T, p: seq<T>) {
    IsPath(g, p) && p[0] == a && p[|p| - 1] == b
  }

  ghost predicate Reaches<T(!new)>(g: Graph<T>, a: T, b: T) {
    exists p: seq<T> :: Connects(g, a, b, p)
  }

  lemma ReachesSelf<T(!new)>(g: Graph<T>, a: T)
    ensures Reaches(g, a, a)
  {
    assert Connects(g, a, a, [a]);
  }

  lemma ReachesStep<T(!new)>(g: Graph<T>, a: T, b: T, c: T)
    requires a in g && b in g[a] && Reaches(g, b, c)
    ensures Reaches(g, a, c)
  {
    var p: seq<T> :| Connects(g, b, c, p);
    assert Connects(g, a, c, [a] + p);
  }

  lemma ReachesOneMore<T(!new)>(g: Graph<T>, a: T, b: T, c: T)
    requires Reaches(g, a, b) && b in g && c in g[b]
    ensures Reaches(g, a, c)
  {
    var p: seq<T> :| Connects(g, a, b, p);
    assert Connects(g, a, c, p + [c]);
  }

  /** Nothing that exists is one step outside s. */
  ghost predicate Closed<T(!new)>(g: Graph<T>, s: set<T>) {
    forall n, m :: n in s && n in g && m in g[n] && m in g ==> m in s
  }

  /** A closed set that holds the start holds all that exists and can be reached. */
  lemma {:induction false} ClosedContains<T(!new)>(g: Graph<T>, s: set<T>, p: seq<T>)
    requires IsPath(g, p) && p[0] in s && Closed(g, s) && p[|p| - 1] in g
    ensures p[|p| - 1] in s
    decreases |p|
  {
    if |p| > 1 {
      assert p[0] in g && p[1] in g[p[0]];
      assert p[1] in g;
      ClosedContains(g, s, p[1..]);
    }
  }

  /** More edges, more paths. */
  lemma ReachesMore<T(!new)>(g: Graph<T>, g': Graph<T>, a: T, b: T)
    requires Reaches(g, a, b) && forall n :: n in g ==> n in g' && g[n] <= g'[n]
    ensures Reaches(g', a, b)
  {
    var p: seq<T> :| Connects(g, a, b, p);
    assert Connects(g', a, b, p);
  }
}
