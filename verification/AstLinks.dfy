/** Nodes of the syntax tree as they lie in the arena: numbered records linked by first child and next
    sibling.  Number 0 means no node.  Nothing keeps the links from dangling or going in circles. */
module AstLinks {

  datatype Node = Node(kind: nat, data: nat, firstChild: nat, nextSibling: nat)

  /** The allocated part of the arena; entry 0 is not a node. */
  type Nodes = seq<Node>

  predicate IsLive(nodes: Nodes, off: nat) { 0 < off < |nodes| }

  ghost function LiveSet(nodes: Nodes): set<nat> { set n: nat | n < |nodes| && IsLive(nodes, n) }

  function LinkTo(off: nat): set<nat> { if off == 0 then {} else {off} }

  /** A forest of nodes: a node, the forest of its children, and the siblings after it. */
  datatype Forest = Nothing | Tree(off: nat, children: Forest, next: Forest)

  /** The links from off unfold to this forest; a dangling link ends it like a null one. */
  ghost predicate Represents(nodes: Nodes, off: nat, f: Forest)
    decreases f
  {
    match f
    case Nothing => !IsLive(nodes, off)
    case Tree(o, c, n) =>
      && off == o && IsLive(nodes, off)
      && Represents(nodes, nodes[off].firstChild, c) && Represents(nodes, nodes[off].nextSibling, n)
  }

  ghost function Preorder(f: Forest): seq<nat> {
    match f
    case Nothing => []
    case Tree(o, c, n) => [o] + Preorder(c) + Preorder(n)
  }

  ghost predicate Distinct(s: seq<nat>) { forall i, j :: 0 <= i < j < |s| ==> s[i] != s[j] }

  lemma {:induction false} PreorderLive(nodes: Nodes, off: nat, f: Forest)
    requires Represents(nodes, off, f)
    ensures forall n :: n in Preorder(f) ==> IsLive(nodes, n)
    decreases f
  {
    match f
    case Nothing =>
    case Tree(_, c, n) =>
      PreorderLive(nodes, nodes[off].firstChild, c);
      PreorderLive(nodes, nodes[off].nextSibling, n);
  }

  /** When no node is listed twice, the three parts of the listing share nothing. */
  lemma DistinctParts(o: nat, c: seq<nat>, n: seq<nat>)
    requires Distinct([o] + c + n)
    ensures Distinct(c) && Distinct(n) && o !in c && o !in n
    ensures forall m :: m in c ==> m !in n
  {
    var all := [o] + c + n;
    assert all[0] == o;
    assert forall i :: 0 <= i < |c| ==> all[1 + i] == c[i];
    assert forall i :: 0 <= i < |n| ==> all[1 + |c| + i] == n[i];
  }
}
