/** Pointer provenance: depth-first walks over arena links with one shared set of visited nodes, and the
    alias answers drawn from them. */
module Provenance {
  import opened Reachability
  import opened AstLinks

  const AST_PTR := 7
  const AST_UNOP := 65
  const AST_ASSIGN := 73
  const OP_ADDR := 4
  const OP_DEREF := 5

  datatype PointerProvenance = PointerProvenance(source: nat, provenance: seq<nat>, isNoalias: bool)

  datatype AffineGrade = Owned | Shared | Borrowed

  /** Whether a pointer's value can come from the node's operand. */
  predicate FollowsChild(n: Node) {
    n.kind == AST_ASSIGN || n.kind == AST_PTR || (n.kind == AST_UNOP && (n.data == OP_ADDR || n.data == OP_DEREF))
  }

  /** The links a provenance trace follows. */
  ghost function TraceGraph(nodes: Nodes): Graph<nat> {
    map n | n in LiveSet(nodes) ::
      (if FollowsChild(nodes[n]) then LinkTo(nodes[n].firstChild) else {}) + LinkTo(nodes[n].nextSibling)
  }

  /** All links. */
  ghost function WalkGraph(nodes: Nodes): Graph<nat> {
    map n | n in LiveSet(nodes) :: LinkTo(nodes[n].firstChild) + LinkTo(nodes[n].nextSibling)
  }

  /** A walk from start that went from visited to visited' has found the live nodes among the new ones, each
      once and start first, all of them reachable; only start may still have an unvisited successor. */
  ghost predicate Walked(g: Graph<nat>, start: nat, visited: set<nat>, visited': set<nat>, found: seq<nat>) {
    && visited <= visited'
    && Distinct(found)
    && (start == 0 || start in visited')
    && (forall n :: n in found <==> n in visited' && n !in visited && n in g)
    && (forall n :: n in visited' && n !in visited ==> Reaches(g, start, n))
    && (forall n :: n in found && n != start ==> g[n] <= visited')
    && (found != [] ==> found[0] == start)
  }

  /** The walk is over: its start too has no unvisited successor. */
  ghost predicate Explored(g: Graph<nat>, start: nat, visited: set<nat>, visited': set<nat>, found: seq<nat>) {
    Walked(g, start, visited, visited', found) && (start in found ==> g[start] <= visited')
  }

  lemma ExploredNothing(g: Graph<nat>, start: nat, visited: set<nat>)
    requires start in visited || start !in g
    ensures Explored(g, start, visited, visited + {start}, [])
    ensures start == 0 || start in visited ==> Explored(g, start, visited, visited, [])
  {
    ReachesSelf(g, start);
  }

  lemma WalkedStart(g: Graph<nat>, start: nat, visited: set<nat>)
    requires start in g && start !in visited
    ensures Walked(g, start, visited, visited + {start}, [start])
  {
    ReachesSelf(g, start);
  }

  /** After part of a node's walk, the walk from one of its successors. */
  lemma WalkedMore(g: Graph<nat>, start: nat, visited: set<nat>, v1: set<nat>, f1: seq<nat>, next: nat, v2: set<nat>,
                   f2: seq<nat>)
    requires start in g && start !in visited && start != 0 && next in g[start]
    requires Walked(g, start, visited, v1, f1) && Explored(g, next, v1, v2, f2)
    ensures Walked(g, start, visited, v2, f1 + f2)
  {
    forall n | n in v2 && n !in visited ensures Reaches(g, start, n) {
      if n !in v1 { ReachesStep(g, start, next, n); }
    }
    forall n | n in f1 + f2 && n != start ensures g[n] <= v2 {
      if n in f1 { assert g[n] <= v1; }
    }
    forall n ensures n in f1 + f2 <==> n in v2 && n !in visited && n in g {
      assert n in f1 + f2 <==> n in f1 || n in f2;
    }
    assert start in f1;
    assert forall i, j :: 0 <= i < |f1| && 0 <= j < |f2| ==> f1[i] in f1 && f2[j] in f2;
  }

  /** From nothing visited, a walk finds exactly the live nodes that can be reached. */
  lemma ExploredExact(g: Graph<nat>, start: nat, visited: set<nat>, found: seq<nat>)
    requires Explored(g, start, {}, visited, found) && 0 !in g
    ensures forall n :: n in found <==> n in g && Reaches(g, start, n)
  {
    var s := visited + {start};
    forall n | n in g && Reaches(g, start, n) ensures n in found {
      assert Closed(g, s) by {
        forall a, b | a in s && a in g && b in g[a] && b in g ensures b in s {
          assert a in found;
        }
      }
      var p: seq<nat> :| Connects(g, start, n, p);
      ClosedContains(g, s, p);
      assert n != 0;
    }
  }

  lemma FewerLeft(nodes: Nodes, visited: set<nat>, visited': set<nat>, n: nat)
    requires visited <= visited' && n in visited' && n !in visited && IsLive(nodes, n)
    ensures LiveSet(nodes) - visited' < LiveSet(nodes) - visited
  {
    assert n in LiveSet(nodes) - visited && n !in LiveSet(nodes) - visited';
  }

  /** Whatever a trace can reach, a full walk can reach. */
  lemma TraceWithinWalk(nodes: Nodes, start: nat, n: nat)
    requires Reaches(TraceGraph(nodes), start, n)
    ensures Reaches(WalkGraph(nodes), start, n)
  {
    ReachesMore(TraceGraph(nodes), WalkGraph(nodes), start, n);
  }

  /** No other live node can be reached. */
  ghost predicate Solitary(nodes: Nodes, a: nat) {
    forall n :: IsLive(nodes, n) && Reaches(TraceGraph(nodes), a, n) ==> n == a
  }

  /** Neither pointer's trace leaves its own node and they are not one node. */
  ghost predicate Unaliased(nodes: Nodes, a: nat, b: nat) {
    Solitary(nodes, a) && Solitary(nodes, b) && (a != b || !IsLive(nodes, a))
  }

  /** Listing exactly the reachable live nodes, each once, shows by its length whether there is another. */
  lemma SolitaryByLength(nodes: Nodes, a: nat, found: seq<nat>)
    requires Distinct(found) && (found != [] ==> found[0] == a)
    requires forall n :: n in found <==> IsLive(nodes, n) && Reaches(TraceGraph(nodes), a, n)
    ensures |found| <= 1 <==> Solitary(nodes, a)
    ensures a in found <==> IsLive(nodes, a)
  {
    if |found| > 1 {
      assert found[1] in found && found[1] != found[0];
    }
    ReachesSelf(TraceGraph(nodes), a);
  }

  /** The full walk of a forest that meets nothing visited lists it in preorder. */
  ghost predicate ListsForests(nodes: Nodes, start: nat, visited: set<nat>, found: seq<nat>) {
    forall f: Forest :: Represents(nodes, start, f) && Distinct(Preorder(f)) && Avoids(f, visited) ==>
      found == Preorder(f)
  }

  ghost predicate Avoids(f: Forest, visited: set<nat>) { forall n :: n in Preorder(f) ==> n !in visited }

  /** Node, children, siblings: the parts of a walk put together list the forest. */
  lemma ListsTree(nodes: Nodes, start: nat, visited: set<nat>, v1: set<nat>, c: seq<nat>, v2: set<nat>, n: seq<nat>)
    requires IsLive(nodes, start) && start !in visited && v1 == visited + {start}
    requires ListsForests(nodes, nodes[start].firstChild, v1, c)
    requires nodes[start].firstChild != 0 ==> Explored(WalkGraph(nodes), nodes[start].firstChild, v1, v2, c)
    requires nodes[start].firstChild == 0 ==> v2 == v1 && c == []
    requires ListsForests(nodes, nodes[start].nextSibling, v2, n)
    ensures ListsForests(nodes, start, visited, [start] + c + n)
  {
    forall f: Forest | Represents(nodes, start, f) && Distinct(Preorder(f)) && Avoids(f, visited)
      ensures [start] + c + n == Preorder(f)
    {
      assert f.Tree?;
      var pc, pn := Preorder(f.children), Preorder(f.next);
      assert Preorder(f) == [start] + pc + pn;
      DistinctParts(start, pc, pn);
      forall m | m in pc ensures m !in v1 { assert m in Preorder(f); }
      assert Avoids(f.children, v1);
      assert c == pc;
      PreorderLive(nodes, nodes[start].nextSibling, f.next);
      forall m | m in pn ensures m !in v2 {
        assert m in Preorder(f);
        assert m !in c && m in WalkGraph(nodes);
      }
      assert Avoids(f.next, v2);
    }
  }

  lemma ListsNothing(nodes: Nodes, start: nat, visited: set<nat>)
    requires start in visited || !IsLive(nodes, start)
    ensures ListsForests(nodes, start, visited, [])
  {
    forall f: Forest | Represents(nodes, start, f) && Avoids(f, visited) ensures [] == Preorder(f) {
      assert f.Tree? ==> start in Preorder(f);
    }
  }

  /** A walk that stops at once has found nothing. */
  lemma WalkStops(nodes: Nodes, start: nat, visited: set<nat>)
    requires start in visited || !IsLive(nodes, start)
    ensures Explored(WalkGraph(nodes), start, visited, visited + {start}, []) && ListsForests(nodes, start, visited, [])
    ensures start == 0 || start in visited ==> Explored(WalkGraph(nodes), start, visited, visited, [])
  {
    ExploredNothing(WalkGraph(nodes), start, visited);
    ListsNothing(nodes, start, visited);
  }

  lemma TraceStops(nodes: Nodes, start: nat, visited: set<nat>)
    requires start in visited || !IsLive(nodes, start)
    ensures Explored(TraceGraph(nodes), start, visited, visited + {start}, [])
  {
    ExploredNothing(TraceGraph(nodes), start, visited);
  }

  /** A live node leads to its two links, and its walk is over after the walks from both. */
  lemma WalkEdges(nodes: Nodes, n: nat)
    requires IsLive(nodes, n)
    ensures n in WalkGraph(nodes) && WalkGraph(nodes)[n] == LinkTo(nodes[n].firstChild) + LinkTo(nodes[n].nextSibling)
    ensures nodes[n].firstChild != 0 ==> nodes[n].firstChild in WalkGraph(nodes)[n]
    ensures nodes[n].nextSibling != 0 ==> nodes[n].nextSibling in WalkGraph(nodes)[n]
  {
  }

  lemma TraceEdges(nodes: Nodes, n: nat)
    requires IsLive(nodes, n)
    ensures n in TraceGraph(nodes)
    ensures TraceGraph(nodes)[n]
         == (if FollowsChild(nodes[n]) then LinkTo(nodes[n].firstChild) else {}) + LinkTo(nodes[n].nextSibling)
  {
  }

  /** The edges of a trace by kind of node: an assignment, a pointer type, an address and a dereference lead to
      their operand, and no node leads to more than that and its sibling. */
  lemma TraceByKind(nodes: Nodes, n: nat)
    requires IsLive(nodes, n)
    ensures var node, g := nodes[n], TraceGraph(nodes);
            && n in g
            && (node.nextSibling != 0 ==> Reaches(g, n, node.nextSibling))
            && (node.firstChild != 0 && (node.kind == 73 || node.kind == 7) ==> Reaches(g, n, node.firstChild))
            && (node.firstChild != 0 && node.kind == 65 && (node.data == 4 || node.data == 5) ==>
                  Reaches(g, n, node.firstChild))
            && (node.kind !in {7, 65, 73} || (node.kind == 65 && node.data !in {4, 5}) ==> g[n] <= {node.nextSibling})
            && g[n] <= {node.firstChild, node.nextSibling} && 0 !in g[n]
  {
    var node, g := nodes[n], TraceGraph(nodes);
    if node.nextSibling != 0 { EdgeReaches(g, n, node.nextSibling); }
    if node.firstChild != 0 && FollowsChild(node) { EdgeReaches(g, n, node.firstChild); }
  }

  lemma EdgeReaches(g: Graph<nat>, a: nat, b: nat)
    requires a in g && b in g[a]
    ensures Reaches(g, a, b)
  {
    ReachesSelf(g, b);
    ReachesStep(g, a, b, b);
  }

  lemma WalkedAll(g: Graph<nat>, start: nat, visited: set<nat>, visited': set<nat>, found: seq<nat>)
    requires Walked(g, start, visited, visited', found)
    requires start in g && g[start] <= visited'
    ensures Explored(g, start, visited, visited', found)
  {
  }

  lemma Grows(g: Graph<nat>, start: nat, visited: set<nat>, visited': set<nat>, found: seq<nat>)
    requires Walked(g, start, visited, visited', found) || Explored(g, start, visited, visited', found)
    ensures visited <= visited' && (start == 0 || start in visited')
  {
  }

  class AliasAnalyzer {
    const nodes: Nodes

    constructor (arena: Nodes)
      ensures nodes == arena
    {
      nodes := arena;
    }

    /** Collect provenance from node; visited is shared by the whole trace. */
    method TraceProvenance(node: nat, visited: set<nat>) returns (p: PointerProvenance, visited': set<nat>)
      ensures Explored(TraceGraph(nodes), node, visited, visited', p.provenance)
      ensures p.source == node && (p.isNoalias <==> |p.provenance| <= 1)
      decreases LiveSet(nodes) - visited
    {
      hide Explored, Walked, TraceGraph;
      ghost var g := TraceGraph(nodes);
      visited' := visited + {node};
      if node in visited || !IsLive(nodes, node) {
        TraceStops(nodes, node, visited);
        return PointerProvenance(node, [], true), visited';
      }
      TraceEdges(nodes, node);
      FewerLeft(nodes, visited, visited', node);
      WalkedStart(g, node, visited);
      var provenance := [node];
      var n := nodes[node];
      if FollowsChild(n) && n.firstChild != 0 {
        ghost var v1 := visited';
        var child;
        child, visited' := TraceProvenance(n.firstChild, visited');
        Grows(g, n.firstChild, v1, visited', child.provenance);
        WalkedMore(g, node, visited, v1, provenance, n.firstChild, visited', child.provenance);
        provenance := provenance + child.provenance;
      }
      if n.nextSibling != 0 {
        ghost var v1 := visited';
        FewerLeft(nodes, visited, visited', node);
        var sibling;
        sibling, visited' := TraceProvenance(n.nextSibling, visited');
        Grows(g, n.nextSibling, v1, visited', sibling.provenance);
        WalkedMore(g, node, visited, v1, provenance, n.nextSibling, visited', sibling.provenance);
        provenance := provenance + sibling.provenance;
      }
      WalkedAll(g, node, visited, visited', provenance);
      p := PointerProvenance(node, provenance, |provenance| <= 1);
    }

    /** A trace from an empty visited set: exactly the reachable live nodes, each once, node first. */
    method Trace(node: nat) returns (p: PointerProvenance)
      ensures forall n :: n in p.provenance <==> IsLive(nodes, n) && Reaches(TraceGraph(nodes), node, n)
      ensures Distinct(p.provenance) && (p.provenance != [] ==> p.provenance[0] == node)
      ensures p.isNoalias <==> Solitary(nodes, node)
      ensures node in p.provenance <==> IsLive(nodes, node)
    {
      var visited: set<nat>;
      p, visited := TraceProvenance(node, {});
      ExploredExact(TraceGraph(nodes), node, visited, p.provenance);
      SolitaryByLength(nodes, node, p.provenance);
    }

    method IsNoalias(a: nat, b: nat) returns (noalias: bool)
      ensures noalias <==> Unaliased(nodes, a, b)
    {
      var pa := Trace(a);
      var pb := Trace(b);
      var setA := set n | n in pa.provenance;
      var setB := set n | n in pb.provenance;
      noalias := setA !! setB && pa.isNoalias && pb.isNoalias;
      if Solitary(nodes, a) && Solitary(nodes, b) {
        if a == b && IsLive(nodes, a) { assert a in setA * setB; }
        assert forall n :: n in setA ==> n == a;
        assert forall n :: n in setB ==> n == b;
      }
    }

    method GetAffineGrade(p: nat) returns (grade: AffineGrade)
      ensures grade == if Solitary(nodes, p) then Owned else Shared
    {
      var provenance := Trace(p);
      if provenance.isNoalias {
        grade := Owned;
      } else if |provenance.provenance| > 1 {
        grade := Shared;
      } else {
        SolitaryByLength(nodes, p, provenance.provenance);
        grade := Borrowed;
      }
    }

    method CheckAliasingConflict(a: nat, b: nat) returns (conflict: bool)
      ensures conflict <==> !Unaliased(nodes, a, b)
    {
      var grade := GetAffineGrade(a);
      match grade
      case Owned =>
        var noalias := IsNoalias(a, b);
        conflict := !noalias;
      case Shared => conflict := true;
      case Borrowed => conflict := false;
    }

    method ComputePointerRelationship(a: nat, b: nat) returns (grade: AffineGrade)
      ensures grade == if Unaliased(nodes, a, b) then Owned else Shared
    {
      var noalias := IsNoalias(a, b);
      if noalias {
        grade := Owned;
      } else {
        var gradeA := GetAffineGrade(a);
        var gradeB := GetAffineGrade(b);
        match (gradeA, gradeB)
        case (Owned, Owned) => grade := Shared;
        case _ => grade := Shared;
      }
    }

    method DfsProvenanceWalk(start: nat) returns (result: seq<nat>)
      ensures forall n :: n in result <==> IsLive(nodes, n) && Reaches(WalkGraph(nodes), start, n)
      ensures Distinct(result) && (result != [] ==> result[0] == start)
      ensures forall n :: IsLive(nodes, n) && Reaches(TraceGraph(nodes), start, n) ==> n in result
      ensures forall f: Forest :: Represents(nodes, start, f) ==> (result == Preorder(f) <==> Distinct(Preorder(f)))
    {
      var visited: set<nat> := {};
      visited, result := DfsRecursive(start, visited, []);
      assert result[0..] == result;
      ExploredExact(WalkGraph(nodes), start, visited, result);
      forall n | IsLive(nodes, n) && Reaches(TraceGraph(nodes), start, n) ensures n in result {
        TraceWithinWalk(nodes, start, n);
      }
    }

    /** Push the walk from node onto the result; visited is shared by the whole walk. */
    method DfsRecursive(node: nat, visited: set<nat>, result: seq<nat>) returns (visited': set<nat>, result': seq<nat>)
      ensures |result| <= |result'| && result'[..|result|] == result
      ensures Explored(WalkGraph(nodes), node, visited, visited', result'[|result|..])
      ensures ListsForests(nodes, node, visited, result'[|result|..])
      ensures node == 0 ==> visited' == visited
      decreases LiveSet(nodes) - visited
    {
      hide Explored, Walked, ListsForests, WalkGraph, TraceGraph, Represents, Preorder;
      ghost var g := WalkGraph(nodes);
      visited', result' := visited, result;
      assert result'[|result|..] == [];
      if node in visited || node == 0 {
        WalkStops(nodes, node, visited);
        return;
      }
      visited' := visited' + {node};
      if !IsLive(nodes, node) {
        WalkStops(nodes, node, visited);
        return;
      }
      WalkEdges(nodes, node);
      FewerLeft(nodes, visited, visited', node);
      WalkedStart(g, node, visited);
      ghost var v1 := visited';
      result' := result' + [node];
      ghost var c: seq<nat> := [];
      var n := nodes[node];
      if n.firstChild != 0 {
        ghost var r1 := result';
        visited', result' := DfsRecursive(n.firstChild, visited', result');
        c := result'[|r1|..];
        Grows(g, n.firstChild, v1, visited', c);
        WalkedMore(g, node, visited, v1, [node], n.firstChild, visited', c);
      } else {
        ListsNothing(nodes, n.firstChild, v1);
      }
      ghost var v2 := visited';
      assert result' == result + ([node] + c);
      assert [node] + [] == [node] && [node] + c + [] == [node] + c;
      ghost var s: seq<nat> := [];
      if n.nextSibling != 0 {
        FewerLeft(nodes, visited, visited', node);
        visited', result' := DfsRecursive(n.nextSibling, visited', result');
        s := result'[|result + ([node] + c)|..];
        Grows(g, n.nextSibling, v2, visited', s);
        WalkedMore(g, node, visited, v2, [node] + c, n.nextSibling, visited', s);
      } else {
        ListsNothing(nodes, n.nextSibling, v2);
      }
      ListsTree(nodes, node, visited, v1, c, v2, s);
      WalkedAll(g, node, visited, visited', [node] + c + s);
      assert result' == result + ([node] + c + s);
      assert result'[|result|..] == [node] + c + s;
    }
  }
}
