/** Which functions of a translation unit are emitted: the names a body mentions, and the closure of the
    roots under mention. */
module CallGraph {
  import opened Options
  import opened Reachability
  import opened AstLinks

  const AST_FUNC_DEF := 23
  const AST_IDENT := 60
  const AST_CALL := 67
  const AST_INIT_DECLARATOR := 73
  const BUILTIN := "__builtin_"

  /** What a definition node says about itself. */
  datatype FuncInfo = FuncInfo(name: string, isStatic: bool, attrs: seq<string>, body: nat)

  /** A definition: kept whoever mentions it, and the names its body mentions. */
  datatype Def = Def(isRoot: bool, callees: set<string>)

  type Defs = map<string, Def>

  /** What the arena holds for one translation unit. */
  datatype Unit = Unit(nodes: Nodes, strings: map<nat, string>, functions: map<nat, FuncInfo>)

  function GetString(u: Unit, off: nat): Option<string> {
    if off == 0 then Some("") else if off in u.strings then Some(u.strings[off]) else None
  }

  predicate IsBuiltin(name: string) { BUILTIN <= name }

  /** The name an identifier node spells, unless it is empty. */
  function IdentName(u: Unit, n: Node): Option<string> {
    match GetString(u, n.data)
    case Some(name) => if name == "" then None else Some(name)
    case None => None
  }

  predicate IsDeclarator(kind: nat) { 7 <= kind <= 9 }

  /** The non-empty, non-builtin names of the identifiers in a forest. */
  ghost function Mentions(u: Unit, f: Forest): set<string> {
    match f
    case Nothing => {}
    case Tree(o, c, n) =>
      (if IsLive(u.nodes, o) && u.nodes[o].kind == AST_IDENT then NameSet(IdentName(u, u.nodes[o])) else {})
      + Mentions(u, c) + Mentions(u, n)
  }

  function NameSet(name: Option<string>): set<string> {
    if name.Some? && !IsBuiltin(name.value) then {name.value} else {}
  }

  /** Exactly: some identifier of the forest spells the name. */
  lemma {:induction false} MentionsMeaning(u: Unit, off: nat, f: Forest, name: string)
    requires Represents(u.nodes, off, f)
    ensures name in Mentions(u, f) <==>
            name != "" && !IsBuiltin(name) && exists n :: n in Preorder(f) && SpelledAt(u, n, name)
    decreases f
  {
    match f
    case Nothing =>
    case Tree(o, c, n) =>
      MentionsMeaning(u, u.nodes[off].firstChild, c, name);
      MentionsMeaning(u, u.nodes[off].nextSibling, n, name);
      assert forall m :: m in Preorder(f) <==> m == o || m in Preorder(c) || m in Preorder(n);
      IdentNameMeaning(u, o, name);
  }

  lemma IdentNameMeaning(u: Unit, n: nat, name: string)
    requires IsLive(u.nodes, n)
    ensures u.nodes[n].kind == AST_IDENT && name in NameSet(IdentName(u, u.nodes[n])) <==>
            name != "" && !IsBuiltin(name) && SpelledAt(u, n, name)
  {
  }

  ghost predicate SpelledAt(u: Unit, n: nat, name: string) {
    IsLive(u.nodes, n) && u.nodes[n].kind == AST_IDENT && GetString(u, u.nodes[n].data) == Some(name)
  }

  /** The first identifier a declarator's children lead to. */
  ghost function FirstIdent(u: Unit, f: Forest): Option<string> {
    match f
    case Nothing => None
    case Tree(o, c, n) =>
      if !IsLive(u.nodes, o) then None
      else
        var kind := u.nodes[o].kind;
        if kind == AST_IDENT then IdentName(u, u.nodes[o])
        else if (IsDeclarator(kind) || kind == AST_INIT_DECLARATOR) && FirstIdent(u, c).Some? then FirstIdent(u, c)
        else FirstIdent(u, n)
  }

  /** It is an identifier of the forest. */
  lemma {:induction false} FirstIdentMentioned(u: Unit, f: Forest)
    ensures NameSet(FirstIdent(u, f)) <= Mentions(u, f)
  {
    match f
    case Nothing =>
    case Tree(_, c, n) =>
      FirstIdentMentioned(u, c);
      FirstIdentMentioned(u, n);
  }

  /** n is the identifier at the end of a chain of pointer, array, function and init declarators. */
  ghost predicate DeclaratorOf(u: Unit, f: Forest, n: nat) {
    f.Tree? && IsLive(u.nodes, f.off) &&
    if u.nodes[f.off].kind == 60 then n == f.off
    else u.nodes[f.off].kind in {7, 8, 9, 73} && DeclaratorOf(u, f.children, n)
  }

  /** Such a chain leads to the name of its identifier. */
  lemma {:induction false} DeclaratorName(u: Unit, f: Forest, n: nat)
    requires DeclaratorOf(u, f, n) && IsLive(u.nodes, n) && IdentName(u, u.nodes[n]).Some?
    ensures FirstIdent(u, f) == IdentName(u, u.nodes[n])
  {
    if u.nodes[f.off].kind != 60 { DeclaratorName(u, f.children, n); }
  }

  /** The name a call's callee node leads to. */
  ghost function CalleeName(u: Unit, callee: Node, children: Forest): Option<string> {
    if callee.kind == AST_IDENT && IdentName(u, callee).Some? then IdentName(u, callee) else FirstIdent(u, children)
  }

  /** Walk the chain of children from off. */
  method FindIdentName(u: Unit, off: nat, ghost f: Forest) returns (name: Option<string>)
    requires Represents(u.nodes, off, f)
    ensures name == FirstIdent(u, f)
    decreases f
  {
    var child := off;
    ghost var rest := f;
    while child != 0
      invariant Represents(u.nodes, child, rest) && FirstIdent(u, rest) == FirstIdent(u, f)
      invariant rest == f || rest < f
      decreases rest
    {
      if !IsLive(u.nodes, child) { break; }
      var n := u.nodes[child];
      if n.kind == AST_IDENT { return IdentName(u, n); }
      if IsDeclarator(n.kind) || n.kind == AST_INIT_DECLARATOR {
        name := FindIdentName(u, n.firstChild, rest.children);
        if name.Some? { return; }
      }
      child := n.nextSibling;
      rest := rest.next;
    }
    name := None;
  }

  method FindIdentNameIn(u: Unit, n: Node, ghost children: Forest) returns (name: Option<string>)
    requires Represents(u.nodes, n.firstChild, children)
    ensures n.kind == AST_IDENT ==> name == IdentName(u, n)
    ensures n.kind != AST_IDENT ==> name == if IsDeclarator(n.kind) then FirstIdent(u, children) else None
  {
    if n.kind == AST_IDENT { return IdentName(u, n); }
    if IsDeclarator(n.kind) {
      name := FindIdentName(u, n.firstChild, children);
      return;
    }
    name := None;
  }

  /** Add to out the names mentioned in the forest at off: those of its identifiers and nothing else, although
      the call branch adds the callee's name as well. */
  method CollectDirectCallees(u: Unit, off: nat, out: set<string>, ghost f: Forest) returns (out': set<string>)
    requires Represents(u.nodes, off, f)
    ensures out' == out + Mentions(u, f)
    decreases f
  {
    out' := out;
    var current := off;
    ghost var rest := f;
    while current != 0
      invariant Represents(u.nodes, current, rest) && out' + Mentions(u, rest) == out + Mentions(u, f)
      invariant rest == f || rest < f
      decreases rest
    {
      if !IsLive(u.nodes, current) { break; }
      var n := u.nodes[current];
      if n.kind == AST_CALL {
        out' := AddCallee(u, n, out', rest.children);
      }
      if n.kind == AST_IDENT {
        var name := GetString(u, n.data);
        if name.Some? && name.value != "" && !IsBuiltin(name.value) {
          out' := out' + {name.value};
        }
      }
      if n.firstChild != 0 {
        out' := CollectDirectCallees(u, n.firstChild, out', rest.children);
      }
      current := n.nextSibling;
      rest := rest.next;
    }
  }

  /** The call branch: whatever it adds is an identifier below the call. */
  method AddCallee(u: Unit, call: Node, out: set<string>, ghost children: Forest) returns (out': set<string>)
    requires Represents(u.nodes, call.firstChild, children)
    ensures out <= out' <= out + Mentions(u, children)
    ensures children.Tree? ==> out' == out + NameSet(CalleeName(u, u.nodes[call.firstChild], children.children))
  {
    out' := out;
    if IsLive(u.nodes, call.firstChild) {
      var callee := u.nodes[call.firstChild];
      var name := FindIdentNameIn(u, callee, children.children);
      if name.None? {
        name := FindIdentName(u, callee.firstChild, children.children);
      }
      if name.Some? && !IsBuiltin(name.value) {
        out' := out' + {name.value};
      }
      FirstIdentMentioned(u, children.children);
    }
  }

  /** A static function is kept only if mentioned, unless an attribute says otherwise. */
  predicate PreserveRoot(info: FuncInfo) {
    !info.isStatic
    || exists a :: a in info.attrs
                   && a in {"section", "__section__", "constructor", "__constructor__", "destructor", "__destructor__",
                            "used", "__used__"}
  }

  /** The top-level nodes from off on, up to the end of the chain. */
  ghost predicate Chain(nodes: Nodes, off: nat, nodesOnIt: seq<nat>)
    decreases |nodesOnIt|
  {
    if nodesOnIt == [] then !IsLive(nodes, off)
    else off == nodesOnIt[0] && IsLive(nodes, off) && Chain(nodes, nodes[off].nextSibling, nodesOnIt[1..])
  }

  ghost predicate IsDefinition(u: Unit, n: nat) {
    IsLive(u.nodes, n) && u.nodes[n].kind == AST_FUNC_DEF
  }

  /** Every definition on the chain has been parsed and its body, if any, is a forest. */
  ghost predicate Readable(u: Unit, nodesOnIt: seq<nat>, bodies: map<nat, Forest>) {
    forall n :: n in nodesOnIt && IsDefinition(u, n) ==>
      n in u.functions && n in bodies && Represents(u.nodes, u.functions[n].body, bodies[n])
  }

  ghost function DefOf(u: Unit, n: nat, bodies: map<nat, Forest>): Def
    requires n in u.functions && n in bodies
  {
    Def(PreserveRoot(u.functions[n]), Mentions(u, bodies[n]))
  }

  /** The definitions by name: of several with one name, the last. */
  ghost predicate Defines(u: Unit, nodesOnIt: seq<nat>, bodies: map<nat, Forest>, defs: Defs)
    requires Readable(u, nodesOnIt, bodies)
  {
    && (forall i :: 0 <= i < |nodesOnIt| && IsDefinition(u, nodesOnIt[i]) ==> u.functions[nodesOnIt[i]].name in defs)
    && (forall name :: name in defs ==>
          exists i :: 0 <= i < |nodesOnIt| && IsLast(u, nodesOnIt, i, name) &&
                      defs[name] == DefOf(u, nodesOnIt[i], bodies))
  }

  ghost predicate IsLast(u: Unit, nodesOnIt: seq<nat>, i: nat, name: string)
    requires i < |nodesOnIt|
  {
    && Names(u, nodesOnIt[i], name)
    && forall j :: i < j < |nodesOnIt| ==> !Names(u, nodesOnIt[j], name)
  }

  ghost predicate Names(u: Unit, n: nat, name: string) {
    IsDefinition(u, n) && n in u.functions && u.functions[n].name == name
  }

  lemma DefinesOneMore(u: Unit, nodesOnIt: seq<nat>, n: nat, bodies: map<nat, Forest>, defs: Defs)
    requires Readable(u, nodesOnIt + [n], bodies) && Readable(u, nodesOnIt, bodies)
             && Defines(u, nodesOnIt, bodies, defs)
    ensures !IsDefinition(u, n) ==> Defines(u, nodesOnIt + [n], bodies, defs)
    ensures IsDefinition(u, n) ==>
            n in u.functions && n in bodies &&
            Defines(u, nodesOnIt + [n], bodies, defs[u.functions[n].name := DefOf(u, n, bodies)])
  {
    hide Mentions, PreserveRoot, Represents;
    var all := nodesOnIt + [n];
    assert n in all;
    var defs' := if IsDefinition(u, n) then defs[u.functions[n].name := DefOf(u, n, bodies)] else defs;
    forall name | name in defs'
      ensures exists i :: 0 <= i < |all| && IsLast(u, all, i, name) && defs'[name] == DefOf(u, all[i], bodies)
    {
      if Names(u, n, name) {
        assert IsLast(u, all, |nodesOnIt|, name);
      } else {
        var i :| 0 <= i < |nodesOnIt| && IsLast(u, nodesOnIt, i, name) && defs[name] == DefOf(u, nodesOnIt[i], bodies);
        assert IsLast(u, all, i, name);
      }
    }
  }

  /** From each defined name to the defined names it mentions. */
  ghost function CallEdges(defs: Defs): Graph<string> {
    map name | name in defs :: defs[name].callees * defs.Keys
  }

  ghost predicate Reachable(defs: Defs, name: string) {
    exists root :: root in defs && defs[root].isRoot && Reaches(CallEdges(defs), root, name)
  }

  /** Everything reached lies on the way from a root, and every defined callee of what is neither waiting nor
      being looked at has been reached. */
  ghost predicate Progress(defs: Defs, reached: set<string>, waiting: seq<string>, current: set<string>) {
    && reached <= defs.Keys
    && (forall name :: name in waiting || name in current ==> name in reached)
    && (forall name :: name in reached ==> Reachable(defs, name))
    && (forall name :: name in defs && defs[name].isRoot ==> name in reached)
    && (forall name :: name in reached && name !in waiting && name !in current ==>
          defs[name].callees * defs.Keys <= reached)
  }

  lemma ProgressMore(defs: Defs, reached: set<string>, waiting: seq<string>, name: string, callee: string)
    requires name in defs && callee in defs[name].callees && callee in defs && Progress(defs, reached, waiting, {name})
    ensures Progress(defs, reached + {callee}, waiting + [callee], {name}) && reached <= defs.Keys
  {
    hide Reachable, CallEdges;
    CalleeReachable(defs, name, callee);
    var waiting', reached' := waiting + [callee], reached + {callee};
    assert forall n :: n in waiting' <==> n in waiting || n == callee;
    forall n | n in reached' && n !in waiting' && n !in {name} ensures defs[n].callees * defs.Keys <= reached' {
      assert n in reached && n !in waiting;
      assert defs[n].callees * defs.Keys <= reached;
    }
  }

  /** Look at the last of those waiting. */
  lemma ProgressTake(defs: Defs, reached: set<string>, waiting: seq<string>)
    requires waiting != [] && Progress(defs, reached, waiting, {})
    ensures waiting[|waiting| - 1] in defs
    ensures Progress(defs, reached, waiting[..|waiting| - 1], {waiting[|waiting| - 1]})
  {
    hide Reachable, CallEdges;
    var name, rest := waiting[|waiting| - 1], waiting[..|waiting| - 1];
    assert waiting == rest + [name];
    assert name in waiting;
    assert forall n :: n in waiting <==> n in rest || n == name;
  }

  /** All of what has been reached waits, and all roots have been reached. */
  lemma ProgressStart(defs: Defs, reached: set<string>, waiting: seq<string>)
    requires reached <= defs.Keys && forall name :: name in waiting <==> name in reached
    requires forall name :: name in reached ==> Reachable(defs, name)
    requires forall name :: name in defs && defs[name].isRoot ==> name in reached
    ensures Progress(defs, reached, waiting, {})
  {
    hide Reachable, CallEdges;
  }

  lemma ProgressDone(defs: Defs, reached: set<string>, waiting: seq<string>, name: string)
    requires name in defs && Progress(defs, reached, waiting, {name}) && defs[name].callees * defs.Keys <= reached
    ensures Progress(defs, reached, waiting, {})
  {
  }

  /** When nothing waits, the reached names are exactly the reachable ones. */
  lemma NothingWaits(defs: Defs, reached: set<string>)
    requires Progress(defs, reached, [], {})
    ensures forall name :: name in reached <==> name in defs && Reachable(defs, name)
  {
    var g := CallEdges(defs);
    assert Closed(g, reached);
    forall name | name in defs && Reachable(defs, name) ensures name in reached {
      var root :| root in defs && defs[root].isRoot && Reaches(g, root, name);
      var p: seq<string> :| Connects(g, root, name, p);
      ClosedContains(g, reached, p);
    }
  }

  lemma RootReachable(defs: Defs, root: string)
    requires root in defs && defs[root].isRoot
    ensures Reachable(defs, root)
  {
    ReachesSelf(CallEdges(defs), root);
  }

  lemma CalleeReachable(defs: Defs, name: string, callee: string)
    requires name in defs && callee in defs[name].callees && callee in defs && Reachable(defs, name)
    ensures Reachable(defs, callee)
  {
    var root :| root in defs && defs[root].isRoot && Reaches(CallEdges(defs), root, name);
    ReachesOneMore(CallEdges(defs), root, name, callee);
  }

  lemma ReadablePart(u: Unit, nodesOnIt: seq<nat>, i: nat, bodies: map<nat, Forest>)
    requires i <= |nodesOnIt| && Readable(u, nodesOnIt, bodies)
    ensures Readable(u, nodesOnIt[..i], bodies)
  {
  }

  /** Read the chain of top-level nodes. */
  method CollectDefs(u: Unit, off: nat, ghost nodesOnIt: seq<nat>, ghost bodies: map<nat, Forest>) returns (defs: Defs)
    requires Chain(u.nodes, off, nodesOnIt) && Readable(u, nodesOnIt, bodies)
    ensures Defines(u, nodesOnIt, bodies, defs)
  {
    hide Defines, Mentions, PreserveRoot;
    defs := map[];
    DefinesNothing(u, bodies);
    var child := off;
    ghost var i: nat := 0;
    assert nodesOnIt[..0] == [] && nodesOnIt[0..] == nodesOnIt;
    while child != 0
      invariant i <= |nodesOnIt| && Chain(u.nodes, child, nodesOnIt[i..])
      invariant Readable(u, nodesOnIt[..i], bodies) && Defines(u, nodesOnIt[..i], bodies, defs)
      decreases |nodesOnIt| - i
    {
      if !IsLive(u.nodes, child) { break; }
      assert nodesOnIt[i..] != [] && nodesOnIt[i..][0] == child && nodesOnIt[i..][1..] == nodesOnIt[i + 1..];
      assert nodesOnIt[..i + 1] == nodesOnIt[..i] + [child] && nodesOnIt[i] == child;
      ReadablePart(u, nodesOnIt, i + 1, bodies);
      DefinesOneMore(u, nodesOnIt[..i], child, bodies, defs);
      var n := u.nodes[child];
      if n.kind == AST_FUNC_DEF {
        defs := AddDefinition(u, child, defs, bodies[child]);
      }
      child := n.nextSibling;
      i := i + 1;
    }
    assert nodesOnIt[..i] == nodesOnIt;
  }

  lemma DefinesNothing(u: Unit, bodies: map<nat, Forest>)
    ensures Readable(u, [], bodies) && Defines(u, [], bodies, map[])
  {
  }

  method AddDefinition(u: Unit, n: nat, defs: Defs, ghost body: Forest) returns (defs': Defs)
    requires n in u.functions && Represents(u.nodes, u.functions[n].body, body)
    ensures defs' == defs[u.functions[n].name := Def(PreserveRoot(u.functions[n]), Mentions(u, body))]
  {
    var info := u.functions[n];
    var callees: set<string> := {};
    if info.body != 0 {
      callees := CollectDirectCallees(u, info.body, callees, body);
    } else {
      assert body.Nothing?;
    }
    assert callees == Mentions(u, body);
    defs' := defs[info.name := Def(PreserveRoot(info), callees)];
  }

  /** Close the roots under mention, taking names and callees in any order. */
  method CloseRoots(defs: Defs) returns (reachable: set<string>)
    ensures Emits(defs, reachable)
  {
    hide Progress;
    reachable := {};
    var worklist: seq<string> := [];
    var names := defs.Keys;
    while names != {}
      invariant names <= defs.Keys && reachable <= defs.Keys
      invariant forall name :: name in worklist <==> name in reachable
      invariant forall name :: name in reachable ==> Reachable(defs, name)
      invariant forall name :: name in defs && name !in names && defs[name].isRoot ==> name in reachable
      decreases names
    {
      var name :| name in names;
      names := names - {name};
      if defs[name].isRoot {
        RootReachable(defs, name);
        reachable := reachable + {name};
        worklist := worklist + [name];
      }
    }
    ProgressStart(defs, reachable, worklist);
    while worklist != []
      invariant reachable <= defs.Keys && Progress(defs, reachable, worklist, {})
      decreases defs.Keys - reachable, |worklist|
    {
      ProgressTake(defs, reachable, worklist);
      var name := worklist[|worklist| - 1];
      worklist, reachable := Visit(defs, name, worklist[..|worklist| - 1], reachable);
    }
    NothingWaits(defs, reachable);
  }

  /** Reach the callees of one name. */
  method Visit(defs: Defs, name: string, waiting: seq<string>, reached: set<string>)
    returns (waiting': seq<string>, reached': set<string>)
    requires name in defs && Progress(defs, reached, waiting, {name})
    ensures Progress(defs, reached', waiting', {})
    ensures reached < reached' <= defs.Keys || (reached' == reached && waiting' == waiting)
  {
    hide Progress;
    waiting', reached' := waiting, reached;
    var callees := defs[name].callees;
    while callees != {}
      invariant callees <= defs[name].callees
      invariant Progress(defs, reached', waiting', {name})
      invariant reached < reached' <= defs.Keys || (reached' == reached && waiting' == waiting)
      invariant forall callee :: callee in defs[name].callees && callee !in callees && callee in defs ==>
                  callee in reached'
      decreases callees
    {
      var callee :| callee in callees;
      callees := callees - {callee};
      if callee in defs && callee !in reached' {
        ProgressMore(defs, reached', waiting', name, callee);
        reached' := reached' + {callee};
        waiting' := waiting' + [callee];
      }
    }
    ProgressDone(defs, reached', waiting', name);
  }

  /** Only one set of definitions can be read off a chain. */
  lemma DefinesUnique(u: Unit, nodesOnIt: seq<nat>, bodies: map<nat, Forest>, a: Defs, b: Defs)
    requires Readable(u, nodesOnIt, bodies) && Defines(u, nodesOnIt, bodies, a) && Defines(u, nodesOnIt, bodies, b)
    ensures a == b
  {
    hide Defines, Readable, IsLast;
    forall name ensures name in a <==> name in b {
      DefinesWithin(u, nodesOnIt, bodies, a, b, name);
      DefinesWithin(u, nodesOnIt, bodies, b, a, name);
    }
    forall name | name in a && name in b ensures a[name] == b[name] {
      DefinesWithin(u, nodesOnIt, bodies, a, b, name);
    }
  }

  lemma DefinesWithin(u: Unit, nodesOnIt: seq<nat>, bodies: map<nat, Forest>, a: Defs, b: Defs, name: string)
    requires Readable(u, nodesOnIt, bodies) && Defines(u, nodesOnIt, bodies, a) && Defines(u, nodesOnIt, bodies, b)
    ensures name in a ==> name in b && a[name] == b[name]
  {
    if name in a {
      var i :| 0 <= i < |nodesOnIt| && IsLast(u, nodesOnIt, i, name) && a[name] == DefOf(u, nodesOnIt[i], bodies);
      assert name in b;
      var j :| 0 <= j < |nodesOnIt| && IsLast(u, nodesOnIt, j, name) && b[name] == DefOf(u, nodesOnIt[j], bodies);
      assert !(i < j) && !(j < i);
    }
  }

  // ----- the same said of the nodes and what they say about themselves -----

  /** The definition at place i of the chain is the last of its name. */
  ghost predicate LastOfItsName(u: Unit, nodesOnIt: seq<nat>, i: int) {
    0 <= i < |nodesOnIt| && nodesOnIt[i] in u.functions && IsLast(u, nodesOnIt, i, u.functions[nodesOnIt[i]].name)
  }

  function NameAt(u: Unit, nodesOnIt: seq<nat>, i: nat): string
    requires i < |nodesOnIt| && nodesOnIt[i] in u.functions
  {
    u.functions[nodesOnIt[i]].name
  }

  /** Other files may call it, or it is to be kept for the linker or the loader. */
  predicate MustKeep(info: FuncInfo) {
    info.isStatic ==>
      || "section" in info.attrs || "__section__" in info.attrs
      || "constructor" in info.attrs || "__constructor__" in info.attrs
      || "destructor" in info.attrs || "__destructor__" in info.attrs
      || "used" in info.attrs || "__used__" in info.attrs
  }

  /** An identifier of the forest spells the name, which is not that of a builtin. */
  ghost predicate SaysName(u: Unit, f: Forest, name: string) {
    name != "" && !("__builtin_" <= name) && exists n :: n in Preorder(f) && SpelledAt(u, n, name)
  }

  /** Places of definitions, each the last of its name: the first must be kept, and the body of each says the
      name of the one after it. */
  ghost predicate MentionChain(u: Unit, nodesOnIt: seq<nat>, bodies: map<nat, Forest>, path: seq<nat>)
    requires Readable(u, nodesOnIt, bodies)
  {
    && path != [] && (forall k :: 0 <= k < |path| ==> LastOfItsName(u, nodesOnIt, path[k]))
    && MustKeep(u.functions[nodesOnIt[path[0]]])
    && forall k :: 0 <= k < |path| - 1 ==>
         SaysName(u, bodies[nodesOnIt[path[k]]], NameAt(u, nodesOnIt, path[k + 1]))
  }

  ghost predicate ChainTo(u: Unit, nodesOnIt: seq<nat>, bodies: map<nat, Forest>, i: nat)
    requires Readable(u, nodesOnIt, bodies)
  {
    exists path: seq<nat> :: MentionChain(u, nodesOnIt, bodies, path) && path[|path| - 1] == i
  }

  /** The names of exactly the definitions that a chain of mentions leads to. */
  ghost predicate EmitsChains(u: Unit, nodesOnIt: seq<nat>, bodies: map<nat, Forest>, names: set<string>)
    requires Readable(u, nodesOnIt, bodies)
  {
    && (forall i :: LastOfItsName(u, nodesOnIt, i) ==>
          (NameAt(u, nodesOnIt, i) in names <==> ChainTo(u, nodesOnIt, bodies, i)))
    && (forall i :: LastOfItsName(u, nodesOnIt, i) && MustKeep(u.functions[nodesOnIt[i]]) ==>
          NameAt(u, nodesOnIt, i) in names)
    && (forall name :: name in names ==> exists i :: LastOfItsName(u, nodesOnIt, i) && NameAt(u, nodesOnIt, i) == name)
  }

  /** What was read off the last definition of a name. */
  lemma DefAt(u: Unit, nodesOnIt: seq<nat>, bodies: map<nat, Forest>, defs: Defs, i: nat)
    requires Readable(u, nodesOnIt, bodies) && Defines(u, nodesOnIt, bodies, defs) && LastOfItsName(u, nodesOnIt, i)
    ensures var name := NameAt(u, nodesOnIt, i);
            && name in defs && (defs[name].isRoot <==> MustKeep(u.functions[nodesOnIt[i]]))
            && forall callee :: callee in defs[name].callees <==> SaysName(u, bodies[nodesOnIt[i]], callee)
  {
    hide Mentions;
    var name := NameAt(u, nodesOnIt, i);
    var j :| 0 <= j < |nodesOnIt| && IsLast(u, nodesOnIt, j, name) && defs[name] == DefOf(u, nodesOnIt[j], bodies);
    assert i == j by { assert !(i < j) && !(j < i); }
    RootAttributes(u.functions[nodesOnIt[i]]);
    forall callee ensures callee in defs[name].callees <==> SaysName(u, bodies[nodesOnIt[i]], callee) {
      MentionsMeaning(u, u.functions[nodesOnIt[i]].body, bodies[nodesOnIt[i]], callee);
    }
  }

  lemma RootAttributes(info: FuncInfo)
    ensures PreserveRoot(info) <==> MustKeep(info)
  {
  }

  /** A name has a place. */
  lemma PlaceOf(u: Unit, nodesOnIt: seq<nat>, bodies: map<nat, Forest>, defs: Defs, name: string) returns (i: nat)
    requires Readable(u, nodesOnIt, bodies) && Defines(u, nodesOnIt, bodies, defs) && name in defs
    ensures LastOfItsName(u, nodesOnIt, i) && NameAt(u, nodesOnIt, i) == name
  {
    i :| 0 <= i < |nodesOnIt| && IsLast(u, nodesOnIt, i, name) && defs[name] == DefOf(u, nodesOnIt[i], bodies);
  }

  /** A chain of mentions ends at a reachable name. */
  lemma {:induction false} ChainReaches(u: Unit, nodesOnIt: seq<nat>, bodies: map<nat, Forest>, defs: Defs,
                                        path: seq<nat>)
    requires Readable(u, nodesOnIt, bodies) && Defines(u, nodesOnIt, bodies, defs)
    requires MentionChain(u, nodesOnIt, bodies, path)
    ensures NameAt(u, nodesOnIt, path[|path| - 1]) in defs && Reachable(defs, NameAt(u, nodesOnIt, path[|path| - 1]))
    decreases |path|
  {
    hide Defines, IsLast, MustKeep, SaysName, Reachable, Readable;
    var last := path[|path| - 1];
    DefAt(u, nodesOnIt, bodies, defs, last);
    if |path| == 1 {
      RootReachable(defs, NameAt(u, nodesOnIt, last));
    } else {
      var front := path[..|path| - 1];
      ChainReaches(u, nodesOnIt, bodies, defs, front);
      var before := front[|front| - 1];
      DefAt(u, nodesOnIt, bodies, defs, before);
      assert before == path[|path| - 2];
      CalleeReachable(defs, NameAt(u, nodesOnIt, before), NameAt(u, nodesOnIt, last));
    }
  }

  /** A path among names from a root is a chain of mentions. */
  lemma {:induction false} ReachesChain(u: Unit, nodesOnIt: seq<nat>, bodies: map<nat, Forest>, defs: Defs,
                                        p: seq<string>) returns (path: seq<nat>)
    requires Readable(u, nodesOnIt, bodies) && Defines(u, nodesOnIt, bodies, defs)
    requires IsPath(CallEdges(defs), p) && p[0] in defs && defs[p[0]].isRoot
    ensures MentionChain(u, nodesOnIt, bodies, path)
    ensures NameAt(u, nodesOnIt, path[|path| - 1]) == p[|p| - 1]
    decreases |p|
  {
    hide Defines, IsLast, MustKeep, SaysName, Readable;
    if |p| == 1 {
      var i := PlaceOf(u, nodesOnIt, bodies, defs, p[0]);
      DefAt(u, nodesOnIt, bodies, defs, i);
      path := [i];
    } else {
      var front := p[..|p| - 1];
      var path' := ReachesChain(u, nodesOnIt, bodies, defs, front);
      var before := path'[|path'| - 1];
      DefAt(u, nodesOnIt, bodies, defs, before);
      assert p[|p| - 1] in CallEdges(defs)[p[|p| - 2]];
      var i := PlaceOf(u, nodesOnIt, bodies, defs, p[|p| - 1]);
      path := path' + [i];
    }
  }

  /** The closure over names is the closure over definitions. */
  lemma EmittedChains(u: Unit, nodesOnIt: seq<nat>, bodies: map<nat, Forest>, defs: Defs, names: set<string>)
    requires Readable(u, nodesOnIt, bodies) && Defines(u, nodesOnIt, bodies, defs) && Emits(defs, names)
    ensures EmitsChains(u, nodesOnIt, bodies, names)
  {
    hide Defines, IsLast, MustKeep, SaysName, Readable, MentionChain, Reachable;
    forall i | LastOfItsName(u, nodesOnIt, i) && NameAt(u, nodesOnIt, i) in names
      ensures ChainTo(u, nodesOnIt, bodies, i)
    {
      ReachedByChain(u, nodesOnIt, bodies, defs, i);
    }
    forall i | LastOfItsName(u, nodesOnIt, i) && ChainTo(u, nodesOnIt, bodies, i)
      ensures NameAt(u, nodesOnIt, i) in names
    {
      ChainsReach(u, nodesOnIt, bodies, defs, i);
    }
    forall i | LastOfItsName(u, nodesOnIt, i) && MustKeep(u.functions[nodesOnIt[i]])
      ensures NameAt(u, nodesOnIt, i) in names
    {
      DefAt(u, nodesOnIt, bodies, defs, i);
      RootReachable(defs, NameAt(u, nodesOnIt, i));
    }
    forall name | name in names ensures exists i :: LastOfItsName(u, nodesOnIt, i) && NameAt(u, nodesOnIt, i) == name {
      var i := PlaceOf(u, nodesOnIt, bodies, defs, name);
    }
  }

  lemma ChainsReach(u: Unit, nodesOnIt: seq<nat>, bodies: map<nat, Forest>, defs: Defs, i: nat)
    requires Readable(u, nodesOnIt, bodies) && Defines(u, nodesOnIt, bodies, defs)
    requires LastOfItsName(u, nodesOnIt, i) && ChainTo(u, nodesOnIt, bodies, i)
    ensures NameAt(u, nodesOnIt, i) in defs && Reachable(defs, NameAt(u, nodesOnIt, i))
  {
    hide Defines, MustKeep, SaysName, Readable, Reachable;
    var path: seq<nat> :| MentionChain(u, nodesOnIt, bodies, path) && path[|path| - 1] == i;
    ChainReaches(u, nodesOnIt, bodies, defs, path);
  }

  lemma ReachedByChain(u: Unit, nodesOnIt: seq<nat>, bodies: map<nat, Forest>, defs: Defs, i: nat)
    requires Readable(u, nodesOnIt, bodies) && Defines(u, nodesOnIt, bodies, defs) && LastOfItsName(u, nodesOnIt, i)
    requires Reachable(defs, NameAt(u, nodesOnIt, i))
    ensures ChainTo(u, nodesOnIt, bodies, i)
  {
    hide Defines, MustKeep, SaysName, Readable;
    var name := NameAt(u, nodesOnIt, i);
    var root :| root in defs && defs[root].isRoot && Reaches(CallEdges(defs), root, name);
    var p: seq<string> :| Connects(CallEdges(defs), root, name, p);
    var path := ReachesChain(u, nodesOnIt, bodies, defs, p);
    var j := path[|path| - 1];
    assert LastOfItsName(u, nodesOnIt, j) && !(i < j) && !(j < i);
  }

  /** The names to emit: exactly the defined ones that some root reaches through defined mentions. */
  method ComputeReachableFunctions(u: Unit, off: nat, ghost nodesOnIt: seq<nat>, ghost bodies: map<nat, Forest>)
    returns (reachable: set<string>)
    requires Chain(u.nodes, off, nodesOnIt) && Readable(u, nodesOnIt, bodies)
    ensures exists defs: Defs :: Defines(u, nodesOnIt, bodies, defs) && Emits(defs, reachable)
    ensures forall defs: Defs :: Defines(u, nodesOnIt, bodies, defs) ==> Emits(defs, reachable)
    ensures EmitsChains(u, nodesOnIt, bodies, reachable)
  {
    var found := CollectDefs(u, off, nodesOnIt, bodies);
    reachable := CloseRoots(found);
    EmittedChains(u, nodesOnIt, bodies, found, reachable);
    forall defs: Defs | Defines(u, nodesOnIt, bodies, defs) ensures Emits(defs, reachable) {
      DefinesUnique(u, nodesOnIt, bodies, found, defs);
    }
  }

  ghost predicate Emits(defs: Defs, names: set<string>) {
    forall name :: name in names <==> name in defs && Reachable(defs, name)
  }
}
