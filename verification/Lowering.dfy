/** The backend object that lowers statements: it appends blocks and instructions, moves the insertion
    point and keeps its target stacks, one call at a time.  Every method is proved to leave the state
    the functions of LowerSpec give, failing steps included. */
module Lowering {
  import opened CStatements
  import opened Options
  import opened BlockMachine
  import opened LowerSpec
  import opened LowerFacts
  import opened BranchRange
  import opened Functions
  import opened BranchTargets

  /** Which block each label of a switch body, whose first child has number i, got. */
  ghost function Assigned(l: Stmts, i: nat, next: nat, dflt: nat): map<nat, nat> {
    match l
    case Nil => map[]
    case Cons(s, t) =>
      if s.Case? then Assigned(t, i + 1, next + 1, dflt)[i := next]
      else if s.Default? then Assigned(t, i + 1, next, dflt)[i := dflt]
      else Assigned(t, i + 1, next, dflt)
  }

  lemma {:induction false} AssignedLater(l: Stmts, i: nat, next: nat, dflt: nat)
    ensures forall k :: k in Assigned(l, i, next, dflt) ==> i <= k
  {
    if l.Cons? { AssignedLater(l.tail, i + 1, if l.head.Case? then next + 1 else next, dflt); }
  }

  lemma AddOneMore(st: Builder, n: nat)
    ensures AddBlocks(AddBlocks(st, n), 1) == AddBlocks(st, n + 1)
  {
    assert st.blocks + seq(n, _ => []) + seq(1, _ => []) == st.blocks + seq(n + 1, _ => []);
  }

  class StatementLowering {
    var blocks: seq<Block>
    var cur: nat
    var breakStack: seq<nat>
    var continueStack: seq<nat>
    var labelBlocks: map<string, nat>
    var isVoid: bool
    var deleted: set<nat>

    ghost function State(): Builder
      reads this
    {
      Builder(blocks, cur, breakStack, continueStack, labelBlocks, isVoid)
    }

    /** The insertion point, the targets in force and every emitted branch name existing blocks. */
    ghost predicate Valid()
      reads this
    {
      Proper(State())
    }

    method AppendBlock() returns (b: nat)
      requires Valid()
      modifies this
      ensures Valid() && b == |old(blocks)| && State() == AddBlocks(old(State()), 1) && deleted == old(deleted)
      ensures |blocks| == b + 1
    {
      AddProper(State(), 1);
      b := |blocks|;
      blocks := blocks + [[]];
      assert blocks == AddBlocks(old(State()), 1).blocks;
    }

    method Emit(i: Instr)
      requires Valid() && ProperInstr(i, |blocks|)
      modifies this
      ensures Valid() && State() == Put(old(State()), i) && deleted == old(deleted)
    {
      PutProper(State(), i);
      blocks := blocks[cur := blocks[cur] + [i]];
    }

    method PositionAtEnd(b: nat)
      requires Valid() && b < |blocks|
      modifies this
      ensures Valid() && State() == At(old(State()), b) && deleted == old(deleted)
    {
      cur := b;
    }

    method BuildBranchIfOpen(t: nat)
      requires Valid() && t < |blocks|
      modifies this
      ensures Valid() && State() == BranchIfOpen(old(State()), t) && deleted == old(deleted)
    {
      if !Terminated(blocks[cur]) {
        Emit(Br(t));
      }
    }

    method LowerExpr(e: Expr) returns (r: Lowers)
      requires Valid()
      modifies this
      ensures Valid() && State() == PutExpr(old(State()), e) && r == e.lowers && deleted == old(deleted)
    {
      r := e.lowers;
      if !r.Failure? {
        Emit(Compute(e.id, e.silent));
      }
    }

    method LowerTest(test: Option<Expr>, body: nat, end: nat) returns (ok: bool)
      requires Valid() && body < |blocks| && end < |blocks|
      modifies this
      ensures Valid() && Lowered(State(), ok) == PutTest(old(State()), test, body, end) && deleted == old(deleted)
    {
      ok := true;
      if test.Some? {
        var v := LowerExpr(test.value);
        match v {
          case Failure => ok := false;
          case NoValue => Emit(Br(body));
          case Value => Emit(CondBr(body, end));
        }
      } else {
        Emit(Br(body));
      }
    }

    method PushLoop(brk: nat, cont: nat)
      requires Valid() && brk < |blocks| && cont < |blocks|
      modifies this
      ensures Valid() && State() == PushTargets(old(State()), brk, cont) && deleted == old(deleted)
    {
      StacksProper(State(), brk, cont);
      breakStack := breakStack + [brk];
      continueStack := continueStack + [cont];
    }

    method PopLoop()
      requires Valid()
      modifies this
      ensures Valid() && State() == PopTargets(old(State())) && deleted == old(deleted)
    {
      StacksProper(State(), 0, 0);
      if breakStack != [] { breakStack := breakStack[..|breakStack| - 1]; }
      if continueStack != [] { continueStack := continueStack[..|continueStack| - 1]; }
    }

    method LowerStmt(s: Stmt) returns (ok: bool)
      requires Valid()
      modifies this
      ensures Valid() && Lowered(State(), ok) == Lower(old(State()), s) && deleted == old(deleted)
      decreases s, 1
    {
      hide Proper, Put, BranchIfOpen;
      LowerProper(State(), s);
      ok := true;
      match s {
        case Eval(e) =>
          var v := LowerExpr(e);
          ok := !v.Failure?;
        case Compound(l) => LowerCompound(l);
        case If(_, _, _) => ok := LowerIfStmt(s);
        case While(_, _) => ok := LowerWhileStmt(s);
        case DoWhile(_, _) => ok := LowerWhileStmt(s);
        case For(_, _, _, _) => ok := LowerForStmt(s);
        case Switch(_, _, _, _) => ok := LowerSwitchStmt(s);
        case Break => LowerBreakContinue(s);
        case Continue => LowerBreakContinue(s);
        case Return(_) => ok := LowerReturnStmt(s);
        case Goto(name) => LowerGotoStmt(name);
        case Labeled(name, inner) => ok := LowerLabeledStmt(name, inner);
        case _ =>
      }
    }

    method LowerCompound(l: Stmts)
      requires Valid()
      modifies this
      ensures Valid() && State() == LowerList(old(State()), l) && deleted == old(deleted)
      decreases l, 0
    {
      hide Proper, Lower;
      var rest := l;
      while rest.Cons?
        invariant Valid() && deleted == old(deleted)
        invariant rest == l || rest < l
        invariant LowerList(State(), rest) == LowerList(old(State()), l)
        decreases rest
      {
        var _ := LowerStmt(rest.head);
        rest := rest.tail;
      }
    }

    method LowerIfStmt(s: Stmt) returns (ok: bool)
      requires s.If? && Valid()
      modifies this
      ensures Valid() && Lowered(State(), ok) == LowerIf(old(State()), s) && deleted == old(deleted)
      decreases s, 0
    {
      hide Proper, Lower, BranchIfOpen, Put, PutExpr;
      ghost var st := State();
      var v := LowerExpr(s.cond);
      if !v.Value? { return false; }
      ghost var st0 := State();
      ExprProper(st, s.cond);
      var thenBlock := AppendBlock();
      var elseBlock := AppendBlock();
      AddOneMore(st0, 1);
      var mergeBlock := AppendBlock();
      AddOneMore(st0, 2);
      Emit(CondBr(thenBlock, elseBlock));
      PutProper(AddBlocks(st0, 3), CondBr(thenBlock, elseBlock));
      PositionAtEnd(thenBlock);
      assert State() == IfEntry(st, s.cond);
      LowerProper(State(), s.thn);
      ok := LowerStmt(s.thn);
      if !ok { return; }
      BranchProper(State(), mergeBlock);
      BuildBranchIfOpen(mergeBlock);
      PositionAtEnd(elseBlock);
      LowerProper(State(), s.els);
      ok := LowerStmt(s.els);
      if !ok { return; }
      BranchProper(State(), mergeBlock);
      BuildBranchIfOpen(mergeBlock);
      PositionAtEnd(mergeBlock);
    }

    method LowerWhileStmt(s: Stmt) returns (ok: bool)
      requires (s.While? || s.DoWhile?) && Valid()
      modifies this
      ensures Valid() && Lowered(State(), ok) == LowerWhile(old(State()), s) && deleted == old(deleted)
      decreases s, 0
    {
      hide Proper, Lower, BranchIfOpen, Put, PutTest;
      ghost var st := State();
      var condBlock := AppendBlock();
      var bodyBlock := AppendBlock();
      AddOneMore(st, 1);
      var endBlock := AppendBlock();
      AddOneMore(st, 2);
      PushLoop(endBlock, condBlock);
      PutProper(State(), Br(if s.DoWhile? then bodyBlock else condBlock));
      if s.DoWhile? {
        Emit(Br(bodyBlock));
      } else {
        Emit(Br(condBlock));
      }
      PositionAtEnd(condBlock);
      TestProper(State(), s.test, bodyBlock, endBlock);
      ok := LowerTest(s.test, bodyBlock, endBlock);
      if !ok { return; }
      PositionAtEnd(bodyBlock);
      assert State() == WhileEntry(st, s).st;
      LowerProper(State(), s.loopBody);
      var _ := LowerStmt(s.loopBody);
      BranchProper(State(), condBlock);
      BuildBranchIfOpen(condBlock);
      PopLoop();
      PositionAtEnd(endBlock);
    }

    method LowerForStmt(s: Stmt) returns (ok: bool)
      requires s.For? && Valid()
      modifies this
      ensures Valid() && Lowered(State(), ok) == LowerFor(old(State()), s) && deleted == old(deleted)
      decreases s, 0
    {
      hide Proper, Lower, ForEntry, ForStep;
      LowerProper(State(), s.init);
      ok := LowerStmt(s.init);
      if !ok { return; }
      var condBlock := |blocks|;
      ok := EnterFor(s.test);
      if !ok { return; }
      LowerProper(State(), s.loopBody);
      var _ := LowerStmt(s.loopBody);
      ok := LowerIncrement(s.incr, condBlock);
      if !ok { return; }
      PopLoop();
      PositionAtEnd(condBlock + 3);
    }

    /** The four blocks of a for loop, its targets and its test; goes on in the body. */
    method EnterFor(test: Option<Expr>) returns (ok: bool)
      requires Valid()
      modifies this
      ensures Valid() && Lowered(State(), ok) == ForEntry(old(State()), test) && deleted == old(deleted)
      ensures |blocks| == |old(blocks)| + 4
    {
      hide Proper, Put, PutTest;
      ghost var st := State();
      var condBlock := AppendBlock();
      var incrBlock := AppendBlock();
      AddOneMore(st, 1);
      var bodyBlock := AppendBlock();
      AddOneMore(st, 2);
      var endBlock := AppendBlock();
      AddOneMore(st, 3);
      PushLoop(endBlock, incrBlock);
      PutProper(State(), Br(condBlock));
      Emit(Br(condBlock));
      PositionAtEnd(condBlock);
      TestProper(State(), test, bodyBlock, endBlock);
      ok := LowerTest(test, bodyBlock, endBlock);
      if ok { PositionAtEnd(bodyBlock); }
    }

    method LowerIncrement(incr: Option<Expr>, condBlock: nat) returns (ok: bool)
      requires Valid() && condBlock + 1 < |blocks|
      modifies this
      ensures Valid() && Lowered(State(), ok) == ForStep(old(State()), incr, condBlock) && deleted == old(deleted)
      ensures |blocks| == |old(blocks)|
    {
      hide Proper, BranchIfOpen, PutExpr;
      var incrBlock := condBlock + 1;
      BranchProper(State(), incrBlock);
      BuildBranchIfOpen(incrBlock);
      PositionAtEnd(incrBlock);
      if incr.Some? {
        ExprProper(State(), incr.value);
        var v := LowerExpr(incr.value);
        if v.Failure? { return false; }
      }
      BranchProper(State(), condBlock);
      BuildBranchIfOpen(condBlock);
      ok := true;
    }

    method LowerBreakContinue(s: Stmt)
      requires (s.Break? || s.Continue?) && Valid()
      modifies this
      ensures Valid() && State() == Lower(old(State()), s).st && deleted == old(deleted)
    {
      TopProper(State());
      if s.Break? {
        if breakStack != [] { Emit(Br(breakStack[|breakStack| - 1])); }
      } else {
        if continueStack != [] { Emit(Br(continueStack[|continueStack| - 1])); }
      }
    }

    method LowerReturnStmt(s: Stmt) returns (ok: bool)
      requires s.Return? && Valid()
      modifies this
      ensures Valid() && Lowered(State(), ok) == Lower(old(State()), s) && deleted == old(deleted)
    {
      hide Proper, Put, PutExpr;
      ok := true;
      if isVoid {
        if s.result.Some? {
          var _ := LowerExpr(s.result.value);
          VoidKept(old(State()), s.result.value);
        }
        Emit(Ret(Nothing));
      } else if s.result.Some? {
        var v := LowerExpr(s.result.value);
        match v {
          case Failure => ok := false;
          case Value => Emit(Ret(LastValue));
          case NoValue => Emit(Ret(Zero));
        }
      } else {
        Emit(Ret(Zero));
      }
    }

    lemma VoidKept(st: Builder, e: Expr)
      ensures PutExpr(st, e).isVoid == st.isVoid
    {
    }

    method GetOrCreateLabel(name: string) returns (b: nat)
      requires Valid()
      modifies this
      ensures Valid() && State() == BlockOfLabel(old(State()), name) && b == State().labels[name] && b < |blocks|
      ensures deleted == old(deleted)
    {
      LabelProper(State(), name);
      if name in labelBlocks {
        b := labelBlocks[name];
      } else {
        b := AppendBlock();
        labelBlocks := labelBlocks[name := b];
      }
    }

    method LowerGotoStmt(name: string)
      requires Valid()
      modifies this
      ensures Valid() && State() == Lower(old(State()), Goto(name)).st && deleted == old(deleted)
    {
      if name != "" {
        var b := GetOrCreateLabel(name);
        Emit(Br(b));
      }
    }

    method LowerLabeledStmt(name: string, inner: Stmt) returns (ok: bool)
      requires Valid()
      modifies this
      ensures Valid() && Lowered(State(), ok) == Lower(old(State()), Labeled(name, inner)) && deleted == old(deleted)
      decreases inner, 2
    {
      hide Proper, BranchIfOpen;
      if name != "" {
        var b := GetOrCreateLabel(name);
        BranchProper(State(), b);
        BuildBranchIfOpen(b);
        PositionAtEnd(b);
      }
      ok := LowerStmt(inner);
    }

    /** Pass 1: a block for each case label, the case list, and which child got which block. */
    method CollectLabels(l: Stmts, width: nat, dflt: nat)
      returns (cases: seq<(nat, nat)>, labelOf: map<nat, nat>, ordered: seq<nat>, hasDefault: bool)
      requires Valid()
      modifies this
      ensures Valid() && State() == AddBlocks(old(State()), CountCases(l)) && deleted == old(deleted)
      ensures cases == CollectCases(l, |old(blocks)|, width)
      ensures labelOf == Assigned(l, 0, |old(blocks)|, dflt)
      ensures ordered == LabelBlocks(l, |old(blocks)|, dflt)
      ensures hasDefault == HasDefault(l)
    {
      hide Proper, LabelPatterns, Tagged, AddBlocks;
      ghost var st := State();
      cases, labelOf, ordered, hasDefault := [], map[], [], false;
      var rest, i := l, 0;
      AddNothing(st);
      ghost var made: nat := 0;
      AddSize(st, 0);
      while rest.Cons?
        invariant Valid() && deleted == old(deleted)
        invariant made + CountCases(rest) == CountCases(l) && State() == AddBlocks(st, made)
                  && |blocks| == |st.blocks| + made
        invariant cases + CollectCases(rest, |blocks|, width) == CollectCases(l, |st.blocks|, width)
        invariant labelOf + Assigned(rest, i, |blocks|, dflt) == Assigned(l, 0, |st.blocks|, dflt)
        invariant ordered + LabelBlocks(rest, |blocks|, dflt) == LabelBlocks(l, |st.blocks|, dflt)
        invariant (hasDefault || HasDefault(rest)) == HasDefault(l)
        decreases rest
      {
        var b := if rest.head.Default? then dflt else |blocks|;
        if rest.head.Case? {
          var _ := AppendBlock();
          AddOneMore(st, made);
          AddSize(st, made + 1);
          made := made + 1;
          AddTagged(cases, Tagged(LabelPatterns(rest.head.lab, width), b), CollectCases(rest.tail, b + 1, width));
          cases := cases + Tagged(LabelPatterns(rest.head.lab, width), b);
        } else if rest.head.Default? {
          hasDefault := true;
        }
        if rest.head.Case? || rest.head.Default? {
          AddLabel(labelOf, Assigned(rest.tail, i + 1, |blocks|, dflt), rest.tail, i, b, |blocks|, dflt);
          AddOrdered(ordered, b, LabelBlocks(rest.tail, |blocks|, dflt));
          labelOf, ordered := labelOf[i := b], ordered + [b];
        }
        rest, i := rest.tail, i + 1;
      }
    }

    lemma AddNothing(st: Builder)
      ensures AddBlocks(st, 0) == st
    {
      assert st.blocks + [] == st.blocks;
    }

    lemma AddSize(st: Builder, n: nat)
      ensures |AddBlocks(st, n).blocks| == |st.blocks| + n
    {
    }

    lemma ExprSize(st: Builder, e: Expr)
      ensures |PutExpr(st, e).blocks| == |st.blocks|
    {
    }

    lemma PutSize(st: Builder, i: Instr)
      ensures |Put(st, i).blocks| == |st.blocks|
    {
    }

    lemma AddOrdered(a: seq<nat>, b: nat, c: seq<nat>)
      ensures a + ([b] + c) == (a + [b]) + c
    {
    }

    lemma AddTagged(a: seq<(nat, nat)>, b: seq<(nat, nat)>, c: seq<(nat, nat)>)
      ensures a + (b + c) == (a + b) + c
    {
    }

    lemma AddLabel(a: map<nat, nat>, b: map<nat, nat>, l: Stmts, i: nat, block: nat, next: nat, dflt: nat)
      requires b == Assigned(l, i + 1, next, dflt)
      ensures a + b[i := block] == a[i := block] + b
    {
      AssignedLater(l, i + 1, next, dflt);
    }

    /** Keep the first entry of each pattern. */
    static method Deduplicate(cases: seq<(nat, nat)>) returns (kept: seq<(nat, nat)>)
      ensures kept == Dedup(cases, {})
    {
      kept := [];
      var seen: set<nat> := {};
      for i := 0 to |cases|
        invariant kept + Dedup(cases[i..], seen) == Dedup(cases, {})
      {
        assert cases[i..][1..] == cases[i + 1..];
        if cases[i].0 !in seen {
          seen := seen + {cases[i].0};
          kept := kept + [cases[i]];
        }
      }
    }

    /** Pass 2: lower the children in order, going on in a label's block at each label. */
    method LowerSwitchBody(l: Stmts, labelOf: map<nat, nat>, next: nat, dflt: nat)
      requires Valid() && dflt < |blocks| && next + CountCases(l) <= |blocks|
      requires labelOf == Assigned(l, 0, next, dflt)
      modifies this
      ensures Valid() && State() == LowerBody(old(State()), l, next, dflt) && deleted == old(deleted)
      decreases l, 0
    {
      hide Proper, Lower, BranchIfOpen;
      ghost var st := State();
      var rest, i := l, 0;
      ghost var n: nat := next;
      while rest.Cons?
        invariant Valid() && deleted == old(deleted)
        invariant rest == l || rest < l
        invariant |st.blocks| <= |blocks| && n + CountCases(rest) <= |blocks| && dflt < |blocks|
        invariant forall k :: i <= k ==> (k in labelOf <==> k in Assigned(rest, i, n, dflt))
        invariant forall k :: i <= k && k in labelOf ==> labelOf[k] == Assigned(rest, i, n, dflt)[k]
        invariant LowerBody(State(), rest, n, dflt) == LowerBody(st, l, next, dflt)
        decreases rest
      {
        AssignedLater(rest.tail, i + 1, if rest.head.Case? then n + 1 else n, dflt);
        if i in labelOf {
          var b := labelOf[i];
          BranchProper(State(), b);
          BuildBranchIfOpen(b);
          PositionAtEnd(b);
        } else {
          LowerProper(State(), rest.head);
          var _ := LowerStmt(rest.head);
        }
        n := if rest.head.Case? then n + 1 else n;
        rest, i := rest.tail, i + 1;
      }
    }

    /** Branch to end from the label blocks that are still open. */
    method CloseLabels(ordered: seq<nat>, end: nat)
      requires Valid() && end < |blocks| && forall b :: b in ordered ==> b < |blocks|
      modifies this
      ensures Valid() && State() == CloseAll(old(State()), ordered, end) && deleted == old(deleted)
      ensures |blocks| == |old(blocks)|
    {
      hide Proper;
      for i := 0 to |ordered|
        invariant Valid() && |blocks| == |old(blocks)| && deleted == old(deleted)
        invariant CloseAll(State(), ordered[i..], end) == CloseAll(old(State()), ordered, end)
      {
        assert ordered[i..][1..] == ordered[i + 1..];
        assert ordered[i] in ordered;
        if !Terminated(blocks[ordered[i]]) {
          PositionAtEnd(ordered[i]);
          Emit(Br(end));
        }
      }
    }

    method LowerSwitchStmt(s: Stmt) returns (ok: bool)
      requires s.Switch? && Valid()
      modifies this
      ensures Valid() && Lowered(State(), ok) == LowerSwitch(old(State()), s) && deleted == old(deleted)
      decreases s, 0
    {
      hide Proper, Lower, BranchIfOpen, PutExpr, LowerBody, SwitchEntry, SwitchExit;
      var v := LowerExpr(s.cond);
      if !v.Value? { return false; }
      var labelOf, ordered, hasDefault, endBlock := EnterSwitch(s, old(State()));
      BodyProper(State(), s.body, endBlock + 2, endBlock + 1);
      LowerSwitchBody(s.body, labelOf, endBlock + 2, endBlock + 1);
      ExitSwitch(s.body, ordered, hasDefault, endBlock);
      ok := true;
    }

    /** The blocks of a switch, its instruction, and its end as the break target. */
    method EnterSwitch(s: Stmt, ghost st: Builder)
      returns (labelOf: map<nat, nat>, ordered: seq<nat>, hasDefault: bool, endBlock: nat)
      requires s.Switch? && Valid() && s.cond.lowers.Value? && State() == PutExpr(st, s.cond)
      modifies this
      ensures Valid() && State() == SwitchEntry(st, s) && deleted == old(deleted)
      ensures endBlock == |st.blocks| && |blocks| == endBlock + 2 + CountCases(s.body)
      ensures labelOf == Assigned(s.body, 0, endBlock + 2, endBlock + 1)
      ensures ordered == LabelBlocks(s.body, endBlock + 2, endBlock + 1) && hasDefault == HasDefault(s.body)
    {
      hide Proper, Put, AddBlocks, PutExpr, Dedup, CollectCases, CountCases, LabelBlocks, HasDefault, Assigned;
      ghost var st0, k := State(), CountCases(s.body);
      ExprSize(st, s.cond);
      AddSize(st0, 2 + k);
      endBlock := AppendBlock();
      var defaultBlock := AppendBlock();
      AddOneMore(st0, 1);
      var cases;
      cases, labelOf, ordered, hasDefault := CollectLabels(s.body, s.width, defaultBlock);
      AddMore(st0, 2, k);
      var kept := Deduplicate(cases);
      SwitchInstrProper(s.body, endBlock, s.width, |blocks|);
      SameBreaks(st, s.cond, 2 + k, SwitchBr(s.width, kept, defaultBlock));
      PutSize(State(), SwitchBr(s.width, kept, defaultBlock));
      Emit(SwitchBr(s.width, kept, defaultBlock));
      StacksProper(State(), endBlock, endBlock);
      breakStack := breakStack + [endBlock];
    }

    /** After the body: close the blocks of the switch, drop the break target, go on at the end. */
    method ExitSwitch(body: Stmts, ordered: seq<nat>, hasDefault: bool, endBlock: nat)
      requires Valid() && endBlock + 2 + CountCases(body) <= |blocks|
      requires ordered == LabelBlocks(body, endBlock + 2, endBlock + 1) && hasDefault == HasDefault(body)
      modifies this
      ensures Valid() && State() == SwitchExit(old(State()), body, endBlock) && deleted == old(deleted)
    {
      hide Proper, CloseAll, BranchIfOpen;
      BranchProper(State(), endBlock);
      BuildBranchIfOpen(endBlock);
      if !hasDefault {
        PositionAtEnd(endBlock + 1);
        BranchProper(State(), endBlock);
        BuildBranchIfOpen(endBlock);
      }
      LabelBlocksBound(body, endBlock + 2, endBlock + 1);
      CloseLabels(ordered, endBlock);
      StacksProper(State(), endBlock, endBlock);
      if breakStack != [] { breakStack := breakStack[..|breakStack| - 1]; }
      PositionAtEnd(endBlock);
    }

    lemma AddMore(st: Builder, m: nat, n: nat)
      ensures AddBlocks(AddBlocks(st, m), n) == AddBlocks(st, m + n)
    {
      assert st.blocks + seq(m, _ => []) + seq(n, _ => []) == st.blocks + seq(m + n, _ => []);
    }

    /** The blocks that the clean-up left in the function. */
    ghost function Survivors(): Program
      reads this
    {
      map b | 0 <= b < |blocks| && b !in deleted :: blocks[b]
    }

    /** A whole body: statements that fail are skipped, the end returns, and blocks are cleaned up. */
    method LowerFuncDef(returnsVoid: bool, body: Stmts)
      modifies this
      ensures Survivors() == Emitted(returnsVoid, body)
    {
      breakStack, continueStack, labelBlocks, isVoid := [], [], map[], returnsVoid;
      blocks, cur, deleted := [[]], 0, {};
      ListDiscipline(Start(returnsVoid), body);
      LowerCompound(body);
      if !Terminated(blocks[cur]) {
        Emit(DefaultReturn(isVoid));
      }
      ghost var st := State();
      assert st == LowerFunction(returnsVoid, body);
      SealBlocks();
      DeleteDeadBlocks(st.blocks);
    }

    method SealBlocks()
      requires Valid()
      modifies this
      ensures blocks == Sealed(old(blocks), isVoid) && isVoid == old(isVoid) && deleted == old(deleted)
    {
      for b := 0 to |blocks|
        invariant |blocks| == |old(blocks)| && isVoid == old(isVoid) && deleted == old(deleted)
        invariant forall c :: 0 <= c < b ==> blocks[c] == SealedBlock(old(blocks)[c], c, isVoid)
        invariant forall c :: b <= c < |blocks| ==> blocks[c] == old(blocks)[c]
      {
        if !Terminated(blocks[b]) {
          blocks := blocks[b := blocks[b] + [if b == 0 then DefaultReturn(isVoid) else Unreachable]];
        }
      }
    }

    /** Whether an instruction of a block that is still there refers to block b. */
    method HasUse(b: nat) returns (used: bool)
      ensures used <==>
              exists c, i :: 0 <= c < |blocks| && c !in deleted && 0 <= i < |blocks[c]| && b in Targets(blocks[c][i])
    {
      for c := 0 to |blocks|
        invariant forall d, i :: 0 <= d < c && d !in deleted && 0 <= i < |blocks[d]| ==> b !in Targets(blocks[d][i])
      {
        if c !in deleted {
          for i := 0 to |blocks[c]|
            invariant forall j :: 0 <= j < i ==> b !in Targets(blocks[c][j])
          {
            if b in Targets(blocks[c][i]) { return true; }
          }
        }
      }
      return false;
    }

    /** Delete, in order, each block but the first that starts with unreachable and that nothing left
        refers to. */
    method DeleteDeadBlocks(ghost unsealed: seq<Block>)
      requires deleted == {} && blocks == Sealed(unsealed, isVoid)
      requires forall b :: 0 <= b < |unsealed| ==> ProperBlock(unsealed[b], |unsealed|)
      modifies this`deleted
      ensures Survivors() == Live(blocks)
    {
      hide Code, Sealed, Used, ProperBlock;
      for b := 0 to |blocks|
        invariant forall c: nat :: c in deleted <==> c < b && Dead(blocks, c)
      {
        if b != 0 && Code(blocks[b]) != [] && Code(blocks[b])[0] == Unreachable {
          var used := HasUse(b);
          UsesAlive(unsealed, b);
          if !used { deleted := deleted + {b}; }
        }
      }
    }

    /** What was deleted referred to nothing, so looking at what is left finds every use. */
    lemma UsesAlive(unsealed: seq<Block>, b: nat)
      requires blocks == Sealed(unsealed, isVoid) && forall c :: c in deleted ==> Dead(blocks, c)
      requires forall c :: 0 <= c < |unsealed| ==> ProperBlock(unsealed[c], |unsealed|)
      ensures Used(blocks, b) <==>
              exists c, i :: 0 <= c < |blocks| && c !in deleted && 0 <= i < |blocks[c]| && b in Targets(blocks[c][i])
    {
      hide Code, Sealed, ProperBlock, Targets;
      DeadHasNoTargets(unsealed);
      if Used(blocks, b) {
        var c, i :| 0 <= c < |blocks| && 0 <= i < |blocks[c]| && b in Targets(blocks[c][i]);
        assert c !in deleted;
      }
    }

    lemma DeadHasNoTargets(unsealed: seq<Block>)
      requires forall b :: 0 <= b < |unsealed| ==> ProperBlock(unsealed[b], |unsealed|)
      ensures forall b, i :: 0 <= b < |unsealed| && Dead(Sealed(unsealed, isVoid), b) &&
                             0 <= i < |Sealed(unsealed, isVoid)[b]| ==>
                Targets(Sealed(unsealed, isVoid)[b][i]) == {}
    {
      forall b, i | 0 <= b < |unsealed| && Dead(Sealed(unsealed, isVoid), b) && 0 <= i < |Sealed(unsealed, isVoid)[b]|
        ensures Targets(Sealed(unsealed, isVoid)[b][i]) == {}
      {
        assert ProperBlock(unsealed[b], |unsealed|);
        assert forall k :: 0 <= k < |unsealed[b]| ==> ProperInstr(unsealed[b][k], |unsealed|);
        UnreachableFirst(unsealed[b], b, isVoid);
      }
    }
  }
}
