/** What every lowering step keeps: blocks only grow at the end, only the current block, new blocks
    and blocks of named labels are touched, and nothing else moves. */
module LowerFacts {
  import opened CStatements
  import opened Options
  import opened BlockMachine
  import opened LowerSpec

  /** The insertion point and the blocks of named labels exist. */
  ghost predicate Sane(st: Builder) {
    && st.cur < |st.blocks|
    && (forall n :: n in st.labels ==> st.labels[n] < |st.blocks|)
  }

  /** The blocks a statement lowered here may append to besides new ones. */
  ghost function Own(st: Builder): set<nat> { {st.cur} + st.labels.Values }

  /** st came from blocks base by appending to blocks in own or to new blocks only. */
  ghost predicate Keeps(base: seq<Block>, own: set<nat>, st: Builder) {
    && Sane(st)
    && |base| <= |st.blocks|
    && (forall b :: 0 <= b < |base| ==> base[b] <= st.blocks[b])
    && (forall b :: 0 <= b < |base| && b !in own ==> st.blocks[b] == base[b])
    && (forall b :: b in Own(st) && b < |base| ==> b in own)
  }

  /** What a step that keeps a builder's blocks says about their number. */
  lemma KeepsSize(base: seq<Block>, own: set<nat>, st: Builder)
    requires Keeps(base, own, st)
    ensures Sane(st) && |base| <= |st.blocks|
  {
  }

  lemma KeepsTrans(base: seq<Block>, own: set<nat>, st1: Builder, st2: Builder)
    requires Keeps(base, own, st1) && Keeps(st1.blocks, Own(st1), st2)
    ensures Keeps(base, own, st2) && Sane(st1) && Sane(st2)
    ensures |base| <= |st1.blocks| <= |st2.blocks|
  {
  }

  lemma KeepsSelf(st: Builder)
    requires Sane(st)
    ensures Keeps(st.blocks, Own(st), st)
  {
  }

  lemma PutKeeps(base: seq<Block>, own: set<nat>, st: Builder, i: Instr)
    requires Keeps(base, own, st)
    ensures Keeps(base, own, Put(st, i))
    ensures forall b :: 0 <= b < |st.blocks| && b != st.cur ==> Put(st, i).blocks[b] == st.blocks[b]
  {
  }

  lemma BranchKeeps(base: seq<Block>, own: set<nat>, st: Builder, t: nat)
    requires Keeps(base, own, st)
    ensures Keeps(base, own, BranchIfOpen(st, t))
    ensures forall b :: 0 <= b < |st.blocks| && b != st.cur ==> BranchIfOpen(st, t).blocks[b] == st.blocks[b]
  {
  }

  lemma ExprKeeps(base: seq<Block>, own: set<nat>, st: Builder, e: Expr)
    requires Keeps(base, own, st)
    ensures Keeps(base, own, PutExpr(st, e))
  {
  }

  /** The branch-target stacks have no say in which blocks are touched. */
  lemma StacksKeep(base: seq<Block>, own: set<nat>, st: Builder, brk: seq<nat>, cont: seq<nat>)
    requires Keeps(base, own, st)
    ensures Keeps(base, own, st.(breaks := brk, continues := cont))
  {
  }

  lemma TestKeeps(base: seq<Block>, own: set<nat>, st: Builder, test: Option<Expr>, body: nat, end: nat)
    requires Keeps(base, own, st)
    ensures Keeps(base, own, PutTest(st, test, body, end).st)
    ensures |PutTest(st, test, body, end).st.blocks| == |st.blocks|
  {
    hide Keeps;
    if test.Some? {
      ExprKeeps(base, own, st, test.value);
      PutKeeps(base, own, PutExpr(st, test.value), Br(body));
      PutKeeps(base, own, PutExpr(st, test.value), CondBr(body, end));
    } else {
      PutKeeps(base, own, st, Br(body));
    }
  }

  lemma AddBlocksKeeps(base: seq<Block>, own: set<nat>, st: Builder, n: nat)
    requires Keeps(base, own, st)
    ensures Keeps(base, own, AddBlocks(st, n))
  {
  }

  lemma AtKeeps(base: seq<Block>, own: set<nat>, st: Builder, b: nat)
    requires Keeps(base, own, st) && b < |st.blocks| && (b < |base| ==> b in own)
    ensures Keeps(base, own, At(st, b))
  {
  }

  lemma BlockOfLabelKeeps(base: seq<Block>, own: set<nat>, st: Builder, name: string)
    requires Keeps(base, own, st)
    ensures Keeps(base, own, BlockOfLabel(st, name))
  {
    var st1 := BlockOfLabel(st, name);
    forall b | b in Own(st1) && b < |base|
      ensures b in own
    {
      assert b in Own(st) || b == |st.blocks|;
    }
  }

  lemma {:induction false} CloseAllKeeps(base: seq<Block>, own: set<nat>, st: Builder, bs: seq<nat>, end: nat)
    requires Keeps(base, own, st)
    requires forall b :: b in bs ==> b < |st.blocks| && (b < |base| ==> b in own)
    ensures Keeps(base, own, CloseAll(st, bs, end))
    ensures |CloseAll(st, bs, end).blocks| == |st.blocks|
    decreases bs
  {
    hide Keeps, Own;
    if bs != [] {
      assert bs[0] in bs;
      assert forall b :: b in bs[1..] ==> b in bs;
      AtKeeps(base, own, st, bs[0]);
      PutKeeps(base, own, At(st, bs[0]), Br(end));
      CloseAllKeeps(base, own, CloseOne(st, bs[0], end), bs[1..], end);
    }
  }

  lemma LabelBlocksBound(l: Stmts, next: nat, dflt: nat)
    ensures forall b :: b in LabelBlocks(l, next, dflt) ==> b == dflt || next <= b < next + CountCases(l)
  {
  }

  lemma IfEntryKeeps(st: Builder, cond: Expr)
    requires Sane(st)
    ensures Keeps(st.blocks, Own(st), IfEntry(st, cond))
    ensures |IfEntry(st, cond).blocks| == |st.blocks| + 3
  {
    hide Keeps, Own;
    var base, own, n := st.blocks, Own(st), |st.blocks|;
    KeepsSelf(st);
    ExprKeeps(base, own, st, cond);
    AddBlocksKeeps(base, own, PutExpr(st, cond), 3);
    PutKeeps(base, own, AddBlocks(PutExpr(st, cond), 3), CondBr(n, n + 1));
    AtKeeps(base, own, Put(AddBlocks(PutExpr(st, cond), 3), CondBr(n, n + 1)), n);
  }

  lemma WhileEntryKeeps(st: Builder, s: Stmt)
    requires Sane(st) && (s.While? || s.DoWhile?)
    ensures Keeps(st.blocks, Own(st), WhileEntry(st, s).st)
    ensures |WhileEntry(st, s).st.blocks| == |st.blocks| + 3
  {
    hide Keeps, Own;
    var base, own, n := st.blocks, Own(st), |st.blocks|;
    KeepsSelf(st);
    AddBlocksKeeps(base, own, st, 3);
    var st1 := PushTargets(AddBlocks(st, 3), n + 2, n);
    StacksKeep(base, own, AddBlocks(st, 3), st1.breaks, st1.continues);
    var br := Br(if s.DoWhile? then n + 1 else n);
    PutKeeps(base, own, st1, br);
    AtKeeps(base, own, Put(st1, br), n);
    TestKeeps(base, own, At(Put(st1, br), n), s.test, n + 1, n + 2);
    AtKeeps(base, own, PutTest(At(Put(st1, br), n), s.test, n + 1, n + 2).st, n + 1);
  }

  lemma ForEntryKeeps(st: Builder, test: Option<Expr>)
    requires Sane(st)
    ensures Keeps(st.blocks, Own(st), ForEntry(st, test).st)
    ensures |ForEntry(st, test).st.blocks| == |st.blocks| + 4
  {
    hide Keeps, Own;
    var base, own, n := st.blocks, Own(st), |st.blocks|;
    KeepsSelf(st);
    AddBlocksKeeps(base, own, st, 4);
    var st1 := PushTargets(AddBlocks(st, 4), n + 3, n + 1);
    StacksKeep(base, own, AddBlocks(st, 4), st1.breaks, st1.continues);
    PutKeeps(base, own, st1, Br(n));
    AtKeeps(base, own, Put(st1, Br(n)), n);
    TestKeeps(base, own, At(Put(st1, Br(n)), n), test, n + 2, n + 3);
    AtKeeps(base, own, PutTest(At(Put(st1, Br(n)), n), test, n + 2, n + 3).st, n + 2);
  }

  lemma ForStepKeeps(base: seq<Block>, own: set<nat>, st: Builder, incr: Option<Expr>, n: nat)
    requires Keeps(base, own, st) && |base| <= n && n + 1 < |st.blocks|
    ensures Keeps(base, own, ForStep(st, incr, n).st)
    ensures |ForStep(st, incr, n).st.blocks| == |st.blocks|
  {
    hide Keeps, Own;
    BranchKeeps(base, own, st, n + 1);
    var st1 := At(BranchIfOpen(st, n + 1), n + 1);
    AtKeeps(base, own, BranchIfOpen(st, n + 1), n + 1);
    var st2 := if incr.Some? then PutExpr(st1, incr.value) else st1;
    if incr.Some? { ExprKeeps(base, own, st1, incr.value); }
    BranchKeeps(base, own, st2, n);
  }

  lemma SwitchEntryKeeps(st: Builder, s: Stmt)
    requires Sane(st) && s.Switch?
    ensures Keeps(st.blocks, Own(st), SwitchEntry(st, s))
    ensures |SwitchEntry(st, s).blocks| == |st.blocks| + 2 + CountCases(s.body)
  {
    hide Keeps, Own;
    var base, own, n := st.blocks, Own(st), |st.blocks|;
    KeepsSelf(st);
    ExprKeeps(base, own, st, s.cond);
    var st1 := AddBlocks(PutExpr(st, s.cond), 2 + CountCases(s.body));
    AddBlocksKeeps(base, own, PutExpr(st, s.cond), 2 + CountCases(s.body));
    var sw := SwitchBr(s.width, Dedup(CollectCases(s.body, n + 2, s.width), {}), n + 1);
    PutKeeps(base, own, st1, sw);
    StacksKeep(base, own, Put(st1, sw), st.breaks + [n], st.continues);
  }

  lemma SwitchCloseKeeps(base: seq<Block>, own: set<nat>, st: Builder, body: Stmts, n: nat)
    requires Keeps(base, own, st) && n + 2 + CountCases(body) <= |st.blocks|
    requires forall b :: n + 1 <= b < n + 2 + CountCases(body) && b < |base| ==> b in own
    ensures Keeps(base, own, SwitchClose(st, body, n))
    ensures |SwitchClose(st, body, n).blocks| == |st.blocks|
  {
    hide Keeps, Own;
    LabelBlocksBound(body, n + 2, n + 1);
    BranchKeeps(base, own, st, n);
    var st1 := BranchIfOpen(st, n);
    AtKeeps(base, own, st1, n + 1);
    BranchKeeps(base, own, At(st1, n + 1), n);
    var st2 := if HasDefault(body) then st1 else BranchIfOpen(At(st1, n + 1), n);
    CloseAllKeeps(base, own, st2, LabelBlocks(body, n + 2, n + 1), n);
  }

  lemma SwitchExitKeeps(base: seq<Block>, own: set<nat>, st: Builder, body: Stmts, n: nat)
    requires Keeps(base, own, st) && |base| <= n && n + 2 + CountCases(body) <= |st.blocks|
    ensures Keeps(base, own, SwitchExit(st, body, n))
    ensures |SwitchExit(st, body, n).blocks| == |st.blocks|
  {
    hide Keeps, Own;
    SwitchCloseKeeps(base, own, st, body, n);
    var st1 := SwitchClose(st, body, n);
    StacksKeep(base, own, st1, Pop(st1.breaks), st1.continues);
    AtKeeps(base, own, st1.(breaks := Pop(st1.breaks)), n);
  }

  lemma {:induction false} LowerKeeps(st: Builder, s: Stmt)
    requires Sane(st)
    ensures Keeps(st.blocks, Own(st), Lower(st, s).st)
    ensures |st.blocks| <= |Lower(st, s).st.blocks|
    decreases s, 1
  {
    hide Keeps, Sane, Own;
    var base, own := st.blocks, Own(st);
    KeepsSelf(st);
    match s {
    case Eval(e) => ExprKeeps(base, own, st, e);
    case Break => if st.breaks != [] { PutKeeps(base, own, st, Br(st.breaks[|st.breaks| - 1])); }
    case Continue => if st.continues != [] { PutKeeps(base, own, st, Br(st.continues[|st.continues| - 1])); }
    case Return(None) => PutKeeps(base, own, st, Ret(if st.isVoid then Nothing else Zero));
    case Return(Some(e)) =>
      ExprKeeps(base, own, st, e);
      PutKeeps(base, own, PutExpr(st, e), Ret(Nothing));
      PutKeeps(base, own, PutExpr(st, e), Ret(if e.lowers.Value? then LastValue else Zero));
    case Compound(l) => ListKeeps(st, l);
    case If(_, _, _) => IfKeeps(st, s);
    case While(_, _) => WhileKeeps(st, s);
    case DoWhile(_, _) => WhileKeeps(st, s);
    case For(_, _, _, _) => ForKeeps(st, s);
    case Switch(_, _, _, _) => SwitchKeeps(st, s);
    case Goto(name) =>
      if name != "" {
        BlockOfLabelKeeps(base, own, st, name);
        var st1 := BlockOfLabel(st, name);
        PutKeeps(base, own, st1, Br(st1.labels[name]));
      }
    case Labeled(name, inner) =>
      if name == "" {
        LowerKeeps(st, inner);
      } else {
        BlockOfLabelKeeps(base, own, st, name);
        var st1 := BlockOfLabel(st, name);
        var b := st1.labels[name];
        BranchKeeps(base, own, st1, b);
        OwnLabel(base, own, BranchIfOpen(st1, b), name);
        AtKeeps(base, own, BranchIfOpen(st1, b), b);
        LowerKeeps(At(BranchIfOpen(st1, b), b), inner);
        KeepsTrans(base, own, At(BranchIfOpen(st1, b), b), Lower(st, s).st);
      }
    case _ =>
    }
    KeepsSize(base, own, Lower(st, s).st);
  }

  lemma OwnLabel(base: seq<Block>, own: set<nat>, st: Builder, name: string)
    requires Keeps(base, own, st) && name in st.labels
    ensures st.labels[name] < |st.blocks|
    ensures st.labels[name] < |base| ==> st.labels[name] in own
  {
    assert st.labels[name] in Own(st);
  }

  lemma {:induction false} ListKeeps(st: Builder, l: Stmts)
    requires Sane(st)
    ensures Keeps(st.blocks, Own(st), LowerList(st, l))
    decreases l, 0
  {
    hide Keeps, Sane, Own;
    KeepsSelf(st);
    if l.Cons? {
      var st1 := Lower(st, l.head).st;
      LowerKeeps(st, l.head);
      KeepsSize(st.blocks, Own(st), st1);
      ListKeeps(st1, l.tail);
      KeepsTrans(st.blocks, Own(st), st1, LowerList(st, l));
    }
  }

  lemma {:induction false} IfKeeps(st: Builder, s: Stmt)
    requires Sane(st) && s.If?
    ensures Keeps(st.blocks, Own(st), LowerIf(st, s).st)
    decreases s, 0
  {
    hide Keeps, Sane, Own;
    KeepsSelf(st);
    var base, own, n := st.blocks, Own(st), |st.blocks|;
    if !s.cond.lowers.Value? {
      ExprKeeps(base, own, st, s.cond);
    } else {
      IfEntryKeeps(st, s.cond);
      var st1 := IfEntry(st, s.cond);
      KeepsSize(base, own, st1);
      LowerKeeps(st1, s.thn);
      var r1 := Lower(st1, s.thn);
      KeepsTrans(base, own, st1, r1.st);
      if r1.ok {
        BranchKeeps(base, own, r1.st, n + 2);
        var st2 := At(BranchIfOpen(r1.st, n + 2), n + 1);
        AtKeeps(base, own, BranchIfOpen(r1.st, n + 2), n + 1);
        KeepsSize(base, own, st2);
        LowerKeeps(st2, s.els);
        var r2 := Lower(st2, s.els);
        KeepsTrans(base, own, st2, r2.st);
        if r2.ok {
          BranchKeeps(base, own, r2.st, n + 2);
          AtKeeps(base, own, BranchIfOpen(r2.st, n + 2), n + 2);
        }
      }
    }
  }

  lemma {:induction false} WhileKeeps(st: Builder, s: Stmt)
    requires Sane(st) && (s.While? || s.DoWhile?)
    ensures Keeps(st.blocks, Own(st), LowerWhile(st, s).st)
    decreases s, 0
  {
    hide Keeps, Sane, Own;
    var base, own, n := st.blocks, Own(st), |st.blocks|;
    WhileEntryKeeps(st, s);
    var r := WhileEntry(st, s);
    if r.ok {
      var st1 := Lower(r.st, s.loopBody).st;
      KeepsSize(base, own, r.st);
      LowerKeeps(r.st, s.loopBody);
      KeepsTrans(base, own, r.st, st1);
      BranchKeeps(base, own, st1, n);
      var st2 := PopTargets(BranchIfOpen(st1, n));
      StacksKeep(base, own, BranchIfOpen(st1, n), st2.breaks, st2.continues);
      AtKeeps(base, own, st2, n + 2);
    }
  }

  lemma {:induction false} ForKeeps(st: Builder, s: Stmt)
    requires Sane(st) && s.For?
    ensures Keeps(st.blocks, Own(st), LowerFor(st, s).st)
    decreases s, 0
  {
    hide Keeps, Sane, Own;
    var base, own := st.blocks, Own(st);
    var r0 := Lower(st, s.init);
    LowerKeeps(st, s.init);
    if r0.ok {
      var n := |r0.st.blocks|;
      KeepsSize(base, own, r0.st);
      ForEntryKeeps(r0.st, s.test);
      var r1 := ForEntry(r0.st, s.test);
      KeepsTrans(base, own, r0.st, r1.st);
      if r1.ok {
        var st2 := Lower(r1.st, s.loopBody).st;
        KeepsSize(base, own, r1.st);
        LowerKeeps(r1.st, s.loopBody);
        KeepsTrans(base, own, r1.st, st2);
        ForStepKeeps(base, own, st2, s.incr, n);
        var r3 := ForStep(st2, s.incr, n);
        if r3.ok {
          var st4 := PopTargets(r3.st);
          StacksKeep(base, own, r3.st, st4.breaks, st4.continues);
          AtKeeps(base, own, st4, n + 3);
        }
      }
    }
  }

  lemma {:induction false} SwitchKeeps(st: Builder, s: Stmt)
    requires Sane(st) && s.Switch?
    ensures Keeps(st.blocks, Own(st), LowerSwitch(st, s).st)
    decreases s, 0
  {
    hide Keeps, Sane, Own, LowerBody, SwitchExit, PutExpr;
    KeepsSelf(st);
    var base, own, n := st.blocks, Own(st), |st.blocks|;
    if !s.cond.lowers.Value? {
      ExprKeeps(base, own, st, s.cond);
    } else {
      SwitchEntryKeeps(st, s);
      var st1 := SwitchEntry(st, s);
      KeepsSize(base, own, st1);
      BodyKeeps(base, own, st1, s.body, n + 2, n + 1);
      SwitchExitKeeps(base, own, LowerBody(st1, s.body, n + 2, n + 1), s.body, n);
    }
  }

  lemma {:induction false} BodyKeeps(base: seq<Block>, own: set<nat>, st: Builder, l: Stmts, next: nat, dflt: nat)
    requires Keeps(base, own, st)
    requires dflt < |st.blocks| && next + CountCases(l) <= |st.blocks|
    requires HasDefault(l) && dflt < |base| ==> dflt in own
    requires forall b :: next <= b < next + CountCases(l) && b < |base| ==> b in own
    ensures Keeps(base, own, LowerBody(st, l, next, dflt))
    ensures |st.blocks| <= |LowerBody(st, l, next, dflt).blocks|
    decreases l, 0
  {
    hide Keeps, Sane, Own;
    if l.Cons? {
      if l.head.Case? {
        BranchKeeps(base, own, st, next);
        AtKeeps(base, own, BranchIfOpen(st, next), next);
        BodyKeeps(base, own, At(BranchIfOpen(st, next), next), l.tail, next + 1, dflt);
      } else if l.head.Default? {
        BranchKeeps(base, own, st, dflt);
        AtKeeps(base, own, BranchIfOpen(st, dflt), dflt);
        BodyKeeps(base, own, At(BranchIfOpen(st, dflt), dflt), l.tail, next, dflt);
      } else {
        var st1 := Lower(st, l.head).st;
        KeepsSize(base, own, st);
        LowerKeeps(st, l.head);
        KeepsTrans(base, own, st, st1);
        BodyKeeps(base, own, st1, l.tail, next, dflt);
      }
    }
  }
}
