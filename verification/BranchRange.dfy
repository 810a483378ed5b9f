/** Every branch that lowering emits, for any statement, goes to a block that exists. */
module BranchRange {
  import opened CStatements
  import opened Options
  import opened BlockMachine
  import opened LowerSpec
  import opened LowerFacts

  ghost predicate ProperInstr(i: Instr, n: nat) {
    i != Unreachable && forall t :: t in Targets(i) ==> t < n
  }

  ghost predicate ProperBlock(b: Block, n: nat) {
    forall k :: 0 <= k < |b| ==> ProperInstr(b[k], n)
  }

  /** All branch targets, those still to be used included, are existing blocks. */
  ghost predicate Proper(st: Builder) {
    && Sane(st)
    && (forall b :: 0 <= b < |st.blocks| ==> ProperBlock(st.blocks[b], |st.blocks|))
    && (forall t :: t in st.breaks ==> t < |st.blocks|)
    && (forall t :: t in st.continues ==> t < |st.blocks|)
  }

  lemma PutProper(st: Builder, i: Instr)
    requires Proper(st) && ProperInstr(i, |st.blocks|)
    ensures Proper(Put(st, i)) && |Put(st, i).blocks| == |st.blocks|
  {
    var st1 := Put(st, i);
    forall b | 0 <= b < |st1.blocks| ensures ProperBlock(st1.blocks[b], |st1.blocks|) {
      assert ProperBlock(st.blocks[b], |st.blocks|);
    }
  }

  lemma BranchProper(st: Builder, t: nat)
    requires Proper(st) && t < |st.blocks|
    ensures Proper(BranchIfOpen(st, t)) && |BranchIfOpen(st, t).blocks| == |st.blocks|
  {
    PutProper(st, Br(t));
  }

  lemma ExprProper(st: Builder, e: Expr)
    requires Proper(st)
    ensures Proper(PutExpr(st, e)) && |PutExpr(st, e).blocks| == |st.blocks|
  {
    PutProper(st, Compute(e.id, e.silent));
  }

  lemma TestProper(st: Builder, test: Option<Expr>, body: nat, end: nat)
    requires Proper(st) && body < |st.blocks| && end < |st.blocks|
    ensures Proper(PutTest(st, test, body, end).st) && |PutTest(st, test, body, end).st.blocks| == |st.blocks|
  {
    hide Proper;
    if test.Some? {
      ExprProper(st, test.value);
      PutProper(PutExpr(st, test.value), Br(body));
      PutProper(PutExpr(st, test.value), CondBr(body, end));
    } else {
      PutProper(st, Br(body));
    }
  }

  lemma AddProper(st: Builder, n: nat)
    requires Proper(st)
    ensures Proper(AddBlocks(st, n)) && |AddBlocks(st, n).blocks| == |st.blocks| + n
  {
    var st1 := AddBlocks(st, n);
    forall b | 0 <= b < |st1.blocks| ensures ProperBlock(st1.blocks[b], |st1.blocks|) {
      if b < |st.blocks| { assert ProperBlock(st.blocks[b], |st.blocks|); }
    }
  }

  lemma PlaceProper(st: Builder, b: nat)
    requires Proper(st) && b < |st.blocks|
    ensures Proper(At(st, b))
  {
  }

  lemma StacksProper(st: Builder, brk: nat, cont: nat)
    requires Proper(st)
    ensures brk < |st.blocks| && cont < |st.blocks| ==> Proper(PushTargets(st, brk, cont))
    ensures brk < |st.blocks| ==> Proper(st.(breaks := st.breaks + [brk]))
    ensures Proper(PopTargets(st)) && Proper(st.(breaks := Pop(st.breaks)))
  {
    assert forall t :: t in Pop(st.breaks) ==> t in st.breaks;
    assert forall t :: t in Pop(st.continues) ==> t in st.continues;
  }

  lemma LabelProper(st: Builder, name: string)
    requires Proper(st)
    ensures var st1 := BlockOfLabel(st, name);
            Proper(st1) && st1.labels[name] < |st1.blocks| && |st.blocks| <= |st1.blocks|
  {
    AddProper(st, 1);
  }

  lemma {:induction false} CollectRange(l: Stmts, next: nat, width: nat)
    ensures forall i :: 0 <= i < |CollectCases(l, next, width)| ==>
              next <= CollectCases(l, next, width)[i].1 < next + CountCases(l)
  {
    if l.Cons? { CollectRange(l.tail, if l.head.Case? then next + 1 else next, width); }
  }

  lemma {:induction false} DedupSubset(cases: seq<(nat, nat)>, seen: set<nat>)
    ensures forall c :: c in Dedup(cases, seen) ==> c in cases
  {
    if cases != [] {
      DedupSubset(cases[1..], if cases[0].0 in seen then seen else seen + {cases[0].0});
    }
  }

  lemma SwitchInstrProper(l: Stmts, n: nat, width: nat, m: nat)
    requires n + 2 + CountCases(l) <= m
    ensures ProperInstr(SwitchBr(width, Dedup(CollectCases(l, n + 2, width), {}), n + 1), m)
  {
    var all := CollectCases(l, n + 2, width);
    var cases := Dedup(all, {});
    CollectRange(l, n + 2, width);
    DedupSubset(all, {});
    forall i | 0 <= i < |cases| ensures cases[i].1 < m {
      assert cases[i] in cases;
    }
  }

  lemma {:induction false} CloseAllProper(st: Builder, bs: seq<nat>, end: nat)
    requires Proper(st) && end < |st.blocks| && forall b :: b in bs ==> b < |st.blocks|
    ensures Proper(CloseAll(st, bs, end)) && |CloseAll(st, bs, end).blocks| == |st.blocks|
    decreases bs
  {
    hide Proper;
    if bs != [] {
      assert bs[0] in bs && forall b :: b in bs[1..] ==> b in bs;
      PlaceProper(st, bs[0]);
      PutProper(At(st, bs[0]), Br(end));
      CloseAllProper(CloseOne(st, bs[0], end), bs[1..], end);
    }
  }

  /** For any statement, failing ones and gotos included. */
  lemma {:induction false} LowerProper(st: Builder, s: Stmt)
    requires Proper(st)
    ensures Proper(Lower(st, s).st) && |st.blocks| <= |Lower(st, s).st.blocks|
    decreases s, 1
  {
    hide Proper, PutTest, BranchIfOpen, CloseAll;
    match s {
      case Eval(e) => ExprProper(st, e);
      case Compound(l) => ListProper(st, l);
      case If(_, _, _) => IfProper(st, s);
      case While(_, _) => WhileProper(st, s);
      case DoWhile(_, _) => WhileProper(st, s);
      case For(_, _, _, _) => ForProper(st, s);
      case Switch(_, _, _, _) => SwitchProper(st, s);
      case Break => TopProper(st); if st.breaks != [] { PutProper(st, Br(st.breaks[|st.breaks| - 1])); }
      case Continue => TopProper(st); if st.continues != [] { PutProper(st, Br(st.continues[|st.continues| - 1])); }
      case Return(None) => PutProper(st, Ret(if st.isVoid then Nothing else Zero));
      case Return(Some(e)) =>
        ExprProper(st, e);
        PutProper(PutExpr(st, e), Ret(Nothing));
        PutProper(PutExpr(st, e), Ret(if e.lowers.Value? then LastValue else Zero));
      case Goto(name) =>
        LabelProper(st, name);
        var st1 := BlockOfLabel(st, name);
        PutProper(st1, Br(st1.labels[name]));
      case Labeled(name, inner) =>
        LabelProper(st, name);
        var st1 := BlockOfLabel(st, name);
        var b := st1.labels[name];
        BranchProper(st1, b);
        PlaceProper(BranchIfOpen(st1, b), b);
        LowerProper(if name == "" then st else At(BranchIfOpen(st1, b), b), inner);
      case _ =>
    }
  }

  lemma TopProper(st: Builder)
    requires Proper(st)
    ensures st.breaks != [] ==> st.breaks[|st.breaks| - 1] < |st.blocks|
    ensures st.continues != [] ==> st.continues[|st.continues| - 1] < |st.blocks|
  {
    if st.breaks != [] { assert st.breaks[|st.breaks| - 1] in st.breaks; }
    if st.continues != [] { assert st.continues[|st.continues| - 1] in st.continues; }
  }

  lemma {:induction false} ListProper(st: Builder, l: Stmts)
    requires Proper(st)
    ensures Proper(LowerList(st, l)) && |st.blocks| <= |LowerList(st, l).blocks|
    decreases l, 0
  {
    hide Proper, Lower;
    if l.Cons? {
      LowerProper(st, l.head);
      ListProper(Lower(st, l.head).st, l.tail);
    }
  }

  lemma {:induction false} IfProper(st: Builder, s: Stmt)
    requires s.If? && Proper(st)
    ensures Proper(LowerIf(st, s).st) && |st.blocks| <= |LowerIf(st, s).st.blocks|
    decreases s, 0
  {
    hide Proper, Lower, BranchIfOpen, PutExpr, Put;
    var n := |st.blocks|;
    ExprProper(st, s.cond);
    AddProper(PutExpr(st, s.cond), 3);
    var st0 := AddBlocks(PutExpr(st, s.cond), 3);
    PutProper(st0, CondBr(n, n + 1));
    PlaceProper(Put(st0, CondBr(n, n + 1)), n);
    var st1 := IfEntry(st, s.cond);
    LowerProper(st1, s.thn);
    var r1 := Lower(st1, s.thn).st;
    BranchProper(r1, n + 2);
    PlaceProper(BranchIfOpen(r1, n + 2), n + 1);
    var st2 := At(BranchIfOpen(r1, n + 2), n + 1);
    LowerProper(st2, s.els);
    var r2 := Lower(st2, s.els).st;
    BranchProper(r2, n + 2);
    PlaceProper(BranchIfOpen(r2, n + 2), n + 2);
  }

  lemma LoopProper(st: Builder, k: nat, brk: nat, cont: nat, first: nat, test: Option<Expr>, body: nat, end: nat)
    requires Proper(st) && |st.blocks| <= brk < |st.blocks| + k && |st.blocks| <= cont < |st.blocks| + k
    requires first < |st.blocks| + k && body < |st.blocks| + k && end < |st.blocks| + k
    ensures var st1 := At(Put(PushTargets(AddBlocks(st, k), brk, cont), Br(first)), |st.blocks|);
            && Proper(PutTest(st1, test, body, end).st)
            && Proper(At(PutTest(st1, test, body, end).st, body))
            && |PutTest(st1, test, body, end).st.blocks| == |st.blocks| + k
  {
    hide Proper, PutTest;
    AddProper(st, k);
    StacksProper(AddBlocks(st, k), brk, cont);
    var st0 := PushTargets(AddBlocks(st, k), brk, cont);
    PutProper(st0, Br(first));
    PlaceProper(Put(st0, Br(first)), |st.blocks|);
    TestProper(At(Put(st0, Br(first)), |st.blocks|), test, body, end);
    PlaceProper(PutTest(At(Put(st0, Br(first)), |st.blocks|), test, body, end).st, body);
  }

  lemma {:induction false} WhileProper(st: Builder, s: Stmt)
    requires (s.While? || s.DoWhile?) && Proper(st)
    ensures Proper(LowerWhile(st, s).st) && |st.blocks| <= |LowerWhile(st, s).st.blocks|
    decreases s, 0
  {
    hide Proper, Lower, BranchIfOpen, PutTest, Put;
    var n := |st.blocks|;
    LoopProper(st, 3, n + 2, n, if s.DoWhile? then n + 1 else n, s.test, n + 1, n + 2);
    var r := WhileEntry(st, s);
    if r.ok {
      LowerProper(r.st, s.loopBody);
      var st1 := Lower(r.st, s.loopBody).st;
      BranchProper(st1, n);
      StacksProper(BranchIfOpen(st1, n), 0, 0);
      PlaceProper(PopTargets(BranchIfOpen(st1, n)), n + 2);
    }
  }

  lemma {:induction false} ForProper(st: Builder, s: Stmt)
    requires s.For? && Proper(st)
    ensures Proper(LowerFor(st, s).st) && |st.blocks| <= |LowerFor(st, s).st.blocks|
    decreases s, 0
  {
    hide Proper, Lower, BranchIfOpen, PutTest, Put, PutExpr, ForStep;
    LowerProper(st, s.init);
    var r0 := Lower(st, s.init);
    if r0.ok {
      var n := |r0.st.blocks|;
      LoopProper(r0.st, 4, n + 3, n + 1, n, s.test, n + 2, n + 3);
      var r1 := ForEntry(r0.st, s.test);
      if r1.ok {
        LowerProper(r1.st, s.loopBody);
        var st2 := Lower(r1.st, s.loopBody).st;
        StepProper(st2, s.incr, n);
        var r3 := ForStep(st2, s.incr, n);
        StacksProper(r3.st, 0, 0);
        PlaceProper(PopTargets(r3.st), n + 3);
      }
    }
  }

  lemma StepProper(st: Builder, incr: Option<Expr>, n: nat)
    requires Proper(st) && n + 1 < |st.blocks|
    ensures Proper(ForStep(st, incr, n).st) && |ForStep(st, incr, n).st.blocks| == |st.blocks|
  {
    hide Proper, BranchIfOpen, PutExpr;
    BranchProper(st, n + 1);
    PlaceProper(BranchIfOpen(st, n + 1), n + 1);
    var st1 := At(BranchIfOpen(st, n + 1), n + 1);
    if incr.Some? { ExprProper(st1, incr.value); }
    BranchProper(if incr.Some? then PutExpr(st1, incr.value) else st1, n);
  }

  lemma {:induction false} SwitchProper(st: Builder, s: Stmt)
    requires s.Switch? && Proper(st)
    ensures Proper(LowerSwitch(st, s).st) && |st.blocks| <= |LowerSwitch(st, s).st.blocks|
    decreases s, 0
  {
    hide Proper, Lower, LowerBody, PutExpr, Put, SwitchClose;
    var n, k := |st.blocks|, CountCases(s.body);
    ExprProper(st, s.cond);
    AddProper(PutExpr(st, s.cond), 2 + k);
    SwitchInstrProper(s.body, n, s.width, n + 2 + k);
    var st0 := AddBlocks(PutExpr(st, s.cond), 2 + k);
    var sw := SwitchBr(s.width, Dedup(CollectCases(s.body, n + 2, s.width), {}), n + 1);
    PutProper(st0, sw);
    SameBreaks(st, s.cond, 2 + k, sw);
    StacksProper(Put(st0, sw), n, n);
    var st1 := SwitchEntry(st, s);
    BodyProper(st1, s.body, n + 2, n + 1);
    var st2 := LowerBody(st1, s.body, n + 2, n + 1);
    CloseProper(st2, s.body, n);
    var st3 := SwitchClose(st2, s.body, n);
    StacksProper(st3, n, n);
    PlaceProper(st3.(breaks := Pop(st3.breaks)), n);
  }

  lemma SameBreaks(st: Builder, e: Expr, k: nat, i: Instr)
    ensures Put(AddBlocks(PutExpr(st, e), k), i).breaks == st.breaks
  {
  }

  lemma CloseProper(st: Builder, body: Stmts, n: nat)
    requires Proper(st) && n + 2 + CountCases(body) <= |st.blocks|
    ensures Proper(SwitchClose(st, body, n)) && |SwitchClose(st, body, n).blocks| == |st.blocks|
  {
    hide Proper, BranchIfOpen, CloseAll;
    LabelBlocksBound(body, n + 2, n + 1);
    BranchProper(st, n);
    var st1 := BranchIfOpen(st, n);
    PlaceProper(st1, n + 1);
    BranchProper(At(st1, n + 1), n);
    CloseAllProper(if HasDefault(body) then st1 else BranchIfOpen(At(st1, n + 1), n),
                   LabelBlocks(body, n + 2, n + 1), n);
  }

  lemma {:induction false} BodyProper(st: Builder, l: Stmts, next: nat, dflt: nat)
    requires Proper(st) && dflt < |st.blocks| && next + CountCases(l) <= |st.blocks|
    ensures Proper(LowerBody(st, l, next, dflt)) && |st.blocks| <= |LowerBody(st, l, next, dflt).blocks|
    decreases l, 0
  {
    hide Proper, Lower, BranchIfOpen;
    if l.Cons? {
      if l.head.Case? || l.head.Default? {
        var b := if l.head.Case? then next else dflt;
        BranchProper(st, b);
        PlaceProper(BranchIfOpen(st, b), b);
        BodyProper(At(BranchIfOpen(st, b), b), l.tail, if l.head.Case? then next + 1 else next, dflt);
      } else {
        LowerProper(st, l.head);
        BodyProper(Lower(st, l.head).st, l.tail, next, dflt);
      }
    }
  }
}
